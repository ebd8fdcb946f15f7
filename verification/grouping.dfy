/** The `GROUP BY key` + `count(*)` queries of the billing service and of the
    usage summary endpoint, as a function over the sequence of grouping keys
    of the rows that passed the `WHERE` filter.

    SQL returns the groups in no particular order; this model lists them in
    the order in which each key first occurs. */
module Grouping {

  /** Number of occurrences of `k` in `s`. */
  function Count<K(==)>(s: seq<K>, k: K): (n: nat)
    ensures n <= |s|
    ensures n == 0 <==> k !in s
  {
    if s == [] then 0
    else Count(s[..|s| - 1], k) + (if s[|s| - 1] == k then 1 else 0)
  }

  /** Adds one occurrence of `k` to a list of (key, count) groups. */
  function Bump<K(==)>(g: seq<(K, nat)>, k: K): seq<(K, nat)>
  {
    if g == [] then [(k, 1)]
    else if g[0].0 == k then [(k, g[0].1 + 1)] + g[1..]
    else [g[0]] + Bump(g[1..], k)
  }

  /** One (key, count) row per distinct key of `s`. */
  function Groups<K(==)>(s: seq<K>): seq<(K, nat)>
  {
    if s == [] then [] else Bump(Groups(s[..|s| - 1]), s[|s| - 1])
  }

  function Keys<K>(g: seq<(K, nat)>): seq<K>
  {
    if g == [] then [] else [g[0].0] + Keys(g[1..])
  }

  /** The count a list of groups records for `k` (0 when `k` has no group). */
  function CountIn<K(==)>(g: seq<(K, nat)>, k: K): nat
  {
    if g == [] then 0 else if g[0].0 == k then g[0].1 else CountIn(g[1..], k)
  }

  /** Sum of the counts of all groups. */
  function Total<K>(g: seq<(K, nat)>): nat
  {
    if g == [] then 0 else g[0].1 + Total(g[1..])
  }

  ghost predicate DistinctKeys<K>(g: seq<(K, nat)>)
  {
    forall i, j :: 0 <= i < j < |g| ==> g[i].0 != g[j].0
  }

  ghost predicate Positive<K>(g: seq<(K, nat)>)
  {
    forall i :: 0 <= i < |g| ==> g[i].1 >= 1
  }

  lemma {:induction false} KeysAt<K>(g: seq<(K, nat)>, i: nat)
    requires i < |g|
    ensures |Keys(g)| == |g| && Keys(g)[i] == g[i].0
  {
    if i > 0 {
      KeysAt(g[1..], i - 1);
    } else if |g| > 1 {
      KeysAt(g[1..], 0);
    }
  }

  lemma {:induction false} KeysLength<K>(g: seq<(K, nat)>)
    ensures |Keys(g)| == |g|
  {
    if g != [] {
      KeysLength(g[1..]);
    }
  }

  /** Adding an occurrence of `k` adds `k` to the keys and no other key. */
  lemma {:induction false} BumpKeys<K>(g: seq<(K, nat)>, k: K)
    ensures forall x :: x in Keys(Bump(g, k)) <==> x in Keys(g) || x == k
  {
    if g != [] && g[0].0 != k {
      BumpKeys(g[1..], k);
      assert Keys(Bump(g, k)) == [g[0].0] + Keys(Bump(g[1..], k));
      assert Keys(g) == [g[0].0] + Keys(g[1..]);
    } else if g != [] {
      assert Keys(Bump(g, k)) == [k] + Keys(g[1..]);
      assert Keys(g) == [k] + Keys(g[1..]);
    }
  }

  /** Adding an occurrence keeps the keys distinct. */
  lemma {:induction false} BumpKeepsDistinct<K>(g: seq<(K, nat)>, k: K)
    requires DistinctKeys(g)
    ensures DistinctKeys(Bump(g, k))
  {
    if g != [] && g[0].0 != k {
      var r := Bump(g[1..], k);
      assert DistinctKeys(g[1..]);
      BumpKeepsDistinct(g[1..], k);
      BumpKeys(g[1..], k);
      assert Bump(g, k) == [g[0]] + r;
      forall j | 0 <= j < |r| ensures r[j].0 != g[0].0 {
        KeysAt(r, j);
        assert r[j].0 in Keys(r);
        if r[j].0 == g[0].0 {
          assert g[0].0 in Keys(g[1..]);
          var m :| 0 <= m < |Keys(g[1..])| && Keys(g[1..])[m] == g[0].0;
          KeysLength(g[1..]);
          KeysAt(g[1..], m);
          assert false;
        }
      }
    }
  }

  /** Adding an occurrence of `k` changes exactly `k`'s count, by one, keeps
      the keys distinct and the counts positive, and adds a group for `k` only
      when there was none. */
  lemma {:induction false} BumpSpec<K>(g: seq<(K, nat)>, k: K)
    ensures forall x :: CountIn(Bump(g, k), x) == CountIn(g, x) + (if x == k then 1 else 0)
    ensures Total(Bump(g, k)) == Total(g) + 1
    ensures forall x :: x in Keys(Bump(g, k)) <==> x in Keys(g) || x == k
    ensures DistinctKeys(g) ==> DistinctKeys(Bump(g, k))
    ensures Positive(g) ==> Positive(Bump(g, k))
  {
    BumpKeys(g, k);
    if DistinctKeys(g) {
      BumpKeepsDistinct(g, k);
    }
    if g != [] && g[0].0 != k {
      BumpSpec(g[1..], k);
      assert Bump(g, k) == [g[0]] + Bump(g[1..], k);
      if Positive(g) {
        assert Positive(g[1..]);
      }
    } else if g != [] {
      assert Bump(g, k) == [(k, g[0].1 + 1)] + g[1..];
    }
  }

  /** In a list with distinct keys, `CountIn` finds each group's own count. */
  lemma {:induction false} CountInAt<K>(g: seq<(K, nat)>, i: nat)
    requires DistinctKeys(g) && i < |g|
    ensures CountIn(g, g[i].0) == g[i].1
  {
    if i > 0 {
      assert DistinctKeys(g[1..]);
      CountInAt(g[1..], i - 1);
    }
  }

  /** Occurrences in a concatenation add up. */
  lemma {:induction false} CountAppend<K>(a: seq<K>, b: seq<K>, k: K)
    ensures Count(a + b, k) == Count(a, k) + Count(b, k)
  {
    if b == [] {
      assert a + b == a;
    } else {
      assert (a + b)[..|a + b| - 1] == a + b[..|b| - 1];
      CountAppend(a, b[..|b| - 1], k);
    }
  }

  /** What the grouped count query returns: each key at most once, each key
      of the input exactly once, each group's count the number of input rows
      with that key, and the counts adding up to the number of input rows. */
  lemma {:induction false} GroupsSpec<K>(s: seq<K>)
    ensures DistinctKeys(Groups(s)) && Positive(Groups(s))
    ensures forall k :: CountIn(Groups(s), k) == Count(s, k)
    ensures forall k :: k in Keys(Groups(s)) <==> k in s
    ensures Total(Groups(s)) == |s|
  {
    if s != [] {
      var init, last := s[..|s| - 1], s[|s| - 1];
      GroupsSpec(init);
      BumpSpec(Groups(init), last);
      assert s == init + [last];
      forall k ensures k in s <==> k in init || k == last {
      }
    }
  }

  /** Each group of the result counts exactly the input rows with its key. */
  lemma GroupCountIsCount<K>(s: seq<K>, i: nat)
    requires i < |Groups(s)|
    ensures Groups(s)[i].1 == Count(s, Groups(s)[i].0)
  {
    GroupsSpec(s);
    var g := Groups(s);
    CountInAt(g, i);
    assert CountIn(g, g[i].0) == Count(s, g[i].0);
  }

  /** When every row has the same key, there is one group holding them all. */
  lemma {:induction false} GroupsOfOneKey<K>(s: seq<K>, k: K)
    requires s != []
    requires forall i :: 0 <= i < |s| ==> s[i] == k
    ensures Groups(s) == [(k, |s|)]
  {
    if |s| > 1 {
      GroupsOfOneKey(s[..|s| - 1], k);
    }
  }
}
