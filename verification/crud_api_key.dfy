/** Issuing and looking up API credentials (app/crud/crud_api_key.py), and the
    lookup by digest that both middlewares run against the same table.

    SHA-256 is the parameter `hash`, about which nothing is assumed (in
    particular not that it is injective), and the random secret is a
    parameter.  `key_hash` is indexed but not unique, so every lookup takes
    the first matching row. */
module CrudApiKey {
  import opened Wrappers
  import opened Models

  /** The public prefix of every live key. */
  const KeyPrefix: string := "sk_live_"

  /** What `generate_api_key` returns: (full_key, prefix, key_hash). */
  datatype GeneratedKey = GeneratedKey(fullKey: string, prefix: string, keyHash: Digest)

  /** The fields of an `APIKeyCreate` request body that reach the table. */
  datatype ApiKeyCreate = ApiKeyCreate(name: string, rateLimitPerSec: int)

  /** The request body with the schema's default limit. */
  function DefaultCreate(name: string): (c: ApiKeyCreate)
    ensures c.rateLimitPerSec == DefaultRateLimitPerSec == 5
  {
    ApiKeyCreate(name, DefaultRateLimitPerSec)
  }

  /** Builds a key from the secret: the full key is the prefix followed by the
      secret, so it starts with the returned prefix and the secret can be read
      back from it; the digest is that of the whole full key. */
  function GenerateApiKey(secret: string, hash: string -> Digest): (g: GeneratedKey)
    ensures g.prefix == KeyPrefix
    ensures |g.fullKey| == |KeyPrefix| + |secret|
    ensures g.fullKey[..|g.prefix|] == g.prefix && g.fullKey[|g.prefix|..] == secret
    ensures g.keyHash == hash(g.fullKey)
  {
    var fullKey := KeyPrefix + secret;
    GeneratedKey(fullKey, KeyPrefix, hash(fullKey))
  }

  /** Index of the first row satisfying `p`, as `.scalars().first()` picks it. */
  function FirstWhere(rows: seq<ApiKey>, p: ApiKey -> bool): (r: Option<nat>)
    ensures r.Some? ==> r.value < |rows| && p(rows[r.value])
    ensures r.Some? ==> forall j :: 0 <= j < r.value ==> !p(rows[j])
    ensures r.None? <==> forall j :: 0 <= j < |rows| ==> !p(rows[j])
  {
    if rows == [] then None
    else if p(rows[0]) then Some(0)
    else
      match FirstWhere(rows[1..], p)
      case None => None
      case Some(i) => Some(i + 1)
  }

  /** Appending a row does not change an existing first match, and the new row
      is the first match exactly when no older row matched. */
  lemma {:induction false} FirstWhereAppend(rows: seq<ApiKey>, x: ApiKey, p: ApiKey -> bool)
    ensures FirstWhere(rows + [x], p)
            == if FirstWhere(rows, p).Some? then FirstWhere(rows, p)
               else if p(x) then Some(|rows|) else None
  {
    if rows != [] {
      assert (rows + [x])[1..] == rows[1..] + [x];
      FirstWhereAppend(rows[1..], x, p);
    }
  }

  function Row(rows: seq<ApiKey>, i: Option<nat>): Option<ApiKey>
    requires i.Some? ==> i.value < |rows|
  {
    if i.Some? then Some(rows[i.value]) else None
  }

  /** `get_api_key`: the first row with the given id, or none. */
  function GetApiKey(rows: seq<ApiKey>, keyId: Id): (r: Option<ApiKey>)
    ensures r.None? <==> forall j :: 0 <= j < |rows| ==> rows[j].id != keyId
    ensures r.Some? ==> exists i :: 0 <= i < |rows| && rows[i] == r.value && r.value.id == keyId
                                    && forall j :: 0 <= j < i ==> rows[j].id != keyId
  {
    Row(rows, FirstWhere(rows, (k: ApiKey) => k.id == keyId))
  }

  /** `select(APIKey).filter(APIKey.key_hash == digest)` then `.first()`, as both
      middlewares run it. */
  function FindByHash(rows: seq<ApiKey>, digest: Digest): (r: Option<ApiKey>)
    ensures r.None? <==> forall j :: 0 <= j < |rows| ==> rows[j].keyHash != digest
    ensures r.Some? ==> exists i :: 0 <= i < |rows| && rows[i] == r.value && r.value.keyHash == digest
                                    && forall j :: 0 <= j < i ==> rows[j].keyHash != digest
  {
    Row(rows, FirstWhere(rows, (k: ApiKey) => k.keyHash == digest))
  }

  /** After a row is added, a lookup by digest finds what it found before if
      anything; otherwise it finds the new row exactly when the digests agree. */
  lemma FindByHashAppend(rows: seq<ApiKey>, key: ApiKey, digest: Digest)
    ensures FindByHash(rows + [key], digest)
            == if FindByHash(rows, digest).Some? then FindByHash(rows, digest)
               else if key.keyHash == digest then Some(key) else None
  {
    FirstWhereAppend(rows, key, (k: ApiKey) => k.keyHash == digest);
  }

  /** `get_api_keys_by_org`: the rows of one org, in table order. */
  function GetApiKeysByOrg(rows: seq<ApiKey>, orgId: Id): (r: seq<ApiKey>)
    ensures forall i :: 0 <= i < |r| ==> r[i].orgId == orgId
  {
    if rows == [] then []
    else
      (if rows[0].orgId == orgId then [rows[0]] else []) + GetApiKeysByOrg(rows[1..], orgId)
  }

  /** The listing holds exactly the org's rows, each as often as the table
      holds it, and nothing else. */
  lemma {:induction false} GetApiKeysByOrgExact(rows: seq<ApiKey>, orgId: Id)
    ensures forall k :: multiset(GetApiKeysByOrg(rows, orgId))[k]
                        == if k.orgId == orgId then multiset(rows)[k] else 0
  {
    if rows != [] {
      assert rows == [rows[0]] + rows[1..];
      GetApiKeysByOrgExact(rows[1..], orgId);
    }
  }

  /** Listing an org's keys after a key was added gives the old list, followed
      by the new key when it belongs to that org. */
  lemma {:induction false} GetApiKeysByOrgAppend(rows: seq<ApiKey>, key: ApiKey, orgId: Id)
    ensures GetApiKeysByOrg(rows + [key], orgId)
            == GetApiKeysByOrg(rows, orgId) + (if key.orgId == orgId then [key] else [])
  {
    var tail := if key.orgId == orgId then [key] else [];
    if rows == [] {
      assert GetApiKeysByOrg([key], orgId) == tail + GetApiKeysByOrg([], orgId);
    } else {
      var head := if rows[0].orgId == orgId then [rows[0]] else [];
      var all := rows + [key];
      assert all[0] == rows[0] && all[1..] == rows[1..] + [key];
      GetApiKeysByOrgAppend(rows[1..], key, orgId);
      calc {
        GetApiKeysByOrg(all, orgId);
        head + GetApiKeysByOrg(rows[1..] + [key], orgId);
        head + (GetApiKeysByOrg(rows[1..], orgId) + tail);
        (head + GetApiKeysByOrg(rows[1..], orgId)) + tail;
        GetApiKeysByOrg(rows, orgId) + tail;
      }
    }
  }

  /** The `api_keys` table. */
  class ApiKeyTable {
    var rows: seq<ApiKey>

    constructor ()
      ensures rows == []
    {
      rows := [];
    }

    /** `create_api_key`: stores the prefix, the digest of the full key, the
        name, the org and the requested limit (active, created at `now`), and
        hands the full key back to the caller only.  `keyId` is the UUID the
        table assigns. */
    method CreateApiKey(input: ApiKeyCreate, orgId: Id, keyId: Id, secret: string,
                        hash: string -> Digest, now: nat)
      returns (key: ApiKey, fullKey: string)
      modifies this
      ensures fullKey == KeyPrefix + secret
      ensures key == ApiKey(keyId, orgId, KeyPrefix, hash(fullKey), input.name, true,
                            input.rateLimitPerSec, now)
      ensures rows == old(rows) + [key]
    {
      var generated := GenerateApiKey(secret, hash);
      fullKey := generated.fullKey;
      key := ApiKey(keyId, orgId, generated.prefix, generated.keyHash, input.name, true,
                    input.rateLimitPerSec, now);
      rows := rows + [key];
    }
  }
}
