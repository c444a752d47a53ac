/** The key table behind `ExternalApiService`
    (server/src/modules/external/external-api-service.ts): the rows of
    `app.external_api_keys` and `app.external_api_usage`, and what the service's queries
    read from and write to them. A table is a sequence of rows in storage order; `NOW()` is
    a clock value given as a parameter. */
module ApiKeys {
  import opened Wrappers
  import opened Collections

  datatype Provider = GeminiPro | OpenAiPlus | ClaudePro | CustomApi

  /** A row of `app.external_api_keys`; `apiKey` is the stored, encoded key. Times are
      clock values. */
  datatype ApiKey = ApiKey(id: string, userId: string, provider: Provider, apiKey: string,
                           displayName: string, isActive: bool, usageLimit: int, usedCount: int,
                           createdAt: int, updatedAt: int)

  /** A row of `app.external_api_usage` (its cost column aside). */
  datatype Usage = Usage(userId: string, apiKeyId: string, provider: Provider, endpoint: string,
                         tokensUsed: int, responseTimeMs: int, success: bool,
                         errorMessage: Option<string>, createdAt: int)

  /** The answer of `checkApiKeyLimit`, its `resetTime` aside. */
  datatype LimitCheck = LimitCheck(allowed: bool, remaining: int)

  /** What `getUserApiKeys` shows in place of a stored key. */
  const Mask: string := "***"

  /** Key ids are the table's primary key. */
  ghost predicate UniqueIds(keys: seq<ApiKey>) {
    forall i, j :: 0 <= i < j < |keys| ==> keys[i].id != keys[j].id
  }

  // ---------------------------------------------------------------------------
  // checkApiKeyLimit

  /** `SELECT ... WHERE id = $1 AND is_active = true`, its first row. */
  function FindActive(keys: seq<ApiKey>, id: string): (r: Option<ApiKey>)
    ensures r.Some? ==> r.value in keys && r.value.id == id && r.value.isActive
    ensures r.None? <==> forall k :: k in keys ==> k.id != id || !k.isActive
  {
    if keys == [] then None
    else if keys[0].id == id && keys[0].isActive then Some(keys[0])
    else
      assert forall k :: k in keys ==> k == keys[0] || k in keys[1..];
      FindActive(keys[1..], id)
  }

  /** With unique ids, the active row carrying `id` is the one found. */
  lemma {:induction false} FindActiveUnique(keys: seq<ApiKey>, id: string, k: ApiKey)
    requires UniqueIds(keys)
    requires k in keys && k.id == id && k.isActive
    ensures FindActive(keys, id) == Some(k)
  {
    if keys[0] != k {
      var j :| 0 <= j < |keys| && keys[j] == k;
      assert j > 0 && keys[0].id != keys[j].id;
      assert k in keys[1..];
      FindActiveUnique(keys[1..], id, k);
    }
  }

  /** `Math.max(0, usage_limit - used_count)`. */
  function Remaining(k: ApiKey): (r: int)
    ensures r >= 0 && r >= k.usageLimit - k.usedCount
    ensures r == 0 || r == k.usageLimit - k.usedCount
  {
    if k.usageLimit - k.usedCount > 0 then k.usageLimit - k.usedCount else 0
  }

  /** `checkApiKeyLimit(apiKeyId)`: the remaining quota is never negative, the call is
      allowed exactly when some remains, and an unknown or inactive key has none. */
  function Limit(keys: seq<ApiKey>, id: string): (r: LimitCheck)
    ensures r.remaining >= 0
    ensures r.allowed <==> r.remaining > 0
    ensures (forall k :: k in keys ==> k.id != id || !k.isActive) ==> r == LimitCheck(false, 0)
  {
    match FindActive(keys, id)
    case None => LimitCheck(false, 0)
    case Some(k) => LimitCheck(Remaining(k) > 0, Remaining(k))
  }

  /** For an active key the check reports what is left of its limit, and allows the call
      exactly when fewer calls than the limit were counted. */
  lemma LimitOfActiveKey(keys: seq<ApiKey>, k: ApiKey)
    requires UniqueIds(keys)
    requires k in keys && k.isActive
    ensures Limit(keys, k.id).remaining == if k.usedCount < k.usageLimit then k.usageLimit - k.usedCount else 0
    ensures Limit(keys, k.id).allowed <==> k.usedCount < k.usageLimit
  {
    FindActiveUnique(keys, k.id, k);
  }

  // ---------------------------------------------------------------------------
  // recordApiUsage

  /** `SET used_count = used_count + 1, updated_at = NOW() WHERE id = $1`, on one row. */
  function Bump(id: string, now: int): ApiKey -> ApiKey {
    (k: ApiKey) => if k.id == id then k.(usedCount := k.usedCount + 1, updatedAt := now) else k
  }

  /** The key table after a successful use of `id`: every row with that id, active or not,
      counts one more use; nothing else changes. */
  function Incremented(keys: seq<ApiKey>, id: string, now: int): (r: seq<ApiKey>)
    ensures |r| == |keys|
    ensures forall i :: 0 <= i < |keys| ==>
      r[i].usedCount == keys[i].usedCount + (if keys[i].id == id then 1 else 0)
    ensures forall i :: 0 <= i < |keys| ==>
      r[i].(usedCount := keys[i].usedCount, updatedAt := keys[i].updatedAt) == keys[i]
    ensures forall i :: 0 <= i < |keys| && keys[i].id != id ==> r[i] == keys[i]
  {
    Map(keys, Bump(id, now))
  }

  /** Looking a key up after a change that keeps every row's id and activity finds the
      changed form of the row found before. */
  lemma {:induction false} FindActiveMapped(keys: seq<ApiKey>, f: ApiKey -> ApiKey, id: string)
    requires forall k :: k in keys ==> f(k).id == k.id && f(k).isActive == k.isActive
    ensures FindActive(Map(keys, f), id)
         == match FindActive(keys, id) case None => None case Some(k) => Some(f(k))
  {
    if keys != [] {
      assert Map(keys, f)[1..] == Map(keys[1..], f);
      assert forall k :: k in keys[1..] ==> k in keys;
      FindActiveMapped(keys[1..], f, id);
    }
  }

  /** A successful use costs one unit of that key's quota, down to zero, and no other key's
      quota changes. */
  lemma UseConsumesQuota(keys: seq<ApiKey>, id: string, now: int, other: string)
    requires other != id
    ensures var before, after := Limit(keys, id), Limit(Incremented(keys, id, now), id);
      after.remaining == if before.remaining > 0 then before.remaining - 1 else 0
    ensures Limit(Incremented(keys, id, now), other) == Limit(keys, other)
  {
    FindActiveMapped(keys, Bump(id, now), id);
    FindActiveMapped(keys, Bump(id, now), other);
  }

  // ---------------------------------------------------------------------------
  // deleteApiKey

  /** `WHERE id = $1 AND user_id = $2`. */
  function Owned(userId: string, id: string): ApiKey -> bool {
    (k: ApiKey) => k.id == id && k.userId == userId
  }

  /** `SET is_active = false, updated_at = NOW()`, on one row. */
  function SoftDelete(userId: string, id: string, now: int): ApiKey -> ApiKey {
    (k: ApiKey) => if k.id == id && k.userId == userId then k.(isActive := false, updatedAt := now) else k
  }

  /** The key table after `deleteApiKey(userId, id)`: the row with that id owned by that
      user is switched off and stays in the table; nothing else changes. */
  function Deactivated(keys: seq<ApiKey>, userId: string, id: string, now: int): (r: seq<ApiKey>)
    ensures |r| == |keys|
    ensures forall i :: 0 <= i < |keys| ==>
      r[i].isActive == (keys[i].isActive && !(keys[i].id == id && keys[i].userId == userId))
    ensures forall i :: 0 <= i < |keys| ==>
      r[i].(isActive := keys[i].isActive, updatedAt := keys[i].updatedAt) == keys[i]
    ensures forall i :: 0 <= i < |keys| && !(keys[i].id == id && keys[i].userId == userId) ==> r[i] == keys[i]
  {
    Map(keys, SoftDelete(userId, id, now))
  }

  /** The UPDATE's row count is positive exactly when a row with that id belongs to that
      user, whether or not it was still active. */
  lemma RowCountSpec(keys: seq<ApiKey>, userId: string, id: string)
    ensures |Filter(keys, Owned(userId, id))| > 0
        <==> exists i :: 0 <= i < |keys| && keys[i].id == id && keys[i].userId == userId
  {
    var hit := Filter(keys, Owned(userId, id));
    if |hit| > 0 {
      assert hit[0] in keys;
    }
  }

  /** A deleted key has no quota left, provided no other user's row carries its id. */
  lemma DeleteRevokesQuota(keys: seq<ApiKey>, userId: string, id: string, now: int)
    requires forall k :: k in keys && k.id == id ==> k.userId == userId
    ensures Limit(Deactivated(keys, userId, id, now), id) == LimitCheck(false, 0)
  {
    var r := Deactivated(keys, userId, id, now);
    forall k | k in r ensures k.id != id || !k.isActive {
      var i :| 0 <= i < |r| && r[i] == k;
      assert keys[i] in keys;
    }
  }

  // ---------------------------------------------------------------------------
  // getUserApiKeys

  /** `WHERE user_id = $1 AND is_active = true`. */
  function ActiveOf(userId: string): ApiKey -> bool {
    (k: ApiKey) => k.userId == userId && k.isActive
  }

  /** `ORDER BY created_at DESC`. */
  function CreatedAt(k: ApiKey): real {
    k.createdAt as real
  }

  /** `{ ...row, api_key: '***' }`. */
  function Masked(k: ApiKey): ApiKey {
    k.(apiKey := Mask)
  }

  /** `getUserApiKeys(userId)`: the user's active keys, newest first, each with its key
      hidden. */
  function UserApiKeys(keys: seq<ApiKey>, userId: string): seq<ApiKey> {
    Map(SortDesc(Filter(keys, ActiveOf(userId)), CreatedAt), Masked)
  }

  /** The listing is newest first and as long as the list of the user's active keys. */
  lemma UserApiKeysSorted(keys: seq<ApiKey>, userId: string)
    ensures SortedDesc(UserApiKeys(keys, userId), CreatedAt)
    ensures |UserApiKeys(keys, userId)| == |Filter(keys, ActiveOf(userId))|
  {
    var sorted := SortDesc(Filter(keys, ActiveOf(userId)), CreatedAt);
    var r := UserApiKeys(keys, userId);
    assert forall j :: 0 <= j < |r| ==> CreatedAt(r[j]) == CreatedAt(sorted[j]);
  }

  /** Every listed key is one of the user's active keys, masked. */
  lemma UserApiKeysSound(keys: seq<ApiKey>, userId: string, e: ApiKey)
    requires e in UserApiKeys(keys, userId)
    ensures e.userId == userId && e.isActive && e.apiKey == Mask
    ensures exists i :: 0 <= i < |keys| && Masked(keys[i]) == e
  {
    var active := Filter(keys, ActiveOf(userId));
    var sorted := SortDesc(active, CreatedAt);
    var r := UserApiKeys(keys, userId);
    var j :| 0 <= j < |r| && r[j] == e;
    assert sorted[j] in multiset(active);
    assert sorted[j] in active;
    var i :| 0 <= i < |keys| && keys[i] == sorted[j];
  }

  /** Every active key of the user is listed, masked. */
  lemma UserApiKeysComplete(keys: seq<ApiKey>, userId: string, i: nat)
    requires i < |keys| && keys[i].userId == userId && keys[i].isActive
    ensures Masked(keys[i]) in UserApiKeys(keys, userId)
  {
    var active := Filter(keys, ActiveOf(userId));
    var sorted := SortDesc(active, CreatedAt);
    assert ActiveOf(userId)(keys[i]) && keys[i] in keys;
    assert keys[i] in multiset(active);
    assert keys[i] in multiset(sorted);
    var j :| 0 <= j < |sorted| && sorted[j] == keys[i];
    assert UserApiKeys(keys, userId)[j] == Masked(keys[i]);
  }

  /** After a delete the key no longer appears in its owner's listing. */
  lemma DeletedKeyUnlisted(keys: seq<ApiKey>, userId: string, id: string, now: int, e: ApiKey)
    requires e in UserApiKeys(Deactivated(keys, userId, id, now), userId)
    ensures e.id != id
  {
    var d := Deactivated(keys, userId, id, now);
    UserApiKeysSound(d, userId, e);
    var i :| 0 <= i < |d| && Masked(d[i]) == e;
  }

  /** A delete leaves every other user's listing as it was. */
  lemma DeleteKeepsOtherUsers(keys: seq<ApiKey>, userId: string, id: string, now: int, other: string)
    requires other != userId
    ensures UserApiKeys(Deactivated(keys, userId, id, now), other) == UserApiKeys(keys, other)
  {
    FilterAfterMap(keys, SoftDelete(userId, id, now), ActiveOf(other));
  }
}
