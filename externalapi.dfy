/** `ExternalApiService` (server/src/modules/external/external-api-service.ts) over an
    in-memory copy of its two tables. Each async method becomes a method of the class: the
    queries that only read become methods that return the value a specification function
    gives, and the INSERTs and UPDATEs reassign the `keys` and `usage` fields. The network
    check of a new key, the database's fresh ids and `NOW()` are parameters. */
module ExternalApi {
  import opened Wrappers
  import opened Collections
  import opened ApiKeys
  import opened UsageStats
  import opened KeyCodec

  /** The answer of `addApiKey`, its message text aside. */
  datatype AddOutcome = AddOutcome(success: bool, apiKeyId: Option<string>)

  /** `validateApiKey(provider, apiKey)`: a custom provider is never accepted; for the
      others the answer is whether the provider's endpoint accepted the key. */
  function Validated(provider: Provider, accepted: bool): (r: bool)
    ensures r ==> accepted
    ensures r <==> provider != CustomApi && accepted
  {
    match provider
    case CustomApi => false
    case _ => accepted
  }

  /** The row `addApiKey` inserts: the key stored encoded, active, with nothing used yet
      (`used_count` defaults to 0 in the table's schema). */
  function NewKey(id: string, userId: string, provider: Provider, apiKey: string,
                  displayName: string, usageLimit: int, now: int): (k: ApiKey)
    ensures k.id == id && k.userId == userId && k.provider == provider
    ensures k.isActive && k.usedCount == 0 && k.usageLimit == usageLimit
    ensures DecryptApiKey(k.apiKey) == apiKey
  {
    DecryptEncrypt(apiKey);
    ApiKey(id, userId, provider, EncryptApiKey(apiKey), displayName, true, usageLimit, 0, now, now)
  }

  /** `getDecryptedApiKey(apiKeyId)`: the decoded key of the active row with that id, or
      `null` when there is none. */
  function DecryptedApiKey(keys: seq<ApiKey>, id: string): (r: Option<string>)
    ensures r.None? <==> forall k :: k in keys ==> k.id != id || !k.isActive
    ensures r.Some? ==> exists k :: k in keys && k.id == id && k.isActive && r.value == DecryptApiKey(k.apiKey)
  {
    match FindActive(keys, id)
    case None => None
    case Some(k) => Some(DecryptApiKey(k.apiKey))
  }

  /** `startDate.setDate(startDate.getDate() - days)`, with days of fixed length. */
  function Since(now: int, days: int): (r: int)
    ensures days >= 0 ==> r <= now
  {
    now - days * DayMs
  }

  /** The service's state: the key table and the usage log. */
  class ExternalApiService {
    var keys: seq<ApiKey>
    var usage: seq<Usage>

    /** Key ids are the primary key of `app.external_api_keys`. */
    ghost predicate Valid()
      reads this
    {
      UniqueIds(keys)
    }

    constructor(keys: seq<ApiKey>, usage: seq<Usage>)
      requires UniqueIds(keys)
      ensures Valid() && this.keys == keys && this.usage == usage
    {
      this.keys := keys;
      this.usage := usage;
    }

    /** `addApiKey`: a key the provider accepts is stored encoded, under a fresh id, and its
        id returned; a refused key changes nothing. */
    method AddApiKey(userId: string, provider: Provider, apiKey: string, displayName: string,
                     usageLimit: int, accepted: bool, newId: string, now: int)
      returns (r: AddOutcome)
      requires Valid()
      requires forall k :: k in keys ==> k.id != newId
      modifies this
      ensures Valid()
      ensures r.success <==> Validated(provider, accepted)
      ensures r.apiKeyId == if r.success then Some(newId) else None
      ensures keys == if r.success
                      then old(keys) + [NewKey(newId, userId, provider, apiKey, displayName, usageLimit, now)]
                      else old(keys)
      ensures usage == old(usage)
    {
      if !Validated(provider, accepted) {
        return AddOutcome(false, None);
      }
      keys := keys + [NewKey(newId, userId, provider, apiKey, displayName, usageLimit, now)];
      r := AddOutcome(true, Some(newId));
    }

    /** `getUserApiKeys(userId)`. */
    method GetUserApiKeys(userId: string) returns (r: seq<ApiKey>)
      ensures r == UserApiKeys(keys, userId)
    {
      var active := Filter(keys, ActiveOf(userId));
      r := Map(SortDesc(active, CreatedAt), Masked);
    }

    /** `checkApiKeyLimit(apiKeyId)`, its `resetTime` aside. */
    method CheckApiKeyLimit(apiKeyId: string) returns (r: LimitCheck)
      ensures r == Limit(keys, apiKeyId)
    {
      var found := FindActive(keys, apiKeyId);
      if found.None? {
        return LimitCheck(false, 0);
      }
      var remaining := Remaining(found.value);
      r := LimitCheck(remaining > 0, remaining);
    }

    /** `recordApiUsage`: the call is always logged; only a successful call counts against
        the key's quota. */
    method RecordApiUsage(userId: string, apiKeyId: string, provider: Provider, endpoint: string,
                          tokensUsed: int, responseTimeMs: int, success: bool,
                          errorMessage: Option<string>, now: int)
      requires Valid()
      modifies this
      ensures Valid()
      ensures usage == old(usage) + [Usage(userId, apiKeyId, provider, endpoint, tokensUsed,
                                           responseTimeMs, success, errorMessage, now)]
      ensures keys == if success then Incremented(old(keys), apiKeyId, now) else old(keys)
    {
      usage := usage + [Usage(userId, apiKeyId, provider, endpoint, tokensUsed, responseTimeMs,
                              success, errorMessage, now)];
      if success {
        var before := keys;
        keys := Incremented(keys, apiKeyId, now);
        assert forall i :: 0 <= i < |keys| ==> keys[i].id == before[i].id;
      }
    }

    /** `getDecryptedApiKey(apiKeyId)`. */
    method GetDecryptedApiKey(apiKeyId: string) returns (r: Option<string>)
      ensures r == DecryptedApiKey(keys, apiKeyId)
    {
      var found := FindActive(keys, apiKeyId);
      if found.None? {
        return None;
      }
      r := Some(DecryptApiKey(found.value.apiKey));
    }

    /** `deleteApiKey(userId, apiKeyId)`: the owner's row is switched off, and the answer
        says whether the UPDATE matched a row. */
    method DeleteApiKey(userId: string, apiKeyId: string, now: int) returns (deleted: bool)
      requires Valid()
      modifies this
      ensures Valid()
      ensures deleted <==> exists i :: 0 <= i < |old(keys)| && old(keys)[i].id == apiKeyId
                                       && old(keys)[i].userId == userId
      ensures keys == Deactivated(old(keys), userId, apiKeyId, now)
      ensures usage == old(usage)
    {
      var rowCount := |Filter(keys, Owned(userId, apiKeyId))|;
      RowCountSpec(keys, userId, apiKeyId);
      var before := keys;
      keys := Deactivated(keys, userId, apiKeyId, now);
      assert forall i :: 0 <= i < |keys| ==> keys[i].id == before[i].id;
      deleted := rowCount > 0;
    }

    /** `getUsageStats(userId, days)`, its cost sums aside. */
    method GetUsageStats(userId: string, days: int, now: int) returns (s: Stats)
      ensures s == StatsOf(QueryRows(usage, userId, Since(now, days)))
    {
      var rows := QueryRows(usage, userId, Since(now, days));
      s := Aggregate(rows);
    }
  }

  // ---------------------------------------------------------------------------
  // Properties across operations

  /** A key just added reads back decoded and has its whole limit left. */
  lemma AddedKeyUsable(keys: seq<ApiKey>, id: string, userId: string, provider: Provider,
                       apiKey: string, displayName: string, usageLimit: int, now: int)
    requires forall k :: k in keys ==> k.id != id
    ensures var after := keys + [NewKey(id, userId, provider, apiKey, displayName, usageLimit, now)];
      && DecryptedApiKey(after, id) == Some(apiKey)
      && Limit(after, id) == LimitCheck(usageLimit > 0, if usageLimit > 0 then usageLimit else 0)
  {
    var k := NewKey(id, userId, provider, apiKey, displayName, usageLimit, now);
    var after := keys + [k];
    assert k in after;
    assert FindActive(after, id) == Some(k);
  }

  /** A key just added shows up, masked, in its owner's listing. */
  lemma AddedKeyListed(keys: seq<ApiKey>, id: string, userId: string, provider: Provider,
                       apiKey: string, displayName: string, usageLimit: int, now: int)
    ensures var k := NewKey(id, userId, provider, apiKey, displayName, usageLimit, now);
      Masked(k) in UserApiKeys(keys + [k], userId)
  {
    var k := NewKey(id, userId, provider, apiKey, displayName, usageLimit, now);
    UserApiKeysComplete(keys + [k], userId, |keys|);
  }

  /** Totals of the statistics: the number of the user's successful calls since the start
      time, and the tokens those calls used. */
  lemma StatsCountCalls(usage: seq<Usage>, userId: string, since: int)
    ensures StatsOf(QueryRows(usage, userId, since)).totalRequests == |Filter(usage, Counted(userId, since))|
    ensures StatsOf(QueryRows(usage, userId, since)).totalTokens == Sum(Filter(usage, Counted(userId, since)), TokensUsed)
  {
    StatsTotals(QueryRows(usage, userId, since));
    QueryRowsTotals(usage, userId, since);
  }

  /** Recording a call adds one request and its tokens to the user's statistics when it
      succeeded within the window, and leaves them as they were otherwise. */
  lemma RecordedCallCounted(usage: seq<Usage>, u: Usage, userId: string, since: int)
    ensures var before, after := StatsOf(QueryRows(usage, userId, since)), StatsOf(QueryRows(usage + [u], userId, since));
      if u.userId == userId && u.createdAt >= since && u.success
      then after.totalRequests == before.totalRequests + 1 && after.totalTokens == before.totalTokens + u.tokensUsed
      else after.totalRequests == before.totalRequests && after.totalTokens == before.totalTokens
  {
    StatsCountCalls(usage, userId, since);
    StatsCountCalls(usage + [u], userId, since);
    assert (usage + [u])[..|usage|] == usage;
    var hits := Filter(usage, Counted(userId, since));
    if Counted(userId, since)(u) {
      assert (hits + [u])[..|hits|] == hits;
    }
  }
}
