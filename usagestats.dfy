/** `getUsageStats` (server/src/modules/external/external-api-service.ts:339-418): the query
    groups a user's successful calls since a start time by provider and day, and the
    service folds its rows into per-provider and per-day tallies and the grand totals. */
module UsageStats {
  import opened Collections
  import opened ApiKeys

  /** Milliseconds in a day. */
  const DayMs: int := 86400000

  /** `DATE(created_at)`: the day a clock value falls on. */
  function Day(t: int): int {
    t / DayMs
  }

  /** A row of the query's answer: the successful calls to one provider on one day. */
  datatype StatRow = StatRow(provider: Provider, date: int, requests: int, tokens: int)

  /** Running sums of requests and tokens. */
  datatype Tally = Tally(requests: int, tokens: int)

  /** The sums kept under one key: a provider's value in `by_provider`, or a day's entry
      of `daily_breakdown` (whose key is its date). */
  datatype Entry<K> = Entry(key: K, requests: int, tokens: int)

  /** The answer of `getUsageStats`, its cost sums aside; `byProvider` lists the record's
      entries in its key order. */
  datatype Stats = Stats(totalRequests: int, totalTokens: int, byProvider: seq<Entry<Provider>>,
                         dailyBreakdown: seq<Entry<int>>)

  // ---------------------------------------------------------------------------
  // The query

  /** `WHERE user_id = $1 AND created_at >= $2 AND success = true`. */
  function Counted(userId: string, since: int): Usage -> bool {
    (u: Usage) => u.userId == userId && u.createdAt >= since && u.success
  }

  /** `GROUP BY provider, DATE(created_at)`. */
  function GroupKey(u: Usage): (Provider, int) {
    (u.provider, Day(u.createdAt))
  }

  function TokensUsed(u: Usage): int {
    u.tokensUsed
  }

  function OneCall(u: Usage): int {
    1
  }

  /** `provider, DATE(created_at), COUNT(*), SUM(tokens_used)` of one group. */
  function RowOf(b: Bucket<(Provider, int), Usage>): StatRow {
    StatRow(b.key.0, b.key.1, |b.items|, Sum(b.items, TokensUsed))
  }

  function RowDate(r: StatRow): real {
    r.date as real
  }

  /** The query's answer, `ORDER BY date DESC`. */
  function QueryRows(usage: seq<Usage>, userId: string, since: int): seq<StatRow> {
    SortDesc(Map(GroupBy(Filter(usage, Counted(userId, since)), GroupKey), RowOf), RowDate)
  }

  function Requests(r: StatRow): int {
    r.requests
  }

  function RowTokens(r: StatRow): int {
    r.tokens
  }

  /** The query's rows count every successful call of the user since the start once, and
      add up its tokens. */
  lemma QueryRowsTotals(usage: seq<Usage>, userId: string, since: int)
    ensures Sum(QueryRows(usage, userId, since), Requests) == |Filter(usage, Counted(userId, since))|
    ensures Sum(QueryRows(usage, userId, since), RowTokens) == Sum(Filter(usage, Counted(userId, since)), TokensUsed)
  {
    var hits := Filter(usage, Counted(userId, since));
    var groups := GroupBy(hits, GroupKey);
    var rows := Map(groups, RowOf);
    SumPerm(QueryRows(usage, userId, since), rows, Requests);
    SumPerm(QueryRows(usage, userId, since), rows, RowTokens);
    forall b | b in groups ensures Requests(RowOf(b)) == Sum(b.items, OneCall) {
      SumOnes(b.items, OneCall);
    }
    SumMapBuckets(groups, RowOf, Requests, OneCall);
    SumMapBuckets(groups, RowOf, RowTokens, TokensUsed);
    GroupBySum(hits, GroupKey, OneCall);
    GroupBySum(hits, GroupKey, TokensUsed);
    SumOnes(hits, OneCall);
  }

  // ---------------------------------------------------------------------------
  // The fold over the rows

  function ProviderOf(r: StatRow): Provider {
    r.provider
  }

  function DateOf(r: StatRow): int {
    r.date
  }

  /** The sums of some rows. */
  function TallyOf(rows: seq<StatRow>): Tally {
    Tally(Sum(rows, Requests), Sum(rows, RowTokens))
  }

  /** The entry of one key: the sums of its rows. */
  function EntryOf<K(==)>(rows: seq<StatRow>, key: StatRow -> K): K -> Entry<K> {
    (k: K) =>
      var t := TallyOf(ItemsWithKey(rows, key, k));
      Entry(k, t.requests, t.tokens)
  }

  /** One entry per key that occurs, in the order of first occurrence. */
  function Entries<K(==)>(rows: seq<StatRow>, key: StatRow -> K): seq<Entry<K>> {
    Map(KeysInOrder(rows, key), EntryOf(rows, key))
  }

  function EntryRequests<K>(e: Entry<K>): int {
    e.requests
  }

  function EntryTokens<K>(e: Entry<K>): int {
    e.tokens
  }

  function EntryDate(e: Entry<int>): real {
    e.key as real
  }

  /** `daily_breakdown`: the days' entries, latest first. */
  function DailyBreakdown(rows: seq<StatRow>): seq<Entry<int>> {
    SortDesc(Entries(rows, DateOf), EntryDate)
  }

  /** The statistics of the query's rows: the totals are the `reduce` sums over
      `Object.values(byProvider)`. */
  function StatsOf(rows: seq<StatRow>): Stats {
    var byProvider := Entries(rows, ProviderOf);
    Stats(Sum(byProvider, EntryRequests), Sum(byProvider, EntryTokens), byProvider, DailyBreakdown(rows))
  }

  /** The Map or record the `forEach` fills under `key`: a key's entry is created at zero
      when its first row comes, and every row adds its requests and tokens to its key's
      entry. */
  function TallyMap<K(==)>(rows: seq<StatRow>, key: StatRow -> K): map<K, Tally> {
    if rows == [] then map[]
    else
      var m := TallyMap(rows[..|rows| - 1], key);
      var row := rows[|rows| - 1];
      var t := if key(row) in m then m[key(row)] else Tally(0, 0);
      m[key(row) := Tally(t.requests + row.requests, t.tokens + row.tokens)]
  }

  lemma TallyMapSnoc<K>(rows: seq<StatRow>, key: StatRow -> K, row: StatRow)
    ensures TallyMap(rows + [row], key)
         == var m := TallyMap(rows, key);
            var t := if key(row) in m then m[key(row)] else Tally(0, 0);
            m[key(row) := Tally(t.requests + row.requests, t.tokens + row.tokens)]
  {
    assert (rows + [row])[..|rows|] == rows;
  }

  lemma TallySnoc(rows: seq<StatRow>, r: StatRow)
    ensures TallyOf(rows + [r]) == Tally(TallyOf(rows).requests + r.requests, TallyOf(rows).tokens + r.tokens)
  {
    assert (rows + [r])[..|rows|] == rows;
  }

  /** The map has an entry for exactly the keys that occur. */
  lemma {:induction false} TallyMapDomain<K>(rows: seq<StatRow>, key: StatRow -> K)
    ensures forall k :: k in TallyMap(rows, key) <==> k in KeysInOrder(rows, key)
  {
    if rows != [] {
      var init, row := rows[..|rows| - 1], rows[|rows| - 1];
      TallyMapDomain(init, key);
      assert init + [row] == rows;
      KeysInOrderAppend(init, key, row);
    }
  }

  /** A key's entry holds the sums of its rows. */
  lemma {:induction false} TallyMapValue<K>(rows: seq<StatRow>, key: StatRow -> K, k: K)
    requires k in TallyMap(rows, key)
    ensures TallyMap(rows, key)[k] == TallyOf(ItemsWithKey(rows, key, k))
  {
    var init, row := rows[..|rows| - 1], rows[|rows| - 1];
    assert init + [row] == rows;
    KeysInOrderAppend(init, key, row);
    if k == key(row) {
      TallySnoc(ItemsWithKey(init, key, k), row);
      if k in TallyMap(init, key) {
        TallyMapValue(init, key, k);
      } else {
        TallyMapDomain(init, key);
        ItemsWithKeyEmpty(init, key, k);
      }
    } else {
      TallyMapValue(init, key, k);
    }
  }

  /** One step of the `forEach`: create the key's entry at zero when it is missing, then
      add the row's requests and tokens to it. */
  method AddRow<K(==)>(ghost rows: seq<StatRow>, key: StatRow -> K, row: StatRow, order: seq<K>, m: map<K, Tally>)
    returns (order': seq<K>, m': map<K, Tally>)
    requires order == KeysInOrder(rows, key) && m == TallyMap(rows, key)
    ensures order' == KeysInOrder(rows + [row], key) && m' == TallyMap(rows + [row], key)
  {
    var k := key(row);
    TallyMapDomain(rows, key);
    KeysInOrderAppend(rows, key, row);
    TallyMapSnoc(rows, key, row);
    if k !in m {
      order', m' := order + [k], m[k := Tally(0, 0)];
    } else {
      order', m' := order, m;
    }
    var t := m'[k];
    m' := m'[k := Tally(t.requests + row.requests, t.tokens + row.tokens)];
  }

  /** The entries of the finished Map or record, in key order. */
  method ReadOut<K(==)>(ghost rows: seq<StatRow>, key: StatRow -> K, order: seq<K>, m: map<K, Tally>)
    returns (r: seq<Entry<K>>)
    requires order == KeysInOrder(rows, key) && m == TallyMap(rows, key)
    ensures r == Entries(rows, key)
  {
    TallyMapDomain(rows, key);
    r := seq(|order|, i requires 0 <= i < |order| => Entry(order[i], m[order[i]].requests, m[order[i]].tokens));
    forall i | 0 <= i < |order| ensures r[i] == EntryOf(rows, key)(order[i]) {
      TallyMapValue(rows, key, order[i]);
    }
  }

  /** `result.rows.forEach(...)` filling `dailyBreakdown` and `byProvider`, then the totals
      and the sorted daily entries. */
  method Aggregate(rows: seq<StatRow>) returns (s: Stats)
    ensures s == StatsOf(rows)
  {
    var dayOrder: seq<int> := [];
    var days: map<int, Tally> := map[];
    var providerOrder: seq<Provider> := [];
    var providers: map<Provider, Tally> := map[];
    for j := 0 to |rows|
      invariant dayOrder == KeysInOrder(rows[..j], DateOf) && days == TallyMap(rows[..j], DateOf)
      invariant providerOrder == KeysInOrder(rows[..j], ProviderOf) && providers == TallyMap(rows[..j], ProviderOf)
    {
      var row := rows[j];
      assert rows[..j + 1] == rows[..j] + [row];
      dayOrder, days := AddRow(rows[..j], DateOf, row, dayOrder, days);
      providerOrder, providers := AddRow(rows[..j], ProviderOf, row, providerOrder, providers);
    }
    assert rows[..|rows|] == rows;
    var byProvider := ReadOut(rows, ProviderOf, providerOrder, providers);
    var daily := ReadOut(rows, DateOf, dayOrder, days);
    s := Stats(Sum(byProvider, EntryRequests), Sum(byProvider, EntryTokens), byProvider, SortDesc(daily, EntryDate));
  }

  /** The entries add up to the sums over all rows. */
  lemma EntriesSum<K>(rows: seq<StatRow>, key: StatRow -> K)
    ensures Sum(Entries(rows, key), EntryRequests) == Sum(rows, Requests)
    ensures Sum(Entries(rows, key), EntryTokens) == Sum(rows, RowTokens)
  {
    var ks := KeysInOrder(rows, key);
    SumMapOverKeys(rows, key, ks, EntryOf(rows, key), EntryRequests, Requests);
    SumMapOverKeys(rows, key, ks, EntryOf(rows, key), EntryTokens, RowTokens);
    SumOverKeysAll(rows, key, ks, Requests);
    SumOverKeysAll(rows, key, ks, RowTokens);
  }

  /** The totals are the sums over all rows, and the daily entries add up to them too. */
  lemma StatsTotals(rows: seq<StatRow>)
    ensures StatsOf(rows).totalRequests == Sum(rows, Requests)
    ensures StatsOf(rows).totalTokens == Sum(rows, RowTokens)
    ensures Sum(DailyBreakdown(rows), EntryRequests) == Sum(rows, Requests)
    ensures Sum(DailyBreakdown(rows), EntryTokens) == Sum(rows, RowTokens)
  {
    EntriesSum(rows, ProviderOf);
    EntriesSum(rows, DateOf);
    SumPerm(DailyBreakdown(rows), Entries(rows, DateOf), EntryRequests);
    SumPerm(DailyBreakdown(rows), Entries(rows, DateOf), EntryTokens);
  }

  /** The entries have distinct keys, each holds the sums of its key's rows, and every key
      that occurs has its entry. */
  lemma EntriesSpec<K>(rows: seq<StatRow>, key: StatRow -> K)
    ensures forall i, j :: 0 <= i < j < |Entries(rows, key)| ==> Entries(rows, key)[i] != Entries(rows, key)[j]
    ensures forall e :: e in Entries(rows, key) ==>
      e == EntryOf(rows, key)(e.key) && exists i :: 0 <= i < |rows| && key(rows[i]) == e.key
    ensures forall i :: 0 <= i < |rows| ==> EntryOf(rows, key)(key(rows[i])) in Entries(rows, key)
  {
    var ks := KeysInOrder(rows, key);
    var es := Entries(rows, key);
    forall e | e in es
      ensures e == EntryOf(rows, key)(e.key) && exists i :: 0 <= i < |rows| && key(rows[i]) == e.key
    {
      var n :| 0 <= n < |es| && es[n] == e;
      KeysInOrderSound(rows, key, ks[n]);
    }
    forall i | 0 <= i < |rows| ensures EntryOf(rows, key)(key(rows[i])) in es {
      var n :| 0 <= n < |ks| && ks[n] == key(rows[i]);
      assert es[n] == EntryOf(rows, key)(key(rows[i]));
    }
  }

  /** `byProvider` has one entry for each provider that has rows and no other, holding the
      sums of that provider's rows. */
  lemma ByProviderSpec(rows: seq<StatRow>)
    ensures var byProvider := StatsOf(rows).byProvider;
      && (forall i, j :: 0 <= i < j < |byProvider| ==> byProvider[i].key != byProvider[j].key)
      && (forall e :: e in byProvider ==>
            e == EntryOf(rows, ProviderOf)(e.key) && exists i :: 0 <= i < |rows| && rows[i].provider == e.key)
      && forall i :: 0 <= i < |rows| ==> EntryOf(rows, ProviderOf)(rows[i].provider) in byProvider
  {
    EntriesSpec(rows, ProviderOf);
  }

  /** The daily breakdown is latest first and holds exactly the entries of the days. */
  lemma DailyBreakdownMembers(rows: seq<StatRow>)
    ensures forall e :: e in DailyBreakdown(rows) <==> e in Entries(rows, DateOf)
  {
    SortDescMembers(Entries(rows, DateOf), EntryDate);
  }

  /** The daily breakdown is latest first, has one entry for each day that has rows and no
      other, and each entry holds the sums of that day's rows. */
  lemma DailyBreakdownSpec(rows: seq<StatRow>)
    ensures var daily := DailyBreakdown(rows);
      && SortedDesc(daily, EntryDate)
      && (forall i, j :: 0 <= i < j < |daily| ==> daily[i].key != daily[j].key)
      && (forall e :: e in daily ==>
            e == EntryOf(rows, DateOf)(e.key) && exists i :: 0 <= i < |rows| && rows[i].date == e.key)
      && forall i :: 0 <= i < |rows| ==> EntryOf(rows, DateOf)(rows[i].date) in daily
  {
    var daily := DailyBreakdown(rows);
    EntriesSpec(rows, DateOf);
    DailyBreakdownMembers(rows);
    DistinctPerm(Entries(rows, DateOf), daily);
    forall i, j | 0 <= i < j < |daily| ensures daily[i].key != daily[j].key {
      assert daily[i] in daily && daily[j] in daily;
    }
  }

  // ---------------------------------------------------------------------------
  // The daily breakdown as written

  /** The entries `dailyBreakdown` ends up with as the service is written: node-postgres
      returns each `DATE` value as a new `Date` object and a `Map` compares object keys by
      identity, so `has(date)` never finds an earlier row's entry and every row opens an
      entry of its own. */
  function DailyBreakdownAsWritten(rows: seq<StatRow>): seq<Entry<int>> {
    SortDesc(Map(rows, RowDay), EntryDate)
  }

  function RowDay(r: StatRow): Entry<int> {
    Entry(r.date, r.requests, r.tokens)
  }

  /** As written, the breakdown is still latest first and still adds up to the totals: it
      holds one entry per row, with that row's day, requests and tokens. */
  lemma DailyBreakdownAsWrittenSpec(rows: seq<StatRow>)
    ensures var daily := DailyBreakdownAsWritten(rows);
      && SortedDesc(daily, EntryDate)
      && |daily| == |rows|
      && (forall e :: e in daily <==>
            exists i :: 0 <= i < |rows| && e == Entry(rows[i].date, rows[i].requests, rows[i].tokens))
      && Sum(daily, EntryRequests) == Sum(rows, Requests)
      && Sum(daily, EntryTokens) == Sum(rows, RowTokens)
  {
    var perRow := Map(rows, RowDay);
    var daily := DailyBreakdownAsWritten(rows);
    SortDescMembers(perRow, EntryDate);
    RowDaySums(rows);
    SumPerm(daily, perRow, EntryRequests);
    SumPerm(daily, perRow, EntryTokens);
  }

  lemma {:induction false} RowDaySums(rows: seq<StatRow>)
    ensures Sum(Map(rows, RowDay), EntryRequests) == Sum(rows, Requests)
    ensures Sum(Map(rows, RowDay), EntryTokens) == Sum(rows, RowTokens)
  {
    if rows != [] {
      RowDaySums(rows[..|rows| - 1]);
      assert Map(rows, RowDay)[..|rows| - 1] == Map(rows[..|rows| - 1], RowDay);
    }
  }

  /** Two providers used on the same day give that day two entries as written. */
  lemma SameDayTwoEntries()
    ensures var rows := [StatRow(GeminiPro, 20000, 1, 10), StatRow(OpenAiPlus, 20000, 2, 20)];
      DailyBreakdownAsWritten(rows) == [Entry(20000, 1, 10), Entry(20000, 2, 20)]
  {
    var rows := [StatRow(GeminiPro, 20000, 1, 10), StatRow(OpenAiPlus, 20000, 2, 20)];
    var a, b := Entry(20000, 1, 10), Entry(20000, 2, 20);
    assert Map(rows, RowDay) == [a, b];
    assert [a, b][1..] == [b];
    assert SortDesc([b], EntryDate) == [b];
    assert InsertDesc(a, [b], EntryDate) == [a, b];
  }

  /** The breakdown by day gives that day one entry, with the sums of both rows. */
  lemma SameDayOneEntry()
    ensures var rows := [StatRow(GeminiPro, 20000, 1, 10), StatRow(OpenAiPlus, 20000, 2, 20)];
      DailyBreakdown(rows) == [Entry(20000, 3, 30)]
  {
    var rows := [StatRow(GeminiPro, 20000, 1, 10), StatRow(OpenAiPlus, 20000, 2, 20)];
    SameDaySums(rows);
    assert Map([20000], EntryOf(rows, DateOf)) == [Entry(20000, 3, 30)];
  }

  lemma SameDaySums(rows: seq<StatRow>)
    requires rows == [StatRow(GeminiPro, 20000, 1, 10), StatRow(OpenAiPlus, 20000, 2, 20)]
    ensures KeysInOrder(rows, DateOf) == [20000]
    ensures TallyOf(ItemsWithKey(rows, DateOf, 20000)) == Tally(3, 30)
  {
    assert rows[..1] == [rows[0]];
    assert rows[..1][..0] == [];
    assert KeysInOrder(rows[..1], DateOf) == [20000];
    assert ItemsWithKey(rows[..1], DateOf, 20000) == rows[..1];
    assert ItemsWithKey(rows, DateOf, 20000) == rows;
    assert Sum(rows[..1], Requests) == 1 && Sum(rows[..1], RowTokens) == 10;
    assert Sum(rows, Requests) == 3 && Sum(rows, RowTokens) == 30;
  }
}
