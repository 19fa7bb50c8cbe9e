/**
 The per-chain totals of the chains tab: accumulated from the bounded feed with a set of ids
 already processed, and compared here with a plain fold over the whole history.
 */
module ChainsTab {
  import opened Options
  import opened LiveFeed

  const PROFIT_SANITY_CAP: real := 100000.0
  const GAS_SANITY_CAP: real := 10000.0

  datatype ChainStats = ChainStats(
    total: nat,
    successes: nat,
    lastExecTime: real,
    totalLatency: real,
    latencyCount: nat,
    totalProfit: real,
    totalGasCost: real)

  const ZERO := ChainStats(0, 0, 0.0, 0.0, 0, 0.0, 0.0)

  function LowerCase(s: string): (r: string)
    ensures |r| == |s|
    ensures forall i :: 0 <= i < |s| ==> r[i] == if 'A' <= s[i] <= 'Z' then (s[i] as int + 32) as char else s[i]
  {
    if s == "" then "" else [if 'A' <= s[0] <= 'Z' then s[0] - 'A' + 'a' else s[0]] + LowerCase(s[1..])
  }

  function Abs(x: real): real {
    if x < 0.0 then -x else x
  }

  function Max(a: real, b: real): real {
    if a >= b then a else b
  }

  /** The entry of a chain after one more execution, field by field as the tab updates it. */
  function Count(entry: ChainStats, e: Execution): ChainStats {
    ChainStats(
      entry.total + 1,
      if e.success then entry.successes + 1 else entry.successes,
      if e.timestamp.Some? && e.timestamp.value > entry.lastExecTime then e.timestamp.value else entry.lastExecTime,
      if e.latencyMs.Some? then entry.totalLatency + e.latencyMs.value else entry.totalLatency,
      if e.latencyMs.Some? then entry.latencyCount + 1 else entry.latencyCount,
      if e.actualProfit.Some? && Abs(e.actualProfit.value) < PROFIT_SANITY_CAP
      then entry.totalProfit + e.actualProfit.value else entry.totalProfit,
      if e.gasCost.Some? && e.gasCost.value < GAS_SANITY_CAP
      then entry.totalGasCost + e.gasCost.value else entry.totalGasCost)
  }

  datatype Tab = Tab(chainStats: map<string, ChainStats>, processedIds: set<FeedId>)

  const EMPTY_TAB := Tab(map[], {})

  function StatsAt(t: Tab, key: string): ChainStats {
    if key in t.chainStats then t.chainStats[key] else ZERO
  }

  function Process(t: Tab, item: FeedItem): Tab {
    if item.AlertItem? || item.id in t.processedIds then t else
      var key := LowerCase(item.data.chain);
      Tab(t.chainStats[key := Count(StatsAt(t, key), item.data)], t.processedIds + {item.id})
  }

  function ProcessAll(t: Tab, feed: seq<FeedItem>): Tab
    decreases |feed|
  {
    if feed == [] then t else ProcessAll(Process(t, feed[0]), feed[1..])
  }

  /** What one evaluation of the memo does when it sees `feed`. */
  function Observe(t: Tab, feed: seq<FeedItem>): Tab {
    if feed == [] then EMPTY_TAB else ProcessAll(t, feed)
  }

  /** The tab's two refs and the memo that updates them. */
  class ChainsTabRefs {
    var chainStats: map<string, ChainStats>
    var processedIds: set<FeedId>

    constructor ()
      ensures View() == EMPTY_TAB
    {
      chainStats, processedIds := map[], {};
    }

    function View(): Tab
      reads this
    {
      Tab(chainStats, processedIds)
    }

    /** `counted` is whatever the tab has counted before: afterwards it shows that and the new executions of the feed. */
    method UpdateFrom(feed: seq<FeedItem>, ghost counted: seq<FeedItem>) returns (shown: map<string, ChainStats>)
      modifies this
      ensures View() == Observe(old(View()), feed)
      ensures shown == chainStats
      ensures Counted(old(View()), counted) && Distinct(counted) && Distinct(feed) && feed != [] ==>
                ShowsItems(shown, Unseen(feed, old(processedIds)) + counted)
    {
      if |feed| == 0 {
        chainStats, processedIds := map[], {};
        return map[];
      }
      for i := 0 to |feed|
        invariant ProcessAll(View(), feed[i..]) == ProcessAll(old(View()), feed)
      {
        assert feed[i..][0] == feed[i] && feed[i..][1..] == feed[i + 1..];
        ghost var before := View();
        var item := feed[i];
        if item.AlertItem? || item.id in processedIds {
          continue;
        }
        processedIds := processedIds + {item.id};
        var key := LowerCase(item.data.chain);
        if key !in chainStats {
          chainStats := chainStats[key := ZERO];
        }
        chainStats := chainStats[key := Count(chainStats[key], item.data)];
        assert chainStats == Process(before, item).chainStats;
      }
      shown := chainStats;
      assert View() == ProcessAll(old(View()), feed) by {
        assert feed[|feed|..] == [];
      }
      if Counted(old(View()), counted) && Distinct(counted) && Distinct(feed) {
        hide Describes;
        ObserveSelects(old(View()), counted, feed);
        ShownItems(shown, Unseen(feed, old(processedIds)) + counted);
      }
    }
  }

  // ---------------------------------------------------------------------------
  // The plain fold
  // ---------------------------------------------------------------------------

  function Plus(a: ChainStats, b: ChainStats): ChainStats {
    ChainStats(
      a.total + b.total, a.successes + b.successes, Max(a.lastExecTime, b.lastExecTime),
      a.totalLatency + b.totalLatency, a.latencyCount + b.latencyCount,
      a.totalProfit + b.totalProfit, a.totalGasCost + b.totalGasCost)
  }

  predicate OnChain(item: FeedItem, key: string) {
    item.ExecutionItem? && LowerCase(item.data.chain) == key
  }

  /** The totals of one chain over a whole history of items. */
  function Totals(items: seq<FeedItem>, key: string): (t: ChainStats)
    ensures t.lastExecTime >= 0.0
  {
    if items == [] then ZERO
    else if OnChain(items[0], key) then Count(Totals(items[1..], key), items[0].data)
    else Totals(items[1..], key)
  }

  lemma PlusZero(t: ChainStats)
    requires t.lastExecTime >= 0.0
    ensures Plus(ZERO, t) == t
  {
  }

  lemma CountOfPlus(a: ChainStats, b: ChainStats, e: Execution)
    ensures Count(Plus(a, b), e) == Plus(Count(a, e), b)
  {
  }

  lemma {:induction false} TotalsConcat(a: seq<FeedItem>, b: seq<FeedItem>, key: string)
    ensures Totals(a + b, key) == Plus(Totals(a, key), Totals(b, key))
  {
    hide Count, Plus, LowerCase;
    if a == [] {
      assert a + b == b;
      PlusZero(Totals(b, key));
    } else {
      assert (a + b)[1..] == a[1..] + b;
      TotalsConcat(a[1..], b, key);
      if OnChain(a[0], key) {
        CountOfPlus(Totals(a[1..], key), Totals(b, key), a[0].data);
      }
    }
  }

  lemma {:induction false} TotalCountsExecutions(items: seq<FeedItem>, key: string)
    ensures Totals(items, key).total == 0 <==> forall i :: 0 <= i < |items| ==> !OnChain(items[i], key)
    ensures Totals(items, key).total == 0 ==> Totals(items, key) == ZERO
  {
    if items != [] {
      TotalCountsExecutions(items[1..], key);
      assert forall i :: 1 <= i < |items| ==> items[i] == items[1..][i - 1];
    }
  }

  /** The map shown is the fold over `items`: exactly the chains that occur, each with its totals. */
  ghost predicate Shows(chainStats: map<string, ChainStats>, items: seq<FeedItem>) {
    forall key: string ::
      && (key in chainStats <==> Totals(items, key).total > 0)
      && (key in chainStats ==> chainStats[key] == Totals(items, key))
  }

  // ---------------------------------------------------------------------------
  // What the totals are, in terms of the items alone
  // ---------------------------------------------------------------------------

  /** The item is an execution on the chain whose name, with A to Z lower-cased, is `key`. */
  predicate RunsOn(item: FeedItem, key: string) {
    && item.ExecutionItem? && |item.data.chain| == |key|
    && forall j :: 0 <= j < |key| ==>
         var c := item.data.chain[j];
         key[j] == if 'A' <= c <= 'Z' then (c as int + 32) as char else c
  }

  lemma RunsOnIsOnChain(item: FeedItem, key: string)
    ensures RunsOn(item, key) <==> OnChain(item, key)
  {
    if item.ExecutionItem? && RunsOn(item, key) {
      assert LowerCase(item.data.chain) == key;
    }
  }

  /** The sum of the values that a question finds in the items. */
  function Sum(items: seq<FeedItem>, value: FeedItem -> real): real {
    if items == [] then 0.0 else value(items[0]) + Sum(items[1..], value)
  }

  /** The positions of the items that satisfy a question. */
  function Positions(items: seq<FeedItem>, p: FeedItem -> bool): set<int> {
    set i | 0 <= i < |items| && p(items[i])
  }

  function Tally(items: seq<FeedItem>, p: FeedItem -> bool): nat {
    if items == [] then 0 else (if p(items[0]) then 1 else 0) + Tally(items[1..], p)
  }

  lemma {:induction false} TallySnoc(items: seq<FeedItem>, last: FeedItem, p: FeedItem -> bool)
    ensures Tally(items + [last], p) == Tally(items, p) + (if p(last) then 1 else 0)
  {
    if items == [] {
      assert [] + [last] == [last] && [last][1..] == [];
      assert Tally([last], p) == (if p(last) then 1 else 0) + Tally([], p);
    } else {
      assert (items + [last])[1..] == items[1..] + [last];
      TallySnoc(items[1..], last, p);
    }
  }

  /** Counting one by one is the number of positions. */
  lemma {:induction false} TallyIsSize(items: seq<FeedItem>, p: FeedItem -> bool)
    ensures Tally(items, p) == |Positions(items, p)|
    decreases |items|
  {
    if items == [] {
      assert Positions(items, p) == {};
    } else {
      var n := |items| - 1;
      var front := items[..n];
      assert items == front + [items[n]];
      TallySnoc(front, items[n], p);
      TallyIsSize(front, p);
      assert Positions(items, p) == Positions(front, p) + (if p(items[n]) then {n} else {});
      assert n !in Positions(front, p);
    }
  }

  lemma PositionsCons(items: seq<FeedItem>, p: FeedItem -> bool)
    requires items != []
    ensures |Positions(items, p)| == |Positions(items[1..], p)| + (if p(items[0]) then 1 else 0)
  {
    TallyIsSize(items, p);
    TallyIsSize(items[1..], p);
  }

  function LatencyOn(key: string): FeedItem -> real {
    (item: FeedItem) => if RunsOn(item, key) && item.data.latencyMs.Some? then item.data.latencyMs.value else 0.0
  }

  /** Profits of 100000 and more in either direction do not count. */
  function ProfitOn(key: string): FeedItem -> real {
    (item: FeedItem) =>
      if RunsOn(item, key) && item.data.actualProfit.Some? && -100000.0 < item.data.actualProfit.value < 100000.0
      then item.data.actualProfit.value else 0.0
  }

  /** Gas costs of 10000 and more do not count. */
  function GasOn(key: string): FeedItem -> real {
    (item: FeedItem) =>
      if RunsOn(item, key) && item.data.gasCost.Some? && item.data.gasCost.value < 10000.0
      then item.data.gasCost.value else 0.0
  }

  /** The totals of a chain, said of the items field by field. */
  ghost predicate Describes(t: ChainStats, items: seq<FeedItem>, key: string) {
    && t.total == |Positions(items, (x: FeedItem) => RunsOn(x, key))|
    && t.successes == |Positions(items, (x: FeedItem) => RunsOn(x, key) && x.data.success)|
    && t.latencyCount == |Positions(items, (x: FeedItem) => RunsOn(x, key) && x.data.latencyMs.Some?)|
    && t.totalLatency == Sum(items, LatencyOn(key))
    && t.totalProfit == Sum(items, ProfitOn(key))
    && t.totalGasCost == Sum(items, GasOn(key))
    && IsLatest(t.lastExecTime, items, key)
  }

  /** The latest timestamp of the executions on a chain, 0 when there is none above. */
  ghost predicate IsLatest(time: real, items: seq<FeedItem>, key: string) {
    && time >= 0.0
    && (forall i :: 0 <= i < |items| && RunsOn(items[i], key) && items[i].data.timestamp.Some? ==>
          items[i].data.timestamp.value <= time)
    && (time == 0.0 ||
        exists i :: 0 <= i < |items| && RunsOn(items[i], key) && items[i].data.timestamp == Some(time))
  }

  lemma IsLatestCons(item: FeedItem, rest: seq<FeedItem>, key: string, before: real, time: real)
    requires IsLatest(before, rest, key)
    requires time == if RunsOn(item, key) && item.data.timestamp.Some? && item.data.timestamp.value > before
                     then item.data.timestamp.value else before
    ensures IsLatest(time, [item] + rest, key)
  {
    var items := [item] + rest;
    assert forall i :: 1 <= i < |items| ==> items[i] == rest[i - 1];
    assert items[0] == item;
    if time == before && time != 0.0 {
      var i :| 0 <= i < |rest| && RunsOn(rest[i], key) && rest[i].data.timestamp == Some(time);
      assert items[i + 1] == rest[i];
    }
  }

  /** Totals is what Describes says, so that the plain fold and the tab are both said of the items alone. */
  lemma {:induction false} TotalsDescribe(items: seq<FeedItem>, key: string)
    ensures Describes(Totals(items, key), items, key)
  {
    if items != [] {
      var rest := items[1..];
      TotalsDescribe(rest, key);
      RunsOnIsOnChain(items[0], key);
      PositionsCons(items, (x: FeedItem) => RunsOn(x, key));
      PositionsCons(items, (x: FeedItem) => RunsOn(x, key) && x.data.success);
      PositionsCons(items, (x: FeedItem) => RunsOn(x, key) && x.data.latencyMs.Some?);
      IsLatestCons(items[0], rest, key, Totals(rest, key).lastExecTime, Totals(items, key).lastExecTime);
      assert [items[0]] + rest == items;
    }
  }

  /** The map shown holds exactly the chains on which some item ran, each with its totals. */
  ghost predicate ShowsItems(chainStats: map<string, ChainStats>, items: seq<FeedItem>) {
    forall key: string ::
      && (key in chainStats <==> exists i :: 0 <= i < |items| && RunsOn(items[i], key))
      && (key in chainStats ==> Describes(chainStats[key], items, key))
  }

  lemma ShownItems(chainStats: map<string, ChainStats>, items: seq<FeedItem>)
    requires Shows(chainStats, items)
    ensures ShowsItems(chainStats, items)
  {
    forall key: string
      ensures key in chainStats <==> exists i :: 0 <= i < |items| && RunsOn(items[i], key)
      ensures key in chainStats ==> Describes(chainStats[key], items, key)
    {
      hide Describes, RunsOn, OnChain;
      TotalsDescribe(items, key);
      TotalCountsExecutions(items, key);
      forall i | 0 <= i < |items| ensures RunsOn(items[i], key) <==> OnChain(items[i], key) {
        RunsOnIsOnChain(items[i], key);
      }
    }
  }

  // ---------------------------------------------------------------------------
  // One observation
  // ---------------------------------------------------------------------------

  predicate Distinct(items: seq<FeedItem>) {
    forall i, j :: 0 <= i < j < |items| ==> items[i].id != items[j].id
  }

  /** The ids of the executions among `items`. */
  function ExecutionIds(items: seq<FeedItem>): set<FeedId> {
    set i | 0 <= i < |items| && items[i].ExecutionItem? :: items[i].id
  }

  /** The tab has counted exactly the executions in `items`. */
  ghost predicate Counted(t: Tab, items: seq<FeedItem>) {
    && t.processedIds == ExecutionIds(items)
    && Shows(t.chainStats, items)
  }

  lemma ProcessCounts(t: Tab, items: seq<FeedItem>, item: FeedItem)
    requires Counted(t, items)
    requires item.ExecutionItem? ==> item.id !in t.processedIds
    ensures Counted(Process(t, item), [item] + items)
  {
    var t', items' := Process(t, item), [item] + items;
    assert items'[1..] == items;
    forall id ensures id in t'.processedIds <==> id in ExecutionIds(items') {
      if id in ExecutionIds(items) {
        var i :| 0 <= i < |items| && items[i].ExecutionItem? && items[i].id == id;
        assert items'[i + 1] == items[i];
      }
      if id in ExecutionIds(items') {
        var i :| 0 <= i < |items'| && items'[i].ExecutionItem? && items'[i].id == id;
        assert i > 0 ==> items[i - 1] == items'[i];
      }
      assert items'[0] == item;
    }
    forall key: string
      ensures key in t'.chainStats <==> Totals(items', key).total > 0
      ensures key in t'.chainStats ==> t'.chainStats[key] == Totals(items', key)
    {
      TotalCountsExecutions(items, key);
    }
  }

  /** Processing items none of whose executions was counted before adds all of them, in some order. */
  lemma {:induction false} ProcessAllCounts(t: Tab, items: seq<FeedItem>, newer: seq<FeedItem>)
    requires Counted(t, items)
    requires Distinct(newer)
    requires forall i :: 0 <= i < |newer| && newer[i].ExecutionItem? ==> newer[i].id !in t.processedIds
    ensures Counted(ProcessAll(t, newer), newer + items)
    decreases |newer|
  {
    if newer == [] {
      assert newer + items == items;
    } else {
      var t' := Process(t, newer[0]);
      ProcessCounts(t, items, newer[0]);
      var rest := newer[1..];
      assert forall i :: 0 <= i < |rest| ==> rest[i] == newer[i + 1];
      ProcessAllCounts(t', [newer[0]] + items, rest);
      assert newer == [newer[0]] + rest;
      SwapCounted(ProcessAll(t', rest), [newer[0]], rest, items);
    }
  }

  /** The order of the counted items does not matter. */
  lemma SwapCounted(t: Tab, a: seq<FeedItem>, b: seq<FeedItem>, rest: seq<FeedItem>)
    requires Counted(t, b + (a + rest))
    ensures Counted(t, (a + b) + rest)
  {
    var x, y := b + (a + rest), (a + b) + rest;
    forall id ensures id in ExecutionIds(x) <==> id in ExecutionIds(y) {
      IdsConcat(b, a + rest, id);
      IdsConcat(a, rest, id);
      IdsConcat(a + b, rest, id);
      IdsConcat(a, b, id);
    }
    forall key: string ensures Totals(x, key) == Totals(y, key) {
      TotalsConcat(b, a + rest, key);
      TotalsConcat(a, rest, key);
      TotalsConcat(a + b, rest, key);
      TotalsConcat(a, b, key);
    }
  }

  lemma IdsConcat(a: seq<FeedItem>, b: seq<FeedItem>, id: FeedId)
    ensures id in ExecutionIds(a + b) <==> id in ExecutionIds(a) || id in ExecutionIds(b)
  {
    if id in ExecutionIds(b) {
      var i :| 0 <= i < |b| && b[i].ExecutionItem? && b[i].id == id;
      assert (a + b)[|a| + i] == b[i];
    }
    if id in ExecutionIds(a) {
      var i :| 0 <= i < |a| && a[i].ExecutionItem? && a[i].id == id;
      assert (a + b)[i] == a[i];
    }
  }

  /** Processing items that were all counted before changes nothing. */
  lemma {:induction false} ProcessAllSkips(t: Tab, seen: seq<FeedItem>)
    requires forall i :: 0 <= i < |seen| && seen[i].ExecutionItem? ==> seen[i].id in t.processedIds
    ensures ProcessAll(t, seen) == t
    decreases |seen|
  {
    if seen != [] {
      assert forall i :: 1 <= i < |seen| ==> seen[1..][i - 1] == seen[i];
      ProcessAllSkips(t, seen[1..]);
    }
  }

  lemma {:induction false} ProcessAllConcat(t: Tab, a: seq<FeedItem>, b: seq<FeedItem>)
    ensures ProcessAll(t, a + b) == ProcessAll(ProcessAll(t, a), b)
    decreases |a|
  {
    if a == [] {
      assert a + b == b;
    } else {
      assert (a + b)[1..] == a[1..] + b;
      ProcessAllConcat(Process(t, a[0]), a[1..], b);
    }
  }

  /** Item i of the history was created with counter `latest - i`; counters start at 1 after a reset. */
  ghost predicate History(items: seq<FeedItem>, latest: nat) {
    && |items| <= latest
    && forall i :: 0 <= i < |items| ==> Numbered(items[i], latest - i)
  }

  lemma HistoryDistinct(items: seq<FeedItem>, latest: nat)
    requires History(items, latest)
    ensures Distinct(items)
  {
  }

  /**
   One observation, for any number `pending` of items not yet observed and any items counted so
   far, as long as none of the pending ones is among them and every older execution still in the
   window is: the tab adds exactly the pending items that are still in the window.
   */
  lemma ObserveCountsTheWindow(t: Tab, counted: seq<FeedItem>, items: seq<FeedItem>, latest: nat, pending: nat)
    requires History(items, latest) && items != []
    requires pending <= |items|
    requires Counted(t, counted)
    requires forall id :: id in t.processedIds ==> id.counter <= latest - pending
    requires forall i :: pending <= i < Min(|items|, MAX_FEED) && items[i].ExecutionItem? ==>
             items[i].id in t.processedIds
    ensures Counted(Observe(t, items[..Min(|items|, MAX_FEED)]), items[..Min(pending, MAX_FEED)] + counted)
  {
    var feed := items[..Min(|items|, MAX_FEED)];
    var newer := items[..Min(pending, MAX_FEED)];
    var seen := feed[|newer|..];
    assert feed == newer + seen;
    ProcessAllConcat(t, newer, seen);
    assert Distinct(newer) by { HistoryDistinct(items, latest); }
    forall i | 0 <= i < |newer| ensures newer[i].id.counter > latest - pending {
      assert Numbered(items[i], latest - i);
    }
    ProcessAllCounts(t, counted, newer);
    var mid := ProcessAll(t, newer);
    forall i | 0 <= i < |seen| && seen[i].ExecutionItem? ensures seen[i].id in mid.processedIds {
      assert seen[i] == items[pending + i];
      IdsConcat(newer, counted, seen[i].id);
    }
    ProcessAllSkips(mid, seen);
  }

  /** When everything older than the pending items was counted, the two side conditions hold. */
  lemma OlderItemsAreCounted(t: Tab, items: seq<FeedItem>, latest: nat, pending: nat)
    requires History(items, latest)
    requires pending <= |items|
    requires t.processedIds == ExecutionIds(items[pending..])
    ensures forall id :: id in t.processedIds ==> id.counter <= latest - pending
    ensures forall i :: pending <= i < |items| && items[i].ExecutionItem? ==> items[i].id in t.processedIds
  {
  }

  lemma PlusMiddle(a: ChainStats, b: ChainStats, c: ChainStats)
    requires a.lastExecTime >= 0.0
    ensures Plus(Plus(a, b), c).total == Plus(a, c).total + b.total
    ensures b == ZERO ==> Plus(Plus(a, b), c) == Plus(a, c)
  {
  }

  lemma TotalsWithoutMiddle(a: seq<FeedItem>, b: seq<FeedItem>, c: seq<FeedItem>, key: string)
    ensures Totals((a + b) + c, key).total == Totals(a + c, key).total + Totals(b, key).total
    ensures Totals(b, key).total == 0 ==> Totals((a + b) + c, key) == Totals(a + c, key)
  {
    TotalsConcat(a + b, c, key);
    TotalsConcat(a, b, key);
    TotalsConcat(a, c, key);
    PlusMiddle(Totals(a, key), Totals(b, key), Totals(c, key));
    TotalCountsExecutions(b, key);
  }

  /** Totals that leave out a stretch of the history are right exactly when there is no execution in it. */
  lemma ShowsWithoutMiddle(chainStats: map<string, ChainStats>, a: seq<FeedItem>, b: seq<FeedItem>, c: seq<FeedItem>)
    requires Shows(chainStats, a + c)
    ensures Shows(chainStats, (a + b) + c) <==> forall i :: 0 <= i < |b| ==> b[i].AlertItem?
  {
    if i :| 0 <= i < |b| && b[i].ExecutionItem? {
      var key := LowerCase(b[i].data.chain);
      assert OnChain(b[i], key);
      TotalCountsExecutions(b, key);
      TotalsWithoutMiddle(a, b, c, key);
      assert key in chainStats <==> Totals(a + c, key).total > 0;
    } else {
      forall key: string ensures Totals((a + b) + c, key) == Totals(a + c, key) {
        TotalCountsExecutions(b, key);
        TotalsWithoutMiddle(a, b, c, key);
      }
    }
  }

  /**
   An observation brings the tab back in step with the whole history if and only if none of the
   pending items beyond the 50 of the window is an execution.
   */
  lemma ObserveAgreesExactlyWhen(t: Tab, items: seq<FeedItem>, latest: nat, pending: nat)
    requires History(items, latest) && items != []
    requires pending <= |items|
    requires Counted(t, items[pending..])
    ensures Shows(Observe(t, items[..Min(|items|, MAX_FEED)]).chainStats, items)
            <==> forall i :: MAX_FEED <= i < pending ==> items[i].AlertItem?
  {
    hide Shows, Totals, Observe;
    var counted := items[..Min(pending, MAX_FEED)];
    var dropped := items[|counted|..pending];
    var rest := items[pending..];
    OlderItemsAreCounted(t, items, latest, pending);
    ObserveCountsTheWindow(t, rest, items, latest, pending);
    assert items == (counted + dropped) + rest;
    ShowsWithoutMiddle(Observe(t, items[..Min(|items|, MAX_FEED)]).chainStats, counted, dropped, rest);
    assert forall i :: |counted| <= i < pending ==> items[i] == dropped[i - |counted|];
  }

  /** The executions of a feed whose ids are not among `ids`. */
  function Unseen(feed: seq<FeedItem>, ids: set<FeedId>): seq<FeedItem> {
    if feed == [] then [] else
      (if feed[0].ExecutionItem? && feed[0].id !in ids then [feed[0]] else []) + Unseen(feed[1..], ids)
  }

  lemma {:induction false} UnseenMembers(feed: seq<FeedItem>, ids: set<FeedId>)
    ensures forall x :: x in Unseen(feed, ids) <==> x in feed && x.ExecutionItem? && x.id !in ids
    ensures Distinct(feed) ==> Distinct(Unseen(feed, ids))
  {
    if feed != [] {
      UnseenMembers(feed[1..], ids);
      assert feed == [feed[0]] + feed[1..];
      var rest := Unseen(feed[1..], ids);
      if Distinct(feed) {
        forall i | 0 <= i < |rest| ensures rest[i].id != feed[0].id {
          assert rest[i] in feed[1..];
        }
      }
    }
  }

  lemma {:induction false} UnseenIgnores(feed: seq<FeedItem>, ids: set<FeedId>, id: FeedId)
    requires forall i :: 0 <= i < |feed| ==> feed[i].id != id
    ensures Unseen(feed, ids + {id}) == Unseen(feed, ids)
  {
    if feed != [] {
      assert forall i :: 0 <= i < |feed| - 1 ==> feed[1..][i] == feed[i + 1];
      UnseenIgnores(feed[1..], ids, id);
    }
  }

  /** Processing a feed of distinct ids is processing its executions with new ids. */
  lemma {:induction false} ProcessUnseen(t: Tab, feed: seq<FeedItem>)
    requires Distinct(feed)
    ensures ProcessAll(t, feed) == ProcessAll(t, Unseen(feed, t.processedIds))
    decreases |feed|
  {
    if feed != [] {
      var item, rest := feed[0], feed[1..];
      assert forall i :: 0 <= i < |rest| ==> rest[i] == feed[i + 1];
      ProcessUnseen(Process(t, item), rest);
      if item.ExecutionItem? && item.id !in t.processedIds {
        UnseenIgnores(rest, t.processedIds, item.id);
        var unseen := Unseen(rest, t.processedIds);
        assert ([item] + unseen)[1..] == unseen;
      } else {
        assert [] + Unseen(rest, t.processedIds) == Unseen(rest, t.processedIds);
      }
    }
  }

  /**
   One observation of any non-empty feed of distinct ids, after any items were counted: it adds
   exactly the executions none of whose ids was counted before, and skips all others.
   */
  lemma ObserveSelects(t: Tab, counted: seq<FeedItem>, feed: seq<FeedItem>)
    requires Counted(t, counted) && Distinct(counted)
    requires Distinct(feed) && feed != []
    ensures var counted' := Unseen(feed, ExecutionIds(counted)) + counted;
            && Counted(Observe(t, feed), counted')
            && (forall i, j :: 0 <= i < j < |counted'| && counted'[i].ExecutionItem? && counted'[j].ExecutionItem? ==>
                  counted'[i].id != counted'[j].id)
  {
    var newer := Unseen(feed, t.processedIds);
    ProcessUnseen(t, feed);
    UnseenMembers(feed, t.processedIds);
    forall i | 0 <= i < |newer| ensures newer[i].id !in t.processedIds {
      assert newer[i] in newer;
    }
    ProcessAllCounts(t, counted, newer);
  }
}
