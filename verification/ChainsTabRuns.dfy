/**
 Whole runs of dashboard and chains tab: when the totals equal the plain fold, what they are
 otherwise, and what an unseen reset does.
 */
module ChainsTabRuns {
  import opened Options
  import opened LiveFeed
  import opened ChainsTab

  // ---------------------------------------------------------------------------
  // Whole runs
  // ---------------------------------------------------------------------------

  /** The reducer dispatches an action, or the tab is rendered and its memo looks at the feed. */
  datatype Step = Dispatched(action: Action) | Rendered

  datatype System = System(state: State, tab: Tab)

  function Next(s: System, step: Step): System {
    match step
    case Dispatched(a) => s.(state := Reducer(s.state, a))
    case Rendered => s.(tab := Observe(s.tab, s.state.feed))
  }

  function Run(s: System, steps: seq<Step>): System
    decreases |steps|
  {
    if steps == [] then s else Run(Next(s, steps[0]), steps[1..])
  }

  /** The tab is mounted on a dashboard that has been running: its first render sees the feed as it is. */
  function Mounted(s: State): System {
    System(s, Observe(EMPTY_TAB, s.feed))
  }

  /** Everything visible at mount or dispatched since, newest first, from the last reset on. */
  function HistoryOf(s: State, seen: seq<FeedItem>, steps: seq<Step>): seq<FeedItem>
    decreases |steps|
  {
    if steps == [] then seen else
      match steps[0]
      case Rendered => HistoryOf(s, seen, steps[1..])
      case Dispatched(a) =>
        var s' := Reducer(s, a);
        HistoryOf(
          s',
          match a case Reset => [] case Other => seen case _ => [NewItem(s'.nextFeedId, a)] + seen,
          steps[1..])
  }

  /** Feed items since the last render, and whether a reset is still unseen. */
  datatype Watch = Watch(pending: nat, unseenReset: bool)

  function Watched(w: Watch, step: Step): Watch {
    match step
    case Rendered => Watch(0, false)
    case Dispatched(Reset) => Watch(0, true)
    case Dispatched(Other) => w
    case Dispatched(_) => Watch(w.pending + 1, w.unseenReset)
  }

  function WatchedAll(w: Watch, steps: seq<Step>): Watch
    decreases |steps|
  {
    if steps == [] then w else WatchedAll(Watched(w, steps[0]), steps[1..])
  }

  /** The empty feed of every reset is rendered before the next item arrives. */
  predicate ResetsAreSeen(w: Watch, steps: seq<Step>)
    decreases |steps|
  {
    steps == [] ||
    (var w' := Watched(w, steps[0]);
     (w'.pending > 0 ==> !w'.unseenReset) && ResetsAreSeen(w', steps[1..]))
  }

  /** At most 50 feed items pass between two renders. */
  predicate WithinWindow(w: Watch, steps: seq<Step>)
    decreases |steps|
  {
    steps == [] ||
    (var w' := Watched(w, steps[0]);
     w'.pending <= MAX_FEED && WithinWindow(w', steps[1..]))
  }

  /** The feed is the window of the history. */
  ghost predicate FeedOf(s: State, items: seq<FeedItem>) {
    && History(items, s.nextFeedId)
    && s.feed == items[..Min(|items|, MAX_FEED)]
  }

  ghost predicate InStep(s: System, items: seq<FeedItem>, w: Watch) {
    && FeedOf(s.state, items)
    && w.pending <= |items|
    && (w.unseenReset ==> items == [])
    && (!w.unseenReset ==> Counted(s.tab, items[w.pending..]))
  }

  lemma CountedEmpty()
    ensures Counted(EMPTY_TAB, [])
  {
  }

  lemma RenderInStep(s: System, items: seq<FeedItem>, w: Watch)
    requires InStep(s, items, w) && w.pending <= MAX_FEED
    ensures InStep(Next(s, Rendered), items, Watch(0, false))
  {
    if items == [] {
      CountedEmpty();
    } else {
      OlderItemsAreCounted(s.tab, items, s.state.nextFeedId, w.pending);
      ObserveCountsTheWindow(s.tab, items[w.pending..], items, s.state.nextFeedId, w.pending);
      assert items[..Min(w.pending, MAX_FEED)] + items[w.pending..] == items[0..];
    }
  }

  lemma DispatchFeedOf(s: State, items: seq<FeedItem>, a: Action)
    requires FeedOf(s, items)
    requires a.ExecutionResult? || a.Alert?
    ensures FeedOf(Reducer(s, a), [NewItem(s.nextFeedId + 1, a)] + items)
  {
  }

  lemma {:induction false} InStepAlongRun(s: System, items: seq<FeedItem>, w: Watch, steps: seq<Step>)
    requires InStep(s, items, w) && w.pending <= MAX_FEED
    requires ResetsAreSeen(w, steps) && WithinWindow(w, steps)
    ensures InStep(Run(s, steps), HistoryOf(s.state, items, steps), WatchedAll(w, steps))
    decreases |steps|
  {
    if steps != [] {
      var w' := Watched(w, steps[0]);
      match steps[0]
      case Rendered =>
        RenderInStep(s, items, w);
        InStepAlongRun(Next(s, Rendered), items, w', steps[1..]);
      case Dispatched(a) =>
        var s' := Next(s, steps[0]);
        match a {
          case Reset => InStepAlongRun(s', [], w', steps[1..]);
          case Other => InStepAlongRun(s', items, w', steps[1..]);
          case _ =>
            DispatchFeedOf(s.state, items, a);
            var items' := [NewItem(s'.state.nextFeedId, a)] + items;
            assert items'[w'.pending..] == items[w.pending..];
            InStepAlongRun(s', items', w', steps[1..]);
        }
    }
  }

  lemma MountInStep(s: State)
    requires WellNumbered(s)
    ensures InStep(Mounted(s), s.feed, Watch(0, false))
  {
    CountedEmpty();
    if s.feed != [] {
      assert s.feed[..Min(|s.feed|, MAX_FEED)] == s.feed;
      ObserveCountsTheWindow(EMPTY_TAB, [], s.feed, s.nextFeedId, |s.feed|);
      assert s.feed[..Min(|s.feed|, MAX_FEED)] + [] == s.feed[0..];
    } else {
      assert s.feed[0..] == [];
    }
  }

  /**
   The incremental totals equal the plain fold: mounted on any dashboard state, after any run in
   which at most 50 items pass between renders and every reset is seen, whenever the tab has just
   rendered it shows exactly the totals of everything visible at mount or dispatched since, up
   to the last reset.
   */
  lemma TotalsAreTheFold(s: State, steps: seq<Step>)
    requires WellNumbered(s)
    requires ResetsAreSeen(Watch(0, false), steps) && WithinWindow(Watch(0, false), steps)
    requires WatchedAll(Watch(0, false), steps) == Watch(0, false)
    ensures Shows(Run(Mounted(s), steps).tab.chainStats, HistoryOf(s, s.feed, steps))
    ensures ShowsItems(Run(Mounted(s), steps).tab.chainStats, HistoryOf(s, s.feed, steps))
  {
    MountInStep(s);
    InStepAlongRun(Mounted(s), s.feed, Watch(0, false), steps);
    var items := HistoryOf(s, s.feed, steps);
    assert items[0..] == items;
    ShownItems(Run(Mounted(s), steps).tab.chainStats, items);
  }

  // ---------------------------------------------------------------------------
  // Every run, whatever is rendered when
  // ---------------------------------------------------------------------------

  /** Which items are counted along a run: at each render those executions in the feed whose id was not counted yet. */
  function Selection(s: State, counted: seq<FeedItem>, steps: seq<Step>): seq<FeedItem>
    decreases |steps|
  {
    if steps == [] then counted else
      match steps[0]
      case Rendered =>
        Selection(s, if s.feed == [] then [] else Unseen(s.feed, ExecutionIds(counted)) + counted, steps[1..])
      case Dispatched(a) => Selection(Reducer(s, a), counted, steps[1..])
  }

  /** Everything visible at mount or dispatched since, newest first, from the last rendered empty feed on. */
  function SinceRenderedEmpty(s: State, since: seq<FeedItem>, steps: seq<Step>): seq<FeedItem>
    decreases |steps|
  {
    if steps == [] then since else
      match steps[0]
      case Rendered => SinceRenderedEmpty(s, if s.feed == [] then [] else since, steps[1..])
      case Dispatched(a) =>
        var s' := Reducer(s, a);
        SinceRenderedEmpty(
          s',
          match a case Reset => since case Other => since case _ => [NewItem(s'.nextFeedId, a)] + since,
          steps[1..])
  }

  ghost predicate AllExecutions(items: seq<FeedItem>) {
    forall i :: 0 <= i < |items| ==> items[i].ExecutionItem?
  }

  /** The tab has counted `counted`: distinct executions out of `since`, which also holds the whole feed. */
  ghost predicate Selected(s: System, since: seq<FeedItem>, counted: seq<FeedItem>) {
    && WellNumbered(s.state)
    && Counted(s.tab, counted) && Distinct(counted) && AllExecutions(counted)
    && (forall x :: x in counted || x in s.state.feed ==> x in since)
  }

  lemma RenderSelected(s: System, since: seq<FeedItem>, counted: seq<FeedItem>)
    requires Selected(s, since, counted)
    ensures var feed := s.state.feed;
            Selected(Next(s, Rendered), if feed == [] then [] else since,
              if feed == [] then [] else Unseen(feed, ExecutionIds(counted)) + counted)
  {
    var feed := s.state.feed;
    if feed == [] {
      CountedEmpty();
    } else {
      assert Distinct(feed);
      ObserveSelects(s.tab, counted, feed);
      UnseenMembers(feed, ExecutionIds(counted));
      var newer := Unseen(feed, ExecutionIds(counted));
      forall i | 0 <= i < |newer| ensures newer[i].ExecutionItem? {
        assert newer[i] in newer;
      }
    }
  }

  lemma DispatchSelected(s: System, since: seq<FeedItem>, counted: seq<FeedItem>, a: Action)
    requires Selected(s, since, counted)
    requires a.ExecutionResult? || a.Alert?
    ensures Selected(Next(s, Dispatched(a)), [NewItem(s.state.nextFeedId + 1, a)] + since, counted)
  {
    hide Counted;
    assert [a][1..] == [];
    assert Dispatch(s.state, [a]) == Dispatch(Reducer(s.state, a), []);
    FeedIsWellNumbered(s.state, [a]);
    var item := NewItem(s.state.nextFeedId + 1, a);
    forall x | x in Reducer(s.state, a).feed ensures x == item || x in s.state.feed {
      assert Reducer(s.state, a).feed[1..] <= s.state.feed;
      var i :| 0 <= i < |Reducer(s.state, a).feed| && Reducer(s.state, a).feed[i] == x;
      assert i > 0 ==> s.state.feed[i - 1] == x;
    }
  }

  lemma {:induction false} SelectedAlongRun(s: System, since: seq<FeedItem>, counted: seq<FeedItem>, steps: seq<Step>)
    requires Selected(s, since, counted)
    ensures Selected(Run(s, steps), SinceRenderedEmpty(s.state, since, steps), Selection(s.state, counted, steps))
    decreases |steps|
  {
    if steps != [] {
      var s' := Next(s, steps[0]);
      match steps[0]
      case Rendered =>
        RenderSelected(s, since, counted);
        if s.state.feed == [] {
          SelectedAlongRun(s', [], [], steps[1..]);
        } else {
          SelectedAlongRun(s', since, Unseen(s.state.feed, ExecutionIds(counted)) + counted, steps[1..]);
        }
      case Dispatched(a) =>
        match a {
          case Reset => SelectedAlongRun(s', since, counted, steps[1..]);
          case Other => SelectedAlongRun(s', since, counted, steps[1..]);
          case _ =>
            DispatchSelected(s, since, counted, a);
            SelectedAlongRun(s', [NewItem(s'.state.nextFeedId, a)] + since, counted, steps[1..]);
        }
    }
  }

  /** The items counted by a tab mounted on `s` after `steps`. */
  function CountedItems(s: State, steps: seq<Step>): seq<FeedItem> {
    Selection(s, Unseen(s.feed, {}), steps)
  }

  /**
   In every run, however many items pass between renders and whether or not a reset is seen, the
   totals shown are those of a selection of what was dispatched since the last rendered empty
   feed, in which no id occurs twice. An execution in the feed at a render is passed over
   exactly when its id was counted before.
   */
  lemma NothingCountedTwice(s: State, steps: seq<Step>)
    requires WellNumbered(s)
    ensures Shows(Run(Mounted(s), steps).tab.chainStats, CountedItems(s, steps))
    ensures ShowsItems(Run(Mounted(s), steps).tab.chainStats, CountedItems(s, steps))
    ensures Distinct(CountedItems(s, steps)) && AllExecutions(CountedItems(s, steps))
    ensures forall x :: x in CountedItems(s, steps) ==> x in SinceRenderedEmpty(s, s.feed, steps)
  {
    CountedEmpty();
    RenderSelected(System(s, EMPTY_TAB), s.feed, []);
    assert ExecutionIds([]) == {};
    assert Unseen(s.feed, {}) + [] == Unseen(s.feed, {});
    SelectedAlongRun(Mounted(s), s.feed, Unseen(s.feed, {}), steps);
    ShownItems(Run(Mounted(s), steps).tab.chainStats, CountedItems(s, steps));
  }

  lemma {:induction false} SinceIsHistory(s: State, since: seq<FeedItem>, items: seq<FeedItem>, w: Watch,
          steps: seq<Step>)
    requires FeedOf(s, items) && ResetsAreSeen(w, steps)
    requires if w.unseenReset then items == [] else since == items
    ensures !WatchedAll(w, steps).unseenReset ==> SinceRenderedEmpty(s, since, steps) == HistoryOf(s, items, steps)
    decreases |steps|
  {
    if steps != [] {
      var w' := Watched(w, steps[0]);
      match steps[0]
      case Rendered => SinceIsHistory(s, if s.feed == [] then [] else since, items, w', steps[1..]);
      case Dispatched(a) =>
        var s' := Reducer(s, a);
        match a {
          case Reset => SinceIsHistory(s', since, [], w', steps[1..]);
          case Other => SinceIsHistory(s', since, items, w', steps[1..]);
          case _ =>
            DispatchFeedOf(s, items, a);
            var item := [NewItem(s'.nextFeedId, a)];
            SinceIsHistory(s', item + since, item + items, w', steps[1..]);
        }
    }
  }

  /**
   When every reset was seen, what was dispatched since the last rendered empty feed is the
   history since the last reset.
   */
  lemma SeenResetsSelectFromTheHistory(s: State, steps: seq<Step>)
    requires WellNumbered(s)
    requires ResetsAreSeen(Watch(0, false), steps)
    requires !WatchedAll(Watch(0, false), steps).unseenReset
    ensures SinceRenderedEmpty(s, s.feed, steps) == HistoryOf(s, s.feed, steps)
    ensures forall x :: x in CountedItems(s, steps) ==> x in HistoryOf(s, s.feed, steps)
  {
    assert s.feed[..Min(|s.feed|, MAX_FEED)] == s.feed;
    SinceIsHistory(s, s.feed, s.feed, Watch(0, false), steps);
    NothingCountedTwice(s, steps);
  }

  lemma {:induction false} TotalsOfUnseen(items: seq<FeedItem>, key: string)
    ensures Totals(Unseen(items, {}), key) == Totals(items, key)
  {
    if items != [] {
      hide Count;
      TotalsOfUnseen(items[1..], key);
      var rest := Unseen(items[1..], {});
      if items[0].ExecutionItem? {
        assert Unseen(items, {}) == [items[0]] + rest && ([items[0]] + rest)[1..] == rest;
      } else {
        assert Unseen(items, {}) == [] + rest == rest;
      }
    }
  }

  /**
   Any observation of a non-empty feed, after an unseen reset too: every chain keeps its totals
   and adds the new ones.
   */
  lemma EarlierTotalsStay(t: Tab, counted: seq<FeedItem>, feed: seq<FeedItem>, key: string)
    requires Counted(t, counted) && Distinct(counted)
    requires Distinct(feed) && feed != []
    requires key in t.chainStats
    ensures var t' := Observe(t, feed);
            && key in t'.chainStats
            && t'.chainStats[key] == Plus(Totals(Unseen(feed, t.processedIds), key), t.chainStats[key])
  {
    ObserveSelects(t, counted, feed);
    TotalsConcat(Unseen(feed, t.processedIds), counted, key);
    assert Totals(counted, key).total > 0;
  }

  /** The feed some items after a reset agrees with the tab at its next render, whatever the items are. */
  ghost predicate AgreesAfterUnseenReset(t: Tab) {
    forall items: seq<FeedItem> ::
      History(items, |items|) && 0 < |items| <= MAX_FEED ==> Shows(Observe(t, items).chainStats, items)
  }

  /**
   After a reset that was not rendered the tab agrees again at its next render, whatever was
   dispatched in between, if and only if it had counted nothing before the reset.
   */
  lemma UnseenResetIsHarmlessExactlyWhen(t: Tab, counted: seq<FeedItem>)
    requires Counted(t, counted) && Distinct(counted) && AllExecutions(counted)
    ensures AgreesAfterUnseenReset(t) <==> counted == []
  {
    if counted == [] {
      forall items: seq<FeedItem> | History(items, |items|) && 0 < |items| <= MAX_FEED
        ensures Shows(Observe(t, items).chainStats, items)
      {
        NothingCountedBefore(t, items);
      }
    } else {
      var alert := AlertItem(AlertId(1), AlertData("", 0));
      var key := LowerCase(counted[0].data.chain);
      assert OnChain(counted[0], key);
      TotalCountsExecutions(counted, key);
      assert key in t.chainStats;
      assert [alert][1..] == [] && Distinct([alert]);
      EarlierTotalsStay(t, counted, [alert], key);
      assert Totals([alert], key).total == 0;
      assert History([alert], |[alert]|) && !Shows(Observe(t, [alert]).chainStats, [alert]);
    }
  }

  lemma NothingCountedBefore(t: Tab, items: seq<FeedItem>)
    requires Counted(t, []) && History(items, |items|) && items != []
    ensures Shows(Observe(t, items).chainStats, items)
  {
    HistoryDistinct(items, |items|);
    ObserveSelects(t, [], items);
    assert ExecutionIds([]) == {};
    assert Unseen(items, {}) + [] == Unseen(items, {});
    forall key: string ensures Totals(Unseen(items, {}), key) == Totals(items, key) {
      TotalsOfUnseen(items, key);
    }
  }

  lemma Missed(a: Execution, b: Execution) returns (tab: Tab)
    requires LowerCase(a.chain) != LowerCase(b.chain)
    ensures var first, second := NewItem(1, ExecutionResult(a)), NewItem(1, ExecutionResult(b));
            tab == Observe(Observe(EMPTY_TAB, [first]), [second]) && !Shows(tab.chainStats, [second])
  {
    var first, second := NewItem(1, ExecutionResult(a)), NewItem(1, ExecutionResult(b));
    assert [first][1..] == [] && [second][1..] == [];
    tab := Process(EMPTY_TAB, first);
    assert Observe(EMPTY_TAB, [first]) == ProcessAll(tab, []);
    assert Observe(tab, [second]) == ProcessAll(tab, []);
    assert OnChain([second][0], LowerCase(b.chain));
    assert Totals([second], LowerCase(b.chain)).total > 0;
  }

  /** Without a render between a reset and the next item, the item takes an id already processed and is missed. */
  lemma UnseenResetMissesAnExecution(a: Execution, b: Execution)
    requires LowerCase(a.chain) != LowerCase(b.chain)
    ensures var steps := [Dispatched(ExecutionResult(a)), Rendered, Dispatched(Reset),
              Dispatched(ExecutionResult(b)), Rendered];
            && WithinWindow(Watch(0, false), steps)
            && !Shows(Run(Mounted(INITIAL_STATE), steps).tab.chainStats, HistoryOf(INITIAL_STATE, [], steps))
  {
    var e, f := Dispatched(ExecutionResult(a)), Dispatched(ExecutionResult(b));
    var steps := [e, Rendered, Dispatched(Reset), f, Rendered];
    var tab := Missed(a, b);
    assert steps[1..] == [Rendered, Dispatched(Reset), f, Rendered];
    assert steps[1..][1..] == [Dispatched(Reset), f, Rendered];
    assert steps[1..][1..][1..] == [f, Rendered];
    assert [f, Rendered][1..] == [Rendered];
    assert [Rendered][1..] == [];
    var first, second := NewItem(1, ExecutionResult(a)), NewItem(1, ExecutionResult(b));
    var s0 := Mounted(INITIAL_STATE);
    var s1 := Next(s0, e);
    assert s1.state == State([first], 1);
    var s2 := Next(s1, Rendered);
    var s3 := Next(s2, Dispatched(Reset));
    var s4 := Next(s3, f);
    assert s4.state == State([second], 1);
    var s5 := Next(s4, Rendered);
    assert Run(s0, steps) == Run(s1, steps[1..]) == Run(s2, steps[1..][1..]) == Run(s3, [f, Rendered]) ==
        Run(s4, [Rendered]) == Run(s5, []);
    assert s5.tab == tab;
    assert HistoryOf(INITIAL_STATE, [], steps) == HistoryOf(s1.state, [first] + [], steps[1..]);
    assert HistoryOf(s1.state, [first] + [], steps[1..]) == HistoryOf(s1.state, [first] + [], steps[1..][1..]);
    assert HistoryOf(s1.state, [first] + [], steps[1..][1..]) == HistoryOf(s3.state, [], [f, Rendered]);
    assert HistoryOf(s3.state, [], [f, Rendered]) == HistoryOf(s4.state, [second] + [], [Rendered]);
    assert HistoryOf(s4.state, [second] + [], [Rendered]) == HistoryOf(s4.state, [second] + [], []);
    assert [second] + [] == [second];
    assert WithinWindow(Watch(1, true), [Rendered]);
    assert WithinWindow(Watch(0, true), [f, Rendered]);
    assert WithinWindow(Watch(0, false), [Dispatched(Reset), f, Rendered]);
    assert WithinWindow(Watch(1, false), steps[1..]);
  }
}
