/**
 The live feed of the dashboard: the reducer behind it, the failure streak shown from it, and
 the notification counter kept beside it.
 */
module LiveFeed {
  import opened Options

  const MAX_FEED: nat := 50
  const FAILURE_STREAK_THRESHOLD: nat := 3

  /** Numeric fields are None when absent or not finite. */
  datatype Execution = Execution(
    chain: string,
    success: bool,
    timestamp: Option<real>,
    latencyMs: Option<real>,
    actualProfit: Option<real>,
    gasCost: Option<real>)

  /** An alert, as far as it is told apart from others: the key of the backfill is type and timestamp. */
  datatype AlertData = AlertData(kind: string, timestamp: int)

  /** The ids `e-<counter>` and `a-<counter>`. */
  datatype FeedId = ExecutionId(counter: nat) | AlertId(counter: nat)

  datatype FeedItem = ExecutionItem(id: FeedId, data: Execution) | AlertItem(id: FeedId, alert: AlertData)

  /** The part of the dashboard state that the feed depends on. */
  datatype State = State(feed: seq<FeedItem>, nextFeedId: nat)

  /** Other stands for every action that leaves the feed alone. */
  datatype Action = ExecutionResult(data: Execution) | Alert(alert: AlertData) | Reset | Other

  const INITIAL_STATE := State([], 0)

  function Min(a: int, b: int): int {
    if a <= b then a else b
  }

  function NewItem(counter: nat, a: Action): FeedItem
    requires a.ExecutionResult? || a.Alert?
  {
    if a.ExecutionResult? then ExecutionItem(ExecutionId(counter), a.data) else AlertItem(AlertId(counter), a.alert)
  }

  function Reducer(s: State, a: Action): State {
    match a
    case Reset => INITIAL_STATE
    case Other => s
    case _ =>
      var counter := s.nextFeedId + 1;
      State([NewItem(counter, a)] + s.feed[..Min(|s.feed|, MAX_FEED - 1)], counter)
  }

  function Dispatch(s: State, actions: seq<Action>): State
    decreases |actions|
  {
    if actions == [] then s else Dispatch(Reducer(s, actions[0]), actions[1..])
  }

  /** Item i was created with counter nextFeedId - i, and the feed holds the 50 latest items since the reset. */
  ghost predicate WellNumbered(s: State) {
    && |s.feed| == Min(MAX_FEED, s.nextFeedId)
    && forall i :: 0 <= i < |s.feed| ==> Numbered(s.feed[i], s.nextFeedId - i)
  }

  predicate Numbered(item: FeedItem, counter: int) {
    && item.id.counter == counter
    && (item.ExecutionItem? <==> item.id.ExecutionId?)
  }

  lemma {:induction false} FeedIsWellNumbered(s: State, actions: seq<Action>)
    requires WellNumbered(s)
    ensures WellNumbered(Dispatch(s, actions))
    decreases |actions|
  {
    if actions != [] {
      FeedIsWellNumbered(Reducer(s, actions[0]), actions[1..]);
    }
  }

  /** What was dispatched since the last reset, newest first, after `since` before. */
  function DispatchedSince(since: seq<Action>, actions: seq<Action>): seq<Action>
    decreases |actions|
  {
    if actions == [] then since else
      DispatchedSince(
        match actions[0] case Reset => [] case Other => since case _ => [actions[0]] + since,
        actions[1..])
  }

  /** The feed item with this number for an execution result or an alert. */
  ghost predicate Carries(item: FeedItem, a: Action, counter: int) {
    match a
    case ExecutionResult(data) => counter >= 0 && item == ExecutionItem(ExecutionId(counter), data)
    case Alert(alert) => counter >= 0 && item == AlertItem(AlertId(counter), alert)
    case _ => false
  }

  ghost predicate Holds(s: State, since: seq<Action>) {
    && s.nextFeedId == |since|
    && |s.feed| == Min(50, |since|)
    && forall i :: 0 <= i < |s.feed| ==> Carries(s.feed[i], since[i], |since| - i)
  }

  /** The feed is the latest 50 of all that was dispatched since the reset, newest first, each with its own data. */
  lemma {:induction false} FeedHoldsTheLatest(s: State, since: seq<Action>, actions: seq<Action>)
    requires Holds(s, since)
    ensures Holds(Dispatch(s, actions), DispatchedSince(since, actions))
    decreases |actions|
  {
    if actions != [] {
      var a := actions[0];
      if a.ExecutionResult? || a.Alert? {
        var since' := [a] + since;
        assert forall i :: 1 <= i < |since'| ==> since'[i] == since[i - 1];
        assert forall i :: 1 <= i < |Reducer(s, a).feed| ==> Reducer(s, a).feed[i] == s.feed[i - 1];
        assert Holds(Reducer(s, a), since');
      }
      hide Reducer, Carries;
      FeedHoldsTheLatest(
        Reducer(s, a),
        match a case Reset => [] case Other => since case _ => [a] + since,
        actions[1..]);
    }
  }

  // ---------------------------------------------------------------------------
  // The failure streak
  // ---------------------------------------------------------------------------

  predicate IsFailure(item: FeedItem) {
    item.ExecutionItem? && !item.data.success
  }

  /** The length of the longest prefix of failures. */
  function Streak(feed: seq<FeedItem>): (n: nat)
    ensures n <= |feed|
    ensures forall i :: 0 <= i < n ==> IsFailure(feed[i])
    ensures n < |feed| ==> !IsFailure(feed[n])
  {
    if feed == [] || !IsFailure(feed[0]) then 0 else 1 + Streak(feed[1..])
  }

  method CountFailureStreak(feed: seq<FeedItem>) returns (streak: nat)
    ensures streak == Streak(feed)
  {
    streak := 0;
    for i := 0 to |feed|
      invariant streak == i
      invariant Streak(feed) == i + Streak(feed[i..])
    {
      if IsFailure(feed[i]) {
        streak := streak + 1;
        assert feed[i..][1..] == feed[i + 1..];
      } else {
        break;
      }
    }
  }

  lemma {:induction false} StreakOfPrefix(feed: seq<FeedItem>, k: nat)
    requires k <= |feed|
    ensures Streak(feed[..k]) == Min(k, Streak(feed))
  {
  }

  /** The provider around the reducer: paused messages vanish, malformed ones are counted and dropped. */
  datatype Message = Valid(action: Action) | Malformed
  datatype Step =
    | Received(paused: bool, message: Message)
    | Backfilled(alert: AlertData) // an alert fetched after a reconnect goes straight to the reducer
    | Reconnected                // dispatches the reset

  datatype Provider = Provider(state: State, failStreak: nat, dropped: nat)

  function FailStreakAfter(n: nat, a: Action): nat {
    if !a.ExecutionResult? then n else if a.data.success then 0 else n + 1
  }

  function OnStep(p: Provider, step: Step): Provider {
    match step
    case Received(true, _) => p
    case Received(false, Malformed) => p.(dropped := p.dropped + 1)
    case Received(false, Valid(a)) =>
      // no server event is named reset: the payload check rejects it like any unknown event
      if a.Reset? then p.(dropped := p.dropped + 1)
      else Provider(Reducer(p.state, a), FailStreakAfter(p.failStreak, a), p.dropped)
    case Backfilled(alert) => p.(state := Reducer(p.state, Alert(alert)))
    case Reconnected => p.(state := Reducer(p.state, Reset))
  }

  function OnSteps(p: Provider, steps: seq<Step>): Provider
    decreases |steps|
  {
    if steps == [] then p else OnSteps(OnStep(p, steps[0]), steps[1..])
  }

  function FailuresAfter(n: nat, step: Step): nat {
    match step
    case Received(false, Valid(a)) =>
      if a.ExecutionResult? && !a.data.success then n + 1 else if a.Other? || a.Reset? then n else 0
    case Received(_, _) => n
    case _ => 0
  }

  /** Failures dispatched since the last success, alert or reset, after `n` of them before the run. */
  function FailuresSince(n: nat, steps: seq<Step>): nat
    decreases |steps|
  {
    if steps == [] then n else FailuresSince(FailuresAfter(n, steps[0]), steps[1..])
  }

  ghost predicate StreakInv(p: Provider, n: nat) {
    && Streak(p.state.feed) == Min(MAX_FEED, n)
    && n <= p.failStreak
  }

  lemma StreakOfNewest(item: FeedItem, feed: seq<FeedItem>, k: nat)
    requires k <= |feed|
    ensures Streak([item] + feed[..k]) == if IsFailure(item) then 1 + Min(k, Streak(feed)) else 0
  {
    assert ([item] + feed[..k])[1..] == feed[..k];
    StreakOfPrefix(feed, k);
  }

  lemma StreakAfter(p: Provider, a: Action, n: nat)
    requires Streak(p.state.feed) == Min(MAX_FEED, n)
    ensures Streak(Reducer(p.state, a).feed) ==
            Min(MAX_FEED,
              match a
              case Reset => 0
              case Other => n
              case Alert(_) => 0
              case ExecutionResult(e) => if e.success then 0 else n + 1)
  {
    if a.ExecutionResult? || a.Alert? {
      StreakOfNewest(NewItem(p.state.nextFeedId + 1, a), p.state.feed, Min(|p.state.feed|, MAX_FEED - 1));
    }
  }

  lemma StreakStep(p: Provider, step: Step, n: nat)
    requires StreakInv(p, n)
    ensures StreakInv(OnStep(p, step), FailuresAfter(n, step))
  {
    hide Streak, Reducer;
    match step
    case Received(false, Valid(a)) => StreakAfter(p, a, n);
    case Received(_, _) =>
    case Backfilled(alert) => StreakAfter(p, Alert(alert), n);
    case Reconnected => StreakAfter(p, Reset, n);
  }

  lemma {:induction false} StreakAlongSteps(p: Provider, steps: seq<Step>, n: nat)
    requires StreakInv(p, n)
    ensures StreakInv(OnSteps(p, steps), FailuresSince(n, steps))
    decreases |steps|
  {
    if steps != [] {
      StreakStep(p, steps[0], n);
      StreakAlongSteps(OnStep(p, steps[0]), steps[1..], FailuresAfter(n, steps[0]));
    }
  }

  /**
   In every reachable state of the dashboard the streak shown from the feed is the number of
   failures since the last success, alert or reset, cut at the window, and it never exceeds the
   notification counter: a feed streak at the threshold means that the counter reached it.
   */
  lemma StreakNeverOutrunsCounter(steps: seq<Step>)
    ensures var p := OnSteps(Provider(INITIAL_STATE, 0, 0), steps);
            && Streak(p.state.feed) == Min(MAX_FEED, FailuresSince(0, steps))
            && Streak(p.state.feed) <= p.failStreak
            && (Streak(p.state.feed) >= 3 ==> p.failStreak >= 3)
  {
    StreakAlongSteps(Provider(INITIAL_STATE, 0, 0), steps, 0);
  }

  lemma {:induction false} OnStepsSnoc(p: Provider, steps: seq<Step>, last: Step)
    ensures OnSteps(p, steps + [last]) == OnStep(OnSteps(p, steps), last)
    decreases |steps|
  {
    if steps == [] {
      assert [] + [last] == [last] && [last][1..] == [];
      assert OnSteps(p, [last]) == OnSteps(OnStep(p, last), []);
    } else {
      assert (steps + [last])[1..] == steps[1..] + [last];
      OnStepsSnoc(OnStep(p, steps[0]), steps[1..], last);
    }
  }

  /** The step is an execution result that is taken in, with this outcome. */
  predicate Took(step: Step, success: bool) {
    step.Received? && !step.paused && step.message.Valid? && step.message.action.ExecutionResult?
    && step.message.action.data.success == success
  }

  /** `n` failures were taken in since the last success that was, or since the beginning. */
  ghost predicate FailuresAtTheEnd(n: nat, steps: seq<Step>) {
    exists from: nat ::
      && from <= |steps|
      && (forall i :: from <= i < |steps| ==> !Took(steps[i], true))
      && (from == 0 || Took(steps[from - 1], true))
      && n == |TookFailure(steps, from)|
  }

  /** The positions from `from` on at which a failure was taken in. */
  function TookFailure(steps: seq<Step>, from: nat): set<int> {
    set i | from <= i < |steps| && Took(steps[i], false)
  }

  /** The positions at which a payload was rejected; no server event is named reset. */
  function Rejections(steps: seq<Step>): set<int> {
    set i | 0 <= i < |steps| && Rejects(steps[i])
  }

  predicate Rejects(step: Step) {
    step.Received? && !step.paused && (step.message.Malformed? || step.message.action.Reset?)
  }

  lemma TookFailureSnoc(steps: seq<Step>, last: Step, from: nat)
    requires from <= |steps|
    ensures |TookFailure(steps + [last], from)| == |TookFailure(steps, from)| + (if Took(last, false) then 1 else 0)
  {
    var all := steps + [last];
    assert TookFailure(all, from) == TookFailure(steps, from) + (if Took(last, false) then {|steps|} else {}) by {
      assert forall i :: 0 <= i < |steps| ==> all[i] == steps[i];
      assert all[|steps|] == last;
    }
    assert |steps| !in TookFailure(steps, from);
  }

  lemma RejectionsSnoc(steps: seq<Step>, last: Step)
    ensures |Rejections(steps + [last])| == |Rejections(steps)| + (if Rejects(last) then 1 else 0)
  {
    var all := steps + [last];
    assert Rejections(all) == Rejections(steps) + (if Rejects(last) then {|steps|} else {}) by {
      assert forall i :: 0 <= i < |steps| ==> all[i] == steps[i];
      assert all[|steps|] == last;
    }
    assert |steps| !in Rejections(steps);
  }

  lemma FailuresSnoc(n: nat, steps: seq<Step>, last: Step)
    requires FailuresAtTheEnd(n, steps)
    ensures FailuresAtTheEnd(if Took(last, true) then 0 else if Took(last, false) then n + 1 else n, steps + [last])
  {
    var all := steps + [last];
    assert forall i :: 0 <= i < |steps| ==> all[i] == steps[i];
    assert all[|steps|] == last;
    if Took(last, true) {
      assert TookFailure(all, |all|) == {};
    } else {
      var from: nat :|
        && from <= |steps|
        && (forall i :: from <= i < |steps| ==> !Took(steps[i], true))
        && (from == 0 || Took(steps[from - 1], true))
        && n == |TookFailure(steps, from)|;
      TookFailureSnoc(steps, last, from);
      assert from == 0 || Took(all[from - 1], true);
    }
  }

  /**
   The two counters, exactly and for every run: the notification counter is the number of failures
   taken in since the last success that was taken in, resets and alerts notwithstanding; the
   dropped counter is the number of payloads rejected while not paused.
   */
  lemma {:induction false} CountersAreExact(steps: seq<Step>)
    ensures var p := OnSteps(Provider(INITIAL_STATE, 0, 0), steps);
            FailuresAtTheEnd(p.failStreak, steps) && p.dropped == |Rejections(steps)|
    decreases |steps|
  {
    if steps == [] {
      assert TookFailure(steps, 0) == {} && Rejections(steps) == {};
    } else {
      var n := |steps| - 1;
      var front, last := steps[..n], steps[n];
      assert steps == front + [last];
      CountersAreExact(front);
      OnStepsSnoc(Provider(INITIAL_STATE, 0, 0), front, last);
      FailuresSnoc(OnSteps(Provider(INITIAL_STATE, 0, 0), front).failStreak, front, last);
      RejectionsSnoc(front, last);
    }
  }

  /** The provider with its refs, updated by the event handler. */
  class SSEProvider {
    var state: State
    var failStreak: nat
    var droppedEvents: nat

    constructor ()
      ensures View() == Provider(INITIAL_STATE, 0, 0)
    {
      state, failStreak, droppedEvents := INITIAL_STATE, 0, 0;
    }

    function View(): Provider
      reads this
    {
      Provider(state, failStreak, droppedEvents)
    }

    /** `notified` says that a failure-streak notification was sent. */
    method OnEvent(paused: bool, message: Message) returns (notified: bool)
      modifies this
      ensures View() == OnStep(old(View()), Received(paused, message))
      ensures notified <==> failStreak > old(failStreak) && failStreak >= 3
    {
      notified := false;
      if paused {
        return;
      }
      if message.Malformed? || message.action.Reset? {
        droppedEvents := droppedEvents + 1;
        return;
      }
      state := Reducer(state, message.action);
      if message.action.ExecutionResult? {
        if message.action.data.success {
          failStreak := 0;
        } else {
          failStreak := failStreak + 1;
          notified := failStreak >= FAILURE_STREAK_THRESHOLD;
        }
      }
    }

    /** The reconnect effect up to its fetch: the reset. */
    method Reconnect()
      modifies this
      ensures View() == OnStep(old(View()), Reconnected)
    {
      state := Reducer(state, Reset);
    }

    /**
     When the fetch has answered, with any events in between: at most 20 alerts, repeated and
     malformed ones skipped.
     */
    method BackfillAlerts(alerts: seq<Option<AlertData>>)
      modifies this
      ensures View() == OnSteps(old(View()), Backfill(alerts[..Min(|alerts|, 20)], {}))
    {
      ghost var before := View();
      var seen: set<AlertData> := {};
      var fetched := alerts[..Min(|alerts|, 20)];
      ghost var all := Backfill(fetched, {});
      for i := 0 to |fetched|
        invariant OnSteps(before, all) == OnSteps(View(), Backfill(fetched[i..], seen))
      {
        assert fetched[i..][1..] == fetched[i + 1..] && fetched[i..][0] == fetched[i];
        if fetched[i].None? || fetched[i].value in seen {
          continue;
        }
        seen := seen + {fetched[i].value};
        ghost var rest := Backfill(fetched[i + 1..], seen);
        assert ([Backfilled(fetched[i].value)] + rest)[1..] == rest;
        state := Reducer(state, Alert(fetched[i].value));
      }
    }
  }

  /** The dispatches of the alert backfill; None is a malformed alert. */
  function Backfill(alerts: seq<Option<AlertData>>, seen: set<AlertData>): seq<Step> {
    if alerts == [] then []
    else if alerts[0].None? || alerts[0].value in seen then Backfill(alerts[1..], seen)
    else [Backfilled(alerts[0].value)] + Backfill(alerts[1..], seen + {alerts[0].value})
  }

  // ---------------------------------------------------------------------------
  // Duplicate alerts after a reconnect
  // ---------------------------------------------------------------------------

  predicate NoRepeats(alerts: seq<AlertData>) {
    forall i, j :: 0 <= i < j < |alerts| ==> alerts[i] != alerts[j]
  }

  /** The alerts in a feed, newest first. */
  function FeedAlerts(feed: seq<FeedItem>): seq<AlertData> {
    if feed == [] then []
    else (if feed[0].AlertItem? then [feed[0].alert] else []) + FeedAlerts(feed[1..])
  }

  function AlertsAfter(since: seq<AlertData>, step: Step): seq<AlertData> {
    match step
    case Received(false, Valid(Alert(alert))) => [alert] + since
    case Received(_, _) => since
    case Backfilled(alert) => [alert] + since
    case Reconnected => []
  }

  /** The alerts dispatched since the last reset, newest first, after `since` of them before the run. */
  function AlertsSince(since: seq<AlertData>, steps: seq<Step>): seq<AlertData>
    decreases |steps|
  {
    if steps == [] then since else AlertsSince(AlertsAfter(since, steps[0]), steps[1..])
  }

  lemma {:induction false} AlertsSinceConcat(since: seq<AlertData>, a: seq<Step>, b: seq<Step>)
    ensures AlertsSince(since, a + b) == AlertsSince(AlertsSince(since, a), b)
    decreases |a|
  {
    if a == [] {
      assert a + b == b;
    } else {
      assert (a + b)[1..] == a[1..] + b;
      AlertsSinceConcat(AlertsAfter(since, a[0]), a[1..], b);
    }
  }

  /** The backfill dispatches exactly the well-formed alerts it has not seen, each once. */
  lemma {:induction false} BackfillDispatchesOnce(since: seq<AlertData>, alerts: seq<Option<AlertData>>,
          seen: set<AlertData>)
    ensures var all := AlertsSince(since, Backfill(alerts, seen));
            && (forall x :: x in all <==> x in since || (Some(x) in alerts && x !in seen))
            && (NoRepeats(all) <==> NoRepeats(since) && forall x :: Some(x) in alerts && x !in seen ==> x !in since)
    decreases |alerts|
  {
    if alerts != [] {
      var rest := alerts[1..];
      assert forall x: Option<AlertData> :: x in alerts <==> x == alerts[0] || x in rest;
      if alerts[0].None? || alerts[0].value in seen {
        BackfillDispatchesOnce(since, rest, seen);
      } else {
        var alert := alerts[0].value;
        var steps := Backfill(rest, seen + {alert});
        assert ([Backfilled(alert)] + steps)[1..] == steps;
        BackfillDispatchesOnce([alert] + since, rest, seen + {alert});
        NoRepeatsCons(alert, since);
      }
    }
  }

  /** Well-formed alerts without repetitions are dispatched in the order in which they were fetched. */
  lemma {:induction false} BackfillInOrder(alerts: seq<Option<AlertData>>, seen: set<AlertData>)
    requires forall i :: 0 <= i < |alerts| ==> alerts[i].Some? && alerts[i].value !in seen
    requires forall i, j :: 0 <= i < j < |alerts| ==> alerts[i] != alerts[j]
    ensures |Backfill(alerts, seen)| == |alerts|
    ensures forall i :: 0 <= i < |alerts| ==> Backfill(alerts, seen)[i] == Backfilled(alerts[i].value)
    decreases |alerts|
  {
    if alerts != [] {
      var rest := alerts[1..];
      assert forall i :: 0 <= i < |rest| ==> rest[i] == alerts[i + 1];
      assert forall i :: 0 <= i < |rest| ==> rest[i].value != alerts[0].value;
      BackfillInOrder(rest, seen + {alerts[0].value});
    }
  }

  lemma NoRepeatsCons(alert: AlertData, since: seq<AlertData>)
    ensures NoRepeats([alert] + since) <==> alert !in since && NoRepeats(since)
  {
    var all := [alert] + since;
    assert forall i :: 0 <= i < |since| ==> all[i + 1] == since[i];
    assert all[0] == alert;
  }

  lemma {:induction false} AlertsOfPrefix(feed: seq<FeedItem>, k: nat)
    requires k <= |feed|
    ensures FeedAlerts(feed[..k]) <= FeedAlerts(feed)
  {
    if k > 0 {
      assert feed[..k][1..] == feed[1..][..k - 1];
      AlertsOfPrefix(feed[1..], k - 1);
    }
  }

  /** One action adds its alert at the front; only the window can drop older ones. */
  lemma AlertsOfReducer(s: State, a: Action, since: seq<AlertData>)
    requires FeedAlerts(s.feed) <= since && |s.feed| <= s.nextFeedId
    ensures var s' := Reducer(s, a);
            var since' := match a case Alert(alert) => [alert] + since case Reset => [] case _ => since;
            && FeedAlerts(s'.feed) <= since' && |s'.feed| <= s'.nextFeedId
            && (a.Reset? || (s.nextFeedId <= s'.nextFeedId &&
                (s'.nextFeedId <= MAX_FEED && FeedAlerts(s.feed) == since ==> FeedAlerts(s'.feed) == since')))
  {
    if a.ExecutionResult? || a.Alert? {
      var k := Min(|s.feed|, MAX_FEED - 1);
      AlertsOfPrefix(s.feed, k);
      assert Reducer(s, a).feed[1..] == s.feed[..k];
      assert k == |s.feed| ==> s.feed[..k] == s.feed;
    }
  }

  /**
   The alerts in the feed are the latest of those dispatched since the reset, and all of them
   while at most 50 items were.
   */
  lemma {:induction false} FeedAlertsAreTheLatest(p: Provider, steps: seq<Step>, since: seq<AlertData>)
    requires FeedAlerts(p.state.feed) <= since && |p.state.feed| <= p.state.nextFeedId
    requires Reconnected !in steps
    ensures var s' := OnSteps(p, steps).state;
            && FeedAlerts(s'.feed) <= AlertsSince(since, steps)
            && p.state.nextFeedId <= s'.nextFeedId
            && (s'.nextFeedId <= MAX_FEED && FeedAlerts(p.state.feed) == since ==>
                FeedAlerts(s'.feed) == AlertsSince(since, steps))
    decreases |steps|
  {
    if steps != [] {
      hide FeedAlerts, Reducer;
      var step := steps[0];
      var action :=
        match step
        case Received(false, Valid(a)) => a
        case Backfilled(alert) => Alert(alert)
        case _ => Other;
      AlertsOfReducer(p.state, action, since);
      AlertsOfReducer(p.state, Other, since);
      OtherChangesNothing(p.state);
      assert forall x :: x in steps[1..] ==> x in steps;
      FeedAlertsAreTheLatest(OnStep(p, step), steps[1..], AlertsAfter(since, step));
    }
  }

  lemma OtherChangesNothing(s: State)
    ensures Reducer(s, Other) == s
  {
  }

  lemma {:induction false} BackfillHasNoReset(alerts: seq<Option<AlertData>>, seen: set<AlertData>)
    ensures Reconnected !in Backfill(alerts, seen)
  {
    if alerts != [] {
      BackfillHasNoReset(alerts[1..], if alerts[0].None? then seen else seen + {alerts[0].value});
      BackfillHasNoReset(alerts[1..], seen);
    }
  }

  /** A reconnect: the reset, whatever happens until the fetch answers, and the backfill. */
  function Reconnection(between: seq<Step>, alerts: seq<Option<AlertData>>): seq<Step> {
    [Reconnected] + (between + Backfill(alerts[..Min(|alerts|, 20)], {}))
  }

  /**
   What the backfill prevents, exactly. Whatever happens between the reset and the answer (a
   further reconnect would abort the fetch), no alert is dispatched twice since the reset if and
   only if those that arrived in between are distinct and none of them is among the first 20
   fetched. While at most 50 items were dispatched the feed holds all those alerts, so the same is
   true of it; beyond that, no repeated dispatch still means no repetition in the feed.
   */
  lemma BackfillRepeatsExactlyWhen(p: Provider, between: seq<Step>, alerts: seq<Option<AlertData>>)
    requires Reconnected !in between
    ensures var fetched := alerts[..Min(|alerts|, 20)];
            var arrived := AlertsSince([], between);
            var all := AlertsSince([], Reconnection(between, alerts));
            var s' := OnSteps(p, Reconnection(between, alerts)).state;
            && (NoRepeats(all) <==> NoRepeats(arrived) && forall x :: x in arrived ==> Some(x) !in fetched)
            && (NoRepeats(all) ==> NoRepeats(FeedAlerts(s'.feed)))
            && (s'.nextFeedId <= MAX_FEED ==> FeedAlerts(s'.feed) == all)
  {
    var fetched := alerts[..Min(|alerts|, 20)];
    var late := between + Backfill(fetched, {});
    var steps := Reconnection(between, alerts);
    assert steps[0] == Reconnected && steps[1..] == late;
    AlertsSinceConcat([], between, Backfill(fetched, {}));
    BackfillDispatchesOnce(AlertsSince([], between), fetched, {});
    BackfillHasNoReset(fetched, {});
    var p' := OnStep(p, Reconnected);
    assert p'.state == INITIAL_STATE && FeedAlerts(p'.state.feed) == [];
    FeedAlertsAreTheLatest(p', late, []);
  }

  /** Such a run: one alert that arrives as an event and is fetched as well is in the feed twice. */
  lemma AlertDuringBackfillShowsTwice(p: Provider, alert: AlertData)
    ensures OnSteps(p, Reconnection([Received(false, Valid(Alert(alert)))], [Some(alert)])).state.feed
            == [AlertItem(AlertId(2), alert), AlertItem(AlertId(1), alert)]
  {
    var event, late := Received(false, Valid(Alert(alert))), Backfilled(alert);
    var fetched := [Some(alert)];
    assert fetched[..Min(|fetched|, 20)] == fetched && fetched[1..] == [];
    assert Backfill(fetched, {}) == [late];
    var steps := Reconnection([event], fetched);
    assert steps == [Reconnected] + ([event] + [late]);
    assert steps[1..] == [event, late] && [event, late][1..] == [late] && [late][1..] == [];
    var p1 := OnStep(p, Reconnected);
    var p2 := OnStep(p1, event);
    assert OnSteps(p, steps) == OnSteps(p1, [event, late]) == OnSteps(p2, [late]) == OnSteps(OnStep(p2, late), []);
  }
}
