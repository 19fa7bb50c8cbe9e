/**
 Runs of the PID lock protocol that end with two holders, one for each of the three conditions.
 */
module PidLockRuns {
  import opened Options
  import opened PidLock

  // ---------------------------------------------------------------------------
  // None of the three conditions can be dropped
  // ---------------------------------------------------------------------------

  lemma FirstStep(k: Conditions, s: State, e: Event, rest: seq<Event>)
    requires Next(s, e).Some?
    ensures Run(s, [e] + rest) == Run(Next(s, e).value, rest)
    ensures Obeys(k, s, [e] + rest) <==> Allows(k, s, e) && Obeys(k, Next(s, e).value, rest)
  {
    assert ([e] + rest)[1..] == rest;
  }

  /** Three calls of three different processes, call i in process i. */
  function Trio(lock: Option<LockFile>, file: FileState, dead: set<nat>, a: Call, b: Call, c: Call): State {
    State(lock, file, Missing, [a, b, c], dead)
  }

  /** The rest of the run `tr` from `s` stays within the conditions and ends with two holders. */
  predicate EndsWithTwoHolders(k: Conditions, s: State, tr: seq<Event>) {
    && Run(s, tr).Some? && Obeys(k, s, tr)
    && exists c, d :: 0 <= c < d < |Run(s, tr).value.calls| && Holds(Run(s, tr).value, c) && Holds(Run(s, tr).value, d)
  }

  lemma TwoHolders(k: Conditions, s: State, c: nat, d: nat)
    requires c < d && Holds(s, c) && Holds(s, d)
    ensures EndsWithTwoHolders(k, s, [])
  {
  }

  predicate SameTrio(s: State, t: State) {
    && s.lock == t.lock && s.file == t.file && s.temp == t.temp && s.dead == t.dead
    && |s.calls| == 3 == |t.calls|
    && s.calls[0] == t.calls[0] && s.calls[1] == t.calls[1] && s.calls[2] == t.calls[2]
  }

  lemma Prepend(k: Conditions, s: State, e: Event, s': State, rest: seq<Event>)
    requires Next(s, e).Some? && SameTrio(Next(s, e).value, s') && Allows(k, s, e)
    requires EndsWithTwoHolders(k, s', rest)
    ensures EndsWithTwoHolders(k, s, [e] + rest)
  {
    hide Next, Run, Obeys, Allows, Holds;
    assert Next(s, e).value.calls == s'.calls;
    assert Next(s, e).value == s';
    FirstStep(k, s, e, rest);
  }

  /** The state in which call 0 is inside its critical section and both other calls are about to create. */
  function OneHolder(first: Op, others: Op, file: FileState): State {
    Trio(Some(LockFile(0, true)), file, {}, Call(0, first, Loading, true), Call(1, others, Trying, false),
        Call(2, others, Trying, false))
  }

  lemma ReachOneHolder(k: Conditions, first: Op, others: Op, file: FileState, rest: seq<Event>)
    requires EndsWithTwoHolders(k, OneHolder(first, others, file), rest)
    ensures EndsWithTwoHolders(k, Start(first, others, file), [Event(0, Ok)] + ([Event(0, Ok)] + rest))
  {
    var s1 := OneHolder(first, others, file).(lock := Some(LockFile(0, false)));
    s1 := s1.(calls := s1.calls[0 := Call(0, first, Stamping, true)]);
    Prepend(k, s1, Event(0, Ok), OneHolder(first, others, file), rest);
    Prepend(k, Start(first, others, file), Event(0, Ok), s1, [Event(0, Ok)] + rest);
  }

  function Start(first: Op, others: Op, file: FileState): State {
    Trio(None, file, {}, Call(0, first, Trying, false), Call(1, others, Trying, false), Call(2, others, Trying, false))
  }

  /** Two waiters that both probed an exited holder: the slower one unlinks the lock of the faster one. */
  lemma RaceAfterExit(k: Conditions, op: Op) returns (tr: seq<Event>)
    requires op.Update? && !k.noHolderExits
    ensures EndsWithTwoHolders(k,
              Trio(Some(LockFile(0, true)), Missing, {0}, Call(0, op, Loading, true),
                  Call(1, op, Probing(0), false), Call(2, op, Probing(0), false)),
              tr)
  {
    hide EndsWithTwoHolders;
    var dead, gone := {0}, Call(0, op, Loading, true);
    var left := Some(LockFile(0, true));
    var a, b := Call(1, op, Trying, false), Call(2, op, Trying, false);
    var winner := a.(pc := Stamping, acquired := true);
    var s0 := Trio(left, Missing, dead, gone, a.(pc := Probing(0)), b.(pc := Probing(0)));
    var s1 := Trio(left, Missing, dead, gone, a.(pc := Stale), b.(pc := Probing(0)));
    var s2 := Trio(left, Missing, dead, gone, a.(pc := Stale), b.(pc := Stale));
    var s3 := Trio(None, Missing, dead, gone, a, b.(pc := Stale));
    var s4 := Trio(Some(LockFile(1, false)), Missing, dead, gone, winner, b.(pc := Stale));
    var s5 := Trio(None, Missing, dead, gone, winner, b);
    var s6 := Trio(Some(LockFile(2, false)), Missing, dead, gone, winner, b.(pc := Stamping, acquired := true));
    tr := [];
    TwoHolders(k, s6, 1, 2);
    Prepend(k, s5, Event(2, Ok), s6, tr); tr := [Event(2, Ok)] + tr;
    Prepend(k, s4, Event(2, Ok), s5, tr); tr := [Event(2, Ok)] + tr;
    Prepend(k, s3, Event(1, Ok), s4, tr); tr := [Event(1, Ok)] + tr;
    Prepend(k, s2, Event(1, Ok), s3, tr); tr := [Event(1, Ok)] + tr;
    Prepend(k, s1, Event(2, Ok), s2, tr); tr := [Event(2, Ok)] + tr;
    Prepend(k, s0, Event(1, Ok), s1, tr); tr := [Event(1, Ok)] + tr;
  }

  /** With only the first condition dropped, a run ends with two holders. */
  lemma ExitOfAHolderBreaksExclusion(op: Op) returns (s: State, tr: seq<Event>)
    requires op.Update?
    ensures Initial(s) && EndsWithTwoHolders(Conditions(false, true, true), s, tr)
  {
    hide EndsWithTwoHolders;
    var k := Conditions(false, true, true);
    var holder, mine := Call(0, op, Loading, true), Some(LockFile(0, true));
    var a, b := Call(1, op, Trying, false), Call(2, op, Trying, false);
    s := Start(op, op, Missing);
    tr := RaceAfterExit(k, op);
    var s0 := OneHolder(op, op, Missing);
    var s1 := Trio(mine, Missing, {}, holder, a.(pc := Blocked), b);
    var s2 := Trio(mine, Missing, {}, holder, a.(pc := Probing(0)), b);
    var s3 := Trio(mine, Missing, {}, holder, a.(pc := Probing(0)), b.(pc := Blocked));
    var s4 := Trio(mine, Missing, {}, holder, a.(pc := Probing(0)), b.(pc := Probing(0)));
    var s5 := s4.(dead := {0});
    Prepend(k, s4, Event(0, Exit), s5, tr); tr := [Event(0, Exit)] + tr;
    Prepend(k, s3, Event(2, Ok), s4, tr); tr := [Event(2, Ok)] + tr;
    Prepend(k, s2, Event(2, Ok), s3, tr); tr := [Event(2, Ok)] + tr;
    Prepend(k, s1, Event(1, Ok), s2, tr); tr := [Event(1, Ok)] + tr;
    Prepend(k, s0, Event(1, Ok), s1, tr); tr := [Event(1, Ok)] + tr;
    ReachOneHolder(k, op, op, Missing, tr);
    tr := [Event(0, Ok)] + ([Event(0, Ok)] + tr);
  }

  /** A waiter whose read failed because the lock was released meanwhile: it unlinks the lock of a newcomer. */
  lemma LateUnlinkHitsNewcomer(k: Conditions, gone: Call, op: Op) returns (tr: seq<Event>)
    requires gone.pid == 0 && gone.pc.Done? && op.Update?
    ensures EndsWithTwoHolders(k, Trio(None, Missing, {}, gone, Call(1, op, Unreadable, false),
              Call(2, op, Trying, false)), tr)
  {
    hide EndsWithTwoHolders;
    var a, newcomer := Call(1, op, Trying, false), Call(2, op, Stamping, true);
    var s0 := Trio(None, Missing, {}, gone, a.(pc := Unreadable), Call(2, op, Trying, false));
    var s1 := Trio(Some(LockFile(2, false)), Missing, {}, gone, a.(pc := Unreadable), newcomer);
    var s2 := Trio(None, Missing, {}, gone, a, newcomer);
    var s3 := Trio(Some(LockFile(1, false)), Missing, {}, gone, a.(pc := Stamping, acquired := true), newcomer);
    tr := [];
    TwoHolders(k, s3, 1, 2);
    Prepend(k, s2, Event(1, Ok), s3, tr); tr := [Event(1, Ok)] + tr;
    Prepend(k, s1, Event(1, Ok), s2, tr); tr := [Event(1, Ok)] + tr;
    Prepend(k, s0, Event(2, Ok), s1, tr); tr := [Event(2, Ok)] + tr;
  }

  /** The holder gives up its update and releases between a waiter's failed create and its read. */
  lemma ReleaseBeforeRead(k: Conditions, holder: Call, op: Op) returns (tr: seq<Event>)
    requires holder.pid == 0 && holder.pc.Opening? && op.Update? && !k.failedCreateReadsAtOnce
    ensures EndsWithTwoHolders(k,
              Trio(Some(LockFile(0, true)), Missing, {}, holder, Call(1, op, Trying, false),
                  Call(2, op, Trying, false)),
              tr)
  {
    hide EndsWithTwoHolders;
    var mine := Some(LockFile(0, true));
    var a, b := Call(1, op, Trying, false), Call(2, op, Trying, false);
    var s1 := Trio(mine, Missing, {}, holder, a, b);
    var s2 := Trio(mine, Missing, {}, holder.(pc := Releasing), a, b);
    var s3 := Trio(mine, Missing, {}, holder.(pc := Releasing), a.(pc := Blocked), b);
    var s4 := Trio(None, Missing, {}, holder.(pc := Done), a.(pc := Blocked), b);
    var s5 := Trio(None, Missing, {}, holder.(pc := Done), a.(pc := Unreadable), b);
    tr := LateUnlinkHitsNewcomer(k, holder.(pc := Done), op);
    Prepend(k, s4, Event(1, Ok), s5, tr); tr := [Event(1, Ok)] + tr;
    Prepend(k, s3, Event(0, Ok), s4, tr); tr := [Event(0, Ok)] + tr;
    Prepend(k, s2, Event(1, Ok), s3, tr); tr := [Event(1, Ok)] + tr;
    Prepend(k, s1, Event(0, Fail), s2, tr); tr := [Event(0, Fail)] + tr;
  }

  /** With only the second condition dropped, a run ends with two holders. */
  lemma LateReadBreaksExclusion(op: Op) returns (s: State, tr: seq<Event>)
    requires op.Update?
    ensures Initial(s) && EndsWithTwoHolders(Conditions(true, false, true), s, tr)
  {
    hide EndsWithTwoHolders;
    var k := Conditions(true, false, true);
    var holder := Call(0, op, Opening(Apply(op, map[])), true);
    s := Start(op, op, Missing);
    tr := ReleaseBeforeRead(k, holder, op);
    var s1 := Trio(Some(LockFile(0, true)), Missing, {}, holder, Call(1, op, Trying, false),
        Call(2, op, Trying, false));
    Prepend(k, OneHolder(op, op, Missing), Event(0, Ok), s1, tr); tr := [Event(0, Ok)] + tr;
    ReachOneHolder(k, op, op, Missing, tr);
    tr := [Event(0, Ok)] + ([Event(0, Ok)] + tr);
  }

  /** A holder whose lock is already gone releases once more: it unlinks the lock of a newcomer. */
  lemma SecondReleaseHitsNewcomer(k: Conditions, holder: Call, op: Op) returns (tr: seq<Event>)
    requires holder.pid == 0 && holder.pc.ReleasingAgain? && op.Update?
    ensures EndsWithTwoHolders(k, Trio(None, Missing, {}, holder, Call(1, op, Trying, false),
              Call(2, op, Trying, false)), tr)
  {
    hide EndsWithTwoHolders;
    var b := Call(2, op, Trying, false);
    var newcomer := Call(1, op, Stamping, true);
    var s0 := Trio(None, Missing, {}, holder, Call(1, op, Trying, false), b);
    var s1 := Trio(Some(LockFile(1, false)), Missing, {}, holder, newcomer, b);
    var s2 := Trio(None, Missing, {}, holder.(pc := Done), newcomer, b);
    var s3 := Trio(Some(LockFile(2, false)), Missing, {}, holder.(pc := Done), newcomer,
        b.(pc := Stamping, acquired := true));
    tr := [];
    TwoHolders(k, s3, 1, 2);
    Prepend(k, s2, Event(2, Ok), s3, tr); tr := [Event(2, Ok)] + tr;
    Prepend(k, s1, Event(0, Ok), s2, tr); tr := [Event(0, Ok)] + tr;
    Prepend(k, s0, Event(1, Ok), s1, tr); tr := [Event(1, Ok)] + tr;
  }

  /**
   With only the third condition dropped: removing the last entry deletes the lock early, and
   the holder's own release then unlinks the lock of a newcomer.
   */
  lemma EmptyingTheMapBreaksExclusion(name: string, op: Op) returns (s: State, tr: seq<Event>)
    requires op.Update?
    ensures Initial(s) && EndsWithTwoHolders(Conditions(true, true, false), s, tr)
  {
    hide EndsWithTwoHolders;
    var k := Conditions(true, true, false);
    var mine := Some(LockFile(0, true));
    var file := Text(map[name := 1]);
    var holder := Call(0, Remove(name), Loading, true);
    var a, b := Call(1, op, Trying, false), Call(2, op, Trying, false);
    s := Start(Remove(name), op, file);
    var s0 := OneHolder(Remove(name), op, file);
    var s1 := Trio(mine, file, {}, holder.(pc := Deleting), a, b);
    var s2 := Trio(mine, Missing, {}, holder.(pc := DeletingLock), a, b);
    var s3 := Trio(None, Missing, {}, holder.(pc := ReleasingAgain), a, b);
    assert map[name := 1] - {name} == map[];
    tr := SecondReleaseHitsNewcomer(k, holder.(pc := ReleasingAgain), op);
    Prepend(k, s2, Event(0, Ok), s3, tr); tr := [Event(0, Ok)] + tr;
    Prepend(k, s1, Event(0, Ok), s2, tr); tr := [Event(0, Ok)] + tr;
    Prepend(k, s0, Event(0, Ok), s1, tr); tr := [Event(0, Ok)] + tr;
    ReachOneHolder(k, Remove(name), op, file, tr);
    tr := [Event(0, Ok)] + ([Event(0, Ok)] + tr);
  }
}
