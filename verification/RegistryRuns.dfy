/**
 Particular runs of the registry protocol: an empty file that nobody fills in, undisturbed
 stretches of a call, and what goes wrong when a stale timeout or a failed unlock strikes.
 */
module RegistryRuns {
  import opened Options
  import opened RegistryData
  import opened RegistryProtocol
  import opened RegistrySafety
  import opened RegistryAccounts

  // ---------------------------------------------------------------------------
  // The file that nobody fills in
  // ---------------------------------------------------------------------------

  /** The file is not a registry, and no call is on its way to change that. */
  ghost predicate Stuck(s: State) {
    s.file.Unparsable? && forall p :: 0 <= p < |s.procs| ==> GetsNowhere(s.procs[p].pc)
  }

  predicate GetsNowhere(pc: Pc) {
    !pc.Filling? && !pc.Unlocking? && !pc.Returned? && (InTransaction(pc) ==> pc.Reading?)
  }

  lemma StuckStep(s: State, e: Event, s': State)
    requires Stuck(s) && Next(s, e) == Some(s')
    ensures Stuck(s') && !Commits(s, e)
  {
    hide Succeed, Throw;
    StepEffect(s, e, s');
    assert GetsNowhere(s.procs[e.p].pc);
    if e.action.Ok? {
      StuckSucceed(s, e.p, s');
    } else if e.action.Fail? {
      StuckThrow(s, e.p, e.action.locked, s');
    }
  }

  lemma StuckSucceed(s: State, p: nat, s': State)
    requires p < |s.procs| && s.file.Unparsable? && GetsNowhere(s.procs[p].pc)
    requires Succeed(s, p) == Some(s')
    ensures p < |s'.procs| && GetsNowhere(s'.procs[p].pc)
  {
    hide Pow2, Mutate, Release;
  }

  lemma StuckThrow(s: State, p: nat, locked: bool, s': State)
    requires p < |s.procs| && GetsNowhere(s.procs[p].pc)
    requires Throw(s, p, locked) == Some(s')
    ensures p < |s'.procs| && GetsNowhere(s'.procs[p].pc)
  {
  }

  lemma {:induction false} StuckAlongRun(s: State, tr: seq<Event>)
    requires Stuck(s) && Run(s, tr).Some?
    ensures Stuck(Run(s, tr).value) && Committed(s, tr) == []
    decreases |tr|
  {
    if tr != [] {
      hide Stuck;
      var s' := Next(s, tr[0]).value;
      StuckStep(s, tr[0], s');
      StuckAlongRun(s', tr[1..]);
    }
  }

  /** A call that has renamed left a registry behind: with an unparsable file there is none. */
  lemma NobodyHasRenamed(s: State, tr: seq<Event>, p: nat)
    requires Initial(s) && Healthy(s, tr) && Run(s, tr).Some?
    requires Run(s, tr).value.file.Unparsable?
    requires p < |s.procs|
    ensures p < |Run(s, tr).value.procs|
    ensures !Run(s, tr).value.procs[p].pc.Unlocking? && !Run(s, tr).value.procs[p].pc.Returned?
  {
    assert Accounted(s, p);
    AccountAlongRun(s, tr, p);
    Serialisable(s, tr);
    if CommitsBy(s, tr, p) > 0 {
      CommitsByCommitted(s, tr, p);
    }
  }

  /**
   Once the file is unparsable and no call is about to fill it in, it stays that way for good:
   whatever follows, stale timeouts included, nothing is ever committed and no call returns.
   */
  lemma UnparsableForGood(s: State, tr: seq<Event>, more: seq<Event>)
    requires Initial(s) && Healthy(s, tr) && Run(s, tr).Some?
    requires Run(s, tr).value.file.Unparsable?
    requires forall p :: 0 <= p < |Run(s, tr).value.procs| ==> !Run(s, tr).value.procs[p].pc.Filling?
    requires Run(Run(s, tr).value, more).Some?
    ensures var later := Run(Run(s, tr).value, more).value;
            && later.file.Unparsable?
            && Committed(Run(s, tr).value, more) == []
            && forall p :: 0 <= p < |later.procs| ==> !later.procs[p].pc.Returned?
  {
    RunInv(s, tr);
    var t := Run(s, tr).value;
    forall p | 0 <= p < |t.procs| ensures GetsNowhere(t.procs[p].pc) {
      MutatorsConstant(s, tr, p);
      NobodyHasRenamed(s, tr, p);
      assert CallOk(t, p);
    }
    StuckAlongRun(t, more);
    var later := Run(t, more).value;
    forall p | 0 <= p < |later.procs| ensures !later.procs[p].pc.Returned? {
      assert GetsNowhere(later.procs[p].pc);
    }
  }

  /** Such a state is two events away: the first deployer creates the file and dies. */
  lemma CrashLeavesAnEmptyFile(m: Mutator) returns (s: State, tr: seq<Event>)
    ensures Initial(s) && s.file.Absent? && Healthy(s, tr) && Run(s, tr).Some?
    ensures Run(s, tr).value.file.Unparsable?
    ensures forall p :: 0 <= p < |Run(s, tr).value.procs| ==> !Run(s, tr).value.procs[p].pc.Filling?
  {
    s := State(Absent, Absent, None, [Fresh(m)]);
    var crash := Event(0, Crash);
    var s1 := Next(s, Event(0, Ok)).value;
    var s2 := Next(s1, crash).value;
    tr := [Event(0, Ok)] + ([crash] + []);
    FirstStep(s, Event(0, Ok), s1, [crash] + []);
    FirstStep(s1, crash, s2, []);
  }

  // ---------------------------------------------------------------------------
  // Undisturbed stretches of a call
  // ---------------------------------------------------------------------------

  lemma FirstStep(s: State, e: Event, s': State, rest: seq<Event>)
    requires Next(s, e) == Some(s')
    ensures Run(s, [e] + rest) == Run(s', rest)
    ensures Committed(s, [e] + rest) == (if Commits(s, e) then [s.procs[e.p].mutator] else []) + Committed(s', rest)
    ensures Healthy(s, [e] + rest) <==> Healthy(s', rest) && (e.action.Expire? ==> !InTransaction(s.procs[e.p].pc))
  {
    assert ([e] + rest)[1..] == rest;
  }

  /** The next n operations of call p succeed. */
  function Oks(p: nat, n: nat): seq<Event> {
    if n == 0 then [] else [Event(p, Ok)] + Oks(p, n - 1)
  }

  /** Operations up to and including the rename. */
  function StepsLeft(pc: Pc): nat {
    match pc
    case Reading => 5
    case Mutating(_) => 4
    case Opening(_) => 3
    case Writing(_) => 2
    case Renaming => 1
    case _ => 0
  }

  /** Call p is between lock and rename, and what it does is based on the registry r. */
  predicate BasedOn(s: State, p: nat, r: Registry) {
    && p < |s.procs|
    && (match s.procs[p].pc
        case Reading => s.file == Whole(r)
        case Mutating(seen) => seen == r
        case Opening(next) => next == Mutate(s.procs[p].mutator, r)
        case Writing(next) => next == Mutate(s.procs[p].mutator, r)
        case Renaming => s.temp == Whole(Mutate(s.procs[p].mutator, r))
        case _ => false)
  }

  /** The state after the rename of a call based on r. */
  function Renamed(s: State, p: nat, r: Registry): State
    requires p < |s.procs|
  {
    var q := s.procs[p];
    Put(s, p, q.(pc := Unlocking, commits := q.commits + 1)).(file := Whole(Mutate(q.mutator, r)), temp := Absent)
  }

  /** One undisturbed operation brings the call nearer to the same outcome. */
  lemma OneNearer(s: State, p: nat, r: Registry) returns (s': State)
    requires BasedOn(s, p, r)
    ensures Next(s, Event(p, Ok)) == Some(s')
    ensures s.procs[p].pc.Renaming? ==> s' == Renamed(s, p, r)
    ensures !s.procs[p].pc.Renaming? ==>
              BasedOn(s', p, r) && StepsLeft(s'.procs[p].pc) + 1 == StepsLeft(s.procs[p].pc) &&
                  Renamed(s', p, r) == Renamed(s, p, r)
  {
    hide Mutate, Pow2;
    s' := Succeed(s, p).value;
    if !s.procs[p].pc.Renaming? {
      assert s' == Put(s, p, s.procs[p].(pc := s'.procs[p].pc)).(temp := s'.temp);
      hide Succeed;
      SameOutcome(s, p, r, s'.procs[p].pc, s'.temp);
    }
  }

  lemma SameOutcome(s: State, p: nat, r: Registry, pc: Pc, temp: FileState)
    requires p < |s.procs|
    ensures Renamed(Put(s, p, s.procs[p].(pc := pc)).(temp := temp), p, r) == Renamed(s, p, r)
  {
  }

  /** A call between lock and rename that runs undisturbed commits on top of the registry it is based on. */
  lemma {:induction false} RunToRename(s: State, p: nat, r: Registry, rest: seq<Event>)
    requires BasedOn(s, p, r)
    ensures var tr := Oks(p, StepsLeft(s.procs[p].pc)) + rest;
            && Run(s, tr) == Run(Renamed(s, p, r), rest)
            && Committed(s, tr) == [s.procs[p].mutator] + Committed(Renamed(s, p, r), rest)
            && (Healthy(s, tr) <==> Healthy(Renamed(s, p, r), rest))
    decreases StepsLeft(s.procs[p].pc)
  {
    hide Next, Run, Committed, Healthy;
    var e := Event(p, Ok);
    var s' := OneNearer(s, p, r);
    StepEffect(s, e, s');
    var n := StepsLeft(s.procs[p].pc) - 1;
    assert Oks(p, n + 1) + rest == [e] + (Oks(p, n) + rest);
    FirstStep(s, e, s', Oks(p, n) + rest);
    if s.procs[p].pc.Renaming? {
      assert Oks(p, 0) + rest == rest;
    } else {
      RunToRename(s', p, r, rest);
    }
  }

  /** From the start of an attempt to holding the lock. */
  lemma RunToReading(s: State, p: nat, rest: seq<Event>) returns (s': State)
    requires p < |s.procs| && s.procs[p].pc.Creating?
    requires !s.file.Absent? && s.lock == None
    ensures s' == Put(s, p, s.procs[p].(pc := Reading, held := true)).(lock := Some(p))
    ensures Run(s, Oks(p, 2) + rest) == Run(s', rest)
    ensures Committed(s, Oks(p, 2) + rest) == Committed(s', rest)
    ensures Healthy(s, Oks(p, 2) + rest) <==> Healthy(s', rest)
  {
    hide Pow2;
    var e := Event(p, Ok);
    var s1 := Next(s, e).value;
    s' := Next(s1, e).value;
    FirstStep(s, e, s1, [e] + rest);
    FirstStep(s1, e, s', rest);
    assert Oks(p, 1) == [e] + Oks(p, 0) == [e];
    assert Oks(p, 2) + rest == [e] + ([e] + rest);
  }

  /** A whole attempt up to the rename. */
  lemma RunAttempt(s: State, p: nat, r: Registry, rest: seq<Event>) returns (s': State)
    requires p < |s.procs| && s.procs[p].pc.Creating?
    requires s.file == Whole(r) && s.lock == None
    ensures s' == Renamed(Put(s, p, s.procs[p].(held := true)).(lock := Some(p)), p, r)
    ensures Run(s, Oks(p, 2) + (Oks(p, 5) + rest)) == Run(s', rest)
    ensures Committed(s, Oks(p, 2) + (Oks(p, 5) + rest)) == [s.procs[p].mutator] + Committed(s', rest)
    ensures Healthy(s, Oks(p, 2) + (Oks(p, 5) + rest)) <==> Healthy(s', rest)
  {
    hide Next, Run, Committed, Healthy, Oks, Mutate;
    var s1 := RunToReading(s, p, Oks(p, 5) + rest);
    RunToRename(s1, p, r, rest);
    s' := Renamed(s1, p, r);
  }

  function UndisturbedCall(p: nat): seq<Event> {
    Oks(p, 2) + (Oks(p, 5) + [Event(p, Ok)])
  }

  /** A call that runs alone from start to finish. */
  lemma RunUndisturbed(s: State, p: nat, r: Registry, rest: seq<Event>) returns (s': State)
    requires p < |s.procs| && s.procs[p].pc.Creating?
    requires s.file == Whole(r) && s.lock == None
    ensures |s'.procs| == |s.procs| && s'.procs == s.procs[p := s'.procs[p]] && s'.procs[p].pc.Returned?
    ensures s'.file == Whole(Mutate(s.procs[p].mutator, r)) && s'.lock == None
    ensures Run(s, UndisturbedCall(p) + rest) == Run(s', rest)
    ensures Committed(s, UndisturbedCall(p) + rest) == [s.procs[p].mutator] + Committed(s', rest)
    ensures Healthy(s, UndisturbedCall(p) + rest) <==> Healthy(s', rest)
  {
    hide Mutate, Oks, Run, Committed, Healthy, Pow2;
    var tail := [Event(p, Ok)] + rest;
    var s1 := RunAttempt(s, p, r, tail);
    s' := Next(s1, Event(p, Ok)).value;
    FirstStep(s1, Event(p, Ok), s', rest);
    assert UndisturbedCall(p) + rest == Oks(p, 2) + (Oks(p, 5) + tail);
  }

  // ---------------------------------------------------------------------------
  // Why the stale timeout matters
  // ---------------------------------------------------------------------------

  /** The first timeout that could break a run, after `tr`, with another call `r` about to lock. */
  ghost predicate FirstExpiry(s: State, tr: seq<Event>, p: nat, r: nat) {
    && Initial(s) && Healthy(s, tr) && Run(s, tr).Some?
    && (var t := Run(s, tr).value;
        t.lock == Some(p) && p < |t.procs| && r < |t.procs| && r != p && t.procs[r].pc.Locking?)
  }

  /** Two calls stand between lock and rename. */
  ghost predicate TwoTransactions(s: State) {
    exists p, q :: 0 <= p < q < |s.procs| && InTransaction(s.procs[p].pc) && InTransaction(s.procs[q].pc)
  }

  lemma AtMostOneTransaction(s: State, first: FileState, log: seq<Mutator>)
    requires Inv(s, first, log)
    ensures !TwoTransactions(s)
  {
    forall p, q | 0 <= p < q < |s.procs| ensures !InTransaction(s.procs[p].pc) || !InTransaction(s.procs[q].pc) {
      assert CallOk(s, p) && CallOk(s, q);
    }
  }

  /**
   The condition of Serialisable is exact. At the first stale timeout that fires while some
   other call is about to lock: its owner is between lock and rename if and only if that lock
   then puts a second call between lock and rename.
   */
  lemma ExpiryBreaksExactlyThere(s: State, tr: seq<Event>, p: nat, r: nat)
    requires FirstExpiry(s, tr, p, r)
    ensures var t := Run(s, tr).value.(lock := None);
            && Next(Run(s, tr).value, Event(p, Expire)) == Some(t)
            && Next(t, Event(r, Ok)).Some?
            && (InTransaction(t.procs[p].pc) <==> TwoTransactions(Next(t, Event(r, Ok)).value))
  {
    RunInv(s, tr);
    var before := Run(s, tr).value;
    var t := before.(lock := None);
    var after := Next(t, Event(r, Ok)).value;
    assert after.procs[p] == t.procs[p] && after.procs[r].pc == Reading;
    if InTransaction(t.procs[p].pc) {
      var low, high := if p < r then p else r, if p < r then r else p;
      assert InTransaction(after.procs[low].pc) && InTransaction(after.procs[high].pc);
    } else {
      var log := Committed(s, tr);
      InvPreserved(before, Event(p, Expire), t, s.file, log);
      InvPreserved(t, Event(r, Ok), after, s.file, log);
      AtMostOneTransaction(after, s.file, log);
    }
  }

  /**
   And every such timeout can lose an update: there is a continuation in which the owner and
   the other call both commit, and the file is as if the owner never had.
   */
  lemma ExpiryLosesAnUpdate(s: State, tr: seq<Event>, p: nat, r: nat) returns (more: seq<Event>)
    requires FirstExpiry(s, tr, p, r)
    requires InTransaction(Run(s, tr).value.procs[p].pc)
    requires Run(s, tr).value.file.Whole?
    ensures var before := Run(s, tr).value;
            && Run(before, [Event(p, Expire)] + more).Some?
            && Committed(before, [Event(p, Expire)] + more) == [before.procs[p].mutator, before.procs[r].mutator]
            && Run(before, [Event(p, Expire)] + more).value.file ==
                Whole(Mutate(before.procs[r].mutator, before.file.registry))
  {
    RunInv(s, tr);
    var before := Run(s, tr).value;
    assert CallOk(before, p);
    more := LostUpdate(before.(lock := None), p, r, before.file.registry);
    FirstStep(before, Event(p, Expire), before.(lock := None), more);
  }

  lemma LostUpdate(t: State, p: nat, r: nat, registry: Registry) returns (more: seq<Event>)
    requires p < |t.procs| && r < |t.procs| && p != r
    requires t.lock == None && t.file == Whole(registry)
    requires BasedOn(t, p, registry) && t.procs[r].pc.Locking?
    ensures Run(t, more).Some?
    ensures Committed(t, more) == [t.procs[p].mutator, t.procs[r].mutator]
    ensures Run(t, more).value.file == Whole(Mutate(t.procs[r].mutator, registry))
  {
    hide Mutate, Run, Committed, Healthy, Oks, Next;
    var e := Event(r, Ok);
    var last := Oks(r, 4) + [];
    var middle := Oks(p, StepsLeft(t.procs[p].pc)) + last;
    more := [e] + ([e] + middle);
    var t1 := Put(t, r, t.procs[r].(pc := Reading, held := true)).(lock := Some(r));
    LockStep(t, r);
    FirstStep(t, e, t1, [e] + middle);
    var t2 := OneNearer(t1, r, registry);
    StepEffect(t1, e, t2);
    ReadStep(t1, r, registry);
    FirstStep(t1, e, t2, middle);
    RunToRename(t2, p, registry, last);
    var t3 := Renamed(t2, p, registry);
    RunToRename(t3, r, registry, []);
    RunNothing(Renamed(t3, r, registry));
  }

  lemma LockStep(t: State, r: nat)
    requires r < |t.procs| && t.procs[r].pc.Locking? && t.lock == None
    ensures Next(t, Event(r, Ok)) == Some(Put(t, r, t.procs[r].(pc := Reading, held := true)).(lock := Some(r)))
  {
  }

  lemma ReadStep(t: State, r: nat, registry: Registry)
    requires r < |t.procs| && t.procs[r].pc.Reading? && t.file == Whole(registry)
    ensures Next(t, Event(r, Ok)) == Some(Put(t, r, t.procs[r].(pc := Mutating(registry))))
  {
  }

  lemma RunNothing(s: State)
    ensures Run(s, []) == Some(s) && Committed(s, []) == [] && Healthy(s, [])
  {
  }

  /** A concrete such run from the start, with two deployments on different networks. */
  lemma StaleTimeoutOnRunningOwnerLosesAnUpdate(a: Deployment, b: Deployment) returns (s: State, tr: seq<Event>)
    requires a.network != b.network
    ensures Initial(s) && Run(s, tr).Some? && !Healthy(s, tr)
    ensures Overwrite(b) in Committed(s, tr)
    ensures Run(s, tr).value.file == Whole(map[a.network := a.record])
  {
    s := State(Whole(map[]), Absent, None, [Fresh(Overwrite(a)), Fresh(Overwrite(b))]);
    hide Run, Committed, Healthy, Oks, Next;
    var late := Oks(0, 4) + [];
    var middle := Oks(1, 2) + (Oks(1, 5) + late);
    tr := Oks(0, 2) + ([Event(0, Ok)] + ([Event(0, Expire)] + middle));
    var s1 := RunToReading(s, 0, [Event(0, Ok)] + ([Event(0, Expire)] + middle));
    var s2 := Put(s1, 0, s1.procs[0].(pc := Mutating(map[])));
    ReadStep(s1, 0, map[]);
    FirstStep(s1, Event(0, Ok), s2, [Event(0, Expire)] + middle);
    var s3 := s2.(lock := None);
    ExpireStep(s2, 0);
    FirstStep(s2, Event(0, Expire), s3, middle);
    var s4 := RunAttempt(s3, 1, map[], late);
    RunToRename(s4, 0, map[], []);
    RunNothing(Renamed(s4, 0, map[]));
    assert Committed(s, tr)[0] == Overwrite(b);
  }

  lemma ExpireStep(s: State, p: nat)
    requires p < |s.procs| && s.lock == Some(p)
    ensures Next(s, Event(p, Expire)) == Some(s.(lock := None))
  {
  }

  /** From a rename whose unlock fails with an error that reads as a lock error to the next attempt. */
  function FromFailedUnlock(p: nat): seq<Event> {
    [Event(p, Fail(true))] + (Oks(p, 3) + [])
  }

  lemma RunFromFailedUnlock(s: State, p: nat, rest: seq<Event>) returns (s': State)
    requires p < |s.procs| && s.procs[p].pc.Unlocking? && s.procs[p].held && s.procs[p].attempt == 1 &&
             s.lock == Some(p)
    ensures |s'.procs| == |s.procs| && s' == s.(lock := None, procs := s.procs[p := s'.procs[p]])
    ensures s'.procs[p].pc.Creating? && s'.procs[p].mutator == s.procs[p].mutator
    ensures Run(s, FromFailedUnlock(p) + rest) == Run(s', rest)
    ensures Committed(s, FromFailedUnlock(p) + rest) == Committed(s', rest)
    ensures Healthy(s, FromFailedUnlock(p) + rest) <==> Healthy(s', rest)
  {
    hide Run, Committed, Healthy, Pow2;
    var e, f := Event(p, Ok), Event(p, Fail(true));
    var s1 := Next(s, f).value;
    var s2, s3 := UnlockAndDecide(s1, p);
    s' := Next(s3, e).value;
    FirstStep(s, f, s1, [e] + ([e] + ([e] + rest)));
    FirstStep(s1, e, s2, [e] + ([e] + rest));
    FirstStep(s2, e, s3, [e] + rest);
    FirstStep(s3, e, s', rest);
    assert Oks(p, 1) == [e] + Oks(p, 0) == [e];
    assert Oks(p, 3) == [e] + Oks(p, 2) == [e, e, e];
    assert FromFailedUnlock(p) + rest == [f] + ([e] + ([e] + ([e] + rest)));
  }

  lemma UnlockAndDecide(s: State, p: nat) returns (s1: State, s2: State)
    requires p < |s.procs| && s.procs[p].pc == Catching(true) && s.procs[p].held && s.procs[p].attempt == 1 &&
             s.lock == Some(p)
    ensures Next(s, Event(p, Ok)) == Some(s1) && Next(s1, Event(p, Ok)) == Some(s2)
    ensures p < |s1.procs| && s1.procs[p].pc.Deciding?
    ensures s2 == Put(s, p, s.procs[p].(pc := Sleeping, held := false, unlockFailed := false)).(lock := None)
  {
    hide Pow2;
    s1 := Succeed(s, p).value;
    s2 := Succeed(s1, p).value;
  }

  /**
   Why the failed unlocks are counted: when the unlock after a rename fails with an error that
   reads as a lock error (assumed: its text contains "ELOCKED"), the call starts over and commits
   the same update again, here over the update another call has committed for the same network
   in between.
   */
  lemma FailedUnlockCommitsAgain(a: Deployment, b: Deployment) returns (s: State, tr: seq<Event>)
    requires a.network == b.network
    ensures Initial(s) && Run(s, tr).Some? && Healthy(s, tr)
    ensures Committed(s, tr) == [Overwrite(a), Overwrite(b), Overwrite(a)]
    ensures Run(s, tr).value.file == Whole(map[a.network := a.record])
    ensures |Run(s, tr).value.procs| == 2 && forall p :: 0 <= p < 2 ==> Run(s, tr).value.procs[p].pc.Returned?
  {
    s := State(Whole(map[]), Absent, None, [Fresh(Overwrite(a)), Fresh(Overwrite(b))]);
    hide Next, Run, Committed, Healthy, Oks, FromFailedUnlock, UndisturbedCall;
    var again := UndisturbedCall(0) + [];
    var other := UndisturbedCall(1) + again;
    tr := Oks(0, 2) + (Oks(0, 5) + (FromFailedUnlock(0) + other));
    var s1 := RunAttempt(s, 0, map[], FromFailedUnlock(0) + other);
    var s2 := RunFromFailedUnlock(s1, 0, other);
    var s3 := RunUndisturbed(s2, 1, map[a.network := a.record], again);
    var s4 := RunUndisturbed(s3, 0, map[b.network := b.record], []);
    RunNothing(s4);
  }
}
