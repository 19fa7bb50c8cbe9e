/**
 How a call of withRegistryLock ends: what it has committed, how long it has slept, whether it can
 still hold the lock, and which errors it retries.
 */
module RegistryAccounts {
  import opened Options
  import opened RegistryData
  import opened RegistryProtocol
  import opened RegistrySafety

  // ---------------------------------------------------------------------------
  // How a call ends
  // ---------------------------------------------------------------------------

  /** How many of the commits of a run belong to call `p`. */
  function CommitsBy(s: State, tr: seq<Event>, p: nat): nat
    decreases |tr|
  {
    if tr == [] then 0 else
      match Next(s, tr[0])
      case None => 0
      case Some(s') => (if Commits(s, tr[0]) && tr[0].p == p then 1 else 0) + CommitsBy(s', tr[1..], p)
  }

  /** How many times in a run call `p` failed to unlock after its rename. */
  function LateFailuresBy(s: State, tr: seq<Event>, p: nat): nat
    decreases |tr|
  {
    if tr == [] then 0 else
      match Next(s, tr[0])
      case None => 0
      case Some(s') => (if FailsLate(s, tr[0]) && tr[0].p == p then 1 else 0) + LateFailuresBy(s', tr[1..], p)
  }

  /** The unlocks of a call: after a failed read, after the rename, and in the catch clause. */
  predicate Unlocks(q: Proc) {
    q.pc.AbortingRead? || q.pc.Unlocking? || (q.pc.Catching? && q.held)
  }

  /** How many unlocks of call `p` failed in a run. */
  function UnlockFailuresBy(s: State, tr: seq<Event>, p: nat): nat
    decreases |tr|
  {
    if tr == [] then 0 else
      match Next(s, tr[0])
      case None => 0
      case Some(s') =>
        (if tr[0].p == p && tr[0].action.Fail? && Unlocks(s.procs[p]) then 1 else 0) + UnlockFailuresBy(s', tr[1..], p)
  }

  /** Whether the last unlock that call `p` tried has failed, `failed` telling of those before the run. */
  function LastUnlockFailed(failed: bool, s: State, tr: seq<Event>, p: nat): bool
    decreases |tr|
  {
    if tr == [] then failed else
      match Next(s, tr[0])
      case None => failed
      case Some(s') => LastUnlockFailed(FailedAfter(failed, s, tr[0], p), s', tr[1..], p)
  }

  predicate FailedAfter(failed: bool, s: State, e: Event, p: nat) {
    if e.p == p < |s.procs| && Unlocks(s.procs[p]) && (e.action.Ok? || e.action.Fail?) then e.action.Fail? else failed
  }

  /** The step in which the unlock after a rename fails. */
  predicate FailsLate(s: State, e: Event) {
    e.p < |s.procs| && e.action.Fail? && s.procs[e.p].pc.Unlocking?
  }

  /** k retries have slept BASE_DELAY * (2^k - 1) in total, and there are never more than MAX_RETRIES attempts. */
  ghost predicate SleepAccount(q: Proc) {
    && 1 <= q.attempt <= MAX_RETRIES
    && q.slept == BASE_DELAY * (Pow2(q.attempt - 1) - 1)
    && !q.pc.RanOff?
    && (q.pc.Sleeping? ==> q.attempt < MAX_RETRIES)
  }

  /** What a call has committed and whether it can hold the lock. */
  ghost predicate CommitAccount(s: State, p: nat)
    requires p < |s.procs|
  {
    var q := s.procs[p];
    && (Critical(q.pc) ==> q.held)
    && (if q.pc.Crashed? then q.lateFailures <= q.commits <= q.lateFailures + 1
        else q.commits == q.lateFailures + (if q.pc.Unlocking? || q.pc.Returned? then 1 else 0))
    && (s.lock == Some(p) ==> Critical(q.pc) || (q.pc.Catching? && q.held) || q.pc.Crashed? || q.unlockFailed)
    && (q.pc.Returned? ==> !q.unlockFailed)
  }

  /** The step out of Sleeping starts the next attempt. */
  lemma SleepEffect(s: State, p: nat, s': State)
    requires p < |s.procs| && s.procs[p].pc.Sleeping? && SleepAccount(s.procs[p])
    requires Succeed(s, p) == Some(s')
    ensures p < |s'.procs| && SleepAccount(s'.procs[p])
  {
    var q := s.procs[p];
    assert Pow2(q.attempt) == 2 * Pow2(q.attempt - 1);
  }

  /** No other step touches the attempt counter or the time slept. */
  lemma NoSleepEffect(s: State, p: nat, s': State)
    requires p < |s.procs| && !s.procs[p].pc.Sleeping?
    requires Succeed(s, p) == Some(s')
    ensures p < |s'.procs| && SameAttempt(s.procs[p], s'.procs[p])
  {
    hide Mutate, Pow2, Release;
  }

  lemma ThrowEffect(s: State, p: nat, locked: bool, s': State)
    requires p < |s.procs|
    requires Throw(s, p, locked) == Some(s')
    ensures p < |s'.procs| && SameAttempt(s.procs[p], s'.procs[p])
  {
  }

  predicate SameAttempt(q: Proc, q': Proc) {
    && q'.attempt == q.attempt && q'.slept == q.slept
    && !q'.pc.RanOff?
    && (q'.pc.Sleeping? ==> q.attempt < MAX_RETRIES)
  }

  lemma SleepPreserved(s: State, e: Event, s': State)
    requires Next(s, e) == Some(s')
    requires SleepAccount(s.procs[e.p])
    ensures e.p < |s'.procs| && SleepAccount(s'.procs[e.p])
  {
    hide Succeed, Throw, Pow2;
    if e.action.Ok? && s.procs[e.p].pc.Sleeping? {
      SleepEffect(s, e.p, s');
    } else if e.action.Ok? {
      NoSleepEffect(s, e.p, s');
    } else if e.action.Fail? {
      ThrowEffect(s, e.p, e.action.locked, s');
    }
  }

  lemma SucceedCommits(s: State, p: nat, s': State)
    requires p < |s.procs| && CommitAccount(s, p)
    requires Succeed(s, p) == Some(s')
    ensures p < |s'.procs| && CommitAccount(s', p)
    ensures s'.procs[p].commits == s.procs[p].commits + (if s.procs[p].pc.Renaming? then 1 else 0)
    ensures s'.procs[p].lateFailures == s.procs[p].lateFailures
    ensures s'.procs[p].unlockFailed == (s.procs[p].unlockFailed && !Unlocks(s.procs[p]))
  {
    hide Pow2, Mutate;
  }

  lemma ThrowCommits(s: State, p: nat, locked: bool, s': State)
    requires p < |s.procs| && CommitAccount(s, p)
    requires Throw(s, p, locked) == Some(s')
    ensures p < |s'.procs| && CommitAccount(s', p) && s'.procs[p].commits == s.procs[p].commits
    ensures s'.procs[p].lateFailures == s.procs[p].lateFailures + (if s.procs[p].pc.Unlocking? then 1 else 0)
    ensures s'.procs[p].unlockFailed == (s.procs[p].unlockFailed || Unlocks(s.procs[p]))
  {
  }

  lemma OwnCommitsPreserved(s: State, e: Event, s': State)
    requires Next(s, e) == Some(s')
    requires CommitAccount(s, e.p)
    ensures e.p < |s'.procs| && CommitAccount(s', e.p)
    ensures s'.procs[e.p].commits == s.procs[e.p].commits + (if Commits(s, e) then 1 else 0)
    ensures s'.procs[e.p].lateFailures == s.procs[e.p].lateFailures + (if FailsLate(s, e) then 1 else 0)
    ensures s'.procs[e.p].unlockFailed == FailedAfter(s.procs[e.p].unlockFailed, s, e, e.p)
  {
    hide Succeed, Throw;
    match e.action
    case Ok => SucceedCommits(s, e.p, s');
    case Fail(locked) => ThrowCommits(s, e.p, locked, s');
    case _ =>
  }

  /** Holds of every call at every moment, whether or not locks are broken early. */
  ghost predicate Accounted(s: State, p: nat)
    requires p < |s.procs|
  {
    SleepAccount(s.procs[p]) && CommitAccount(s, p)
  }

  lemma AccountPreserved(s: State, e: Event, s': State, p: nat)
    requires Next(s, e) == Some(s')
    requires p < |s.procs| && Accounted(s, p)
    ensures p < |s'.procs| && Accounted(s', p)
    ensures s'.procs[p].commits == s.procs[p].commits + (if Commits(s, e) && e.p == p then 1 else 0)
    ensures s'.procs[p].lateFailures == s.procs[p].lateFailures + (if FailsLate(s, e) && e.p == p then 1 else 0)
    ensures s'.procs[p].unlockFailed == FailedAfter(s.procs[p].unlockFailed, s, e, p)
  {
    if p == e.p {
      SleepPreserved(s, e, s');
      OwnCommitsPreserved(s, e, s');
    } else {
      StepEffect(s, e, s');
    }
  }

  lemma {:induction false} AccountAlongRun(s: State, tr: seq<Event>, p: nat)
    requires p < |s.procs| && Accounted(s, p)
    requires Run(s, tr).Some?
    ensures var t := Run(s, tr).value;
            && p < |t.procs| && Accounted(t, p)
            && t.procs[p].commits == s.procs[p].commits + CommitsBy(s, tr, p)
            && t.procs[p].lateFailures == s.procs[p].lateFailures + LateFailuresBy(s, tr, p)
            && t.procs[p].unlockFailed == LastUnlockFailed(s.procs[p].unlockFailed, s, tr, p)
    decreases |tr|
  {
    if tr != [] {
      var s' := Next(s, tr[0]).value;
      AccountPreserved(s, tr[0], s', p);
      AccountAlongRun(s', tr[1..], p);
    }
  }

  lemma {:induction false} FailuresCounted(failed: bool, s: State, tr: seq<Event>, p: nat)
    requires p < |s.procs| && Run(s, tr).Some?
    ensures LateFailuresBy(s, tr, p) <= UnlockFailuresBy(s, tr, p)
    ensures LastUnlockFailed(failed, s, tr, p) ==> failed || UnlockFailuresBy(s, tr, p) > 0
    decreases |tr|
  {
    if tr != [] {
      hide Next;
      var s' := Next(s, tr[0]).value;
      StepEffect(s, tr[0], s');
      FailuresCounted(FailedAfter(failed, s, tr[0], p), s', tr[1..], p);
    }
  }

  /**
   Exit accounting, for every run: a call never runs off its loop; it has committed once for
   each failed unlock after a rename, and once more exactly when it returned; a call that
   returned holds no lock, and one that threw still holds its lock only if the last unlock it
   tried failed; and k retries have slept 1000 * (2^k - 1) ms, never more than 3000.
   */
  lemma CallsEndAccounted(s: State, tr: seq<Event>, p: nat)
    requires Initial(s)
    requires Run(s, tr).Some?
    requires p < |s.procs|
    ensures p < |Run(s, tr).value.procs|
    ensures var t := Run(s, tr).value;
            var q := t.procs[p];
            && !q.pc.RanOff?
            && (q.pc.Returned? ==> CommitsBy(s, tr, p) == LateFailuresBy(s, tr, p) + 1)
            && (q.pc.Threw? ==> CommitsBy(s, tr, p) == LateFailuresBy(s, tr, p))
            && LateFailuresBy(s, tr, p) <= UnlockFailuresBy(s, tr, p)
            && (q.pc.Returned? ==> t.lock != Some(p))
            && (q.pc.Threw? && t.lock == Some(p) ==>
                LastUnlockFailed(false, s, tr, p) && UnlockFailuresBy(s, tr, p) > 0)
            && 1 <= q.attempt <= MAX_RETRIES
            && q.slept == 1000 * (Pow2(q.attempt - 1) - 1) <= 3000
  {
    assert Accounted(s, p);
    AccountAlongRun(s, tr, p);
    FailuresCounted(false, s, tr, p);
    var q := Run(s, tr).value.procs[p];
    assert q.attempt == 1 || q.attempt == 2 || q.attempt == 3;
    assert Pow2(0) == 1 && Pow2(1) == 2 && Pow2(2) == 4;
  }

  // ---------------------------------------------------------------------------
  // Which errors are retried
  // ---------------------------------------------------------------------------

  /** Where a call can stand after an error of its attempt, `locked` saying that the error reads as a lock error. */
  predicate AfterError(pc: Pc, locked: bool) {
    pc == AbortingRead(locked) || pc == Catching(locked) || pc == Deciding(locked)
  }

  /** An operation of the attempt itself; errors of the unlocks in the two catch clauses are only reported. */
  predicate InAttempt(pc: Pc) {
    !pc.AbortingRead? && !pc.Catching?
  }

  lemma ErrorIsKept(s: State, p: nat, locked: bool)
    requires p < |s.procs| && InAttempt(s.procs[p].pc) && Throw(s, p, locked).Some?
    ensures var s' := Throw(s, p, locked).value;
            && p < |s'.procs| && AfterError(s'.procs[p].pc, locked)
            && s'.procs[p].attempt == s.procs[p].attempt && s'.procs[p].slept == s.procs[p].slept
            && s'.procs[p].commits == s.procs[p].commits
  {
  }

  /** What a call that is on its way out, or out, does next. */
  lemma OnTheWayOut(s: State, e: Event, s': State)
    requires Next(s, e) == Some(s')
    requires AfterError(s.procs[e.p].pc, false) || s.procs[e.p].pc.Threw? || s.procs[e.p].pc.Crashed?
    ensures !Commits(s, e)
    ensures var q, q' := s.procs[e.p], s'.procs[e.p];
            && q'.attempt == q.attempt && q'.slept == q.slept && q'.commits == q.commits
            && (AfterError(q'.pc, false) || q'.pc.Threw? || q'.pc.Crashed?)
  {
    hide Pow2, Mutate;
  }

  lemma {:induction false} OutAlongRun(s: State, p: nat, tr: seq<Event>)
    requires p < |s.procs| && Run(s, tr).Some?
    requires AfterError(s.procs[p].pc, false) || s.procs[p].pc.Threw? || s.procs[p].pc.Crashed?
    ensures p < |Run(s, tr).value.procs| && CommitsBy(s, tr, p) == 0
    ensures var q, q' := s.procs[p], Run(s, tr).value.procs[p];
            && q'.attempt == q.attempt && q'.slept == q.slept && q'.commits == q.commits
            && (AfterError(q'.pc, false) || q'.pc.Threw? || q'.pc.Crashed?)
    decreases |tr|
  {
    if tr != [] {
      var s' := Next(s, tr[0]).value;
      StepEffect(s, tr[0], s');
      if tr[0].p == p {
        OnTheWayOut(s, tr[0], s');
      }
      hide Next, AfterError;
      OutAlongRun(s', p, tr[1..]);
    }
  }

  /**
   An error that does not read as a lock error is final, wherever in the attempt it strikes and
   whatever follows: the call starts no further attempt, sleeps no more, commits nothing more and
   never returns; if it ends it has thrown, or its process has crashed.
   */
  lemma OtherErrorsAreFinal(s: State, p: nat, tr: seq<Event>)
    requires p < |s.procs| && InAttempt(s.procs[p].pc)
    requires Run(s, [Event(p, Fail(false))] + tr).Some?
    ensures p < |Run(s, [Event(p, Fail(false))] + tr).value.procs|
    ensures CommitsBy(s, [Event(p, Fail(false))] + tr, p) == 0
    ensures var q, q' := s.procs[p], Run(s, [Event(p, Fail(false))] + tr).value.procs[p];
            && q'.attempt == q.attempt && q'.slept == q.slept && q'.commits == q.commits
            && !q'.pc.Returned?
            && (Finished(q'.pc) ==> q'.pc.Threw? || q'.pc.Crashed?)
  {
    var all := [Event(p, Fail(false))] + tr;
    assert all[0] == Event(p, Fail(false)) && all[1..] == tr;
    ErrorIsKept(s, p, false);
    OutAlongRun(Next(s, all[0]).value, p, tr);
  }

  /** A call on its way to the attempt after `a`. */
  predicate WillRetry(q: Proc, a: nat) {
    || q.attempt > a
    || (q.attempt == a && (AfterError(q.pc, true) || q.pc.Sleeping? || q.pc.Crashed?))
  }

  lemma RetryStep(s: State, e: Event, s': State, a: nat)
    requires Next(s, e) == Some(s') && a < MAX_RETRIES
    requires WillRetry(s.procs[e.p], a)
    ensures e.p < |s'.procs| && WillRetry(s'.procs[e.p], a)
  {
    hide Pow2, Mutate, Release;
  }

  lemma {:induction false} RetryAlongRun(s: State, p: nat, tr: seq<Event>, a: nat)
    requires p < |s.procs| && Run(s, tr).Some? && a < MAX_RETRIES
    requires WillRetry(s.procs[p], a)
    ensures p < |Run(s, tr).value.procs| && WillRetry(Run(s, tr).value.procs[p], a)
    decreases |tr|
  {
    if tr != [] {
      var s' := Next(s, tr[0]).value;
      StepEffect(s, tr[0], s');
      if tr[0].p == p {
        RetryStep(s, tr[0], s', a);
      }
      hide Next, WillRetry;
      RetryAlongRun(s', p, tr[1..], a);
    }
  }

  /**
   An error that reads as a lock error in one of the first two attempts is retried: whatever
   follows, the call neither throws nor returns before it has started the next attempt.
   */
  lemma LockErrorsAreRetried(s: State, p: nat, tr: seq<Event>)
    requires p < |s.procs| && InAttempt(s.procs[p].pc) && s.procs[p].attempt < 3
    requires Run(s, [Event(p, Fail(true))] + tr).Some?
    ensures p < |Run(s, [Event(p, Fail(true))] + tr).value.procs|
    ensures var q, q' := s.procs[p], Run(s, [Event(p, Fail(true))] + tr).value.procs[p];
            q'.attempt > q.attempt || (q'.attempt == q.attempt && !q'.pc.Threw? && !q'.pc.Returned?)
  {
    var all := [Event(p, Fail(true))] + tr;
    assert all[0] == Event(p, Fail(true)) && all[1..] == tr;
    ErrorIsKept(s, p, true);
    RetryAlongRun(Next(s, all[0]).value, p, tr, s.procs[p].attempt);
  }

  lemma {:induction false} CommitsByCommitted(s: State, tr: seq<Event>, p: nat)
    requires p < |s.procs|
    requires CommitsBy(s, tr, p) > 0
    ensures s.procs[p].mutator in Committed(s, tr)
    decreases |tr|
  {
    var s' := Next(s, tr[0]).value;
    StepEffect(s, tr[0], s');
    if !(Commits(s, tr[0]) && tr[0].p == p) {
      CommitsByCommitted(s', tr[1..], p);
    }
  }

  /** No update is lost: what a returned call wrote is one of the mutators the file is the fold of. */
  lemma ReturnedCallsAreInTheFold(s: State, tr: seq<Event>, p: nat)
    requires Initial(s)
    requires Healthy(s, tr) && Run(s, tr).Some?
    requires p < |s.procs|
    requires p < |Run(s, tr).value.procs| && Run(s, tr).value.procs[p].pc.Returned?
    ensures s.procs[p].mutator in Committed(s, tr)
    ensures Run(s, tr).value.file == Whole(Fold(Committed(s, tr), Base(s.file)))
  {
    CallsEndAccounted(s, tr, p);
    CommitsByCommitted(s, tr, p);
    Serialisable(s, tr);
  }
}
