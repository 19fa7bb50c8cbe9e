/**
 withRegistryLock restated as a method with its loop and branches, over the state machine of the
 registry protocol and with steps of other processes in between: everything the method does is a
 run of the protocol.
 */
module RegistryCall {
  import opened Options
  import opened RegistryAccounts
  import opened RegistryProtocol
  import opened RegistrySafety

  /** What happens around one operation: other processes' steps first, then success or an error. */
  datatype Turn = Turn(others: seq<Event>, succeeds: bool, locked: bool)

  lemma {:induction false} RunConcat(s: State, a: seq<Event>, b: seq<Event>)
    requires Run(s, a).Some?
    ensures Run(s, a + b) == Run(Run(s, a).value, b)
    decreases |a|
  {
    if a == [] {
      assert a + b == b;
    } else {
      assert (a + b)[1..] == a[1..] + b;
      RunConcat(Next(s, a[0]).value, a[1..], b);
    }
  }

  /** The disk, the lock and all processes, with the run that led here. */
  class Machine {
    var s: State
    ghost const start: State
    ghost var trace: seq<Event>

    constructor (initial: State)
      ensures Valid() && s == initial == start && trace == []
    {
      s, start, trace := initial, initial, [];
    }

    ghost predicate Valid()
      reads this
    {
      Run(start, trace) == Some(s)
    }

    predicate At(p: nat)
      reads this
    {
      p < |s.procs|
    }

    method Take(e: Event)
      requires Valid() && Next(s, e).Some?
      modifies this`s, this`trace
      ensures Valid() && Next(old(s), e) == Some(s)
    {
      RunConcat(start, trace, [e]);
      assert [e][1..] == [];
      assert Run(s, [e]) == Next(s, e);
      s := Next(s, e).value;
      trace := trace + [e];
    }

    /** Other processes run as far as their steps are possible. */
    method Yield(p: nat, others: seq<Event>)
      requires Valid() && At(p)
      modifies this`s, this`trace
      ensures Valid() && At(p) && s.procs[p] == old(s.procs[p])
    {
      for i := 0 to |others|
        invariant Valid() && At(p) && s.procs[p] == old(s.procs[p])
      {
        if others[i].p != p && Next(s, others[i]).Some? {
          StepEffect(s, others[i], Next(s, others[i]).value);
          Take(others[i]);
        }
      }
    }

    /** One operation of `p`. An operation that is not possible now, such as locking a held lock, fails. */
    method Perform(p: nat, turn: Turn) returns (ok: bool, ghost before: State)
      requires Valid() && At(p)
      requires CanFail(s.procs[p])
      modifies this`s, this`trace
      ensures Valid() && At(p) && p < |before.procs| && before.procs[p] == old(s.procs[p])
      ensures if ok then Succeed(before, p) == Some(s) else Throw(before, p, turn.locked) == Some(s)
    {
      Yield(p, turn.others);
      before := s;
      ok := turn.succeeds && Next(s, Event(p, Ok)).Some?;
      Take(Event(p, if ok then Ok else Fail(turn.locked)));
    }
  }

  /** Where an operation of the call may throw. */
  predicate CanFail(q: Proc) {
    !Finished(q.pc) && !q.pc.Deciding? && !q.pc.Sleeping? && (q.pc.Catching? ==> q.held)
  }

  /** Lines up to and including the lock: create the file if it is missing, then lock it. `at`: the turn that failed. */
  method CreateAndLock(w: Machine, p: nat, turns: seq<Turn>) returns (lockAcquired: bool, at: nat)
    requires w.Valid() && w.At(p) && w.s.procs[p].pc.Creating? && |turns| == 3
    modifies w`s, w`trace
    ensures w.Valid() && w.At(p) && w.s.procs[p].attempt == old(w.s.procs[p].attempt)
    ensures if lockAcquired then w.s.procs[p].pc.Reading? && w.s.procs[p].held
            else at < 3 && w.s.procs[p].pc == Catching(turns[at].locked) && w.s.procs[p].held == old(w.s.procs[p].held)
  {
    ghost var before;
    var ok;
    ok, before := w.Perform(p, turns[0]);
    at := 0;
    if ok && w.s.procs[p].pc.Filling? {
      ok, before := w.Perform(p, turns[1]);
      at := 1;
    }
    lockAcquired := false;
    if ok {
      lockAcquired, before := w.Perform(p, turns[2]);
      at := 2;
    }
  }

  /** Reading under the lock; a failed read releases the lock before it throws its own error. */
  method ReadRegistry(w: Machine, p: nat, turns: seq<Turn>) returns (read: bool, lockAcquired: bool)
    requires w.Valid() && w.At(p) && w.s.procs[p].pc.Reading? && w.s.procs[p].held && |turns| == 2
    modifies w`s, w`trace
    ensures w.Valid() && w.At(p) && w.s.procs[p].attempt == old(w.s.procs[p].attempt)
    ensures w.s.procs[p].held == lockAcquired
    ensures if read then lockAcquired && w.s.procs[p].pc.Mutating? else w.s.procs[p].pc == Catching(turns[0].locked)
  {
    ghost var before;
    lockAcquired := true;
    read, before := w.Perform(p, turns[0]);
    if !read {
      var unlocked;
      unlocked, before := w.Perform(p, turns[1]);
      if unlocked {
        lockAcquired := false;
      }
    }
  }

  /** The four operations from the mutator to the rename lead to the next one or into the catch clause. */
  lemma WriteStep(before: State, p: nat, ok: bool, locked: bool, s': State)
    requires p < |before.procs|
    requires before.procs[p].pc.Mutating? || before.procs[p].pc.Opening? || before.procs[p].pc.Writing? ||
             before.procs[p].pc.Renaming?
    requires if ok then Succeed(before, p) == Some(s') else Throw(before, p, locked) == Some(s')
    ensures p < |s'.procs|
    ensures var q, q' := before.procs[p], s'.procs[p];
            && q'.held == q.held && q'.attempt == q.attempt
            && (!ok ==> q'.pc == Catching(locked))
            && (ok && q.pc.Mutating? ==> q'.pc.Opening?)
            && (ok && q.pc.Opening? ==> q'.pc.Writing?)
            && (ok && q.pc.Writing? ==> q'.pc.Renaming?)
            && (ok && q.pc.Renaming? ==> q'.pc.Unlocking?)
  {
    hide Pow2;
  }

  /** Mutate, write the temp file, rename it; ends either ready to unlock or in the catch clause. */
  method MutateAndWrite(w: Machine, p: nat, turns: seq<Turn>) returns (renamed: bool, at: nat)
    requires w.Valid() && w.At(p) && w.s.procs[p].pc.Mutating? && w.s.procs[p].held && |turns| == 4
    modifies w`s, w`trace
    ensures w.Valid() && w.At(p) && w.s.procs[p].attempt == old(w.s.procs[p].attempt) && w.s.procs[p].held
    ensures if renamed then w.s.procs[p].pc.Unlocking? else at < 4 && w.s.procs[p].pc == Catching(turns[at].locked)
  {
    hide Succeed, Throw;
    ghost var before;
    renamed := false;
    var ok;
    at := 0;
    ok, before := w.Perform(p, turns[0]);
    WriteStep(before, p, ok, turns[0].locked, w.s);
    if !ok { return; }
    at := 1;
    ok, before := w.Perform(p, turns[1]);
    WriteStep(before, p, ok, turns[1].locked, w.s);
    if !ok { return; }
    at := 2;
    ok, before := w.Perform(p, turns[2]);
    WriteStep(before, p, ok, turns[2].locked, w.s);
    if !ok { return; }
    at := 3;
    renamed, before := w.Perform(p, turns[3]);
    WriteStep(before, p, renamed, turns[3].locked, w.s);
  }

  /** One pass through the catch clause; the error it handles stays the one that was thrown. */
  method CatchClause(w: Machine, p: nat, lockAcquired: bool, turn: Turn)
    requires w.Valid() && w.At(p) && w.s.procs[p].pc.Catching? && w.s.procs[p].held == lockAcquired
    modifies w`s, w`trace
    ensures w.Valid() && w.At(p) && w.s.procs[p].attempt == old(w.s.procs[p].attempt)
    ensures w.s.procs[p].pc == Deciding(old(w.s.procs[p].pc.locked))
  {
    if lockAcquired {
      var _, _ := w.Perform(p, turn);
    } else {
      w.Take(Event(p, Ok));
    }
  }

  /**
   The body of the loop up to the decision whether to retry. `at` is the turn whose operation
   threw the error that ended the attempt: any but the two unlocks whose errors are only reported.
   */
  method OneAttempt(w: Machine, p: nat, turns: seq<Turn>) returns (returned: bool, at: nat)
    requires w.Valid() && w.At(p) && w.s.procs[p].pc.Creating? && !w.s.procs[p].held && |turns| == 11
    modifies w`s, w`trace
    ensures w.Valid() && w.At(p) && w.s.procs[p].attempt == old(w.s.procs[p].attempt)
    ensures if returned then w.s.procs[p].pc.Returned?
            else at < 10 && at != 4 && w.s.procs[p].pc == Deciding(turns[at].locked)
  {
    var lockAcquired;
    lockAcquired, at := CreateAndLock(w, p, turns[0..3]);
    if lockAcquired {
      var read;
      read, lockAcquired := ReadRegistry(w, p, turns[3..5]);
      at := 3;
      if read {
        var renamed;
        renamed, at := MutateAndWrite(w, p, turns[5..9]);
        at := 5 + at;
        if renamed {
          returned := Unlock(w, p, turns[9]);
          if returned {
            return;
          }
          at := 9;
        }
      }
    }
    CatchClause(w, p, lockAcquired, turns[10]);
    returned := false;
  }

  method Unlock(w: Machine, p: nat, turn: Turn) returns (unlocked: bool)
    requires w.Valid() && w.At(p) && w.s.procs[p].pc.Unlocking? && w.s.procs[p].held
    modifies w`s, w`trace
    ensures w.Valid() && w.At(p) && w.s.procs[p].attempt == old(w.s.procs[p].attempt)
    ensures if unlocked then w.s.procs[p].pc.Returned?
            else w.s.procs[p].pc == Catching(turn.locked) && w.s.procs[p].held
  {
    ghost var before;
    unlocked, before := w.Perform(p, turn);
  }

  /** What the results about runs say of a call that has ended. */
  lemma Accounts(w: Machine, p: nat)
    requires w.Valid() && w.At(p)
    requires w.s.procs[p].pc.Returned? || w.s.procs[p].pc.Threw?
    ensures Initial(w.start) ==>
              CommitsBy(w.start, w.trace, p) ==
              LateFailuresBy(w.start, w.trace, p) + (if w.s.procs[p].pc.Returned? then 1 else 0)
    ensures Initial(w.start) ==> 1 <= w.s.procs[p].attempt <= MAX_RETRIES && w.s.procs[p].slept <= 3000
  {
    if Initial(w.start) {
      MutatorsConstant(w.start, w.trace, p);
      CallsEndAccounted(w.start, w.trace, p);
    }
  }

  /** Some operation of an attempt whose error can end it has this kind of error in the script. */
  predicate EndedBy(turns: seq<Turn>, locked: bool) {
    exists at :: 0 <= at < |turns| && at < 10 && at != 4 && turns[at].locked == locked
  }

  /** The decision: sleep and start over, or throw. */
  lemma DecisionStep(s: State, p: nat, locked: bool)
    requires p < |s.procs| && s.procs[p].pc == Deciding(locked)
    ensures Next(s, Event(p, Ok)) ==
            Some(Put(s, p, s.procs[p].(pc := if locked && s.procs[p].attempt < MAX_RETRIES then Sleeping else Threw)))
  {
  }

  lemma WakeStep(s: State, p: nat)
    requires p < |s.procs| && s.procs[p].pc.Sleeping? && s.procs[p].attempt < MAX_RETRIES
    ensures Next(s, Event(p, Ok)).Some?
    ensures var s' := Next(s, Event(p, Ok)).value;
            && p < |s'.procs| && s'.procs[p].pc.Creating? && s'.procs[p].attempt == s.procs[p].attempt + 1
            && !s'.procs[p].held
  {
    hide Pow2;
  }

  /**
   The retry loop. Whatever fails and whatever the others do, the call ends by returning or
   throwing after at most three attempts, and all it did is a run of the protocol, so that the
   results about runs apply to it: it has renamed once if it returned, not at all if it threw,
   and once more for every failed unlock after a rename. `errors` tells of each failed attempt
   whether the operation of the script that ended it threw a lock error: every attempt but the
   last one ended that way, and the call threw after an error of another kind or on its third.
   */
  method WithRegistryLock(w: Machine, p: nat, script: seq<seq<Turn>>) returns (returned: bool, errors: seq<bool>)
    requires w.Valid() && w.At(p) && w.s.procs[p] == Fresh(w.s.procs[p].mutator)
    requires |script| == MAX_RETRIES && forall a :: a in script ==> |a| == 11
    modifies w`s, w`trace
    ensures w.Valid() && w.At(p)
    ensures if returned then w.s.procs[p].pc.Returned? else w.s.procs[p].pc.Threw?
    ensures Initial(w.start) ==>
              CommitsBy(w.start, w.trace, p) == LateFailuresBy(w.start, w.trace, p) + (if returned then 1 else 0)
    ensures Initial(w.start) ==> 1 <= w.s.procs[p].attempt <= MAX_RETRIES && w.s.procs[p].slept <= 3000
    ensures |errors| <= 3 && w.s.procs[p].attempt == |errors| + (if returned then 1 else 0)
    ensures forall k :: 0 <= k < |errors| ==> EndedBy(script[k], errors[k])
    ensures forall k :: 0 <= k < w.s.procs[p].attempt - 1 ==> errors[k]
    ensures !returned ==> errors != [] && (errors[|errors| - 1] ==> |errors| == 3)
  {
    hide Succeed, Throw;
    errors := [];
    var attempt := 1;
    while attempt <= MAX_RETRIES
      invariant 1 <= attempt <= MAX_RETRIES
      invariant w.Valid() && w.At(p)
      invariant w.s.procs[p].pc.Creating? && w.s.procs[p].attempt == attempt && !w.s.procs[p].held
      invariant |errors| == attempt - 1 && forall k :: 0 <= k < |errors| ==> errors[k]
      invariant forall k :: 0 <= k < |errors| ==> EndedBy(script[k], errors[k])
    {
      assert script[attempt - 1] in script;
      var at;
      returned, at := OneAttempt(w, p, script[attempt - 1]);
      if returned {
        Accounts(w, p);
        return;
      }
      var isLockError := script[attempt - 1][at].locked;
      errors := errors + [isLockError];
      assert EndedBy(script[attempt - 1], isLockError);
      DecisionStep(w.s, p, isLockError);
      w.Take(Event(p, Ok));
      if !(isLockError && attempt < MAX_RETRIES) {
        Accounts(w, p);
        return;
      }
      WakeStep(w.s, p);
      w.Take(Event(p, Ok));
      attempt := attempt + 1;
    }
    assert false;
  }
}
