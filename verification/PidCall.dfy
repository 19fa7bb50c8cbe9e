/**
 acquirePidLock, withPidLock, updatePid and removePid restated as methods with their loops and
 branches, over the state machine of the PID lock protocol and with steps of other calls in
 between: everything the methods do is a run of the protocol.
 */
module PidCall {
  import opened Options
  import opened PidLock

  /** What happens around one operation: other calls' steps first, then success or an error. */
  datatype Turn = Turn(others: seq<Event>, succeeds: bool)

  lemma {:induction false} RunSnoc(s: State, tr: seq<Event>, e: Event)
    requires Run(s, tr).Some?
    ensures Run(s, tr + [e]) == Next(Run(s, tr).value, e)
    decreases |tr|
  {
    if tr == [] {
      assert tr + [e] == [e] && [e][1..] == [];
    } else {
      assert (tr + [e])[1..] == tr[1..] + [e];
      RunSnoc(Next(s, tr[0]).value, tr[1..], e);
    }
  }

  /** How many of the completed updates and removals of a run belong to call c. */
  function CompletionsBy(s: State, tr: seq<Event>, c: nat): nat
    decreases |tr|
  {
    if tr == [] then 0 else
      match Next(s, tr[0])
      case None => 0
      case Some(s') => (if Completes(s, tr[0]) && tr[0].c == c then 1 else 0) + CompletionsBy(s', tr[1..], c)
  }

  lemma {:induction false} CompletionsSnoc(s: State, tr: seq<Event>, e: Event, c: nat)
    requires Run(s, tr + [e]).Some? && Run(s, tr).Some?
    ensures CompletionsBy(s, tr + [e], c) ==
            CompletionsBy(s, tr, c) + (if Completes(Run(s, tr).value, e) && e.c == c then 1 else 0)
    decreases |tr|
  {
    if tr == [] {
      assert tr + [e] == [e] && [e][1..] == [];
    } else {
      assert (tr + [e])[1..] == tr[1..] + [e];
      CompletionsSnoc(Next(s, tr[0]).value, tr[1..], e, c);
    }
  }

  /** The files, the lock file and all calls, with the run that led here. */
  class Machine {
    var s: State
    ghost const start: State
    ghost var trace: seq<Event>

    constructor (initial: State)
      ensures Valid() && s == initial == start && trace == []
    {
      s, start, trace := initial, initial, [];
    }

    ghost predicate Valid()
      reads this
    {
      Run(start, trace) == Some(s)
    }

    /** How often call c has completed its change of the PID file. */
    ghost function Completions(c: nat): nat
      reads this
    {
      CompletionsBy(start, trace, c)
    }

    /** Call c exists and its process is alive. */
    predicate Alive(c: nat)
      reads this
    {
      c < |s.calls| && s.calls[c].pid !in s.dead
    }

    method Take(e: Event)
      requires Valid() && Next(s, e).Some?
      modifies this`s, this`trace
      ensures Valid() && Next(old(s), e) == Some(s)
      ensures forall c :: Completions(c) == old(Completions(c)) + (if Completes(old(s), e) && e.c == c then 1 else 0)
    {
      hide Next, Completes;
      RunSnoc(start, trace, e);
      forall c: nat ensures CompletionsBy(start, trace + [e], c) == CompletionsBy(start, trace, c)
          + (if Completes(s, e) && e.c == c then 1 else 0) {
        CompletionsSnoc(start, trace, e, c);
      }
      s := Next(s, e).value;
      trace := trace + [e];
    }

    /** Other calls run as far as their steps are possible; the process of c does not exit. */
    method Yield(c: nat, others: seq<Event>)
      requires Valid() && Alive(c)
      modifies this`s, this`trace
      ensures Valid() && Alive(c) && s.calls[c] == old(s.calls[c]) && Completions(c) == old(Completions(c))
    {
      for i := 0 to |others|
        invariant Valid() && Alive(c) && s.calls[c] == old(s.calls[c]) && Completions(c) == old(Completions(c))
      {
        var e := others[i];
        if e.c != c && Next(s, e).Some? && s.calls[c].pid !in Next(s, e).value.dead {
          StepEffect(s, e, Next(s, e).value);
          Take(e);
        }
      }
    }

    /** One operation of call c; one that cannot throw succeeds. */
    method Perform(c: nat, turn: Turn) returns (ok: bool, ghost before: State)
      requires Valid() && Alive(c) && !s.calls[c].pc.Done? && !s.calls[c].pc.GaveUp?
      modifies this`s, this`trace
      ensures Valid() && Alive(c) && c < |before.calls| && before.calls[c] == old(s.calls[c])
      ensures if ok then Succeed(before, c) == Some(s) else Throw(before, c) == Some(s)
      ensures Completions(c) == old(Completions(c)) + (if ok && Changes(old(s.calls[c].pc)) then 1 else 0)
    {
      Yield(c, turn.others);
      before := s;
      ok := turn.succeeds || Next(s, Event(c, Fail)).None?;
      Take(Event(c, if ok then Ok else Fail));
    }
  }

  /** The two operations that change the PID file. */
  predicate Changes(pc: Pc) {
    pc.Renaming? || pc.Deleting?
  }

  /** The outcomes of acquirePidLock: true, false after the timeout, or an exception. */
  datatype Acquired = Locked | TimedOut | Threw

  /** Each operation of the branch leads to a later one or back to the loop head. */
  lemma InspectStep(before: State, c: nat, s': State)
    requires c < |before.calls|
    requires Succeed(before, c) == Some(s') || Throw(before, c) == Some(s')
    ensures c < |s'.calls| && s'.calls[c].op == before.calls[c].op
    ensures var pc, pc' := before.calls[c].pc, s'.calls[c].pc;
            && (pc.Blocked? ==> pc'.Probing? || pc'.Unreadable? || pc'.Trying?)
            && (pc.Probing? ==> pc'.Stale? || pc'.Trying?)
            && (pc.Stale? ==> pc'.Unreadable? || pc'.Trying?)
            && (pc.Unreadable? ==> pc'.Trying?)
  {
    hide Apply, Load;
  }

  /** The branch taken on EEXIST: ends back at the loop head. */
  method InspectLock(w: Machine, c: nat, turns: seq<Turn>)
    requires w.Valid() && w.Alive(c) && w.s.calls[c].pc.Blocked? && |turns| == 4
    modifies w`s, w`trace
    ensures w.Valid() && w.Alive(c) && w.s.calls[c].pc.Trying?
    ensures w.s.calls[c].op == old(w.s.calls[c].op) && w.Completions(c) == old(w.Completions(c))
  {
    hide Succeed, Throw, CompletionsBy;
    ghost var before;
    var ok;
    ok, before := w.Perform(c, turns[0]);
    InspectStep(before, c, w.s);
    if w.s.calls[c].pc.Probing? {
      ok, before := w.Perform(c, turns[1]);
      InspectStep(before, c, w.s);
    }
    if w.s.calls[c].pc.Stale? {
      ok, before := w.Perform(c, turns[2]);
      InspectStep(before, c, w.s);
    }
    if w.s.calls[c].pc.Unreadable? {
      ok, before := w.Perform(c, turns[3]);
      InspectStep(before, c, w.s);
    }
  }

  /** The exclusive create and the write of the own pid; `entered` when the lock file was created and stamped. */
  method TryCreate(w: Machine, c: nat, turns: seq<Turn>) returns (entered: bool, threw: bool)
    requires w.Valid() && w.Alive(c) && w.s.calls[c].pc.Trying? && |turns| == 2
    modifies w`s, w`trace
    ensures w.Valid() && w.Alive(c) && !(entered && threw)
    ensures w.s.calls[c].op == old(w.s.calls[c].op) && w.Completions(c) == old(w.Completions(c))
    ensures if entered then w.s.calls[c].pc.Loading?
            else if threw then w.s.calls[c].pc.Done?
            else w.s.calls[c].pc.Blocked?
  {
    ghost var before;
    var ok;
    entered, threw := false, false;
    ok, before := w.Perform(c, turns[0]);
    if !ok {
      threw := true;
    } else if w.s.calls[c].pc.Stamping? {
      entered, before := w.Perform(c, turns[1]);
      threw := !entered;
    }
  }

  /** One entry of `rounds` for every pass through the loop before the timeout. */
  method AcquirePidLock(w: Machine, c: nat, rounds: seq<seq<Turn>>) returns (r: Acquired)
    requires w.Valid() && w.Alive(c) && w.s.calls[c].pc.Trying?
    requires forall round :: round in rounds ==> |round| == 6
    modifies w`s, w`trace
    ensures w.Valid() && w.Alive(c)
    ensures w.s.calls[c].op == old(w.s.calls[c].op) && w.Completions(c) == old(w.Completions(c))
    ensures match r
            case Locked => w.s.calls[c].pc.Loading?
            case TimedOut => w.s.calls[c].pc.GaveUp?
            case Threw => w.s.calls[c].pc.Done?
  {
    var i := 0;
    while i < |rounds|
      invariant i <= |rounds|
      invariant w.Valid() && w.Alive(c) && w.s.calls[c].pc.Trying?
      invariant w.s.calls[c].op == old(w.s.calls[c].op) && w.Completions(c) == old(w.Completions(c))
    {
      assert rounds[i] in rounds;
      var entered, threw := TryCreate(w, c, rounds[i][0..2]);
      if entered {
        return Locked;
      }
      if threw {
        return Threw;
      }
      InspectLock(w, c, rounds[i][2..6]);
      i := i + 1;
    }
    w.Take(Event(c, GiveUp));
    r := TimedOut;
  }

  /** savePids: temp file, then rename; a failure leaves the PID file as it was. */
  method SavePids(w: Machine, c: nat, turns: seq<Turn>) returns (saved: bool)
    requires w.Valid() && w.Alive(c) && w.s.calls[c].pc.Opening? && |turns| == 3
    modifies w`s, w`trace
    ensures w.Valid() && w.Alive(c) && w.s.calls[c].pc.Releasing?
    ensures w.Completions(c) == old(w.Completions(c)) + (if saved then 1 else 0)
  {
    ghost var before;
    saved, before := w.Perform(c, turns[0]);
    if !saved { return; }
    saved, before := w.Perform(c, turns[1]);
    if !saved { return; }
    saved, before := w.Perform(c, turns[2]);
  }

  /** deletePidFile: the PID file, then the lock file; errors are only warned about. */
  method DeletePidFile(w: Machine, c: nat, turns: seq<Turn>) returns (ghost deleted: bool)
    requires w.Valid() && w.Alive(c) && w.s.calls[c].pc.Deleting? && |turns| == 2
    modifies w`s, w`trace
    ensures w.Valid() && w.Alive(c) && (w.s.calls[c].pc.Releasing? || w.s.calls[c].pc.ReleasingAgain?)
    ensures w.Completions(c) == old(w.Completions(c)) + (if deleted then 1 else 0)
  {
    var ok, _ := w.Perform(c, turns[0]);
    deleted := ok;
    var _, _ := w.Perform(c, turns[1]);
  }

  /** Loading the map and changing it: on to the save, or to the delete when a removal emptied it. */
  lemma LoadStep(before: State, c: nat, s': State)
    requires c < |before.calls| && before.calls[c].pc.Loading?
    requires Succeed(before, c) == Some(s')
    ensures c < |s'.calls| && s'.calls[c].op == before.calls[c].op
    ensures s'.calls[c].pc.Opening? || (s'.calls[c].pc.Deleting? && s'.calls[c].op.Remove?)
  {
  }

  lemma LoadNeverThrows(before: State, c: nat)
    requires c < |before.calls| && before.calls[c].pc.Loading?
    ensures Throw(before, c).None?
  {
  }

  /** releasePidLock ends the call whether or not its unlink succeeds. */
  lemma ReleaseStep(before: State, c: nat, s': State)
    requires c < |before.calls| && (before.calls[c].pc.Releasing? || before.calls[c].pc.ReleasingAgain?)
    requires Succeed(before, c) == Some(s') || Throw(before, c) == Some(s')
    ensures c < |s'.calls| && s'.calls[c].pc.Done?
  {
  }

  lemma FileHoldsLast(w: Machine)
    requires w.Valid()
    ensures Initial(w.start) && NeverRemovesLiveLock(w.start, w.trace) ==>
              HoldsLast(Load(w.s.file), Load(w.start.file), Completed(w.start, w.trace))
  {
    if Initial(w.start) && NeverRemovesLiveLock(w.start, w.trace) {
      SafeUnlinksGiveExclusion(w.start, w.trace);
    }
  }

  /**
   updatePid or removePid, whichever the call is: acquire, load, change, save or delete, and
   always release. The call ends, and all it did is a run of the protocol. A call that fails
   has not changed the PID file; one that succeeds has changed it exactly once, or was a removal
   that emptied the map and whose unlink failed, which is only warned about. If no live lock was
   removed on the way, the file holds the last completed operation of every service.
   */
  method UpdateOrRemovePid(w: Machine, c: nat, rounds: seq<seq<Turn>>, turns: seq<Turn>)
    returns (ok: bool, ghost unlinkFailed: bool)
    requires w.Valid() && w.Alive(c) && w.s.calls[c].pc.Trying?
    requires |turns| == 5 && forall round :: round in rounds ==> |round| == 6
    modifies w`s, w`trace
    ensures w.Valid() && w.Alive(c)
    ensures w.s.calls[c].pc.Done? || (!ok && w.s.calls[c].pc.GaveUp?)
    ensures w.Completions(c) == old(w.Completions(c)) + (if ok && !unlinkFailed then 1 else 0)
    ensures unlinkFailed ==> ok && old(w.s.calls[c].op).Remove?
    ensures Initial(w.start) && NeverRemovesLiveLock(w.start, w.trace) ==>
              HoldsLast(Load(w.s.file), Load(w.start.file), Completed(w.start, w.trace))
  {
    hide Succeed, Throw, CompletionsBy;
    unlinkFailed := false;
    var acquired := AcquirePidLock(w, c, rounds);
    if !acquired.Locked? {
      FileHoldsLast(w);
      ok := false;
      return;
    }
    var loaded, before := w.Perform(c, turns[0]);
    LoadNeverThrows(before, c);
    LoadStep(before, c, w.s);
    if w.s.calls[c].pc.Deleting? {
      ghost var deleted := DeletePidFile(w, c, turns[1..3]);
      ok, unlinkFailed := true, !deleted;
    } else {
      ok := SavePids(w, c, turns[1..4]);
    }
    var _, releasing := w.Perform(c, turns[4]);
    ReleaseStep(releasing, c, w.s);
    FileHoldsLast(w);
  }
}
