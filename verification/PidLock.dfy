/**
 The hand-written lock around the PID file: updatePid and removePid calls of any number of
 processes, one file operation or liveness probe per step, arbitrary interleaving, processes
 that exit at any moment. Mutual exclusion does not hold of every run; this module says
 exactly what breaks it.
 */
module PidLock {
  import opened Options

  type Pids = map<string, int>

  /** Garbage is any text that does not parse as a PID map; loadPids treats it as an empty map. */
  datatype FileState = Missing | Garbage | Text(pids: Pids)

  datatype Op = Update(name: string, pid: int) | Remove(name: string)

  function Apply(op: Op, pids: Pids): Pids {
    match op
    case Update(name, pid) => pids[name := pid]
    case Remove(name) => pids - {name}
  }

  function Fold(ops: seq<Op>, pids: Pids): Pids {
    if ops == [] then pids else Fold(ops[1..], Apply(ops[0], pids))
  }

  function Load(f: FileState): Pids {
    if f.Text? then f.pids else map[]
  }

  /** Where a call stands: each constructor is named after the operation that comes next. */
  datatype Pc =
    | Trying                 // loop head and exclusive create
    | Stamping               // created the lock file; own pid not yet written
    | Blocked                // EEXIST: about to read the lock file
    | Probing(owner: nat)    // waiting to learn whether the recorded owner exists
    | Stale                  // owner found dead: about to unlink
    | Unreadable             // read (or stale unlink) failed: about to unlink
    | Loading                // lock held
    | Opening(next: Pids)    // about to truncate the temp file
    | Writing(next: Pids)    // temp file open, content not complete
    | Renaming
    | Deleting               // map emptied: about to unlink the PID file
    | DeletingLock           // deletePidFile is about to unlink the lock file as well
    | Releasing              // releasePidLock
    | ReleasingAgain         // releasePidLock after deletePidFile already removed the lock
    | Done
    | GaveUp

  /** One call; several calls may run in the same process `pid`. `acquired` records a past successful create. */
  datatype Call = Call(pid: nat, op: Op, pc: Pc, acquired: bool)

  /** `creator` is the call that created the lock file; readers see only whether its pid was written. */
  datatype LockFile = LockFile(creator: nat, written: bool)

  datatype State = State(
    lock: Option<LockFile>,
    file: FileState,
    temp: FileState,
    calls: seq<Call>,
    dead: set<nat>)

  /** Exit(c) ends the whole process of call c. GiveUp is the acquisition timeout. */
  datatype Action = Ok | Fail | GiveUp | Exit
  datatype Event = Event(c: nat, action: Action)

  ghost predicate Initial(s: State) {
    && s.lock == None
    && s.dead == {}
    && forall c :: 0 <= c < |s.calls| ==> s.calls[c].pc.Trying? && !s.calls[c].acquired
  }

  function At(s: State, c: nat, pc: Pc): State
    requires c < |s.calls|
  {
    s.(calls := s.calls[c := s.calls[c].(pc := pc)])
  }

  function Succeed(s: State, c: nat): Option<State>
    requires c < |s.calls|
  {
    var q := s.calls[c];
    match q.pc
    case Trying =>
      if s.lock.None? then
        Some(s.(calls := s.calls[c := q.(pc := Stamping, acquired := true)], lock := Some(LockFile(c, false))))
      else Some(At(s, c, Blocked))
    case Stamping =>
      var lock := if s.lock == Some(LockFile(c, false)) then Some(LockFile(c, true)) else s.lock;
      Some(At(s, c, Loading).(lock := lock))
    case Blocked =>
      if s.lock.None? then Some(At(s, c, Unreadable))
      else if s.lock.value.written && s.lock.value.creator < |s.calls| then
        Some(At(s, c, Probing(s.calls[s.lock.value.creator].pid)))
      else Some(At(s, c, Trying))
    case Probing(owner) => Some(At(s, c, if owner in s.dead then Stale else Trying))
    case Stale =>
      if s.lock.None? then Some(At(s, c, Unreadable)) else Some(At(s, c, Trying).(lock := None))
    case Unreadable => Some(At(s, c, Trying).(lock := None))
    case Loading =>
      var next := Apply(q.op, Load(s.file));
      Some(At(s, c, if q.op.Remove? && next == map[] then Deleting else Opening(next)))
    case Opening(next) => Some(At(s, c, Writing(next)).(temp := Garbage))
    case Writing(next) => Some(At(s, c, Renaming).(temp := Text(next)))
    case Renaming => Some(At(s, c, Releasing).(file := s.temp, temp := Missing))
    case Deleting => Some(At(s, c, DeletingLock).(file := Missing))
    case DeletingLock => Some(At(s, c, ReleasingAgain).(lock := None))
    case Releasing => Some(At(s, c, Done).(lock := None))
    case ReleasingAgain => Some(At(s, c, Done).(lock := None))
    case Done => None
    case GaveUp => None
  }

  function Throw(s: State, c: nat): Option<State>
    requires c < |s.calls|
  {
    match s.calls[c].pc
    case Trying => Some(At(s, c, Done))
    case Stamping => Some(At(s, c, Done))          // the empty lock file stays behind
    case Blocked => Some(At(s, c, Unreadable))
    case Probing(_) => None
    case Stale => Some(At(s, c, Unreadable))
    case Unreadable => Some(At(s, c, Trying))
    case Loading => None                            // loadPids swallows every error
    case Opening(_) => Some(At(s, c, Releasing))
    case Writing(_) => Some(At(s, c, Releasing))
    case Renaming => Some(At(s, c, Releasing).(temp := Missing))
    case Deleting => Some(At(s, c, DeletingLock))   // warned about and ignored
    case DeletingLock => Some(At(s, c, Releasing))
    case Releasing => Some(At(s, c, Done))
    case ReleasingAgain => Some(At(s, c, Done))
    case Done => None
    case GaveUp => None
  }

  function Next(s: State, e: Event): Option<State> {
    if e.c >= |s.calls| || s.calls[e.c].pid in s.dead then None else
      match e.action
      case Ok => Succeed(s, e.c)
      case Fail => Throw(s, e.c)
      case GiveUp => if s.calls[e.c].pc.Trying? then Some(At(s, e.c, GaveUp)) else None
      case Exit => Some(s.(dead := s.dead + {s.calls[e.c].pid}))
  }

  function Run(s: State, tr: seq<Event>): Option<State>
    decreases |tr|
  {
    if tr == [] then Some(s) else
      match Next(s, tr[0])
      case None => None
      case Some(s') => Run(s', tr[1..])
  }

  /** The steps that complete an update or a removal. */
  predicate Completes(s: State, e: Event) {
    && e.c < |s.calls| && e.action.Ok?
    && (s.calls[e.c].pc.Renaming? || s.calls[e.c].pc.Deleting?)
  }

  /** The updates and removals of a run, in the order in which they were completed. */
  function Completed(s: State, tr: seq<Event>): seq<Op>
    decreases |tr|
  {
    if tr == [] then [] else
      match Next(s, tr[0])
      case None => []
      case Some(s') => (if Completes(s, tr[0]) then [s.calls[tr[0].c].op] else []) + Completed(s', tr[1..])
  }

  /** Between a successful create and the first unlink of its own lock; the one in deletePidFile counts. */
  predicate InCriticalSection(pc: Pc) {
    || pc.Stamping? || pc.Loading? || pc.Opening? || pc.Writing? || pc.Renaming? || pc.Deleting?
    || pc.DeletingLock? || pc.Releasing?
  }

  predicate Holds(s: State, c: nat) {
    c < |s.calls| && InCriticalSection(s.calls[c].pc) && s.calls[c].pid !in s.dead
  }

  ghost predicate MutualExclusion(s: State) {
    forall c, d :: Holds(s, c) && Holds(s, d) ==> c == d
  }

  // ---------------------------------------------------------------------------
  // The unlinks
  // ---------------------------------------------------------------------------

  /** The step unlinks a lock file that is there. */
  predicate Unlinks(s: State, e: Event) {
    && s.lock.Some? && Next(s, e).Some? && Next(s, e).value.lock.None?
  }

  /** It removes the lock of another call that is alive and inside its critical section. */
  predicate RemovesLiveLock(s: State, e: Event) {
    Unlinks(s, e) && s.lock.value.creator != e.c && Holds(s, s.lock.value.creator)
  }

  /** The stated discipline: own lock, or a lock whose recorded owner no longer exists. */
  predicate RemovesOwnOrDeadLock(s: State, e: Event) {
    && Unlinks(s, e)
    && (|| s.lock.value.creator == e.c
        || (s.lock.value.written && s.lock.value.creator < |s.calls| && s.calls[s.lock.value.creator].pid in s.dead))
  }

  lemma DisciplineIsEnough(s: State, e: Event)
    requires Unlinks(s, e)
    ensures RemovesOwnOrDeadLock(s, e) ==> !RemovesLiveLock(s, e)
  {
  }

  /** No step of the run removes a live lock. */
  predicate NeverRemovesLiveLock(s: State, tr: seq<Event>)
    decreases |tr|
  {
    tr == [] ||
    match Next(s, tr[0])
    case None => true
    case Some(s') => !RemovesLiveLock(s, tr[0]) && NeverRemovesLiveLock(s', tr[1..])
  }

  // ---------------------------------------------------------------------------
  // Mutual exclusion and the PID file, given the discipline
  // ---------------------------------------------------------------------------

  ghost predicate CallOk(s: State, c: nat)
    requires c < |s.calls|
  {
    var pc := s.calls[c].pc;
    Holds(s, c) ==>
      && s.lock.Some? && s.lock.value.creator == c
      && (pc.Opening? || pc.Writing? ==> pc.next == Apply(s.calls[c].op, Load(s.file)))
      && (pc.Renaming? ==> s.temp == Text(Apply(s.calls[c].op, Load(s.file))))
      && (pc.Deleting? ==> Apply(s.calls[c].op, Load(s.file)) == map[])
  }

  /** `first` is the PID map before the run and `log` what was completed so far. */
  ghost predicate Inv(s: State, first: Pids, log: seq<Op>) {
    && Load(s.file) == Fold(log, first)
    && forall c :: 0 <= c < |s.calls| ==> CallOk(s, c)
  }

  lemma InvMeansExclusion(s: State, first: Pids, log: seq<Op>)
    requires Inv(s, first, log)
    ensures MutualExclusion(s)
  {
    forall c, d | Holds(s, c) && Holds(s, d) ensures c == d {
      assert CallOk(s, c) && CallOk(s, d);
    }
  }

  lemma {:induction false} FoldSnoc(ops: seq<Op>, op: Op, pids: Pids)
    ensures Fold(ops + [op], pids) == Apply(op, Fold(ops, pids))
  {
    if ops == [] {
      assert [] + [op] == [op] && [op][1..] == [];
      assert Fold([op], pids) == Fold([], Apply(op, pids));
    } else {
      assert (ops + [op])[1..] == ops[1..] + [op];
      FoldSnoc(ops[1..], op, Apply(ops[0], pids));
    }
  }

  /** All that one step can do to the other calls and to the shared files. */
  lemma StepEffect(s: State, e: Event, s': State)
    requires Next(s, e) == Some(s')
    ensures e.c < |s.calls| == |s'.calls|
    ensures forall d :: 0 <= d < |s.calls| && d != e.c ==> s'.calls[d] == s.calls[d]
    ensures s'.calls[e.c].op == s.calls[e.c].op && s'.calls[e.c].pid == s.calls[e.c].pid
    ensures s.dead <= s'.dead
    ensures Holds(s, e.c) || (s'.file == s.file && s'.temp == s.temp)
    ensures s.lock.Some? && !Unlinks(s, e) ==> s'.lock.Some? && s'.lock.value.creator == s.lock.value.creator
    ensures s.lock.None? && s'.lock.Some? ==> s'.lock.value.creator == e.c && s.calls[e.c].pc.Trying?
    ensures !Completes(s, e) ==> s'.file == s.file
  {
  }

  /** A call that is in its critical section after its own step created the lock file or still owns it. */
  lemma OwnLockPreserved(s: State, e: Event, s': State)
    requires e.c < |s.calls| && CallOk(s, e.c)
    requires Next(s, e) == Some(s')
    ensures Holds(s', e.c) ==> s'.lock.Some? && s'.lock.value.creator == e.c
    ensures Holds(s', e.c) ==> Holds(s, e.c) || s'.calls[e.c].pc.Stamping?
  {
  }

  lemma OwnCallPreserved(s: State, e: Event, s': State)
    requires e.c < |s.calls| && CallOk(s, e.c)
    requires Next(s, e) == Some(s')
    ensures e.c < |s'.calls| && CallOk(s', e.c)
  {
    OwnLockPreserved(s, e, s');
    if e.action.Ok? {
      assert Succeed(s, e.c) == Some(s');
    }
  }

  lemma OtherCallPreserved(s: State, e: Event, s': State, first: Pids, log: seq<Op>, d: nat)
    requires Inv(s, first, log)
    requires Next(s, e) == Some(s')
    requires !RemovesLiveLock(s, e)
    requires d < |s.calls| && d != e.c
    ensures d < |s'.calls| && CallOk(s', d)
  {
    StepEffect(s, e, s');
    assert CallOk(s, d) && CallOk(s, e.c);
  }

  lemma FilePreserved(s: State, e: Event, s': State, first: Pids, log: seq<Op>)
    requires Inv(s, first, log)
    requires Next(s, e) == Some(s')
    ensures Load(s'.file) == Fold(if Completes(s, e) then log + [s.calls[e.c].op] else log, first)
  {
    assert CallOk(s, e.c);
    StepEffect(s, e, s');
    if Completes(s, e) {
      FoldSnoc(log, s.calls[e.c].op, first);
    }
  }

  lemma InvPreserved(s: State, e: Event, s': State, first: Pids, log: seq<Op>)
    requires Inv(s, first, log)
    requires Next(s, e) == Some(s')
    requires !RemovesLiveLock(s, e)
    ensures Inv(s', first, if Completes(s, e) then log + [s.calls[e.c].op] else log)
  {
    FilePreserved(s, e, s', first, log);
    forall d | 0 <= d < |s'.calls| ensures CallOk(s', d) {
      StepEffect(s, e, s');
      if d == e.c {
        OwnCallPreserved(s, e, s');
      } else {
        OtherCallPreserved(s, e, s', first, log, d);
      }
    }
  }

  lemma {:induction false} InvAlongRun(s: State, tr: seq<Event>, first: Pids, log: seq<Op>)
    requires Inv(s, first, log)
    requires NeverRemovesLiveLock(s, tr)
    requires Run(s, tr).Some?
    ensures Inv(Run(s, tr).value, first, log + Completed(s, tr))
    decreases |tr|
  {
    hide Next, Inv, RemovesLiveLock;
    if tr == [] {
      assert log + [] == log;
    } else {
      var s' := Next(s, tr[0]).value;
      var log' := if Completes(s, tr[0]) then log + [s.calls[tr[0].c].op] else log;
      InvPreserved(s, tr[0], s', first, log);
      InvAlongRun(s', tr[1..], first, log');
      assert log' + Completed(s', tr[1..]) == log + Completed(s, tr);
    }
  }

  lemma RunInv(s: State, tr: seq<Event>)
    requires Initial(s) && Run(s, tr).Some? && NeverRemovesLiveLock(s, tr)
    ensures Inv(Run(s, tr).value, Load(s.file), Completed(s, tr))
  {
    assert Inv(s, Load(s.file), []);
    InvAlongRun(s, tr, Load(s.file), []);
    assert [] + Completed(s, tr) == Completed(s, tr);
  }

  /**
   While no unlink removes a live lock, at most one live call is in its critical section and
   the PID file is the completed updates and removals folded over the file before the run: every
   service has the pid of its last update, or none after a removal, or what it had before.
   */
  lemma SafeUnlinksGiveExclusion(s: State, tr: seq<Event>)
    requires Initial(s)
    requires Run(s, tr).Some?
    requires NeverRemovesLiveLock(s, tr)
    ensures MutualExclusion(Run(s, tr).value)
    ensures Load(Run(s, tr).value.file) == Fold(Completed(s, tr), Load(s.file))
    ensures HoldsLast(Load(Run(s, tr).value.file), Load(s.file), Completed(s, tr))
  {
    RunInv(s, tr);
    InvMeansExclusion(Run(s, tr).value, Load(s.file), Completed(s, tr));
    FoldHoldsLast(Completed(s, tr), Load(s.file));
  }

  // ---------------------------------------------------------------------------
  // What the PID file holds
  // ---------------------------------------------------------------------------

  predicate Touches(op: Op, name: string) {
    match op
    case Update(n, _) => n == name
    case Remove(n) => n == name
  }

  /** `op` is the last of `ops` that concerns `name`. */
  ghost predicate IsLastFor(ops: seq<Op>, name: string, op: Op) {
    && Touches(op, name)
    && exists i :: 0 <= i < |ops| && ops[i] == op && forall j :: i < j < |ops| ==> !Touches(ops[j], name)
  }

  /** A name holds the pid of its last update, is gone after a removal, and is as it was if nothing concerned it. */
  ghost predicate HoldsLastOf(after: Pids, before: Pids, ops: seq<Op>, name: string) {
    && (forall pid: int :: IsLastFor(ops, name, Update(name, pid)) ==> name in after && after[name] == pid)
    && (IsLastFor(ops, name, Remove(name)) ==> name !in after)
    && ((forall i :: 0 <= i < |ops| ==> !Touches(ops[i], name)) ==>
          (name in after <==> name in before) && (name in after ==> after[name] == before[name]))
  }

  /** `after` is what the operations leave of `before`. */
  ghost predicate HoldsLast(after: Pids, before: Pids, ops: seq<Op>) {
    forall name: string :: HoldsLastOf(after, before, ops, name)
  }

  lemma LastOfSnoc(ops: seq<Op>, last: Op, name: string, op: Op)
    ensures IsLastFor(ops + [last], name, op) <==>
            if Touches(last, name) then op == last else IsLastFor(ops, name, op)
  {
    var all := ops + [last];
    assert all[|ops|] == last;
    assert forall i :: 0 <= i < |ops| ==> all[i] == ops[i];
    if Touches(op, name) && !Touches(last, name) && IsLastFor(ops, name, op) {
      var i :| 0 <= i < |ops| && ops[i] == op && forall j :: i < j < |ops| ==> !Touches(ops[j], name);
      assert all[i] == op && forall j :: i < j < |all| ==> !Touches(all[j], name);
    }
    if IsLastFor(all, name, op) {
      var i :| 0 <= i < |all| && all[i] == op && forall j :: i < j < |all| ==> !Touches(all[j], name);
      assert Touches(last, name) ==> i == |ops|;
      assert i < |ops| ==> ops[i] == op && forall j :: i < j < |ops| ==> !Touches(ops[j], name);
    }
  }

  /** One operation changes one name. */
  lemma ApplyChangesOneName(op: Op, pids: Pids, name: string)
    ensures !Touches(op, name) ==>
              (name in Apply(op, pids) <==> name in pids) && (name in pids ==> Apply(op, pids)[name] == pids[name])
    ensures op.Update? && op.name == name ==> name in Apply(op, pids) && Apply(op, pids)[name] == op.pid
    ensures op.Remove? && op.name == name ==> name !in Apply(op, pids)
  {
  }

  /** One more operation, and what it leaves. */
  lemma HoldsLastSnoc(mid: Pids, after: Pids, before: Pids, ops: seq<Op>, last: Op, name: string)
    requires HoldsLastOf(mid, before, ops, name) && after == Apply(last, mid)
    ensures HoldsLastOf(after, before, ops + [last], name)
  {
    ApplyChangesOneName(last, mid, name);
    hide Apply, IsLastFor;
    forall pid: int
      ensures IsLastFor(ops + [last], name, Update(name, pid)) ==> name in after && after[name] == pid
    {
      LastOfSnoc(ops, last, name, Update(name, pid));
    }
    LastOfSnoc(ops, last, name, Remove(name));
    if forall i :: 0 <= i < |ops + [last]| ==> !Touches((ops + [last])[i], name) {
      assert forall i :: 0 <= i < |ops| ==> ops[i] == (ops + [last])[i];
      assert (ops + [last])[|ops|] == last;
    }
  }

  lemma {:induction false} FoldHoldsLast(ops: seq<Op>, pids: Pids)
    ensures HoldsLast(Fold(ops, pids), pids, ops)
    decreases |ops|
  {
    if ops != [] {
      var front, last := ops[..|ops| - 1], ops[|ops| - 1];
      assert ops == front + [last];
      FoldHoldsLast(front, pids);
      FoldSnoc(front, last, pids);
      forall name: string ensures HoldsLastOf(Fold(ops, pids), pids, ops, name) {
        HoldsLastSnoc(Fold(front, pids), Fold(ops, pids), pids, front, last, name);
      }
    }
  }

  /** A rename, or the unlink of the emptied file, changes the entry of one service and no other. */
  lemma CompletionChangesOneName(s: State, tr: seq<Event>, e: Event, name: string)
    requires Initial(s) && Run(s, tr).Some? && NeverRemovesLiveLock(s, tr)
    requires Next(Run(s, tr).value, e).Some? && Completes(Run(s, tr).value, e)
    ensures var before := Run(s, tr).value;
            var op, was, now := before.calls[e.c].op, Load(before.file), Load(Next(before, e).value.file);
            match op
            case Update(n, pid) => if name == n then name in now && now[name] == pid
                                   else (name in now <==> name in was) && (name in was ==> now[name] == was[name])
            case Remove(n) => if name == n then name !in now
                              else (name in now <==> name in was) && (name in was ==> now[name] == was[name])
    ensures Run(s, tr).value.calls[e.c].pc.Renaming? ==> Next(Run(s, tr).value, e).value.temp.Missing?
  {
    RunInv(s, tr);
    var before := Run(s, tr).value;
    var after := Next(before, e).value;
    var op := before.calls[e.c].op;
    StepEffect(before, e, after);
    assert CallOk(before, e.c);
    assert Load(after.file) == Apply(op, Load(before.file));
    ApplyChangesOneName(op, Load(before.file), name);
  }

  /** After a live lock was removed, a create puts a second call into the critical section. */
  lemma RemovalAdmitsASecond(s: State, e: Event, t: State, r: nat)
    requires Next(s, e) == Some(t) && RemovesLiveLock(s, e)
    requires r < |t.calls| && t.calls[r].pc.Trying? && t.calls[r].pid !in t.dead
    ensures Next(t, Event(r, Ok)).Some? && !MutualExclusion(Next(t, Event(r, Ok)).value)
  {
    StepEffect(s, e, t);
    var owner, after := s.lock.value.creator, Next(t, Event(r, Ok)).value;
    assert e.action.Ok?;
    assert Holds(t, owner);
    assert Holds(after, owner) && Holds(after, r);
  }

  /** As long as no live lock was removed, a create keeps mutual exclusion. */
  lemma CreateKeepsExclusion(t: State, r: nat, first: Pids, log: seq<Op>)
    requires Inv(t, first, log)
    requires r < |t.calls| && t.calls[r].pc.Trying? && t.calls[r].pid !in t.dead
    ensures Next(t, Event(r, Ok)).Some? && MutualExclusion(Next(t, Event(r, Ok)).value)
  {
    var after := Next(t, Event(r, Ok)).value;
    assert t.lock.Some? ==> after.lock.Some?;
    InvPreserved(t, Event(r, Ok), after, first, log);
    InvMeansExclusion(after, first, log);
  }

  /**
   The condition is exact. At the first step that could break a run, with some live call `r`
   waiting to create the lock: that step removes a live lock if and only if the create that `r`
   attempts next puts a second call into the critical section.
   */
  lemma ExclusionBreaksExactlyThere(s: State, tr: seq<Event>, e: Event, r: nat)
    requires Initial(s)
    requires Run(s, tr).Some? && NeverRemovesLiveLock(s, tr)
    requires Next(Run(s, tr).value, e).Some?
    requires var t := Next(Run(s, tr).value, e).value;
             r < |t.calls| && t.calls[r].pc.Trying? && t.calls[r].pid !in t.dead
    ensures Next(Next(Run(s, tr).value, e).value, Event(r, Ok)).Some?
    ensures RemovesLiveLock(Run(s, tr).value, e)
            <==> !MutualExclusion(Next(Next(Run(s, tr).value, e).value, Event(r, Ok)).value)
  {
    hide Next, Run, Completed, NeverRemovesLiveLock, MutualExclusion, RemovesLiveLock;
    var before := Run(s, tr).value;
    var t := Next(before, e).value;
    var first, log := Load(s.file), Completed(s, tr);
    RunInv(s, tr);
    if RemovesLiveLock(before, e) {
      RemovalAdmitsASecond(before, e, t, r);
    } else {
      InvPreserved(before, e, t, first, log);
      CreateKeepsExclusion(t, r, first, if Completes(before, e) then log + [before.calls[e.c].op] else log);
    }
  }

  // ---------------------------------------------------------------------------
  // When the code keeps the discipline
  // ---------------------------------------------------------------------------

  /** Which of the three conditions on the surroundings are in force. */
  datatype Conditions = Conditions(noHolderExits: bool, failedCreateReadsAtOnce: bool, neverEmptied: bool)

  predicate HasAcquired(s: State, pid: nat) {
    exists c :: 0 <= c < |s.calls| && s.calls[c].pid == pid && s.calls[c].acquired
  }

  /** A process that has held the lock does not exit, now or later. */
  predicate NoHolderExits(s: State, e: Event) {
    e.action.Exit? && e.c < |s.calls| ==> !HasAcquired(s, s.calls[e.c].pid)
  }

  /** After a create that failed with EEXIST the same call reads the lock file before anything else happens. */
  predicate ReadsAtOnce(s: State, e: Event) {
    forall c :: 0 <= c < |s.calls| && s.calls[c].pc.Blocked? && s.calls[c].pid !in s.dead ==>
        e.c == c && !e.action.Fail?
  }

  /** No removal leaves the PID map empty. */
  predicate LeavesEntries(s: State, e: Event) {
    (e.c < |s.calls| && s.calls[e.c].pc.Loading? && s.calls[e.c].op.Remove?) ==>
      Apply(s.calls[e.c].op, Load(s.file)) != map[]
  }

  predicate Allows(k: Conditions, s: State, e: Event) {
    && (k.noHolderExits ==> NoHolderExits(s, e))
    && (k.failedCreateReadsAtOnce ==> ReadsAtOnce(s, e))
    && (k.neverEmptied ==> LeavesEntries(s, e))
  }

  predicate Obeys(k: Conditions, s: State, tr: seq<Event>)
    decreases |tr|
  {
    tr == [] ||
    match Next(s, tr[0])
    case None => true
    case Some(s') => Allows(k, s, tr[0]) && Obeys(k, s', tr[1..])
  }

  const ALL_CONDITIONS := Conditions(true, true, true)

  /** Under the three conditions the recovery branches are never entered and recorded owners stay alive. */
  ghost predicate Calm(s: State) {
    && (s.lock.Some? ==> s.lock.value.creator < |s.calls| && s.calls[s.lock.value.creator].acquired)
    && forall c :: 0 <= c < |s.calls| ==> CalmCall(s, c)
  }

  ghost predicate CalmCall(s: State, c: nat)
    requires c < |s.calls|
  {
    var q := s.calls[c];
    && (q.acquired ==> q.pid !in s.dead)
    && (InCriticalSection(q.pc) ==> q.acquired)
    && !q.pc.Stale? && !q.pc.Unreadable? && !q.pc.Deleting? && !q.pc.DeletingLock? && !q.pc.ReleasingAgain?
    && (q.pc.Probing? ==> HasAcquired(s, q.pc.owner))
    && (q.pc.Blocked? && q.pid !in s.dead ==> s.lock.Some?)
  }

  lemma AcquiredStays(s: State, e: Event, s': State)
    requires Next(s, e) == Some(s')
    ensures |s'.calls| == |s.calls|
    ensures forall c :: 0 <= c < |s.calls| && s.calls[c].acquired ==>
              s'.calls[c].acquired && s'.calls[c].pid == s.calls[c].pid
    ensures forall pid :: HasAcquired(s, pid) ==> HasAcquired(s', pid)
    ensures e.action.Exit? ==> s'.dead == s.dead + {s.calls[e.c].pid} && s'.calls == s.calls
    ensures !e.action.Exit? ==> s'.dead == s.dead
  {
  }

  lemma CalmOwnCall(s: State, e: Event, s': State)
    requires Calm(s) && Next(s, e) == Some(s') && Allows(ALL_CONDITIONS, s, e)
    ensures e.c < |s'.calls| && CalmCall(s', e.c)
  {
    AcquiredStays(s, e, s');
    assert CalmCall(s, e.c);
    var q, q' := s.calls[e.c], s'.calls[e.c];
    if q.pc.Blocked? && q'.pc.Probing? {
      var owner := s.lock.value.creator;
      assert s'.calls[owner].acquired && s'.calls[owner].pid == q'.pc.owner;
    }
    if q.pc.Probing? {
      var d :| 0 <= d < |s.calls| && s.calls[d].pid == q.pc.owner && s.calls[d].acquired;
      assert CalmCall(s, d);
    }
  }

  lemma CalmOtherCall(s: State, e: Event, s': State, d: nat)
    requires Calm(s) && Next(s, e) == Some(s') && Allows(ALL_CONDITIONS, s, e)
    requires d < |s.calls| && d != e.c
    ensures d < |s'.calls| && CalmCall(s', d)
  {
    AcquiredStays(s, e, s');
    StepEffect(s, e, s');
    assert CalmCall(s, d) && CalmCall(s, e.c);
  }

  lemma CalmPreserved(s: State, e: Event, s': State, first: Pids, log: seq<Op>)
    requires Calm(s) && Inv(s, first, log)
    requires Next(s, e) == Some(s') && Allows(ALL_CONDITIONS, s, e)
    ensures Calm(s') && !RemovesLiveLock(s, e)
  {
    AcquiredStays(s, e, s');
    StepEffect(s, e, s');
    assert CalmCall(s, e.c) && CallOk(s, e.c);
    forall d | 0 <= d < |s'.calls| ensures CalmCall(s', d) {
      if d == e.c { CalmOwnCall(s, e, s'); } else { CalmOtherCall(s, e, s', d); }
    }
  }

  lemma {:induction false} CalmAlongRun(s: State, tr: seq<Event>, first: Pids, log: seq<Op>)
    requires Calm(s) && Inv(s, first, log)
    requires Obeys(ALL_CONDITIONS, s, tr)
    ensures NeverRemovesLiveLock(s, tr)
    decreases |tr|
  {
    if tr != [] && Next(s, tr[0]).Some? {
      var s' := Next(s, tr[0]).value;
      CalmPreserved(s, tr[0], s', first, log);
      InvPreserved(s, tr[0], s', first, log);
      CalmAlongRun(s', tr[1..], first, if Completes(s, tr[0]) then log + [s.calls[tr[0].c].op] else log);
    }
  }

  /** The code as it stands is safe whenever the three conditions hold throughout the run. */
  lemma ConditionsGiveExclusion(s: State, tr: seq<Event>)
    requires Initial(s)
    requires Run(s, tr).Some?
    requires Obeys(ALL_CONDITIONS, s, tr)
    ensures NeverRemovesLiveLock(s, tr)
    ensures MutualExclusion(Run(s, tr).value)
    ensures Load(Run(s, tr).value.file) == Fold(Completed(s, tr), Load(s.file))
    ensures HoldsLast(Load(Run(s, tr).value.file), Load(s.file), Completed(s, tr))
  {
    assert Inv(s, Load(s.file), []);
    CalmAlongRun(s, tr, Load(s.file), []);
    SafeUnlinksGiveExclusion(s, tr);
  }
}
