/**
 The registry update protocol: any number of deployer processes, each inside one call of
 withRegistryLock, sharing one registry file, one temp file and one lock. Every operation on
 the file system is one step, steps of different processes interleave freely, every operation
 may fail, and a process may crash before any of its steps.
 */
module RegistryProtocol {
  import opened Options
  import opened RegistryData

  /** Unparsable stands for any text that is not a registry: an empty file, half a write, corruption. */
  datatype FileState = Absent | Unparsable | Whole(registry: Registry)

  /** Where a call stands: each constructor is named after the operation that comes next. */
  datatype Pc =
    | Creating                  // exclusive create of the registry file
    | Filling                   // created it; "{}" not yet written
    | Locking
    | Reading                   // read and parse under the lock
    | AbortingRead(locked: bool) // read or parse failed: unlock before throwing
    | Mutating(seen: Registry)
    | Opening(next: Registry)   // truncate the temp file
    | Writing(next: Registry)   // temp file open, content not complete
    | Renaming
    | Unlocking                 // unlock after the rename
    | Catching(locked: bool)    // outer catch: unlock if the lock was acquired
    | Deciding(locked: bool)    // retry or throw; `locked` says that the error reads as a lock error
    | Sleeping
    | Returned
    | Threw
    | RanOff                    // left the loop without returning or throwing
    | Crashed

  const MAX_RETRIES: nat := 3
  const BASE_DELAY: nat := 1000

  /**
   One call. `held` is the local lockAcquired and `slept` the total time slept. The last three
   record what the call has done so far: its renames, the unlocks after a rename that failed,
   and whether the last unlock it tried failed.
   */
  datatype Proc = Proc(
    mutator: Mutator,
    pc: Pc,
    attempt: nat,
    held: bool,
    slept: nat,
    commits: nat,
    lateFailures: nat,
    unlockFailed: bool)

  datatype State = State(file: FileState, temp: FileState, lock: Option<nat>, procs: seq<Proc>)

  /** Fail(true) is a failure whose message reads as a lock error. Expire breaks the lock of a process as stale. */
  datatype Action = Ok | Fail(locked: bool) | Crash | Expire
  datatype Event = Event(p: nat, action: Action)

  function Pow2(k: nat): nat {
    if k == 0 then 1 else 2 * Pow2(k - 1)
  }

  function Fresh(m: Mutator): Proc {
    Proc(m, Creating, 1, false, 0, 0, 0, false)
  }

  ghost predicate Initial(s: State) {
    s.lock == None && forall p :: 0 <= p < |s.procs| ==> s.procs[p] == Fresh(s.procs[p].mutator)
  }

  predicate Finished(pc: Pc) {
    pc.Returned? || pc.Threw? || pc.RanOff? || pc.Crashed?
  }

  function Put(s: State, p: nat, q: Proc): State
    requires p < |s.procs|
  {
    s.(procs := s.procs[p := q])
  }

  function Release(lock: Option<nat>, p: nat): Option<nat> {
    if lock == Some(p) then None else lock
  }

  /** The step in which the next operation of `p` succeeds, or None when it cannot. */
  function Succeed(s: State, p: nat): Option<State>
    requires p < |s.procs|
  {
    var q := s.procs[p];
    match q.pc
    case Creating =>
      if s.file.Absent? then Some(Put(s, p, q.(pc := Filling)).(file := Unparsable))
      else Some(Put(s, p, q.(pc := Locking)))
    case Filling => Some(Put(s, p, q.(pc := Locking)).(file := Whole(map[])))
    case Locking =>
      if s.lock == None then Some(Put(s, p, q.(pc := Reading, held := true)).(lock := Some(p))) else None
    case Reading =>
      (match s.file
       case Absent => Some(Put(s, p, q.(pc := Mutating(map[]))))
       case Unparsable => None
       case Whole(r) => Some(Put(s, p, q.(pc := Mutating(r)))))
    case AbortingRead(locked) =>
      Some(Put(s, p, q.(pc := Catching(locked), held := false, unlockFailed := false)).(lock := Release(s.lock, p)))
    case Mutating(seen) => Some(Put(s, p, q.(pc := Opening(Mutate(q.mutator, seen)))))
    case Opening(next) => Some(Put(s, p, q.(pc := Writing(next))).(temp := Unparsable))
    case Writing(next) => Some(Put(s, p, q.(pc := Renaming)).(temp := Whole(next)))
    case Renaming =>
      if s.temp.Absent? then None
      else Some(Put(s, p, q.(pc := Unlocking, commits := q.commits + 1)).(file := s.temp, temp := Absent))
    case Unlocking =>
      Some(Put(s, p, q.(pc := Returned, held := false, unlockFailed := false)).(lock := Release(s.lock, p)))
    case Catching(locked) =>
      if q.held then
        Some(Put(s, p, q.(pc := Deciding(locked), held := false, unlockFailed := false)).(lock := Release(s.lock, p)))
      else Some(Put(s, p, q.(pc := Deciding(locked))))
    case Deciding(locked) =>
      Some(Put(s, p, q.(pc := if locked && q.attempt < MAX_RETRIES then Sleeping else Threw)))
    case Sleeping =>
      Some(Put(s, p, q.(
        pc := if q.attempt + 1 <= MAX_RETRIES then Creating else RanOff,
        attempt := q.attempt + 1,
        held := false,
        slept := q.slept + BASE_DELAY * Pow2(if q.attempt == 0 then 0 else q.attempt - 1))))
    case _ => None
  }

  /** The step in which the next operation of `p` throws, or None when it cannot. */
  function Throw(s: State, p: nat, locked: bool): Option<State>
    requires p < |s.procs|
  {
    var q := s.procs[p];
    match q.pc
    case Reading => Some(Put(s, p, q.(pc := AbortingRead(locked))))
    case AbortingRead(l) => Some(Put(s, p, q.(pc := Catching(l), unlockFailed := true)))
    case Unlocking =>
      Some(Put(s, p, q.(pc := Catching(locked), lateFailures := q.lateFailures + 1, unlockFailed := true)))
    case Catching(l) =>
      if q.held then Some(Put(s, p, q.(pc := Deciding(l), unlockFailed := true))) else None
    case Deciding(_) => None
    case Sleeping => None
    case _ => if Finished(q.pc) then None else Some(Put(s, p, q.(pc := Catching(locked))))
  }

  function Next(s: State, e: Event): Option<State> {
    if e.p >= |s.procs| then None else
      match e.action
      case Ok => Succeed(s, e.p)
      case Fail(locked) => Throw(s, e.p, locked)
      case Crash => if Finished(s.procs[e.p].pc) then None else Some(Put(s, e.p, s.procs[e.p].(pc := Crashed)))
      case Expire => if s.lock == Some(e.p) then Some(s.(lock := None)) else None
  }

  function Run(s: State, tr: seq<Event>): Option<State>
    decreases |tr|
  {
    if tr == [] then Some(s) else
      match Next(s, tr[0])
      case None => None
      case Some(s') => Run(s', tr[1..])
  }

  /** The step that commits: a rename that succeeds. */
  predicate Commits(s: State, e: Event) {
    e.p < |s.procs| && e.action.Ok? && s.procs[e.p].pc.Renaming?
  }

  /** The mutators of a run in the order of their renames. */
  function Committed(s: State, tr: seq<Event>): seq<Mutator>
    decreases |tr|
  {
    if tr == [] then [] else
      match Next(s, tr[0])
      case None => []
      case Some(s') => (if Commits(s, tr[0]) then [s.procs[tr[0].p].mutator] else []) + Committed(s', tr[1..])
  }

  /** Between acquiring the lock and the rename. */
  predicate InTransaction(pc: Pc) {
    pc.Reading? || pc.Mutating? || pc.Opening? || pc.Writing? || pc.Renaming?
  }

  /** The stale timeout breaks no lock whose owner is between acquiring it and its rename. */
  ghost predicate Healthy(s: State, tr: seq<Event>)
    decreases |tr|
  {
    tr == [] ||
    match Next(s, tr[0])
    case None => true
    case Some(s') =>
      && (tr[0].action.Expire? ==> !InTransaction(s.procs[tr[0].p].pc))
      && Healthy(s', tr[1..])
  }

  function Base(f: FileState): Registry {
    if f.Whole? then f.registry else map[]
  }

  predicate Critical(pc: Pc) {
    InTransaction(pc) || pc.AbortingRead? || pc.Unlocking?
  }

  /** All that one step of `p` can do to the shared files and to the other calls. */
  lemma StepEffect(s: State, e: Event, s': State)
    requires Next(s, e) == Some(s')
    ensures e.p < |s.procs| == |s'.procs|
    ensures forall q :: 0 <= q < |s.procs| && q != e.p ==> s'.procs[q] == s.procs[q]
    ensures s'.procs[e.p].mutator == s.procs[e.p].mutator
    ensures s'.lock == s.lock || s'.lock == None || (s.lock == None && s'.lock == Some(e.p))
    ensures s'.lock != s.lock ==> s.lock == None || s.lock == Some(e.p)
    ensures var pc := s.procs[e.p].pc;
            || s'.file == s.file
            || (s.file.Absent? && s'.file.Unparsable?)
            || (pc.Filling? && s'.file == Whole(map[]))
            || (Commits(s, e) && s'.file == s.temp)
    ensures s'.procs[e.p].pc.Filling? ==> s.procs[e.p].pc.Filling? || (s.file.Absent? && s'.file.Unparsable?)
    ensures s.procs[e.p].pc.Filling? && s'.procs[e.p].pc.Filling? ==> s'.file == s.file
    ensures s'.temp == s.temp || s.procs[e.p].pc.Opening? || s.procs[e.p].pc.Writing? || s.procs[e.p].pc.Renaming?
  {
    hide Mutate, Pow2;
  }
}
