/**
 Standby activation: any number of activateStandby calls on one event loop, around a leadership
 service whose answers are arbitrary. The code between two awaits is one step; promises settle
 and awaiting calls resume in any order the event loop allows.
 */
module Standby {
  import opened Options

  datatype Result = Value(b: bool) | Rejected

  /** Progress of one activation body and of the promise that activateStandby made for it. */
  datatype Stage =
    | Acquiring             // the body awaits tryAcquireLeadership
    | Completing(r: Result) // the body has ended, its promise has not settled yet
    | Settled(r: Result)

  /** A call owns the promise it installed, or waits for a promise it found; k numbers the promises. */
  datatype Call = NotStarted | Owner(k: nat) | Waiter(k: nat) | Returned(k: nat, r: Result)

  /** Calls on the dependencies that announce a successful activation. */
  datatype Effect = ActivationSuccess | ClearStandby

  datatype State = State(
    activationPromise: Option<nat>,
    activations: seq<Stage>,
    calls: seq<Call>,
    isStandby: bool,
    serviceActivating: bool,
    localActivating: bool,
    effects: seq<Effect>)

  /** The two resets of the `finally` clause; the second one does not run when the first one throws. */
  datatype Reset = Cleared | ServiceResetThrows | LocalResetThrows

  /**
   What may throw before the first await: a getter of activateStandby, the lookup of the service,
   setting the service flag, setting the local flag, or the acquisition at once.
   */
  datatype Fault =
    | NoFault | GetterThrows | ServiceGetterThrows | ServiceFlagThrows | SetFlagThrows | AcquireThrows(reset: Reset)

  /** What the dependencies answer while the body runs up to its first await. */
  datatype Answers = Answers(isLeader: bool, canBecomeLeader: bool, hasService: bool, fault: Fault)

  /** How an awaited acquisition ends: the `try` block with its callbacks, and the `finally` clause. */
  datatype Attempt = Acquired | Denied | Errored | SuccessThrows | ClearThrows
  datatype Outcome = Outcome(attempt: Attempt, reset: Reset)

  datatype Event =
    | Start(c: nat, answers: Answers)   // a call runs up to its await
    | Acquisition(k: nat, outcome: Outcome) // the awaited acquisition ends, the body runs to its end
    | Settle(k: nat)                    // the promise of the activation settles
    | Resume(c: nat)                    // an awaiting call resumes and returns
    | Elsewhere(standby: bool)          // other code changes the standby flag

  ghost predicate Initial(s: State) {
    && s.activationPromise == None && s.activations == [] && s.effects == []
    && !s.serviceActivating && !s.localActivating
    && forall c :: 0 <= c < |s.calls| ==> s.calls[c] == NotStarted
  }

  /** The body gets as far as setting the service flag. */
  predicate ReachesFlags(s: State, a: Answers) {
    && !a.fault.GetterThrows? && !a.isLeader && s.isStandby && a.canBecomeLeader
    && !a.fault.ServiceGetterThrows? && a.hasService && !a.fault.ServiceFlagThrows?
  }

  /** What the body returns when its `try` block returned `b`. */
  function Finally(b: bool, reset: Reset): Result {
    if reset.Cleared? then Value(b) else Rejected
  }

  /** The body up to its first await: the stage it leaves the promise in. */
  function BodyStart(s: State, a: Answers): Stage {
    if a.fault.GetterThrows? then Settled(Rejected)
    else if a.isLeader then Settled(Value(true))
    else if !s.isStandby then Settled(Value(false))
    else if !a.canBecomeLeader then Settled(Value(false))
    else if a.fault.ServiceGetterThrows? then Completing(Rejected)
    else if !a.hasService then Completing(Value(false))
    else if a.fault.ServiceFlagThrows? || a.fault.SetFlagThrows? then Completing(Rejected)
    else if a.fault.AcquireThrows? then Completing(Finally(false, a.fault.reset))
    else Acquiring
  }

  /** The service flag after the body ran up to its first await. */
  function ServiceAfterStart(s: State, a: Answers): bool {
    if !ReachesFlags(s, a) then s.serviceActivating
    else if a.fault.AcquireThrows? then a.fault.reset.ServiceResetThrows?
    else true
  }

  /** The local flag likewise; the service flag was set before it. */
  function LocalAfterStart(s: State, a: Answers): bool {
    if !ReachesFlags(s, a) || a.fault.SetFlagThrows? then s.localActivating
    else if a.fault.AcquireThrows? then !a.fault.reset.Cleared?
    else true
  }

  function StartStep(s: State, c: nat, a: Answers): State
    requires c < |s.calls|
  {
    match s.activationPromise
    case Some(k) => s.(calls := s.calls[c := Waiter(k)])
    case None =>
      var k := |s.activations|;
      s.(activationPromise := Some(k),
         activations := s.activations + [BodyStart(s, a)],
         calls := s.calls[c := Owner(k)],
         serviceActivating := ServiceAfterStart(s, a),
         localActivating := LocalAfterStart(s, a))
  }

  function AcquisitionStep(s: State, k: nat, o: Outcome): State
    requires k < |s.activations|
  {
    var acquired := o.attempt.Acquired? || o.attempt.ClearThrows?;
    s.(activations := s.activations[k := Completing(Finally(o.attempt.Acquired?, o.reset))],
       isStandby := s.isStandby && !acquired,
       effects := s.effects + (if o.attempt.Acquired? then [ActivationSuccess, ClearStandby]
                               else if o.attempt.ClearThrows? then [ActivationSuccess] else []),
       serviceActivating := o.reset.ServiceResetThrows? && s.serviceActivating,
       localActivating := !o.reset.Cleared? && s.localActivating)
  }

  function Next(s: State, e: Event): Option<State> {
    match e
    case Start(c, a) =>
      if c < |s.calls| && s.calls[c].NotStarted? then Some(StartStep(s, c, a)) else None
    case Acquisition(k, o) =>
      if k < |s.activations| && s.activations[k].Acquiring? then Some(AcquisitionStep(s, k, o)) else None
    case Settle(k) =>
      if k < |s.activations| && s.activations[k].Completing? then
        Some(s.(activations := s.activations[k := Settled(s.activations[k].r)]))
      else None
    case Resume(c) =>
      if c >= |s.calls| then None else
        (match s.calls[c]
         case Owner(k) =>
           if k < |s.activations| && s.activations[k].Settled? then
             Some(s.(calls := s.calls[c := Returned(k, s.activations[k].r)], activationPromise := None))
           else None
         case Waiter(k) =>
           if k < |s.activations| && s.activations[k].Settled? then
             Some(s.(calls := s.calls[c := Returned(k, s.activations[k].r)]))
           else None
         case _ => None)
    case Elsewhere(standby) => Some(s.(isStandby := standby))
  }

  function Run(s: State, tr: seq<Event>): Option<State>
    decreases |tr|
  {
    if tr == [] then Some(s) else
      match Next(s, tr[0])
      case None => None
      case Some(s') => Run(s', tr[1..])
  }

  // ---------------------------------------------------------------------------
  // The mutex
  // ---------------------------------------------------------------------------

  ghost predicate CallOk(s: State, c: nat)
    requires c < |s.calls|
  {
    match s.calls[c]
    case NotStarted => true
    case Owner(k) => s.activationPromise == Some(k)
    case Waiter(k) => k < |s.activations|
    case Returned(k, r) => k < |s.activations| && s.activations[k] == Settled(r)
  }

  ghost predicate OwnedBy(s: State, c: nat) {
    c < |s.calls| && s.calls[c].Owner?
  }

  ghost predicate Inv(s: State) {
    && (s.activationPromise.Some? ==>
         s.activationPromise.value + 1 == |s.activations| && exists c :: OwnedBy(s, c))
    && (forall k :: 0 <= k < |s.activations| && !s.activations[k].Settled? ==> s.activationPromise == Some(k))
    && (forall c :: 0 <= c < |s.calls| ==> CallOk(s, c))
    && (forall c, d :: OwnedBy(s, c) && OwnedBy(s, d) ==> c == d)
  }

  lemma StartInv(s: State, c: nat, a: Answers)
    requires Inv(s) && c < |s.calls| && s.calls[c].NotStarted?
    ensures Inv(StartStep(s, c, a))
  {
    var s' := StartStep(s, c, a);
    if s.activationPromise.None? {
      assert OwnedBy(s', c);
      forall d | OwnedBy(s', d) ensures d == c {
        assert d != c ==> CallOk(s, d);
      }
    } else {
      var owner :| OwnedBy(s, owner);
      assert OwnedBy(s', owner);
      forall d | OwnedBy(s', d) ensures OwnedBy(s, d) {}
    }
    forall d | 0 <= d < |s'.calls| ensures CallOk(s', d) {
      assert CallOk(s, d);
    }
  }

  lemma ResumeInv(s: State, c: nat)
    requires Inv(s) && Next(s, Resume(c)).Some?
    ensures Inv(Next(s, Resume(c)).value)
    ensures s.calls[c].Owner? ==> s.activationPromise == Some(s.calls[c].k)
  {
    var s' := Next(s, Resume(c)).value;
    assert CallOk(s, c);
    forall d | 0 <= d < |s'.calls| ensures CallOk(s', d) {
      assert CallOk(s, d);
      assert OwnedBy(s, d) && OwnedBy(s, c) ==> c == d;
    }
    forall d | OwnedBy(s', d) ensures OwnedBy(s, d) && d != c {}
    if s'.activationPromise.Some? {
      var owner :| OwnedBy(s, owner);
      assert OwnedBy(s', owner);
    }
  }

  lemma ProgressInv(s: State, e: Event)
    requires Inv(s) && (e.Acquisition? || e.Settle? || e.Elsewhere?) && Next(s, e).Some?
    ensures Inv(Next(s, e).value)
  {
    var s' := Next(s, e).value;
    forall d | 0 <= d < |s'.calls| ensures CallOk(s', d) {
      assert CallOk(s, d);
    }
    forall d ensures OwnedBy(s', d) <==> OwnedBy(s, d) {}
  }

  lemma InvPreserved(s: State, e: Event)
    requires Inv(s) && Next(s, e).Some?
    ensures Inv(Next(s, e).value)
  {
    match e
    case Start(c, a) => StartInv(s, c, a);
    case Resume(c) => ResumeInv(s, c);
    case _ => ProgressInv(s, e);
  }

  lemma {:induction false} InvAlongRun(s: State, tr: seq<Event>)
    requires Inv(s) && Run(s, tr).Some?
    ensures Inv(Run(s, tr).value)
    decreases |tr|
  {
    if tr != [] {
      InvPreserved(s, tr[0]);
      InvAlongRun(Next(s, tr[0]).value, tr[1..]);
    }
  }

  /** The body of activation k has not ended, or its promise has not settled yet. */
  predicate InFlight(s: State, k: nat) {
    k < |s.activations| && !s.activations[k].Settled?
  }

  /**
   In every run, whatever the dependencies answer or throw: at most one activation body is in
   flight, an owner that resumes clears exactly the promise it installed itself, and every
   call that returned did so with the result of its promise.
   */
  lemma MutexHolds(s: State, tr: seq<Event>)
    requires Initial(s) && Run(s, tr).Some?
    ensures var t := Run(s, tr).value;
            && (forall j, k :: InFlight(t, j) && InFlight(t, k) ==> j == k)
            && (forall c :: 0 <= c < |t.calls| && t.calls[c].Owner? ==> t.activationPromise == Some(t.calls[c].k))
            && (forall c :: 0 <= c < |t.calls| && t.calls[c].Returned? ==>
                  t.calls[c].k < |t.activations| && t.activations[t.calls[c].k] == Settled(t.calls[c].r))
            && ((forall c :: 0 <= c < |t.calls| ==> !t.calls[c].Owner?) ==> t.activationPromise == None)
  {
    InvAlongRun(s, tr);
    var t := Run(s, tr).value;
    forall c | 0 <= c < |t.calls|
      ensures t.calls[c].Owner? ==> t.activationPromise == Some(t.calls[c].k)
      ensures t.calls[c].Returned? ==>
                t.calls[c].k < |t.activations| && t.activations[t.calls[c].k] == Settled(t.calls[c].r)
    {
      assert CallOk(t, c);
    }
    if t.activationPromise.Some? {
      var c: nat :| OwnedBy(t, c);
      assert t.calls[c].Owner?;
    }
  }

  lemma StaysWithPromise(s: State, e: Event, c: nat, k: nat)
    requires Inv(s) && Next(s, e).Some?
    requires c < |s.calls|
    requires s.calls[c] == Waiter(k) || s.calls[c] == Owner(k) || (s.calls[c].Returned? && s.calls[c].k == k)
    ensures var s' := Next(s, e).value;
            && c < |s'.calls|
            && (s'.calls[c] == s.calls[c] || (s'.calls[c].Returned? && s'.calls[c].k == k))
  {
  }

  lemma {:induction false} StaysAlongRun(s: State, tr: seq<Event>, c: nat, k: nat)
    requires Inv(s) && Run(s, tr).Some?
    requires c < |s.calls|
    requires s.calls[c] == Waiter(k) || s.calls[c] == Owner(k) || (s.calls[c].Returned? && s.calls[c].k == k)
    ensures var t := Run(s, tr).value;
            c < |t.calls| && (t.calls[c] == s.calls[c] || (t.calls[c].Returned? && t.calls[c].k == k))
    decreases |tr|
  {
    if tr != [] {
      StaysWithPromise(s, tr[0], c, k);
      InvPreserved(s, tr[0]);
      StaysAlongRun(Next(s, tr[0]).value, tr[1..], c, k);
    }
  }

  /**
   A call that finds a promise starts no body, and whenever it returns it returns the result of
   that very promise; a call that finds none installs promise k and returns the result of k.
   */
  lemma CallersShareTheFoundPromise(s: State, before: seq<Event>, c: nat, a: Answers, after: seq<Event>)
    requires Initial(s)
    requires Run(s, before).Some? && Next(Run(s, before).value, Start(c, a)).Some?
    requires Run(Next(Run(s, before).value, Start(c, a)).value, after).Some?
    ensures var found := Run(s, before).value;
            var started := Next(found, Start(c, a)).value;
            var t := Run(started, after).value;
            var k := if found.activationPromise.Some? then found.activationPromise.value else |found.activations|;
            && (found.activationPromise.Some? ==> started.activations == found.activations)
            && c < |t.calls|
            && (t.calls[c].Returned? ==> k < |t.activations| && t.activations[k] == Settled(t.calls[c].r))
  {
    InvAlongRun(s, before);
    var found := Run(s, before).value;
    var started := Next(found, Start(c, a)).value;
    InvPreserved(found, Start(c, a));
    StaysAlongRun(started, after, c, started.calls[c].k);
    InvAlongRun(started, after);
    assert CallOk(Run(started, after).value, c);
  }

  // ---------------------------------------------------------------------------
  // What activateStandby answers
  // ---------------------------------------------------------------------------

  /** Event i of the run is the call that made promise k. */
  ghost predicate Made(s: State, tr: seq<Event>, i: nat, k: nat) {
    && i < |tr| && tr[i].Start?
    && Run(s, tr[..i]).Some?
    && Run(s, tr[..i]).value.activationPromise.None?
    && |Run(s, tr[..i]).value.activations| == k
  }

  ghost predicate AcquisitionIn(tr: seq<Event>, k: nat, o: Outcome) {
    Acquisition(k, o) in tr
  }

  lemma {:induction false} RunSplit(s: State, a: seq<Event>, b: seq<Event>)
    requires Run(s, a + b).Some?
    ensures Run(s, a).Some? && Run(s, a + b) == Run(Run(s, a).value, b)
    decreases |a|
  {
    if a == [] {
      assert a + b == b;
    } else {
      assert (a + b)[1..] == a[1..] + b;
      RunSplit(Next(s, a[0]).value, a[1..], b);
    }
  }

  /** A body acquires only after its promise was made. */
  lemma {:induction false} NoAcquisitionBefore(s: State, tr: seq<Event>, k: nat, o: Outcome)
    requires Run(s, tr).Some?
    requires |Run(s, tr).value.activations| <= k
    ensures |s.activations| <= k
    ensures !AcquisitionIn(tr, k, o)
    decreases |tr|
  {
    if tr != [] {
      NoAcquisitionBefore(Next(s, tr[0]).value, tr[1..], k, o);
      assert tr == [tr[0]] + tr[1..];
    }
  }

  /** How a promise stands: its body awaits, or it has this result. */
  ghost predicate HasResult(st: Stage, r: Result) {
    st == Completing(r) || st == Settled(r)
  }

  /** The rest of a run ends a waiting body at most once, and changes no result. */
  lemma {:induction false} ResultAlongRun(s: State, tr: seq<Event>, k: nat)
    requires k < |s.activations| && Run(s, tr).Some?
    ensures k < |Run(s, tr).value.activations|
    ensures var st, st' := s.activations[k], Run(s, tr).value.activations[k];
            && (!st.Acquiring? ==> HasResult(st', st.r) && forall o :: !AcquisitionIn(tr, k, o))
            && (st.Acquiring? && !st'.Acquiring? ==>
                  exists o :: AcquisitionIn(tr, k, o) && HasResult(st', Finally(o.attempt.Acquired?, o.reset)))
            && (forall o :: AcquisitionIn(tr, k, o) ==> HasResult(st', Finally(o.attempt.Acquired?, o.reset)))
    decreases |tr|
  {
    if tr != [] {
      hide BodyStart, ServiceAfterStart, LocalAfterStart;
      var s' := Next(s, tr[0]).value;
      ResultAlongRun(s', tr[1..], k);
      assert forall e :: e in tr <==> e == tr[0] || e in tr[1..];
      assert forall o :: AcquisitionIn(tr, k, o) <==> tr[0] == Acquisition(k, o) || AcquisitionIn(tr[1..], k, o);
      if tr[0].Acquisition? && tr[0].k == k {
        assert AcquisitionIn(tr, k, tr[0].outcome);
      }
    }
  }

  /** The answer of promise k, in terms of what the dependencies answered to the call that made it. */
  lemma ResultOfPromise(s: State, tr: seq<Event>, i: nat, k: nat)
    requires Run(s, tr).Some? && Made(s, tr, i, k)
    ensures k < |Run(s, tr).value.activations|
    ensures var st, first := Run(s, tr).value.activations[k], BodyStart(Run(s, tr[..i]).value, tr[i].answers);
            && (!first.Acquiring? ==> HasResult(st, first.r) && forall o :: !AcquisitionIn(tr, k, o))
            && (first.Acquiring? && !st.Acquiring? ==>
                  exists o :: AcquisitionIn(tr, k, o) && HasResult(st, Finally(o.attempt.Acquired?, o.reset)))
            && (forall o :: AcquisitionIn(tr, k, o) ==> HasResult(st, Finally(o.attempt.Acquired?, o.reset)))
  {
    hide BodyStart, Finally;
    var front, rest := tr[..i], tr[i..];
    assert tr == front + rest && rest[0] == tr[i];
    RunSplit(s, front, rest);
    var before := Run(s, front).value;
    var started := Next(before, tr[i]).value;
    assert started.activations[k] == BodyStart(before, tr[i].answers);
    ResultAlongRun(started, rest[1..], k);
    forall o ensures AcquisitionIn(tr, k, o) <==> AcquisitionIn(rest[1..], k, o) {
      NoAcquisitionBefore(s, front, k, o);
      assert rest == [rest[0]] + rest[1..];
    }
  }

  /** Every promise was made by some call of the run. */
  lemma {:induction false} SomebodyMade(s: State, tr: seq<Event>, k: nat) returns (i: nat)
    requires Run(s, tr).Some?
    requires |s.activations| <= k < |Run(s, tr).value.activations|
    ensures Made(s, tr, i, k)
    decreases |tr|
  {
    var s' := Next(s, tr[0]).value;
    if |s'.activations| > k {
      i := 0;
      assert tr[..0] == [];
    } else {
      var j := SomebodyMade(s', tr[1..], k);
      i := j + 1;
      assert tr[..i][1..] == tr[1..][..j] && tr[..i][0] == tr[0];
    }
  }

  /** Where the body that a call starts ends without awaiting, and throws. */
  predicate ThrowsAtOnce(standby: bool, a: Answers) {
    || a.fault.GetterThrows?
    || (!a.isLeader && standby && a.canBecomeLeader &&
        (|| a.fault.ServiceGetterThrows?
         || (a.hasService &&
             (|| a.fault.ServiceFlagThrows? || a.fault.SetFlagThrows?
              || (a.fault.AcquireThrows? && !a.fault.reset.Cleared?)))))
  }

  /**
   What activateStandby answers, for every run and every call that returned the result of promise
   k, event i being the call that made that promise: true if and only if the instance was leader
   already, or leadership was acquired and neither the success callbacks nor the resets threw;
   an exception if and only if a getter, the service lookup, a flag setter or a reset threw; and
   false otherwise.
   */
  lemma AnswersExactly(s: State, tr: seq<Event>, c: nat, i: nat)
    requires Initial(s) && Run(s, tr).Some?
    requires c < |Run(s, tr).value.calls| && Run(s, tr).value.calls[c].Returned?
    requires Made(s, tr, i, Run(s, tr).value.calls[c].k)
    ensures var a, standby := tr[i].answers, Run(s, tr[..i]).value.isStandby;
            var k, r := Run(s, tr).value.calls[c].k, Run(s, tr).value.calls[c].r;
            && (r == Value(true) <==>
                  || (!a.fault.GetterThrows? && a.isLeader)
                  || exists o :: AcquisitionIn(tr, k, o) && o.attempt.Acquired? && o.reset.Cleared?)
            && (r == Rejected <==>
                  ThrowsAtOnce(standby, a) || exists o :: AcquisitionIn(tr, k, o) && !o.reset.Cleared?)
            && r in {Value(true), Value(false), Rejected}
  {
    var t := Run(s, tr).value;
    var k, r := t.calls[c].k, t.calls[c].r;
    MutexHolds(s, tr);
    assert t.activations[k] == Settled(r);
    ResultOfPromise(s, tr, i, k);
    var first := BodyStart(Run(s, tr[..i]).value, tr[i].answers);
    assert r == Value(true) || r == Value(false) || r == Rejected;
    if first.Acquiring? {
      var o :| AcquisitionIn(tr, k, o) && HasResult(t.activations[k], Finally(o.attempt.Acquired?, o.reset));
    }
  }

  /** The promise of every call that returned was made in the run, so that AnswersExactly speaks of every one of them. */
  lemma ReturnedPromiseWasMade(s: State, tr: seq<Event>, c: nat) returns (i: nat)
    requires Initial(s) && Run(s, tr).Some?
    requires c < |Run(s, tr).value.calls| && Run(s, tr).value.calls[c].Returned?
    ensures Made(s, tr, i, Run(s, tr).value.calls[c].k)
  {
    MutexHolds(s, tr);
    i := SomebodyMade(s, tr, Run(s, tr).value.calls[c].k);
  }

  // ---------------------------------------------------------------------------
  // The activating flags, whatever throws
  // ---------------------------------------------------------------------------

  predicate BodyAwaits(s: State) {
    exists k :: 0 <= k < |s.activations| && s.activations[k].Acquiring?
  }

  /** Whether an event ends a body that had set the service flag, and whether it leaves that flag up. */
  function ServiceLeft(s: State, e: Event): Option<bool> {
    match e
    case Start(_, a) =>
      if s.activationPromise.Some? || !ReachesFlags(s, a) || a.fault.NoFault? then None
      else Some(a.fault.SetFlagThrows? || (a.fault.AcquireThrows? && a.fault.reset.ServiceResetThrows?))
    case Acquisition(_, o) => Some(o.reset.ServiceResetThrows?)
    case _ => None
  }

  /** The same for the local flag, which a body sets only after the service flag. */
  function LocalLeft(s: State, e: Event): Option<bool> {
    match e
    case Start(_, a) =>
      if s.activationPromise.Some? || !ReachesFlags(s, a) || !a.fault.AcquireThrows? then None
      else Some(!a.fault.reset.Cleared?)
    case Acquisition(_, o) => Some(!o.reset.Cleared?)
    case _ => None
  }

  /** How the last body of a run that had set the flag left it; `before` tells of earlier ones, None: there was none. */
  function LastLeft(left: (State, Event) -> Option<bool>, before: Option<bool>, s: State, tr: seq<Event>): Option<bool>
    decreases |tr|
  {
    if tr == [] then before else
      match Next(s, tr[0])
      case None => before
      case Some(s') => LastLeft(left, if left(s, tr[0]).Some? then left(s, tr[0]) else before, s', tr[1..])
  }

  /** A flag is up exactly while a body awaits, or because the last body left it up. */
  ghost predicate FlagsInv(s: State, service: Option<bool>, local: Option<bool>) {
    && (s.serviceActivating <==> BodyAwaits(s) || service == Some(true))
    && (s.localActivating <==> BodyAwaits(s) || local == Some(true))
  }

  lemma FlagsStart(s: State, c: nat, a: Answers)
    requires Inv(s) && c < |s.calls| && s.calls[c].NotStarted?
    requires s.activationPromise.None?
    ensures !BodyAwaits(s)
    ensures BodyAwaits(StartStep(s, c, a)) <==> ReachesFlags(s, a) && a.fault.NoFault?
  {
    var s', k := StartStep(s, c, a), |s.activations|;
    assert s'.activations[k] == BodyStart(s, a);
    assert forall j :: 0 <= j < k ==> s'.activations[j] == s.activations[j];
  }

  lemma FlagsPreserved(s: State, e: Event, service: Option<bool>, local: Option<bool>)
    requires Inv(s) && Next(s, e).Some? && FlagsInv(s, service, local)
    requires BodyAwaits(s) ==> s.serviceActivating && s.localActivating
    ensures FlagsInv(Next(s, e).value,
              if ServiceLeft(s, e).Some? then ServiceLeft(s, e) else service,
              if LocalLeft(s, e).Some? then LocalLeft(s, e) else local)
  {
    hide BodyStart;
    var s' := Next(s, e).value;
    if e.Start? && s.activationPromise.None? {
      FlagsStart(s, e.c, e.answers);
    } else if e.Acquisition? {
      assert s.activationPromise == Some(e.k) && BodyAwaits(s);
      assert !BodyAwaits(s');
    } else if e.Settle? {
      assert !BodyAwaits(s) && !BodyAwaits(s');
    } else {
      assert s'.activations == s.activations;
    }
  }

  lemma {:induction false} FlagsAlongRun(s: State, tr: seq<Event>, service: Option<bool>, local: Option<bool>)
    requires Inv(s) && Run(s, tr).Some? && FlagsInv(s, service, local)
    ensures FlagsInv(Run(s, tr).value, LastLeft(ServiceLeft, service, s, tr), LastLeft(LocalLeft, local, s, tr))
    decreases |tr|
  {
    if tr != [] {
      hide ServiceLeft, LocalLeft, Inv;
      var s' := Next(s, tr[0]).value;
      FlagsPreserved(s, tr[0], service, local);
      InvPreserved(s, tr[0]);
      FlagsAlongRun(s', tr[1..],
        if ServiceLeft(s, tr[0]).Some? then ServiceLeft(s, tr[0]) else service,
        if LocalLeft(s, tr[0]).Some? then LocalLeft(s, tr[0]) else local);
    }
  }

  /**
   In every run, whatever the dependencies throw: both flags are up while a body awaits, and once
   every call has returned a flag is up if and only if the last body that had set it left it
   up. For the service flag that is a body whose local callback threw right after, or whose
   `finally` clause threw at the service; for the local flag, one whose `finally` clause threw.
   */
  lemma FlagsAfterAllReturned(s: State, tr: seq<Event>)
    requires Initial(s) && Run(s, tr).Some?
    ensures var t := Run(s, tr).value;
            && (BodyAwaits(t) ==> t.serviceActivating && t.localActivating)
            && ((forall c :: 0 <= c < |t.calls| ==> t.calls[c].Returned?) ==>
                  && (t.serviceActivating <==> LastLeft(ServiceLeft, None, s, tr) == Some(true))
                  && (t.localActivating <==> LastLeft(LocalLeft, None, s, tr) == Some(true)))
  {
    assert !BodyAwaits(s);
    InvAlongRun(s, tr);
    FlagsAlongRun(s, tr, None, None);
    MutexHolds(s, tr);
  }

  /** One call whose local callback throws: everything has returned and the service flag is still up. */
  lemma ThrowingCallbackLeavesServiceFlag(s: State, a: Answers) returns (tr: seq<Event>)
    requires Initial(s) && |s.calls| == 1 && s.isStandby
    requires !a.isLeader && a.canBecomeLeader && a.hasService && a.fault.SetFlagThrows?
    ensures Run(s, tr).Some?
    ensures var t := Run(s, tr).value;
            && t.calls == [Returned(0, Rejected)] && t.activationPromise == None
            && t.serviceActivating && !t.localActivating && t.effects == []
  {
    tr := [Start(0, a), Settle(0), Resume(0)];
    var s1 := Next(s, tr[0]).value;
    var s2 := Next(s1, tr[1]).value;
    var s3 := Next(s2, tr[2]).value;
    ThreeSteps(s, tr, s1, s2, s3);
  }

  lemma ThreeSteps(s: State, tr: seq<Event>, s1: State, s2: State, s3: State)
    requires |tr| == 3
    requires Next(s, tr[0]) == Some(s1) && Next(s1, tr[1]) == Some(s2) && Next(s2, tr[2]) == Some(s3)
    ensures Run(s, tr) == Some(s3)
  {
    assert tr[1..][1..] == tr[2..] && tr[2..][1..] == [];
    assert Run(s2, tr[2..]) == Run(s3, []);
    assert Run(s1, tr[1..]) == Run(s2, tr[2..]);
  }

  // ---------------------------------------------------------------------------
  // Runs without callback faults in which nothing else sets the standby flag again
  // ---------------------------------------------------------------------------

  /** Acquisition errors are allowed, thrown at once or later, and so is clearing the standby flag elsewhere. */
  predicate Regular(e: Event) {
    match e
    case Start(_, a) => a.fault.NoFault? || a.fault == AcquireThrows(Cleared)
    case Acquisition(_, o) => (o.attempt.Acquired? || o.attempt.Denied? || o.attempt.Errored?) && o.reset.Cleared?
    case Elsewhere(standby) => !standby
    case _ => true
  }

  /** How many acquisitions succeeded in a run. */
  function Acquisitions(tr: seq<Event>): nat {
    if tr == [] then 0
    else (if tr[0].Acquisition? && tr[0].outcome.attempt.Acquired? then 1 else 0) + Acquisitions(tr[1..])
  }

  ghost predicate RegularInv(s: State) {
    && FlagsInv(s, None, None)
    && (BodyAwaits(s) ==> s.effects == [])
    && (s.isStandby ==> s.effects == [])
    && (s.effects == [] || s.effects == [ActivationSuccess, ClearStandby])
  }

  lemma RegularPreserved(s: State, e: Event)
    requires Inv(s) && RegularInv(s) && Regular(e) && Next(s, e).Some?
    ensures RegularInv(Next(s, e).value)
    ensures e.Acquisition? && e.outcome.attempt.Acquired? ==> s.effects == [] && Next(s, e).value.effects != []
    ensures !(e.Acquisition? && e.outcome.attempt.Acquired?) ==> Next(s, e).value.effects == s.effects
  {
    hide BodyStart;
    var s' := Next(s, e).value;
    FlagsPreserved(s, e, None, None);
    if e.Start? && s.activationPromise.None? {
      FlagsStart(s, e.c, e.answers);
    } else if e.Acquisition? {
      assert s.activationPromise == Some(e.k) && BodyAwaits(s);
      assert !BodyAwaits(s');
    } else if e.Settle? {
      assert !BodyAwaits(s) && !BodyAwaits(s');
    } else {
      assert s'.activations == s.activations;
    }
  }

  lemma {:induction false} RegularAlongRun(s: State, tr: seq<Event>)
    requires Inv(s) && RegularInv(s) && Run(s, tr).Some?
    requires forall i :: 0 <= i < |tr| ==> Regular(tr[i])
    ensures RegularInv(Run(s, tr).value)
    ensures Acquisitions(tr) + (if s.effects != [] then 1 else 0) == (if Run(s, tr).value.effects != [] then 1 else 0)
    decreases |tr|
  {
    if tr != [] {
      InvPreserved(s, tr[0]);
      RegularPreserved(s, tr[0]);
      RegularAlongRun(Next(s, tr[0]).value, tr[1..]);
    }
  }

  /**
   The success callback and clearStandby run together, exactly when leadership was acquired;
   at most one activation ever acquires; the activating flags are up exactly while a body
   awaits acquisition; and once every call has returned the promise is null and both flags
   are down.
   */
  lemma ActivationAnnouncedOnce(s: State, tr: seq<Event>)
    requires Initial(s) && Run(s, tr).Some?
    requires forall i :: 0 <= i < |tr| ==> Regular(tr[i])
    ensures Acquisitions(tr) <= 1
    ensures var t := Run(s, tr).value;
            && t.effects == (if Acquisitions(tr) == 1 then [ActivationSuccess, ClearStandby] else [])
            && (t.serviceActivating <==> BodyAwaits(t))
            && (t.localActivating <==> BodyAwaits(t))
            && ((forall c :: 0 <= c < |t.calls| ==> t.calls[c].Returned?) ==>
                  t.activationPromise == None && !t.serviceActivating && !t.localActivating)
  {
    InvAlongRun(s, tr);
    RegularAlongRun(s, tr);
    var t := Run(s, tr).value;
    MutexHolds(s, tr);
  }

  // ---------------------------------------------------------------------------
  // The manager object
  // ---------------------------------------------------------------------------

  /**
   The manager with its activationPromise field and, around it, what it shares with the event
   loop and its dependencies. Each method is the code of the class between two awaits.
   */
  class StandbyActivationManager {
    var activationPromise: Option<nat>
    var activations: seq<Stage>
    var calls: seq<Call>
    var isStandby: bool
    var serviceActivating: bool
    var localActivating: bool
    var effects: seq<Effect>

    constructor (callers: nat, standby: bool)
      ensures Initial(View()) && |calls| == callers && isStandby == standby
    {
      activationPromise, activations, effects := None, [], [];
      calls := seq(callers, _ => NotStarted);
      isStandby, serviceActivating, localActivating := standby, false, false;
    }

    function View(): State
      reads this
    {
      State(activationPromise, activations, calls, isStandby, serviceActivating, localActivating, effects)
    }

    predicate GetIsActivating()
      reads this
    {
      activationPromise != None
    }

    /** activateStandby up to its await. */
    method ActivateStandby(c: nat, a: Answers)
      requires c < |calls| && calls[c].NotStarted?
      modifies this
      ensures View() == StartStep(old(View()), c, a)
      ensures GetIsActivating()
    {
      if activationPromise.Some? {
        calls := calls[c := Waiter(activationPromise.value)];
        return;
      }
      var stage: Stage;
      if a.fault.GetterThrows? {
        stage := Settled(Rejected);
      } else if a.isLeader {
        stage := Settled(Value(true));
      } else if !isStandby || !a.canBecomeLeader {
        stage := Settled(Value(false));
      } else {
        stage := DoActivateStandby(a);
      }
      calls := calls[c := Owner(|activations|)];
      activationPromise := Some(|activations|);
      activations := activations + [stage];
    }

    /** doActivateStandby up to its await. */
    method DoActivateStandby(a: Answers) returns (stage: Stage)
      requires !a.fault.GetterThrows? && !a.isLeader && isStandby && a.canBecomeLeader
      modifies this`serviceActivating, this`localActivating
      ensures stage == BodyStart(old(View()), a)
      ensures serviceActivating == ServiceAfterStart(old(View()), a)
      ensures localActivating == LocalAfterStart(old(View()), a)
    {
      if a.fault.ServiceGetterThrows? {
        return Completing(Rejected);
      }
      if !a.hasService {
        return Completing(Value(false));
      }
      if a.fault.ServiceFlagThrows? {
        return Completing(Rejected);
      }
      serviceActivating := true;
      if a.fault.SetFlagThrows? {
        return Completing(Rejected);
      }
      localActivating := true;
      if a.fault.AcquireThrows? {
        var cleared := ResetFlags(a.fault.reset);
        return Completing(if cleared then Value(false) else Rejected);
      }
      return Acquiring;
    }

    /** The `finally` clause of doActivateStandby. */
    method ResetFlags(reset: Reset) returns (cleared: bool)
      modifies this`serviceActivating, this`localActivating
      ensures cleared == reset.Cleared?
      ensures serviceActivating == (reset.ServiceResetThrows? && old(serviceActivating))
      ensures localActivating == (!reset.Cleared? && old(localActivating))
    {
      if reset.ServiceResetThrows? {
        return false;
      }
      serviceActivating := false;
      if reset.LocalResetThrows? {
        return false;
      }
      localActivating := false;
      return true;
    }

    /** doActivateStandby from its await to its end. */
    method AcquisitionEnds(k: nat, o: Outcome)
      requires k < |activations| && activations[k].Acquiring?
      modifies this
      ensures View() == AcquisitionStep(old(View()), k, o)
    {
      var r := Value(false);
      if o.attempt.Acquired? || o.attempt.ClearThrows? {
        isStandby := false;
        effects := effects + [ActivationSuccess];
        if o.attempt.Acquired? {
          effects := effects + [ClearStandby];
          r := Value(true);
        }
      }
      var cleared := ResetFlags(o.reset);
      if !cleared {
        r := Rejected;
      }
      activations := activations[k := Completing(r)];
    }

    /** activateStandby from its await to its end, `finally` included. */
    method Resumes(c: nat) returns (r: Result)
      requires c < |calls| && (calls[c].Owner? || calls[c].Waiter?)
      requires calls[c].k < |activations| && activations[calls[c].k].Settled?
      modifies this
      ensures Next(old(View()), Resume(c)) == Some(View())
      ensures calls[c].Returned? && r == calls[c].r
    {
      var k := calls[c].k;
      r := activations[k].r;
      if calls[c].Owner? {
        activationPromise := None;
      }
      calls := calls[c := Returned(k, r)];
    }
  }
}
