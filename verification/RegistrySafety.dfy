/**
 Serialisability and crash consistency of the registry protocol: what every step keeps, and what
 the file on disk is after every run.
 */
module RegistrySafety {
  import opened Options
  import opened RegistryData
  import opened RegistryProtocol

  /** What a call knows about the shared files at each point. */
  ghost predicate CallOk(s: State, p: nat)
    requires p < |s.procs|
  {
    var q := s.procs[p];
    && (Critical(q.pc) ==> q.held)
    && (InTransaction(q.pc) ==> s.lock == Some(p))
    && (!q.pc.Creating? && !Finished(q.pc) && !q.pc.Catching? && !q.pc.Deciding? && !q.pc.Sleeping? ==> !s.file.Absent?)
    && (q.pc.Mutating? ==> s.file == Whole(q.pc.seen))
    && (q.pc.Opening? || q.pc.Writing? ==> s.file.Whole? && q.pc.next == Mutate(q.mutator, s.file.registry))
    && (q.pc.Renaming? ==> s.file.Whole? && s.temp == Whole(Mutate(q.mutator, s.file.registry)))
    && (q.pc.Creating? || q.pc.Filling? || q.pc.Locking? ==> !q.held)
  }

  /** `first` is the registry file before the run and `log` the mutators committed so far. */
  ghost predicate FileOk(s: State, first: FileState, log: seq<Mutator>) {
    && (s.file.Whole? ==> s.file.registry == Fold(log, Base(first)) && !first.Unparsable?)
    && (!s.file.Whole? ==> log == [])
    && (s.file.Absent? ==> first.Absent?)
    && (s.file.Unparsable? ==> !first.Whole?)
    && (forall p :: 0 <= p < |s.procs| && s.procs[p].pc.Filling? ==> s.file.Unparsable? && first.Absent?)
    && (forall p, q ::
          0 <= p < |s.procs| && 0 <= q < |s.procs| && s.procs[p].pc.Filling? && s.procs[q].pc.Filling? ==> p == q)
  }

  ghost predicate Inv(s: State, first: FileState, log: seq<Mutator>) {
    && FileOk(s, first, log)
    && forall p :: 0 <= p < |s.procs| ==> CallOk(s, p)
  }

  lemma SucceedPreserves(s: State, p: nat, s': State)
    requires p < |s.procs| && CallOk(s, p)
    requires Succeed(s, p) == Some(s')
    ensures p < |s'.procs| && CallOk(s', p)
  {
    hide Pow2;
  }

  lemma ThrowPreserves(s: State, p: nat, locked: bool, s': State)
    requires p < |s.procs| && CallOk(s, p)
    requires Throw(s, p, locked) == Some(s')
    ensures p < |s'.procs| && CallOk(s', p)
  {
  }

  lemma OwnCallPreserved(s: State, e: Event, s': State)
    requires e.p < |s.procs| && CallOk(s, e.p)
    requires Next(s, e) == Some(s')
    requires e.action.Expire? ==> !InTransaction(s.procs[e.p].pc)
    ensures CallOk(s', e.p)
  {
    hide Succeed, Throw;
    match e.action
    case Ok => SucceedPreserves(s, e.p, s');
    case Fail(locked) => ThrowPreserves(s, e.p, locked, s');
    case _ =>
  }

  lemma OtherCallPreserved(s: State, e: Event, s': State, first: FileState, log: seq<Mutator>, q: nat)
    requires Inv(s, first, log)
    requires Next(s, e) == Some(s')
    requires q < |s.procs| && q != e.p
    ensures |s'.procs| == |s.procs| && CallOk(s', q)
  {
    StepEffect(s, e, s');
    assert CallOk(s, q) && CallOk(s, e.p);
  }

  /** At most one call ever fills in the file it created, and only while the file is empty. */
  lemma FillingPreserved(s: State, e: Event, s': State, first: FileState, log: seq<Mutator>)
    requires Inv(s, first, log)
    requires Next(s, e) == Some(s')
    ensures forall p :: 0 <= p < |s'.procs| && s'.procs[p].pc.Filling? ==> s'.file.Unparsable? && first.Absent?
    ensures forall p, q ::
              0 <= p < |s'.procs| && 0 <= q < |s'.procs| && s'.procs[p].pc.Filling? && s'.procs[q].pc.Filling? ==> p == q
  {
    hide Next;
    StepEffect(s, e, s');
    assert CallOk(s, e.p);
  }

  lemma FilePreserved(s: State, e: Event, s': State, first: FileState, log: seq<Mutator>)
    requires Inv(s, first, log)
    requires Next(s, e) == Some(s') && !Commits(s, e)
    ensures s'.file.Whole? ==> s'.file.registry == Fold(log, Base(first)) && !first.Unparsable?
    ensures !s'.file.Whole? ==> log == []
    ensures s'.file.Absent? ==> first.Absent?
    ensures s'.file.Unparsable? ==> !first.Whole?
  {
  }

  lemma FileOkPreserved(s: State, e: Event, s': State, first: FileState, log: seq<Mutator>)
    requires Inv(s, first, log)
    requires Next(s, e) == Some(s')
    ensures FileOk(s', first, if Commits(s, e) then log + [s.procs[e.p].mutator] else log)
  {
    FillingPreserved(s, e, s', first, log);
    if Commits(s, e) {
      assert CallOk(s, e.p);
      FoldSnoc(log, s.procs[e.p].mutator, Base(first));
    } else {
      FilePreserved(s, e, s', first, log);
    }
  }

  lemma InvPreserved(s: State, e: Event, s': State, first: FileState, log: seq<Mutator>)
    requires Inv(s, first, log)
    requires Next(s, e) == Some(s')
    requires e.action.Expire? ==> !InTransaction(s.procs[e.p].pc)
    ensures Inv(s', first, if Commits(s, e) then log + [s.procs[e.p].mutator] else log)
  {
    FileOkPreserved(s, e, s', first, log);
    forall q | 0 <= q < |s'.procs| ensures CallOk(s', q) {
      if q == e.p {
        OwnCallPreserved(s, e, s');
      } else {
        OtherCallPreserved(s, e, s', first, log, q);
      }
    }
  }

  lemma {:induction false} InvAlongRun(s: State, tr: seq<Event>, first: FileState, log: seq<Mutator>)
    requires Inv(s, first, log)
    requires Healthy(s, tr)
    requires Run(s, tr).Some?
    ensures Inv(Run(s, tr).value, first, log + Committed(s, tr))
    decreases |tr|
  {
    if tr == [] {
      assert log + [] == log;
    } else {
      var s' := Next(s, tr[0]).value;
      var log' := if Commits(s, tr[0]) then log + [s.procs[tr[0].p].mutator] else log;
      InvPreserved(s, tr[0], s', first, log);
      InvAlongRun(s', tr[1..], first, log');
      assert log' + Committed(s', tr[1..]) == log + Committed(s, tr);
    }
  }

  lemma RunInv(s: State, tr: seq<Event>)
    requires Initial(s) && Healthy(s, tr) && Run(s, tr).Some?
    ensures Inv(Run(s, tr).value, s.file, Committed(s, tr))
  {
    assert Inv(s, s.file, []);
    InvAlongRun(s, tr, s.file, []);
    assert [] + Committed(s, tr) == Committed(s, tr);
  }

  /**
   Serialisability with crashes: after any run of any number of deployers, starting from any
   registry file and any leftover temp file, the file on disk is absent, or created and still
   empty with nothing committed (or the unparsable text that was there from the start), or the
   committed mutators folded in rename order over the starting registry.
   */
  lemma Serialisable(s: State, tr: seq<Event>)
    requires Initial(s)
    requires Healthy(s, tr)
    requires Run(s, tr).Some?
    ensures var disk := Run(s, tr).value.file;
            match disk
            case Absent => s.file.Absent? && Committed(s, tr) == []
            case Unparsable => !s.file.Whole? && Committed(s, tr) == []
            case Whole(r) => !s.file.Unparsable? && r == Fold(Committed(s, tr), Base(s.file))
  {
    RunInv(s, tr);
  }

  /** Along a run every single step leaves the file alone, creates it, fills in "{}", or commits one whole mutator. */
  lemma EveryStepIsAtomic(s: State, tr: seq<Event>, e: Event)
    requires Initial(s)
    requires Healthy(s, tr)
    requires Run(s, tr).Some? && Next(Run(s, tr).value, e).Some?
    ensures var before := Run(s, tr).value;
            var disk := before.file;
            var disk' := Next(before, e).value.file;
            if Commits(before, e) then
              e.p < |s.procs| && disk.Whole? && disk' == Whole(Mutate(s.procs[e.p].mutator, disk.registry))
            else
              disk' == disk || (disk.Absent? && disk'.Unparsable?) ||
                  (s.file.Absent? && disk.Unparsable? && disk' == Whole(map[]))
  {
    RunInv(s, tr);
    var before := Run(s, tr).value;
    assert CallOk(before, e.p);
    StepEffect(before, e, Next(before, e).value);
    MutatorsConstant(s, tr, e.p);
  }

  lemma {:induction false} MutatorsConstant(s: State, tr: seq<Event>, p: nat)
    requires Run(s, tr).Some? && p < |Run(s, tr).value.procs|
    ensures p < |s.procs| && Run(s, tr).value.procs[p].mutator == s.procs[p].mutator
    decreases |tr|
  {
    if tr != [] {
      var s' := Next(s, tr[0]).value;
      StepEffect(s, tr[0], s');
      MutatorsConstant(s', tr[1..], p);
    }
  }

  /** Same files apart from the temp file, same lock, same calls. */
  predicate SameButTemp(s: State, t: State) {
    s == t.(temp := s.temp)
  }

  lemma SameStep(s: State, t: State, e: Event, first: FileState, log: seq<Mutator>)
    requires SameButTemp(s, t)
    requires Inv(s, first, log) && Inv(t, first, log)
    requires Next(s, e).Some?
    ensures Next(t, e).Some? && SameButTemp(Next(s, e).value, Next(t, e).value)
  {
    assert CallOk(s, e.p) && CallOk(t, e.p);
  }

  lemma {:induction false} SameRun(s: State, t: State, tr: seq<Event>, first: FileState, log: seq<Mutator>)
    requires SameButTemp(s, t)
    requires Inv(s, first, log) && Inv(t, first, log)
    requires Healthy(s, tr) && Run(s, tr).Some?
    ensures Run(t, tr).Some? && SameButTemp(Run(s, tr).value, Run(t, tr).value)
    ensures Committed(s, tr) == Committed(t, tr)
    decreases |tr|
  {
    if tr != [] {
      SameStep(s, t, tr[0], first, log);
      var s', t' := Next(s, tr[0]).value, Next(t, tr[0]).value;
      var log' := if Commits(s, tr[0]) then log + [s.procs[tr[0].p].mutator] else log;
      InvPreserved(s, tr[0], s', first, log);
      InvPreserved(t, tr[0], t', first, log);
      SameRun(s', t', tr[1..], first, log');
    }
  }

  /** A temp file left behind by a crash has no effect on any later step, commit or result. */
  lemma LeftoverTempIrrelevant(s: State, leftover: FileState, tr: seq<Event>)
    requires Initial(s)
    requires Healthy(s, tr) && Run(s, tr).Some?
    ensures var t := s.(temp := leftover);
            && Run(t, tr).Some?
            && SameButTemp(Run(s, tr).value, Run(t, tr).value)
            && Committed(s, tr) == Committed(t, tr)
  {
    var t := s.(temp := leftover);
    assert Inv(s, s.file, []) && Inv(t, s.file, []);
    SameRun(s, t, tr, s.file, []);
  }
}
