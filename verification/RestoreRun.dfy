/** What a run keeps for its snapshots: the image each live process was built from, and tight stages. */
module RestoreRun {
  import opened Words
  import opened Memory
  import opened Core
  import opened Config
  import opened Image
  import opened Processes
  import opened ProcOps
  import opened Models
  import opened ModelRun
  import opened ModelKept
  import opened ModelTight
  import opened Machines
  import opened Isolation
  import opened WriteExact
  import opened PermitsRun
  import UX = UserElfExact

  /** A process was built from its plan's image, or from a parsed one. */
  ghost predicate BirthOk(source: Source, pid: Word, b: Birth) {
    match source
    case Plan(_, images) => 1 <= pid <= |images| && b.boot == images[pid - 1]
    case Disk(_, _) => RegionShaped(b.boot.image)
  }

  ghost predicate BornOk(s: Machine, p: Pcb) {
    p.state.Terminal() || (p.pid in s.births && BirthOk(s.kernel.model.source, p.pid, s.births[p.pid]))
  }

  ghost predicate BirthsOk(s: Machine) {
    forall i :: 0 <= i < |s.kernel.model.procs.pcbs| ==> BornOk(s, s.kernel.model.procs.pcbs[i])
  }

  lemma BirthsMove(s: Machine, n: Machine)
    requires BirthsOk(s) && n.births == s.births && n.kernel.model.source == s.kernel.model.source
    requires Kept(s.kernel.model.procs, n.kernel.model.procs)
    ensures BirthsOk(n)
  {
    hide BirthOk;
    var a, b := s.kernel.model.procs.pcbs, n.kernel.model.procs.pcbs;
    forall i | 0 <= i < |b| ensures BornOk(n, b[i]) {
      assert SamePlace(a[i], b[i]) && BornOk(s, a[i]);
    }
  }

  /** The image of a creation in flight. */
  lemma FlightBirth(c: KernelConfig, k: Kernel)
    requires Inv(c, k) && k.op.Some? && (k.op.value.stage.Create? || k.op.value.stage.Load?)
    ensures StageOk(k.op.value.stage) && StageFits(c, k.model, k.op.value.stage) && InFlight(k.op.value.stage).Some?
    ensures BirthOk(k.model.source, InFlight(k.op.value.stage).value.pid, Birth(FlightBoot(c, k.model, k.op.value.stage), k.op.value.stage.space.frames))
  {
    hide Consistent, ValidSource, SpaceFor, OpOk, UX.RangeOf;
    var st := k.op.value.stage;
    if st.Load? {
      UX.ParsedFollows(st.headers, st.cursor.Entry().value.byteLen, UX.RangeOf(k.model.source.layout));
    }
  }

  /** The machine once the created process is admitted. */
  lemma AdmittedBirths(c: KernelConfig, s: Machine, t: Machine)
    requires MachineInv(c, s) && BirthsOk(s) && s.kernel.op.Some? && (s.kernel.op.value.stage.Create? || s.kernel.op.value.stage.Load?)
    requires Models.Ready(c, s.kernel.model) && Advanceable(c, s.kernel.model, s.kernel.op.value.stage)
    requires StageOk(s.kernel.op.value.stage) && StageFits(c, s.kernel.model, s.kernel.op.value.stage) && InFlight(s.kernel.op.value.stage).Some?
    requires t.kernel.model == Admitted(s.kernel.model, s.kernel.op.value.stage)
    requires var st := s.kernel.op.value.stage;
      t.births == s.births[InFlight(st).value.pid := Birth(FlightBoot(c, s.kernel.model, st), st.space.frames)]
    ensures BirthsOk(t)
  {
    hide MachineInv, Inv, BirthOk, BirthsOk, FlightBoot, Admitted, StageFits, StageOk, Models.Ready, Advanceable, InFlight;
    HasLives(c, s);
    FlightBirth(c, s.kernel);
    FlightOwns(c, s.kernel, 0);
    AdmittedIs(c, s.kernel);
    AdmittedReady(c, s.kernel.model, s.kernel.op.value.stage);
    var st := s.kernel.op.value.stage;
    BirthsAppend(s, t, InFlight(st).value.pid, Birth(FlightBoot(c, s.kernel.model, st), st.space.frames));
  }

  lemma BirthsAppend(s: Machine, t: Machine, pid: Word, b: Birth)
    requires BirthsOk(s) && t.births == s.births[pid := b] && t.kernel.model.source == s.kernel.model.source
    requires BirthOk(s.kernel.model.source, pid, b)
    requires var was, now := s.kernel.model.procs.pcbs, t.kernel.model.procs.pcbs;
      && |now| == |was| + 1 && now[..|was|] == was && now[|was|].pid == pid && forall i :: 0 <= i < |was| ==> was[i].pid != pid
    ensures BirthsOk(t)
  {
    hide BirthOk;
    var was, now := s.kernel.model.procs.pcbs, t.kernel.model.procs.pcbs;
    forall i | 0 <= i < |now| ensures BornOk(t, now[i]) {
      if i < |was| {
        assert now[i] == now[..|was|][i] == was[i];
        assert BornOk(s, was[i]);
      }
    }
  }

  lemma AccessBirths(c: KernelConfig, s: Machine, h: Happening)
    requires MachineInv(c, s) && BirthsOk(s) && Possible(c, s, h) && h.KernelAccess?
    ensures BirthsOk(Happen(c, s, h))
  {
    hide Inv, LivesOk, DevicesApart, PlansInPage, FlightOk, KernelAfter, BirthsOk, OpOk, AccessDue, Steps, Writing, Models.Ready, Advanceable, Admitted, Kept, ReadyKept, FlightBoot, StageFits, StageOk;
    EventAllowed(c, s, h);
    AccessMoves(c, s, h);
    KernelWithin(c, s.kernel);
    StepInStage(c, s.kernel.op.value);
    var n, op := Happen(c, s, h), s.kernel.op.value;
    if op.step + 1 < Steps(c, op.stage) {
      SamePcbs(s.kernel.model.procs, n.kernel.model.procs);
      BirthsMove(s, n);
    } else if op.stage.Create? || op.stage.Load? {
      FlightBirth(c, s.kernel);
      var t := s.(kernel := Kernel(Admitted(s.kernel.model, op.stage), None), births := n.births);
      AdmittedBirths(c, s, t);
      AdmittedReady(c, s.kernel.model, op.stage);
      BirthsMove(t, n);
    } else {
      NotAdmitted(s.kernel.model, op.stage);
      BirthsMove(s, n);
    }
  }

  lemma StepInStage(c: KernelConfig, op: ProcOp)
    requires OpOk(c, op)
    ensures StageOk(op.stage) && op.step < Steps(c, op.stage)
  {
    hide Steps;
  }

  lemma NotAdmitted(m: Model, s: Stage)
    requires m.procs.frames.Wide() && StageOk(s) && !s.Create? && !s.Load?
    ensures Admitted(m, s) == m
  {
  }

  lemma HappenBirths(c: KernelConfig, s: Machine, h: Happening)
    requires MachineInv(c, s) && BirthsOk(s) && Possible(c, s, h)
    ensures BirthsOk(Happen(c, s, h))
  {
    hide Inv, LivesOk, DevicesApart, PlansInPage, FlightOk, KernelAfter, StoreAt, OpOk, AccessDue, BirthsAfter, Writing, KernelConfig.Frame, Kept, BornOk;
    match h
    case KernelEnter(_) =>
      EnterMoves(c, s, h);
      BirthsMove(s, Happen(c, s, h));
    case KernelAccess(_) => AccessBirths(c, s, h);
    case _ =>
      SamePcbs(s.kernel.model.procs, Happen(c, s, h).kernel.model.procs);
      BirthsMove(s, Happen(c, s, h));
  }

  lemma HappenTight(c: KernelConfig, s: Machine, h: Happening)
    requires MachineInv(c, s) && Tight(s.kernel) && Possible(c, s, h)
    ensures Tight(Happen(c, s, h).kernel)
  {
    hide Inv, LivesOk, DevicesApart, PlansInPage, FlightOk, StoreAt, OpOk, AccessDue, BirthsAfter, Writing, KernelConfig.Frame, Step, Models.Ready, Advanceable, Allowed, Reply, Tight;
    match h
    case KernelEnter(_) =>
      EventAllowed(c, s, h);
      StepTight(c, s.kernel, KernelEvent(c, s, h));
    case KernelAccess(_) =>
      EventAllowed(c, s, h);
      StepTight(c, s.kernel, KernelEvent(c, s, h));
    case _ =>
  }

  lemma {:induction false} RunsRest(c: KernelConfig, s: Machine, hs: seq<Happening>)
    requires MachineInv(c, s) && BirthsOk(s) && Tight(s.kernel)
    ensures Runs(c, s, hs).Some? ==> BirthsOk(Runs(c, s, hs).value) && Tight(Runs(c, s, hs).value.kernel)
  {
    hide MachineInv, BirthsOk, Tight, Possible, Happen;
    if hs != [] {
      var front, h := hs[..|hs| - 1], hs[|hs| - 1];
      RunsRest(c, s, front);
      if Runs(c, s, hs).Some? {
        HappenBirths(c, Runs(c, s, front).value, h);
        HappenTight(c, Runs(c, s, front).value, h);
      }
    }
  }

  /** In every state a run from boot reaches, each live process was built from its own image, and the stage is tight. */
  lemma ReachedRest(c: KernelConfig, s: Machine)
    requires Reached(c, s)
    ensures BirthsOk(s) && Tight(s.kernel)
  {
    hide MachineInv, Runs, DevicesApart, PlansInPage, ValidSource, PoolOk;
    var s0: Machine, hs: seq<Happening> :| Unbooted(c, s0) && MachineInv(c, s0) && Runs(c, s0, hs) == Some(s);
    RunsRest(c, s0, hs);
  }
}
