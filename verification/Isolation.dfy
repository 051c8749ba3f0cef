/** Isolation over whole runs: nothing that happens changes a live process's page tables, and no two live processes
    reach a common page. */
module Isolation {
  import opened Words
  import opened Memory
  import opened Core
  import opened Config
  import opened Image
  import opened Space
  import opened SpaceExact
  import opened SpaceWalk
  import opened Creations
  import opened SpaceTables
  import opened Processes
  import opened ProcOps
  import opened Models
  import opened ModelRun
  import opened ModelKept
  import opened Machines
  import SpaceRun
  import Sv32
  import U = UserElf

  // ----- The kernel's moves -----

  lemma RunningIsLive(c: KernelConfig, k: Kernel)
    requires Inv(c, k)
    ensures RunningRuns(k.model.procs)
  {
    hide ValidSource, StageFits, OpOk, OwnersOk, QueueOk, StatesOk, PidsOk;
    InvSound(c, k);
  }

  /** The stage a kernel is in. */
  function StageOf(k: Kernel): Option<Stage> {
    if k.op.Some? then Some(k.op.value.stage) else None
  }

  /** After an ENTER every process is where it was. */
  lemma EnterMoves(c: KernelConfig, s: Machine, h: Happening)
    requires Inv(c, s.kernel) && Possible(c, s, h) && h.KernelEnter?
    ensures var k := KernelAfter(c, s, h);
      && Kept(s.kernel.model.procs, k.model.procs) && ReadyKept(s.kernel.model.procs, k.model.procs, StageOf(k))
      && k.model.source == s.kernel.model.source && (k.op.Some? ==> k.op.value.step == 0)
  {
    hide Inv, Kept, ReadyKept, Start, Models.Ready, OpOk, Advanceable;
    EventAllowed(c, s, h);
    StartKept(c, s.kernel.model, h.value);
  }

  /** After an access that does not finish its stage only the step moves; after one that does, every process is where
      it was and a created one is admitted. */
  lemma AccessMoves(c: KernelConfig, s: Machine, h: Happening)
    requires Inv(c, s.kernel) && Possible(c, s, h) && h.KernelAccess?
    requires OpOk(c, s.kernel.op.value) && Models.Ready(c, s.kernel.model) && Advanceable(c, s.kernel.model, s.kernel.op.value.stage)
    ensures var k, m, op := KernelAfter(c, s, h), s.kernel.model, s.kernel.op.value;
      if op.step + 1 < Steps(c, op.stage)
      then k.model == m && k.op.Some? && k.op.value.stage == op.stage && k.op.value.step == op.step + 1
      else && Kept(Admitted(m, op.stage).procs, k.model.procs) && ReadyKept(Admitted(m, op.stage).procs, k.model.procs, StageOf(k))
           && k.model.source == m.source && (k.op.Some? ==> k.op.value.step == 0)
  {
    hide Inv, Kept, ReadyKept, Step, Models.Ready, OpOk, Advanceable, AccessDue, StageOk, Admitted, Steps, Reply, Allowed;
    EventAllowed(c, s, h);
    KernelWithin(c, s.kernel);
    AnswerMoves(c, s.kernel, KernelEvent(c, s, h).done);
  }

  lemma AnswerMoves(c: KernelConfig, k: Kernel, done: Completion)
    requires Inv(c, k) && k.op.Some? && OpOk(c, k.op.value) && Models.Ready(c, k.model) && Advanceable(c, k.model, k.op.value.stage)
    requires Allowed(c, k, Answered(done)) && Step(c, k, Answered(done)).Ok? && StageOk(k.op.value.stage)
    ensures var n, m, op := Step(c, k, Answered(done)).value, k.model, k.op.value;
      if op.step + 1 < Steps(c, op.stage)
      then n.model == m && n.op.Some? && n.op.value.stage == op.stage && n.op.value.step == op.step + 1
      else && Kept(Admitted(m, op.stage).procs, n.model.procs) && ReadyKept(Admitted(m, op.stage).procs, n.model.procs, StageOf(n))
           && n.model.source == m.source && (n.op.Some? ==> n.op.value.step == 0)
  {
    hide Inv, Kept, ReadyKept, Advance, Models.Ready, OpOk, Advanceable, Complete, AccessDue, HasData, StageOk, Admitted, Steps, RunningRuns, Allowed, Answers;
    var op := k.op.value;
    AllowedAnswer(c, k, done);
    CompleteOk(c, op, done);
    FinishedData(c, op, done);
    RunningIsLive(c, k);
    var next := Complete(c, op, done).value;
    if op.step + 1 >= Steps(c, op.stage) {
      AdvanceKept(c, k.model, next.stage, next.data);
    }
  }

  // ----- Live processes stay -----

  /** Moving the kernel on, with memory as it is, keeps every live process's tables. */
  lemma LivesMove(c: KernelConfig, s: Machine, n: Machine)
    requires LivesOk(c, s) && n.mem == s.mem && n.births == s.births
    requires Kept(s.kernel.model.procs, n.kernel.model.procs) && n.kernel.model.source == s.kernel.model.source
    ensures LivesOk(c, n)
  {
    hide LiveOk;
    var a, b := s.kernel.model.procs.pcbs, n.kernel.model.procs.pcbs;
    forall i | 0 <= i < |b| ensures LiveAt(c, n, b[i]) {
      assert SamePlace(a[i], b[i]) && LiveAt(c, s, a[i]);
      if !b[i].state.Terminal() {
        SameLive(c, s.kernel.model.source.layout, s.mem, a[i], b[i], s.births[a[i].pid]);
      }
    }
  }

  lemma SameLive(c: KernelConfig, l: UserLayout, mem: Memory, p: Pcb, q: Pcb, b: Birth)
    requires LiveOk(c, l, mem, p, b) && q.root == p.root && q.tables == p.tables && q.regions == p.regions
    ensures LiveOk(c, l, mem, q, b)
  {
  }

  lemma TablesAtStart(mem: Memory, s: Space)
    ensures TablesAt(mem, s, 0)
  {
    SpaceRun.AfterNone(s, mem);
    assert SameOn(mem, SpaceRun.After(s, mem, 0).mem, TableSet(s));
  }

  lemma FlightStarts(c: KernelConfig, s: Machine)
    requires s.kernel.op.Some? ==> s.kernel.op.value.step == 0
    ensures FlightOk(c, s)
  {
    hide TablesAt, SpaceRun.Steps;
    if s.kernel.op.Some? && (s.kernel.op.value.stage.Create? || s.kernel.op.value.stage.Load?) {
      TablesAtStart(s.mem, s.kernel.op.value.stage.space);
    }
  }

  // ----- Stores -----

  lemma UserKeeps(c: KernelConfig, s: Machine, h: Happening)
    requires MachineInv(c, s) && Possible(c, s, h) && h.UserStore?
    ensures MachineInv(c, Happen(c, s, h))
  {
    hide Inv, LivesOk, StoreAt, DevicesApart, PlansInPage, Misses;
    UserMisses(c, s, h.va, h.data, h.sum, h.mxr);
    var r := StoreAt(c, s, h.va, h.sum, h.mxr);
    if r.Ok? {
      StoreKeepsLives(c, s, r.value, h.data);
    }
  }

  lemma FrameKeeps(c: KernelConfig, s: Machine, h: Happening)
    requires MachineInv(c, s) && Possible(c, s, h) && h.FrameStore?
    ensures MachineInv(c, Happen(c, s, h))
  {
    hide Inv, LivesOk, DevicesApart, PlansInPage, Misses, KernelConfig.Frame;
    OutsideMisses(c, s, h.addr, h.bytes);
    StoreKeepsLives(c, s, h.addr, h.bytes);
  }

  lemma StagingKeeps(c: KernelConfig, s: Machine, h: Happening)
    requires MachineInv(c, s) && Possible(c, s, h) && h.StagingStore?
    ensures MachineInv(c, Happen(c, s, h))
  {
    hide Inv, LivesOk, DevicesApart, PlansInPage, Misses, KernelConfig.Frame, TablesAt, SpaceRun.Steps, Built, Creation, Buildable, TableSet, InPool, FlightBoot, StageFits;
    OutsideMisses(c, s, h.addr, h.bytes);
    StoreKeepsLives(c, s, h.addr, h.bytes);
    if s.kernel.op.Some? && (s.kernel.op.value.stage.Create? || s.kernel.op.value.stage.Load?) {
      var op := s.kernel.op.value;
      FlightMissed(c, s, h.addr, h.bytes);
      TablesKept(s.mem, op.stage.space, op.step, h.addr, h.bytes);
    }
  }

  lemma FlightMissed(c: KernelConfig, s: Machine, addr: int, data: seq<Byte>)
    requires MachineInv(c, s) && s.kernel.op.Some? && (s.kernel.op.value.stage.Create? || s.kernel.op.value.stage.Load?)
    requires forall x :: addr <= x < addr + |data| ==> c.staging.Has(x) || c.Frame().Has(x)
    ensures Avoids(addr, data, TableSet(s.kernel.op.value.stage.space))
  {
    hide Inv, LivesOk, DevicesApart, PlansInPage, KernelConfig.Frame, TablesAt, SpaceRun.Steps, Built, Creation, Buildable, TableSet, InPool, FlightBoot, StageFits, StageOk, ValidSource, ValidLayout, PageFrames, SpaceRun.FrameSet;
    FlightCreation(c, s.kernel);
    var st, m := s.kernel.op.value.stage, s.kernel.model;
    TableSetIs(c, m.source.layout, FlightBoot(c, m, st), st.space.frames);
    LayoutOk(c, s.kernel);
    OutsidePool(c, m.source.layout, addr, data, TableSet(st.space));
  }

  // ----- Kernel steps -----

  lemma EnterKeeps(c: KernelConfig, s: Machine, h: Happening)
    requires MachineInv(c, s) && Possible(c, s, h) && h.KernelEnter?
    ensures MachineInv(c, Happen(c, s, h))
  {
    hide Inv, LivesOk, DevicesApart, PlansInPage, FlightOk, Kept, KernelAfter;
    var n := Happen(c, s, h);
    EventAllowed(c, s, h);
    AfterInv(c, s, h);
    EnterMoves(c, s, h);
    LivesMove(c, s, n);
    FlightStarts(c, n);
  }

  lemma AfterInv(c: KernelConfig, s: Machine, h: Happening)
    requires Inv(c, s.kernel) && Possible(c, s, h) && (h.KernelEnter? || h.KernelAccess?)
    ensures Inv(c, KernelAfter(c, s, h))
  {
    hide Inv, Step, Possible;
    EventAllowed(c, s, h);
  }

  /** Memory after the access due, with the kernel where it was, keeps every live process. */
  lemma AccessKeepsLives(c: KernelConfig, s: Machine)
    requires MachineInv(c, s) && s.kernel.op.Some? && OpOk(c, s.kernel.op.value)
    ensures LivesOk(c, s.(mem := MemAfter(c, s.mem, AccessDue(c, s.kernel.op.value))))
  {
    hide MachineInv, LivesOk, OpOk, AccessDue, Misses;
    var a := AccessDue(c, s.kernel.op.value);
    HasLives(c, s);
    if a.Write? && InRam(c, a) {
      KernelMisses(c, s);
      StoreKeepsLives(c, s, a.addr, a.data);
    } else {
      assert MemAfter(c, s.mem, a) == s.mem;
      assert s.(mem := s.mem) == s;
    }
  }

  lemma HasLives(c: KernelConfig, s: Machine)
    requires MachineInv(c, s)
    ensures LivesOk(c, s) && Inv(c, s.kernel) && FlightOk(c, s) && PlansInPage(s.kernel.model.source) && DevicesApart(c)
  {
  }

  /** The access due of a creation takes its tables one step further. */
  lemma FlightStep(c: KernelConfig, s: Machine)
    requires MachineInv(c, s) && s.kernel.op.Some? && OpOk(c, s.kernel.op.value)
    requires s.kernel.op.value.stage.Create? || s.kernel.op.value.stage.Load?
    ensures var op := s.kernel.op.value;
      op.step + 1 <= SpaceRun.Steps(op.stage.space) && TablesAt(MemAfter(c, s.mem, AccessDue(c, op)), op.stage.space, op.step + 1)
  {
    hide Inv, LivesOk, DevicesApart, PlansInPage, TablesAt, SpaceRun.Steps, Built, Creation, Buildable, FlightBoot, StageFits, StageOk, OpOk, AccessDue, SpaceRun.AccessAt, SpaceRun.DataLen, SpaceRun.FrameSet, Short, InRam, PageOf;
    var op, m := s.kernel.op.value, s.kernel.model;
    FlightCreation(c, s.kernel);
    CreationAccess(c, op);
    var b := FlightBoot(c, m, op.stage);
    TablesStep(c, m.source.layout, b, op.stage.space.frames, s.mem, op.step, op.data);
    WritesHome(c, m.source.layout, b, op.stage.space.frames, op.step, op.data);
    var a := AccessDue(c, op);
    if a.Write? {
      SpaceInPool(c, m.source.layout, b, op.stage.space.frames, PageOf(a.addr));
      LayoutOk(c, s.kernel);
      PoolInRam(c, m.source.layout, a);
    }
  }

  lemma PoolInRam(c: KernelConfig, l: UserLayout, a: Core.Access)
    requires ValidLayout(c, l) && InPool(c, PageOf(a.addr)) && Short(a.addr, a.Len())
    ensures InRam(c, a)
  {
    hide ValidLayout;
    var f := PageOf(a.addr);
    PoolFacts(c, l, f);
    assert PAGE * f <= a.addr && a.addr + a.Len() - 1 < PAGE * f + PAGE;
    assert c.ram.Has(a.addr) && c.ram.Has(a.addr + a.Len() - 1);
  }

  lemma AccessKeeps(c: KernelConfig, s: Machine, h: Happening)
    requires MachineInv(c, s) && Possible(c, s, h) && h.KernelAccess?
    ensures MachineInv(c, Happen(c, s, h))
  {
    hide Inv, LivesOk, DevicesApart, PlansInPage, FlightOk, Kept, KernelAfter, Admitted, OpOk, AccessDue, Steps, Models.Ready, Advanceable, MemAfter, UartAfter, BirthsAfter, Writing, Within;
    EventAllowed(c, s, h);
    AfterInv(c, s, h);
    AccessMoves(c, s, h);
    var op, n := s.kernel.op.value, Happen(c, s, h);
    KernelWithin(c, s.kernel);
    if op.step + 1 < Steps(c, op.stage) {
      StepOnKeeps(c, s, n);
    } else {
      StageEndKeeps(c, s, n);
    }
  }

  lemma KernelWithin(c: KernelConfig, k: Kernel)
    requires Inv(c, k) && k.op.Some?
    ensures Within(c, k.model, k.op.value.stage) && StageOk(k.op.value.stage) && StageFits(c, k.model, k.op.value.stage)
  {
  }

  /** An access within a stage. */
  lemma StepOnKeeps(c: KernelConfig, s: Machine, n: Machine)
    requires MachineInv(c, s) && s.kernel.op.Some? && OpOk(c, s.kernel.op.value) && Within(c, s.kernel.model, s.kernel.op.value.stage)
    requires s.kernel.op.value.step + 1 < Steps(c, s.kernel.op.value.stage)
    requires n.mem == MemAfter(c, s.mem, AccessDue(c, s.kernel.op.value)) && n.births == BirthsAfter(c, s)
    requires n.kernel.model == s.kernel.model && n.kernel.op.Some? && n.kernel.op.value.stage == s.kernel.op.value.stage
    requires n.kernel.op.value.step == s.kernel.op.value.step + 1
    ensures LivesOk(c, n) && FlightOk(c, n)
  {
    hide MachineInv, LivesOk, OpOk, AccessDue, Kept, MemAfter, Within, TablesAt;
    var t := s.(mem := n.mem);
    AccessKeepsLives(c, s);
    SamePcbs(t.kernel.model.procs, n.kernel.model.procs);
    LivesMove(c, t, n);
    if s.kernel.op.value.stage.Create? || s.kernel.op.value.stage.Load? {
      FlightStep(c, s);
    }
  }

  /** An access that ends its stage. */
  lemma StageEndKeeps(c: KernelConfig, s: Machine, n: Machine)
    requires MachineInv(c, s) && s.kernel.op.Some? && OpOk(c, s.kernel.op.value) && Within(c, s.kernel.model, s.kernel.op.value.stage)
    requires Models.Ready(c, s.kernel.model) && Advanceable(c, s.kernel.model, s.kernel.op.value.stage)
    requires s.kernel.op.value.step + 1 >= Steps(c, s.kernel.op.value.stage)
    requires n.mem == MemAfter(c, s.mem, AccessDue(c, s.kernel.op.value)) && n.births == BirthsAfter(c, s)
    requires Kept(Admitted(s.kernel.model, s.kernel.op.value.stage).procs, n.kernel.model.procs)
    requires n.kernel.model.source == s.kernel.model.source && (n.kernel.op.Some? ==> n.kernel.op.value.step == 0)
    ensures LivesOk(c, n) && FlightOk(c, n)
  {
    hide MachineInv, LivesOk, OpOk, AccessDue, Kept, MemAfter, Within, TablesAt, ValidSource, AdmitNew, FlightBoot;
    FlightStarts(c, n);
    AccessKeepsLives(c, s);
    var st, t := s.kernel.op.value.stage, s.(mem := n.mem);
    if st.Create? || st.Load? {
      AdmittedLives(c, s, n.mem);
      AdmittedReady(c, s.kernel.model, st);
      LivesMove(c, Machine(n.mem, Kernel(Admitted(s.kernel.model, st), None), s.uart, s.mark, n.births), n);
    } else {
      LivesMove(c, t, n);
    }
  }

  /** Admitting the created process adds a live process whose tables are finished. */
  lemma AdmittedLives(c: KernelConfig, s: Machine, mem: Memory)
    requires MachineInv(c, s) && s.kernel.op.Some? && OpOk(c, s.kernel.op.value) && Within(c, s.kernel.model, s.kernel.op.value.stage)
    requires Models.Ready(c, s.kernel.model) && Advanceable(c, s.kernel.model, s.kernel.op.value.stage)
    requires s.kernel.op.value.stage.Create? || s.kernel.op.value.stage.Load?
    requires s.kernel.op.value.step + 1 >= Steps(c, s.kernel.op.value.stage)
    requires mem == MemAfter(c, s.mem, AccessDue(c, s.kernel.op.value)) && LivesOk(c, s.(mem := mem))
    ensures LivesOk(c, Machine(mem, Kernel(Admitted(s.kernel.model, s.kernel.op.value.stage), None), s.uart, s.mark, BirthsAfter(c, s)))
  {
    hide MachineInv, OpOk, AccessDue, MemAfter, Within, TablesAt, ValidSource, Admitted, FlightBoot, Creation, Buildable, Built, LiveOk, StageFits, SpaceRun.Steps;
    var op, m := s.kernel.op.value, s.kernel.model;
    HasLives(c, s);
    FlightStep(c, s);
    FlightCreation(c, s.kernel);
    FlightOwns(c, s.kernel, 0);
    CreationAccess(c, op);
    AdmittedIs(c, s.kernel);
    AdmittedReady(c, m, op.stage);
    var b, pid := Birth(FlightBoot(c, m, op.stage), op.stage.space.frames), InFlight(op.stage).value.pid;
    var n := Machine(mem, Kernel(Admitted(m, op.stage), None), s.uart, s.mark, s.births[pid := b]);
    var pcbs := n.kernel.model.procs.pcbs;
    forall i | 0 <= i < |pcbs| ensures LiveAt(c, n, pcbs[i]) {
      if i < |m.procs.pcbs| {
        assert LiveAt(c, s.(mem := mem), m.procs.pcbs[i]);
      } else {
        BornLive(c, m.source.layout, mem, pcbs[i], b, op.stage.space);
      }
    }
  }

  lemma BornLive(c: KernelConfig, l: UserLayout, mem: Memory, p: Pcb, b: Birth, s: Space)
    requires Creation(c, l, b.boot, b.frames) && Buildable(c, l, b.boot, b.frames) && s == Built(c, l, b.boot, b.frames)
    requires TablesAt(mem, s, SpaceRun.Steps(s)) && p.root == s.root && p.tables == s.tables && p.regions == s.regions
    ensures LiveOk(c, l, mem, p, b)
  {
  }

  /** The process a creation admits: the last in the table, in the creation's space. */
  lemma AdmittedIs(c: KernelConfig, k: Kernel)
    requires Inv(c, k) && k.op.Some? && (k.op.value.stage.Create? || k.op.value.stage.Load?)
    requires Models.Ready(c, k.model) && Advanceable(c, k.model, k.op.value.stage) && InFlight(k.op.value.stage).Some?
    ensures var a, st := Admitted(k.model, k.op.value.stage), k.op.value.stage;
      && |a.procs.pcbs| == |k.model.procs.pcbs| + 1 && a.procs.pcbs[..|k.model.procs.pcbs|] == k.model.procs.pcbs
      && var q := a.procs.pcbs[|k.model.procs.pcbs|];
         q.pid == InFlight(st).value.pid && q.root == st.space.root && q.tables == st.space.tables && q.regions == st.space.regions
  {
    hide Consistent, ValidSource, SpaceFor, AdmitNew, OpOk, U.Parsed;
    var m, st := k.model, k.op.value.stage;
    if st.Create? {
      AdmitGood(c, m, m.source.images[st.pid - 1], st.pid, m.source.images[st.pid - 1].image.entry, st.space);
    } else {
      AdmitGood(c, m, Staging(c, st.cursor.Entry().value.byteLen, st.image), st.cursor.index + 1, st.image.entry, st.space);
    }
  }

  /** Everything that can happen keeps the machine's invariant. */
  lemma HappenKeeps(c: KernelConfig, s: Machine, h: Happening)
    requires MachineInv(c, s) && Possible(c, s, h)
    ensures MachineInv(c, Happen(c, s, h))
  {
    hide Happen, MachineInv, Possible;
    match h
    case UserStore(_, _, _, _) => UserKeeps(c, s, h);
    case KernelEnter(_) => EnterKeeps(c, s, h);
    case KernelAccess(_) => AccessKeeps(c, s, h);
    case FrameStore(_, _) => FrameKeeps(c, s, h);
    case StagingStore(_, _) => StagingKeeps(c, s, h);
  }

  // ----- Isolation -----

  /** Page tables never change: whatever happens, the tables of every process live before it hold the same bytes after
      it. */
  lemma TablesNeverChange(c: KernelConfig, s: Machine, h: Happening, i: nat)
    requires MachineInv(c, s) && Possible(c, s, h)
    requires i < |s.kernel.model.procs.pcbs| && !s.kernel.model.procs.pcbs[i].state.Terminal()
    ensures SameOn(s.mem, Happen(c, s, h).mem, Tables(s.kernel.model.procs.pcbs[i]))
  {
    hide Inv, LivesOk, DevicesApart, PlansInPage, FlightOk, KernelAfter, StoreAt, OpOk, AccessDue, Steps, BirthsAfter, Writing, Avoids, KernelConfig.Frame;
    var ts := Tables(s.kernel.model.procs.pcbs[i]);
    match h
    case UserStore(va, data, sum, mxr) =>
      UserMisses(c, s, va, data, sum, mxr);
      var r := StoreAt(c, s, va, sum, mxr);
      if r.Ok? {
        MissedSame(s.mem, r.value, data, ts);
      }
    case KernelEnter(_) =>
    case KernelAccess(_) =>
      var a := AccessDue(c, s.kernel.op.value);
      KernelMisses(c, s);
      if a.Write? && InRam(c, a) {
        MissedSame(s.mem, a.addr, a.data, ts);
      }
    case FrameStore(addr, bytes) =>
      OutsideMisses(c, s, addr, bytes);
      MissedSame(s.mem, addr, bytes, ts);
    case StagingStore(addr, bytes) =>
      OutsideMisses(c, s, addr, bytes);
      MissedSame(s.mem, addr, bytes, ts);
  }

  /** The frames of a process's page tables. */
  function Tables(p: Pcb): set<int> {
    set k | 0 <= k < |p.tables| :: p.tables[k] as int
  }

  lemma MissedSame(mem: Memory, addr: int, data: seq<Byte>, ts: set<int>)
    requires Avoids(addr, data, ts)
    ensures SameOn(mem, Poke(mem, addr, data), ts)
  {
    hide PageOf;
  }

  /** A U-mode access reaches only frames of its own process, and frames of a process are reached through its own root
      alone. */
  lemma OwnFramesOnly(c: KernelConfig, s: Machine, i: nat, va: Word, ctx: Sv32.Context)
    requires MachineInv(c, s) && ctx.privilege == Sv32.User
    requires i < |s.kernel.model.procs.pcbs| && !s.kernel.model.procs.pcbs[i].state.Terminal()
    ensures var r := Sv32.Translated(Satp(s.kernel.model.procs.pcbs[i].root), ctx, va, RamReader(c, s.mem));
      r.Ok? ==> s.kernel.model.procs.frames.Owner(PageOf(r.value)) == Some(s.kernel.model.procs.pcbs[i].pid)
                && PageOf(r.value) !in Tables(s.kernel.model.procs.pcbs[i])
  {
    hide Inv, LivesOk, DevicesApart, PlansInPage, FlightOk, RamReader, Sv32.Translated, InPool, PageOf;
    UserReaches(c, s, i, va, ctx);
  }

  /** Two live processes never reach a common physical page. */
  lemma NoCommonPage(c: KernelConfig, s: Machine, i: nat, j: nat, va: Word, vb: Word, ca: Sv32.Context, cb: Sv32.Context)
    requires MachineInv(c, s) && ca.privilege == Sv32.User && cb.privilege == Sv32.User
    requires i < |s.kernel.model.procs.pcbs| && !s.kernel.model.procs.pcbs[i].state.Terminal()
    requires j < |s.kernel.model.procs.pcbs| && !s.kernel.model.procs.pcbs[j].state.Terminal() && i != j
    ensures var a := Sv32.Translated(Satp(s.kernel.model.procs.pcbs[i].root), ca, va, RamReader(c, s.mem));
      var b := Sv32.Translated(Satp(s.kernel.model.procs.pcbs[j].root), cb, vb, RamReader(c, s.mem));
      a.Ok? && b.Ok? ==> PageOf(a.value) != PageOf(b.value)
  {
    hide Inv, LivesOk, DevicesApart, PlansInPage, FlightOk, RamReader, Sv32.Translated, Tables, PageOf;
    OwnFramesOnly(c, s, i, va, ca);
    OwnFramesOnly(c, s, j, vb, cb);
    PidsDistinct(c, s.kernel, i, j);
  }

  // ----- Whole runs -----

  /** The machine after a run of happenings, as long as each is possible. */
  ghost function Runs(c: KernelConfig, s: Machine, hs: seq<Happening>): (r: Option<Machine>)
    requires MachineInv(c, s)
    ensures r.Some? ==> MachineInv(c, r.value)
  {
    if hs == [] then Some(s)
    else
      var before := Runs(c, s, hs[..|hs| - 1]);
      var h := hs[|hs| - 1];
      if before.None? || !Possible(c, before.value, h) then None
      else
        HappenKeeps(c, before.value, h);
        Some(Happen(c, before.value, h))
  }

  /** Process `i` of `s` is alive in `n`, in the same place, with the same page tables. */
  ghost predicate Untouched(s: Machine, n: Machine, i: nat) {
    && i < |s.kernel.model.procs.pcbs| && i < |n.kernel.model.procs.pcbs|
    && var p, q := s.kernel.model.procs.pcbs[i], n.kernel.model.procs.pcbs[i];
       && q.pid == p.pid
       && (!q.state.Terminal() ==> !p.state.Terminal() && q.root == p.root && q.tables == p.tables && SameOn(s.mem, n.mem, Tables(p)))
  }

  lemma MovesKept(c: KernelConfig, s: Machine, h: Happening, i: nat)
    requires MachineInv(c, s) && Possible(c, s, h) && i < |s.kernel.model.procs.pcbs|
    ensures var n := Happen(c, s, h);
      i < |n.kernel.model.procs.pcbs| && SamePlace(s.kernel.model.procs.pcbs[i], n.kernel.model.procs.pcbs[i])
  {
    hide Inv, LivesOk, DevicesApart, PlansInPage, FlightOk, KernelAfter, StoreAt, OpOk, AccessDue, Steps, BirthsAfter, Writing, KernelConfig.Frame, Admitted, Models.Ready, Advanceable;
    match h
    case UserStore(_, _, _, _) =>
    case KernelEnter(_) => EnterMoves(c, s, h);
    case KernelAccess(_) =>
      EventAllowed(c, s, h);
      AccessMoves(c, s, h);
      AdmittedKeeps(c, s.kernel, i);
    case FrameStore(_, _) =>
    case StagingStore(_, _) =>
  }

  lemma AdmittedKeeps(c: KernelConfig, k: Kernel, i: nat)
    requires Inv(c, k) && k.op.Some? && i < |k.model.procs.pcbs|
    requires Models.Ready(c, k.model) && Advanceable(c, k.model, k.op.value.stage)
    ensures var a := Admitted(k.model, k.op.value.stage); i < |a.procs.pcbs| && a.procs.pcbs[i] == k.model.procs.pcbs[i]
  {
    hide Inv, ValidSource, AdmitNew;
    var st := k.op.value.stage;
    if st.Create? || st.Load? {
      FlightOwns(c, k, 0);
      AdmittedIs(c, k);
      assert Admitted(k.model, st).procs.pcbs[i] == Admitted(k.model, st).procs.pcbs[..|k.model.procs.pcbs|][i];
    }
  }

  /** Over any run, of user stores, kernel operations, further creations, trampoline stores and disk transfers, a
      process that is alive at the end was alive all along, in the same tables, and not one of their bytes changed. */
  lemma {:induction false} RunsIsolate(c: KernelConfig, s: Machine, hs: seq<Happening>, i: nat)
    requires MachineInv(c, s) && i < |s.kernel.model.procs.pcbs|
    ensures Runs(c, s, hs).Some? ==> Untouched(s, Runs(c, s, hs).value, i)
  {
    hide MachineInv, Possible, Happen, SameOn, Tables;
    if hs == [] {
      SameAsBefore(s.mem, Tables(s.kernel.model.procs.pcbs[i]));
    } else {
      var front, h := hs[..|hs| - 1], hs[|hs| - 1];
      RunsIsolate(c, s, front, i);
      if Runs(c, s, hs).Some? {
        var before := Runs(c, s, front).value;
        HasLives(c, before);
        MovesKept(c, before, h, i);
        if !Happen(c, before, h).kernel.model.procs.pcbs[i].state.Terminal() {
          TablesNeverChange(c, before, h, i);
          SameTwice(s.mem, before.mem, Happen(c, before, h).mem, s.kernel.model.procs.pcbs[i], before.kernel.model.procs.pcbs[i]);
        }
      }
    }
  }

  lemma SameAsBefore(m: Memory, ts: set<int>)
    ensures SameOn(m, m, ts)
  {
  }

  lemma SameTwice(a: Memory, b: Memory, d: Memory, p: Pcb, q: Pcb)
    requires p.tables == q.tables && SameOn(a, b, Tables(p)) && SameOn(b, d, Tables(q))
    ensures SameOn(a, d, Tables(p))
  {
  }

  /** The machine before boot. */
  lemma FreshMachine(c: KernelConfig, k: Kernel, mem: Memory)
    requires Fresh(c, k) && DevicesApart(c) && PlansInPage(k.model.source)
    ensures MachineInv(c, Machine(mem, k, [], [], map[]))
  {
    hide PlansInPage, DevicesApart;
    FreshInv(c, k);
  }
}
