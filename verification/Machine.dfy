/** The whole machine: memory, the kernel, the running user process, the trampoline and the disk, and the isolation of
    processes over every run. */
module Machines {
  import opened Words
  import opened Memory
  import opened Core
  import opened Config
  import opened Image
  import opened Space
  import opened SpaceExact
  import opened SpaceWalk
  import opened Creations
  import opened SpaceTables
  import opened Processes
  import opened ProcOps
  import opened Models
  import opened ModelRun
  import SpaceRun
  import Sv32
  import U = UserElf
  import UX = UserElfExact

  /** The image and the frames a process was created from. */
  datatype Birth = Birth(boot: BootImage, frames: seq<Word>)

  /** `births` is a history variable: how each admitted process began. `mark` is the UART output when the current
      `write`, if there is one, began. */
  datatype Machine = Machine(mem: Memory, kernel: Kernel, uart: seq<Byte>, mark: seq<Byte>, births: map<Word, Birth>)

  datatype Happening =
    | UserStore(va: Word, data: seq<Byte>, sum: bool, mxr: bool)
    | KernelEnter(value: Word)
    | KernelAccess(device: seq<Byte>)
    | FrameStore(addr: int, bytes: seq<Byte>)
    | StagingStore(addr: int, bytes: seq<Byte>)

  // ----- The platform -----

  /** The builder's invariant: the devices are outside RAM. */
  ghost predicate DevicesApart(c: KernelConfig) {
    !c.ram.Overlaps(c.blk.base, c.blk.size) && !c.ram.Has(c.uartTx)
  }

  predicate InRam(c: KernelConfig, a: Core.Access) {
    c.ram.base <= a.addr && a.addr + a.Len() <= c.ram.base + c.ram.size
  }

  /** RAM answers with its bytes; a device read returns whatever the device says. */
  function Reply(c: KernelConfig, m: Memory, a: Core.Access, device: seq<Byte>): Completion {
    match a
    case Read(addr, len) => if InRam(c, a) then Data(Slice(m, addr, len)) else Data(device)
    case Write(_, _) => Written
  }

  function MemAfter(c: KernelConfig, m: Memory, a: Core.Access): Memory {
    if InRam(c, a) then Apply(m, a) else m
  }

  function UartAfter(c: KernelConfig, uart: seq<Byte>, a: Core.Access): seq<Byte> {
    if a.Write? && a.addr == c.uartTx then uart + a.data else uart
  }

  // ----- Steps -----

  /** The kernel can take the access that is due. */
  ghost predicate Due(c: KernelConfig, k: Kernel) {
    Inv(c, k) && k.op.Some? && OpOk(c, k.op.value)
  }

  predicate Within32(va: Word, data: seq<Byte>) {
    1 <= |data| <= 4 && va % PAGE + |data| <= PAGE
  }

  /** A user store comes only while a process runs, a trampoline store only between operations and inside the trap
      frame, a disk transfer only into staging. */
  ghost predicate Possible(c: KernelConfig, s: Machine, h: Happening)
    requires Inv(c, s.kernel)
  {
    match h
    case UserStore(va, data, _, _) => s.kernel.op.None? && s.kernel.model.life == Up && Within32(va, data)
    case KernelEnter(_) => s.kernel.op.None? && s.kernel.model.life != Down
    case KernelAccess(device) => Due(c, s.kernel) && |device| == AccessDue(c, s.kernel.op.value).Len()
    case FrameStore(addr, bytes) => s.kernel.op.None? && forall x :: addr <= x < addr + |bytes| ==> c.Frame().Has(x)
    case StagingStore(addr, bytes) => forall x :: addr <= x < addr + |bytes| ==> c.staging.Has(x)
  }

  /** Where a store by the running process lands. */
  ghost function StoreAt(c: KernelConfig, s: Machine, va: Word, sum: bool, mxr: bool): Result<int, Sv32.Fault> {
    match RunningRoot(s.kernel.model)
    case Ok(root) => Sv32.Translated(Satp(root), Sv32.Context(Sv32.User, sum, mxr, Sv32.Store), va, RamReader(c, s.mem))
    case Err(_) => Err(Sv32.PageFault)
  }

  /** The births after an access: a creation's last one admits its process. */
  ghost function BirthsAfter(c: KernelConfig, s: Machine): map<Word, Birth>
    requires s.kernel.op.Some? && OpOk(c, s.kernel.op.value) && Within(c, s.kernel.model, s.kernel.op.value.stage)
  {
    var op := s.kernel.op.value;
    if (op.stage.Create? || op.stage.Load?) && op.step + 1 == Steps(c, op.stage)
    then s.births[InFlight(op.stage).value.pid := Birth(FlightBoot(c, s.kernel.model, op.stage), op.stage.space.frames)]
    else s.births
  }

  /** The image a creation builds. */
  ghost function FlightBoot(c: KernelConfig, m: Model, s: Stage): BootImage
    requires (s.Create? || s.Load?) && StageOk(s) && StageFits(c, m, s)
  {
    if s.Create? then m.source.images[s.pid - 1] else Staging(c, s.cursor.Entry().value.byteLen, s.image)
  }

  predicate Writing(k: Kernel) {
    k.op.Some? && (k.op.value.stage.Walk? || k.op.value.stage.Output?)
  }

  ghost function KernelEvent(c: KernelConfig, s: Machine, h: Happening): ModelRun.Event
    requires Inv(c, s.kernel) && Possible(c, s, h) && (h.KernelEnter? || h.KernelAccess?)
  {
    match h
    case KernelEnter(value) => Enter(value)
    case KernelAccess(device) => Answered(Reply(c, s.mem, AccessDue(c, s.kernel.op.value), device))
  }

  /** The event is one the kernel may get, and it is no violation. */
  lemma EventAllowed(c: KernelConfig, s: Machine, h: Happening)
    requires Inv(c, s.kernel) && Possible(c, s, h) && (h.KernelEnter? || h.KernelAccess?)
    ensures Models.Ready(c, s.kernel.model)
    ensures s.kernel.op.Some? ==> OpOk(c, s.kernel.op.value) && Advanceable(c, s.kernel.model, s.kernel.op.value.stage)
    ensures Allowed(c, s.kernel, KernelEvent(c, s, h))
    ensures var r := Step(c, s.kernel, KernelEvent(c, s, h)); r.Ok? && Inv(c, r.value)
  {
    hide Inv, Models.Ready, Advanceable, OpOk, AccessOf, Step, RamReader;
    InvReady(c, s.kernel);
    StepKeeps(c, s.kernel, KernelEvent(c, s, h));
  }

  ghost function KernelAfter(c: KernelConfig, s: Machine, h: Happening): Kernel
    requires Inv(c, s.kernel) && Possible(c, s, h) && (h.KernelEnter? || h.KernelAccess?)
  {
    EventAllowed(c, s, h);
    Step(c, s.kernel, KernelEvent(c, s, h)).value
  }

  /** One thing that happens. */
  ghost function Happen(c: KernelConfig, s: Machine, h: Happening): Machine
    requires Inv(c, s.kernel) && Possible(c, s, h)
  {
    match h
    case UserStore(va, data, sum, mxr) =>
      var r := StoreAt(c, s, va, sum, mxr);
      if r.Ok? then s.(mem := Poke(s.mem, r.value, data)) else s
    case KernelEnter(_) =>
      var k := KernelAfter(c, s, h);
      s.(kernel := k, mark := s.uart)
    case KernelAccess(_) =>
      var a, k := AccessDue(c, s.kernel.op.value), KernelAfter(c, s, h);
      var uart := UartAfter(c, s.uart, a);
      Machine(MemAfter(c, s.mem, a), k, uart, if Writing(k) && Writing(s.kernel) then s.mark else uart, BirthsAfter(c, s))
    case FrameStore(addr, bytes) => s.(mem := Poke(s.mem, addr, bytes))
    case StagingStore(addr, bytes) => s.(mem := Poke(s.mem, addr, bytes))
  }

  // ----- The invariant -----

  /** No plan's copy leaves its page; the parser guarantees it for disk images. */
  predicate PlansInPage(s: Source) {
    s.Plan? ==> forall i :: 0 <= i < |s.images| ==> CopiesInPage(s.images[i].image)
  }

  /** A live process: its tables are those of its creation, finished. */
  ghost predicate LiveOk(c: KernelConfig, l: UserLayout, mem: Memory, p: Pcb, b: Birth) {
    && Creation(c, l, b.boot, b.frames) && Buildable(c, l, b.boot, b.frames)
    && var s := Built(c, l, b.boot, b.frames);
       p.root == s.root && p.tables == s.tables && p.regions == s.regions && TablesAt(mem, s, SpaceRun.Steps(s))
  }

  ghost predicate LivesOk(c: KernelConfig, s: Machine) {
    forall i :: 0 <= i < |s.kernel.model.procs.pcbs| ==> LiveAt(c, s, s.kernel.model.procs.pcbs[i])
  }

  ghost predicate LiveAt(c: KernelConfig, s: Machine, p: Pcb) {
    p.state.Terminal() || (p.pid in s.births && LiveOk(c, s.kernel.model.source.layout, s.mem, p, s.births[p.pid]))
  }

  /** A creation in flight: its tables are those of its accesses so far. */
  ghost predicate FlightOk(c: KernelConfig, s: Machine) {
    s.kernel.op.Some? ==>
      var op := s.kernel.op.value;
      (op.stage.Create? || op.stage.Load?) ==> op.step <= SpaceRun.Steps(op.stage.space) && TablesAt(s.mem, op.stage.space, op.step)
  }

  ghost predicate MachineInv(c: KernelConfig, s: Machine) {
    && DevicesApart(c) && PlansInPage(s.kernel.model.source) && Inv(c, s.kernel) && LivesOk(c, s) && FlightOk(c, s)
  }

  // ----- Who owns what -----

  /** The frames of a live process's space are its own. */
  lemma LiveOwns(c: KernelConfig, s: Machine, i: nat, f: int)
    requires Inv(c, s.kernel) && LivesOk(c, s) && i < |s.kernel.model.procs.pcbs| && !s.kernel.model.procs.pcbs[i].state.Terminal()
    requires var p := s.kernel.model.procs.pcbs[i];
      f in SpaceRun.FrameSet(Built(c, s.kernel.model.source.layout, s.births[p.pid].boot, s.births[p.pid].frames))
    ensures s.kernel.model.procs.frames.Owner(f) == Some(s.kernel.model.procs.pcbs[i].pid)
  {
    hide Consistent, Creation, Built, TablesAt, ValidSource, Within, AtRest, Buildable, RegionFrames, IndexOf;
    var p, l := s.kernel.model.procs.pcbs[i], s.kernel.model.source.layout;
    var b := s.births[p.pid];
    assert LiveAt(c, s, p);
    CreationAscends(c, l, b.boot, b.frames);
    FramesExact(c, l, b.boot, b.frames);
    assert f in multiset(b.frames);
    assert f in multiset(p.Held());
    KernelOwns(c, s.kernel, i);
  }

  lemma CreationAscends(c: KernelConfig, l: UserLayout, b: BootImage, frames: seq<Word>)
    requires Creation(c, l, b, frames)
    ensures Ascending(frames) && ValidLayout(c, l) && l.StackBase().Some?
  {
  }

  lemma KernelOwns(c: KernelConfig, k: Kernel, i: nat)
    requires Inv(c, k) && i < |k.model.procs.pcbs|
    ensures Owns(k.model.procs.frames, k.model.procs.pcbs[i].pid, k.model.procs.pcbs[i].Held())
    ensures k.model.procs.pcbs[i].pid >= 1
  {
    hide ValidSource, StageFits, OpOk, IndexOf, QueueOk, Owns, Pcb.Held;
    InvSound(c, k);
  }

  lemma PidsDistinct(c: KernelConfig, k: Kernel, i: nat, j: nat)
    requires Inv(c, k) && i < |k.model.procs.pcbs| && j < |k.model.procs.pcbs|
    ensures k.model.procs.pcbs[i].pid == k.model.procs.pcbs[j].pid ==> i == j
  {
    hide ValidSource, StageFits, OpOk, IndexOf, QueueOk, OwnersOk;
    InvSound(c, k);
  }

  /** The frames of a creation in flight are its own, and its PID is in no PCB. */
  lemma FlightOwns(c: KernelConfig, k: Kernel, f: int)
    requires Inv(c, k) && k.op.Some? && (k.op.value.stage.Create? || k.op.value.stage.Load?)
    ensures InFlight(k.op.value.stage).Some?
    ensures f in SpaceRun.FrameSet(k.op.value.stage.space) ==> k.model.procs.frames.Owner(f) == Some(InFlight(k.op.value.stage).value.pid)
    ensures forall i :: 0 <= i < |k.model.procs.pcbs| ==> k.model.procs.pcbs[i].pid != InFlight(k.op.value.stage).value.pid
  {
    hide ValidSource, OpOk, IndexOf, QueueOk, SpaceFor, U.Parsed;
    InvSound(c, k);
  }

  // ----- Stores that miss the tables -----

  /** A byte outside the frame pool is in no page of the pool. */
  lemma OutsidePool(c: KernelConfig, l: UserLayout, addr: int, data: seq<Byte>, ts: set<int>)
    requires ValidLayout(c, l) && forall t :: t in ts ==> InPool(c, t)
    requires forall x :: addr <= x < addr + |data| ==> c.staging.Has(x) || c.Frame().Has(x)
    ensures Avoids(addr, data, ts)
  {
    hide ValidLayout, KernelConfig.Frame, PageOf, InPool;
    forall x | addr <= x < addr + |data| ensures PageOf(x) !in ts {
      NotPoolByte(c, l, x);
    }
  }

  lemma NotPoolByte(c: KernelConfig, l: UserLayout, x: int)
    requires ValidLayout(c, l) && (c.staging.Has(x) || c.Frame().Has(x))
    ensures !InPool(c, PageOf(x))
  {
    hide ValidLayout, KernelConfig.Frame;
    assert PAGE * PageOf(x) <= x < PAGE * PageOf(x) + PAGE;
    if InPool(c, PageOf(x)) {
      PoolFacts(c, l, PageOf(x));
    }
  }

  /** What a store must miss to leave every process as it was: the tables of the live ones. */
  ghost predicate Misses(c: KernelConfig, s: Machine, addr: int, data: seq<Byte>) {
    forall i :: 0 <= i < |s.kernel.model.procs.pcbs| && !s.kernel.model.procs.pcbs[i].state.Terminal()
      ==> MissesTables(addr, data, s.kernel.model.procs.pcbs[i].tables)
  }

  ghost predicate MissesTables(addr: int, data: seq<Byte>, tables: seq<Word>) {
    Avoids(addr, data, set i | 0 <= i < |tables| :: tables[i] as int)
  }

  lemma TablesKept(mem: Memory, s: Space, n: nat, addr: int, data: seq<Byte>)
    requires n <= SpaceRun.Steps(s) && TablesAt(mem, s, n) && Avoids(addr, data, TableSet(s))
    ensures TablesAt(Poke(mem, addr, data), s, n)
  {
    hide SpaceRun.After, SameOn, Avoids;
    var m0: Memory :| SameOn(mem, SpaceRun.After(s, m0, n).mem, TableSet(s));
    AvoidsKeeps(mem, SpaceRun.After(s, m0, n).mem, addr, data, TableSet(s));
  }

  /** A store that misses every table keeps every live process. */
  lemma StoreKeepsLives(c: KernelConfig, s: Machine, addr: int, data: seq<Byte>)
    requires LivesOk(c, s) && Misses(c, s, addr, data)
    ensures LivesOk(c, s.(mem := Poke(s.mem, addr, data)))
  {
    hide Creation, Built, TablesAt, Buildable, Avoids;
    var n, l := s.(mem := Poke(s.mem, addr, data)), s.kernel.model.source.layout;
    forall i | 0 <= i < |s.kernel.model.procs.pcbs| ensures LiveAt(c, n, n.kernel.model.procs.pcbs[i]) {
      var p := s.kernel.model.procs.pcbs[i];
      assert LiveAt(c, s, p);
      if !p.state.Terminal() {
        var b := s.births[p.pid];
        TablesKept(s.mem, Built(c, l, b.boot, b.frames), SpaceRun.Steps(Built(c, l, b.boot, b.frames)), addr, data);
      }
    }
  }

  lemma LiveTables(c: KernelConfig, s: Machine, i: nat)
    requires Inv(c, s.kernel) && LivesOk(c, s) && i < |s.kernel.model.procs.pcbs| && !s.kernel.model.procs.pcbs[i].state.Terminal()
    ensures var p, l := s.kernel.model.procs.pcbs[i], s.kernel.model.source.layout;
      && p.pid in s.births && LiveOk(c, l, s.mem, p, s.births[p.pid])
      && var ts := TableSet(Built(c, l, s.births[p.pid].boot, s.births[p.pid].frames));
         && ts == (set k | 0 <= k < |p.tables| :: p.tables[k] as int)
         && (forall t :: t in ts ==> InPool(c, t) && s.kernel.model.procs.frames.Owner(t) == Some(p.pid))
  {
    hide Creation, Built, TablesAt, Buildable, Inv, PageFrames, InPool;
    var p, l := s.kernel.model.procs.pcbs[i], s.kernel.model.source.layout;
    assert LiveAt(c, s, p);
    var b := s.births[p.pid];
    TableSetIs(c, l, b.boot, b.frames);
    forall t | t in TableSet(Built(c, l, b.boot, b.frames)) ensures s.kernel.model.procs.frames.Owner(t) == Some(p.pid) {
      LiveOwns(c, s, i, t);
    }
  }


  /** Bytes of the trap frame and of staging are in no process's tables. */
  lemma OutsideMisses(c: KernelConfig, s: Machine, addr: int, data: seq<Byte>)
    requires Inv(c, s.kernel) && LivesOk(c, s)
    requires forall x :: addr <= x < addr + |data| ==> c.staging.Has(x) || c.Frame().Has(x)
    ensures Misses(c, s, addr, data)
  {
    hide Inv, LivesOk, LiveOk, InPool, KernelConfig.Frame, Avoids, Built, TableSet;
    LayoutOk(c, s.kernel);
    forall i | 0 <= i < |s.kernel.model.procs.pcbs| && !s.kernel.model.procs.pcbs[i].state.Terminal()
      ensures MissesTables(addr, data, s.kernel.model.procs.pcbs[i].tables)
    {
      LiveTables(c, s, i);
      var p := s.kernel.model.procs.pcbs[i];
      OutsidePool(c, s.kernel.model.source.layout, addr, data, set k | 0 <= k < |p.tables| :: p.tables[k] as int);
    }
  }

  lemma LayoutOk(c: KernelConfig, k: Kernel)
    requires Inv(c, k)
    ensures ValidLayout(c, k.model.source.layout) && ValidSource(c, k.model.source)
  {
    hide Consistent, StageFits, OpOk, ValidLayout;
    InvSound(c, k);
  }

  // ----- User stores -----

  lemma RunningLive(c: KernelConfig, k: Kernel)
    requires Inv(c, k) && k.op.None? && k.model.life == Up
    ensures k.model.procs.current.Some?
    ensures var i := IndexOf(k.model.procs.pcbs, k.model.procs.current.value);
      i < |k.model.procs.pcbs| && k.model.procs.pcbs[i].state == Running && RunningRoot(k.model) == Ok(k.model.procs.pcbs[i].root)
  {
    hide ValidSource, IndexOf, OwnersOk, QueueOk;
  }

  /** A translation from a live process's root, in any U-mode context, stays in its own page frames. */
  lemma UserReaches(c: KernelConfig, s: Machine, i: nat, va: Word, ctx: Sv32.Context)
    requires Inv(c, s.kernel) && LivesOk(c, s) && i < |s.kernel.model.procs.pcbs| && !s.kernel.model.procs.pcbs[i].state.Terminal()
    requires ctx.privilege == Sv32.User
    ensures var p := s.kernel.model.procs.pcbs[i];
      var r := Sv32.Translated(Satp(p.root), ctx, va, RamReader(c, s.mem));
      && (r.Err? ==> r == Err(Sv32.PageFault))
      && (r.Ok? ==> && s.kernel.model.procs.frames.Owner(PageOf(r.value)) == Some(p.pid) && r.value % PAGE == va % PAGE
                    && InPool(c, PageOf(r.value)) && (forall k :: 0 <= k < |p.tables| ==> p.tables[k] != PageOf(r.value)))
  {
    hide Inv, LivesOk, Creation, Built, TablesAt, Buildable, InPool, FollowsPlan, Sv32.Translated, PageOf, PageFrames, RamReader, TableSet, SpaceRun.FrameSet;
    var p, l := s.kernel.model.procs.pcbs[i], s.kernel.model.source.layout;
    LiveTables(c, s, i);
    var b := s.births[p.pid];
    TablesDecide(c, l, b.boot, b.frames, s.mem, va, ctx);
    var r := Sv32.Translated(Satp(p.root), ctx, va, RamReader(c, s.mem));
    OnlyPageFaults(c, l, b, va, ctx, r);
    if r.Ok? {
      ReachesPages(c, l, b.boot, b.frames, va, ctx, r);
      LiveOwns(c, s, i, PageOf(r.value));
      SpaceInPool(c, l, b.boot, b.frames, PageOf(r.value));
    }
  }

  lemma SpaceInPool(c: KernelConfig, l: UserLayout, b: BootImage, frames: seq<Word>, f: int)
    requires Creation(c, l, b, frames) && Buildable(c, l, b, frames) && f in SpaceRun.FrameSet(Built(c, l, b, frames))
    ensures InPool(c, f)
  {
    hide Accepted, CopiesInPage, MegapageConflict, SlotSet, PlaceUpTo, Built, Pages, ValidLayout;
    BuiltIs(c, l, b, frames);
  }

  lemma OnlyPageFaults(c: KernelConfig, l: UserLayout, b: Birth, va: Word, ctx: Sv32.Context, r: Result<int, Sv32.Fault>)
    requires Creation(c, l, b.boot, b.frames) && Buildable(c, l, b.boot, b.frames)
    requires FollowsPlan(r, Pages(b.boot.image, l), b.frames, va, ctx)
    ensures r.Err? ==> r == Err(Sv32.PageFault)
  {
    hide FramesUsed, Grants, Pages, Accepted, CopiesInPage, MegapageConflict, ValidLayout;
  }

  /** A store by the running process misses every table. */
  lemma UserMisses(c: KernelConfig, s: Machine, va: Word, data: seq<Byte>, sum: bool, mxr: bool)
    requires MachineInv(c, s) && s.kernel.op.None? && s.kernel.model.life == Up && Within32(va, data)
    ensures var r := StoreAt(c, s, va, sum, mxr); r.Ok? ==> Misses(c, s, r.value, data)
  {
    hide Inv, LivesOk, LiveOk, InPool, Avoids, IndexOf, RamReader, Sv32.Translated, PageOf, Built, TableSet;
    RunningLive(c, s.kernel);
    var r, procs := StoreAt(c, s, va, sum, mxr), s.kernel.model.procs;
    if r.Ok? {
      var k := IndexOf(procs.pcbs, procs.current.value);
      UserReaches(c, s, k, va, Sv32.Context(Sv32.User, sum, mxr, Sv32.Store));
      forall i | 0 <= i < |procs.pcbs| && !procs.pcbs[i].state.Terminal() ensures MissesTables(r.value, data, procs.pcbs[i].tables) {
        LiveTables(c, s, i);
        PidsDistinct(c, s.kernel, i, k);
        var ts := set j | 0 <= j < |procs.pcbs[i].tables| :: procs.pcbs[i].tables[j] as int;
        assert PageOf(r.value) !in ts;
        PageAvoids(r.value, data, va, ts);
      }
    }
  }

  lemma PageAvoids(pa: int, data: seq<Byte>, va: Word, ts: set<int>)
    requires Within32(va, data) && pa % PAGE == va % PAGE && PageOf(pa) !in ts
    ensures Avoids(pa, data, ts)
  {
    forall x | pa <= x < pa + |data| ensures PageOf(x) == PageOf(pa) {
      PageSplit(x, PageOf(pa), x - PAGE * PageOf(pa));
    }
  }

  // ----- Kernel accesses -----

  lemma FlightCreation(c: KernelConfig, k: Kernel)
    requires Inv(c, k) && PlansInPage(k.model.source) && k.op.Some? && (k.op.value.stage.Create? || k.op.value.stage.Load?)
    ensures StageOk(k.op.value.stage) && StageFits(c, k.model, k.op.value.stage)
    ensures var b, s := FlightBoot(c, k.model, k.op.value.stage), k.op.value.stage.space;
      Creation(c, k.model.source.layout, b, s.frames) && Buildable(c, k.model.source.layout, b, s.frames)
      && s == Built(c, k.model.source.layout, b, s.frames)
  {
    hide Accepted, CopiesInPage, MegapageConflict, Built, ValidLayout, FramesNeeded, Consistent, U.Parsed, SpaceRun.Steps;
    var st := k.op.value.stage;
    if st.Load? {
      LayoutOk(c, k);
      EntryAccepted(c, k.model.source, st.cursor, st.headers);
    }
  }

  /** The trap-frame stages write inside the trap frame. */
  lemma FrameWrites(c: KernelConfig, op: ProcOp)
    requires OpOk(c, op) && (op.stage.Dispatch? || op.stage.Shutdown? || op.stage.Return?)
    ensures var a := AccessDue(c, op); a.Write? && forall x :: a.addr <= x < a.addr + |a.data| ==> c.Frame().Has(x)
  {
    hide Chunks, ToFrame, LeBytes;
    match op.stage
    case Dispatch(_, context, satp) => DispatchChunkInside(c, op.step);
    case Shutdown(_) => ChunkInside(c.trapFrame + FRAME_ACTION, 8, op.step);
    case Return(_, _) =>
  }

  lemma CreationAccess(c: KernelConfig, op: ProcOp)
    requires OpOk(c, op) && (op.stage.Create? || op.stage.Load?)
    ensures op.step < SpaceRun.Steps(op.stage.space) && |op.data| == SpaceRun.DataLen(op.stage.space, op.step)
    ensures AccessDue(c, op) == SpaceRun.AccessAt(op.stage.space, op.step, op.data).value
    ensures Steps(c, op.stage) == SpaceRun.Steps(op.stage.space)
  {
  }

  /** A kernel write to RAM misses the tables of every live process. */
  lemma KernelMisses(c: KernelConfig, s: Machine)
    requires MachineInv(c, s) && s.kernel.op.Some? && OpOk(c, s.kernel.op.value)
    ensures var a := AccessDue(c, s.kernel.op.value); a.Write? && InRam(c, a) ==> Misses(c, s, a.addr, a.data)
  {
    hide Inv, OpOk, AccessDue, Misses, LivesOk, SpaceRun.Steps;
    var op := s.kernel.op.value;
    var a := AccessDue(c, op);
    if a.Write? && InRam(c, a) {
      if op.stage.Create? || op.stage.Load? {
        CreationMisses(c, s);
      } else if op.stage.Dispatch? || op.stage.Shutdown? || op.stage.Return? {
        FrameWrites(c, op);
        OutsideMisses(c, s, a.addr, a.data);
      } else {
        DeviceWrites(c, s.kernel);
      }
    }
  }

  lemma CreationMisses(c: KernelConfig, s: Machine)
    requires MachineInv(c, s) && s.kernel.op.Some? && OpOk(c, s.kernel.op.value)
    requires s.kernel.op.value.stage.Create? || s.kernel.op.value.stage.Load?
    ensures var a := AccessDue(c, s.kernel.op.value); a.Write? ==> Misses(c, s, a.addr, a.data)
  {
    hide Inv, LivesOk, LiveOk, InPool, Avoids, IndexOf, Built, PageOf, SpaceRun.FrameSet, SpaceRun.AccessAt, SpaceRun.DataLen, SpaceRun.Steps, AccessDue, OpOk, Creation, Buildable, StageFits, Short, TableSet;
    var op := s.kernel.op.value;
    var a := AccessDue(c, op);
    if a.Write? {
      FlightCreation(c, s.kernel);
      CreationAccess(c, op);
      WritesHome(c, s.kernel.model.source.layout, FlightBoot(c, s.kernel.model, op.stage), op.stage.space.frames, op.step, op.data);
      FlightOwns(c, s.kernel, PageOf(a.addr));
      forall i | 0 <= i < |s.kernel.model.procs.pcbs| && !s.kernel.model.procs.pcbs[i].state.Terminal()
        ensures MissesTables(a.addr, a.data, s.kernel.model.procs.pcbs[i].tables)
      {
        LiveTables(c, s, i);
        var tables := s.kernel.model.procs.pcbs[i].tables;
        ShortAvoids(a.addr, a.data, set j | 0 <= j < |tables| :: tables[j] as int);
      }
    }
  }

  /** Every other write of the kernel is to a device. */
  lemma DeviceWrites(c: KernelConfig, k: Kernel)
    requires DevicesApart(c) && Inv(c, k) && k.op.Some? && OpOk(c, k.op.value)
    requires var st := k.op.value.stage; !(st.Create? || st.Load? || st.Dispatch? || st.Shutdown? || st.Return?)
    ensures var a := AccessDue(c, k.op.value); a.Write? ==> !InRam(c, a)
  {
    LayoutOk(c, k);
    hide Inv, Chunks, Sv32.PteAddress, ValidLayout, LeBytes;
    var st := k.op.value.stage;
    if st.Command? || st.Ack? {
      CursorDisk(c, k);
      BlkApart(c, k.model.source.layout, AccessDue(c, k.op.value).addr);
    }
  }

  lemma CursorDisk(c: KernelConfig, k: Kernel)
    requires Inv(c, k) && k.op.Some? && (k.op.value.stage.Command? || k.op.value.stage.Poll? || k.op.value.stage.Ack?)
    ensures k.model.source.Disk?
  {
    hide Consistent, ValidSource, OpOk;
  }

  lemma BlkApart(c: KernelConfig, l: UserLayout, a: int)
    requires DevicesApart(c) && ValidLayout(c, l) && c.blk.base <= a && a + 4 <= c.blk.base + c.blk.size
    ensures !(c.ram.base <= a && a + 4 <= c.ram.base + c.ram.size)
  {
  }
}
