/** A plan with a gap in a readable segment: a run in which the process writes from the page past the gap reaches a state
    whose snapshot the modeled kernel refuses. */
module GapRun {
  import opened Words
  import opened Memory
  import opened Core
  import opened Config
  import opened Image
  import opened Space
  import opened SpaceExact
  import opened UserCopy
  import opened Processes
  import opened ProcOps
  import opened Models
  import opened ModelRun
  import opened Machines
  import opened WriteRun
  import opened WriteExact
  import opened Gate
  import opened PermitsRun
  import opened KernelSnapshot
  import opened KernelRestore
  import Isolation
  import Permits
  import PermitsPlan
  import RegionImages
  import RestoreRun
  import SpaceRun
  import SpaceTables
  import SpaceWalk
  import Sv32
  import TrapFrames
  import WriteCalls
  import Writes

  // ----- Runs -----

  /** Some run leads from `s` to `n`. */
  ghost predicate Leads(c: KernelConfig, s: Machine, n: Machine) {
    MachineInv(c, s) && exists hs: seq<Happening> :: Isolation.Runs(c, s, hs) == Some(n)
  }

  /** A state a run from the boot `s` reaches. */
  ghost predicate After(c: KernelConfig, s: Machine, n: Machine) {
    Unbooted(c, s) && Leads(c, s, n)
  }

  lemma AfterBoot(c: KernelConfig, s: Machine)
    requires Unbooted(c, s)
    ensures After(c, s, s)
  {
    hide MachineInv, Unbooted, WriteOk;
    UnbootedSound(c, s);
    assert Isolation.Runs(c, s, []) == Some(s);
  }

  lemma AfterSound(c: KernelConfig, s: Machine, n: Machine)
    requires After(c, s, n)
    ensures Reached(c, n) && SoundMachine(c, n) && Inv(c, n.kernel) && RestoreRun.BirthsOk(n) && TrapFrames.FrameOk(c, n)
  {
    hide MachineInv, Unbooted, WriteOk, Isolation.Runs, TrapFrames.FrameOk, RestoreRun.BirthsOk, Inv;
    ReachedSound(c, n);
    RestoreRun.ReachedRest(c, n);
    TrapFrames.ReachedFrame(c, n);
    Isolation.HasLives(c, n);
  }

  lemma AfterMore(c: KernelConfig, s: Machine, n: Machine, h: Happening)
    requires After(c, s, n) && Inv(c, n.kernel) && Possible(c, n, h)
    ensures After(c, s, Happen(c, n, h))
  {
    hide MachineInv, Unbooted, Possible, Happen, Inv, Isolation.Runs;
    var hs: seq<Happening> :| Isolation.Runs(c, s, hs) == Some(n);
    OneMore(c, s, hs, h);
  }

  // ----- A stage runs to its end -----

  /** The access due, a device answering zeros. */
  ghost function Blank(c: KernelConfig, k: Kernel): Happening
    requires k.op.Some? && OpOk(c, k.op.value)
  {
    KernelAccess(PermitsPlan.Zeros(AccessDue(c, k.op.value).Len()))
  }

  /** The access due can happen. */
  lemma CanAccess(c: KernelConfig, s: Machine, n: Machine)
    requires After(c, s, n) && n.kernel.op.Some?
    ensures Inv(c, n.kernel) && OpOk(c, n.kernel.op.value) && StageOk(n.kernel.op.value.stage)
    ensures Possible(c, n, Blank(c, n.kernel)) && After(c, s, Happen(c, n, Blank(c, n.kernel)))
  {
    hide After, Inv, OpOk, AccessDue, Happen, SoundMachine, RestoreRun.BirthsOk, TrapFrames.FrameOk, StageOk;
    AfterSound(c, s, n);
    StageHolds(c, n.kernel);
    AfterMore(c, s, n, Blank(c, n.kernel));
  }

  /** Within a stage only the step moves. */
  lemma StepsOn(c: KernelConfig, s: Machine, n: Machine)
    requires After(c, s, n) && n.kernel.op.Some? && OpOk(c, n.kernel.op.value) && n.kernel.op.value.step + 1 < Steps(c, n.kernel.op.value.stage)
    requires Inv(c, n.kernel) && Possible(c, n, Blank(c, n.kernel))
    ensures var t, op := Happen(c, n, Blank(c, n.kernel)), n.kernel.op.value;
      && t.kernel.model == n.kernel.model && t.kernel.op.Some? && t.kernel.op.value.stage == op.stage && t.kernel.op.value.step == op.step + 1
      && (!op.stage.Create? && !op.stage.Load? ==> t.births == n.births) && (op.stage.ReadFrame? ==> t.mem == n.mem)
  {
    hide Inv, OpOk, AccessDue, Happen, MachineInv, WriteOk, RestoreRun.BirthsOk, TrapFrames.FrameOk, StageOk, Steps, After, Models.Ready, Advanceable, Blank, Possible, Takes, FrameChunks;
    AfterSound(c, s, n);
    var h := Blank(c, n.kernel);
    BlankIs(c, n.kernel);
    AccessIs(c, n, h);
    MovesOn(c, n, h);
    if n.kernel.op.value.stage.ReadFrame? {
      TrapFrames.FrameRead(c, n, h);
    }
  }

  lemma BlankIs(c: KernelConfig, k: Kernel)
    requires k.op.Some? && OpOk(c, k.op.value)
    ensures Blank(c, k).KernelAccess?
  {
  }

  lemma MovesOn(c: KernelConfig, s: Machine, h: Happening)
    requires MachineInv(c, s) && Possible(c, s, h) && h.KernelAccess?
    requires OpOk(c, s.kernel.op.value) && s.kernel.op.value.step + 1 < Steps(c, s.kernel.op.value.stage)
    ensures var t, op := Happen(c, s, h), s.kernel.op.value;
      t.kernel.model == s.kernel.model && t.kernel.op.Some? && t.kernel.op.value.stage == op.stage && t.kernel.op.value.step == op.step + 1
  {
    hide Inv, LivesOk, DevicesApart, PlansInPage, FlightOk, KernelAfter, OpOk, AccessDue, Steps, BirthsAfter, Writing, Models.Ready, Advanceable;
    EventAllowed(c, s, h);
    Isolation.AccessMoves(c, s, h);
  }

  /** The accesses of a stage up to its last. */
  lemma {:induction false} Finish(c: KernelConfig, s: Machine, n: Machine) returns (t: Machine)
    requires After(c, s, n) && n.kernel.op.Some? && OpOk(c, n.kernel.op.value)
    ensures After(c, s, t) && t.kernel.model == n.kernel.model && t.kernel.op.Some? && OpOk(c, t.kernel.op.value)
    ensures t.kernel.op.value.stage == n.kernel.op.value.stage && t.kernel.op.value.step + 1 >= Steps(c, t.kernel.op.value.stage)
    ensures var st := n.kernel.op.value.stage;
      (!st.Create? && !st.Load? ==> t.births == n.births) && (st.ReadFrame? ==> t.mem == n.mem)
    decreases Steps(c, n.kernel.op.value.stage) - n.kernel.op.value.step
  {
    hide After, Inv, OpOk, Happen, Possible, Blank, Steps;
    CanAccess(c, s, n);
    if n.kernel.op.value.step + 1 < Steps(c, n.kernel.op.value.stage) {
      StepsOn(c, s, n);
      var next := Happen(c, n, Blank(c, n.kernel));
      CanAccess(c, s, next);
      t := Finish(c, s, next);
    } else {
      t := n;
    }
  }

  // ----- The boot of a plan of one image -----

  /** The last access of the last creation: the first process is dispatched. */
  lemma CreateEnds(c: KernelConfig, k: Kernel, done: Completion)
    requires Takes(c, k, done) && k.op.value.stage.Create? && k.op.value.step + 1 >= Steps(c, k.op.value.stage)
    requires k.model.source.Plan? && k.op.value.stage.pid == |k.model.source.images|
    ensures var n := Step(c, k, Answered(done)).value; n.op.Some? && n.op.value.stage.Dispatch?
  {
    hide ValidSource, OpOk, Complete, AccessDue, Steps, OwnedBy, SortWords, IndexOf, InitialContext, Built, MegapageConflict, FramesNeeded, Answers;
    OpStage(c, k.op.value);
    CompleteOk(c, k.op.value, done);
  }

  lemma DispatchEnds(c: KernelConfig, k: Kernel, done: Completion)
    requires Takes(c, k, done) && k.op.value.stage.Dispatch? && k.op.value.step + 1 >= Steps(c, k.op.value.stage)
    ensures Step(c, k, Answered(done)).value == Kernel(k.model, None)
  {
    hide ValidSource, OpOk, Complete, AccessDue, Steps, Answers;
    OpStage(c, k.op.value);
    CompleteOk(c, k.op.value, done);
  }

  /** What a resting kernel whose one process runs is. */
  ghost predicate FirstRuns(n: Machine) {
    && n.kernel.op.None? && n.kernel.model.life == Up && n.kernel.model.procs.current == Some(1) && 1 in n.births
    && n.kernel.model.source.Plan? && |n.kernel.model.source.images| >= 1 && n.births[1].boot == n.kernel.model.source.images[0]
  }

  lemma DispatchedRuns(c: KernelConfig, k: Kernel)
    requires Inv(c, k) && k.op.Some? && k.op.value.stage.Dispatch? && k.model.source.Plan? && |k.model.source.images| == 1
    ensures k.model.life == Up && k.model.procs.current == Some(1)
  {
    hide ValidSource, OpOk, IndexOf, OwnersOk, QueueOk, StatesOk;
  }

  lemma RestRuns(c: KernelConfig, k: Kernel)
    requires Inv(c, k) && k.op.None? && k.model.life == Up
    ensures k.model.procs.current.Some? && Writes.Runs(k, TheRoot(k))
  {
    hide ValidSource, IndexOf, OwnersOk, QueueOk, StatesOk, PidsOk;
  }

  lemma RunnerBorn(c: KernelConfig, n: Machine)
    requires Inv(c, n.kernel) && RestoreRun.BirthsOk(n) && n.kernel.model.source.Plan?
    requires n.kernel.op.None? && n.kernel.model.life == Up && n.kernel.model.procs.current == Some(1)
    ensures FirstRuns(n)
  {
    hide Inv, IndexOf;
    RestRuns(c, n.kernel);
    Writes.RunnerLives(c, n.kernel, TheRoot(n.kernel));
    assert RestoreRun.BornOk(n, n.kernel.model.procs.pcbs[Writes.RunningAt(n.kernel)]);
  }

  /** An ENTER before boot starts the creation of process 1. */
  lemma EnterBoots(c: KernelConfig, s: Machine) returns (n: Machine)
    requires Unbooted(c, s) && PermitsPlan.CreatesFirst(c, s.kernel)
    ensures After(c, s, n) && n.kernel.op.Some? && n.kernel.op.value.stage.Create? && n.kernel.op.value.stage.pid == 1
    ensures n.kernel.model.source == s.kernel.model.source
  {
    hide MachineInv, WriteOk, Inv, Possible, Happen, Models.Ready, Step, PermitsPlan.Planned, RestoreRun.BirthsOk, TrapFrames.FrameOk, Start, Fresh, PlansInPage, DevicesApart, Permits.Platform, After, MegapageConflict, FramesNeeded;
    AfterBoot(c, s);
    AfterSound(c, s, s);
    var h := KernelEnter(c.trapFrame);
    EnterPossible(c, s, c.trapFrame);
    EnteredIs(c, s, h);
    AfterMore(c, s, s, h);
    HappenSource(c, s, h);
    n := Happen(c, s, h);
    var frames := PermitsPlan.BootCreates(c, s.kernel);
    Entered(c, s.kernel, c.trapFrame);
  }

  lemma Entered(c: KernelConfig, k: Kernel, value: Word)
    requires Models.Ready(c, k.model) && k.op.None? && k.model.life != Down && Step(c, k, Enter(value)).Ok?
    ensures var t := Start(c, k.model, value);
      t.result.Ok? && Step(c, k, Enter(value)).value == Kernel(t.model, Some(NewOp(t.result.value)))
  {
    hide Start;
  }

  /** The last access of a stage. */
  lemma LastAccess(c: KernelConfig, s: Machine, n: Machine) returns (t: Machine, done: Completion)
    requires After(c, s, n) && n.kernel.op.Some? && OpOk(c, n.kernel.op.value)
    ensures After(c, s, t) && Takes(c, n.kernel, done) && t.kernel == Step(c, n.kernel, Answered(done)).value
    ensures t.kernel.model.source == n.kernel.model.source
  {
    hide After, Inv, OpOk, Happen, Possible, Blank, MachineInv, WriteOk, RestoreRun.BirthsOk, TrapFrames.FrameOk, AccessDue, Takes, Step, StageOk;
    CanAccess(c, s, n);
    AfterSound(c, s, n);
    BlankIs(c, n.kernel);
    var h := Blank(c, n.kernel);
    AccessIs(c, n, h);
    HappenSource(c, n, h);
    t := Happen(c, n, h);
    done := Reply(c, n.mem, AccessDue(c, n.kernel.op.value), h.device);
  }

  /** A boot from a plan of one image runs its process. */
  lemma BootRuns(c: KernelConfig, s: Machine) returns (n: Machine)
    requires Unbooted(c, s) && PermitsPlan.CreatesFirst(c, s.kernel) && |s.kernel.model.source.images| == 1
    ensures After(c, s, n) && FirstRuns(n) && n.kernel.model.source == s.kernel.model.source
  {
    hide After, Inv, OpOk, Takes, Step, Steps, Unbooted, PermitsPlan.CreatesFirst, RestoreRun.BirthsOk, TrapFrames.FrameOk, SoundMachine, StageOk, FirstRuns;
    SourceIs(c, s.kernel);
    var created := EnterBoots(c, s);
    CanAccess(c, s, created);
    created := Finish(c, s, created);
    var done: Completion;
    n, done := LastAccess(c, s, created);
    CreateEnds(c, created.kernel, done);
    CanAccess(c, s, n);
    var dispatched := Finish(c, s, n);
    AfterSound(c, s, dispatched);
    DispatchedRuns(c, dispatched.kernel);
    n, done := LastAccess(c, s, dispatched);
    DispatchEnds(c, dispatched.kernel, done);
    AfterSound(c, s, n);
    RunnerBorn(c, n);
  }

  lemma SourceIs(c: KernelConfig, k: Kernel)
    requires PermitsPlan.CreatesFirst(c, k)
    ensures k.model.source.Plan?
  {
    hide Fresh;
  }

  // ----- A `write` from the page past the gap -----

  /** A trap frame that asks for `write(1, va, 1)`. */
  function AskingFrame(va: Word): (f: seq<Byte>)
    ensures |f| == FRAME_BYTES
  {
    seq<Byte>(FRAME_BYTES, i requires 0 <= i < FRAME_BYTES =>
      if FRAME_A1 <= i < FRAME_A1 + 4 then LeBytes(va)[i - FRAME_A1]
      else if i == FRAME_A0 || i == FRAME_A2 then 1 else if i == FRAME_A7 then 64 else if i == FRAME_SCAUSE then 8 else 0)
  }

  lemma Low(b: Byte)
    ensures LeWord([b, 0, 0, 0]) == b
  {
  }

  lemma AskingWords(va: Word)
    ensures var f := AskingFrame(va);
      && WordIn(f, FRAME_SSTATUS) == 0 && WordIn(f, FRAME_SCAUSE) == 8 && WordIn(f, FRAME_A7) == 64
      && WordIn(f, FRAME_A0) == 1 && WordIn(f, FRAME_A1) == va && WordIn(f, FRAME_A2) == 1 && WordIn(f, FRAME_SEPC) == 0
  {
    hide LeBytes, LeWord;
    var f := AskingFrame(va);
    Low(0);
    Low(1);
    Low(8);
    Low(64);
    assert f[FRAME_SSTATUS..FRAME_SSTATUS + 4] == [0, 0, 0, 0];
    assert f[FRAME_SEPC..FRAME_SEPC + 4] == [0, 0, 0, 0];
    assert f[FRAME_SCAUSE..FRAME_SCAUSE + 4] == [8, 0, 0, 0];
    assert f[FRAME_A7..FRAME_A7 + 4] == [64, 0, 0, 0];
    assert f[FRAME_A0..FRAME_A0 + 4] == [1, 0, 0, 0];
    assert f[FRAME_A2..FRAME_A2 + 4] == [1, 0, 0, 0];
    assert f[FRAME_A1..FRAME_A1 + 4] == LeBytes(va);
  }

  /** The running process fills its frame, and traps. */
  lemma AskWrite(c: KernelConfig, s: Machine, n: Machine, va: Word) returns (t: Machine)
    requires After(c, s, n) && n.kernel.op.None? && n.kernel.model.life == Up
    ensures After(c, s, t) && t.kernel == Kernel(n.kernel.model, Some(NewOp(ReadFrame))) && t.births == n.births
    ensures TrapFrames.FrameIn(c, t.mem) == AskingFrame(va)
  {
    hide After, Inv, MachineInv, WriteOk, RestoreRun.BirthsOk, TrapFrames.FrameOk, AskingFrame, Step, Models.Ready;
    AfterSound(c, s, n);
    RestRuns(c, n.kernel);
    var f := FrameStore(c.trapFrame, AskingFrame(va));
    AfterMore(c, s, n, f);
    var stored := Happen(c, n, f);
    AfterSound(c, s, stored);
    var h := KernelEnter(c.trapFrame);
    AfterMore(c, s, stored, h);
    EnteredIs(c, stored, h);
    EntersFrame(c, stored.kernel);
    t := Happen(c, stored, h);
    assert TrapFrames.FrameIn(c, t.mem) == AskingFrame(va);
  }

  lemma EntersFrame(c: KernelConfig, k: Kernel)
    requires Models.Ready(c, k.model) && k.op.None? && k.model.life == Up && k.model.procs.current.Some?
    ensures Step(c, k, Enter(c.trapFrame)) == Ok(Kernel(k.model, Some(NewOp(ReadFrame))))
  {
    hide NextCreation;
  }

  /** The frame is read, and the walk of the one-byte buffer begins. */
  lemma BeginsWalk(c: KernelConfig, s: Machine, n: Machine, va: Word) returns (t: Machine)
    requires After(c, s, n) && n.kernel.op == Some(NewOp(ReadFrame)) && TrapFrames.FrameIn(c, n.mem) == AskingFrame(va)
    ensures After(c, s, t) && t.kernel.model == n.kernel.model && t.births == n.births
    ensures t.kernel.op == Some(NewOp(Walk(Buffer(0, va, 1), [], TheRoot(n.kernel), 1)))
  {
    hide After, Inv, MachineInv, WriteOk, RestoreRun.BirthsOk, TrapFrames.FrameOk, AskingFrame, OpOk, Possible, Happen, Blank, Decide, WordIn, FrameChunks, Chunks, TotalLen, TrapFrames.FrameIn;
    CanAccess(c, s, n);
    var last := Finish(c, s, n);
    AfterSound(c, s, last);
    CanAccess(c, s, last);
    BlankIs(c, last.kernel);
    TrapFrames.FrameRead(c, last, Blank(c, last.kernel));
    t := Happen(c, last, Blank(c, last.kernel));
    AskingWords(va);
    assert WriteCalls.WriteAsked(c, n);
    AfterSound(c, s, n);
    WriteCalls.DecidesWrite(c, n);
  }

  /** The walk of a readable buffer ends in its output. */
  lemma {:induction false} UntilOutput(c: KernelConfig, s: Machine, n: Machine) returns (t: Machine)
    requires After(c, s, n) && n.kernel.op.Some? && n.kernel.op.value.stage.Walk? && StageOk(n.kernel.op.value.stage)
    requires Writes.Readable(n.mem, TheRoot(n.kernel), n.kernel.op.value.stage.buffer)
    ensures After(c, s, t) && t.kernel.model == n.kernel.model && t.births == n.births
    ensures t.kernel.op.Some? && t.kernel.op.value.stage.Output? && StageOk(t.kernel.op.value.stage)
    ensures t.kernel.op.value.stage.buffer == n.kernel.op.value.stage.buffer
    decreases Left(n.kernel)
  {
    hide After, Inv, MachineInv, WriteOk, RestoreRun.BirthsOk, TrapFrames.FrameOk, OpOk, Possible, Happen, Blank, Writes.Readable, Left, Writes.UserBytes, Takes, Step, StageOk;
    CanAccess(c, s, n);
    AfterSound(c, s, n);
    BlankIs(c, n.kernel);
    var h := Blank(c, n.kernel);
    WalkGoes(c, n, h);
    WalkQuiet(c, n, h);
    WalkFits(n.kernel.op.value.stage);
    t := Happen(c, n, h);
    assert Writing(t.kernel);
    if t.kernel.op.Some? && t.kernel.op.value.stage.Walk? {
      t := UntilOutput(c, s, t);
    }
  }

  /** A walk sends nothing. */
  lemma WalkQuiet(c: KernelConfig, s: Machine, h: Happening)
    requires SoundMachine(c, s) && Possible(c, s, h) && h.KernelAccess? && s.kernel.op.value.stage.Walk? && StageOk(s.kernel.op.value.stage)
    ensures Happen(c, s, h).uart == s.uart == s.mark
  {
    hide MachineInv, Possible, Happen, Takes, Step, OpOk, AccessDue, InPool, PageOf, Short, InRam, Reply;
    PossibleAccess(c, s, h);
    AccessIs(c, s, h);
    WalkReads(c, s, h.device);
  }

  /** A readable page of a live process is found by the kernel's walk. */
  lemma PageFound(c: KernelConfig, l: UserLayout, b: Birth, mem: Memory, j: nat)
    requires Creation(c, l, b.boot, b.frames) && Buildable(c, l, b.boot, b.frames) && j < |Pages(b.boot.image, l)|
    requires SpaceTables.TablesAt(mem, Built(c, l, b.boot, b.frames), SpaceRun.Steps(Built(c, l, b.boot, b.frames)))
    requires Pages(b.boot.image, l)[j].perms.read
    ensures Writes.UserAt(mem, Built(c, l, b.boot, b.frames).root, Pages(b.boot.image, l)[j].va).Some?
  {
    hide Accepted, ValidLayout, CopiesInPage, MegapageConflict, SlotSet, Pages, Built, SpaceTables.TablesAt, Writes.UserAt, SpaceWalk.RamReader, Sv32.Translated, SpaceRun.Steps;
    var p := Pages(b.boot.image, l)[j];
    Writes.KernelWalk(c, l, b.boot, b.frames, mem, p.va);
    SpaceTables.TablesDecide(c, l, b.boot, b.frames, mem, p.va, USER_LOAD);
    assert SpaceWalk.Grants(p, p.va, USER_LOAD);
  }

  /** One byte at the start of a page. */
  lemma OneByte(va: Word)
    requires va % PAGE == 0
    ensures var b := Buffer(0, va, 1); b.Fits() && b.Pages() == 1 && b.PageVa(0) == va
  {
  }

  lemma ByteReadable(m: Memory, root: Word, va: Word)
    requires Writes.UserAt(m, root, va).Some?
    ensures Buffer(0, va, 1).Fits() && Writes.Readable(m, root, Buffer(0, va, 1))
  {
    hide Writes.UserAt;
  }

  /** The output of a byte from a page the regions do not tell. */
  lemma NotTold(k: Kernel, va: Word)
    requires Writing(k) && k.op.value.stage.Output? && StageOk(k.op.value.stage) && k.op.value.stage.buffer == Buffer(0, va, 1) && va % PAGE == 0
    requires k.model.procs.current.Some? && Writes.RunningAt(k) < |k.model.procs.pcbs| && RegionImages.RegionPage(Runner(k).regions, va).None?
    ensures !Told(k)
  {
    hide RegionImages.RegionPage, Buffer.StartFrom, IndexOf;
    OneByte(va);
    TracksRest(Runner(k).regions, k.op.value.stage.buffer, 0, k.op.value.stage.pages);
  }

  /** The running process has a gap in a readable segment. */
  predicate Gapped(n: Machine) {
    var current := n.kernel.model.procs.current;
    current.Some? && current.value in n.births && !ReadableFollow(n.births[current.value].boot.image)
  }

  /** A page of the running process that the kernel's walk finds, now and as long as the process runs, and its regions do not
      tell. */
  lemma HiddenPage(c: KernelConfig, n: Machine) returns (va: Word, j: nat)
    requires MachineInv(c, n) && Writes.Runs(n.kernel, TheRoot(n.kernel)) && Gapped(n)
    ensures Writes.RunningAt(n.kernel) < |n.kernel.model.procs.pcbs| && RegionImages.RegionPage(Runner(n.kernel).regions, va).None?
    ensures n.kernel.model.source.layout.StackBase().Some?
    ensures var ps := Pages(n.births[n.kernel.model.procs.current.value].boot.image, n.kernel.model.source.layout);
      j < |ps| && ps[j].va == va && ps[j].perms.read && va % PAGE == 0
  {
    hide Inv, LivesOk, DevicesApart, PlansInPage, FlightOk, IndexOf, Built, Buildable, Accepted, ValidLayout, CopiesInPage, MegapageConflict, FramesNeeded, SpaceTables.TablesAt, SpaceTables.TableSet, RegionImages.RegionPage, ReadableFollow, Pages, Regions;
    Writes.RunnerLives(c, n.kernel, TheRoot(n.kernel));
    LiveTables(c, n, Writes.RunningAt(n.kernel));
    var b, l := n.births[Runner(n.kernel).pid], n.kernel.model.source.layout;
    CreationAscends(c, l, b.boot, b.frames);
    var fs := RegionsOf(c, l, b.boot, b.frames);
    j := RegionImages.GapHides(c, l, b.boot, fs);
    PagesFacts(c, l, b.boot, j);
    va := Pages(b.boot.image, l)[j].va;
  }

  lemma RunnerFinds(c: KernelConfig, n: Machine, j: nat)
    requires MachineInv(c, n) && Writes.Runs(n.kernel, TheRoot(n.kernel)) && n.kernel.model.source.layout.StackBase().Some?
    requires n.kernel.model.procs.current.Some? && n.kernel.model.procs.current.value in n.births
    requires var ps := Pages(n.births[n.kernel.model.procs.current.value].boot.image, n.kernel.model.source.layout);
      j < |ps| && ps[j].perms.read
    ensures var ps := Pages(n.births[n.kernel.model.procs.current.value].boot.image, n.kernel.model.source.layout);
      Writes.UserAt(n.mem, TheRoot(n.kernel), ps[j].va).Some?
  {
    hide Inv, LivesOk, DevicesApart, PlansInPage, FlightOk, IndexOf, Built, Buildable, Creation, SpaceTables.TablesAt, SpaceTables.TableSet, Pages, Writes.UserAt;
    Writes.RunnerLives(c, n.kernel, TheRoot(n.kernel));
    LiveTables(c, n, Writes.RunningAt(n.kernel));
    PageFound(c, n.kernel.model.source.layout, n.births[Runner(n.kernel).pid], n.mem, j);
  }

  /** From any state a boot reaches in which a process with a gap runs, it can ask for a `write` during which a snapshot is
      refused. */
  lemma GapRefused(c: KernelConfig, s: Machine, n: Machine) returns (t: Machine)
    requires After(c, s, n) && n.kernel.op.None? && n.kernel.model.life == Up && Gapped(n)
    ensures After(c, s, t) && t.kernel.model == n.kernel.model && !Told(t.kernel)
  {
    hide After, Inv, MachineInv, WriteOk, RestoreRun.BirthsOk, TrapFrames.FrameOk, AskingFrame, Writes.UserAt, Writes.Readable, RegionImages.RegionPage, IndexOf, Told, Pages, StageOk, Gapped;
    AfterSound(c, s, n);
    RestRuns(c, n.kernel);
    var va, j := HiddenPage(c, n);
    t := AskWrite(c, s, n, va);
    var root := TheRoot(t.kernel);
    t := BeginsWalk(c, s, t, va);
    AfterSound(c, s, t);
    GapHere(n);
    RunnerFinds(c, t, j);
    ByteReadable(t.mem, root, va);
    CanAccess(c, s, t);
    t := UntilOutput(c, s, t);
    NotTold(t.kernel, va);
  }

  lemma GapHere(n: Machine)
    requires Gapped(n)
    ensures n.kernel.model.procs.current.Some? && n.kernel.model.procs.current.value in n.births
  {
  }

  // ----- Exactly when -----

  /** Every snapshot of every state a run from the boot `s` reaches restores to that state. */
  ghost predicate AlwaysRestores(c: KernelConfig, s: Machine) {
    forall n: Machine, x: Saved :: After(c, s, n) && Stands(x, n.kernel) ==> Back(c, x) == Some(x)
  }

  lemma AfterSource(c: KernelConfig, s: Machine, n: Machine)
    requires After(c, s, n)
    ensures n.kernel.model.source == s.kernel.model.source
  {
    hide MachineInv, Unbooted, WriteOk, Isolation.Runs;
    var hs: seq<Happening> :| Isolation.Runs(c, s, hs) == Some(n);
    UnbootedSound(c, s);
    RunsSound(c, s, hs);
  }

  lemma FollowRestores(c: KernelConfig, s: Machine)
    requires Unbooted(c, s) && PlansFollow(s.kernel.model.source)
    ensures AlwaysRestores(c, s)
  {
    hide After, Back, Stands, PlansFollow, SoundMachine, Inv, Reached, Unbooted;
    forall n: Machine, x: Saved | After(c, s, n) && Stands(x, n.kernel) ensures Back(c, x) == Some(x) {
      AfterSound(c, s, n);
      AfterSource(c, s, n);
      StandsFor(x, n.kernel);
      EveryStateRestores(c, n, x);
    }
  }

  lemma StandsFor(x: Saved, k: Kernel)
    requires Stands(x, k)
    ensures x.model == k.model
  {
  }

  lemma GapFails(c: KernelConfig, s: Machine)
    requires Unbooted(c, s) && PermitsPlan.CreatesFirst(c, s.kernel) && |s.kernel.model.source.images| == 1
    requires !ReadableFollow(s.kernel.model.source.images[0].image)
    ensures !AlwaysRestores(c, s)
  {
    hide After, Back, Told, SoundMachine, Inv, Reached, Unbooted, PermitsPlan.CreatesFirst, RestoreRun.BirthsOk, TrapFrames.FrameOk, ReadableFollow;
    var n := BootRuns(c, s);
    var t := GapRefused(c, s, n);
    AfterSound(c, s, t);
    UntoldWrites(t.kernel);
    var x := Saved(t.kernel.model, Issue(t.kernel.op.value), Some(0), 0);
    assert Stands(x, t.kernel);
    RestoresExactly(c, t, x);
  }

  lemma UntoldWrites(k: Kernel)
    requires !Told(k)
    ensures k.op.Some?
  {
  }

  /** With a plan of one image that can be created, every snapshot of every state a run from boot reaches restores to that
      state if and only if the pages of every readable segment follow each other. */
  lemma RestoresIffFollows(c: KernelConfig, s: Machine)
    requires Unbooted(c, s) && PermitsPlan.CreatesFirst(c, s.kernel) && |s.kernel.model.source.images| == 1
    ensures AlwaysRestores(c, s) <==> ReadableFollow(s.kernel.model.source.images[0].image)
  {
    hide AlwaysRestores, Unbooted, PermitsPlan.CreatesFirst, ReadableFollow;
    SourceIs(c, s.kernel);
    if ReadableFollow(s.kernel.model.source.images[0].image) {
      FollowRestores(c, s);
    } else {
      GapFails(c, s);
    }
  }
}
