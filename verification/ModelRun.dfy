/** Every run of the process model keeps its invariants, whatever the accesses answer. */
module ModelRun {
  import opened Words
  import opened Core
  import opened Config
  import opened Image
  import opened Space
  import opened SpaceExact
  import opened Creations
  import opened UserCopy
  import opened Processes
  import opened ExecTables
  import opened ProcOps
  import opened Models
  import Ownership
  import SpaceRun
  import U = UserElf
  import UX = UserElfExact

  // ----- The invariant -----

  /** The owners are those of the configured pool. */
  predicate PoolOk(c: KernelConfig, f: Frames) {
    f.base == c.framePool.base / PAGE && |f.owners| == c.framePool.size / PAGE
  }

  predicate EntriesOk(m: Model) {
    match m.source case Plan(_, images) => m.entries == |images| case Disk(_, _) => m.entries <= MAX_ENTRIES
  }

  /** `s` is the address space of `b` in frames of the pool. */
  ghost predicate SpaceFor(c: KernelConfig, l: UserLayout, b: BootImage, s: Space) {
    && ValidLayout(c, l) && Accepted(b, c, l) && !MegapageConflict(b.image, c)
    && |s.frames| == FramesNeeded(b.image, l) && Ascending(s.frames) && (forall i :: 0 <= i < |s.frames| ==> InPool(c, s.frames[i]))
    && Buildable(c, l, b, s.frames) && s == Built(c, l, b, s.frames)
  }

  /** Every PID in the table is at most `n`. */
  predicate PidsUpTo(m: Model, n: nat) {
    forall i :: 0 <= i < |m.procs.pcbs| ==> m.procs.pcbs[i].pid <= n
  }

  /** Booting: up, with nothing running and every PID at most `n`. */
  predicate Booting(m: Model, n: nat) {
    m.life == Up && m.procs.current.None? && PidsUpTo(m, n)
  }

  /** Where a disk boot is: before the table, or at an entry of the validated table. */
  predicate AtCursor(c: KernelConfig, m: Model, cursor: Cursor) {
    && m.source.Disk? && CursorOk(c, m.source.capacity, cursor) && cursor.index < MAX_ENTRIES
    && Booting(m, cursor.index)
    && (cursor.table.None? ==> cursor.index == 0)
    && (cursor.table.Some? ==> m.entries == |cursor.table.value.entries|)
  }

  /** The bytes a Staged stage may read. */
  predicate StagedLen(c: KernelConfig, cursor: Cursor, len: nat)
    requires cursor.Ok()
  {
    if cursor.table.None? then len == BLOCK_SIZE else len <= cursor.Entry().value.byteLen
  }

  /** The running process's root table is `root`. */
  predicate RunsRoot(m: Model, root: Word) {
    RunningRoot(m) == Ok(root)
  }

  /** What a stage requires of the model. */
  ghost predicate StageFits(c: KernelConfig, m: Model, s: Stage) {
    match s
    case Create(pid, space) =>
      && m.source.Plan? && 1 <= pid <= |m.source.images| && Booting(m, pid - 1)
      && SpaceFor(c, m.source.layout, m.source.images[pid - 1], space)
    case Load(cursor, headers, image, space) =>
      && cursor.Ok() && AtCursor(c, m, cursor) && cursor.table.Some?
      && U.Parsed(headers, cursor.Entry().value.byteLen, UX.RangeOf(m.source.layout)) == Ok(image)
      && SpaceFor(c, m.source.layout, Staging(c, cursor.Entry().value.byteLen, image), space)
    case Command(cursor) => AtCursor(c, m, cursor)
    case Poll(cursor) => AtCursor(c, m, cursor)
    case Ack(cursor, _) => AtCursor(c, m, cursor)
    case Staged(cursor, len) => cursor.Ok() && AtCursor(c, m, cursor) && StagedLen(c, cursor, len)
    case ReadFrame => m.life == Up && m.procs.current.Some?
    case Return(_, _) => m.life == Up && m.procs.current.Some?
    case Walk(_, _, table, level) => m.life == Up && m.procs.current.Some? && (level == 1 ==> RunsRoot(m, table))
    case Output(_, _, _) => m.life == Up && m.procs.current.Some?
    case Dispatch(pid, _, satp) =>
      m.life == Up && m.procs.current == Some(pid) && exists root :: RunsRoot(m, root) && satp == Satp(root)
    case Shutdown(_) => m.life == Down
  }

  /** The PID and frames a stage is building, if it is. */
  function InFlight(s: Stage): Option<Creating> {
    match s
    case Create(pid, space) => Some(Creating(pid, space.frames))
    case Load(cursor, _, _, space) => if cursor.index < MAX_ENTRIES then Some(Creating(cursor.index + 1, space.frames)) else None
    case _ => None
  }

  ghost predicate Sound(c: KernelConfig, m: Model, creating: Option<Creating>) {
    ValidSource(c, m.source) && PoolOk(c, m.procs.frames) && EntriesOk(m) && Consistent(m.procs, m.entries, creating)
  }

  /** A model in stage `s`. */
  ghost predicate Within(c: KernelConfig, m: Model, s: Stage) {
    Sound(c, m, InFlight(s)) && StageOk(s) && StageFits(c, m, s)
  }

  /** A model between operations: not booted, or up with a process running, or down. */
  ghost predicate AtRest(c: KernelConfig, m: Model) {
    && Sound(c, m, None)
    && (m.life == AwaitBoot ==> m.procs.pcbs == [] && m.procs.current.None? && (m.source.Disk? ==> m.entries == 0))
    && (m.life == Up ==> m.procs.current.Some?)
  }

  /** A decision that is no violation and leads to a stage that fits. */
  ghost predicate GoodTurn(c: KernelConfig, t: Turn<Stage>) {
    t.result.Ok? && Within(c, t.model, t.result.value)
  }

  lemma SoundReady(c: KernelConfig, m: Model, creating: Option<Creating>)
    requires Sound(c, m, creating)
    ensures Models.Ready(c, m)
  {
  }

  // ----- Dispatch -----

  lemma DispatchGood(c: KernelConfig, m: Model)
    requires Sound(c, m, None) && m.life == Up && m.procs.current.None?
    ensures GoodTurn(c, DispatchNext(m))
  {
    hide Consistent, ValidSource, IndexOf;
    ScheduleKeeps(m.procs, m.entries);
    var o := ScheduleNext(m.procs);
    if m.procs.queue != [] {
      RunningPcb(o.procs, m.entries);
      var k := IndexOf(o.procs.pcbs, m.procs.queue[0]);
      assert RunsRoot(DispatchNext(m).model, o.procs.pcbs[k].root);
    }
  }

  /** The current process has a PCB. */
  lemma RunningPcb(p: Procs, images: nat)
    requires Consistent(p, images, None) && p.current.Some?
    ensures IndexOf(p.pcbs, p.current.value) < |p.pcbs|
  {
  }

  // ----- Plan creations -----

  lemma PoolFrame(c: KernelConfig, l: UserLayout, fs: Frames, f: int)
    requires ValidLayout(c, l) && PoolOk(c, fs) && fs.Owner(f).Some?
    ensures InPool(c, f)
  {
    var b, n := c.framePool.base / PAGE, c.framePool.size / PAGE;
    assert c.framePool.base == PAGE * b && c.framePool.size == PAGE * n;
    assert b <= f < b + n;
  }

  /** A reserved space is one a creation may use. */
  lemma ReservedSpace(c: KernelConfig, m: Model, b: BootImage, pid: Word)
    requires Sound(c, m, None) && Accepted(b, c, m.source.layout) && !MegapageConflict(b.image, c)
    requires 1 <= pid <= m.entries && !HasPcb(m.procs, pid)
    ensures var l := m.source.layout;
      var r := Reserve(m.procs.frames, pid, FramesNeeded(b.image, l));
      r.Some? ==>
        && Buildable(c, l, b, r.value) && SpaceFor(c, l, b, Built(c, l, b, r.value)) && Built(c, l, b, r.value).frames == r.value
        && Built(c, l, b, r.value).ptes != []
        && Sound(c, Taken(m, pid, r.value), Some(Creating(pid, r.value)))
  {
    hide Consistent, Accepted, MegapageConflict, FramesNeeded, Built, ValidLayout, SetOwner, HasPcb, OwnedBy;
    var l := m.source.layout;
    ConsistentWide(m.procs, m.entries, None);
    HasStack(c, l);
    var r := Reserve(m.procs.frames, pid, FramesNeeded(b.image, l));
    if r.Some? {
      PlanBuildable(c, l, b, r.value);
      FramesExact(c, l, b, r.value);
      ReserveKeeps(m.procs, m.entries, pid, FramesNeeded(b.image, l));
      forall i | 0 <= i < |r.value| ensures InPool(c, r.value[i]) {
        assert r.value[i] in r.value;
        PoolFrame(c, l, m.procs.frames, r.value[i]);
      }
    }
  }

  lemma HasStack(c: KernelConfig, l: UserLayout)
    requires ValidLayout(c, l)
    ensures l.StackBase().Some?
  {
  }

  lemma ConsistentWide(p: Procs, images: nat, creating: Option<Creating>)
    requires Consistent(p, images, creating)
    ensures p.frames.Wide()
  {
  }

  lemma NotYet(m: Model, n: nat)
    requires PidsUpTo(m, n) && n + 1 < WORD_LIMIT
    ensures !HasPcb(m.procs, n + 1)
  {
  }

  lemma {:induction false} CreationGood(c: KernelConfig, m: Model, from: nat)
    requires Sound(c, m, None) && m.source.Plan? && from <= |m.source.images| && Booting(m, from)
    ensures GoodTurn(c, NextCreation(c, m, from))
    decreases |m.source.images| - from
  {
    hide Consistent, Accepted, MegapageConflict, FramesNeeded, Built, ValidLayout, SetOwner, HasPcb, OwnedBy, DispatchNext, SpaceFor;
    SoundReady(c, m, None);
    var images := m.source.images;
    if from == |images| {
      DispatchGood(c, m);
    } else {
      var b, pid := images[from], from + 1;
      NotYet(m, from);
      CreationLater(c, m, from);
      if !MegapageConflict(b.image, c) {
        ReservedSpace(c, m, b, pid);
      }
    }
  }

  lemma CreationLater(c: KernelConfig, m: Model, from: nat)
    requires Sound(c, m, None) && m.source.Plan? && from < |m.source.images| && Booting(m, from)
    ensures GoodTurn(c, NextCreation(c, m, from + 1))
    decreases |m.source.images| - from, 0
  {
    hide Consistent, ValidSource, NextCreation, GoodTurn;
    SoundReady(c, m, None);
    CreationGood(c, m, from + 1);
  }

  /** A space's frames are its tables' and its regions'. */
  lemma SpaceHeld(c: KernelConfig, l: UserLayout, b: BootImage, s: Space, pid: Word, context: Context)
    requires SpaceFor(c, l, b, s)
    ensures var p := NewPcb(pid, s, context);
      PcbOk(p) && multiset(p.Held()) == multiset(s.frames) && Ascending(s.frames)
  {
    hide Accepted, MegapageConflict, FramesNeeded, Built, ValidLayout, RegionFrames;
    FramesExact(c, l, b, s.frames);
  }

  /** Admitting the created process succeeds and ends the creation. */
  lemma AdmitGood(c: KernelConfig, m: Model, b: BootImage, pid: Word, entry: Word, s: Space)
    requires Sound(c, m, Some(Creating(pid, s.frames))) && SpaceFor(c, m.source.layout, b, s) && pid >= 1 && Booting(m, pid - 1)
    ensures var t := AdmitNew(m, pid, entry, s);
      && t.result == Ok(()) && Sound(c, t.model, None) && Booting(t.model, pid) && t.model.source == m.source && t.model.entries == m.entries
      && t.model.procs.pcbs == m.procs.pcbs + [NewPcb(pid, s, InitialContext(entry, m.source.layout.stackTop))]
  {
    hide Consistent, ValidSource, SpaceFor, Pcb.Held, PcbOk, Admit;
    var context := InitialContext(entry, m.source.layout.stackTop);
    ConsistentWide(m.procs, m.entries, Some(Creating(pid, s.frames)));
    SpaceHeld(c, m.source.layout, b, s, pid, context);
    AdmitKeeps(m.procs, m.entries, NewPcb(pid, s, context), s.frames);
  }

  // ----- Disk loads -----

  lemma LoadGood(c: KernelConfig, m: Model, table: Option<ExecTable>, index: nat)
    requires Sound(c, m, None) && m.source.Disk? && table.Some? && Booting(m, index)
    requires |table.value.entries| <= MAX_ENTRIES && EntriesError(table.value.entries, m.source.capacity, StagingSize(c)).None?
    requires m.entries == |table.value.entries|
    ensures GoodTurn(c, NextLoad(m, table, index))
  {
    hide Consistent, ValidSource, DispatchNext, EntriesError;
    if index < |table.value.entries| {
      assert AtCursor(c, m, Cursor(table, index));
    } else {
      DispatchGood(c, m);
    }
  }

  lemma SkipGood(c: KernelConfig, m: Model, cursor: Cursor)
    requires Sound(c, m, None) && AtCursor(c, m, cursor) && cursor.table.Some?
    ensures GoodTurn(c, NextLoad(m, cursor.table, cursor.index + 1))
  {
    hide Consistent, ValidSource, EntriesError, NextLoad, GoodTurn;
    LoadGood(c, m, cursor.table, cursor.index + 1);
  }

  lemma AckedGood(c: KernelConfig, m: Model, cursor: Cursor, error: Byte)
    requires Sound(c, m, None) && AtCursor(c, m, cursor)
    ensures GoodTurn(c, Acked(m, cursor, error))
  {
    hide Consistent, EntriesError, NextLoad;
    if error == 0 {
      if cursor.table.Some? {
        EntryStaged(c, m.source, cursor);
      }
    } else if cursor.table.Some? {
      SkipGood(c, m, cursor);
    }
  }

  lemma NoProcesses(p: Procs, a: nat, b: nat)
    requires Consistent(p, a, None) && p.pcbs == []
    ensures Consistent(p, b, None)
  {
  }

  lemma TableGood(c: KernelConfig, m: Model, data: seq<Byte>)
    requires Sound(c, m, None) && m.source.Disk? && Booting(m, 0) && |data| == BLOCK_SIZE
    ensures GoodTurn(c, TableRead(c, m, m.source.capacity, data))
  {
    hide Consistent, ValidSource, NextLoad, EntriesError, ExecTables.Parsed;
    var r := ExecTables.Parsed(data, m.source.capacity, StagingSize(c));
    if r.Ok? {
      ParsedTable(data, m.source.capacity, StagingSize(c));
      NoPids(m.procs, m.entries);
      NoProcesses(m.procs, m.entries, |r.value.entries|);
      LoadGood(c, m.(entries := |r.value.entries|), Some(r.value), 0);
    }
  }

  lemma NoPids(p: Procs, images: nat)
    requires Consistent(p, images, None) && forall i :: 0 <= i < |p.pcbs| ==> p.pcbs[i].pid <= 0
    ensures p.pcbs == []
  {
    if p.pcbs != [] {
      FirstPid(p, images);
    }
  }

  lemma FirstPid(p: Procs, images: nat)
    requires Consistent(p, images, None) && p.pcbs != []
    ensures p.pcbs[0].pid >= 1
  {
  }

  lemma ParsedTable(b: Block, capacity: Word, staging: Word)
    ensures var r := ExecTables.Parsed(b, capacity, staging);
      r.Ok? ==> 1 <= |r.value.entries| <= MAX_ENTRIES && EntriesError(r.value.entries, capacity, staging).None?
  {
  }

  lemma ImageGood(c: KernelConfig, m: Model, cursor: Cursor, headers: seq<Byte>, image: UserImage)
    requires Sound(c, m, None) && AtCursor(c, m, cursor) && cursor.table.Some?
    requires U.Parsed(headers, cursor.Entry().value.byteLen, UX.RangeOf(m.source.layout)) == Ok(image)
    requires Models.Ready(c, m) && Accepted(Staging(c, cursor.Entry().value.byteLen, image), c, m.source.layout)
    ensures GoodTurn(c, LoadImage(c, m, cursor, headers, image))
  {
    hide Consistent, Accepted, MegapageConflict, FramesNeeded, Built, ValidLayout, SetOwner, HasPcb, OwnedBy, NextLoad, SpaceFor, U.Parsed, EntriesError;
    SkipGood(c, m, cursor);
    if !MegapageConflict(image, c) {
      NotYet(m, cursor.index);
      ReservedSpace(c, m, Staging(c, cursor.Entry().value.byteLen, image), cursor.index + 1);
    }
  }

  lemma MoreGood(c: KernelConfig, m: Model, cursor: Cursor, len: nat)
    requires Sound(c, m, None) && AtCursor(c, m, cursor) && StagedLen(c, cursor, len) && len > 0
    ensures GoodTurn(c, Turn(m, Ok(Staged(cursor, len))))
  {
    hide Consistent, ValidSource, EntriesError;
  }

  lemma HeadersGood(c: KernelConfig, m: Model, cursor: Cursor, len: nat, data: seq<Byte>)
    requires Sound(c, m, None) && AtCursor(c, m, cursor) && cursor.table.Some? && Models.Ready(c, m) && len > 0
    ensures GoodTurn(c, StagedRead(c, m, cursor, len, data))
  {
    hide GoodTurn, Sound, NextLoad, LoadImage, U.Parsed, EntriesError, Accepted, ValidSource, CopiesInPage;
    var n := cursor.Entry().value.byteLen;
    var r := U.Parsed(data, n, UX.RangeOf(m.source.layout));
    EntryAccepted(c, m.source, cursor, data);
    SkipGood(c, m, cursor);
    if r.Ok? {
      ImageGood(c, m, cursor, data, r.value);
    } else {
      NeededInFile(data, n, UX.RangeOf(m.source.layout));
      if r.error.PrefixTooShort? && r.error.needed > len {
        MoreGood(c, m, cursor, r.error.needed);
      }
    }
  }

  lemma StagedGood(c: KernelConfig, m: Model, cursor: Cursor, len: nat, data: seq<Byte>)
    requires Sound(c, m, None) && AtCursor(c, m, cursor) && StagedLen(c, cursor, len) && |data| == len > 0
    requires Models.Ready(c, m)
    ensures GoodTurn(c, StagedRead(c, m, cursor, len, data))
  {
    hide GoodTurn, Sound, NextLoad, LoadImage, U.Parsed, EntriesError, TableRead, Accepted, ValidSource;
    if cursor.table.None? {
      TableGood(c, m, data);
    } else {
      HeadersGood(c, m, cursor, len, data);
    }
  }

  /** The parser never asks for more than the file. */
  lemma NeededInFile(prefix: seq<Byte>, fileLen: Word, range: U.UserRange)
    ensures var r := U.Parsed(prefix, fileLen, range);
      r.Err? && r.error.PrefixTooShort? ==> r.error.needed <= fileLen
  {
    hide U.CheckHeaders, U.ReadHeader, U.PairsError, U.SegmentsFor;
    var h := U.CheckedHeader(prefix, fileLen);
    if h.Ok? {
      UX.SegmentsNotShort(prefix, h.value, fileLen, range);
    }
  }

  // ----- Traps -----

  lemma YieldGood(c: KernelConfig, m: Model, frame: FrameBytes)
    requires Sound(c, m, None) && m.life == Up && m.procs.current.Some?
    ensures GoodTurn(c, YieldCall(m, frame))
  {
    hide Consistent, ValidSource, YieldCurrent, DispatchNext;
    YieldKeeps(m.procs, m.entries, YieldContext(frame));
    DispatchGood(c, m.(procs := YieldCurrent(m.procs, YieldContext(frame)).procs));
  }

  lemma EndGood(c: KernelConfig, m: Model, state: ProcState)
    requires Sound(c, m, None) && m.life == Up && m.procs.current.Some? && state.Terminal()
    ensures GoodTurn(c, EndCall(m, state))
  {
    hide Consistent, ValidSource, EndCurrent, DispatchNext, SetOwner, IndexOf;
    EndKeeps(m.procs, m.entries, state);
    DispatchGood(c, m.(procs := EndCurrent(m.procs, state).procs));
  }

  lemma WriteGood(c: KernelConfig, m: Model, frame: FrameBytes)
    requires Sound(c, m, None) && m.life == Up && m.procs.current.Some?
    ensures GoodTurn(c, WriteCall(m, frame))
  {
    hide Consistent, ValidSource, IndexOf, WordIn;
    RunningPcb(m.procs, m.entries);
  }

  lemma RetGood(c: KernelConfig, m: Model, sepc: Word, value: Word)
    requires Sound(c, m, None) && m.life == Up && m.procs.current.Some?
    ensures GoodTurn(c, Ret(m, sepc, value))
  {
    hide Consistent, ValidSource;
  }

  lemma FailGood(c: KernelConfig, m: Model)
    requires Sound(c, m, None)
    ensures GoodTurn(c, Fail(m))
  {
    hide Consistent, ValidSource;
  }

  lemma SyscallGood(c: KernelConfig, m: Model, frame: FrameBytes)
    requires Sound(c, m, None) && m.life == Up && m.procs.current.Some?
    ensures GoodTurn(c, Syscall(m, frame))
  {
    hide GoodTurn, Sound, WriteCall, YieldCall, EndCall, Ret, WordIn;
    var sepc := WordIn(frame, FRAME_SEPC);
    WriteGood(c, m, frame);
    YieldGood(c, m, frame);
    EndGood(c, m, Exited(Signed(WordIn(frame, FRAME_A0))));
    RetGood(c, m, sepc, m.procs.current.value);
    RetGood(c, m, sepc, Neg(ENOSYS));
  }

  lemma DecideGood(c: KernelConfig, m: Model, frame: FrameBytes)
    requires Sound(c, m, None) && m.life == Up && m.procs.current.Some?
    ensures GoodTurn(c, Decide(m, frame))
  {
    hide GoodTurn, Sound, Syscall, EndCall, Fail, WordIn;
    FailGood(c, m);
    SyscallGood(c, m, frame);
    EndGood(c, m, Faulted(WordIn(frame, FRAME_SCAUSE), WordIn(frame, FRAME_SEPC), WordIn(frame, FRAME_STVAL)));
  }

  lemma WalkedGood(c: KernelConfig, m: Model, b: Buffer, pages: seq<Word>, level: nat, pte: Word)
    requires Sound(c, m, None) && m.life == Up && m.procs.current.Some? && b.Fits() && |pages| < b.Pages() && level <= 1
    ensures GoodTurn(c, Walked(m, b, pages, level, pte))
  {
    hide Consistent, ValidSource, IndexOf;
    RunningPcb(m.procs, m.entries);
  }

  // ----- Operations -----

  /** An ENTER at rest, unless the kernel is down, starts an operation. */
  lemma StartGood(c: KernelConfig, m: Model, value: Word)
    requires AtRest(c, m) && m.life != Down && Models.Ready(c, m)
    ensures GoodTurn(c, Start(c, m, value))
  {
    hide Consistent, ValidSource, NextCreation;
    if value == c.trapFrame && m.life == AwaitBoot && m.source.Plan? {
      CreationGood(c, m.(life := Up), 0);
    }
  }

  /** What follows a finished stage: a stage that fits, or the end of the operation, down or with a process running. */
  ghost predicate GoodEnd(c: KernelConfig, t: Turn<Option<Stage>>) {
    && t.result.Ok?
    && match t.result.value case Some(s) => Within(c, t.model, s) case None => AtRest(c, t.model) && t.model.life != AwaitBoot
  }

  lemma WithinAdvanceable(c: KernelConfig, m: Model, s: Stage)
    requires Within(c, m, s)
    ensures Models.Ready(c, m) && Advanceable(c, m, s)
  {
  }

  lemma CreateAdvances(c: KernelConfig, m: Model, s: Stage, data: seq<Byte>)
    requires Within(c, m, s) && s.Create? && Models.Ready(c, m) && Advanceable(c, m, s) && HasData(s, data)
    ensures GoodEnd(c, Advance(c, m, s, data))
  {
    hide Consistent, ValidSource, SpaceFor, AdmitNew, NextCreation;
    var b := m.source.images[s.pid - 1];
    AdmitGood(c, m, b, s.pid, b.image.entry, s.space);
    CreationGood(c, AdmitNew(m, s.pid, b.image.entry, s.space).model, s.pid);
  }

  lemma LoadAdvances(c: KernelConfig, m: Model, s: Stage, data: seq<Byte>)
    requires Within(c, m, s) && s.Load? && Models.Ready(c, m) && Advanceable(c, m, s) && HasData(s, data)
    ensures GoodEnd(c, Advance(c, m, s, data))
  {
    hide Consistent, ValidSource, SpaceFor, AdmitNew, NextLoad, EntriesError, U.Parsed;
    var b := Staging(c, s.cursor.Entry().value.byteLen, s.image);
    AdmitGood(c, m, b, s.cursor.index + 1, s.image.entry, s.space);
    LoadGood(c, AdmitNew(m, s.cursor.index + 1, s.image.entry, s.space).model, s.cursor.table, s.cursor.index + 1);
  }

  lemma OutputAdvances(c: KernelConfig, m: Model, s: Stage, data: seq<Byte>)
    requires Within(c, m, s) && s.Output? && Models.Ready(c, m) && Advanceable(c, m, s) && HasData(s, data)
    ensures GoodEnd(c, Advance(c, m, s, data))
  {
    hide Consistent, ValidSource;
    NextStart(s.buffer, 0, s.done);
    if s.done + s.buffer.ChunkLen(s.done) != s.buffer.n {
      StartBefore(s.buffer, 0, s.done + s.buffer.ChunkLen(s.done));
    }
  }

  /** No finished stage of a sound model is a violation. */
  lemma AdvanceGood(c: KernelConfig, m: Model, s: Stage, data: seq<Byte>)
    requires Within(c, m, s) && Models.Ready(c, m) && Advanceable(c, m, s) && HasData(s, data)
    requires s.Staged? ==> |data| == s.len
    ensures GoodEnd(c, Advance(c, m, s, data))
  {
    hide Consistent, ValidSource, SpaceFor, EntriesError, U.Parsed, Decide, Walked, Acked, StagedRead, WordIn;
    match s
    case Create(_, _) => CreateAdvances(c, m, s, data);
    case Load(_, _, _, _) => LoadAdvances(c, m, s, data);
    case Ack(cursor, error) => AckedGood(c, m, cursor, error);
    case Staged(cursor, len) => StagedGood(c, m, cursor, len, data);
    case ReadFrame => DecideGood(c, m, data);
    case Walk(b, pages, _, level) => WalkedGood(c, m, b, pages, level, WordIn(data, 0));
    case Output(_, _, _) => OutputAdvances(c, m, s, data);
    case _ =>
  }

  // ----- Runs -----

  /** The kernel between two events: the model and the operation under way. */
  datatype Kernel = Kernel(model: Model, op: Option<ProcOp>)

  /** An ENTER, or the answer to the access that is due. */
  datatype Event = Enter(value: Word) | Answered(done: Completion)

  ghost predicate Inv(c: KernelConfig, k: Kernel) {
    match k.op
    case None => AtRest(c, k.model)
    case Some(op) => Within(c, k.model, op.stage) && OpOk(c, op)
  }

  /** An ENTER comes only between operations and not after the shutdown; an answer fits the access due. */
  predicate Allowed(c: KernelConfig, k: Kernel, e: Event)
    requires k.op.Some? ==> OpOk(c, k.op.value)
  {
    match e
    case Enter(_) => k.op.None? && k.model.life != Down
    case Answered(done) => k.op.Some? && Answers(AccessDue(c, k.op.value), done)
  }

  lemma InvReady(c: KernelConfig, k: Kernel)
    requires Inv(c, k)
    ensures Models.Ready(c, k.model) && (k.op.Some? ==> OpOk(c, k.op.value) && Advanceable(c, k.model, k.op.value.stage))
  {
    hide Consistent, ValidSource, StageFits, OpOk;
    SoundReady(c, k.model, if k.op.Some? then InFlight(k.op.value.stage) else None);
    if k.op.Some? {
      WithinAdvanceable(c, k.model, k.op.value.stage);
    }
  }

  /** What a stage has read when its last access is answered. */
  lemma FinishedData(c: KernelConfig, op: ProcOp, done: Completion)
    requires OpOk(c, op) && Answers(AccessDue(c, op), done)
    ensures var next := Complete(c, op, done).value;
      Finished(c, next) ==> HasData(op.stage, next.data) && (op.stage.Staged? ==> |next.data| == op.stage.len)
  {
    hide Chunks, TotalLen, SpaceRun.AccessAt, SpaceRun.Steps;
    if op.step + 1 == Steps(c, op.stage) {
      match op.stage
      case ReadFrame => ReadAll(c.trapFrame, FRAME_BYTES, op.step);
      case Staged(_, len) => ReadAll(c.staging.base, len, op.step);
      case _ =>
    }
  }

  lemma ReadAll(base: int, len: nat, k: nat)
    requires k + 1 == |Chunks(base, len)|
    ensures TotalLen(Chunks(base, len)[..k]) + Chunks(base, len)[k].len == len
  {
    hide Chunks, TotalLen;
    ChunksTile(base, len);
    ReadStep(Chunks(base, len), k);
    assert Chunks(base, len)[..k + 1] == Chunks(base, len);
  }

  /** One event: the operation starts, takes an access further, or goes on to its next stage or its end. */
  ghost function Step(c: KernelConfig, k: Kernel, e: Event): Result<Kernel, Violation>
    requires Models.Ready(c, k.model)
    requires k.op.Some? ==> OpOk(c, k.op.value) && Advanceable(c, k.model, k.op.value.stage)
    requires Allowed(c, k, e)
  {
    match e
    case Enter(value) =>
      var t := Start(c, k.model, value);
      if t.result.Err? then Err(t.result.error) else Ok(Kernel(t.model, Some(NewOp(t.result.value))))
    case Answered(done) =>
      var next := Complete(c, k.op.value, done).value;
      FinishedData(c, k.op.value, done);
      if !Finished(c, next) then Ok(Kernel(k.model, Some(next)))
      else
        var t := Advance(c, k.model, next.stage, next.data);
        if t.result.Err? then Err(t.result.error)
        else if t.result.value.None? then Ok(Kernel(t.model, None))
        else Ok(Kernel(t.model, Some(NewOp(t.result.value.value))))
  }

  /** No event is a violation, and every event keeps the invariant. */
  lemma StepKeeps(c: KernelConfig, k: Kernel, e: Event)
    requires Inv(c, k) && Models.Ready(c, k.model)
    requires k.op.Some? ==> OpOk(c, k.op.value) && Advanceable(c, k.model, k.op.value.stage)
    requires Allowed(c, k, e)
    ensures Step(c, k, e).Ok? && Inv(c, Step(c, k, e).value)
    ensures e.Answered? && Step(c, k, e).value.op.None? ==> Step(c, k, e).value.model.life != AwaitBoot
  {
    hide Within, AtRest, Start, Advance, OpOk, Complete, StageOk, Models.Ready, Advanceable, Allowed, Answers, Finished, HasData;
    match e
    case Enter(value) =>
      AllowedEnter(c, k, value);
      StartGood(c, k.model, value);
      GoodIsWithin(c, Start(c, k.model, value));
      NewOpOk(c, Start(c, k.model, value).result.value);
    case Answered(done) =>
      AllowedAnswer(c, k, done);
      var op := k.op.value;
      WithinStage(c, k.model, op.stage);
      CompleteOk(c, op, done);
      FinishedData(c, op, done);
      var next := Complete(c, op, done).value;
      if Finished(c, next) {
        AdvanceGood(c, k.model, next.stage, next.data);
        var t := Advance(c, k.model, next.stage, next.data);
        if t.result.value.Some? {
          WithinStage(c, t.model, t.result.value.value);
          NewOpOk(c, t.result.value.value);
        }
      }
  }

  lemma AllowedEnter(c: KernelConfig, k: Kernel, value: Word)
    requires (k.op.Some? ==> OpOk(c, k.op.value)) && Allowed(c, k, Enter(value))
    ensures k.op.None? && k.model.life != Down
  {
  }

  lemma AllowedAnswer(c: KernelConfig, k: Kernel, done: Completion)
    requires (k.op.Some? ==> OpOk(c, k.op.value)) && Allowed(c, k, Answered(done))
    ensures k.op.Some? && Answers(AccessDue(c, k.op.value), done)
  {
  }

  lemma WithinStage(c: KernelConfig, m: Model, s: Stage)
    requires Within(c, m, s)
    ensures StageOk(s)
  {
  }

  lemma GoodIsWithin(c: KernelConfig, t: Turn<Stage>)
    requires GoodTurn(c, t)
    ensures t.result.Ok? && Within(c, t.model, t.result.value) && StageOk(t.result.value)
  {
  }

  /** Where a run of events ends: in a state, at an event that may not come there, or at a violation. */
  datatype End = At(kernel: Kernel) | NotAllowed | Violated(v: Violation)

  /** The run of `es` from `k`. */
  ghost function Run(c: KernelConfig, k: Kernel, es: seq<Event>): (r: End)
    requires Inv(c, k)
    ensures r.At? ==> Inv(c, r.kernel)
    ensures !r.Violated?
  {
    if es == [] then At(k)
    else
      match Run(c, k, es[..|es| - 1])
      case NotAllowed => NotAllowed
      case Violated(v) => Violated(v)
      case At(before) =>
        InvReady(c, before);
        var e := es[|es| - 1];
        if !Allowed(c, before, e) then NotAllowed
        else
          StepKeeps(c, before, e);
          match Step(c, before, e) case Ok(after) => At(after) case Err(v) => Violated(v)
  }

  /** A kernel awaiting boot, its pool all free. */
  ghost predicate Fresh(c: KernelConfig, k: Kernel) {
    && k.op.None? && ValidSource(c, k.model.source) && k.model == NewModel(k.model.source, Procs([], [], None, k.model.procs.frames))
    && PoolOk(c, k.model.procs.frames) && forall i :: 0 <= i < |k.model.procs.frames.owners| ==> k.model.procs.frames.owners[i] == 0
  }

  lemma FreshInv(c: KernelConfig, k: Kernel)
    requires Fresh(c, k)
    ensures Inv(c, k)
  {
    PoolWide(c, k.model.source.layout, k.model.procs.frames);
  }

  lemma PoolWide(c: KernelConfig, l: UserLayout, f: Frames)
    requires ValidLayout(c, l) && PoolOk(c, f)
    ensures f.Wide()
  {
    var b, n := c.framePool.base / PAGE, c.framePool.size / PAGE;
    assert c.framePool.base == PAGE * b && c.framePool.size == PAGE * n;
    assert PAGE * (b + n) <= PHYS_LIMIT;
  }

  /** Exactly one process is Running: the current one. */
  predicate OneRunning(p: Procs) {
    && p.current.Some?
    && (exists i :: 0 <= i < |p.pcbs| && p.pcbs[i].state == Running)
    && (forall i :: 0 <= i < |p.pcbs| && p.pcbs[i].state == Running ==> p.current == Some(p.pcbs[i].pid))
    && (forall i, j :: 0 <= i < j < |p.pcbs| ==> p.pcbs[i].pid != p.pcbs[j].pid)
  }

  /** Every run from AwaitBoot, with a plan or a disk and any answers, is free of violations, keeps every invariant of
      the process table, conserves frames, and ends each operation down or with exactly one process Running. */
  lemma EveryRun(c: KernelConfig, k: Kernel, es: seq<Event>)
    requires Fresh(c, k)
    ensures Inv(c, k) && !Run(c, k, es).Violated?
    ensures Run(c, k, es).At? ==>
      var n := Run(c, k, es).kernel;
      var flight := if n.op.Some? then InFlight(n.op.value.stage) else None;
      && Consistent(n.model.procs, n.model.entries, flight)
      && FreeCount(n.model.procs.frames) + Ownership.HeldTotal(n.model.procs.pcbs, |n.model.procs.pcbs|)
         + (if flight.Some? then |flight.value.frames| else 0) == c.framePool.size / PAGE
      && (n.op.None? && n.model.life == Up ==> OneRunning(n.model.procs))
  {
    hide Consistent, FreeCount, Run, Ownership.HeldTotal, OneRunning;
    FreshInv(c, k);
    var r := Run(c, k, es);
    if r.At? {
      var n := r.kernel;
      var flight := if n.op.Some? then InFlight(n.op.value.stage) else None;
      InvSound(c, n);
      ConsistentWide(n.model.procs, n.model.entries, flight);
      Ownership.Conserved(n.model.procs, n.model.entries, flight);
      if n.op.None? && n.model.life == Up {
        RunningIsOne(n.model.procs, n.model.entries);
      }
    }
  }

  lemma InvSound(c: KernelConfig, k: Kernel)
    requires Inv(c, k)
    ensures Sound(c, k.model, if k.op.Some? then InFlight(k.op.value.stage) else None)
    ensures k.op.None? && k.model.life == Up ==> k.model.procs.current.Some?
  {
  }

  lemma RunningIsOne(p: Procs, images: nat)
    requires Consistent(p, images, None) && p.current.Some?
    ensures OneRunning(p)
  {
    hide OwnersOk, QueueOk;
    var i := IndexOf(p.pcbs, p.current.value);
    assert p.pcbs[i].state == Running;
  }
}
