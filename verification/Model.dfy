/** The process-mode kernel's decisions between accesses: what an ENTER starts and what follows each finished stage
    (`Model` of components/os/src/procop.rs), on values. Trace notes are not modelled. */
module Models {
  import opened Words
  import opened Core
  import opened Config
  import opened Image
  import opened Space
  import opened UserCopy
  import opened Processes
  import opened ExecTables
  import opened ProcOps
  import U = UserElf
  import UX = UserElfExact

  const MAX_PROCESSES := 8
  const BLK_REGISTERS := 0x1C
  const EBADF := 9
  const EFAULT := 14
  const ENOSYS := 38

  datatype Life = AwaitBoot | Up | Down

  /** Where the processes come from: host-validated images in staging, or the boot disk. */
  datatype Source =
    | Plan(layout: UserLayout, images: seq<BootImage>)
    | Disk(layout: UserLayout, capacity: Word)

  datatype Model = Model(source: Source, entries: nat, procs: Procs, life: Life)

  /** `ProcessPlan::validate` and `DiskBoot::validate`. */
  predicate ValidSource(c: KernelConfig, s: Source) {
    && ValidLayout(c, s.layout)
    && match s
       case Plan(l, images) => 1 <= |images| <= MAX_PROCESSES && forall i :: 0 <= i < |images| ==> Accepted(images[i], c, l)
       case Disk(_, capacity) =>
         && capacity != 0 && c.staging.base % 16 == 0 && c.staging.size >= BLOCK_SIZE
         && c.staging.base + c.staging.size <= WORD_LIMIT && c.blk.size >= BLK_REGISTERS
  }

  /** The staging size as the table check takes it. */
  function StagingSize(c: KernelConfig): Word {
    if c.staging.size < WORD_LIMIT then c.staging.size else WORD_LIMIT - 1
  }

  /** The cursor's table is one the kernel validated. */
  predicate CursorOk(c: KernelConfig, capacity: Word, cursor: Cursor) {
    && cursor.Ok()
    && (cursor.table.Some? ==>
          |cursor.table.value.entries| <= MAX_ENTRIES && EntriesError(cursor.table.value.entries, capacity, StagingSize(c)).None?)
  }

  /** A model awaiting boot. */
  function NewModel(s: Source, procs: Procs): Model {
    Model(s, if s.Plan? then |s.images| else 0, procs, AwaitBoot)
  }

  /** A decision: the new model and the next stage, if it is not a violation. */
  datatype Turn<+T> = Turn(model: Model, result: Result<T, Violation>)

  /** The model may decide: a validated source and a pool of 32-bit frame numbers. */
  predicate Ready(c: KernelConfig, m: Model) {
    ValidSource(c, m.source) && m.procs.frames.Wide()
  }

  // ----- Dispatch and creation -----

  /** 0 only when every image became a process and every process exited with status 0. */
  function EmptyQueueReason(m: Model): Word {
    if |m.procs.pcbs| == m.entries && forall p :: p in m.procs.pcbs ==> p.state == Exited(0) then 0 else 1
  }

  /** Dispatches the queue's head, or shuts down when the queue is empty. */
  function DispatchNext(m: Model): Turn<Stage> {
    var o := ScheduleNext(m.procs);
    var next := m.(procs := o.procs);
    match o.result
    case Err(v) => Turn(next, Err(v))
    case Ok(Some((pid, context))) =>
      var k := IndexOf(o.procs.pcbs, pid);
      if k == |o.procs.pcbs| then Turn(next, Err(QueuedNoPcb))
      else Turn(next, Ok(Dispatch(pid, context, Satp(o.procs.pcbs[k].root))))
    case Ok(None) => Turn(next.(life := Down), Ok(Shutdown(EmptyQueueReason(next))))
  }

  /** Frames for `pid`, taken from the pool. */
  function Taken(m: Model, pid: Word, frames: seq<Word>): Model {
    m.(procs := m.procs.(frames := SetOwner(m.procs.frames, frames, pid)))
  }

  lemma PlanBuildable(c: KernelConfig, l: UserLayout, b: BootImage, frames: seq<Word>)
    requires ValidLayout(c, l) && Accepted(b, c, l) && |frames| == FramesNeeded(b.image, l)
    ensures Buildable(c, l, b, frames)
  {
  }

  /** The first image from `from` on that can be created, or the first dispatch when none is left. */
  function NextCreation(c: KernelConfig, m: Model, from: nat): Turn<Stage>
    requires Ready(c, m)
    decreases if m.source.Plan? then |m.source.images| - from else 0
  {
    match m.source
    case Disk(_, _) => Turn(m, Err(NoPlan))
    case Plan(l, images) =>
      if from >= |images| then DispatchNext(m)
      else
        var pid, b := from + 1, images[from];
        if MegapageConflict(b.image, c) then NextCreation(c, m, from + 1)
        else
          var frames := Reserve(m.procs.frames, pid, FramesNeeded(b.image, l));
          if frames.None? then NextCreation(c, m, from + 1)
          else
            PlanBuildable(c, l, b, frames.value);
            Turn(Taken(m, pid, frames.value), Ok(Create(pid, Built(c, l, b, frames.value))))
  }

  /** Admits the created process. */
  function AdmitNew(m: Model, pid: Word, entry: Word, s: Space): Turn<()>
    requires m.procs.frames.Wide()
  {
    var o := Admit(m.procs, NewPcb(pid, s, InitialContext(entry, m.source.layout.stackTop)));
    Turn(m.(procs := o.procs), o.result)
  }

  // ----- Disk boot -----

  function Fail(m: Model): Turn<Stage> {
    Turn(m.(life := Down), Ok(Shutdown(1)))
  }

  /** Loads table entry `index`, or dispatches when none is left. */
  function NextLoad(m: Model, table: Option<ExecTable>, index: nat): Turn<Stage> {
    if table.Some? && index < |table.value.entries| then Turn(m, Ok(Command(Cursor(table, index)))) else DispatchNext(m)
  }

  /** The transfer is acknowledged with `error`. */
  function Acked(m: Model, cursor: Cursor, error: Byte): Turn<Stage>
    requires cursor.Ok()
  {
    if error == 0 then Turn(m, Ok(Staged(cursor, cursor.FirstRead())))
    else if cursor.table.None? then Fail(m)
    else NextLoad(m, cursor.table, cursor.index + 1)
  }

  lemma EntryStaged(c: KernelConfig, s: Source, cursor: Cursor)
    requires ValidSource(c, s) && s.Disk? && CursorOk(c, s.capacity, cursor) && cursor.table.Some?
    ensures var n := cursor.Entry().value.byteLen; n != 0 && c.staging.Contains(c.staging.base, n)
  {
    EntriesAre(cursor.table.value.entries, s.capacity, StagingSize(c));
    assert ExecTables.Placed(cursor.Entry().value, s.capacity, StagingSize(c));
  }

  /** Block 0: an executable table, or a failure shutdown. */
  function TableRead(c: KernelConfig, m: Model, capacity: Word, data: seq<Byte>): Turn<Stage> {
    if |data| != BLOCK_SIZE then Turn(m, Err(BadBlock))
    else
      match ExecTables.Parsed(data, capacity, StagingSize(c))
      case Err(_) => Fail(m)
      case Ok(table) => NextLoad(m.(entries := |table.entries|), Some(table), 0)
  }

  /** The image of the cursor's entry in staging. */
  function Staging(c: KernelConfig, byteLen: Word, image: UserImage): BootImage {
    BootImage(c.staging.base % WORD_LIMIT, byteLen, image)
  }

  /** What the parser makes of an entry's headers is an image boot accepts. */
  lemma EntryAccepted(c: KernelConfig, s: Source, cursor: Cursor, data: seq<Byte>)
    requires ValidSource(c, s) && s.Disk? && CursorOk(c, s.capacity, cursor) && cursor.table.Some?
    ensures var n := cursor.Entry().value.byteLen;
      var r := U.Parsed(data, n, UX.RangeOf(s.layout));
      r.Ok? ==> Accepted(Staging(c, n, r.value), c, s.layout) && CopiesInPage(r.value)
  {
    hide U.Parsed, Accepted, CopiesInPage;
    EntryStaged(c, s, cursor);
    assert c.staging.base % WORD_LIMIT == c.staging.base;
    UX.ParsedIsAccepted(data, c, s.layout, c.staging.base, cursor.Entry().value.byteLen);
  }

  /** The first `len` staging bytes are `data`: block 0, or an executable's headers. */
  function StagedRead(c: KernelConfig, m: Model, cursor: Cursor, len: nat, data: seq<Byte>): Turn<Stage>
    requires Ready(c, m) && cursor.Ok() && (m.source.Disk? ==> CursorOk(c, m.source.capacity, cursor))
    requires cursor.index < MAX_ENTRIES
  {
    match m.source
    case Plan(_, _) => Turn(m, Err(NoDisk))
    case Disk(l, capacity) =>
      if cursor.table.None? then TableRead(c, m, capacity, data)
      else
        var n := cursor.Entry().value.byteLen;
        match U.Parsed(data, n, UX.RangeOf(l))
        case Err(PrefixTooShort(needed)) =>
          if needed > len then Turn(m, Ok(Staged(cursor, needed))) else NextLoad(m, cursor.table, cursor.index + 1)
        case Err(_) => NextLoad(m, cursor.table, cursor.index + 1)
        case Ok(image) =>
          EntryAccepted(c, m.source, cursor, data);
          LoadImage(c, m, cursor, data, image)
  }

  /** Creates a parsed image, or goes on with the next entry. */
  function LoadImage(c: KernelConfig, m: Model, cursor: Cursor, headers: seq<Byte>, image: UserImage): Turn<Stage>
    requires Ready(c, m) && m.source.Disk? && CursorOk(c, m.source.capacity, cursor) && cursor.table.Some?
    requires cursor.index < MAX_ENTRIES
    requires Accepted(Staging(c, cursor.Entry().value.byteLen, image), c, m.source.layout)
  {
    var l, n := m.source.layout, cursor.Entry().value.byteLen;
    if MegapageConflict(image, c) then NextLoad(m, cursor.table, cursor.index + 1)
    else
      var pid := cursor.index + 1;
      var frames := Reserve(m.procs.frames, pid, FramesNeeded(image, l));
      if frames.None? then NextLoad(m, cursor.table, cursor.index + 1)
      else
        PlanBuildable(c, l, Staging(c, n, image), frames.value);
        Turn(Taken(m, pid, frames.value), Ok(Load(cursor, headers, image, Built(c, l, Staging(c, n, image), frames.value))))
  }

  // ----- Syscalls -----

  /** `-errno` as the `a0` bit pattern. */
  function Neg(errno: Word): Word {
    Wrap(0 - errno)
  }

  /** A `u32` read as an `i32`. */
  function Signed(w: Word): int {
    if w < 0x8000_0000 then w else w - WORD_LIMIT
  }

  function RunningRoot(m: Model): Result<Word, Violation> {
    if m.procs.current.None? then Err(NoRunningProcess)
    else
      var k := IndexOf(m.procs.pcbs, m.procs.current.value);
      if k == |m.procs.pcbs| then Err(NoPcb) else Ok(m.procs.pcbs[k].root)
  }

  /** Returns `value` to the running process. */
  function Ret(m: Model, sepc: Word, value: Word): Turn<Stage> {
    if m.procs.current.None? then Turn(m, Err(NoRunningProcess)) else Turn(m, Ok(Return(sepc, value)))
  }

  /** The context a yielding process resumes with: `a0 = 0`, past its `ecall`. */
  function YieldContext(frame: FrameBytes): Context {
    var f := FromFrame(frame);
    f.(regs := f.regs[9 := 0], pc := Wrap(WordIn(frame, FRAME_SEPC) + 4))
  }

  function WriteCall(m: Model, frame: FrameBytes): Turn<Stage> {
    var sepc, fd, count := WordIn(frame, FRAME_SEPC), WordIn(frame, FRAME_A0), WordIn(frame, FRAME_A2);
    var n := Min(count, WRITE_MAX);
    if fd != 1 && fd != 2 then Ret(m, sepc, Neg(EBADF))
    else if n == 0 then Ret(m, sepc, 0)
    else
      match NewBuffer(sepc, WordIn(frame, FRAME_A1), n)
      case None => Ret(m, sepc, Neg(EFAULT))
      case Some(b) =>
        match RunningRoot(m)
        case Err(v) => Turn(m, Err(v))
        case Ok(root) => Turn(m, Ok(Walk(b, [], root, 1)))
  }

  function YieldCall(m: Model, frame: FrameBytes): Turn<Stage> {
    var o := YieldCurrent(m.procs, YieldContext(frame));
    if o.result.Err? then Turn(m.(procs := o.procs), Err(o.result.error)) else DispatchNext(m.(procs := o.procs))
  }

  /** Ends the running process and goes on with the queue. */
  function EndCall(m: Model, state: ProcState): Turn<Stage> {
    var o := EndCurrent(m.procs, state);
    if o.result.Err? then Turn(m.(procs := o.procs), Err(o.result.error)) else DispatchNext(m.(procs := o.procs))
  }

  function Syscall(m: Model, frame: FrameBytes): Turn<Stage> {
    if m.procs.current.None? then Turn(m, Err(NoRunningProcess))
    else
      var nr, sepc := WordIn(frame, FRAME_A7), WordIn(frame, FRAME_SEPC);
      if nr == 172 then Ret(m, sepc, m.procs.current.value)
      else if nr == 64 then WriteCall(m, frame)
      else if nr == 124 then YieldCall(m, frame)
      else if nr == 93 || nr == 94 then EndCall(m, Exited(Signed(WordIn(frame, FRAME_A0))))
      else Ret(m, sepc, Neg(ENOSYS))
  }

  /** The decision after a trap, from the frame. */
  function Decide(m: Model, frame: FrameBytes): Turn<Stage> {
    if WordIn(frame, FRAME_SSTATUS) % 512 >= 256 then Fail(m)
    else if WordIn(frame, FRAME_SCAUSE) == 8 then Syscall(m, frame)
    else EndCall(m, Faulted(WordIn(frame, FRAME_SCAUSE), WordIn(frame, FRAME_SEPC), WordIn(frame, FRAME_STVAL)))
  }

  // ----- The operation -----

  /** The stage an ENTER of `value` starts. */
  function Start(c: KernelConfig, m: Model, value: Word): Turn<Stage>
    requires Ready(c, m)
  {
    if value != c.trapFrame then
      if m.life == Down then Turn(m, Err(EnterAfterShutdown)) else Fail(m)
    else
      match m.life
      case AwaitBoot =>
        var up := m.(life := Up);
        if m.source.Disk? then Turn(up, Ok(Command(Cursor(None, 0)))) else NextCreation(c, up, 0)
      case Up => if m.procs.current.Some? then Turn(m, Ok(ReadFrame)) else Turn(m, Err(EnterNotRunning))
      case Down => Turn(m, Err(EnterAfterShutdown))
  }

  /** The next step of a user-copy walk. */
  function Walked(m: Model, b: Buffer, pages: seq<Word>, level: nat, pte: Word): Turn<Stage>
    requires b.Fits() && |pages| < b.Pages() && level <= 1
  {
    match DecidePte(pte, level, b.PageVa(|pages|))
    case Pointer(table) => Turn(m, Ok(Walk(b, pages, table, 0)))
    case Refused => Ret(m, b.sepc, Neg(EFAULT))
    case Page(ppn) =>
      var found := pages + [ppn];
      if |found| == b.Pages() then Turn(m, Ok(Output(b, found, 0)))
      else
        match RunningRoot(m)
        case Err(v) => Turn(m, Err(v))
        case Ok(root) => Turn(m, Ok(Walk(b, found, root, 1)))
  }

  /** The data a finished stage hands over. */
  predicate HasData(s: Stage, data: seq<Byte>) {
    match s
    case Poll(_) => |data| == 4
    case Walk(_, _, _, _) => |data| == 4
    case ReadFrame => |data| == FRAME_BYTES
    case _ => true
  }

  /** What `Advance` relies on about the model. */
  predicate Advanceable(c: KernelConfig, m: Model, s: Stage) {
    && StageOk(s)
    && (s.Create? && m.source.Plan? ==> 1 <= s.pid <= |m.source.images|)
    && ((s.Staged? || s.Load?) ==> s.cursor.index < MAX_ENTRIES)
    && (s.Staged? && m.source.Disk? ==> CursorOk(c, m.source.capacity, s.cursor))
  }

  /** Past a finished stage: the next one, or `None` when the operation has finished. */
  function Advance(c: KernelConfig, m: Model, s: Stage, data: seq<Byte>): Turn<Option<Stage>>
    requires Ready(c, m) && Advanceable(c, m, s) && HasData(s, data)
  {
    match s
    case Create(pid, space) =>
      if m.source.Disk? then Turn(m, Err(NoPlan))
      else
        var a := AdmitNew(m, pid, m.source.images[pid - 1].image.entry, space);
        if a.result.Err? then Turn(a.model, Err(a.result.error)) else Going(NextCreation(c, a.model, pid))
    case Load(cursor, _, image, space) =>
      var a := AdmitNew(m, cursor.index + 1, image.entry, space);
      if a.result.Err? then Turn(a.model, Err(a.result.error)) else Going(NextLoad(a.model, cursor.table, cursor.index + 1))
    case Command(cursor) => Turn(m, Ok(Some(Poll(cursor))))
    case Poll(cursor) =>
      var status := WordIn(data, 0);
      Turn(m, Ok(Some(if status % 4 >= 2 then Ack(cursor, status / 256 % 256) else Poll(cursor))))
    case Ack(cursor, error) => Going(Acked(m, cursor, error))
    case Staged(cursor, len) => Going(StagedRead(c, m, cursor, len, data))
    case ReadFrame => Going(Decide(m, data))
    case Walk(b, pages, _, level) => Going(Walked(m, b, pages, level, WordIn(data, 0)))
    case Output(b, pages, done) =>
      var next := done + b.ChunkLen(done);
      if next == b.n then Going(Ret(m, b.sepc, b.n)) else Turn(m, Ok(Some(Output(b, pages, next))))
    case Dispatch(_, _, _) => Turn(m, Ok(None))
    case Shutdown(_) => Turn(m, Ok(None))
    case Return(_, _) => Turn(m, Ok(None))
  }

  function Going(t: Turn<Stage>): Turn<Option<Stage>> {
    match t.result
    case Ok(s) => Turn(t.model, Ok(Some(s)))
    case Err(v) => Turn(t.model, Err(v))
  }
}
