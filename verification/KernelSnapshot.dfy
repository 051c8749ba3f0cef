/** The modeled kernel's snapshot and its `restore` (components/os/src/kernel.rs:735-1700), on values: what is saved, and the
    checks it passes before it becomes the state. */
module KernelSnapshot {
  import opened Words
  import opened Config
  import opened Image
  import opened Space
  import opened UserCopy
  import opened Processes
  import opened ExecTables
  import opened ProcOps
  import opened Models
  import opened ModelRun
  import opened ModelTight
  import opened RegionImages
  import opened Gate
  import Sv32
  import U = UserElf
  import UX = UserElfExact

  /** A stage as it is saved: a creation by its frames, a dispatch without its `satp`, a buffer by its words. */
  datatype RawStage =
    | RawCreate(pid: Word, frames: seq<Word>)
    | RawReadFrame
    | RawDispatch(to: Word, context: Context)
    | RawShutdown(reason: Word)
    | RawWalk(sepc: Word, buf: Word, n: Word, pages: seq<Word>, table: Word, level: nat)
    | RawOutput(sepc: Word, buf: Word, n: Word, pages: seq<Word>, done: nat)
    | RawReturn(sepc: Word, value: Word)
    | RawCommand(cursor: Cursor)
    | RawPoll(cursor: Cursor)
    | RawAck(cursor: Cursor, error: Byte)
    | RawStaged(cursor: Cursor, len: nat)
    | RawLoad(cursor: Cursor, headers: seq<Byte>, frames: seq<Word>)

  datatype RawOp = RawOp(stage: RawStage, step: nat, data: seq<Byte>)

  /** A snapshot; the frame owners are saved as a bitmap, and the source is the kernel's own. */
  datatype Snapshot = Snapshot(
    life: Life, entries: nat, pcbs: seq<Pcb>, queue: seq<Word>, current: Option<Word>, bits: seq<bool>,
    op: Option<RawOp>, outstanding: Option<Long>, held: Option<Long>, next: Long)

  /** The state a snapshot is taken of, and becomes. */
  datatype Saved = Saved(model: Model, state: Position, held: Option<Long>, next: Long)

  // ----- Taking it -----

  function RawOf(s: Stage): RawStage {
    match s
    case Create(pid, space) => RawCreate(pid, space.frames)
    case ReadFrame => RawReadFrame
    case Dispatch(pid, context, _) => RawDispatch(pid, context)
    case Shutdown(reason) => RawShutdown(reason)
    case Walk(b, pages, table, level) => RawWalk(b.sepc, b.buf, b.n, pages, table, level)
    case Output(b, pages, done) => RawOutput(b.sepc, b.buf, b.n, pages, done)
    case Return(sepc, value) => RawReturn(sepc, value)
    case Command(cursor) => RawCommand(cursor)
    case Poll(cursor) => RawPoll(cursor)
    case Ack(cursor, error) => RawAck(cursor, error)
    case Staged(cursor, len) => RawStaged(cursor, len)
    case Load(cursor, headers, _, space) => RawLoad(cursor, headers, space.frames)
  }

  /** The frames in use. */
  function BitsOf(fs: Frames): seq<bool> {
    seq(|fs.owners|, i requires 0 <= i < |fs.owners| => fs.owners[i] != 0)
  }

  function Take(s: Saved): Snapshot {
    var op := OpOf(s.state);
    Snapshot(s.model.life, s.model.entries, s.model.procs.pcbs, s.model.procs.queue, s.model.procs.current, BitsOf(s.model.procs.frames),
             if op.Some? then Some(RawOp(RawOf(op.value.stage), op.value.step, op.value.data)) else None,
             if s.state.Wait? then Some(s.state.txn) else None, s.held, s.next)
  }

  // ----- The process section -----

  /** The owner of an allocated frame that no process claims. */
  const UNKNOWN: Word := 0xFFFF_FFFF

  /** The first process that holds frame `f`. */
  function Claimant(pcbs: seq<Pcb>, f: int): Word {
    if pcbs == [] then UNKNOWN else if f in pcbs[0].Held() then pcbs[0].pid else Claimant(pcbs[1..], f)
  }

  function DecodedFrames(base: Word, bits: seq<bool>, pcbs: seq<Pcb>): Frames {
    Frames(base, seq<Word>(|bits|, i requires 0 <= i < |bits| => if bits[i] then Claimant(pcbs, base + i) else 0))
  }

  /** The image a live process is checked against: its plan's, or for a disk boot the one its regions describe. */
  function ImageFor(c: KernelConfig, source: Source, p: Pcb): Option<BootImage> {
    match source
    case Plan(_, images) => if 1 <= p.pid <= |images| then Some(images[p.pid - 1]) else None
    case Disk(l, _) =>
      match RegionImage(p.regions, l) case None => None case Some(image) => Some(BootImage(c.staging.base % WORD_LIMIT, 0, image))
  }

  /** The space that image builds in the process's frames. */
  function SpaceOf(c: KernelConfig, source: Source, p: Pcb): Option<Space> {
    var frames := SortWords(p.Held());
    match ImageFor(c, source, p)
    case None => None
    case Some(b) =>
      if Buildable(c, source.layout, b, frames) && !MegapageConflict(b.image, c) then Some(Built(c, source.layout, b, frames)) else None
  }

  /** A live process has the tables and regions its image builds. */
  predicate ProcessOk(c: KernelConfig, source: Source, p: Pcb) {
    p.state.Terminal() ||
    (SpaceOf(c, source, p).Some? && var s := SpaceOf(c, source, p).value; s.root == p.root && s.tables == p.tables && s.regions == p.regions)
  }

  /** `decode_model`. */
  function DecodeModel(c: KernelConfig, source: Source, base: Word, s: Snapshot): Option<Model> {
    var entries := if source.Plan? then |source.images| else s.entries;
    if |s.bits| != c.framePool.size / PAGE then None
    else if source.Disk? && (s.entries > MAX_PROCESSES || (s.life == AwaitBoot && s.entries != 0)) then None
    else if !forall i :: 0 <= i < |s.pcbs| ==> ProcessOk(c, source, s.pcbs[i]) then None
    else Some(Model(source, entries, Procs(s.pcbs, s.queue, s.current, DecodedFrames(base, s.bits, s.pcbs)), s.life))
  }

  // ----- The operation -----

  /** `boot_cursor`. */
  predicate CursorFits(c: KernelConfig, m: Model, cursor: Cursor) {
    && m.source.Disk? && m.life == Up && m.procs.current.None?
    && match cursor.table
       case None => cursor.index == 0 && m.entries == 0
       case Some(table) =>
         && Countable(table) && ExecTables.Parsed(EncodedBlock(table), m.source.capacity, StagingSize(c)) == Ok(table)
         && m.entries == |table.entries| && cursor.index < |table.entries|
         && forall i :: 0 <= i < |m.procs.pcbs| ==> m.procs.pcbs[i].pid <= cursor.index
  }

  /** Frames for a creation of `image`. */
  predicate FramesFit(c: KernelConfig, l: UserLayout, b: BootImage, frames: seq<Word>) {
    Ascending(frames) && Buildable(c, l, b, frames) && !MegapageConflict(b.image, c)
  }

  /** The pages of a buffer from page `i` on, as far as the regions tell them. */
  function Expected(rs: seq<Region>, b: Buffer, i: nat): seq<Word>
    requires b.Fits() && i <= b.Pages()
    decreases b.Pages() - i
  {
    if i == b.Pages() then []
    else match RegionPage(rs, b.PageVa(i)) case None => [] case Some(f) => [f] + Expected(rs, b, i + 1)
  }

  /** `syscall_space`: the running process and its space, if a `write` of the buffer may be under way. */
  function Writer(c: KernelConfig, m: Model): Option<(Pcb, Space)> {
    if m.life != Up || m.procs.current.None? then None
    else
      var k := IndexOf(m.procs.pcbs, m.procs.current.value);
      if k == |m.procs.pcbs| || SpaceOf(c, m.source, m.procs.pcbs[k]).None? then None
      else Some((m.procs.pcbs[k], SpaceOf(c, m.source, m.procs.pcbs[k]).value))
  }

  /** The table a walk of `va` reads. */
  predicate TableFits(s: Space, va: Word, table: Word, level: nat) {
    (level == 1 && table == s.root) || (level == 0 && Lookup(s.slots, Sv32.Vpn1(va)) == Some(table))
  }

  function Running(m: Model): bool {
    m.life == Up && m.procs.current.Some?
  }

  /** `proc_op`, up to the step and the data: the stage, if the model can be in it. */
  function StageOf(c: KernelConfig, m: Model, r: RawStage): Option<Stage> {
    match r
    case RawCreate(pid, frames) =>
      if !m.source.Plan? || !(1 <= pid <= |m.source.images|) || m.life != Up || m.procs.current.Some? then None
      else
        var b := m.source.images[pid - 1];
        if (exists i :: 0 <= i < |m.procs.pcbs| && m.procs.pcbs[i].pid >= pid) || !FramesFit(c, m.source.layout, b, frames) then None
        else Some(Create(pid, Built(c, m.source.layout, b, frames)))
    case RawReadFrame => if Running(m) then Some(ReadFrame) else None
    case RawDispatch(pid, context) =>
      if m.life != Up || m.procs.current != Some(pid) then None
      else
        var k := IndexOf(m.procs.pcbs, pid);
        Some(Dispatch(pid, context, Satp(if k < |m.procs.pcbs| then m.procs.pcbs[k].root else 0)))
    case RawShutdown(reason) => if m.life == Down && reason <= 1 then Some(Shutdown(reason)) else None
    case RawWalk(sepc, buf, n, pages, table, level) =>
      (match (Writer(c, m), NewBuffer(sepc, buf, n))
       case (Some((p, s)), Some(b)) =>
         if |pages| < b.Pages() && pages <= Expected(p.regions, b, 0) && TableFits(s, b.PageVa(|pages|), table, level)
         then Some(Walk(b, pages, table, level)) else None
       case _ => None)
    case RawOutput(sepc, buf, n, pages, done) =>
      (match (Writer(c, m), NewBuffer(sepc, buf, n))
       case (Some((p, _)), Some(b)) => if pages == Expected(p.regions, b, 0) && b.StartFrom(0, done) then Some(Output(b, pages, done)) else None
       case _ => None)
    case RawReturn(sepc, value) => if Running(m) then Some(Return(sepc, value)) else None
    case RawCommand(cursor) => if CursorFits(c, m, cursor) then Some(Command(cursor)) else None
    case RawPoll(cursor) => if CursorFits(c, m, cursor) then Some(Poll(cursor)) else None
    case RawAck(cursor, error) => if CursorFits(c, m, cursor) then Some(Ack(cursor, error)) else None
    case RawStaged(cursor, len) =>
      if CursorFits(c, m, cursor) && StagedFits(cursor, len) then Some(Staged(cursor, len)) else None
    case RawLoad(cursor, headers, frames) =>
      if !CursorFits(c, m, cursor) || cursor.table.None? then None
      else
        var n := cursor.Entry().value.byteLen;
        (match U.Parsed(headers, n, UX.RangeOf(m.source.layout))
         case Err(_) => None
         case Ok(image) =>
           if !FramesFit(c, m.source.layout, Staging(c, n, image), frames) then None
           else Some(Load(cursor, headers, image, Built(c, m.source.layout, Staging(c, n, image), frames))))
  }

  /** A staging read a boot makes. */
  predicate StagedFits(cursor: Cursor, len: nat) {
    cursor.Ok() && match cursor.Entry() case None => len == BLOCK_SIZE case Some(e) => cursor.FirstRead() <= len <= e.byteLen
  }

  function OpFrom(c: KernelConfig, m: Model, r: RawOp): Option<ProcOp> {
    match StageOf(c, m, r.stage)
    case None => None
    case Some(s) => if OpOk(c, ProcOp(s, r.step, r.data)) then Some(ProcOp(s, r.step, r.data)) else None
  }

  // ----- The table and the operation together -----

  /** The frames of the creation in flight are allocated, claimed by no process, and become its. */
  function Granted(fs: Frames, creating: Option<Creating>): Option<Frames> {
    match creating
    case None => Some(fs)
    case Some(x) =>
      if NoDup(x.frames) && forall f :: f in x.frames ==> fs.Owner(f) == Some(UNKNOWN) then Some(SetOwner(fs, x.frames, x.pid)) else None
  }

  /** `check_life`. */
  ghost function CheckLife(m: Model, op: Option<ProcOp>): Option<Model> {
    var creating := if op.Some? then InFlight(op.value.stage) else None;
    match Granted(m.procs.frames, creating)
    case None => None
    case Some(fs) =>
      var procs := m.procs.(frames := fs);
      if creating.Some? && !Lowest(fs, creating.value.frames) then None
      else if UNKNOWN in fs.owners || !Consistent(procs, m.entries, creating) then None
      else if m.life == AwaitBoot && (op.Some? || m.procs.pcbs != []) then None
      else if m.life == Up && op.None? && m.procs.current.None? then None
      else Some(m.(procs := procs))
  }

  /** `restore`: the state the snapshot becomes, if it passes every check. */
  ghost function Restored(c: KernelConfig, source: Source, base: Word, s: Snapshot): Option<Saved> {
    match DecodeModel(c, source, base, s)
    case None => None
    case Some(m) =>
      var op := if s.op.Some? then OpFrom(c, m, s.op.value) else None;
      if s.op.Some? && op.None? then None
      else if s.held.Some? != op.Some? then None
      else if op.Some? && !(OpOk(c, op.value) && Permitted(c, AccessDue(c, op.value))) then None
      else if s.outstanding.Some? && s.next != s.outstanding.value + 1 then None
      else
        match CheckLife(m, op)
        case None => None
        case Some(n) =>
          Some(Saved(n, if op.None? then Idle else if s.outstanding.None? then Issue(op.value) else Wait(op.value, s.outstanding.value),
                     s.held, s.next))
  }
}
