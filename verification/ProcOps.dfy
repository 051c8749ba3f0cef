/** A process-mode operation: its stages, each a fixed list of accesses (components/os/src/procop.rs:160-541,
    components/os/src/boot.rs, the trap-frame layout of components/os/src/process.rs). */
module ProcOps {
  import opened Words
  import opened Memory
  import opened Core
  import opened Config
  import opened Image
  import opened Space
  import SpaceRun
  import Sv32
  import opened UserCopy
  import opened Processes
  import opened ExecTables
  import U = UserElf

  // ----- The trap frame -----

  const CONTEXT_BYTES := 0x84
  const FRAME_A0 := 0x24
  const FRAME_A1 := 0x28
  const FRAME_A2 := 0x2C
  const FRAME_A7 := 0x40
  const FRAME_SEPC := 0x7C
  const FRAME_SSTATUS := 0x80
  const FRAME_SCAUSE := 0x84
  const FRAME_STVAL := 0x88
  const FRAME_SATP := 0x8C
  const FRAME_ACTION := 0x90

  type FrameBytes = f: seq<Byte> | |f| == FRAME_BYTES witness seq(FRAME_BYTES, i => 0)

  /** The word at byte `offset` of a byte string. */
  function WordIn(s: seq<Byte>, offset: nat): Word
    requires offset + 4 <= |s|
  {
    LeWord(s[offset..offset + 4])
  }

  /** Word `k` of a context as the trap frame lays it out: the registers, `pc`, `sstatus`. */
  function ContextWord(c: Context, k: nat): Word
    requires k < 33
  {
    if k < 31 then c.regs[k] else if k == 31 then c.pc else c.sstatus
  }

  /** `to_frame`. */
  function ToFrame(c: Context): (f: seq<Byte>)
    ensures |f| == CONTEXT_BYTES
  {
    seq<Byte>(CONTEXT_BYTES, i requires 0 <= i < CONTEXT_BYTES => LeBytes(ContextWord(c, i / 4))[i % 4])
  }

  /** `from_frame`: the context in the first `CONTEXT_BYTES` of a frame. */
  function FromFrame(f: seq<Byte>): Context
    requires |f| >= CONTEXT_BYTES
  {
    Context(seq<Word>(31, k requires 0 <= k < 31 => WordIn(f, 4 * k)), WordIn(f, FRAME_SEPC), WordIn(f, FRAME_SSTATUS))
  }

  lemma ToFrameWord(c: Context, k: nat)
    requires k < 33
    ensures WordIn(ToFrame(c), 4 * k) == ContextWord(c, k)
  {
    hide LeBytes, LeWord, ContextWord;
    var f, w := ToFrame(c), ContextWord(c, k);
    var s := f[4 * k..4 * k + 4];
    forall i | 0 <= i < 4 ensures s[i] == LeBytes(w)[i] {
      WordIndex(4 * k + i, k);
    }
    assert s == LeBytes(w);
  }

  /** A context written to a frame is read back. */
  lemma ContextRoundTrip(c: Context)
    ensures FromFrame(ToFrame(c)) == c
  {
    hide WordIn, ToFrame;
    var d := FromFrame(ToFrame(c));
    forall k | 0 <= k < 31 ensures d.regs[k] == c.regs[k] {
      ToFrameWord(c, k);
    }
    ToFrameWord(c, 31);
    ToFrameWord(c, 32);
  }

  /** A frame's context bytes are determined by the context read from them. */
  lemma FrameRoundTrip(f: seq<Byte>)
    requires |f| >= CONTEXT_BYTES
    ensures ToFrame(FromFrame(f)) == f[..CONTEXT_BYTES]
  {
    hide LeBytes, LeWord;
    var g := ToFrame(FromFrame(f));
    forall i | 0 <= i < CONTEXT_BYTES ensures g[i] == f[i] {
      var k := i / 4;
      WordIndex(i, k);
      LeBytesOfWord(f[4 * k..4 * k + 4]);
      assert ContextWord(FromFrame(f), k) == WordIn(f, 4 * k);
      assert f[4 * k..4 * k + 4][i - 4 * k] == f[i];
    }
  }

  /** A new process's context: `sp` is the stack top, `pc` the entry, everything else zero. */
  function InitialContext(entry: Word, stackTop: Word): Context {
    Context(seq<Word>(31, k => if k == 1 then stackTop else 0), entry, 0)
  }

  // ----- Stages -----

  /** Where boot is on the disk: block 0, or the entry being loaded. */
  datatype Cursor = Cursor(table: Option<ExecTable>, index: nat) {
    predicate Ok() {
      table.Some? ==> index < |table.value.entries|
    }

    function Entry(): Option<ExecEntry>
      requires Ok()
    {
      if table.Some? then Some(table.value.entries[index]) else None
    }

    function Lba(): Word
      requires Ok()
    {
      if Entry().Some? then Entry().value.startLba else 0
    }

    function Blocks(): Word
      requires Ok()
    {
      if Entry().Some? then Entry().value.Blocks() else 1
    }

    /** The staging bytes read first: block 0, or the ELF header (the whole file if shorter). */
    function FirstRead(): nat
      requires Ok()
    {
      if Entry().Some? then Min(Entry().value.byteLen, U.EHDR_SIZE) else BLOCK_SIZE
    }
  }

  datatype Stage =
    | Create(pid: Word, space: Space)
    | ReadFrame
    | Dispatch(to: Word, context: Context, satp: Word)
    | Shutdown(reason: Word)
    | Walk(buffer: Buffer, pages: seq<Word>, table: Word, level: nat)
    | Output(buffer: Buffer, pages: seq<Word>, done: nat)
    | Return(sepc: Word, value: Word)
    | Command(cursor: Cursor)
    | Poll(cursor: Cursor)
    | Ack(cursor: Cursor, error: Byte)
    | Staged(cursor: Cursor, len: nat)
    | Load(cursor: Cursor, headers: seq<Byte>, image: UserImage, space: Space)

  /** What every stage a kernel can be in satisfies by itself. */
  predicate StageOk(s: Stage) {
    match s
    case Create(_, space) => space.ptes != []
    case Walk(b, pages, _, level) => b.Fits() && |pages| < b.Pages() && level <= 1
    case Output(b, pages, done) => b.Fits() && |pages| == b.Pages() && b.StartFrom(0, done) && done < b.n
    case Command(cursor) => cursor.Ok()
    case Poll(cursor) => cursor.Ok()
    case Ack(cursor, _) => cursor.Ok()
    case Staged(cursor, len) => cursor.Ok() && len > 0
    case Load(cursor, _, _, space) => cursor.Ok() && cursor.table.Some? && space.ptes != []
    case _ => true
  }

  datatype ProcOp = ProcOp(stage: Stage, step: nat, data: seq<Byte>)

  function NewOp(s: Stage): ProcOp {
    ProcOp(s, 0, [])
  }

  function FrameChunks(c: KernelConfig): seq<Chunk> {
    Chunks(c.trapFrame, FRAME_BYTES)
  }

  function DispatchChunks(c: KernelConfig): seq<Chunk> {
    Chunks(c.trapFrame, CONTEXT_BYTES) + Chunks(c.trapFrame + FRAME_SATP, 8)
  }

  function ShutdownChunks(c: KernelConfig): seq<Chunk> {
    Chunks(c.trapFrame + FRAME_ACTION, 8)
  }

  function StagedChunks(c: KernelConfig, len: nat): seq<Chunk> {
    Chunks(c.staging.base, len)
  }

  /** The accesses of a stage. */
  function Steps(c: KernelConfig, s: Stage): nat
    requires StageOk(s)
  {
    match s
    case Create(_, space) => SpaceRun.Steps(space)
    case Load(_, _, _, space) => SpaceRun.Steps(space)
    case ReadFrame => |FrameChunks(c)|
    case Dispatch(_, _, _) => |DispatchChunks(c)|
    case Shutdown(_) => |ShutdownChunks(c)|
    case Walk(_, _, _, _) => 1
    case Output(b, _, done) => 1 + b.ChunkLen(done)
    case Return(_, _) => 2
    case Command(_) => 4
    case Poll(_) => 1
    case Ack(_, _) => 1
    case Staged(_, len) => |StagedChunks(c, len)|
  }

  /** The working data a step requires. */
  function DataLen(c: KernelConfig, s: Stage, step: nat): nat
    requires StageOk(s) && step <= Steps(c, s)
  {
    match s
    case Create(_, space) => SpaceRun.DataLen(space, step)
    case Load(_, _, _, space) => SpaceRun.DataLen(space, step)
    case ReadFrame => TotalLen(FrameChunks(c)[..step])
    case Staged(_, len) => TotalLen(StagedChunks(c, len)[..step])
    case Output(b, _, done) => if step > 0 then b.ChunkLen(done) else 0
    case _ => 0
  }

  /** The bytes a Dispatch leaves in the frame: the context, `satp`, and `action = Resume`. */
  function DispatchBytes(context: Context, satp: Word): FrameBytes {
    ToFrame(context) + [0, 0, 0, 0, 0, 0, 0, 0] + LeBytes(satp) + [0, 0, 0, 0, 0, 0, 0, 0]
  }

  /** `action = Shutdown` and the reason. */
  function ShutdownBytes(reason: Word): seq<Byte> {
    LeBytes(1) + LeBytes(reason)
  }

  /** The part of `bytes`, which start at `base`, that chunk `k` covers. */
  function WriteOf(cs: seq<Chunk>, k: nat, base: int, bytes: seq<Byte>): Access
    requires k < |cs| && base <= cs[k].addr && cs[k].addr + cs[k].len <= base + |bytes|
  {
    Write(cs[k].addr, bytes[cs[k].addr - base..cs[k].addr - base + cs[k].len])
  }

  /** The physical address of the byte at `va`, in a buffer whose pages are at `pages`. */
  function Physical(b: Buffer, pages: seq<Word>, va: int): int
    requires 0 <= va / PAGE - b.buf / PAGE < |pages|
  {
    pages[va / PAGE - b.buf / PAGE] * PAGE + va % PAGE
  }

  lemma OutputPage(b: Buffer, done: nat)
    requires b.Fits() && done < b.n
    ensures 0 <= (b.buf + done) / PAGE - b.buf / PAGE < b.Pages()
  {
  }

  /** A chunk of a split lies inside the range. */
  lemma ChunkInside(base: int, len: nat, k: nat)
    requires k < |Chunks(base, len)|
    ensures var c := Chunks(base, len)[k]; base <= c.addr && c.addr + c.len <= base + len && Short(c.addr, c.len)
  {
    ChunksTile(base, len);
  }

  /** The access due at `step`, with `data` the working data. */
  function AccessOf(c: KernelConfig, s: Stage, step: nat, data: seq<Byte>): Access
    requires StageOk(s) && step < Steps(c, s) && |data| == DataLen(c, s, step)
  {
    match s
    case Create(_, space) => SpaceRun.AccessAt(space, step, data).value
    case Load(_, _, _, space) => SpaceRun.AccessAt(space, step, data).value
    case ReadFrame => Read(FrameChunks(c)[step].addr, FrameChunks(c)[step].len)
    case Dispatch(_, context, satp) =>
      DispatchChunkInside(c, step);
      WriteOf(DispatchChunks(c), step, c.trapFrame, DispatchBytes(context, satp))
    case Shutdown(reason) =>
      ChunkInside(c.trapFrame + FRAME_ACTION, 8, step);
      WriteOf(ShutdownChunks(c), step, c.trapFrame + FRAME_ACTION, ShutdownBytes(reason))
    case Walk(b, pages, table, level) => Read(Sv32.PteAddress(table, b.PageVa(|pages|), level), 4)
    case Output(b, pages, done) =>
      OutputPage(b, done);
      if step == 0 then Read(Physical(b, pages, b.buf + done), b.ChunkLen(done)) else Write(c.uartTx, [data[step - 1]])
    case Return(sepc, value) =>
      if step == 0 then Write(c.trapFrame + FRAME_A0, LeBytes(value)) else Write(c.trapFrame + FRAME_SEPC, LeBytes(Wrap(sepc + 4)))
    case Command(cursor) =>
      if step == 0 then Write(c.blk.base + 0x08, LeBytes(cursor.Lba()))
      else if step == 1 then Write(c.blk.base + 0x0C, LeBytes(c.staging.base % WORD_LIMIT))
      else if step == 2 then Write(c.blk.base + 0x10, LeBytes(cursor.Blocks()))
      else Write(c.blk.base, LeBytes(1))
    case Poll(_) => Read(c.blk.base + 0x04, 4)
    case Ack(_, _) => Write(c.blk.base + 0x18, LeBytes(1))
    case Staged(_, len) => Read(StagedChunks(c, len)[step].addr, StagedChunks(c, len)[step].len)
  }

  lemma DispatchChunkInside(c: KernelConfig, k: nat)
    requires k < |DispatchChunks(c)|
    ensures var d := DispatchChunks(c)[k];
      c.trapFrame <= d.addr && d.addr + d.len <= c.trapFrame + FRAME_BYTES && Short(d.addr, d.len)
  {
    var n := |Chunks(c.trapFrame, CONTEXT_BYTES)|;
    if k < n {
      ChunkInside(c.trapFrame, CONTEXT_BYTES, k);
    } else {
      ChunkInside(c.trapFrame + FRAME_SATP, 8, k - n);
    }
  }

  /** An operation at a step its stage has, with the working data the step requires: what `from_parts` accepts. */
  predicate OpOk(c: KernelConfig, op: ProcOp) {
    StageOk(op.stage) && op.step < Steps(c, op.stage) && |op.data| == DataLen(c, op.stage, op.step)
  }

  lemma OpStage(c: KernelConfig, op: ProcOp)
    requires OpOk(c, op)
    ensures StageOk(op.stage)
  {
  }

  function AccessDue(c: KernelConfig, op: ProcOp): Access
    requires OpOk(c, op)
  {
    AccessOf(c, op.stage, op.step, op.data)
  }

  datatype CoreError = DataLength | WrongKind

  /** A completion answers an access: data of the right length, or a write's acknowledgement. */
  predicate Answers(a: Access, done: Completion) {
    match a
    case Read(_, len) => done.Data? && |done.data| == len
    case Write(_, _) => done.Written?
  }

  /** `complete`: past the current access, dropping data the next step does not want. */
  function Complete(c: KernelConfig, op: ProcOp, done: Completion): (r: Result<ProcOp, CoreError>)
    requires OpOk(c, op)
    ensures r.Ok? <==> Answers(AccessDue(c, op), done)
  {
    match (AccessDue(c, op), done)
    case (Read(_, len), Data(d)) => if |d| != len then Err(DataLength) else Ok(Next(c, op, op.data + d))
    case (Write(_, _), Written) => Ok(Next(c, op, op.data))
    case _ => Err(WrongKind)
  }

  function Next(c: KernelConfig, op: ProcOp, data: seq<Byte>): ProcOp
    requires StageOk(op.stage)
  {
    var step := op.step + 1;
    ProcOp(op.stage, step, if step < Steps(c, op.stage) && |data| != DataLen(c, op.stage, step) then [] else data)
  }

  predicate Finished(c: KernelConfig, op: ProcOp)
    requires StageOk(op.stage)
  {
    op.step >= Steps(c, op.stage)
  }

  // ----- Every stage can run -----

  lemma ChunksNotEmpty(base: int, len: nat)
    requires len > 0
    ensures |Chunks(base, len)| > 0
  {
  }

  /** A stage starts at a step it has, with no data. */
  lemma NewOpOk(c: KernelConfig, s: Stage)
    requires StageOk(s)
    ensures OpOk(c, NewOp(s))
  {
    hide Chunks;
    ChunksNotEmpty(c.trapFrame, FRAME_BYTES);
    ChunksNotEmpty(c.trapFrame, CONTEXT_BYTES);
    ChunksNotEmpty(c.trapFrame + FRAME_ACTION, 8);
    if s.Staged? {
      ChunksNotEmpty(c.staging.base, s.len);
    }
  }

  lemma ReadStep(cs: seq<Chunk>, k: nat)
    requires k < |cs|
    ensures TotalLen(cs[..k + 1]) == TotalLen(cs[..k]) + cs[k].len
  {
    TotalAppend(cs[..k], cs[k]);
    assert cs[..k + 1] == cs[..k] + [cs[k]];
  }

  lemma {:induction false} TotalAppend(cs: seq<Chunk>, c: Chunk)
    ensures TotalLen(cs + [c]) == TotalLen(cs) + c.len
  {
    if cs != [] {
      TotalAppend(cs[1..], c);
      assert (cs + [c])[1..] == cs[1..] + [c];
    } else {
      assert cs + [c] == [c];
      assert [c][1..] == [];
    }
  }

  /** The data a step leaves is the data the next step requires. */
  lemma NextData(c: KernelConfig, op: ProcOp, done: Completion)
    requires OpOk(c, op) && Answers(AccessDue(c, op), done) && op.step + 1 < Steps(c, op.stage)
    ensures |Complete(c, op, done).value.data| == DataLen(c, op.stage, op.step + 1)
  {
    hide Chunks, TotalLen;
    var n := op.step + 1;
    match op.stage
    case ReadFrame =>
      ReadStep(FrameChunks(c), op.step);
    case Staged(_, len) =>
      ReadStep(StagedChunks(c, len), op.step);
    case Create(_, space) =>
      SpaceData(space, op.step, op.data, done);
    case Load(_, _, _, space) =>
      SpaceData(space, op.step, op.data, done);
    case _ =>
  }

  lemma SpaceData(s: Space, step: nat, data: seq<Byte>, done: Completion)
    requires step + 1 < SpaceRun.Steps(s) && |data| == SpaceRun.DataLen(s, step)
    requires Answers(SpaceRun.AccessAt(s, step, data).value, done)
    ensures var d := match done case Data(x) => data + x case Written => data;
      |d| == SpaceRun.DataLen(s, step + 1) || SpaceRun.DataLen(s, step + 1) == 0
  {
    hide SpaceRun.ZeroAt;
  }

  /** A completed access leaves an operation that can go on, or a finished one. */
  lemma CompleteOk(c: KernelConfig, op: ProcOp, done: Completion)
    requires OpOk(c, op) && Answers(AccessDue(c, op), done)
    ensures var next := Complete(c, op, done).value;
      next.stage == op.stage && next.step == op.step + 1 && (Finished(c, next) || OpOk(c, next))
  {
    hide DataLen, AccessOf;
    if op.step + 1 < Steps(c, op.stage) {
      NextData(c, op, done);
    }
  }
}
