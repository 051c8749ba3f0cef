/** The block-device DMA controller (components/platform/src/dma.rs) as values: registers, validation, and the engine that
    sends one request at a time. */
module Dma {
  import opened Words
  import opened Config

  const BLOCK := 512
  const BEAT := 16
  const BEATS := 32
  const MAX_CAPACITY := 0x1_0000_0000

  // STATUS.ERROR codes.
  const BAD_COMMAND := 1
  const BAD_COUNT := 2
  const LBA_RANGE := 3
  const DMA_ALIGN := 4
  const DMA_RANGE := 5
  const DMA_FAULT := 6
  const MEDIA_ERROR := 7

  datatype DmaConfig = DmaConfig(capacity: Long, base: Long, size: Long) {
    /** What `new` accepts. */
    predicate Valid() {
      1 <= capacity <= MAX_CAPACITY && size != 0 && base + size <= WORD_LIMIT
    }
  }

  datatype Operation = Read | Write

  /** The registers a command latched. */
  datatype Latched = Latched(op: Operation, lba: Word, addr: Word, count: Word)

  datatype Engine = Idle | Issue | WaitMedia(txn: Long) | WaitBeat(txn: Long)

  datatype Ctl = Ctl(
    lba: Word, memAddr: Word, blockCount: Word, irqEnable: bool,
    busy: bool, done: bool, rejected: bool, error: Byte,
    latched: Option<Latched>, engine: Engine, block: Word, beat: nat, buffer: seq<Byte>,
    dmaTxn: Long, blkTxn: Long, irqLevel: bool)

  const RESET := Ctl(0, 0, 0, false, false, false, false, 0, None, Idle, 0, 0, [], 0, 0, false)

  /** The engine's requests: a whole block to or from the media, a 16-byte beat to or from memory. */
  datatype Request =
    | ReadBlock(txn: Long, lba: int)
    | WriteBlock(txn: Long, lba: int, data: seq<Byte>)
    | BeatOut(txn: Long, addr: int, data: seq<Byte>)
    | BeatIn(txn: Long, addr: int)

  /** Results: of a media request and of a beat, data or an acknowledgement, or a failure. */
  datatype Outcome =
    | BlockData(data: seq<Byte>) | BlockDone | BlockError
    | BeatDone | BeatData(data: seq<Byte>) | BeatFault

  /** Protocol violations: they fault the session. */
  datatype Fault = NothingToIssue | TxnExhausted | NotOutstanding | WrongLength

  // ----- Validation -----

  /** `validate`: the operation, or the first failing check's code. */
  function Validate(g: DmaConfig, command: Word, lba: Word, addr: Word, count: Word): Result<Operation, Byte> {
    if command != 1 && command != 2 then Err(BAD_COMMAND)
    else if count == 0 then Err(BAD_COUNT)
    else if lba + count > g.capacity then Err(LBA_RANGE)
    else if addr % BEAT != 0 then Err(DMA_ALIGN)
    else if addr < g.base || addr + count * BLOCK > g.base + g.size then Err(DMA_RANGE)
    else Ok(if command == 1 then Read else Write)
  }

  /** A latched command is one validation accepts. */
  predicate LatchedOk(g: DmaConfig, l: Latched) {
    Validate(g, if l.op.Read? then 1 else 2, l.lba, l.addr, l.count) == Ok(l.op)
  }

  // ----- Registers -----

  function WithIrq(x: Ctl): Ctl {
    x.(irqLevel := x.done && x.irqEnable)
  }

  /** Ends the command, or a failed validation, with `code`. */
  function Complete(x: Ctl, code: Byte): Ctl {
    WithIrq(x.(busy := false, done := true, error := code, latched := None, engine := Idle, block := 0, beat := 0, buffer := []))
  }

  /** A `COMMAND` write. */
  function Command(g: DmaConfig, x: Ctl, value: Word): Ctl {
    if x.busy || x.done then x.(rejected := true)
    else
      match Validate(g, value, x.lba, x.memAddr, x.blockCount)
      case Ok(op) => x.(busy := true, latched := Some(Latched(op, x.lba, x.memAddr, x.blockCount)), engine := Issue)
      case Err(code) => Complete(x, code)
  }

  /** A register write at `offset`; no other offset can be written. */
  function WriteRegister(g: DmaConfig, x: Ctl, offset: nat, value: Word): Option<Ctl> {
    if offset == 0x00 then Some(Command(g, x, value))
    else if offset == 0x04 then Some(if value % 8 >= 4 then x.(rejected := false) else x)
    else if offset == 0x08 then Some(x.(lba := value))
    else if offset == 0x0C then Some(x.(memAddr := value))
    else if offset == 0x10 then Some(x.(blockCount := value))
    else if offset == 0x14 then Some(WithIrq(x.(irqEnable := value % 2 == 1)))
    else if offset == 0x18 then
      Some(if value % 2 == 1 && x.done then WithIrq(x.(done := false, error := 0)) else x)
    else None
  }

  // ----- The engine -----

  /** The address of the beat due. */
  function BeatAddr(l: Latched, block: nat, beat: nat): int {
    l.addr + BLOCK * block + BEAT * beat
  }

  /** A READ's buffer, once filled, holds the beat due. */
  predicate BufferOk(x: Ctl) {
    x.engine.Issue? && x.latched.Some? && x.latched.value.op.Read? && x.buffer != [] ==> BEAT * x.beat + BEAT <= |x.buffer|
  }

  /** `Wake(ISSUE)`: the next request, and the controller waiting for its result. */
  function IssueNext(x: Ctl): Result<(Ctl, Request), Fault>
    requires BufferOk(x)
  {
    if !x.engine.Issue? || x.latched.None? then Err(NothingToIssue)
    else
      var l := x.latched.value;
      var media := if l.op.Read? then x.buffer == [] else x.beat == BEATS;
      if (if media then x.blkTxn else x.dmaTxn) == LONG_MAX then Err(TxnExhausted)
      else if media then
        var waiting := x.(blkTxn := x.blkTxn + 1, engine := WaitMedia(x.blkTxn));
        if l.op.Read? then Ok((waiting, ReadBlock(x.blkTxn, l.lba + x.block)))
        else Ok((waiting.(buffer := []), WriteBlock(x.blkTxn, l.lba + x.block, x.buffer)))
      else
        var waiting, addr := x.(dmaTxn := x.dmaTxn + 1, engine := WaitBeat(x.dmaTxn)), BeatAddr(l, x.block, x.beat);
        if l.op.Read? then Ok((waiting, BeatOut(x.dmaTxn, addr, x.buffer[BEAT * x.beat..BEAT * x.beat + BEAT])))
        else Ok((waiting, BeatIn(x.dmaTxn, addr)))
  }

  /** Block `i` is done: the next block, or the end of the command. */
  function NextBlock(x: Ctl, l: Latched): Ctl
    requires x.block + 1 < WORD_LIMIT
  {
    var next := x.(beat := 0, buffer := [], block := x.block + 1);
    if next.block == l.count then Complete(next, 0) else next.(engine := Issue)
  }

  /** The result of the outstanding media request. */
  function MediaResult(x: Ctl, txn: Long, o: Outcome): Result<Ctl, Fault>
    requires x.block + 1 < WORD_LIMIT
  {
    if !x.engine.WaitMedia? || x.latched.None? || txn != x.engine.txn then Err(NotOutstanding)
    else
      match (x.latched.value.op, o)
      case (Read, BlockData(d)) => if |d| != BLOCK then Err(WrongLength) else Ok(x.(buffer := d, engine := Issue))
      case (Read, BlockError) => Ok(Complete(x, MEDIA_ERROR))
      case (Write, BlockDone) => Ok(NextBlock(x, x.latched.value))
      case (Write, BlockError) => Ok(Complete(x, MEDIA_ERROR))
      case _ => Err(NotOutstanding)
  }

  /** The response to the outstanding beat. */
  function BeatResult(x: Ctl, txn: Long, o: Outcome): Result<Ctl, Fault>
    requires x.block + 1 < WORD_LIMIT
  {
    if !x.engine.WaitBeat? || x.latched.None? || txn != x.engine.txn then Err(NotOutstanding)
    else
      match (x.latched.value.op, o)
      case (Read, BeatDone) =>
        if x.beat + 1 == BEATS then Ok(NextBlock(x, x.latched.value)) else Ok(x.(beat := x.beat + 1, engine := Issue))
      case (Write, BeatData(d)) =>
        if |d| != BEAT then Err(WrongLength) else Ok(x.(buffer := x.buffer + d, beat := x.beat + 1, engine := Issue))
      case (Read, BeatFault) => Ok(Complete(x, DMA_FAULT))
      case (Write, BeatFault) => Ok(Complete(x, DMA_FAULT))
      case _ => Err(NotOutstanding)
  }

  // ----- The states `restore` accepts -----

  predicate Latest(next: Long, txn: Long) {
    next == txn + 1
  }

  /** The engine's position fits the latched command. */
  predicate PositionOk(x: Ctl) {
    match x.latched
    case None => x.engine.Idle? && x.block == 0 && x.beat == 0 && x.buffer == []
    case Some(l) =>
      && x.block < l.count && !x.engine.Idle?
      && if l.op.Write? then
           && x.beat <= BEATS
           && match x.engine
              case Issue => |x.buffer| == BEAT * x.beat
              case WaitBeat(txn) => x.beat < BEATS && |x.buffer| == BEAT * x.beat && Latest(x.dmaTxn, txn)
              case WaitMedia(txn) => x.beat == BEATS && x.buffer == [] && Latest(x.blkTxn, txn)
              case Idle => false
         else
           && x.beat < BEATS
           && match x.engine
              case Issue => |x.buffer| == BLOCK || (x.buffer == [] && x.beat == 0)
              case WaitMedia(txn) => x.buffer == [] && x.beat == 0 && Latest(x.blkTxn, txn)
              case WaitBeat(txn) => |x.buffer| == BLOCK && Latest(x.dmaTxn, txn)
              case Idle => false
  }

  /** What `restore` accepts. */
  predicate CtlOk(g: DmaConfig, x: Ctl) {
    && !(x.busy && x.done)
    && (if x.done then x.error <= MEDIA_ERROR else x.error == 0)
    && (x.busy <==> x.latched.Some?)
    && (x.latched.Some? ==> LatchedOk(g, x.latched.value))
    && PositionOk(x)
    && x.irqLevel == (x.done && x.irqEnable)
  }

  // ----- Every handler keeps them -----

  lemma RegistersOk(g: DmaConfig, x: Ctl, offset: nat, value: Word)
    requires CtlOk(g, x)
    ensures WriteRegister(g, x, offset, value).Some? ==> CtlOk(g, WriteRegister(g, x, offset, value).value)
  {
    hide Command, Validate;
    CommandOk(g, x, value);
  }

  lemma CommandOk(g: DmaConfig, x: Ctl, value: Word)
    requires CtlOk(g, x)
    ensures CtlOk(g, Command(g, x, value))
  {
  }

  lemma IssueOk(g: DmaConfig, x: Ctl)
    requires CtlOk(g, x)
    ensures IssueNext(x).Ok? ==> CtlOk(g, IssueNext(x).value.0)
    ensures IssueNext(x).Err? <==> !x.engine.Issue? || (if IsMedia(x) then x.blkTxn else x.dmaTxn) == LONG_MAX
  {
  }

  /** The request due is to the media. */
  predicate IsMedia(x: Ctl) {
    x.latched.Some? && if x.latched.value.op.Read? then x.buffer == [] else x.beat == BEATS
  }

  lemma BlockBounds(g: DmaConfig, x: Ctl)
    requires CtlOk(g, x)
    ensures x.block + 1 < WORD_LIMIT
  {
  }

  lemma MediaOk(g: DmaConfig, x: Ctl, txn: Long, o: Outcome)
    requires CtlOk(g, x) && x.block + 1 < WORD_LIMIT
    ensures MediaResult(x, txn, o).Ok? ==> CtlOk(g, MediaResult(x, txn, o).value)
  {
  }

  lemma BeatOk(g: DmaConfig, x: Ctl, txn: Long, o: Outcome)
    requires CtlOk(g, x) && x.block + 1 < WORD_LIMIT
    ensures BeatResult(x, txn, o).Ok? ==> CtlOk(g, BeatResult(x, txn, o).value)
  {
  }

  /** While a command runs, no register write touches it: the transfer goes on from the latched registers. */
  lemma RegistersAside(g: DmaConfig, x: Ctl, offset: nat, value: Word)
    requires CtlOk(g, x) && x.busy
    ensures var r := WriteRegister(g, x, offset, value);
      r.Some? ==>
        var n := r.value;
        && n.busy && n.latched == x.latched && n.engine == x.engine && n.block == x.block && n.beat == x.beat && n.buffer == x.buffer
        && n.dmaTxn == x.dmaTxn && n.blkTxn == x.blkTxn
        && (offset == 0 ==> n.rejected)
  {
  }

  /** Every beat lies inside the aperture, and is aligned. */
  lemma BeatsInside(g: DmaConfig, x: Ctl)
    requires g.Valid() && CtlOk(g, x) && IssueNext(x).Ok?
    ensures var r := IssueNext(x).value.1;
      && (r.BeatOut? || r.BeatIn? ==> g.base <= r.addr && r.addr + BEAT <= g.base + g.size && r.addr % BEAT == 0)
      && (r.BeatOut? ==> |r.data| == BEAT) && (r.WriteBlock? ==> |r.data| == BLOCK)
      && (r.ReadBlock? || r.WriteBlock? ==> 0 <= r.lba < g.capacity)
  {
    if x.latched.Some? {
      var l := x.latched.value;
      if !IsMedia(x) {
        BeatInside(g, l, x.block, x.beat);
      }
    }
  }

  lemma BeatInside(g: DmaConfig, l: Latched, block: nat, beat: nat)
    requires LatchedOk(g, l) && block < l.count && beat < BEATS
    ensures var a := BeatAddr(l, block, beat); g.base <= a && a + BEAT <= g.base + g.size && a % BEAT == 0
  {
    var q := l.addr / BEAT;
    assert BeatAddr(l, block, beat) == BEAT * (q + BEATS * block + beat);
    assert block * BLOCK + BLOCK <= l.count * BLOCK;
  }
}
