/** A whole command of the DMA controller is a block copy, and a failure leaves exactly a prefix of it. */
module DmaRun {
  import opened Words
  import opened Memory
  import opened Config
  import opened Dma

  /** Memory and the media's blocks. */
  datatype World = World(mem: Memory, disk: int -> seq<Byte>)

  ghost predicate DiskOk(w: World) {
    forall b :: |w.disk(b)| == BLOCK
  }

  /** Memory and media that serve a request correctly, or refuse it and change nothing. */
  function Serve(w: World, r: Request, fail: bool): (World, Outcome) {
    match r
    case ReadBlock(_, lba) => if fail then (w, BlockError) else (w, BlockData(w.disk(lba)))
    case WriteBlock(_, lba, data) =>
      if fail then (w, BlockError) else (w.(disk := b => if b == lba then data else w.disk(b)), BlockDone)
    case BeatOut(_, addr, data) => if fail then (w, BeatFault) else (w.(mem := Poke(w.mem, addr, data)), BeatDone)
    case BeatIn(_, addr) => if fail then (w, BeatFault) else (w, BeatData(Slice(w.mem, addr, BEAT)))
  }

  /** The controller, its surroundings, and the request that is out, if there is one. */
  datatype System = System(ctl: Ctl, world: World, sent: Option<Request>)

  /** What happens while a command runs: the controller sends its next request, the outstanding one is served or refused
      and its result arrives, or the guest writes a register. */
  datatype Act = Send | Answer(fail: bool) | Mmio(offset: nat, value: Word)

  /** The result of the outstanding request. */
  function Arrives(x: Ctl, r: Request, o: Outcome): Result<Ctl, Fault>
    requires x.block + 1 < WORD_LIMIT
  {
    if r.ReadBlock? || r.WriteBlock? then MediaResult(x, r.txn, o) else BeatResult(x, r.txn, o)
  }

  function Do(g: DmaConfig, s: System, a: Act): Result<System, Fault>
    requires CtlOk(g, s.ctl)
  {
    match a
    case Send =>
      (match IssueNext(s.ctl)
       case Err(f) => Err(f)
       case Ok((waiting, r)) => Ok(System(waiting, s.world, Some(r))))
    case Answer(fail) =>
      if s.sent.None? then Err(NotOutstanding)
      else
        var (after, o) := Serve(s.world, s.sent.value, fail);
        BlockBounds(g, s.ctl);
        (match Arrives(s.ctl, s.sent.value, o)
         case Err(f) => Err(f)
         case Ok(next) => Ok(System(next, after, None)))
    case Mmio(offset, value) =>
      var r := WriteRegister(g, s.ctl, offset, value);
      Ok(if r.Some? then s.(ctl := r.value) else s)
  }

  /** A request is sent when the engine is to issue one, as its wake comes then alone; a result arrives for the request
      that is out; the guest writes at any time. */
  predicate Possible(s: System, a: Act) {
    match a
    case Send => s.ctl.engine.Issue?
    case Answer(_) => s.sent.Some?
    case Mmio(_, _) => true
  }

  /** Every act keeps the states `restore` accepts. */
  lemma DoOk(g: DmaConfig, s: System, a: Act)
    requires CtlOk(g, s.ctl)
    ensures Do(g, s, a).Ok? ==> CtlOk(g, Do(g, s, a).value.ctl)
  {
    hide CtlOk, MediaResult, BeatResult, IssueNext, WriteRegister;
    match a
    case Send => IssueOk(g, s.ctl);
    case Answer(fail) =>
      if s.sent.Some? {
        var r := s.sent.value;
        BlockBounds(g, s.ctl);
        MediaOk(g, s.ctl, r.txn, Serve(s.world, r, fail).1);
        BeatOk(g, s.ctl, r.txn, Serve(s.world, r, fail).1);
      }
    case Mmio(offset, value) => RegistersOk(g, s.ctl, offset, value);
  }

  // ----- READ -----

  /** The bytes a READ has copied when request `t` of block `i` is due: request 0 reads the block, request `1 + j` is
      beat `j`. */
  function ReadBytes(i: nat, t: nat): nat {
    BLOCK * i + if t == 0 then 0 else BEAT * (t - 1)
  }

  /** Byte `o` of the blocks from `lba` on. */
  function DiskByte(w: World, lba: int, o: int): Byte
    requires DiskOk(w)
  {
    w.disk(lba + o / BLOCK)[o % BLOCK]
  }

  /** Memory `m` is `w`'s with the first `n` bytes from `lba` on copied to `addr`. */
  ghost predicate CopiedOut(w: World, m: Memory, l: Latched, n: nat)
    requires DiskOk(w)
  {
    forall a :: Peek(m, a) == if l.addr <= a < l.addr + n then DiskByte(w, l.lba, a - l.addr) else Peek(w.mem, a)
  }

  /** A READ of `l`, begun in `w0`, at request `t` of block `i`. */
  ghost predicate ReadAt(l: Latched, w0: World, x: Ctl, w: World, i: nat, t: nat)
    requires DiskOk(w0)
  {
    && l.op.Read? && i < l.count && t <= BEATS
    && x.busy && x.latched == Some(l) && x.block == i
    && x.beat == (if t == 0 then 0 else t - 1) && x.buffer == (if t == 0 then [] else w0.disk(l.lba + i))
    && w.disk == w0.disk && CopiedOut(w0, w.mem, l, ReadBytes(i, t))
  }

  /** Request `t` of block `i` of a READ. */
  function ReadRequest(l: Latched, w0: World, i: nat, t: nat, txn: Long): Request
    requires DiskOk(w0) && t <= BEATS
  {
    if t == 0 then ReadBlock(txn, l.lba + i)
    else BeatOut(txn, BeatAddr(l, i, t - 1), w0.disk(l.lba + i)[BEAT * (t - 1)..BEAT * (t - 1) + BEAT])
  }

  /** The engine waits for the result of request `r`. */
  predicate Waits(x: Ctl, r: Request) {
    x.engine == if r.ReadBlock? || r.WriteBlock? then WaitMedia(r.txn) else WaitBeat(r.txn)
  }

  lemma BeatBytes(w: World, l: Latched, i: nat, j: nat, k: nat)
    requires DiskOk(w) && j < BEATS && k < BEAT
    ensures DiskByte(w, l.lba, BLOCK * i + BEAT * j + k) == w.disk(l.lba + i)[BEAT * j + k]
  {
    var o := BLOCK * i + BEAT * j + k;
    BlockSplit(o, i, BEAT * j + k);
  }

  lemma BlockSplit(x: int, q: int, r: int)
    requires x == BLOCK * q + r && 0 <= r < BLOCK
    ensures x / BLOCK == q && x % BLOCK == r
  {
  }

  /** One beat copies 16 bytes more. */
  lemma BeatCopies(w0: World, m: Memory, l: Latched, i: nat, j: nat)
    requires DiskOk(w0) && j < BEATS && CopiedOut(w0, m, l, BLOCK * i + BEAT * j)
    ensures CopiedOut(w0, Poke(m, BeatAddr(l, i, j), w0.disk(l.lba + i)[BEAT * j..BEAT * j + BEAT]), l, BLOCK * i + BEAT * j + BEAT)
  {
    hide DiskByte;
    var base, data := BeatAddr(l, i, j), w0.disk(l.lba + i)[BEAT * j..BEAT * j + BEAT];
    var n := Poke(m, base, data);
    forall a ensures Peek(n, a) == if l.addr <= a < l.addr + (BLOCK * i + BEAT * j + BEAT) then DiskByte(w0, l.lba, a - l.addr) else Peek(w0.mem, a) {
      if base <= a < base + BEAT {
        BeatBytes(w0, l, i, j, a - base);
        assert data[a - base] == w0.disk(l.lba + i)[BEAT * j + (a - base)];
      }
    }
  }

  /** The transaction counters have room for `n` more requests. */
  predicate Room(x: Ctl, n: nat) {
    x.dmaTxn + n <= LONG_MAX && x.blkTxn + n <= LONG_MAX
  }

  lemma ReadSends(g: DmaConfig, l: Latched, w0: World, x: Ctl, w: World, i: nat, t: nat)
    requires CtlOk(g, x) && DiskOk(w0) && ReadAt(l, w0, x, w, i, t) && x.engine.Issue? && Room(x, 1)
    ensures IssueNext(x).Ok?
    ensures var (y, r) := IssueNext(x).value;
      ReadAt(l, w0, y, w, i, t) && Waits(y, r) && r == ReadRequest(l, w0, i, t, r.txn) && forall n: nat :: Room(x, n + 1) ==> Room(y, n)
  {
    hide CopiedOut, LatchedOk;
  }

  /** The result of a READ's request: it moves on, to the next request, the next block or the end. */
  lemma ReadAnswered(g: DmaConfig, l: Latched, w0: World, x: Ctl, w: World, i: nat, t: nat, r: Request)
    requires CtlOk(g, x) && x.block + 1 < WORD_LIMIT && DiskOk(w0) && ReadAt(l, w0, x, w, i, t)
    requires Waits(x, r) && r == ReadRequest(l, w0, i, t, r.txn)
    ensures var (v, o) := Serve(w, r, false); Arrives(x, r, o).Ok?
    ensures var (v, o) := Serve(w, r, false); var y := Arrives(x, r, o).value;
      && y.dmaTxn == x.dmaTxn && y.blkTxn == x.blkTxn
      && if t < BEATS then y.engine.Issue? && ReadAt(l, w0, y, v, i, t + 1)
         else if i + 1 < l.count then y.engine.Issue? && ReadAt(l, w0, y, v, i + 1, 0)
         else Finished(y, 0) && v.disk == w0.disk && CopiedOut(w0, v.mem, l, BLOCK * l.count)
  {
    hide CopiedOut, LatchedOk;
    if t > 0 {
      BeatCopies(w0, w.mem, l, i, t - 1);
    }
  }

  /** A command that has ended with `code`. */
  predicate Finished(x: Ctl, code: Byte) {
    !x.busy && x.done && x.error == code && x.latched.None? && x.engine.Idle? && x.irqLevel == x.irqEnable
  }

  /** A READ's request refused: the command ends and nothing more is written. */
  lemma ReadRefused(g: DmaConfig, l: Latched, w0: World, x: Ctl, w: World, i: nat, t: nat, r: Request)
    requires CtlOk(g, x) && x.block + 1 < WORD_LIMIT && DiskOk(w0) && ReadAt(l, w0, x, w, i, t)
    requires Waits(x, r) && r == ReadRequest(l, w0, i, t, r.txn)
    ensures var (v, o) := Serve(w, r, true);
      v == w && Arrives(x, r, o).Ok? && Finished(Arrives(x, r, o).value, if t == 0 then MEDIA_ERROR else DMA_FAULT)
  {
    hide CopiedOut, LatchedOk;
  }

  // ----- WRITE -----

  /** The media is `w`'s with the first `n` blocks of the memory range committed. */
  ghost predicate Committed(w: World, disk: int -> seq<Byte>, l: Latched, n: nat) {
    forall b :: disk(b) == if l.lba <= b < l.lba + n then Slice(w.mem, l.addr + BLOCK * (b - l.lba), BLOCK) else w.disk(b)
  }

  /** A WRITE of `l`, begun in `w0`, at request `t` of block `i`: requests 0 to 31 are beats, request 32 writes the
      block. */
  ghost predicate WriteAt(l: Latched, w0: World, x: Ctl, w: World, i: nat, t: nat) {
    && l.op.Write? && i < l.count && t <= BEATS
    && x.busy && x.latched == Some(l) && x.block == i && x.beat == t
    && w.mem == w0.mem && Committed(w0, w.disk, l, i)
  }

  /** The beats of block `i` read so far. */
  function Gathered(l: Latched, w0: World, i: nat, t: nat): seq<Byte> {
    Slice(w0.mem, l.addr + BLOCK * i, BEAT * t)
  }

  /** Request `t` of block `i` of a WRITE. */
  function WriteRequest(l: Latched, w0: World, i: nat, t: nat, txn: Long): Request {
    if t == BEATS then WriteBlock(txn, l.lba + i, Gathered(l, w0, i, BEATS)) else BeatIn(txn, BeatAddr(l, i, t))
  }

  lemma WriteSends(g: DmaConfig, l: Latched, w0: World, x: Ctl, w: World, i: nat, t: nat)
    requires CtlOk(g, x) && WriteAt(l, w0, x, w, i, t) && x.buffer == Gathered(l, w0, i, t) && x.engine.Issue? && Room(x, 1)
    ensures IssueNext(x).Ok?
    ensures var (y, r) := IssueNext(x).value;
      && WriteAt(l, w0, y, w, i, t) && (t < BEATS ==> y.buffer == x.buffer) && Waits(y, r) && r == WriteRequest(l, w0, i, t, r.txn)
      && forall n: nat :: Room(x, n + 1) ==> Room(y, n)
  {
    hide Committed, LatchedOk;
  }

  /** The result of a WRITE's request: it moves on, to the next request, the next block or the end. */
  lemma WriteAnswered(g: DmaConfig, l: Latched, w0: World, x: Ctl, w: World, i: nat, t: nat, r: Request)
    requires CtlOk(g, x) && x.block + 1 < WORD_LIMIT && WriteAt(l, w0, x, w, i, t) && (t < BEATS ==> x.buffer == Gathered(l, w0, i, t))
    requires Waits(x, r) && r == WriteRequest(l, w0, i, t, r.txn)
    ensures var (v, o) := Serve(w, r, false); Arrives(x, r, o).Ok?
    ensures var (v, o) := Serve(w, r, false); var y := Arrives(x, r, o).value;
      && y.dmaTxn == x.dmaTxn && y.blkTxn == x.blkTxn
      && if t < BEATS then y.engine.Issue? && WriteAt(l, w0, y, v, i, t + 1) && y.buffer == Gathered(l, w0, i, t + 1)
         else if i + 1 < l.count then y.engine.Issue? && WriteAt(l, w0, y, v, i + 1, 0) && y.buffer == Gathered(l, w0, i + 1, 0)
         else Finished(y, 0) && v.mem == w0.mem && Committed(w0, v.disk, l, l.count)
  {
    hide LatchedOk;
    if t < BEATS {
      SliceMore(w0.mem, l.addr + BLOCK * i, BEAT * t, BEAT);
    }
  }

  lemma WriteRefused(g: DmaConfig, l: Latched, w0: World, x: Ctl, w: World, i: nat, t: nat, r: Request)
    requires CtlOk(g, x) && x.block + 1 < WORD_LIMIT && WriteAt(l, w0, x, w, i, t)
    requires Waits(x, r) && r == WriteRequest(l, w0, i, t, r.txn)
    ensures var (v, o) := Serve(w, r, true);
      v == w && Arrives(x, r, o).Ok? && Finished(Arrives(x, r, o).value, if t == BEATS then MEDIA_ERROR else DMA_FAULT)
  {
    hide Committed, LatchedOk;
  }

  // ----- The whole command -----

  const PER_BLOCK := 33

  /** The command after `n` results: request `n` is due, or it is out. */
  ghost predicate At(l: Latched, w0: World, s: System, n: nat)
    requires DiskOk(w0)
  {
    var i, t := n / PER_BLOCK, n % PER_BLOCK;
    if l.op.Read? then
      && ReadAt(l, w0, s.ctl, s.world, i, t)
      && if s.sent.None? then s.ctl.engine.Issue?
         else Waits(s.ctl, s.sent.value) && s.sent.value == ReadRequest(l, w0, i, t, s.sent.value.txn)
    else
      && WriteAt(l, w0, s.ctl, s.world, i, t)
      && (s.sent.None? || t < BEATS ==> s.ctl.buffer == Gathered(l, w0, i, t))
      && if s.sent.None? then s.ctl.engine.Issue?
         else Waits(s.ctl, s.sent.value) && s.sent.value == WriteRequest(l, w0, i, t, s.sent.value.txn)
  }

  /** The command's copy, done. */
  ghost predicate CopyDone(l: Latched, w0: World, w: World)
    requires DiskOk(w0)
  {
    if l.op.Read? then w.disk == w0.disk && CopiedOut(w0, w.mem, l, BLOCK * l.count)
    else w.mem == w0.mem && Committed(w0, w.disk, l, l.count)
  }

  /** The system after the acts. */
  function DoAll(g: DmaConfig, s: System, acts: seq<Act>): (r: Result<System, Fault>)
    requires CtlOk(g, s.ctl)
    ensures r.Ok? ==> CtlOk(g, r.value.ctl)
  {
    if acts == [] then Ok(s)
    else
      match DoAll(g, s, acts[..|acts| - 1])
      case Err(f) => Err(f)
      case Ok(t) =>
        DoOk(g, t, acts[|acts| - 1]);
        Do(g, t, acts[|acts| - 1])
  }

  /** Each act is possible when it comes. */
  predicate Proper(g: DmaConfig, s: System, acts: seq<Act>)
    requires CtlOk(g, s.ctl)
  {
    acts == [] ||
    var front := acts[..|acts| - 1];
    Proper(g, s, front) && (DoAll(g, s, front).Ok? ==> Possible(DoAll(g, s, front).value, acts[|acts| - 1]))
  }

  /** The requests sent. */
  function Requests(acts: seq<Act>): nat {
    if acts == [] then 0 else Requests(acts[..|acts| - 1]) + if acts[|acts| - 1].Send? then 1 else 0
  }

  /** The results that arrived. */
  function Results(acts: seq<Act>): nat {
    if acts == [] then 0 else Results(acts[..|acts| - 1]) + if acts[|acts| - 1].Answer? then 1 else 0
  }

  predicate NoFailure(acts: seq<Act>) {
    forall i :: 0 <= i < |acts| ==> acts[i].Answer? ==> !acts[i].fail
  }

  /** A command `Command` has just accepted. */
  predicate Accepted(g: DmaConfig, x: Ctl) {
    CtlOk(g, x) && x.busy && x.latched.Some? && x.engine.Issue? && x.block == 0 && x.beat == 0 && x.buffer == []
  }

  /** A COMMAND write is accepted exactly when no command runs or waits for its acknowledgement and the registers pass
      validation; they are latched, and the first request is due. */
  lemma CommandAccepts(g: DmaConfig, x: Ctl, value: Word)
    requires CtlOk(g, x)
    ensures var n := Command(g, x, value);
      && (!x.busy && !x.done && Validate(g, value, x.lba, x.memAddr, x.blockCount).Ok? <==> !x.busy && n.busy)
      && (!x.busy && n.busy ==>
            && Accepted(g, n) && n.dmaTxn == x.dmaTxn && n.blkTxn == x.blkTxn
            && n.latched == Some(Asked(x, value)))
  {
  }

  lemma Split33(n: nat)
    ensures (n + 1) / PER_BLOCK == (if n % PER_BLOCK < BEATS then n / PER_BLOCK else n / PER_BLOCK + 1)
    ensures (n + 1) % PER_BLOCK == (if n % PER_BLOCK < BEATS then n % PER_BLOCK + 1 else 0)
    ensures n == PER_BLOCK * (n / PER_BLOCK) + n % PER_BLOCK
  {
  }

  /** The system when a command has just been accepted. */
  function Begun(x: Ctl, w: World): System {
    System(x, w, None)
  }

  /** The command a COMMAND write of `value` asks for, with the registers as they are. */
  function Asked(x: Ctl, value: Word): Latched {
    Latched(if value == 1 then Read else Write, x.lba, x.memAddr, x.blockCount)
  }

  /** The system after the guest writes COMMAND. */
  function Commanded(g: DmaConfig, x: Ctl, value: Word, w: World): (s: System)
    requires CtlOk(g, x)
    ensures CtlOk(g, s.ctl)
  {
    CommandOk(g, x, value);
    Begun(Command(g, x, value), w)
  }

  lemma Starts(g: DmaConfig, x: Ctl, w: World)
    requires Accepted(g, x) && DiskOk(w)
    ensures At(x.latched.value, w, Begun(x, w), 0)
  {
    var l := x.latched.value;
    if l.op.Write? {
      assert Gathered(l, w, 0, 0) == [];
    }
  }

  /** While the engine is to issue, nothing is out. */
  lemma NothingOut(l: Latched, w0: World, s: System, n: nat)
    requires DiskOk(w0) && At(l, w0, s, n) && s.ctl.engine.Issue?
    ensures s.sent.None?
  {
    hide ReadAt, WriteAt;
  }

  lemma Sends(g: DmaConfig, l: Latched, w0: World, s: System, n: nat)
    requires CtlOk(g, s.ctl) && DiskOk(w0) && At(l, w0, s, n) && s.ctl.engine.Issue? && Room(s.ctl, 1)
    ensures var r := Do(g, s, Send);
      && r.Ok? && At(l, w0, r.value, n) && r.value.sent.Some?
      && forall k: nat :: Room(s.ctl, k + 1) ==> Room(r.value.ctl, k)
  {
    hide ReadAt, WriteAt, IssueNext, CtlOk;
    NothingOut(l, w0, s, n);
    if l.op.Read? {
      ReadSends(g, l, w0, s.ctl, s.world, n / PER_BLOCK, n % PER_BLOCK);
    } else {
      WriteSends(g, l, w0, s.ctl, s.world, n / PER_BLOCK, n % PER_BLOCK);
    }
  }

  lemma Bounded(l: Latched, w0: World, s: System, n: nat)
    requires DiskOk(w0) && At(l, w0, s, n)
    ensures n / PER_BLOCK < l.count && n < PER_BLOCK * l.count && s.ctl.busy
  {
    hide CopiedOut, Committed;
    Split33(n);
  }

  /** A result takes the copy one request further, or ends it. */
  lemma Answered(g: DmaConfig, l: Latched, w0: World, s: System, n: nat)
    requires CtlOk(g, s.ctl) && DiskOk(w0) && At(l, w0, s, n) && s.sent.Some?
    ensures var r := Do(g, s, Answer(false));
      && r.Ok? && r.value.sent.None? && r.value.ctl.dmaTxn == s.ctl.dmaTxn && r.value.ctl.blkTxn == s.ctl.blkTxn
      && if n + 1 < PER_BLOCK * l.count then At(l, w0, r.value, n + 1)
         else Finished(r.value.ctl, 0) && CopyDone(l, w0, r.value.world)
  {
    hide ReadAt, WriteAt, Arrives, Serve, CopiedOut, Committed, CtlOk, Gathered, ReadRequest, WriteRequest;
    Bounded(l, w0, s, n);
    BlockBounds(g, s.ctl);
    var i, t := n / PER_BLOCK, n % PER_BLOCK;
    Split33(n);
    if l.op.Read? {
      ReadAnswered(g, l, w0, s.ctl, s.world, i, t, s.sent.value);
    } else {
      WriteAnswered(g, l, w0, s.ctl, s.world, i, t, s.sent.value);
    }
  }

  /** Register accesses by the guest leave the copy where it is, whether a request is out or not. */
  lemma MmioAside(g: DmaConfig, l: Latched, w0: World, s: System, n: nat, offset: nat, value: Word)
    requires CtlOk(g, s.ctl) && DiskOk(w0) && At(l, w0, s, n)
    ensures var r := Do(g, s, Mmio(offset, value));
      && r.Ok? && At(l, w0, r.value, n) && r.value.sent == s.sent
      && r.value.ctl.dmaTxn == s.ctl.dmaTxn && r.value.ctl.blkTxn == s.ctl.blkTxn
  {
    hide CtlOk, WriteRegister, CopiedOut, Committed;
    RegistersAside(g, s.ctl, offset, value);
  }

  /** The copy is where its results have brought it: under way before result `33 * count`, done with it; a request is out
      exactly when one more was sent than answered. */
  ghost predicate Progress(l: Latched, w0: World, s: System, sent: nat, n: nat)
    requires DiskOk(w0)
  {
    && sent == n + (if s.sent.Some? then 1 else 0)
    && if n < PER_BLOCK * l.count then At(l, w0, s, n) && Room(s.ctl, PER_BLOCK * l.count - sent)
       else Finished(s.ctl, 0) && s.sent.None? && CopyDone(l, w0, s.world)
  }

  lemma {:induction false} AcceptedCopies(g: DmaConfig, x: Ctl, w: World, acts: seq<Act>)
    requires Accepted(g, x) && DiskOk(w) && NoFailure(acts) && Room(x, PER_BLOCK * x.latched.value.count)
    requires Proper(g, Begun(x, w), acts) && UpToEnd(x.latched.value, acts)
    ensures var r := DoAll(g, Begun(x, w), acts); r.Ok? && Progress(x.latched.value, w, r.value, Requests(acts), Results(acts))
  {
    hide CtlOk, At, Do, CopyDone, Possible;
    if acts == [] {
      Starts(g, x, w);
    } else {
      var front, a := acts[..|acts| - 1], acts[|acts| - 1];
      AcceptedCopies(g, x, w, front);
      assert !(a.Answer? && a.fail);
      OneAct(g, x.latched.value, w, DoAll(g, Begun(x, w), front).value, a, Requests(front), Results(front));
    }
  }

  /** The acts go no further than the result of request `33 * count`. */
  predicate UpToEnd(l: Latched, acts: seq<Act>) {
    || Results(acts) < PER_BLOCK * l.count
    || (acts != [] && acts[|acts| - 1].Answer? && Results(acts) == PER_BLOCK * l.count)
  }

  lemma OneAct(g: DmaConfig, l: Latched, w0: World, s: System, a: Act, sent: nat, n: nat)
    requires DiskOk(w0) && CtlOk(g, s.ctl) && !(a.Answer? && a.fail) && Possible(s, a)
    requires n < PER_BLOCK * l.count && Progress(l, w0, s, sent, n)
    ensures var r := Do(g, s, a);
      r.Ok? && Progress(l, w0, r.value, if a.Send? then sent + 1 else sent, if a.Answer? then n + 1 else n)
  {
    hide CtlOk, At, Do, CopyDone, Finished;
    match a
    case Send =>
      NothingOut(l, w0, s, n);
      Sends(g, l, w0, s, n);
    case Answer(_) => Answered(g, l, w0, s, n);
    case Mmio(offset, value) => MmioAside(g, l, w0, s, n, offset, value);
  }

  /** From the COMMAND write that validation accepts, a fault-free command, whatever the guest writes to the registers
      while requests are due or outstanding, is under way until the result of its request `33 * count`, at the place its
      results so far give, and with that result it is done: DONE with no error, and the copy made, nothing else
      changed. */
  lemma CommandCopies(g: DmaConfig, x: Ctl, value: Word, w: World, acts: seq<Act>)
    requires CtlOk(g, x) && !x.busy && !x.done && Validate(g, value, x.lba, x.memAddr, x.blockCount).Ok?
    requires DiskOk(w) && NoFailure(acts) && Room(x, PER_BLOCK * x.blockCount)
    requires Proper(g, Commanded(g, x, value, w), acts) && UpToEnd(Asked(x, value), acts)
    ensures var r := DoAll(g, Commanded(g, x, value, w), acts);
      r.Ok? && Progress(Asked(x, value), w, r.value, Requests(acts), Results(acts))
  {
    hide CtlOk, DoAll, Proper, Progress, Command, Validate;
    CommandAccepts(g, x, value);
    AcceptedCopies(g, Command(g, x, value), w, acts);
  }

  /** A request refused after `n` results ends the command with the code of its kind, and leaves exactly what the `n`
      results copied: the blocks before and, of a READ, the beats before; no more. */
  lemma FailureLeavesPrefix(g: DmaConfig, x: Ctl, value: Word, w: World, acts: seq<Act>)
    requires CtlOk(g, x) && !x.busy && !x.done && Validate(g, value, x.lba, x.memAddr, x.blockCount).Ok?
    requires DiskOk(w) && NoFailure(acts) && Room(x, PER_BLOCK * x.blockCount)
    requires Proper(g, Commanded(g, x, value, w), acts + [Answer(true)]) && Results(acts) < PER_BLOCK * x.blockCount
    ensures var l, n, s := Asked(x, value), Results(acts), Commanded(g, x, value, w);
      var before, r := DoAll(g, s, acts), DoAll(g, s, acts + [Answer(true)]);
      && before.Ok? && r.Ok? && r.value.world == before.value.world && At(l, w, before.value, n)
      && Finished(r.value.ctl, if n % PER_BLOCK == (if l.op.Read? then 0 else BEATS) then MEDIA_ERROR else DMA_FAULT)
  {
    hide CtlOk, DoAll, CopiedOut, Committed, ReadAt, WriteAt, Arrives, Serve, Gathered, ReadRequest, WriteRequest, Command, Validate;
    assert (acts + [Answer(true)])[..|acts|] == acts;
    CommandCopies(g, x, value, w, acts);
    var l, n := Asked(x, value), Results(acts);
    var s := DoAll(g, Commanded(g, x, value, w), acts).value;
    OneMore(g, Commanded(g, x, value, w), acts, Answer(true));
    BlockBounds(g, s.ctl);
    if l.op.Read? {
      ReadRefused(g, l, w, s.ctl, s.world, n / PER_BLOCK, n % PER_BLOCK, s.sent.value);
    } else {
      WriteRefused(g, l, w, s.ctl, s.world, n / PER_BLOCK, n % PER_BLOCK, s.sent.value);
    }
  }

  lemma OneMore(g: DmaConfig, s: System, acts: seq<Act>, a: Act)
    requires CtlOk(g, s.ctl) && DoAll(g, s, acts).Ok?
    ensures DoAll(g, s, acts + [a]) == Do(g, DoAll(g, s, acts).value, a)
  {
    assert (acts + [a])[..|acts|] == acts;
  }
}
