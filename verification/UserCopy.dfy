/** The kernel's own Sv32 walk for `write` buffers, and its agreement with the CPU's. */
module UserCopy {
  import opened Words
  import opened Sv32
  import Core

  datatype WalkStep = Pointer(table: Word) | Page(ppn: Word) | Refused

  /** Decides the level-`level` PTE for a U-mode read of `va` with `SUM = MXR = 0`. */
  function DecidePte(pte: Word, level: nat, va: Word): (s: WalkStep)
    requires level <= 1
    ensures s.Pointer? ==> level == 1 && s.table < PPN_LIMIT
  {
    if !V(pte) || (!R(pte) && W(pte)) then Refused
    else if !R(pte) && !X(pte) then
      if level == 1 && !(D(pte) || A(pte) || U(pte)) then Pointer(Ppn(pte)) else Refused
    else if !U(pte) || !R(pte) || !A(pte) then Refused
    else if level == 1 then
      if Ppn(pte) % 1024 != 0 then Refused else Page(Ppn(pte) + Vpn0(va))
    else Page(Ppn(pte))
  }

  /** The physical address `va` maps to, or `None` for `-EFAULT`: a walk from the root table at `root`. */
  method Translate(root: Word, va: Word, read: int -> Word) returns (r: Option<int>)
    ensures r == UserAddress(root, va, read)
  {
    var table, i := root, 0;
    while i < 2
      invariant 0 <= i <= 2
      invariant i == 0 ==> table == root
      invariant i == 1 ==> DecidePte(read(PteAddress(root, va, 1)), 1, va) == Pointer(table)
      invariant i == 2 ==> UserAddress(root, va, read) == None
    {
      var level := 1 - i;
      match DecidePte(read(PteAddress(table, va, level)), level, va) {
        case Pointer(next) => table := next;
        case Page(ppn) => return Some(ppn * PAGE + va % PAGE);
        case Refused => return None;
      }
      i := i + 1;
    }
    return None;
  }

  function UserAddress(root: Word, va: Word, read: int -> Word): (r: Option<int>) {
    match DecidePte(read(PteAddress(root, va, 1)), 1, va)
    case Page(ppn) => Some(ppn * PAGE + va % PAGE)
    case Refused => None
    case Pointer(table) =>
      match DecidePte(read(PteAddress(table, va, 0)), 0, va)
      case Page(ppn) => Some(ppn * PAGE + va % PAGE)
      case _ => None
  }

  const USER_LOAD := Context(User, false, false, Load)

  /** One PTE means the same to both walkers. */
  lemma DecideAgrees(pte: Word, level: nat, va: Word)
    requires level <= 1
    ensures match DecidePte(pte, level, va)
            case Pointer(t) => PteStep(USER_LOAD, va, level, pte) == Next(t)
            case Page(ppn) => PteStep(USER_LOAD, va, level, pte) == Leaf(ppn * PAGE + va % PAGE)
            case Refused => PteStep(USER_LOAD, va, level, pte) == Stop
  {
    if DecidePte(pte, level, va).Page? && level == 1 {
      MegapageAddress(pte, va);
    }
  }

  lemma MegapageAddress(pte: Word, va: Word)
    requires Ppn(pte) % 1024 == 0
    ensures (Ppn(pte) + Vpn0(va)) * PAGE + va % PAGE == pte / 0x10_0000 * 0x40_0000 + va % 0x40_0000
  {
    var k := pte / 0x10_0000;
    assert Ppn(pte) == k * 1024;
    assert va % 0x40_0000 == Vpn0(va) * PAGE + va % PAGE;
  }

  /** The kernel's walk and the CPU's give the same answer for every root, address and table memory, megapages
      included: an address exactly when a U-mode load with `SUM = MXR = 0` translates, and the same one. */
  lemma WalksAgree(satp: Word, va: Word, read: int -> Word)
    requires satp >= SATP_MODE
    ensures Translated(satp, USER_LOAD, va, a => Some(read(a)))
         == match UserAddress(Root(satp), va, read) case Some(pa) => Ok(pa) case None => Err(PageFault)
  {
    var root := Root(satp);
    var top := read(PteAddress(root, va, 1));
    DecideAgrees(top, 1, va);
    match DecidePte(top, 1, va)
    case Pointer(table) => DecideAgrees(read(PteAddress(table, va, 0)), 0, va);
    case _ =>
  }

  // ----- Write buffers -----

  const WRITE_MAX := 4096

  /** A `write` buffer: the caller's `sepc`, the first address and the number of bytes. */
  datatype Buffer = Buffer(sepc: Word, buf: Word, n: Word) {

    /** 1 to 4096 bytes below 2^32. */
    predicate Fits() {
      1 <= n <= WRITE_MAX && buf + n <= WORD_LIMIT
    }

    /** The pages the buffer touches. */
    function Pages(): (k: nat)
      requires Fits()
      ensures 1 <= k <= 2
    {
      (buf + n - 1) / PAGE - buf / PAGE + 1
    }

    /** The address of page `i`. */
    function PageVa(i: nat): (va: Word)
      requires Fits() && i < Pages()
      ensures va / PAGE == buf / PAGE + i && va % PAGE == 0
    {
      var va := buf - buf % PAGE + i * PAGE;
      PageSplit(va, buf / PAGE + i, 0);
      va
    }

    /** The length of the output chunk `done` bytes in. */
    function ChunkLen(done: nat): (len: nat)
      requires Fits() && done < n
      ensures 1 <= len <= n - done && Core.Short(buf + done, len)
    {
      var va := buf + done;
      Core.Min(Core.Min(n - done, 16), PAGE - va % PAGE)
    }

    /** `done` is a chunk start at or after the chunk start `at`. */
    predicate StartFrom(at: nat, done: nat)
      requires Fits()
      decreases n - at
    {
      at < n && (at == done || StartFrom(at + ChunkLen(at), done))
    }
  }

  /** `Buffer::new`. */
  function NewBuffer(sepc: Word, buf: Word, n: Word): (b: Option<Buffer>)
    ensures b.Some? <==> 1 <= n <= WRITE_MAX && buf + n <= WORD_LIMIT
    ensures b.Some? ==> b.value == Buffer(sepc, buf, n) && b.value.Fits()
  {
    if 1 <= n <= WRITE_MAX && buf + n <= WORD_LIMIT then Some(Buffer(sepc, buf, n)) else None
  }

  method IsChunkStart(b: Buffer, done: nat) returns (r: bool)
    requires b.Fits()
    ensures r == b.StartFrom(0, done)
  {
    var at := 0;
    while at < b.n
      invariant 0 <= at <= b.n && b.StartFrom(0, done) == b.StartFrom(at, done)
    {
      if at == done {
        return true;
      }
      at := at + b.ChunkLen(at);
    }
    return false;
  }

  /** The output chunks are the pieces `chunks` splits the buffer into, so their starts tile it. */
  lemma ChunkIsCoreChunk(b: Buffer, done: nat)
    requires b.Fits() && done < b.n
    ensures Core.Chunks(b.buf + done, b.n - done)
         == [Core.Chunk(b.buf + done, b.ChunkLen(done))] + Core.Chunks(b.buf + done + b.ChunkLen(done), b.n - done - b.ChunkLen(done))
  {
    hide Core.Short;
    var va := b.buf + done;
    assert (va / PAGE + 1) * PAGE == va + (PAGE - va % PAGE);
    assert Core.ChunkEnd(va, b.buf + b.n) == va + b.ChunkLen(done);
  }

  /** `done` is `at` plus the total length of the chunks before some chunk of `cs`. */
  ghost predicate StartOf(cs: seq<Core.Chunk>, at: int, done: int) {
    exists k :: 0 <= k < |cs| && done == at + Core.TotalLen(cs[..k])
  }

  /** `done` is a chunk start exactly when it is the total length of the chunks before some chunk. */
  lemma {:induction false} StartsTile(b: Buffer, at: nat, done: nat)
    requires b.Fits() && at <= b.n
    ensures b.StartFrom(at, done) <==> StartOf(Core.Chunks(b.buf + at, b.n - at), at, done)
    decreases b.n - at
  {
    hide Core.Chunks, StartOf;
    if at < b.n {
      var len := b.ChunkLen(at);
      ChunkIsCoreChunk(b, at);
      StartsTile(b, at + len, done);
      TileStep(Core.Chunks(b.buf + at, b.n - at), Core.Chunks(b.buf + at + len, b.n - at - len), at, done, len);
    } else {
      NoStart(b.buf + at, at, done);
    }
  }

  lemma NoStart(base: int, at: int, done: int)
    ensures !StartOf(Core.Chunks(base, 0), at, done)
  {
  }

  lemma TileStep(cs: seq<Core.Chunk>, rest: seq<Core.Chunk>, at: nat, done: nat, len: nat)
    requires cs != [] && cs[0].len == len && cs[1..] == rest
    ensures StartOf(cs, at, done) <==> at == done || StartOf(rest, at + len, done)
  {
    forall k | 0 < k <= |cs| ensures Core.TotalLen(cs[..k]) == len + Core.TotalLen(rest[..k - 1]) {
      assert cs[..k][1..] == rest[..k - 1];
    }
    assert Core.TotalLen(cs[..0]) == 0;
    if k :| 0 <= k < |rest| && done == at + len + Core.TotalLen(rest[..k]) {
      assert Core.TotalLen(cs[..k + 1]) == len + Core.TotalLen(rest[..k]);
    }
  }

  lemma StartBefore(b: Buffer, at: nat, done: nat)
    requires b.Fits() && b.StartFrom(at, done)
    ensures at <= done < b.n
    decreases b.n - at
  {
  }

  /** The start after a chunk start is one too, unless the buffer is done. */
  lemma {:induction false} NextStart(b: Buffer, at: nat, done: nat)
    requires b.Fits() && b.StartFrom(at, done)
    ensures done < b.n
    ensures done + b.ChunkLen(done) == b.n || b.StartFrom(at, done + b.ChunkLen(done))
    decreases b.n - at
  {
    StartBefore(b, at, done);
    if at != done {
      NextStart(b, at + b.ChunkLen(at), done);
    }
  }
}
