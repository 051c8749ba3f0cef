/** The CPU's Sv32 walker: the algorithm of section 4.3.2 of the RISC-V Privileged Architecture (20211203), with
    Svade (a clear `A`, or a clear `D` on a store, faults) and reserved pointer bits faulting. */
module Sv32 {
  import opened Words
  import opened Memory

  datatype Privilege = User | Supervisor | Machine
  datatype Access = Fetch | Load | Store
  datatype Context = Context(privilege: Privilege, sum: bool, mxr: bool, access: Access)
  datatype Fault = PageFault | AccessFault
  datatype Step = Next(table: Word) | Leaf(pa: int) | Stop

  /** Reads a PTE, or `None` when the bus refuses the read. */
  type Reader = int -> Option<Word>

  const SATP_MODE := 0x8000_0000
  const PPN_LIMIT := 0x40_0000

  // The flag bits: bit k is set when the remainder by 2^(k+1) is at least 2^k.
  predicate V(pte: Word) { pte % 2 == 1 }
  predicate R(pte: Word) { pte % 4 >= 2 }
  predicate W(pte: Word) { pte % 8 >= 4 }
  predicate X(pte: Word) { pte % 16 >= 8 }
  predicate U(pte: Word) { pte % 32 >= 16 }
  predicate A(pte: Word) { pte % 128 >= 64 }
  predicate D(pte: Word) { pte % 256 >= 128 }

  function Ppn(pte: Word): Word { pte / 1024 }

  /** `VPN[1]`, the 4 MiB slot of an address: bits 31:22. */
  function Vpn1(va: int): int { va / 0x40_0000 % 1024 }

  /** `VPN[0]`: bits 21:12. */
  function Vpn0(va: int): int { va / 4096 % 1024 }

  function PteAddress(table: Word, va: Word, level: nat): (a: int)
    requires level <= 1
  {
    EntryAt(table, if level == 1 then Vpn1(va) else Vpn0(va))
  }

  /** What the level-`level` PTE means for an access to `va`. */
  function PteStep(ctx: Context, va: Word, level: nat, pte: Word): (s: Step)
    requires level <= 1
    ensures s.Next? ==> level == 1 && s.table < PPN_LIMIT
  {
    if !V(pte) || (!R(pte) && W(pte)) then Stop
    else if !R(pte) && !X(pte) then
      if level == 0 || D(pte) || A(pte) || U(pte) then Stop else Next(Ppn(pte))
    else if level == 1 && Ppn(pte) % 1024 != 0 then Stop
    else
      var userOk := match ctx.privilege
        case User => U(pte)
        case Supervisor => !U(pte) || (ctx.sum && ctx.access != Fetch)
        case Machine => true;
      var allowed := match ctx.access
        case Fetch => X(pte)
        case Load => R(pte) || (ctx.mxr && X(pte))
        case Store => W(pte);
      var dirtyOk := ctx.access != Store || D(pte);
      if !userOk || !allowed || !A(pte) || !dirtyOk then Stop
      else if level == 1 then Leaf(pte / 0x10_0000 * 0x40_0000 + va % 0x40_0000)
      else Leaf(Ppn(pte) * PAGE + va % PAGE)
  }

  /** The rest of a walk from the level-`level` table at `table`. */
  function WalkFrom(ctx: Context, va: Word, table: Word, level: nat, read: Reader): (r: Result<int, Fault>)
    requires level <= 1
    decreases level
  {
    match read(PteAddress(table, va, level))
    case None => Err(AccessFault)
    case Some(pte) =>
      match PteStep(ctx, va, level, pte)
      case Next(next) => WalkFrom(ctx, va, next, level - 1, read)
      case Leaf(pa) => Ok(pa)
      case Stop => Err(PageFault)
  }

  function Root(satp: Word): Word { satp % PPN_LIMIT }

  /** The translation of `va`: itself when untranslated, else the walk from `satp`'s root. */
  function Translated(satp: Word, ctx: Context, va: Word, read: Reader): (r: Result<int, Fault>) {
    if ctx.privilege == Machine || satp < SATP_MODE then Ok(va) else WalkFrom(ctx, va, Root(satp), 1, read)
  }

  /** `sv32_translate`: the walk as a loop over `table` and `level`. */
  method Translate(satp: Word, ctx: Context, va: Word, read: Reader) returns (r: Result<int, Fault>)
    ensures r == Translated(satp, ctx, va, read)
  {
    if ctx.privilege == Machine || satp < SATP_MODE {
      return Ok(va);
    }
    var table: Word, level: nat := Root(satp), 1;
    while true
      invariant level <= 1
      invariant Translated(satp, ctx, va, read) == WalkFrom(ctx, va, table, level, read)
      decreases level
    {
      var entry := read(PteAddress(table, va, level));
      if entry.None? {
        return Err(AccessFault);
      }
      match PteStep(ctx, va, level, entry.value)
      case Next(next) =>
        table, level := next, level - 1;
      case Leaf(pa) =>
        return Ok(pa);
      case Stop =>
        return Err(PageFault);
    }
  }

  /** A translated address is a 34-bit physical address that keeps the page offset, whatever the tables hold. */
  lemma WalkKeepsOffset(ctx: Context, va: Word, table: Word, level: nat, read: Reader)
    requires level <= 1
    ensures var r := WalkFrom(ctx, va, table, level, read); r.Ok? ==> 0 <= r.value < 0x4_0000_0000 && r.value % PAGE == va % PAGE
    decreases level
  {
    match read(PteAddress(table, va, level))
    case None =>
    case Some(pte) =>
      match PteStep(ctx, va, level, pte)
      case Next(next) => WalkKeepsOffset(ctx, va, next, level - 1, read);
      case Leaf(pa) => LeafKeepsOffset(ctx, va, level, pte);
      case Stop =>
  }

  lemma LeafKeepsOffset(ctx: Context, va: Word, level: nat, pte: Word)
    requires level <= 1 && PteStep(ctx, va, level, pte).Leaf?
    ensures var pa := PteStep(ctx, va, level, pte).pa; 0 <= pa < 0x4_0000_0000 && pa % PAGE == va % PAGE
  {
    if level == 1 {
      MegaOffset(pte / 0x10_0000, va);
    } else {
      PageSplit(Ppn(pte) * PAGE + va % PAGE, Ppn(pte), va % PAGE);
    }
  }

  lemma MegaOffset(k: int, va: int)
    requires 0 <= k < 0x1000
    ensures (k * 0x40_0000 + va % 0x40_0000) % PAGE == va % PAGE && 0 <= k * 0x40_0000 + va % 0x40_0000 < 0x4_0000_0000
  {
    var q := 1024 * k + va / PAGE - 1024 * (va / 0x40_0000);
    PageSplit(k * 0x40_0000 + va % 0x40_0000, q, va % PAGE);
  }
}
