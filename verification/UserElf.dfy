/** The user-image parser (elf/src/parse.rs, elf/src/user.rs): an ELF32 executable's headers become an entry point and
    a page-by-page mapping plan. */
module UserElf {
  import opened Words
  import opened Image
  import Sequences

  const EHDR_SIZE := 52
  const PHDR_SIZE := 32
  const MAX_PHDRS := 16
  const PN_XNUM := 0xFFFF
  const PT_LOAD := 1
  const EM_RISCV := 243
  const ET_EXEC := 2

  datatype ElfError =
    | MalformedHeader
    | InvalidMagic
    | UnsupportedClass(class_: Byte)
    | UnsupportedEndian(data: Byte)
    | UnsupportedVersion(version: Word)
    | UnsupportedType(type_: Word)
    | UnsupportedMachine(machine: Word)
    | MalformedProgramHeaders

  datatype UserElfError =
    | BadHeader(error: ElfError)
    | PrefixLongerThanFile
    | PrefixTooShort(needed: Word)
    | InvalidUserRange
    | PhdrCountExceeded(count: Word)
    | InvalidSegmentSize(index: nat)
    | FileRangeOutsideFile(index: nat)
    | NoPermission(index: nat)
    | WriteWithoutRead(index: nat)
    | SegmentOutsideUserRange(index: nat)
    | SegmentOverlap(first: nat, second: nat)
    | SharedPage(first: nat, second: nat)
    | MisalignedEntry(entry: Word)
    | EntryNotExecutable(entry: Word)

  // ----- The ELF header -----

  function Half(elf: seq<Byte>, at: nat): (w: Word)
    requires at + 2 <= |elf|
    ensures w < 0x1_0000
  {
    LeHalf(elf[at..at + 2])
  }

  function Full(elf: seq<Byte>, at: nat): Word
    requires at + 4 <= |elf|
  {
    LeWord(elf[at..at + 4])
  }

  datatype ElfHeader = ElfHeader(entry: Word, phoff: Word, phnum: Word) {
    function TableEnd(): int {
      phoff + phnum * PHDR_SIZE
    }
  }

  /** The header's fields once its identification is accepted; the table may still be past the end. */
  function HeaderFields(elf: seq<Byte>): (r: Result<ElfHeader, ElfError>)
    requires |elf| >= EHDR_SIZE
    ensures r.Ok? ==> r.value.phnum < 0x1_0000
    ensures r.Err? ==> !r.error.MalformedProgramHeaders?
  {
    if elf[0..4] != [0x7F, 0x45, 0x4C, 0x46] then Err(InvalidMagic)
    else if elf[4] != 1 then Err(UnsupportedClass(elf[4]))
    else if elf[5] != 1 then Err(UnsupportedEndian(elf[5]))
    else if elf[6] != 1 then Err(UnsupportedVersion(elf[6]))
    else if Half(elf, 16) != ET_EXEC then Err(UnsupportedType(Half(elf, 16)))
    else if Half(elf, 18) != EM_RISCV then Err(UnsupportedMachine(Half(elf, 18)))
    else if Full(elf, 20) != 1 then Err(UnsupportedVersion(Full(elf, 20)))
    else if Half(elf, 40) != EHDR_SIZE then Err(MalformedHeader)
    else Ok(ElfHeader(Full(elf, 24), Full(elf, 28), Half(elf, 44)))
  }

  /** The entry size and count rule of the program-header table. */
  predicate TableShape(elf: seq<Byte>)
    requires |elf| >= EHDR_SIZE
  {
    var phnum := Half(elf, 44);
    phnum != PN_XNUM && (phnum != 0 ==> Half(elf, 42) == PHDR_SIZE)
  }

  /** `header`: the checks shared with the host loader; the whole table must be in `elf`. */
  function ReadHeader(elf: seq<Byte>): (r: Result<ElfHeader, ElfError>) {
    if |elf| < EHDR_SIZE then Err(MalformedHeader)
    else
      var h := HeaderFields(elf);
      if h.Err? then h
      else if !TableShape(elf) || h.value.TableEnd() > |elf| then Err(MalformedProgramHeaders)
      else h
  }

  /** `checked_header`: a table past the prefix but inside the file asks for a longer prefix. */
  function CheckedHeader(prefix: seq<Byte>, fileLen: Word): (r: Result<ElfHeader, UserElfError>) {
    if |prefix| > fileLen then Err(PrefixLongerThanFile)
    else if |prefix| < EHDR_SIZE then
      if fileLen < EHDR_SIZE then Err(BadHeader(MalformedHeader)) else Err(PrefixTooShort(EHDR_SIZE))
    else
      match ReadHeader(prefix)
      case Ok(h) => if h.phnum > MAX_PHDRS then Err(PhdrCountExceeded(h.phnum)) else Ok(h)
      case Err(MalformedProgramHeaders) =>
        if !TableShape(prefix) then Err(BadHeader(MalformedProgramHeaders))
        else if Half(prefix, 44) > MAX_PHDRS then Err(PhdrCountExceeded(Half(prefix, 44)))
        else
          var tableEnd := Full(prefix, 28) + Half(prefix, 44) * PHDR_SIZE;
          if tableEnd <= fileLen then Err(PrefixTooShort(tableEnd)) else Err(BadHeader(MalformedProgramHeaders))
      case Err(e) => Err(BadHeader(e))
  }

  // ----- Segments -----

  datatype UserRange = UserRange(start: Word, end: Word)

  /** A checked `PT_LOAD` segment. */
  datatype Checked = Checked(index: nat, offset: Word, vaddr: Word, filesz: Word, memsz: Word, perms: Perms) {
    function End(): int { vaddr + memsz }
    function FirstPage(): int { vaddr / PAGE }
    function LastPage(): int { (End() - 1) / PAGE }
  }

  function PermsOf(flags: Word): Perms {
    Perms(flags % 8 >= 4, flags % 4 >= 2, flags % 2 == 1)
  }

  /** Program header `index`: `None` when it maps nothing. */
  function CheckHeader(elf: seq<Byte>, h: ElfHeader, fileLen: Word, range: UserRange, index: nat)
    : (r: Result<Option<Checked>, UserElfError>)
  {
    var at := h.phoff + index * PHDR_SIZE;
    if at + 24 > |elf| then Err(BadHeader(MalformedProgramHeaders))
    else
      var offset, vaddr, filesz, memsz := Full(elf, at + 4), Full(elf, at + 8), Full(elf, at + 16), Full(elf, at + 20);
      if Full(elf, at) != PT_LOAD then Ok(None)
      else if filesz > memsz then Err(InvalidSegmentSize(index))
      else if offset + filesz > fileLen then Err(FileRangeOutsideFile(index))
      else if memsz == 0 then Ok(None)
      else if at + 28 > |elf| then Err(BadHeader(MalformedProgramHeaders))
      else
        var perms := PermsOf(Full(elf, at + 24));
        if !perms.read && !perms.write && !perms.execute then Err(NoPermission(index))
        else if perms.write && !perms.read then Err(WriteWithoutRead(index))
        else if vaddr < range.start || vaddr + memsz > range.end then Err(SegmentOutsideUserRange(index))
        else Ok(Some(Checked(index, offset, vaddr, filesz, memsz, perms)))
  }

  /** The loaded segments of the first `n` program headers, or the first one's error. */
  function CheckHeaders(elf: seq<Byte>, h: ElfHeader, fileLen: Word, range: UserRange, n: nat)
    : (r: Result<seq<Checked>, UserElfError>)
  {
    if n == 0 then Ok([])
    else
      var before := CheckHeaders(elf, h, fileLen, range, n - 1);
      if before.Err? then before
      else
        match CheckHeader(elf, h, fileLen, range, n - 1)
        case Err(e) => Err(e)
        case Ok(None) => before
        case Ok(Some(c)) => Ok(before.value + [c])
  }

  predicate ByAddress(cs: seq<Checked>) {
    forall i, j :: 0 <= i < j < |cs| ==> cs[i].vaddr <= cs[j].vaddr
  }

  /** The segments by address, equal addresses in table order. */
  function Sorted(cs: seq<Checked>): (r: seq<Checked>)
    ensures multiset(r) == multiset(cs) && ByAddress(r)
  {
    var key := (c: Checked) => c.vaddr as int;
    Sequences.SortSorts(cs, key);
    Sequences.SortBy(cs, key)
  }

  function Low(a: nat, b: nat): nat { if a < b then a else b }
  function High(a: nat, b: nat): nat { if a < b then b else a }

  /** What is wrong with two neighbours in address order. */
  function PairError(a: Checked, b: Checked): Option<UserElfError> {
    if b.vaddr < a.End() then Some(SegmentOverlap(Low(a.index, b.index), High(a.index, b.index)))
    else if b.FirstPage() <= a.LastPage() then Some(SharedPage(Low(a.index, b.index), High(a.index, b.index)))
    else None
  }

  /** The first bad pair of neighbours from `i` on. */
  function PairsError(cs: seq<Checked>, i: nat): Option<UserElfError>
    decreases |cs| - i
  {
    if i + 1 >= |cs| then None
    else if PairError(cs[i], cs[i + 1]).Some? then PairError(cs[i], cs[i + 1])
    else PairsError(cs, i + 1)
  }

  predicate RunsEntry(c: Checked, entry: Word) {
    c.perms.execute && c.vaddr <= entry < c.End()
  }

  function Narrow(v: int): (w: Word)
    requires v >= 0
  {
    if v < WORD_LIMIT then v else WORD_LIMIT - 1
  }

  function Max(a: int, b: int): int { if a < b then b else a }
  function Min(a: int, b: int): int { if a < b then a else b }

  /** Page number `n` of a segment: its file bytes at their offsets, zeros elsewhere. */
  function PlanPage(c: Checked, n: nat): PagePlan {
    var va := n * PAGE;
    var from, to := Max(c.vaddr, va), Min(c.vaddr + c.filesz, va + PAGE);
    PagePlan(Narrow(va), c.perms,
             if from < to then Some(FileCopy(Narrow(c.offset + (from - c.vaddr)), Narrow(from - va), Narrow(to - from))) else None)
  }

  function PlanPages(c: Checked): (ps: seq<PagePlan>)
    requires c.memsz > 0
    ensures |ps| == c.LastPage() - c.FirstPage() + 1
  {
    seq(c.LastPage() - c.FirstPage() + 1, i requires 0 <= i => PlanPage(c, c.FirstPage() + i))
  }

  function SegmentFor(c: Checked): UserSegment
    requires c.memsz > 0
  {
    UserSegment(c.index, c.vaddr, c.memsz, c.perms, PlanPages(c))
  }

  function SegmentsFor(cs: seq<Checked>): (ss: seq<UserSegment>)
    requires forall i :: 0 <= i < |cs| ==> cs[i].memsz > 0
    ensures |ss| == |cs|
  {
    seq(|cs|, i requires 0 <= i < |cs| => SegmentFor(cs[i]))
  }

  /** What a checked segment satisfies. */
  predicate InRange(c: Checked, fileLen: Word, range: UserRange) {
    && 0 < c.memsz && c.filesz <= c.memsz && c.offset + c.filesz <= fileLen
    && ValidPerms(c.perms) && range.start <= c.vaddr && c.End() <= range.end
  }

  predicate AllInRange(cs: seq<Checked>, fileLen: Word, range: UserRange) {
    forall i :: 0 <= i < |cs| ==> InRange(cs[i], fileLen, range)
  }

  lemma CheckHeaderInRange(elf: seq<Byte>, h: ElfHeader, fileLen: Word, range: UserRange, index: nat)
    ensures var r := CheckHeader(elf, h, fileLen, range, index);
      r.Ok? && r.value.Some? ==> InRange(r.value.value, fileLen, range)
  {
  }

  lemma {:induction false} CheckHeadersInRange(elf: seq<Byte>, h: ElfHeader, fileLen: Word, range: UserRange, n: nat)
    ensures var r := CheckHeaders(elf, h, fileLen, range, n);
      r.Ok? ==> AllInRange(r.value, fileLen, range)
  {
    hide CheckHeader, InRange;
    if n > 0 {
      CheckHeadersInRange(elf, h, fileLen, range, n - 1);
      CheckHeaderInRange(elf, h, fileLen, range, n - 1);
    }
  }

  lemma SortedInRange(cs: seq<Checked>, fileLen: Word, range: UserRange)
    requires AllInRange(cs, fileLen, range)
    ensures AllInRange(Sorted(cs), fileLen, range)
  {
    hide InRange, Sorted;
    var r := Sorted(cs);
    forall i | 0 <= i < |r| ensures InRange(r[i], fileLen, range) {
      assert r[i] in multiset(r);
      assert r[i] in multiset(cs);
    }
  }

  predicate ValidRange(range: UserRange) {
    range.start < range.end && range.start % PAGE == 0 && range.end % PAGE == 0
  }

  /** The checked segments in address order. */
  function SortedSegments(elf: seq<Byte>, h: ElfHeader, fileLen: Word, range: UserRange): (r: Result<seq<Checked>, UserElfError>)
    ensures r.Ok? ==> AllInRange(r.value, fileLen, range)
  {
    CheckHeadersInRange(elf, h, fileLen, range, h.phnum);
    match CheckHeaders(elf, h, fileLen, range, h.phnum)
    case Err(e) => Err(e)
    case Ok(cs) =>
      SortedInRange(cs, fileLen, range);
      Ok(Sorted(cs))
  }

  /** The checks after the segments are sorted: neighbours, then the entry point. */
  function ImageOf(entry: Word, cs: seq<Checked>): (r: Result<UserImage, UserElfError>)
    requires forall i :: 0 <= i < |cs| ==> cs[i].memsz > 0
  {
    if PairsError(cs, 0).Some? then Err(PairsError(cs, 0).value)
    else if entry % 4 != 0 then Err(MisalignedEntry(entry))
    else if !exists c :: c in cs && RunsEntry(c, entry) then Err(EntryNotExecutable(entry))
    else Ok(UserImage(entry, SegmentsFor(cs)))
  }

  /** The result of `parse_user_elf32`. */
  function Parsed(prefix: seq<Byte>, fileLen: Word, range: UserRange): (r: Result<UserImage, UserElfError>) {
    if !ValidRange(range) then Err(InvalidUserRange)
    else
      match CheckedHeader(prefix, fileLen)
      case Err(e) => Err(e)
      case Ok(h) =>
        match SortedSegments(prefix, h, fileLen, range)
        case Err(e) => Err(e)
        case Ok(cs) => ImageOf(h.entry, cs)
  }

  // ----- The loops -----

  /** `parse_user_elf32`: one loop over the program headers with early returns, one over the neighbours. */
  method Parse(prefix: seq<Byte>, fileLen: Word, range: UserRange) returns (r: Result<UserImage, UserElfError>)
    ensures r == Parsed(prefix, fileLen, range)
  {
    hide CheckHeader, ReadHeader, HeaderFields;
    if !ValidRange(range) {
      return Err(InvalidUserRange);
    }
    var header := CheckedHeader(prefix, fileLen);
    if header.Err? {
      return Err(header.error);
    }
    var h := header.value;
    var segments := ScanHeaders(prefix, h, fileLen, range);
    if segments.Err? {
      return Err(segments.error);
    }
    var cs := Sorted(segments.value);
    assert SortedSegments(prefix, h, fileLen, range) == Ok(cs);
    var i := 0;
    while i + 1 < |cs|
      invariant PairsError(cs, 0) == PairsError(cs, i)
    {
      var bad := PairError(cs[i], cs[i + 1]);
      if bad.Some? {
        return Err(bad.value);
      }
      i := i + 1;
    }
    return ImageOf(h.entry, cs);
  }

  method ScanHeaders(prefix: seq<Byte>, h: ElfHeader, fileLen: Word, range: UserRange) returns (r: Result<seq<Checked>, UserElfError>)
    ensures r == CheckHeaders(prefix, h, fileLen, range, h.phnum)
  {
    var checked := [];
    var index := 0;
    while index < h.phnum
      invariant 0 <= index <= h.phnum
      invariant CheckHeaders(prefix, h, fileLen, range, index) == Ok(checked)
    {
      var c := CheckHeader(prefix, h, fileLen, range, index);
      index := index + 1;
      if c.Err? {
        HeadersFail(prefix, h, fileLen, range, index, h.phnum);
        return Err(c.error);
      }
      if c.value.Some? {
        checked := checked + [c.value.value];
      }
    }
    return Ok(checked);
  }

  /** The first error is the result. */
  lemma {:induction false} HeadersFail(elf: seq<Byte>, h: ElfHeader, fileLen: Word, range: UserRange, i: nat, n: nat)
    requires i <= n && CheckHeaders(elf, h, fileLen, range, i).Err?
    ensures CheckHeaders(elf, h, fileLen, range, n) == CheckHeaders(elf, h, fileLen, range, i)
  {
    hide CheckHeader;
    if i < n {
      HeadersFail(elf, h, fileLen, range, i, n - 1);
    }
  }
}
