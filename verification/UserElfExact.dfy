/** The parser's promises: the answer does not depend on how much of the file it saw, and its plan is exact. */
module UserElfExact {
  import opened Words
  import opened Config
  import opened Image
  import opened UserElf

  // ----- Prefix independence -----

  lemma PrefixReads(file: seq<Byte>, k: nat, a: nat, b: nat)
    requires a <= b <= k <= |file|
    ensures file[..k][a..b] == file[a..b]
  {
  }

  lemma PrefixHeader(file: seq<Byte>, k: nat)
    requires EHDR_SIZE <= k <= |file|
    ensures HeaderFields(file[..k]) == HeaderFields(file) && TableShape(file[..k]) == TableShape(file)
    ensures Half(file[..k], 44) == Half(file, 44) && Full(file[..k], 28) == Full(file, 28)
  {
    hide LeHalf, LeWord;
    PrefixReads(file, k, 0, 4);
    PrefixReads(file, k, 16, 18);
    PrefixReads(file, k, 18, 20);
    PrefixReads(file, k, 20, 24);
    PrefixReads(file, k, 24, 28);
    PrefixReads(file, k, 28, 32);
    PrefixReads(file, k, 40, 42);
    PrefixReads(file, k, 42, 44);
    PrefixReads(file, k, 44, 46);
  }

  lemma PrefixProgramHeader(file: seq<Byte>, k: nat, h: ElfHeader, fileLen: Word, range: UserRange, index: nat)
    requires k <= |file| && h.phoff + index * PHDR_SIZE + PHDR_SIZE <= k
    ensures CheckHeader(file[..k], h, fileLen, range, index) == CheckHeader(file, h, fileLen, range, index)
  {
    hide LeWord, PermsOf;
    var at := h.phoff + index * PHDR_SIZE;
    PrefixReads(file, k, at, at + 4);
    PrefixReads(file, k, at + 4, at + 4 + 4);
    PrefixReads(file, k, at + 8, at + 8 + 4);
    PrefixReads(file, k, at + 16, at + 16 + 4);
    PrefixReads(file, k, at + 20, at + 20 + 4);
    PrefixReads(file, k, at + 24, at + 24 + 4);
  }

  lemma {:induction false} PrefixProgramHeaders(file: seq<Byte>, k: nat, h: ElfHeader, fileLen: Word, range: UserRange, n: nat)
    requires k <= |file| && h.phoff + n * PHDR_SIZE <= k
    ensures CheckHeaders(file[..k], h, fileLen, range, n) == CheckHeaders(file, h, fileLen, range, n)
  {
    hide CheckHeader;
    if n > 0 {
      PrefixProgramHeaders(file, k, h, fileLen, range, n - 1);
      PrefixProgramHeader(file, k, h, fileLen, range, n - 1);
    }
  }

  /** The table's end as the first 52 bytes give it. */
  function TableEnd(file: seq<Byte>): int
    requires |file| >= EHDR_SIZE
  {
    Full(file, 28) + Half(file, 44) * PHDR_SIZE
  }

  lemma FieldsAreRaw(elf: seq<Byte>)
    requires |elf| >= EHDR_SIZE && HeaderFields(elf).Ok?
    ensures HeaderFields(elf).value.TableEnd() == TableEnd(elf) && HeaderFields(elf).value.phnum == Half(elf, 44)
  {
  }

  /** The header check of a prefix: the whole file's, unless the table is in the file and past the prefix. */
  lemma PrefixCheckedHeader(file: seq<Byte>, k: nat)
    requires |file| < WORD_LIMIT && k <= |file|
    ensures var r, whole := CheckedHeader(file[..k], |file|), CheckedHeader(file, |file|);
      || (r == whole && (r.Ok? ==> r.value.TableEnd() <= k))
      || (|file| >= EHDR_SIZE && k < EHDR_SIZE && r == Err(PrefixTooShort(EHDR_SIZE)))
      || (k >= EHDR_SIZE && k < TableEnd(file) <= |file| && r == Err(PrefixTooShort(TableEnd(file))))
    ensures !(CheckedHeader(file, |file|).Err? && CheckedHeader(file, |file|).error.PrefixTooShort?)
  {
    hide HeaderFields, TableShape, Half, Full;
    if k >= EHDR_SIZE {
      PrefixHeader(file, k);
      if HeaderFields(file).Ok? {
        FieldsAreRaw(file);
        FieldsAreRaw(file[..k]);
      }
    }
    if |file| >= EHDR_SIZE && HeaderFields(file).Ok? {
      FieldsAreRaw(file);
    }
  }

  predicate TooShort(r: Result<UserImage, UserElfError>) {
    r.Err? && r.error.PrefixTooShort?
  }

  /** A prefix gives the whole file's result, or asks for a longer prefix of it. */
  lemma PrefixIndependent(file: seq<Byte>, k: nat, range: UserRange)
    requires |file| < WORD_LIMIT && k <= |file|
    ensures var r, whole := Parsed(file[..k], |file|, range), Parsed(file, |file|, range);
      && !TooShort(whole)
      && (r == whole || (TooShort(r) && k < r.error.needed <= |file|))
      && (TooShort(r) ==> r.error.needed == if k < EHDR_SIZE then EHDR_SIZE else TableEnd(file))
  {
    hide CheckedHeader, CheckHeaders, Half, Full, PairsError, SegmentsFor;
    PrefixCheckedHeader(file, k);
    var h := CheckedHeader(file, |file|);
    if h.Ok? {
      SegmentsNotShort(file, h.value, |file|, range);
      if CheckedHeader(file[..k], |file|) == h {
        PrefixProgramHeaders(file, k, h.value, |file|, range, h.value.phnum);
      }
    }
  }

  lemma SegmentsNotShort(elf: seq<Byte>, h: ElfHeader, fileLen: Word, range: UserRange)
    ensures var r := SortedSegments(elf, h, fileLen, range); r.Err? ==> !r.error.PrefixTooShort?
    ensures var r := SortedSegments(elf, h, fileLen, range); r.Ok? ==> !TooShort(ImageOf(h.entry, r.value))
  {
    hide CheckHeaders;
    HeadersNotShort(elf, h, fileLen, range, h.phnum);
    var r := SortedSegments(elf, h, fileLen, range);
    if r.Ok? {
      PairsNotShort(r.value, 0);
    }
  }

  lemma {:induction false} HeadersNotShort(elf: seq<Byte>, h: ElfHeader, fileLen: Word, range: UserRange, n: nat)
    ensures var r := CheckHeaders(elf, h, fileLen, range, n); r.Err? ==> !r.error.PrefixTooShort?
  {
    if n > 0 {
      HeadersNotShort(elf, h, fileLen, range, n - 1);
    }
  }

  lemma {:induction false} PairsNotShort(cs: seq<Checked>, i: nat)
    ensures PairsError(cs, i).Some? ==> !PairsError(cs, i).value.PrefixTooShort?
    decreases |cs| - i
  {
    if i + 1 < |cs| {
      PairsNotShort(cs, i + 1);
    }
  }

  /** A caller that retries with the `needed` bytes has the whole file's result after at most two retries, and after at
      most one when it starts with a whole ELF header. */
  lemma RetriesSettle(file: seq<Byte>, k: nat, range: UserRange)
    requires |file| < WORD_LIMIT && k <= |file|
    ensures var whole, r := Parsed(file, |file|, range), Parsed(file[..k], |file|, range);
      TooShort(r) ==>
        var n := r.error.needed;
        && k < n <= |file|
        && var s := Parsed(file[..n], |file|, range);
           && (s == whole || (k < EHDR_SIZE && TooShort(s)))
           && (TooShort(s) ==> n < s.error.needed <= |file| && Parsed(file[..s.error.needed], |file|, range) == whole)
  {
    hide Parsed, Half, Full;
    PrefixIndependent(file, k, range);
    var r := Parsed(file[..k], |file|, range);
    if TooShort(r) {
      var n := r.error.needed;
      PrefixIndependent(file, n, range);
      var s := Parsed(file[..n], |file|, range);
      if TooShort(s) {
        PrefixIndependent(file, s.error.needed, range);
      }
    }
  }

  // ----- The plan is exact -----

  /** The file offset a planned page takes its byte at `o` from, if any. */
  function Source(p: PagePlan, o: int): Option<int> {
    match p.copy
    case Some(c) => if c.pageOffset <= o < c.pageOffset + c.len then Some(c.fileOffset + (o - c.pageOffset)) else None
    case None => None
  }

  lemma PageBounds(c: Checked, fileLen: Word, range: UserRange, n: int)
    requires InRange(c, fileLen, range) && ValidRange(range) && c.FirstPage() <= n <= c.LastPage()
    ensures range.start <= n * PAGE && n * PAGE + PAGE <= range.end
  {
    PageFloor(c.vaddr, n, range.start);
    PageCeiling(c.End() - 1, n, range.end);
  }

  lemma PageFloor(x: int, n: int, start: int)
    requires x / PAGE <= n && start <= x && start % PAGE == 0
    ensures start <= n * PAGE
  {
    var s := start / PAGE;
    assert start == s * PAGE;
    assert x >= s * PAGE;
    assert s <= x / PAGE;
  }

  lemma PageCeiling(x: int, n: int, end: int)
    requires n <= x / PAGE && x < end && end % PAGE == 0
    ensures n * PAGE + PAGE <= end
  {
    var e := end / PAGE;
    assert end == e * PAGE;
    assert x / PAGE < e;
  }

  /** Page `n` of a checked segment, without the truncations, which never apply. */
  lemma PlanPageIs(c: Checked, fileLen: Word, range: UserRange, n: nat)
    requires InRange(c, fileLen, range) && ValidRange(range) && c.FirstPage() <= n <= c.LastPage()
    ensures var p, va := PlanPage(c, n), n * PAGE;
      && p.va == va && p.va % PAGE == 0 && range.start <= p.va && p.va + PAGE <= range.end && p.perms == c.perms
      && (p.copy.Some? ==> var k := p.copy.value;
            0 < k.len && k.pageOffset + k.len <= PAGE && k.fileOffset + k.len <= fileLen)
  {
    PageBounds(c, fileLen, range, n);
    PageSplit(n * PAGE, n, 0);
  }

  /** Byte `x` of a page of a segment comes from its place in the file exactly when it is in the segment's file range,
      and is zero otherwise. */
  lemma PlanByte(c: Checked, fileLen: Word, range: UserRange, n: nat, x: int)
    requires InRange(c, fileLen, range) && ValidRange(range) && c.FirstPage() <= n <= c.LastPage()
    requires n * PAGE <= x < n * PAGE + PAGE
    ensures Source(PlanPage(c, n), x - n * PAGE)
         == if c.vaddr <= x < c.vaddr + c.filesz then Some(c.offset + (x - c.vaddr)) else None
  {
    PageBounds(c, fileLen, range, n);
  }

  /** The page of a segment that holds address `x`, if the segment has one. */
  lemma PlanPagesAt(c: Checked, j: nat)
    requires 0 < c.memsz && j < |PlanPages(c)|
    ensures PlanPages(c)[j] == PlanPage(c, c.FirstPage() + j)
  {
  }

  /** The copies tile the file range byte for byte: for any address `x`, the segment has a page holding it exactly when
      `x` is on a page the segment's memory touches, that page is unique, and its byte is the file byte the segment puts
      at `x`, or zero when it puts none. */
  lemma PlanExact(c: Checked, fileLen: Word, range: UserRange, x: int)
    requires InRange(c, fileLen, range) && ValidRange(range)
    ensures forall j :: (0 <= j < |PlanPages(c)| && PlanPages(c)[j].va <= x < PlanPages(c)[j].va + PAGE
      ==> j == x / PAGE - c.FirstPage()
          && Source(PlanPages(c)[j], x - PlanPages(c)[j].va)
             == if c.vaddr <= x < c.vaddr + c.filesz then Some(c.offset + (x - c.vaddr)) else None)
    ensures c.FirstPage() <= x / PAGE <= c.LastPage() ==>
      var p := PlanPages(c)[x / PAGE - c.FirstPage()]; p.va <= x < p.va + PAGE
  {
    hide PlanPages, PlanPage, Source, InRange;
    Touches(c, fileLen, range);
    forall j | 0 <= j < |PlanPages(c)| && PlanPages(c)[j].va <= x < PlanPages(c)[j].va + PAGE
      ensures j == x / PAGE - c.FirstPage()
      ensures Source(PlanPages(c)[j], x - PlanPages(c)[j].va)
           == if c.vaddr <= x < c.vaddr + c.filesz then Some(c.offset + (x - c.vaddr)) else None
    {
      var n := c.FirstPage() + j;
      PlanPagesAt(c, j);
      PlanPageIs(c, fileLen, range, n);
      PageSplit(x, n, x - n * PAGE);
      PlanByte(c, fileLen, range, n, x);
    }
    if c.FirstPage() <= x / PAGE <= c.LastPage() {
      PlanPagesAt(c, x / PAGE - c.FirstPage());
      PlanPageIs(c, fileLen, range, x / PAGE);
    }
  }

  lemma Touches(c: Checked, fileLen: Word, range: UserRange)
    requires InRange(c, fileLen, range)
    ensures 0 < c.memsz && 0 <= c.FirstPage() <= c.LastPage()
  {
  }

  // ----- What an accepted file becomes -----

  /** Segment `i` ends on a page before segment `j` starts. */
  predicate PagesBefore(a: Checked, b: Checked) {
    a.LastPage() < b.FirstPage()
  }

  lemma {:induction false} NoPairError(cs: seq<Checked>, i: nat, k: nat)
    requires PairsError(cs, i).None? && i <= k && k + 1 < |cs|
    ensures PagesBefore(cs[k], cs[k + 1])
    decreases k - i
  {
    if i < k {
      NoPairError(cs, i + 1, k);
    }
  }

  /** Checking neighbours is enough: no two segments share a page. */
  lemma {:induction false} PairsApart(cs: seq<Checked>, i: nat, j: nat)
    requires PairsError(cs, 0).None? && i < j < |cs| && forall k :: 0 <= k < |cs| ==> cs[k].memsz > 0
    ensures PagesBefore(cs[i], cs[j])
  {
    hide PairsError, Checked.FirstPage, Checked.LastPage;
    NoPairError(cs, 0, j - 1);
    if i < j - 1 {
      PairsApart(cs, i, j - 1);
      FirstNotAfterLast(cs[j - 1]);
    }
  }

  lemma FirstNotAfterLast(c: Checked)
    requires c.memsz > 0
    ensures c.FirstPage() <= c.LastPage()
  {
  }

  lemma SegmentsAscend(cs: seq<Checked>, fileLen: Word, range: UserRange, n: nat)
    requires AllInRange(cs, fileLen, range) && ValidRange(range) && PairsError(cs, 0).None? && n <= |cs|
    ensures PagesAscend(SegmentPages(SegmentsFor(cs)[..n]))
    ensures n > 0 ==> var ps := SegmentPages(SegmentsFor(cs)[..n]); ps != [] && ps[|ps| - 1].va == PAGE * cs[n - 1].LastPage()
  {
    hide PairsError, PagesAscend, Checked.FirstPage, Checked.LastPage, PlanPages, SegmentPages;
    if n == 0 {
      NoPages(SegmentsFor(cs)[..0]);
    } else {
      SegmentsAscend(cs, fileLen, range, n - 1);
      var ss, c := SegmentsFor(cs), cs[n - 1];
      Touches(c, fileLen, range);
      AddSegment(ss, n - 1);
      SegmentPlanAscends(c, fileLen, range);
      var before, now := SegmentPages(ss[..n - 1]), PlanPages(c);
      if n > 1 {
        NoPairError(cs, 0, n - 2);
        AscendJoin(before, now);
      } else {
        NoPages(ss[..0]);
        assert before + now == now;
      }
      assert (before + now)[|before + now| - 1] == now[|now| - 1];
    }
  }

  lemma NoPages(segments: seq<UserSegment>)
    requires segments == []
    ensures SegmentPages(segments) == [] && PagesAscend(SegmentPages(segments))
  {
  }

  lemma AddSegment(ss: seq<UserSegment>, n: nat)
    requires n < |ss|
    ensures SegmentPages(ss[..n + 1]) == SegmentPages(ss[..n]) + ss[n].pages
  {
    assert ss[..n + 1][..n] == ss[..n];
  }

  lemma SegmentPlanAscends(c: Checked, fileLen: Word, range: UserRange)
    requires InRange(c, fileLen, range) && ValidRange(range)
    ensures var ps := PlanPages(c);
      PagesAscend(ps) && |ps| > 0 && ps[0].va == PAGE * c.FirstPage() && ps[|ps| - 1].va == PAGE * c.LastPage()
  {
    hide InRange, PlanPages, PlanPage, Checked.FirstPage, Checked.LastPage;
    Touches(c, fileLen, range);
    var ps := PlanPages(c);
    forall j | 0 <= j < |ps| ensures ps[j].va == PAGE * (c.FirstPage() + j) {
      PlanPagesAt(c, j);
      PlanPageIs(c, fileLen, range, c.FirstPage() + j);
    }
  }

  lemma AscendJoin(before: seq<PagePlan>, now: seq<PagePlan>)
    requires PagesAscend(before) && PagesAscend(now) && before != [] && now != []
    requires before[|before| - 1].va < now[0].va
    ensures PagesAscend(before + now)
  {
    var all := before + now;
    forall i, j | 0 <= i < j < |all| ensures all[i].va < all[j].va {
      if i < |before| <= j {
        assert before[i].va <= before[|before| - 1].va;
        assert now[0].va <= now[j - |before|].va;
      }
    }
  }

  function RangeOf(l: UserLayout): UserRange {
    UserRange(l.userBase, l.ImageEnd())
  }

  /** A page of a checked segment passes the page rule and stays inside its page. */
  lemma PlannedAccepted(c: Checked, l: UserLayout, fileLen: Word, j: nat)
    requires ValidRange(RangeOf(l)) && InRange(c, fileLen, RangeOf(l)) && j < |PlanPages(c)|
    ensures var p := PlanPages(c)[j];
      PageAccepted(p, SegmentFor(c), l, fileLen) && (p.copy.Some? ==> p.copy.value.pageOffset + p.copy.value.len <= PAGE)
  {
    Touches(c, fileLen, RangeOf(l));
    hide PlanPages, PlanPage, Checked.FirstPage, Checked.LastPage;
    PlanPagesAt(c, j);
    PlanPageIs(c, fileLen, RangeOf(l), c.FirstPage() + j);
  }

  lemma SegmentPasses(c: Checked, l: UserLayout, fileLen: Word)
    requires ValidRange(RangeOf(l)) && InRange(c, fileLen, RangeOf(l))
    ensures SegmentAccepted(SegmentFor(c), l, fileLen)
    ensures forall p :: p in SegmentFor(c).pages && p.copy.Some? ==> p.copy.value.pageOffset + p.copy.value.len <= PAGE
  {
    hide PlanPages, PageAccepted;
    Touches(c, fileLen, RangeOf(l));
    forall p | p in SegmentFor(c).pages
      ensures PageAccepted(p, SegmentFor(c), l, fileLen)
      ensures p.copy.Some? ==> p.copy.value.pageOffset + p.copy.value.len <= PAGE
    {
      var j :| 0 <= j < |PlanPages(c)| && PlanPages(c)[j] == p;
      PlannedAccepted(c, l, fileLen, j);
    }
  }

  /** The image of a parsed file is that of some checked segments. */
  lemma ParsedFrom(prefix: seq<Byte>, fileLen: Word, range: UserRange) returns (cs: seq<Checked>)
    requires Parsed(prefix, fileLen, range).Ok?
    ensures ValidRange(range) && AllInRange(cs, fileLen, range) && PairsError(cs, 0).None?
    ensures ByAddress(cs) && |cs| <= MAX_PHDRS
    ensures var image := Parsed(prefix, fileLen, range).value;
      && image.segments == SegmentsFor(cs) && image.entry % 4 == 0
      && exists i :: 0 <= i < |cs| && RunsEntry(cs[i], image.entry)
  {
    hide CheckedHeader, CheckHeaders, PairsError, Sorted, SegmentsFor;
    var h := CheckedHeader(prefix, fileLen).value;
    var raw := CheckHeaders(prefix, h, fileLen, range, h.phnum).value;
    cs := Sorted(raw);
    CheckedCount(prefix, h, fileLen, range, h.phnum);
    HeaderCount(prefix, fileLen);
    assert |multiset(cs)| == |multiset(raw)|;
  }

  lemma {:induction false} CheckedCount(elf: seq<Byte>, h: ElfHeader, fileLen: Word, range: UserRange, n: nat)
    ensures var r := CheckHeaders(elf, h, fileLen, range, n); r.Ok? ==> |r.value| <= n
  {
    hide CheckHeader;
    if n > 0 {
      CheckedCount(elf, h, fileLen, range, n - 1);
    }
  }

  lemma HeaderCount(prefix: seq<Byte>, fileLen: Word)
    ensures var r := CheckedHeader(prefix, fileLen); r.Ok? ==> r.value.phnum <= MAX_PHDRS
  {
  }

  /** A parsed file has at most 16 segments, and the pages of each follow each other. */
  lemma ParsedFollows(prefix: seq<Byte>, fileLen: Word, range: UserRange)
    requires Parsed(prefix, fileLen, range).Ok?
    ensures RegionShaped(Parsed(prefix, fileLen, range).value)
  {
    hide Parsed, SegmentsFor, PlanPages, PairsError, ValidPerms;
    var cs := ParsedFrom(prefix, fileLen, range);
    var image := Parsed(prefix, fileLen, range).value;
    forall i | 0 <= i < |image.segments| ensures Follow(image.segments[i]) {
      SegmentForFollows(cs[i], fileLen, range);
      SegmentsForAt(cs, i);
    }
  }

  lemma SegmentsForAt(cs: seq<Checked>, i: nat)
    requires i < |cs| && forall j :: 0 <= j < |cs| ==> cs[j].memsz > 0
    ensures SegmentsFor(cs)[i] == SegmentFor(cs[i])
  {
  }

  lemma SegmentForFollows(c: Checked, fileLen: Word, range: UserRange)
    requires InRange(c, fileLen, range) && ValidRange(range)
    ensures c.memsz > 0 && Follow(SegmentFor(c))
  {
    hide PlanPages, PlanPage;
    Touches(c, fileLen, range);
    var pages := SegmentFor(c).pages;
    forall k | 0 <= k < |pages| ensures pages[k].va == pages[0].va + k * PAGE {
      PlanPagesAt(c, k);
      PlanPageIs(c, fileLen, range, c.FirstPage() + k);
      PlanPagesAt(c, 0);
      PlanPageIs(c, fileLen, range, c.FirstPage());
    }
  }

  /** Whatever the parser accepts, boot accepts: with the file staged inside the staging area, the image passes every
      rule of `BootImage::check`, and every copy stays inside its page. */
  lemma ParsedIsAccepted(prefix: seq<Byte>, c: KernelConfig, l: UserLayout, staged: Word, fileLen: Word)
    requires fileLen != 0 && c.staging.Contains(staged, fileLen)
    ensures var r := Parsed(prefix, fileLen, RangeOf(l));
      r.Ok? ==> Accepted(BootImage(staged, fileLen, r.value), c, l) && CopiesInPage(r.value)
  {
    hide Parsed, InRange, PlanPages, PageAccepted, PairsError, Checked.FirstPage, Checked.LastPage, ValidRange, SegmentPages, PagesAscend;
    var r := Parsed(prefix, fileLen, RangeOf(l));
    if r.Ok? {
      var cs := ParsedFrom(prefix, fileLen, RangeOf(l));
      var ss := r.value.segments;
      SegmentsAscend(cs, fileLen, RangeOf(l), |cs|);
      assert ss[..|ss|] == ss;
      forall s | s in ss
        ensures SegmentAccepted(s, l, fileLen)
        ensures forall p :: p in s.pages && p.copy.Some? ==> p.copy.value.pageOffset + p.copy.value.len <= PAGE
      {
        var i :| 0 <= i < |ss| && ss[i] == s;
        SegmentPasses(cs[i], l, fileLen);
      }
      var e :| 0 <= e < |cs| && RunsEntry(cs[e], r.value.entry);
      EntryInRange(cs[e], l, fileLen, r.value.entry);
      forall p | p in SegmentPages(ss) && p.copy.Some? ensures p.copy.value.pageOffset + p.copy.value.len <= PAGE {
        var s := SegmentOf(ss, p);
      }
    }
  }

  lemma EntryInRange(c: Checked, l: UserLayout, fileLen: Word, entry: Word)
    requires InRange(c, fileLen, RangeOf(l)) && RunsEntry(c, entry)
    ensures l.userBase <= entry < l.ImageEnd()
  {
  }
}
