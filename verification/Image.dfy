/** User images, the user layout, and the rules a plan is validated with (components/os/src/image.rs,
    the image types of elf/src/user.rs). */
module Image {
  import opened Words
  import opened Config
  import Sv32

  datatype Perms = Perms(read: bool, write: bool, execute: bool)
  datatype FileCopy = FileCopy(fileOffset: Word, pageOffset: Word, len: Word)
  datatype PagePlan = PagePlan(va: Word, perms: Perms, copy: Option<FileCopy>)
  datatype UserSegment = UserSegment(index: nat, vaddr: Word, memsz: Word, perms: Perms, pages: seq<PagePlan>)
  datatype UserImage = UserImage(entry: Word, segments: seq<UserSegment>)
  datatype BootImage = BootImage(staged: Word, fileLen: Word, image: UserImage)

  const MMIO_MEGAPAGE := 0x1000_0000
  const STACK_PERMS := Perms(true, true, false)

  datatype UserLayout = UserLayout(userBase: Word, stackTop: Word, stackPages: Word) {

    function StackBase(): Option<Word> {
      if stackPages * PAGE < WORD_LIMIT && stackPages * PAGE <= stackTop
      then Some(stackTop - stackPages * PAGE) else None
    }

    /** The end of the range segments may occupy, `[userBase, ImageEnd())`. */
    function ImageEnd(): Word {
      match StackBase() case Some(base) => base case None => 0
    }
  }

  predicate ValidPerms(p: Perms) {
    (p.read || p.execute) && (p.read || !p.write)
  }

  /** The slots of the two megapages every address space maps. */
  function MegaSlots(c: KernelConfig): set<int> {
    {Sv32.Vpn1(c.ram.base), Sv32.Vpn1(MMIO_MEGAPAGE)}
  }

  /** `validate_layout`: the rules every kernel with processes needs. */
  predicate ValidLayout(c: KernelConfig, l: UserLayout) {
    var kernel := c.ram.base;
    && c.Valid()
    && kernel % MEGAPAGE == 0 && kernel + MEGAPAGE <= PHYS_LIMIT
    && Window(kernel, MEGAPAGE).Contains(c.trapFrame, FRAME_BYTES)
    && Window(kernel, MEGAPAGE).Contains(c.staging.base, c.staging.size)
    && c.framePool.base % PAGE == 0 && c.framePool.size % PAGE == 0
    && c.framePool.base + c.framePool.size <= PHYS_LIMIT
    && !Window(kernel, MEGAPAGE).Overlaps(c.framePool.base, c.framePool.size)
    && l.userBase % PAGE == 0 && l.stackTop % PAGE == 0
    && l.stackPages != 0
    && l.StackBase().Some?
    && l.userBase < l.StackBase().value
    && (forall i {:trigger StackVa(l, i)} :: 0 <= i < l.stackPages ==> Sv32.Vpn1(StackVa(l, i)) !in MegaSlots(c))
  }

  function StackVa(l: UserLayout, i: nat): int {
    l.ImageEnd() + i * PAGE
  }

  /** The segments' pages in image order. */
  function SegmentPages(segments: seq<UserSegment>): (ps: seq<PagePlan>) {
    if segments == [] then [] else SegmentPages(segments[..|segments| - 1]) + segments[|segments| - 1].pages
  }

  /** The copy rule of `BootImage::check` as the code evaluates it: the sum of page offset and length that overflows
      `u32` is `None`, and `None <= Some(4096)` holds in Rust. */
  predicate CopyAccepted(c: FileCopy, fileLen: Word) {
    && c.len != 0
    && (c.pageOffset + c.len >= WORD_LIMIT || c.pageOffset + c.len <= PAGE)
    && c.fileOffset + c.len <= fileLen
  }

  predicate PageAccepted(p: PagePlan, seg: UserSegment, l: UserLayout, fileLen: Word) {
    && p.va % PAGE == 0 && l.userBase <= p.va < l.ImageEnd() && p.perms == seg.perms
    && (p.copy.Some? ==> CopyAccepted(p.copy.value, fileLen))
  }

  predicate SegmentAccepted(seg: UserSegment, l: UserLayout, fileLen: Word) {
    ValidPerms(seg.perms) && seg.pages != [] && forall p :: p in seg.pages ==> PageAccepted(p, seg, l, fileLen)
  }

  predicate PagesAscend(ps: seq<PagePlan>) {
    forall i, j :: 0 <= i < j < |ps| ==> ps[i].va < ps[j].va
  }

  /** What `BootImage::check` accepts. */
  predicate Accepted(b: BootImage, c: KernelConfig, l: UserLayout) {
    && b.fileLen != 0
    && c.staging.Contains(b.staged, b.fileLen)
    && b.image.entry % 4 == 0 && l.userBase <= b.image.entry < l.ImageEnd()
    && b.image.segments != []
    && (forall s :: s in b.image.segments ==> SegmentAccepted(s, l, b.fileLen))
    && PagesAscend(SegmentPages(b.image.segments))
  }

  /** Every copy stays inside its page: what the parser guarantees and a hand-built plan may not. */
  predicate CopiesInPage(image: UserImage) {
    forall p :: p in SegmentPages(image.segments) && p.copy.Some? ==> p.copy.value.pageOffset + p.copy.value.len <= PAGE
  }

  /** The pages of the segment follow each other. */
  predicate Follow(s: UserSegment) {
    forall k :: 0 <= k < |s.pages| ==> s.pages[k].va == s.pages[0].va + k * PAGE
  }

  /** The pages of every segment a process may read follow each other. */
  predicate ReadableFollow(image: UserImage) {
    forall i :: 0 <= i < |image.segments| && image.segments[i].perms.read ==> Follow(image.segments[i])
  }

  /** What regions alone can describe: at most 2^16 segments, the pages of each following each other. */
  predicate RegionShaped(image: UserImage) {
    |image.segments| <= 0x1_0000 && forall i :: 0 <= i < |image.segments| ==> Follow(image.segments[i])
  }

  /** `last` is the last page's address, if there is a page. */
  predicate LastVa(ps: seq<PagePlan>, last: Option<Word>) {
    last == if ps == [] then None else Some(ps[|ps| - 1].va)
  }

  /** The addresses of `ps` ascend, starting above `last`. */
  predicate AscendAfter(last: Option<Word>, ps: seq<PagePlan>) {
    PagesAscend(ps) && (last.Some? ==> forall p :: p in ps ==> last.value < p.va)
  }

  /** The inner loop of `BootImage::check`: one segment's pages after the page at `last`. */
  method CheckSegment(seg: UserSegment, l: UserLayout, fileLen: Word, last: Option<Word>)
    returns (ok: bool, end: Option<Word>)
    ensures ok <==> SegmentAccepted(seg, l, fileLen) && AscendAfter(last, seg.pages)
    ensures ok ==> seg.pages != [] && end == Some(seg.pages[|seg.pages| - 1].va)
  {
    hide ValidPerms, CopyAccepted;
    end := last;
    if !ValidPerms(seg.perms) || seg.pages == [] {
      return false, end;
    }
    var j := 0;
    while j < |seg.pages|
      invariant 0 <= j <= |seg.pages|
      invariant forall k :: 0 <= k < j ==> PageAccepted(seg.pages[k], seg, l, fileLen)
      invariant forall k, n :: 0 <= k < n < j ==> seg.pages[k].va < seg.pages[n].va
      invariant last.Some? ==> forall k :: 0 <= k < j ==> last.value < seg.pages[k].va
      invariant end == if j == 0 then last else Some(seg.pages[j - 1].va)
    {
      var p := seg.pages[j];
      if p.va % PAGE != 0 || p.va < l.userBase || p.va >= l.ImageEnd() || p.perms != seg.perms
         || (end.Some? && p.va <= end.value)
      {
        assert p in seg.pages;
        return false, end;
      }
      end := Some(p.va);
      if p.copy.Some? && !CopyAccepted(p.copy.value, fileLen) {
        assert !PageAccepted(p, seg, l, fileLen);
        return false, end;
      }
      j := j + 1;
    }
    return true, end;
  }

  /** `BootImage::check`, with its running `last`. */
  method Check(b: BootImage, c: KernelConfig, l: UserLayout) returns (ok: bool)
    ensures ok <==> Accepted(b, c, l)
  {
    if b.fileLen == 0 || !c.staging.Contains(b.staged, b.fileLen) {
      return false;
    }
    if b.image.entry % 4 != 0 || !(l.userBase <= b.image.entry < l.ImageEnd()) {
      return false;
    }
    var segments := b.image.segments;
    if segments == [] {
      return false;
    }
    var last: Option<Word> := None;
    var i := 0;
    while i < |segments|
      invariant 0 <= i <= |segments|
      invariant forall k :: 0 <= k < i ==> SegmentAccepted(segments[k], l, b.fileLen)
      invariant PagesAscend(SegmentPages(segments[..i]))
      invariant LastVa(SegmentPages(segments[..i]), last)
    {
      PagesStep(segments, i, last);
      var good, end := CheckSegment(segments[i], l, b.fileLen, last);
      if !good {
        PagesPrefix(segments, i + 1);
        assert PagesAscend(SegmentPages(segments)) ==> PagesAscend(SegmentPages(segments[..i + 1]));
        return false;
      }
      last := end;
      i := i + 1;
    }
    assert segments[..i] == segments;
    return true;
  }

  /** Adding segment `i` keeps the pages ascending exactly when its pages ascend after the last one. */
  lemma PagesStep(segments: seq<UserSegment>, i: nat, last: Option<Word>)
    requires i < |segments| && PagesAscend(SegmentPages(segments[..i])) && LastVa(SegmentPages(segments[..i]), last)
    ensures SegmentPages(segments[..i + 1]) == SegmentPages(segments[..i]) + segments[i].pages
    ensures PagesAscend(SegmentPages(segments[..i + 1])) <==> AscendAfter(last, segments[i].pages)
  {
    assert segments[..i + 1][..i] == segments[..i];
    AscendAppend(SegmentPages(segments[..i]), segments[i].pages, last);
  }

  lemma AscendAppend(before: seq<PagePlan>, now: seq<PagePlan>, last: Option<Word>)
    requires PagesAscend(before) && LastVa(before, last)
    ensures PagesAscend(before + now) <==> AscendAfter(last, now)
  {
    var all := before + now;
    if PagesAscend(all) {
      forall k | 0 <= k < |now| && last.Some? ensures last.value < now[k].va {
        assert all[|before| - 1].va < all[|before| + k].va;
      }
      forall j, k | 0 <= j < k < |now| ensures now[j].va < now[k].va {
        assert all[|before| + j].va < all[|before| + k].va;
      }
    }
  }

  lemma {:induction false} PagesPrefix(segments: seq<UserSegment>, i: nat)
    requires i <= |segments|
    ensures var n := |SegmentPages(segments[..i])|;
      n <= |SegmentPages(segments)| && SegmentPages(segments)[..n] == SegmentPages(segments[..i])
  {
    if i == |segments| {
      assert segments[..i] == segments;
    } else {
      var front := segments[..|segments| - 1];
      PagesPrefix(front, i);
      assert front[..i] == segments[..i];
    }
  }

  /** A plan built by hand: one executable page whose copy starts a page short of 4 GiB into it. */
  const ESCAPING_PAGE := PagePlan(0x1_0000, Perms(true, false, true), Some(FileCopy(0, 0xFFFF_F000, 0x2000)))
  const ESCAPING_SEGMENT := UserSegment(0, 0x1_0000, 0x1000, Perms(true, false, true), [ESCAPING_PAGE])
  const ESCAPING_IMAGE := BootImage(0x8010_0000, 0x2000, UserImage(0x1_0000, [ESCAPING_SEGMENT]))
  const EXAMPLE_LAYOUT := UserLayout(0x1_0000, 0x7FFF_F000, 4)
  const EXAMPLE_CONFIG := KernelConfig(
    Window(0x8000_0000, 0x100_0000), Window(0x1200_0000, 8), 0x8000_1000, Window(0x8010_0000, 0x10_0000),
    Window(0x8080_0000, 0x40_0000), Window(0x1100_0000, 0x20), 0x1000_0000)

  lemma ExampleLayoutValid()
    ensures ValidLayout(EXAMPLE_CONFIG, EXAMPLE_LAYOUT)
  {
    var l := EXAMPLE_LAYOUT;
    assert l.StackBase() == Some(0x7FFF_B000);
    forall i {:trigger StackVa(l, i)} | 0 <= i < l.stackPages
      ensures Sv32.Vpn1(StackVa(l, i)) !in MegaSlots(EXAMPLE_CONFIG)
    {
      assert StackVa(l, i) == 0x7FFF_B000 + i * PAGE;
    }
  }

  /** `BootImage::check` promises that no copy leaves its page. It does not keep that promise: a validated layout
      accepts this image, whose copy runs from 0xFFFFF000 bytes past its frame. */
  lemma AcceptedCopyCanLeaveItsPage()
    ensures ValidLayout(EXAMPLE_CONFIG, EXAMPLE_LAYOUT)
    ensures Accepted(ESCAPING_IMAGE, EXAMPLE_CONFIG, EXAMPLE_LAYOUT) && !CopiesInPage(ESCAPING_IMAGE.image)
  {
    ExampleLayoutValid();
    var segments := ESCAPING_IMAGE.image.segments;
    assert SegmentPages(segments[..0]) == [];
    assert SegmentPages(segments) == [ESCAPING_PAGE];
    assert ESCAPING_PAGE in SegmentPages(segments);
  }

  /** `BootImage::check` means what it promises exactly when no copy's page offset and length overflow `u32`. */
  lemma AcceptedMeansInPage(b: BootImage, c: KernelConfig, l: UserLayout)
    requires Accepted(b, c, l)
    ensures CopiesInPage(b.image)
       <==> forall p :: p in SegmentPages(b.image.segments) && p.copy.Some?
                        ==> p.copy.value.pageOffset + p.copy.value.len < WORD_LIMIT
  {
    forall p | p in SegmentPages(b.image.segments) && p.copy.Some? ensures CopyAccepted(p.copy.value, b.fileLen) {
      var s := SegmentOf(b.image.segments, p);
    }
  }

  lemma {:induction false} SegmentOf(segments: seq<UserSegment>, p: PagePlan) returns (s: UserSegment)
    requires p in SegmentPages(segments)
    ensures s in segments && p in s.pages
  {
    var front := segments[..|segments| - 1];
    if p in SegmentPages(front) {
      s := SegmentOf(front, p);
    } else {
      s := segments[|segments| - 1];
    }
  }
}
