/** What a process's regions tell of its pages (`region_image` of components/os/src/space.rs and the region lookup of
    `syscall_space` in components/os/src/kernel.rs): they are exact when every segment's pages follow each other. */
module RegionImages {
  import opened Words
  import opened Config
  import opened Image
  import opened Space
  import opened SpaceExact
  import opened SpaceWalk
  import Sequences
  import Sv32

  // ----- Segments, their pages and their regions -----

  /** The pages before segment `i`. */
  function Before(segments: seq<UserSegment>, i: nat): nat
    requires i <= |segments|
  {
    |SegmentPages(segments[..i])|
  }

  /** Page `k` of segment `i` among all pages. */
  lemma {:induction false} PageOfSegment(segments: seq<UserSegment>, i: nat, k: nat)
    requires i < |segments| && k < |segments[i].pages|
    ensures Before(segments, i) + |segments[i].pages| <= |SegmentPages(segments)|
    ensures SegmentPages(segments)[Before(segments, i) + k] == segments[i].pages[k]
  {
    var n := |segments| - 1;
    var front := segments[..n];
    if i == n {
      assert segments[..i] == front;
    } else {
      PageOfSegment(front, i, k);
      assert front[..i] == segments[..i];
    }
  }

  /** The segment a page belongs to. */
  lemma {:induction false} SegmentOfPage(segments: seq<UserSegment>, j: nat) returns (i: nat, k: nat)
    requires j < |SegmentPages(segments)|
    ensures i < |segments| && k < |segments[i].pages| && j == Before(segments, i) + k && SegmentPages(segments)[j] == segments[i].pages[k]
  {
    var n := |segments| - 1;
    var front := segments[..n];
    if j < |SegmentPages(front)| {
      i, k := SegmentOfPage(front, j);
      assert front[..i] == segments[..i];
    } else {
      i, k := n, j - |SegmentPages(front)|;
    }
  }

  predicate NonEmpty(segments: seq<UserSegment>) {
    forall s :: s in segments ==> s.pages != []
  }

  /** Region `i` of the segments: its first page, its permissions, and its pages' frames. */
  lemma {:induction false} RegionAt(segments: seq<UserSegment>, frames: seq<Word>, i: nat)
    requires |frames| == |SegmentPages(segments)| && NonEmpty(segments) && i < |segments|
    ensures |SegmentRegions(segments, frames)| == |segments|
    ensures Before(segments, i) + |segments[i].pages| <= |frames|
    ensures SegmentRegions(segments, frames)[i]
         == Region(segments[i].pages[0].va, segments[i].perms, frames[Before(segments, i)..Before(segments, i) + |segments[i].pages|])
  {
    var n := |segments| - 1;
    var front, last := segments[..n], segments[n];
    var m := |SegmentPages(front)|;
    RegionCount(front, frames[..m]);
    if i == n {
      assert segments[..i] == front;
      assert frames[m..] == frames[m..m + |last.pages|];
    } else {
      RegionAt(front, frames[..m], i);
      assert front[..i] == segments[..i];
      Sequences.SliceTake(frames, m, Before(front, i), Before(front, i) + |front[i].pages|);
    }
  }

  lemma {:induction false} RegionCount(segments: seq<UserSegment>, frames: seq<Word>)
    requires |frames| == |SegmentPages(segments)| && NonEmpty(segments)
    ensures |SegmentRegions(segments, frames)| == |segments|
  {
    if segments != [] {
      var n := |segments| - 1;
      RegionCount(segments[..n], frames[..|SegmentPages(segments[..n])|]);
    }
  }

  // ----- Looking a page up in the regions -----

  /** The region has a readable page at `va`, as its length tells. */
  predicate Covers(r: Region, va: Word) {
    r.perms.read && r.va <= va && (va - r.va) / PAGE < |r.frames|
  }

  function FrameOf(r: Region, va: Word): Word
    requires Covers(r, va)
  {
    r.frames[(va - r.va) / PAGE]
  }

  /** The frame of the page at `va`, as `syscall_space` finds it: in the first region that covers it. */
  function RegionPage(rs: seq<Region>, va: Word): Option<Word> {
    if rs == [] then None
    else if Covers(rs[0], va) then Some(FrameOf(rs[0], va))
    else RegionPage(rs[1..], va)
  }

  lemma {:induction false} RegionPageSome(rs: seq<Region>, va: Word) returns (i: nat)
    requires RegionPage(rs, va).Some?
    ensures i < |rs| && Covers(rs[i], va) && RegionPage(rs, va) == Some(FrameOf(rs[i], va))
  {
    hide Covers, FrameOf;
    if Covers(rs[0], va) {
      i := 0;
    } else {
      var j := RegionPageSome(rs[1..], va);
      i := j + 1;
    }
  }

  lemma {:induction false} RegionPageFinds(rs: seq<Region>, va: Word, i: nat)
    requires i < |rs| && Covers(rs[i], va)
    ensures RegionPage(rs, va).Some?
  {
    hide Covers, FrameOf;
    if !Covers(rs[0], va) {
      RegionPageFinds(rs[1..], va, i - 1);
    }
  }

  // ----- Readable pages -----

  lemma PageAsAccepted(c: KernelConfig, l: UserLayout, b: BootImage, i: nat, k: nat)
    requires Accepted(b, c, l) && i < |b.image.segments| && k < |b.image.segments[i].pages|
    ensures NonEmpty(b.image.segments) && b.image.segments[i].pages[k].perms == b.image.segments[i].perms
    ensures var va := b.image.segments[i].pages[k].va; va % PAGE == 0 && l.userBase <= va < l.ImageEnd()
  {
    hide CopyAccepted, ValidPerms;
    assert b.image.segments[i] in b.image.segments;
    assert b.image.segments[i].pages[k] in b.image.segments[i].pages;
    assert PageAccepted(b.image.segments[i].pages[k], b.image.segments[i], l, b.fileLen);
  }

  /** Region `i` of a process: a segment's, or the stack's. */
  lemma RegionsAre(c: KernelConfig, l: UserLayout, b: BootImage, fs: seq<Word>, i: nat)
    requires ValidLayout(c, l) && Accepted(b, c, l) && |fs| == |Pages(b.image, l)| && i <= |b.image.segments|
    ensures NonEmpty(b.image.segments) && |SegmentPages(b.image.segments)| + l.stackPages == |fs|
    ensures i < |b.image.segments| ==> Before(b.image.segments, i) + |b.image.segments[i].pages| <= |SegmentPages(b.image.segments)|
    ensures var rs, segments, n := Regions(b.image, l, fs), b.image.segments, |SegmentPages(b.image.segments)|;
      && |rs| == |segments| + 1
      && rs[i] == if i == |segments| then Region(l.ImageEnd(), STACK_PERMS, fs[n..])
                  else var o := Before(segments, i);
                    Region(segments[i].pages[0].va, segments[i].perms, fs[..n][o..o + |segments[i].pages|])
  {
    hide ValidLayout, SegmentPages, SegmentAccepted, PagesAscend;
    var n := |SegmentPages(b.image.segments)|;
    AcceptedNonEmpty(c, l, b);
    RegionCount(b.image.segments, fs[..n]);
    if i < |b.image.segments| {
      RegionAt(b.image.segments, fs[..n], i);
    }
  }

  lemma AcceptedNonEmpty(c: KernelConfig, l: UserLayout, b: BootImage)
    requires Accepted(b, c, l)
    ensures NonEmpty(b.image.segments)
  {
    hide PageAccepted;
  }

  /** A region that covers a page address has the page there, in that frame, if its segment's pages follow each other. */
  lemma CoveredPage(c: KernelConfig, l: UserLayout, b: BootImage, fs: seq<Word>, i: nat, va: Word) returns (j: nat)
    requires ValidLayout(c, l) && Accepted(b, c, l) && |fs| == |Pages(b.image, l)| && va % PAGE == 0
    requires i < |Regions(b.image, l, fs)| && Covers(Regions(b.image, l, fs)[i], va)
    requires i < |b.image.segments| ==> Follow(b.image.segments[i])
    ensures j < |fs| && Pages(b.image, l)[j].va == va && Pages(b.image, l)[j].perms.read
    ensures fs[j] == FrameOf(Regions(b.image, l, fs)[i], va)
  {
    hide Accepted, ValidLayout, SegmentPages, Regions;
    AcceptedNonEmpty(c, l, b);
    LayoutFacts(c, l);
    var segments, n := b.image.segments, |SegmentPages(b.image.segments)|;
    RegionsAre(c, l, b, fs, if i <= |segments| then i else 0);
    var r := Regions(b.image, l, fs)[i];
    var k := (va - r.va) / PAGE;
    if i == |segments| {
      j := n + k;
      StackVas(l, k);
      StackAligned(l);
      Stepped(va, l.ImageEnd(), k);
    } else {
      j := Before(segments, i) + k;
      PageOfSegment(segments, i, k);
      PageAsAccepted(c, l, b, i, k);
      PageAsAccepted(c, l, b, i, 0);
      Stepped(va, segments[i].pages[0].va, k);
    }
  }

  lemma LayoutFacts(c: KernelConfig, l: UserLayout)
    requires ValidLayout(c, l)
    ensures l.StackBase().Some? && l.stackTop % PAGE == 0
  {
  }

  lemma StackAligned(l: UserLayout)
    requires l.StackBase().Some? && l.stackTop % PAGE == 0
    ensures l.ImageEnd() % PAGE == 0
  {
    assert l.ImageEnd() == PAGE * (l.stackTop / PAGE - l.stackPages);
  }

  /** A page address is a whole number of pages past an earlier one. */
  lemma Stepped(va: int, base: int, k: int)
    requires va % PAGE == 0 && base % PAGE == 0 && k == (va - base) / PAGE
    ensures va == base + k * PAGE
  {
    assert va == PAGE * (va / PAGE) && base == PAGE * (base / PAGE);
    assert va - base == PAGE * (va / PAGE - base / PAGE);
  }

  /** The region of a readable page. */
  lemma PageCovered(c: KernelConfig, l: UserLayout, b: BootImage, fs: seq<Word>, j: nat) returns (i: nat)
    requires ValidLayout(c, l) && Accepted(b, c, l) && |fs| == |Pages(b.image, l)| && j < |fs| && Pages(b.image, l)[j].perms.read
    requires ReadableFollow(b.image)
    ensures i < |Regions(b.image, l, fs)| && Covers(Regions(b.image, l, fs)[i], Pages(b.image, l)[j].va)
  {
    hide Accepted, ValidLayout, SegmentPages, Regions;
    AcceptedNonEmpty(c, l, b);
    LayoutFacts(c, l);
    var segments, n := b.image.segments, |SegmentPages(b.image.segments)|;
    if j < n {
      var k: nat;
      i, k := SegmentOfPage(segments, j);
      RegionsAre(c, l, b, fs, i);
      PageAsAccepted(c, l, b, i, k);
      WholePages(segments[i].pages[0].va, k);
    } else {
      i := |segments|;
      RegionsAre(c, l, b, fs, i);
      StackVas(l, j - n);
      WholePages(l.ImageEnd(), j - n);
    }
  }

  lemma WholePages(base: int, k: nat)
    ensures (base + k * PAGE - base) / PAGE == k
  {
  }

  /** What the regions tell of the readable pages: each is in its frame, and there is no other. */
  ghost predicate Tells(c: KernelConfig, l: UserLayout, b: BootImage, fs: seq<Word>)
    requires ValidLayout(c, l) && Accepted(b, c, l) && |fs| == |Pages(b.image, l)|
  {
    AcceptedNonEmpty(c, l, b);
    var ps, rs := Pages(b.image, l), Regions(b.image, l, fs);
    && (forall j :: 0 <= j < |ps| && ps[j].perms.read ==> RegionPage(rs, ps[j].va) == Some(fs[j]))
    && (forall va: Word :: va % PAGE == 0 && RegionPage(rs, va).Some? ==> exists j :: 0 <= j < |ps| && ps[j].va == va && ps[j].perms.read)
  }

  lemma FollowTells(c: KernelConfig, l: UserLayout, b: BootImage, fs: seq<Word>)
    requires ValidLayout(c, l) && Accepted(b, c, l) && |fs| == |Pages(b.image, l)| && !MegapageConflict(b.image, c)
    requires ReadableFollow(b.image)
    ensures Tells(c, l, b, fs)
  {
    hide Accepted, ValidLayout, Regions, Pages, MegapageConflict, RegionPage, Covers;
    LayoutFacts(c, l);
    RegionsAre(c, l, b, fs, 0);
    var ps, rs := Pages(b.image, l), Regions(b.image, l, fs);
    forall va: Word | va % PAGE == 0 && RegionPage(rs, va).Some?
      ensures exists j :: 0 <= j < |ps| && ps[j].va == va && ps[j].perms.read && RegionPage(rs, va) == Some(fs[j])
    {
      var i := RegionPageSome(rs, va);
      CoverReads(c, l, b, fs, i, va);
      var j := CoveredPage(c, l, b, fs, i, va);
    }
    forall j | 0 <= j < |ps| && ps[j].perms.read ensures RegionPage(rs, ps[j].va) == Some(fs[j]) {
      var i := PageCovered(c, l, b, fs, j);
      RegionPageFinds(rs, ps[j].va, i);
      PagesFacts(c, l, b, j);
      var k :| 0 <= k < |ps| && ps[k].va == ps[j].va && ps[k].perms.read && RegionPage(rs, ps[j].va) == Some(fs[k]);
      if k < j {
        PagesDistinct(c, l, b, k, j);
      } else if j < k {
        PagesDistinct(c, l, b, j, k);
      }
    }
  }

  lemma CoverReads(c: KernelConfig, l: UserLayout, b: BootImage, fs: seq<Word>, i: nat, va: Word)
    requires ValidLayout(c, l) && Accepted(b, c, l) && |fs| == |Pages(b.image, l)| && NonEmpty(b.image.segments)
    requires i < |Regions(b.image, l, fs)| && Covers(Regions(b.image, l, fs)[i], va) && ReadableFollow(b.image)
    ensures i < |b.image.segments| ==> Follow(b.image.segments[i])
  {
    hide Accepted, ValidLayout, Regions, Pages, Follow;
    if i < |b.image.segments| {
      RegionsAre(c, l, b, fs, i);
    }
  }

  // ----- A gap in a segment -----

  /** Pages are at least a page apart. */
  lemma {:induction false} Spread(c: KernelConfig, l: UserLayout, b: BootImage, a: nat, d: nat)
    requires ValidLayout(c, l) && Accepted(b, c, l) && !MegapageConflict(b.image, c) && a <= d < |Pages(b.image, l)|
    ensures Pages(b.image, l)[d].va >= Pages(b.image, l)[a].va + (d - a) * PAGE
    decreases d - a
  {
    hide Accepted, ValidLayout, Pages, MegapageConflict;
    LayoutFacts(c, l);
    if a < d {
      Spread(c, l, b, a, d - 1);
      PagesDistinct(c, l, b, d - 1, d);
      PagesFacts(c, l, b, d - 1);
      PagesFacts(c, l, b, d);
      NextPage(Pages(b.image, l)[d - 1].va, Pages(b.image, l)[d].va);
    }
  }

  lemma NextPage(x: int, y: int)
    requires x % PAGE == 0 && y % PAGE == 0 && x < y
    ensures y >= x + PAGE
  {
    assert x == PAGE * (x / PAGE) && y == PAGE * (y / PAGE);
  }

  lemma Beyond(va: int, base: int, n: nat)
    requires va >= base + n * PAGE
    ensures (va - base) / PAGE >= n
  {
  }

  /** The region of a segment does not cover the pages of others. */
  lemma OthersMiss(c: KernelConfig, l: UserLayout, b: BootImage, fs: seq<Word>, i: nat, j: nat)
    requires ValidLayout(c, l) && Accepted(b, c, l) && !MegapageConflict(b.image, c) && |fs| == |Pages(b.image, l)|
    requires i <= |b.image.segments| && j < |SegmentPages(b.image.segments)|
    requires i < |b.image.segments| ==> j < Before(b.image.segments, i) || j >= Before(b.image.segments, i) + |b.image.segments[i].pages|
    ensures NonEmpty(b.image.segments) && i < |Regions(b.image, l, fs)| && !Covers(Regions(b.image, l, fs)[i], Pages(b.image, l)[j].va)
  {
    hide Accepted, ValidLayout, SegmentPages, Regions, MegapageConflict;
    RegionsAre(c, l, b, fs, i);
    LayoutFacts(c, l);
    var segments, ps := b.image.segments, Pages(b.image, l);
    if i == |segments| {
      var g, k := SegmentOfPage(segments, j);
      PageAsAccepted(c, l, b, g, k);
    } else {
      var o, n := Before(segments, i), |segments[i].pages|;
      assert segments[i] in segments;
      PageOfSegment(segments, i, 0);
      if j < o {
        PagesDistinct(c, l, b, j, o);
      } else {
        Spread(c, l, b, o, j);
        Beyond(ps[j].va, ps[o].va, n);
      }
    }
  }

  /** A segment with a gap: its last page is further than its region reaches. */
  lemma LastBeyond(c: KernelConfig, l: UserLayout, b: BootImage, i: nat)
    requires ValidLayout(c, l) && Accepted(b, c, l) && !MegapageConflict(b.image, c) && i < |b.image.segments| && !Follow(b.image.segments[i])
    ensures var pages := b.image.segments[i].pages; |pages| > 0 && pages[|pages| - 1].va >= pages[0].va + |pages| * PAGE
  {
    hide Accepted, ValidLayout, SegmentPages, MegapageConflict;
    LayoutFacts(c, l);
    var segments, ps := b.image.segments, Pages(b.image, l);
    var pages, o := segments[i].pages, Before(segments, i);
    var k :| 0 <= k < |pages| && pages[k].va != pages[0].va + k * PAGE;
    var last := |pages| - 1;
    PageOfSegment(segments, i, 0);
    PageOfSegment(segments, i, k);
    PageOfSegment(segments, i, last);
    Spread(c, l, b, o, o + k);
    Spread(c, l, b, o + k, o + last);
    PagesFacts(c, l, b, o);
    PagesFacts(c, l, b, o + k);
    Shifted(pages[0].va, k);
    NextPage(pages[0].va + k * PAGE, pages[k].va);
  }

  lemma Shifted(base: int, k: int)
    requires base % PAGE == 0
    ensures (base + k * PAGE) % PAGE == 0
  {
    assert base + k * PAGE == PAGE * (base / PAGE + k);
  }

  /** A readable page past a gap, which the regions do not tell. */
  lemma GapHides(c: KernelConfig, l: UserLayout, b: BootImage, fs: seq<Word>) returns (j: nat)
    requires ValidLayout(c, l) && Accepted(b, c, l) && |fs| == |Pages(b.image, l)| && !MegapageConflict(b.image, c)
    requires !ReadableFollow(b.image)
    ensures NonEmpty(b.image.segments) && j < |Pages(b.image, l)| && Pages(b.image, l)[j].perms.read
    ensures RegionPage(Regions(b.image, l, fs), Pages(b.image, l)[j].va).None?
  {
    hide Accepted, ValidLayout, Regions, MegapageConflict, RegionPage, SegmentPages, Follow;
    LayoutFacts(c, l);
    var segments, ps := b.image.segments, Pages(b.image, l);
    var i :| 0 <= i < |segments| && segments[i].perms.read && !Follow(segments[i]);
    var last := |segments[i].pages| - 1;
    LastBeyond(c, l, b, i);
    PageOfSegment(segments, i, last);
    PageAsAccepted(c, l, b, i, last);
    j := Before(segments, i) + last;
    var rs, va := Regions(b.image, l, fs), ps[j].va;
    RegionsAre(c, l, b, fs, i);
    Beyond(va, segments[i].pages[0].va, |segments[i].pages|);
    if RegionPage(rs, va).Some? {
      var g := RegionPageSome(rs, va);
      if g != i {
        SegmentsApart(segments, i, g, last);
        OthersMiss(c, l, b, fs, g, j);
      }
    }
  }

  /** A page of one segment is not among another's. */
  lemma SegmentsApart(segments: seq<UserSegment>, i: nat, g: nat, k: nat)
    requires i < |segments| && k < |segments[i].pages| && g != i && g <= |segments|
    ensures g < |segments| ==>
      Before(segments, i) + k < Before(segments, g) || Before(segments, i) + k >= Before(segments, g) + |segments[g].pages|
  {
    hide SegmentPages;
    if g < i {
      BeforeGrows(segments, g + 1, i);
      BeforeNext(segments, g);
    } else if i < g < |segments| {
      BeforeNext(segments, i);
      BeforeGrows(segments, i + 1, g);
    }
  }

  lemma BeforeNext(segments: seq<UserSegment>, i: nat)
    requires i < |segments|
    ensures Before(segments, i + 1) == Before(segments, i) + |segments[i].pages|
  {
    assert segments[..i + 1][..i] == segments[..i];
  }

  lemma {:induction false} BeforeGrows(segments: seq<UserSegment>, i: nat, g: nat)
    requires i <= g <= |segments|
    ensures Before(segments, i) <= Before(segments, g)
    decreases g - i
  {
    hide SegmentPages;
    if i < g {
      BeforeGrows(segments, i, g - 1);
      BeforeNext(segments, g - 1);
    }
  }

  /** The regions of a process tell its readable pages if and only if the pages of every readable segment follow each
      other. */
  lemma RegionsExact(c: KernelConfig, l: UserLayout, b: BootImage, fs: seq<Word>)
    requires ValidLayout(c, l) && Accepted(b, c, l) && |fs| == |Pages(b.image, l)| && !MegapageConflict(b.image, c)
    ensures Tells(c, l, b, fs) <==> ReadableFollow(b.image)
  {
    hide ValidLayout, Accepted, Pages, MegapageConflict, ReadableFollow, Regions, RegionPage;
    if ReadableFollow(b.image) {
      FollowTells(c, l, b, fs);
    } else {
      var j := GapHides(c, l, b, fs);
    }
  }

  // ----- The image the regions describe -----

  /** The pages of one region, `frames` of them. */
  function RegionPages(va: Word, perms: Perms, n: nat): seq<PagePlan>
    requires va + n * PAGE <= WORD_LIMIT
  {
    seq(n, k requires 0 <= k < n => PagePlan(va + k * PAGE, perms, None))
  }

  /** One segment region as `region_image` takes it: frames, valid permissions, and every page aligned, in the image range
      and after the last one. */
  predicate RegionOk(r: Region, l: UserLayout, last: Option<Word>) {
    && r.frames != [] && ValidPerms(r.perms) && r.va + |r.frames| * PAGE <= WORD_LIMIT
    && forall k :: 0 <= k < |r.frames| ==>
         var va := r.va + k * PAGE; va % PAGE == 0 && l.userBase <= va < l.ImageEnd() && (last.Some? ==> last.value < va)
  }

  function RegionSegment(r: Region, i: nat): UserSegment
    requires r.va + |r.frames| * PAGE <= WORD_LIMIT && |r.frames| * PAGE < WORD_LIMIT
  {
    UserSegment(i, r.va, |r.frames| * PAGE, r.perms, RegionPages(r.va, r.perms, |r.frames|))
  }

  /** The segments of the first `n` regions, and the last page. */
  function RegionSegments(rs: seq<Region>, l: UserLayout, n: nat): Option<(seq<UserSegment>, Option<Word>)>
    requires n <= |rs|
  {
    if n == 0 then Some(([], None))
    else
      match RegionSegments(rs, l, n - 1)
      case None => None
      case Some((segments, last)) =>
        var r := rs[n - 1];
        if !RegionOk(r, l, last) || |r.frames| * PAGE >= WORD_LIMIT || n > 0x1_0000 then None
        else Some((segments + [RegionSegment(r, n - 1)], Some(r.va + (|r.frames| - 1) * PAGE)))
  }

  /** `region_image`: the image a live process's segment regions describe, with no file bytes. */
  function RegionImage(rs: seq<Region>, l: UserLayout): Option<UserImage> {
    if |rs| < 2 then None
    else
      match RegionSegments(rs, l, |rs| - 1)
      case None => None
      case Some((segments, _)) => Some(UserImage(rs[0].va, segments))
  }

  /** Segment `t` has the pages of `s`, without their file bytes. */
  predicate SamePages(s: UserSegment, t: UserSegment) {
    && t.perms == s.perms && |t.pages| == |s.pages|
    && forall k :: 0 <= k < |s.pages| ==> t.pages[k] == PagePlan(s.pages[k].va, s.pages[k].perms, None)
  }

  predicate SameShape(ss: seq<UserSegment>, ts: seq<UserSegment>) {
    |ts| == |ss| && forall i :: 0 <= i < |ss| ==> SamePages(ss[i], ts[i])
  }

  lemma RegionOkAt(c: KernelConfig, l: UserLayout, b: BootImage, fs: seq<Word>, i: nat, last: Option<Word>)
    requires ValidLayout(c, l) && Accepted(b, c, l) && |fs| == |Pages(b.image, l)| && !MegapageConflict(b.image, c)
    requires i < |b.image.segments| && Follow(b.image.segments[i])
    requires last == if i == 0 then None else var pages := b.image.segments[i - 1].pages; if pages == [] then None else Some(pages[|pages| - 1].va)
    ensures NonEmpty(b.image.segments) && i < |Regions(b.image, l, fs)|
    ensures var r, s := Regions(b.image, l, fs)[i], b.image.segments[i];
      && RegionOk(r, l, last) && |r.frames| * PAGE < WORD_LIMIT && SamePages(s, RegionSegment(r, i))
      && r.va + (|r.frames| - 1) * PAGE == s.pages[|s.pages| - 1].va
  {
    hide Accepted, ValidLayout, SegmentPages, Regions, MegapageConflict, ValidPerms;
    RegionsAre(c, l, b, fs, i);
    LayoutFacts(c, l);
    SegmentPerms(c, l, b, i);
    var segments, s := b.image.segments, b.image.segments[i];
    assert s in segments;
    var n := |s.pages|;
    PageAsAccepted(c, l, b, i, 0);
    PageAsAccepted(c, l, b, i, n - 1);
    LastFits(s.pages[0].va, n, l.ImageEnd());
    forall k | 0 <= k < n
      ensures var va := s.pages[0].va + k * PAGE;
        va % PAGE == 0 && l.userBase <= va < l.ImageEnd() && (last.Some? ==> last.value < va) && s.pages[k] == PagePlan(va, s.perms, s.pages[k].copy)
    {
      PageAsAccepted(c, l, b, i, k);
      if last.Some? {
        PreviousBelow(c, l, b, i, k);
      }
    }
  }

  lemma SegmentPerms(c: KernelConfig, l: UserLayout, b: BootImage, i: nat)
    requires Accepted(b, c, l) && i < |b.image.segments|
    ensures ValidPerms(b.image.segments[i].perms)
  {
    hide ValidPerms, PageAccepted;
    assert b.image.segments[i] in b.image.segments;
  }

  lemma LastFits(va: Word, n: nat, end: Word)
    requires n > 0 && va % PAGE == 0 && va + (n - 1) * PAGE < end
    ensures va + n * PAGE <= WORD_LIMIT && (n * PAGE < WORD_LIMIT || va == 0)
  {
    NextAligned(va, n);
  }

  lemma NextAligned(va: int, n: nat)
    requires n > 0 && va % PAGE == 0 && va + (n - 1) * PAGE < WORD_LIMIT
    ensures va + n * PAGE <= WORD_LIMIT
  {
    var q := va / PAGE + n - 1;
    assert va + (n - 1) * PAGE == PAGE * q;
    assert q < WORD_LIMIT / PAGE;
  }

  /** The last page of the segment before is below every page of this one. */
  lemma PreviousBelow(c: KernelConfig, l: UserLayout, b: BootImage, i: nat, k: nat)
    requires ValidLayout(c, l) && Accepted(b, c, l) && 0 < i < |b.image.segments| && k < |b.image.segments[i].pages|
    requires b.image.segments[i - 1].pages != []
    ensures var pages := b.image.segments[i - 1].pages; pages[|pages| - 1].va < b.image.segments[i].pages[k].va
  {
    hide Accepted, ValidLayout, SegmentPages;
    LayoutFacts(c, l);
    var segments := b.image.segments;
    var n := |segments[i - 1].pages| - 1;
    PageOfSegment(segments, i - 1, n);
    PageOfSegment(segments, i, k);
    BeforeNext(segments, i - 1);
    PagesDistinct(c, l, b, Before(segments, i - 1) + n, Before(segments, i) + k);
  }

  lemma {:induction false} SegmentsBack(c: KernelConfig, l: UserLayout, b: BootImage, fs: seq<Word>, n: nat)
    requires ValidLayout(c, l) && Accepted(b, c, l) && |fs| == |Pages(b.image, l)| && !MegapageConflict(b.image, c)
    requires RegionShaped(b.image) && n <= |b.image.segments|
    ensures NonEmpty(b.image.segments) && n < |Regions(b.image, l, fs)|
    ensures var r := RegionSegments(Regions(b.image, l, fs), l, n);
      && r.Some? && SameShape(b.image.segments[..n], r.value.0)
      && r.value.1 == if n == 0 then None else var pages := b.image.segments[n - 1].pages; if pages == [] then None else Some(pages[|pages| - 1].va)
  {
    hide Accepted, ValidLayout, Pages, Regions, MegapageConflict, RegionOk, SamePages, Follow;
    RegionsAre(c, l, b, fs, 0);
    if n > 0 {
      SegmentsBack(c, l, b, fs, n - 1);
      var rs := Regions(b.image, l, fs);
      var before := RegionSegments(rs, l, n - 1).value;
      RegionOkAt(c, l, b, fs, n - 1, before.1);
      assert b.image.segments[n - 1] in b.image.segments;
    }
  }

  // ----- Rebuilding -----

  /** The same addresses and permissions. */
  predicate SameVas(ps: seq<PagePlan>, qs: seq<PagePlan>) {
    |qs| == |ps| && forall k :: 0 <= k < |ps| ==> qs[k].va == ps[k].va && qs[k].perms == ps[k].perms
  }

  lemma SameVasMore(ps: seq<PagePlan>, qs: seq<PagePlan>, s: UserSegment, t: UserSegment)
    requires SameVas(ps, qs) && SamePages(s, t)
    ensures s.perms == t.perms && SameVas(ps + s.pages, qs + t.pages)
  {
  }

  lemma {:induction false} SameSegmentPages(ss: seq<UserSegment>, ts: seq<UserSegment>)
    requires SameShape(ss, ts)
    ensures SameVas(SegmentPages(ss), SegmentPages(ts))
  {
    hide SameVas, SamePages;
    if ss == [] {
      NoVas();
    } else {
      var n := |ss| - 1;
      SameSegmentPages(ss[..n], ts[..n]);
      SameVasMore(SegmentPages(ss[..n]), SegmentPages(ts[..n]), ss[n], ts[n]);
    }
  }

  lemma NoVas()
    ensures SameVas([], [])
  {
  }

  lemma {:induction false} SameSlots(ps: seq<PagePlan>, qs: seq<PagePlan>, i: nat)
    requires SameVas(ps, qs) && i <= |ps|
    ensures SlotSet(ps, i) == SlotSet(qs, i)
  {
    if i > 0 {
      SameSlots(ps, qs, i - 1);
    }
  }

  /** The same placement but for the copies. */
  predicate SamePlacement(a: Placement, b: Placement) {
    a.slots == b.slots && a.order == b.order && a.leaves == b.leaves && a.placed == b.placed
  }

  lemma PlaceSame(a: Placement, b: Placement, p: PagePlan, q: PagePlan, frames: seq<Word>, s: Word, t: Word)
    requires SamePlacement(a, b) && q.va == p.va && q.perms == p.perms && Room(a, p, frames)
    ensures Room(b, q, frames) && SamePlacement(Place(a, p, frames, s), Place(b, q, frames, t))
  {
  }

  lemma {:induction false} SamePlaced(ps: seq<PagePlan>, qs: seq<PagePlan>, frames: seq<Word>, s: Word, t: Word, i: nat)
    requires SameVas(ps, qs) && i <= |ps| && FramesUsed(ps, i) <= |frames|
    ensures FramesUsed(qs, i) == FramesUsed(ps, i)
    ensures SamePlacement(PlaceUpTo(ps, frames, s, i), PlaceUpTo(qs, frames, t, i))
  {
    hide PlaceUpTo, SlotSet, Place, Room, SamePlacement;
    SameSlots(ps, qs, i);
    if i == 0 {
      PlacedNone(ps, qs, frames, s, t);
    } else {
      PlaceNext(ps, frames, s, i - 1);
      SamePlaced(ps, qs, frames, s, t, i - 1);
      PlaceNext(qs, frames, t, i - 1);
      PlaceSame(PlaceUpTo(ps, frames, s, i - 1), PlaceUpTo(qs, frames, t, i - 1), ps[i - 1], qs[i - 1], frames, s, t);
    }
  }

  lemma PlacedNone(ps: seq<PagePlan>, qs: seq<PagePlan>, frames: seq<Word>, s: Word, t: Word)
    requires FramesUsed(ps, 0) <= |frames| && FramesUsed(qs, 0) <= |frames|
    ensures SamePlacement(PlaceUpTo(ps, frames, s, 0), PlaceUpTo(qs, frames, t, 0))
  {
  }

  lemma {:induction false} SameRegions(ss: seq<UserSegment>, ts: seq<UserSegment>, frames: seq<Word>)
    requires SameShape(ss, ts) && NonEmpty(ss) && |frames| == |SegmentPages(ss)|
    ensures NonEmpty(ts) && |SegmentPages(ts)| == |SegmentPages(ss)| && SegmentRegions(ts, frames) == SegmentRegions(ss, frames)
  {
    SameSegmentPages(ss, ts);
    ShapeNonEmpty(ss, ts);
    if ss != [] {
      var n := |ss| - 1;
      assert SamePages(ss[n], ts[n]);
      assert ss[n] in ss;
      SameSegmentPages(ss[..n], ts[..n]);
      SameRegions(ss[..n], ts[..n], frames[..|SegmentPages(ss[..n])|]);
    }
  }

  lemma ShapeNonEmpty(ss: seq<UserSegment>, ts: seq<UserSegment>)
    requires SameShape(ss, ts) && NonEmpty(ss)
    ensures NonEmpty(ts)
  {
    forall t | t in ts ensures t.pages != [] {
      var i :| 0 <= i < |ts| && ts[i] == t;
      assert SamePages(ss[i], ts[i]) && ss[i] in ss;
    }
  }

  /** The images agree on what a space's tables and regions depend on. */
  lemma SameSpace(c: KernelConfig, l: UserLayout, b: BootImage, d: BootImage, frames: seq<Word>)
    requires Buildable(c, l, b, frames) && SameShape(b.image.segments, d.image.segments)
    ensures Buildable(c, l, d, frames)
    ensures var s, t := Built(c, l, b, frames), Built(c, l, d, frames);
      t.root == s.root && t.tables == s.tables && t.regions == s.regions && t.slots == s.slots
    ensures MegapageConflict(d.image, c) <==> MegapageConflict(b.image, c)
    ensures FramesNeeded(d.image, l) == FramesNeeded(b.image, l)
  {
    hide PlaceUpTo, SlotSet, SegmentPages, TopEntries, SortByIndex, SegmentRegions, StackPages;
    var ss, ts := b.image.segments, d.image.segments;
    var ps, qs := Pages(b.image, l), Pages(d.image, l);
    SameSegmentPages(ss, ts);
    assert SameVas(ps, qs);
    SamePlaced(ps, qs, frames, b.staged, d.staged, |ps|);
    ShapeNonEmpty(ss, ts);
    PlaceGood(ps, frames, b.staged, |ps|);
    var fs := FramesOf(PlaceUpTo(ps, frames, b.staged, |ps|).placed);
    SameRegions(ss, ts, fs[..|SegmentPages(ss)|]);
    SameConflict(SegmentPages(ss), SegmentPages(ts), c);
  }

  lemma SameConflict(ps: seq<PagePlan>, qs: seq<PagePlan>, c: KernelConfig)
    requires SameVas(ps, qs)
    ensures (exists p :: p in ps && SlotOf(p) in MegaSlots(c)) <==> (exists q :: q in qs && SlotOf(q) in MegaSlots(c))
  {
    if p :| p in ps && SlotOf(p) in MegaSlots(c) {
      var k :| 0 <= k < |ps| && ps[k] == p;
      assert qs[k] in qs && SlotOf(qs[k]) == SlotOf(p);
    }
    if q :| q in qs && SlotOf(q) in MegaSlots(c) {
      var k :| 0 <= k < |qs| && qs[k] == q;
      assert ps[k] in ps && SlotOf(ps[k]) == SlotOf(q);
    }
  }

  /** The image the regions of a space describe builds the same tables and regions in the same frames, if it has at
      most 2^16 segments and the pages of each follow each other. */
  lemma RegionsRebuild(c: KernelConfig, l: UserLayout, b: BootImage, frames: seq<Word>, staged: Word)
    requires ValidLayout(c, l) && Accepted(b, c, l) && !MegapageConflict(b.image, c) && RegionShaped(b.image) && Buildable(c, l, b, frames)
    ensures var s := Built(c, l, b, frames);
      var r := RegionImage(s.regions, l);
      && r.Some? && FramesNeeded(r.value, l) == |frames| && !MegapageConflict(r.value, c)
      && var d := BootImage(staged, 0, r.value);
         && Buildable(c, l, d, frames)
         && var t := Built(c, l, d, frames); t.root == s.root && t.tables == s.tables && t.regions == s.regions && t.slots == s.slots
  {
    hide PlaceUpTo, SlotSet, SegmentPages, TopEntries, SortByIndex, Regions, ValidLayout, Accepted, MegapageConflict, RegionShaped, SameShape, RegionSegments;
    var ps := Pages(b.image, l);
    PlaceGood(ps, frames, b.staged, |ps|);
    var fs := FramesOf(PlaceUpTo(ps, frames, b.staged, |ps|).placed);
    RegionsAre(c, l, b, fs, 0);
    var n := |b.image.segments|;
    SegmentsBack(c, l, b, fs, n);
    assert b.image.segments[..n] == b.image.segments;
    HasSegments(c, l, b);
    SameSpace(c, l, b, BootImage(staged, 0, RegionImage(Regions(b.image, l, fs), l).value), frames);
  }

  lemma HasSegments(c: KernelConfig, l: UserLayout, b: BootImage)
    requires Accepted(b, c, l)
    ensures b.image.segments != []
  {
  }
}
