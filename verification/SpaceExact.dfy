/** Build, then walk: what a creation leaves in memory and what the CPU reads back from it. */
module SpaceExact {
  import opened Words
  import opened Sequences
  import opened Memory
  import opened Core
  import opened Config
  import opened Image
  import opened Space
  import opened SpaceRun
  import Sv32

  // ----- Frames of the pool -----

  ghost predicate InPool(c: KernelConfig, f: int) {
    c.framePool.base <= PAGE * f && PAGE * f + PAGE <= c.framePool.base + c.framePool.size
  }

  /** A creation the kernel may start: a validated layout and image whose copies stay in their pages, no page in a
      megapage slot, and exactly the frames needed, ascending, from the pool. */
  ghost predicate Creation(c: KernelConfig, l: UserLayout, b: BootImage, frames: seq<Word>) {
    && ValidLayout(c, l) && Accepted(b, c, l) && CopiesInPage(b.image) && !MegapageConflict(b.image, c)
    && Ascending(frames) && |frames| == FramesNeeded(b.image, l)
    && (forall i :: 0 <= i < |frames| ==> InPool(c, frames[i]))
  }

  lemma CreationBuildable(c: KernelConfig, l: UserLayout, b: BootImage, frames: seq<Word>)
    requires Creation(c, l, b, frames)
    ensures Buildable(c, l, b, frames)
  {
  }

  lemma PoolFacts(c: KernelConfig, l: UserLayout, f: int)
    requires ValidLayout(c, l) && InPool(c, f)
    ensures 0 <= f < Sv32.PPN_LIMIT
    ensures forall x :: PAGE * f <= x < PAGE * f + PAGE ==> c.ram.Has(x) && !c.staging.Has(x) && !c.Frame().Has(x)
  {
    var p := c.framePool;
    assert p.base + p.size <= c.ram.base + c.ram.size;
    assert p.base >= c.ram.base;
  }

  // ----- Distinct frames -----

  /** A duplicate-free list split into three has duplicate-free, disjoint parts. */
  lemma SplitNoDup(s: seq<Word>, r: Word, a: seq<Word>, b: seq<Word>)
    requires NoDup(s) && multiset(s) == multiset{r} + multiset(a) + multiset(b)
    ensures NoDup(a) && NoDup(b) && r !in a && r !in b
    ensures forall i, j :: 0 <= i < |a| && 0 <= j < |b| ==> a[i] != b[j]
  {
    CountOnce(s);
    forall x ensures multiset(a)[x] + multiset(b)[x] + multiset{r}[x] <= 1 {
      assert multiset(s)[x] <= 1;
    }
    OnceNoDup(a);
    OnceNoDup(b);
    assert multiset{r}[r] == 1;
    forall i, j | 0 <= i < |a| && 0 <= j < |b| ensures a[i] != b[j] {
      assert multiset(a)[a[i]] >= 1;
      assert multiset(b)[b[j]] >= 1;
    }
  }

  /** The placement of every page. */
  ghost function Placing(l: UserLayout, b: BootImage, frames: seq<Word>): Placement
    requires l.StackBase().Some? && |frames| == FramesNeeded(b.image, l)
  {
    PlaceUpTo(Pages(b.image, l), frames, b.staged, |Pages(b.image, l)|)
  }

  /** The root, the tables and the page frames are all different. */
  ghost predicate Apart(pl: Placement, root: Word) {
    && NoDup(TablesOf(pl.slots)) && NoDup(FramesOf(pl.placed))
    && root !in TablesOf(pl.slots) && root !in FramesOf(pl.placed)
    && forall i, j :: 0 <= i < |pl.slots| && 0 <= j < |pl.placed| ==> TablesOf(pl.slots)[i] != FramesOf(pl.placed)[j]
  }

  lemma PlacingFacts(l: UserLayout, b: BootImage, frames: seq<Word>)
    requires l.StackBase().Some? && |frames| == FramesNeeded(b.image, l) && Ascending(frames)
    ensures var pl, ps := Placing(l, b, frames), Pages(b.image, l);
      Good(pl, ps, frames, |ps|) && Apart(pl, frames[0]) && pl.order == frames && DistinctSlots(pl.slots)
  {
    hide PlaceUpTo, FramesUsed, PagesPlaced, TablesOf, FramesOf, Pages;
    var ps := Pages(b.image, l);
    PlaceGood(ps, frames, b.staged, |ps|);
    PlaceUpToDistinct(ps, frames, b.staged, |ps|);
    var pl := Placing(l, b, frames);
    assert frames[..|frames|] == frames;
    SplitNoDup(frames, frames[0], TablesOf(pl.slots), FramesOf(pl.placed));
  }

  /** Page `j` gets the frame after the tables and pages before it: the order a lazy allocator would take. */
  lemma {:induction false} PlacedFrame(ps: seq<PagePlan>, frames: seq<Word>, staged: Word, i: nat, j: nat)
    requires j < i <= |ps| && FramesUsed(ps, i) <= |frames|
    ensures FramesUsed(ps, j + 1) <= FramesUsed(ps, i)
    ensures |PlaceUpTo(ps, frames, staged, i).placed| == i
    ensures PlaceUpTo(ps, frames, staged, i).placed[j].frame == frames[FramesUsed(ps, j + 1) - 1]
  {
    hide PlaceUpTo, Place, LeafFor, Accounted;
    PlaceNext(ps, frames, staged, i - 1);
    PlaceGood(ps, frames, staged, i - 1);
    var pl := PlaceUpTo(ps, frames, staged, i - 1);
    NextFrame(pl, ps[i - 1], frames, staged);
    FramesUsedStep(ps, i - 1);
    if j < i - 1 {
      PlacedFrame(ps, frames, staged, i - 1, j);
    }
  }

  lemma NextFrame(pl: Placement, p: PagePlan, frames: seq<Word>, staged: Word)
    requires Room(pl, p, frames)
    ensures var r := Place(pl, p, frames, staged);
      && |r.order| <= |frames| && |r.placed| == |pl.placed| + 1 && r.placed[..|pl.placed|] == pl.placed
      && r.placed[|pl.placed|].frame == frames[|r.order| - 1]
  {
    LookupIff(pl.slots, SlotOf(p));
  }

  // ----- Addresses -----

  /** `va` lies in the page at `base`. */
  predicate OnPage(base: int, va: int) {
    base <= va < base + PAGE
  }

  /** An address is its two table indices and its page offset. */
  lemma VaSplit(va: Word)
    ensures va == 0x40_0000 * Sv32.Vpn1(va) + PAGE * Sv32.Vpn0(va) + va % PAGE
    ensures EntryIndex(Sv32.Vpn1(va)) && EntryIndex(Sv32.Vpn0(va))
  {
  }

  /** Two addresses with the same indices are on the same page. */
  lemma SameIndices(base: Word, va: Word)
    requires base % PAGE == 0
    ensures OnPage(base, va) <==> Sv32.Vpn1(base) == Sv32.Vpn1(va) && Sv32.Vpn0(base) == Sv32.Vpn0(va)
  {
    VaSplit(base);
    VaSplit(va);
    if OnPage(base, va) {
      PageSplit(va, base / PAGE, va - base);
      assert va / PAGE == base / PAGE;
      assert va / 0x40_0000 == base / 0x40_0000 by { MegaOfPage(va); MegaOfPage(base); }
    }
  }

  lemma MegaOfPage(x: int)
    ensures x / 0x40_0000 == x / PAGE / 1024
  {
    var p := x / PAGE;
    assert x == PAGE * p + x % PAGE;
    assert p == 1024 * (p / 1024) + p % 1024;
  }

  lemma StackVas(l: UserLayout, i: nat)
    requires l.StackBase().Some? && i < l.stackPages && l.stackTop % PAGE == 0
    ensures StackPages(l)[i].va == StackVa(l, i) && StackVa(l, i) % PAGE == 0 && l.ImageEnd() <= StackVa(l, i) < l.stackTop
  {
    var base := l.ImageEnd();
    assert base == l.stackTop - l.stackPages * PAGE;
    assert StackVa(l, i) == PAGE * (l.stackTop / PAGE - l.stackPages + i);
  }

  /** Every page is aligned, the addresses ascend, and no page is in a megapage slot. */
  lemma PagesFacts(c: KernelConfig, l: UserLayout, b: BootImage, j: nat)
    requires ValidLayout(c, l) && Accepted(b, c, l) && !MegapageConflict(b.image, c)
    requires j < |Pages(b.image, l)|
    ensures var p := Pages(b.image, l)[j];
      p.va % PAGE == 0 && SlotOf(p) !in MegaSlots(c) && (p.copy.Some? ==> j < |SegmentPages(b.image.segments)|)
  {
    var segs := SegmentPages(b.image.segments);
    if j < |segs| {
      assert segs[j] in segs;
      var s := SegmentOf(b.image.segments, segs[j]);
      assert PageAccepted(segs[j], s, l, b.fileLen);
    } else {
      StackVas(l, j - |segs|);
    }
  }

  lemma PagesDistinct(c: KernelConfig, l: UserLayout, b: BootImage, i: nat, j: nat)
    requires ValidLayout(c, l) && Accepted(b, c, l) && i < j < |Pages(b.image, l)|
    ensures Pages(b.image, l)[i].va < Pages(b.image, l)[j].va
  {
    var segs := SegmentPages(b.image.segments);
    if i < |segs| <= j {
      assert segs[i] in segs;
      var s := SegmentOf(b.image.segments, segs[i]);
      assert PageAccepted(segs[i], s, l, b.fileLen);
      StackVas(l, j - |segs|);
    } else if |segs| <= i {
      StackVas(l, i - |segs|);
      StackVas(l, j - |segs|);
    }
  }

  // ----- Contents -----

  /** The copy of page `p`, placed in frame `f`, writes byte `x`. */
  predicate Covers(p: PagePlan, f: int, x: int) {
    p.copy.Some? && PAGE * f + p.copy.value.pageOffset <= x < PAGE * f + p.copy.value.pageOffset + p.copy.value.len
  }

  /** The staging byte that copy writes at `x`. */
  function SourceOf(p: PagePlan, f: int, staged: Word, x: int): int
    requires p.copy.Some?
  {
    staged + p.copy.value.fileOffset + (x - (PAGE * f + p.copy.value.pageOffset))
  }

  /** Byte `x` after the copies of the first `i` pages. */
  function Loaded(z: Memory, ps: seq<PagePlan>, placed: seq<Placed>, staged: Word, i: nat, x: int): Byte
    requires i <= |ps| && i <= |placed|
  {
    if i == 0 then Peek(z, x)
    else if Covers(ps[i - 1], placed[i - 1].frame, x) then Peek(z, SourceOf(ps[i - 1], placed[i - 1].frame, staged, x))
    else Loaded(z, ps, placed, staged, i - 1, x)
  }

  /** Each copy reads outside the frames in `fs` and writes inside its own frame, which is one of them. */
  ghost predicate CopyApart(p: PagePlan, f: int, staged: Word, fs: set<int>) {
    && f in fs
    && (p.copy.Some? ==> p.copy.value.pageOffset + p.copy.value.len <= PAGE)
    && forall x :: Covers(p, f, x) ==> PageOf(SourceOf(p, f, staged, x)) !in fs
  }

  lemma CoversPage(p: PagePlan, f: int, staged: Word, fs: set<int>, x: int)
    requires CopyApart(p, f, staged, fs) && Covers(p, f, x)
    ensures PageOf(x) == f
  {
    PageSplit(x, f, x - PAGE * f);
  }

  lemma RangesApart(p: PagePlan, f: Word, staged: Word, fs: set<int>)
    requires CopyApart(p, f, staged, fs) && p.copy.Some?
    ensures var src, dst, len := staged + p.copy.value.fileOffset, f * PAGE + p.copy.value.pageOffset, p.copy.value.len;
      src + len <= dst || dst + len <= src
  {
    hide PageOf;
    var src, dst, len := staged + p.copy.value.fileOffset, f * PAGE + p.copy.value.pageOffset, p.copy.value.len;
    if src < dst + len && dst < src + len {
      var y := if src < dst then dst else src;
      var x := dst + (y - src);
      assert Covers(p, f, x) && SourceOf(p, f, staged, x) == y;
      assert Covers(p, f, y);
      CoversPage(p, f, staged, fs, y);
    }
  }

  /** A page's copies, executed, are its one copy. */
  lemma PageCopiesLoad(z: Memory, p: PagePlan, f: Word, staged: Word, fs: set<int>, x: int)
    requires CopyApart(p, f, staged, fs)
    ensures Peek(DoCopies(z, PageCopies(p, f, staged)), x)
         == if Covers(p, f, x) then Peek(z, SourceOf(p, f, staged, x)) else Peek(z, x)
  {
    hide DoCopies, SplitCopy, CopyApart;
    if p.copy.None? {
      NoCopies(z);
    } else {
      RangesApart(p, f, staged, fs);
      var c := p.copy.value;
      SplitCopyIsCopy(z, staged + c.fileOffset, f * PAGE + c.pageOffset, c.len, x);
    }
  }

  /** A byte in no frame keeps its value. */
  lemma {:induction false} LoadedAway(z: Memory, ps: seq<PagePlan>, placed: seq<Placed>, staged: Word, i: nat, fs: set<int>, x: int)
    requires i <= |ps| && i <= |placed| && PageOf(x) !in fs
    requires forall j :: 0 <= j < i ==> CopyApart(ps[j], placed[j].frame, staged, fs)
    ensures Loaded(z, ps, placed, staged, i, x) == Peek(z, x)
  {
    if i > 0 {
      LoadedAway(z, ps, placed, staged, i - 1, fs, x);
      if Covers(ps[i - 1], placed[i - 1].frame, x) {
        CoversPage(ps[i - 1], placed[i - 1].frame, staged, fs, x);
      }
    }
  }

  /** A byte of page `j`'s frame is its file byte, or what the frame held before. */
  lemma {:induction false} LoadedOwn(z: Memory, ps: seq<PagePlan>, placed: seq<Placed>, staged: Word, i: nat, fs: set<int>, j: nat, x: int)
    requires j < i <= |ps| && i <= |placed| && PageOf(x) == placed[j].frame
    requires forall k :: 0 <= k < i ==> CopyApart(ps[k], placed[k].frame, staged, fs)
    requires forall k :: 0 <= k < i && k != j ==> placed[k].frame != placed[j].frame
    ensures Loaded(z, ps, placed, staged, i, x)
         == if Covers(ps[j], placed[j].frame, x) then Peek(z, SourceOf(ps[j], placed[j].frame, staged, x)) else Peek(z, x)
  {
    if j < i - 1 {
      LoadedOwn(z, ps, placed, staged, i - 1, fs, j, x);
      if Covers(ps[i - 1], placed[i - 1].frame, x) {
        CoversPage(ps[i - 1], placed[i - 1].frame, staged, fs, x);
      }
    } else if !Covers(ps[j], placed[j].frame, x) {
      LoadedNotYet(z, ps, placed, staged, j, fs, x, placed[j].frame);
    }
  }

  lemma {:induction false} LoadedNotYet(z: Memory, ps: seq<PagePlan>, placed: seq<Placed>, staged: Word, i: nat, fs: set<int>, x: int, f: int)
    requires i <= |ps| && i <= |placed| && PageOf(x) == f
    requires forall k :: 0 <= k < i ==> CopyApart(ps[k], placed[k].frame, staged, fs) && placed[k].frame != f
    ensures Loaded(z, ps, placed, staged, i, x) == Peek(z, x)
  {
    if i > 0 {
      LoadedNotYet(z, ps, placed, staged, i - 1, fs, x, f);
      if Covers(ps[i - 1], placed[i - 1].frame, x) {
        CoversPage(ps[i - 1], placed[i - 1].frame, staged, fs, x);
      }
    }
  }

  lemma PlaceCopies(pl: Placement, p: PagePlan, frames: seq<Word>, staged: Word)
    requires Room(pl, p, frames)
    ensures var r := Place(pl, p, frames, staged);
      && |r.placed| == |pl.placed| + 1 && r.placed[..|pl.placed|] == pl.placed
      && r.copies == pl.copies + PageCopies(p, r.placed[|pl.placed|].frame, staged)
  {
  }

  /** The copies of the first `i` pages, executed, load those pages. */
  lemma {:induction false} CopiesLoad(z: Memory, ps: seq<PagePlan>, frames: seq<Word>, staged: Word, i: nat, fs: set<int>, placed: seq<Placed>, x: int)
    requires i <= |ps| && FramesUsed(ps, i) <= |frames|
    requires i <= |placed| && PlaceUpTo(ps, frames, staged, i).placed == placed[..i]
    requires forall j :: 0 <= j < i ==> CopyApart(ps[j], placed[j].frame, staged, fs)
    ensures Peek(DoCopies(z, PlaceUpTo(ps, frames, staged, i).copies), x) == Loaded(z, ps, placed, staged, i, x)
  {
    hide PlaceUpTo, Place, DoCopies, SlotSet, Room, PageCopies;
    if i == 0 {
      PlaceNoCopies(ps, frames, staged);
      NoCopies(z);
    } else {
      PlaceNext(ps, frames, staged, i - 1);
      var pl, p := PlaceUpTo(ps, frames, staged, i - 1), ps[i - 1];
      PlaceCopies(pl, p, frames, staged);
      assert |pl.placed| == i - 1 && pl.placed == placed[..i][..i - 1] == placed[..i - 1];
      var f := placed[i - 1].frame;
      assert PlaceUpTo(ps, frames, staged, i).copies == pl.copies + PageCopies(p, f, staged);
      CopiesLoad(z, ps, frames, staged, i - 1, fs, placed, x);
      DoCopiesAppend(z, pl.copies, PageCopies(p, f, staged));
      PageCopiesLoad(DoCopies(z, pl.copies), p, f, staged, fs, x);
      if Covers(p, f, x) {
        var y := SourceOf(p, f, staged, x);
        CopiesLoad(z, ps, frames, staged, i - 1, fs, placed, y);
        LoadedAway(z, ps, placed, staged, i - 1, fs, y);
      }
    }
  }

  lemma PlaceNoCopies(ps: seq<PagePlan>, frames: seq<Word>, staged: Word)
    requires 1 <= |frames|
    ensures FramesUsed(ps, 0) == 1 && PlaceUpTo(ps, frames, staged, 0).copies == []
  {
  }
}
