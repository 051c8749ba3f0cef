/** The main theorems about a creation: exact contents, exact translation, and safety at every step. */
module SpaceWalk {
  import opened Words
  import opened Memory
  import opened Core
  import opened Config
  import opened Image
  import opened Space
  import opened SpaceRun
  import opened SpaceExact
  import opened Sv32

  // ----- PTE fields -----

  /** The low bits of a PTE do not depend on its PPN. */
  lemma LowBits(pte: Word, flags: int)
    requires pte % 1024 == flags
    ensures pte % 2 == flags % 2
    ensures pte % 4 == flags % 4
    ensures pte % 8 == flags % 8
    ensures pte % 16 == flags % 16
    ensures pte % 32 == flags % 32
    ensures pte % 128 == flags % 128
    ensures pte % 256 == flags % 256
  {
    LowBitsOf(pte, 2, 512);
    LowBitsOf(pte, 4, 256);
    LowBitsOf(pte, 8, 128);
    LowBitsOf(pte, 16, 64);
    LowBitsOf(pte, 32, 32);
    LowBitsOf(pte, 128, 8);
    LowBitsOf(pte, 256, 4);
  }

  /** The remainder by a divisor of 1024 depends on the remainder by 1024 alone. */
  lemma LowBitsOf(x: int, d: int, q: int)
    requires d > 0 && d * q == 1024
    ensures x % d == x % 1024 % d
  {
    var k, r := x / 1024, x % 1024;
    assert d * (q * k) == (d * q) * k;
    assert d * (q * k + r / d) == d * (q * k) + d * (r / d);
    RemainderIs(x, d, q * k + r / d, r % d);
  }

  lemma RemainderIs(x: int, d: int, k: int, r: int)
    requires d > 0 && x == d * k + r && 0 <= r < d
    ensures x % d == r
  {
    var j, m := x / d, x % d;
    assert x == d * j + m;
    assert d * (j - k) == d * j - d * k;
    SmallMultiple(d, j - k);
  }

  /** The only multiple of `d` between `-d` and `d` is 0. */
  lemma SmallMultiple(d: int, t: int)
    requires d > 0 && 0 - d < d * t < d
    ensures t == 0
  {
    AtLeastOnce(d, t);
  }

  lemma {:induction false} AtLeastOnce(d: int, t: int)
    requires d > 0
    ensures t >= 1 ==> d * t >= d
    ensures t <= -1 ==> d * t <= -d
    decreases if t < 0 then -t else t
  {
    if t > 1 {
      AtLeastOnce(d, t - 1);
      assert d * t == d * (t - 1) + d;
    } else if t < -1 {
      AtLeastOnce(d, t + 1);
      assert d * t == d * (t + 1) - d;
    }
  }

  /** The permission a page needs for an access in U-mode. */
  predicate Allows(p: Perms, access: Sv32.Access, mxr: bool) {
    match access
    case Fetch => p.execute
    case Load => p.read || (mxr && p.execute)
    case Store => p.write
  }

  /** A user leaf translates to its frame exactly when its permissions allow the access. */
  lemma LeafStep(ctx: Context, va: Word, ppn: Word, p: Perms)
    requires ctx.privilege == User && ppn < PPN_LIMIT && ValidPerms(p)
    ensures PteStep(ctx, va, 0, UserLeaf(ppn, p))
         == if Allows(p, ctx.access, ctx.mxr) then Sv32.Leaf(ppn * PAGE + va % PAGE) else Stop
  {
    var pte := UserLeaf(ppn, p);
    LowBits(pte, pte % 1024);
    LeafBits(p);
  }

  lemma LeafBits(p: Perms)
    ensures var f := 1 + PermBits(p) + 16 + 64 + (if p.write then 128 else 0);
      && f % 2 == 1 && (f % 4 >= 2 <==> p.read) && (f % 8 >= 4 <==> p.write) && (f % 16 >= 8 <==> p.execute)
      && f % 32 >= 16 && f % 128 >= 64 && (f % 256 >= 128 <==> p.write)
  {
  }

  lemma PointerStep(ctx: Context, va: Word, ppn: Word)
    requires ppn < PPN_LIMIT
    ensures PteStep(ctx, va, 1, TablePte(ppn)) == Next(ppn)
  {
    LowBits(TablePte(ppn), 1);
  }

  /** Neither megapage is a user mapping. */
  lemma MegaStep(ctx: Context, va: Word, ppn: Word)
    requires ctx.privilege == User
    ensures PteStep(ctx, va, 1, KernelLeaf(ppn)) == Stop && PteStep(ctx, va, 1, MmioLeaf(ppn)) == Stop
  {
    LowBits(KernelLeaf(ppn), 239);
    LowBits(MmioLeaf(ppn), 231);
  }

  // ----- The CPU's reader -----

  /** PTE reads served by RAM and refused elsewhere. */
  function RamReader(c: KernelConfig, m: Memory): Reader {
    a => if c.ram.base <= a && a + 4 <= c.ram.base + c.ram.size then Some(PeekWord(m, a)) else None
  }

  lemma ReadsEntry(c: KernelConfig, l: UserLayout, m: Memory, t: Word, va: Word, level: nat)
    requires ValidLayout(c, l) && InPool(c, t) && level <= 1
    ensures RamReader(c, m)(PteAddress(t, va, level)) == Some(PeekEntry(m, t, if level == 1 then Vpn1(va) else Vpn0(va)))
  {
    VaSplit(va);
    var i := if level == 1 then Vpn1(va) else Vpn0(va);
    PoolFacts(c, l, t);
    assert PAGE * t <= EntryAt(t, i) && EntryAt(t, i) + 4 <= PAGE * t + PAGE;
    assert c.ram.Has(EntryAt(t, i)) && c.ram.Has(EntryAt(t, i) + 3);
  }

  // ----- A creation's space -----

  /** What the proofs use about a built space. */
  lemma BuiltIs(c: KernelConfig, l: UserLayout, b: BootImage, frames: seq<Word>)
    requires Creation(c, l, b, frames)
    ensures Buildable(c, l, b, frames) && |frames| >= 1
    ensures var s, pl := Built(c, l, b, frames), Placing(l, b, frames);
      && s.frames == frames && s.root == frames[0] && s.slots == pl.slots && s.copies == pl.copies
      && s.tables == [frames[0]] + TablesOf(pl.slots)
      && s.ptes == pl.leaves + SortByIndex(TopEntries(c, frames[0], pl.slots)) && s.ptes != []
  {
    CreationBuildable(c, l, b, frames);
    PlacingFacts(l, b, frames);
    hide Good, PlaceUpTo, SortByIndex, TablesOf, FramesOf, Regions, Accepted, CopiesInPage, MegapageConflict, FramesNeeded, Pages, ValidLayout;
    var top := TopEntries(c, frames[0], Placing(l, b, frames).slots);
    assert |top| >= 2;
    assert |multiset(SortByIndex(top))| == |top|;
  }

  /** The frame of page `j`, by its place in the list. */
  function FrameNo(ps: seq<PagePlan>, j: nat): nat
    requires j < |ps|
  {
    FramesUsed(ps, j + 1) - 1
  }

  lemma PageFrame(c: KernelConfig, l: UserLayout, b: BootImage, frames: seq<Word>, j: nat)
    requires Creation(c, l, b, frames) && j < |Pages(b.image, l)|
    ensures var ps, pl := Pages(b.image, l), Placing(l, b, frames);
      && 0 < FrameNo(ps, j) < |frames| && |pl.placed| == |ps|
      && pl.placed[j].frame == frames[FrameNo(ps, j)]
  {
    hide PlaceUpTo, Accepted, CopiesInPage, MegapageConflict;
    PlacedFrame(Pages(b.image, l), frames, b.staged, |Pages(b.image, l)|, j);
  }

  /** Every copy of a creation reads staging and writes its own frame. */
  lemma CreationCopy(c: KernelConfig, l: UserLayout, b: BootImage, frames: seq<Word>, fs: set<int>, j: nat)
    requires Creation(c, l, b, frames) && j < |Pages(b.image, l)|
    requires fs == set i | 0 <= i < |frames| :: frames[i] as int
    ensures |Placing(l, b, frames).placed| == |Pages(b.image, l)|
    ensures CopyApart(Pages(b.image, l)[j], Placing(l, b, frames).placed[j].frame, b.staged, fs)
  {
    hide PlaceUpTo, Accepted, CopiesInPage, MegapageConflict, Pages, FramesUsed;
    var p := Pages(b.image, l)[j];
    PageFrame(c, l, b, frames, j);
    var f := Placing(l, b, frames).placed[j].frame;
    if p.copy.Some? {
      CopyRanges(c, l, b, j);
      forall x | Covers(p, f, x) ensures PageOf(SourceOf(p, f, b.staged, x)) !in fs {
        StagingAway(c, l, frames, SourceOf(p, f, b.staged, x));
      }
    }
  }

  lemma CopyRanges(c: KernelConfig, l: UserLayout, b: BootImage, j: nat)
    requires ValidLayout(c, l) && Accepted(b, c, l) && CopiesInPage(b.image)
    requires j < |Pages(b.image, l)| && Pages(b.image, l)[j].copy.Some?
    ensures var k := Pages(b.image, l)[j].copy.value; k.pageOffset + k.len <= PAGE
    ensures var k := Pages(b.image, l)[j].copy.value;
      forall y :: b.staged + k.fileOffset <= y < b.staged + k.fileOffset + k.len ==> c.staging.Has(y)
  {
    var segs := SegmentPages(b.image.segments);
    assert j < |segs|;
    var p := segs[j];
    assert p in segs;
    var s := SegmentOf(b.image.segments, p);
    assert PageAccepted(p, s, l, b.fileLen);
    hide SegmentPages, ValidLayout;
  }

  lemma StagingAway(c: KernelConfig, l: UserLayout, frames: seq<Word>, y: int)
    requires ValidLayout(c, l) && (forall i :: 0 <= i < |frames| ==> InPool(c, frames[i])) && c.staging.Has(y)
    ensures forall i :: 0 <= i < |frames| ==> frames[i] != PageOf(y)
  {
    forall i | 0 <= i < |frames| ensures frames[i] != PageOf(y) {
      PoolFacts(c, l, frames[i]);
      assert PAGE * PageOf(y) <= y < PAGE * PageOf(y) + PAGE;
    }
  }

  // ----- Contents -----

  /** The byte the plan gives offset `o` of a page: its file byte, or zero. */
  function PlannedByte(p: PagePlan, staged: Word, m: Memory, o: int): Byte {
    if p.copy.Some? && p.copy.value.pageOffset <= o < p.copy.value.pageOffset + p.copy.value.len
    then Peek(m, staged + p.copy.value.fileOffset + (o - p.copy.value.pageOffset)) else 0
  }

  lemma CopiedIsLoaded(c: KernelConfig, l: UserLayout, b: BootImage, frames: seq<Word>, m: Memory, x: int)
    requires Creation(c, l, b, frames) && Buildable(c, l, b, frames)
    ensures var s, ps, pl := Built(c, l, b, frames), Pages(b.image, l), Placing(l, b, frames);
      && |pl.placed| == |ps|
      && (forall j :: 0 <= j < |ps| ==> CopyApart(ps[j], pl.placed[j].frame, b.staged, FrameSet(s)))
      && Peek(SpaceRun.Copied(s, m), x) == Loaded(After(s, m, ZeroSteps(s)).mem, ps, pl.placed, b.staged, |ps|, x)
  {
    hide PlaceUpTo, Accepted, CopiesInPage, MegapageConflict, Pages, FramesUsed, CopyApart, Loaded, DoCopies, After, ValidLayout, Good, Apart, Built, TopEntries, SortByIndex;
    BuiltIs(c, l, b, frames);
    PlacingFacts(l, b, frames);
    var s, ps, pl := Built(c, l, b, frames), Pages(b.image, l), Placing(l, b, frames);
    PlacedCount(c, l, b, frames);
    forall j | 0 <= j < |ps| ensures CopyApart(ps[j], pl.placed[j].frame, b.staged, FrameSet(s)) {
      CreationCopy(c, l, b, frames, FrameSet(s), j);
    }
    assert pl.placed[..|ps|] == pl.placed;
    CopiesLoad(After(s, m, ZeroSteps(s)).mem, ps, frames, b.staged, |ps|, FrameSet(s), pl.placed, x);
  }

  lemma PlacedCount(c: KernelConfig, l: UserLayout, b: BootImage, frames: seq<Word>)
    requires Creation(c, l, b, frames)
    ensures |Placing(l, b, frames).placed| == |Placing(l, b, frames).leaves| == |Pages(b.image, l)|
  {
    PlacingFacts(l, b, frames);
  }

  /** Before the first PTE write, memory outside the frames is untouched, every page frame holds exactly its planned
      bytes, and every table frame is zero. */
  lemma CopiedBytes(c: KernelConfig, l: UserLayout, b: BootImage, frames: seq<Word>, m: Memory, x: int)
    requires Creation(c, l, b, frames) && Buildable(c, l, b, frames)
    ensures var s, ps, pl := Built(c, l, b, frames), Pages(b.image, l), Placing(l, b, frames);
      && |pl.placed| == |ps|
      && (PageOf(x) !in FrameSet(s) ==> Peek(SpaceRun.Copied(s, m), x) == Peek(m, x))
      && (PageOf(x) in FrameSet(s) && (forall j :: 0 <= j < |ps| ==> pl.placed[j].frame != PageOf(x))
          ==> Peek(SpaceRun.Copied(s, m), x) == 0)
      && (forall j :: (0 <= j < |ps| && pl.placed[j].frame == PageOf(x)
                       ==> Peek(SpaceRun.Copied(s, m), x) == PlannedByte(ps[j], b.staged, m, x % PAGE)))
  {
    hide PlaceUpTo, Accepted, CopiesInPage, MegapageConflict, ValidLayout, FramesNeeded, Built, Pages, CopyApart, Loaded, After, SpaceRun.Copied, FrameSet, Good, PageOf;
    CopiedIsLoaded(c, l, b, frames, m, x);
    var s, ps, pl := Built(c, l, b, frames), Pages(b.image, l), Placing(l, b, frames);
    var z, fs := After(s, m, ZeroSteps(s)).mem, FrameSet(s);
    ZeroDone(s, m);
    if PageOf(x) !in fs {
      LoadedAway(z, ps, pl.placed, b.staged, |ps|, fs, x);
    }
    if forall j :: 0 <= j < |ps| ==> pl.placed[j].frame != PageOf(x) {
      LoadedNotYet(z, ps, pl.placed, b.staged, |ps|, fs, x, PageOf(x));
    }
    forall j | 0 <= j < |ps| && pl.placed[j].frame == PageOf(x)
      ensures Peek(SpaceRun.Copied(s, m), x) == PlannedByte(ps[j], b.staged, m, x % PAGE)
    {
      PlacingFacts(l, b, frames);
      DistinctFrames(pl, frames[0], j);
      LoadedOwn(z, ps, pl.placed, b.staged, |ps|, fs, j, x);
      PlannedIsLoaded(z, m, ps[j], pl.placed[j].frame, b.staged, fs, x);
    }
  }

  lemma DistinctFrames(pl: Placement, root: Word, j: nat)
    requires Apart(pl, root) && j < |pl.placed|
    ensures forall k :: 0 <= k < |pl.placed| && k != j ==> pl.placed[k].frame != pl.placed[j].frame
  {
    hide FramesOf;
    FrameAt(pl.placed, j);
    forall k | 0 <= k < |pl.placed| && k != j ensures pl.placed[k].frame != pl.placed[j].frame {
      FrameAt(pl.placed, k);
    }
  }

  lemma PlannedIsLoaded(z: Memory, m: Memory, p: PagePlan, f: int, staged: Word, fs: set<int>, x: int)
    requires PageOf(x) == f && CopyApart(p, f, staged, fs)
    requires forall y :: Peek(z, y) == if PageOf(y) in fs then 0 else Peek(m, y)
    ensures (if Covers(p, f, x) then Peek(z, SourceOf(p, f, staged, x)) else Peek(z, x)) == PlannedByte(p, staged, m, x % PAGE)
  {
    assert x == PAGE * f + x % PAGE;
    if Covers(p, f, x) {
      assert PageOf(SourceOf(p, f, staged, x)) !in fs;
    }
  }

  // ----- Page tables -----

  /** Memory when every copy is made and the first `k` PTE writes are. */
  function Mapped(s: Space, m: Memory, k: nat): Memory
    requires k <= |s.ptes|
  {
    DoPtes(SpaceRun.Copied(s, m), s.ptes[..k])
  }

  lemma {:induction false} TableAt(slots: seq<Slot>, q: nat)
    requires q < |slots|
    ensures TablesOf(slots)[q] == slots[q].table
  {
    if q < |slots| - 1 {
      TableAt(slots[..|slots| - 1], q);
    }
  }

  lemma TablesAreFrames(c: KernelConfig, l: UserLayout, b: BootImage, frames: seq<Word>, q: nat)
    requires Creation(c, l, b, frames) && q < |Placing(l, b, frames).slots|
    ensures var pl := Placing(l, b, frames);
      && TableFrame(pl, frames, pl.slots[q].table) && pl.slots[q].table != frames[0]
      && (forall r :: 0 <= r < |pl.slots| && r != q ==> pl.slots[r].table != pl.slots[q].table)
  {
    hide PlaceUpTo, TablesOf, FramesOf, Accepted, CopiesInPage, MegapageConflict, Pages, PagesPlaced;
    PlacingFacts(l, b, frames);
    var pl := Placing(l, b, frames);
    TableAt(pl.slots, q);
    assert TablesOf(pl.slots)[q] in multiset(TablesOf(pl.slots));
    assert TablesOf(pl.slots)[q] in multiset(frames);
    forall j | 0 <= j < |pl.placed| ensures pl.placed[j].frame != pl.slots[q].table {
      FrameAt(pl.placed, j);
    }
    forall r | 0 <= r < |pl.slots| && r != q ensures pl.slots[r].table != pl.slots[q].table {
      TableAt(pl.slots, r);
    }
  }

  lemma RootIsApart(c: KernelConfig, l: UserLayout, b: BootImage, frames: seq<Word>)
    requires Creation(c, l, b, frames)
    ensures 1 <= |frames| && TableFrame(Placing(l, b, frames), frames, frames[0])
  {
    hide PlaceUpTo, TablesOf, FramesOf, Accepted, CopiesInPage, MegapageConflict, Pages, PagesPlaced;
    PlacingFacts(l, b, frames);
    var pl := Placing(l, b, frames);
    forall j | 0 <= j < |pl.placed| ensures pl.placed[j].frame != frames[0] {
      FrameAt(pl.placed, j);
    }
  }

  /** A frame that is a table of the placement. */
  ghost predicate TableFrame(pl: Placement, frames: seq<Word>, t: Word) {
    t in frames && forall j :: 0 <= j < |pl.placed| ==> pl.placed[j].frame != t
  }

  lemma TableByteZero(c: KernelConfig, l: UserLayout, b: BootImage, frames: seq<Word>, m: Memory, t: Word, x: int)
    requires Creation(c, l, b, frames) && Buildable(c, l, b, frames)
    requires TableFrame(Placing(l, b, frames), frames, t) && PageOf(x) == t
    ensures Peek(SpaceRun.Copied(Built(c, l, b, frames), m), x) == 0
  {
    hide ValidLayout, Accepted, CopiesInPage, MegapageConflict, FramesNeeded, PlaceUpTo, Built, SpaceRun.Copied, PageOf;
    BuiltIs(c, l, b, frames);
    assert t as int in FrameSet(Built(c, l, b, frames));
    CopiedBytes(c, l, b, frames, m, x);
  }

  /** Before the PTE writes every entry of every table is zero. */
  lemma EntriesStartZero(c: KernelConfig, l: UserLayout, b: BootImage, frames: seq<Word>, m: Memory, t: Word, i: int)
    requires Creation(c, l, b, frames) && Buildable(c, l, b, frames)
    requires TableFrame(Placing(l, b, frames), frames, t) && EntryIndex(i)
    ensures PeekEntry(SpaceRun.Copied(Built(c, l, b, frames), m), t, i) == 0
  {
    hide Creation, Buildable, Placing, TableFrame, SpaceRun.Copied, Built, PageOf, EntryAt;
    var a := EntryAt(t, i);
    EntryPage(t, i, 0);
    EntryPage(t, i, 1);
    EntryPage(t, i, 2);
    EntryPage(t, i, 3);
    TableByteZero(c, l, b, frames, m, t, a + 0);
    TableByteZero(c, l, b, frames, m, t, a + 1);
    TableByteZero(c, l, b, frames, m, t, a + 2);
    TableByteZero(c, l, b, frames, m, t, a + 3);
    ZeroEntry(SpaceRun.Copied(Built(c, l, b, frames), m), a);
  }

  lemma ZeroEntry(m: Memory, a: int)
    requires Peek(m, a) == Peek(m, a + 1) == Peek(m, a + 2) == Peek(m, a + 3) == 0
    ensures PeekWord(m, a) == 0
  {
  }

  /** A level-1 entry of the built table, by which write it comes from. */
  ghost predicate TopEntry(c: KernelConfig, slots: seq<Slot>, e: PteWrite, root: Word)
    requires c.ram.base < PHYS_LIMIT
  {
    e.table == root
    && ((exists q :: 0 <= q < |slots| && e.index == slots[q].index && e.value == TablePte(slots[q].table))
        || (e.index in MegaSlots(c) && (e.value == KernelLeaf(c.ram.base / PAGE) || e.value == MmioLeaf(MMIO_MEGAPAGE / PAGE))))
  }

  lemma TopEntriesAre(c: KernelConfig, root: Word, slots: seq<Slot>, e: PteWrite)
    requires c.ram.base < PHYS_LIMIT && e in SortByIndex(TopEntries(c, root, slots))
    ensures TopEntry(c, slots, e, root)
  {
    var top := TopEntries(c, root, slots);
    assert e in multiset(SortByIndex(top));
    assert e in multiset(top);
    var i :| 0 <= i < |top| && top[i] == e;
    if i < |slots| {
      assert top[i] == Pointers(root, slots)[i];
    }
  }

  lemma TopEntriesHave(c: KernelConfig, root: Word, slots: seq<Slot>, q: nat)
    requires c.ram.base < PHYS_LIMIT && q < |slots|
    ensures PteWrite(root, slots[q].index, TablePte(slots[q].table)) in SortByIndex(TopEntries(c, root, slots))
  {
    var top, e := TopEntries(c, root, slots), PteWrite(root, slots[q].index, TablePte(slots[q].table));
    assert top[q] == Pointers(root, slots)[q] == e;
    assert e in multiset(top);
    assert e in multiset(SortByIndex(top));
  }

  /** The table of a leaf is its slot's. */
  lemma LeafTable(c: KernelConfig, l: UserLayout, b: BootImage, frames: seq<Word>, j: nat) returns (q: nat)
    requires Creation(c, l, b, frames) && j < |Pages(b.image, l)|
    ensures var ps, pl := Pages(b.image, l), Placing(l, b, frames);
      && q < |pl.slots| && |pl.leaves| == |pl.placed| == |ps| && pl.slots[q].index == SlotOf(ps[j])
      && pl.leaves[j] == PteWrite(pl.slots[q].table, Vpn0(ps[j].va), UserLeaf(pl.placed[j].frame, ps[j].perms))
  {
    hide Accepted, CopiesInPage, MegapageConflict, FramesNeeded, PlaceUpTo, Accounted, InOrder, Pages;
    PlacingFacts(l, b, frames);
    var ps, pl := Pages(b.image, l), Placing(l, b, frames);
    assert LeafFor(pl.slots, ps[j], pl.placed[j].frame, pl.leaves[j]);
    q := LookupSome(pl.slots, SlotOf(ps[j]));
  }

  /** A PTE write of a creation is a page's leaf or a level-1 entry. */
  lemma PteKind(c: KernelConfig, l: UserLayout, b: BootImage, frames: seq<Word>, i: nat)
    requires Creation(c, l, b, frames) && Buildable(c, l, b, frames) && i < |Built(c, l, b, frames).ptes|
    ensures var s, ps, pl := Built(c, l, b, frames), Pages(b.image, l), Placing(l, b, frames);
      && |pl.leaves| == |ps|
      && (i < |ps| ==> s.ptes[i] == pl.leaves[i] && s.ptes[i].table != s.root)
      && (i >= |ps| ==> TopEntry(c, pl.slots, s.ptes[i], s.root))
  {
    hide Accepted, CopiesInPage, MegapageConflict, ValidLayout, FramesNeeded, PlaceUpTo, Built, SortByIndex, TopEntry, Pages, TopEntries;
    BuiltIs(c, l, b, frames);
    PlacedCount(c, l, b, frames);
    var s, ps, pl := Built(c, l, b, frames), Pages(b.image, l), Placing(l, b, frames);
    if i < |ps| {
      var q := LeafTable(c, l, b, frames, i);
      TablesAreFrames(c, l, b, frames, q);
    } else {
      assert s.ptes[i] in SortByIndex(TopEntries(c, frames[0], pl.slots));
      TopEntriesAre(c, frames[0], pl.slots, s.ptes[i]);
    }
  }

  lemma PtesInRange(c: KernelConfig, l: UserLayout, b: BootImage, frames: seq<Word>)
    requires Creation(c, l, b, frames) && Buildable(c, l, b, frames)
    ensures EntriesInRange(Built(c, l, b, frames).ptes)
  {
    hide Accepted, CopiesInPage, MegapageConflict, SlotSet, PlaceUpTo, Built, TopEntry;
    var s, ps, pl := Built(c, l, b, frames), Pages(b.image, l), Placing(l, b, frames);
    SlotsInRange(ps, frames, b.staged, |ps|);
    assert pl == PlaceUpTo(ps, frames, b.staged, |ps|);
    forall i | 0 <= i < |s.ptes| ensures EntryIndex(s.ptes[i].index) {
      PteKind(c, l, b, frames, i);
      if i < |ps| {
        var q := LeafTable(c, l, b, frames, i);
        VaSplit(ps[i].va);
      } else {
        TopInRange(c, pl.slots, s.ptes[i], s.root);
      }
    }
  }

  lemma TopInRange(c: KernelConfig, slots: seq<Slot>, e: PteWrite, root: Word)
    requires c.ram.base < PHYS_LIMIT && TopEntry(c, slots, e, root)
    requires forall q :: 0 <= q < |slots| ==> EntryIndex(slots[q].index)
    ensures EntryIndex(e.index)
  {
  }

  lemma PlaceInRange(pl: Placement, p: PagePlan, frames: seq<Word>, staged: Word)
    requires Room(pl, p, frames) && forall q :: 0 <= q < |pl.slots| ==> EntryIndex(pl.slots[q].index)
    ensures var r := Place(pl, p, frames, staged); forall q :: 0 <= q < |r.slots| ==> EntryIndex(r.slots[q].index)
  {
    VaSplit(p.va);
  }

  lemma {:induction false} SlotsInRange(ps: seq<PagePlan>, frames: seq<Word>, staged: Word, i: nat)
    requires i <= |ps| && FramesUsed(ps, i) <= |frames|
    ensures var pl := PlaceUpTo(ps, frames, staged, i); forall q :: 0 <= q < |pl.slots| ==> EntryIndex(pl.slots[q].index)
  {
    hide PlaceUpTo, Place, EntryIndex, Room;
    if i == 0 {
      PlaceNoSlots(ps, frames, staged);
    } else {
      PlaceNext(ps, frames, staged, i - 1);
      SlotsInRange(ps, frames, staged, i - 1);
      PlaceInRange(PlaceUpTo(ps, frames, staged, i - 1), ps[i - 1], frames, staged);
    }
  }

  lemma PlaceNoSlots(ps: seq<PagePlan>, frames: seq<Word>, staged: Word)
    requires FramesUsed(ps, 0) <= |frames|
    ensures PlaceUpTo(ps, frames, staged, 0).slots == []
  {
  }

  /** A root entry after `k` PTE writes: zero, or a level-1 entry written after every leaf. */
  lemma RootEntry(c: KernelConfig, l: UserLayout, b: BootImage, frames: seq<Word>, m: Memory, k: nat, i: int)
    requires Creation(c, l, b, frames) && Buildable(c, l, b, frames) && k <= |Built(c, l, b, frames).ptes| && EntryIndex(i)
    ensures var s, pl := Built(c, l, b, frames), Placing(l, b, frames);
      var v := PeekEntry(Mapped(s, m, k), s.root, i);
      || v == 0
      || (k > |Pages(b.image, l)| && exists e :: TopEntry(c, pl.slots, e, s.root) && e.index == i && e.value == v)
    ensures var s, pl := Built(c, l, b, frames), Placing(l, b, frames);
      k == |s.ptes| && (exists q :: 0 <= q < |pl.slots| && pl.slots[q].index == i)
      ==> exists e :: TopEntry(c, pl.slots, e, s.root) && e.index == i && e.value == PeekEntry(Mapped(s, m, k), s.root, i)
  {
    hide Accepted, CopiesInPage, MegapageConflict, ValidLayout, FramesNeeded, PlaceUpTo, Built, SortByIndex, TopEntry, Pages, TopEntries, DoPtes, SpaceRun.Copied, PeekEntry;
    var s, pl := Built(c, l, b, frames), Placing(l, b, frames);
    var copied, es := SpaceRun.Copied(s, m), s.ptes[..k];
    PtesInRange(c, l, b, frames);
    var r := EntryAfter(copied, es, s.root, i);
    if r >= 0 {
      PteKind(c, l, b, frames, r);
    } else {
      BuiltIs(c, l, b, frames);
      RootIsApart(c, l, b, frames);
      EntriesStartZero(c, l, b, frames, m, s.root, i);
      if k == |s.ptes| {
        forall q | 0 <= q < |pl.slots| ensures pl.slots[q].index != i {
          TopEntriesHave(c, frames[0], pl.slots, q);
          var e := PteWrite(frames[0], pl.slots[q].index, TablePte(pl.slots[q].table));
          assert e in s.ptes;
          var z :| 0 <= z < |s.ptes| && s.ptes[z] == e;
          assert es[z] == e;
        }
      }
    }
  }

  /** A level-0 entry once every leaf is written: the leaf of the page it maps, or zero when it maps none. */
  lemma LeafEntry(c: KernelConfig, l: UserLayout, b: BootImage, frames: seq<Word>, m: Memory, k: nat, q: nat, i: int)
    requires Creation(c, l, b, frames) && Buildable(c, l, b, frames) && EntryIndex(i)
    requires |Pages(b.image, l)| <= k <= |Built(c, l, b, frames).ptes| && q < |Placing(l, b, frames).slots|
    ensures var s, ps, pl := Built(c, l, b, frames), Pages(b.image, l), Placing(l, b, frames);
      var v := PeekEntry(Mapped(s, m, k), pl.slots[q].table, i);
      && |pl.placed| == |ps|
      && (|| (exists j :: 0 <= j < |ps| && MapsEntry(ps[j], pl.slots[q].index, i) && v == UserLeaf(pl.placed[j].frame, ps[j].perms))
          || (v == 0 && forall j :: 0 <= j < |ps| ==> !MapsEntry(ps[j], pl.slots[q].index, i)))
  {
    hide Accepted, CopiesInPage, MegapageConflict, ValidLayout, FramesNeeded, PlaceUpTo, Built, SortByIndex, Pages, TopEntries, DoPtes, SpaceRun.Copied, PeekEntry;
    var s, ps, pl := Built(c, l, b, frames), Pages(b.image, l), Placing(l, b, frames);
    var copied, es, t := SpaceRun.Copied(s, m), s.ptes[..k], pl.slots[q].table;
    PtesInRange(c, l, b, frames);
    PlacedCount(c, l, b, frames);
    TablesAreFrames(c, l, b, frames, q);
    BuiltIs(c, l, b, frames);
    var r := EntryAfter(copied, es, t, i);
    if r >= 0 {
      PteKind(c, l, b, frames, r);
      var z := LeafTable(c, l, b, frames, r);
      assert z == q;
      assert MapsEntry(ps[r], pl.slots[q].index, i);
    } else {
      EntriesStartZero(c, l, b, frames, m, t, i);
      forall j | 0 <= j < |ps| ensures !MapsEntry(ps[j], pl.slots[q].index, i) {
        var z := LeafTable(c, l, b, frames, j);
        PteKind(c, l, b, frames, j);
        SlotsDiffer(c, l, b, frames, z, q);
        assert !Hits(es[j], t, i);
      }
    }
  }

  predicate MapsEntry(p: PagePlan, slot: int, i: int) {
    SlotOf(p) == slot && Vpn0(p.va) == i
  }

  lemma SlotsDiffer(c: KernelConfig, l: UserLayout, b: BootImage, frames: seq<Word>, z: nat, q: nat)
    requires Creation(c, l, b, frames) && z < |Placing(l, b, frames).slots| && q < |Placing(l, b, frames).slots|
    ensures Placing(l, b, frames).slots[z].index == Placing(l, b, frames).slots[q].index ==> z == q
  {
    PlacingFacts(l, b, frames);
  }

  // ----- Walks -----

  /** Page `p` maps `va` with the permission the access needs. */
  predicate Grants(p: PagePlan, va: Word, ctx: Context) {
    OnPage(p.va, va) && Allows(p.perms, ctx.access, ctx.mxr)
  }

  /** A translation that follows the plan: the page's frame and the offset exactly when a page grants the access, and a
      page fault otherwise. */
  ghost predicate FollowsPlan(r: Result<int, Fault>, ps: seq<PagePlan>, frames: seq<Word>, va: Word, ctx: Context)
    requires FramesUsed(ps, |ps|) == |frames|
  {
    && (forall j :: (0 <= j < |ps| && Grants(ps[j], va, ctx)
                     ==> FrameNo(ps, j) < |frames| && r == Ok(frames[FrameNo(ps, j)] * PAGE + va % PAGE)))
    && ((forall j :: 0 <= j < |ps| ==> !Grants(ps[j], va, ctx)) ==> r == Err(PageFault))
  }

  lemma FrameInPool(c: KernelConfig, l: UserLayout, b: BootImage, frames: seq<Word>, f: Word)
    requires Creation(c, l, b, frames) && f in frames
    ensures InPool(c, f) && f < PPN_LIMIT
  {
    PoolFacts(c, l, f);
  }

  lemma WalkStops(ctx: Context, va: Word, t: Word, level: nat, read: Reader, pte: Word)
    requires level <= 1 && read(PteAddress(t, va, level)) == Some(pte) && PteStep(ctx, va, level, pte) == Stop
    ensures WalkFrom(ctx, va, t, level, read) == Err(PageFault)
  {
  }

  /** A walk through a level-0 table once every leaf is written. */
  lemma LeafWalk(c: KernelConfig, l: UserLayout, b: BootImage, frames: seq<Word>, m: Memory, k: nat, q: nat, va: Word, ctx: Context)
    requires Creation(c, l, b, frames) && Buildable(c, l, b, frames) && ctx.privilege == User
    requires |Pages(b.image, l)| <= k <= |Built(c, l, b, frames).ptes|
    requires q < |Placing(l, b, frames).slots| && Placing(l, b, frames).slots[q].index == Vpn1(va)
    ensures FollowsPlan(
      WalkFrom(ctx, va, Placing(l, b, frames).slots[q].table, 0, RamReader(c, Mapped(Built(c, l, b, frames), m, k))),
      Pages(b.image, l), frames, va, ctx)
  {
    hide Accepted, CopiesInPage, MegapageConflict, SlotSet, PlaceUpTo, Built, DoPtes, SpaceRun.Copied, PeekEntry, PteStep, RamReader, UserLeaf, Sv32.Vpn0, Sv32.Vpn1, Pages, ValidLayout;
    var s, ps, pl := Built(c, l, b, frames), Pages(b.image, l), Placing(l, b, frames);
    var t, mem, i := pl.slots[q].table, Mapped(s, m, k), Vpn0(va);
    VaSplit(va);
    TablesAreFrames(c, l, b, frames, q);
    FrameInPool(c, l, b, frames, t);
    ReadsEntry(c, l, mem, t, va, 0);
    LeafEntry(c, l, b, frames, m, k, q, i);
    var v := PeekEntry(mem, t, i);
    forall j | 0 <= j < |ps| ensures OnPage(ps[j].va, va) <==> MapsEntry(ps[j], pl.slots[q].index, i) {
      PagesFacts(c, l, b, j);
      SameIndices(ps[j].va, va);
    }
    if j :| 0 <= j < |ps| && MapsEntry(ps[j], pl.slots[q].index, i) && v == UserLeaf(pl.placed[j].frame, ps[j].perms) {
      OnlyPage(c, l, b, j, va);
      PageFrame(c, l, b, frames, j);
      FrameInPool(c, l, b, frames, pl.placed[j].frame);
      PagePerms(c, l, b, j);
      LeafStep(ctx, va, pl.placed[j].frame, ps[j].perms);
    } else {
      ZeroStops(ctx, va, 0);
    }
  }

  lemma ZeroStops(ctx: Context, va: Word, level: nat)
    requires level <= 1
    ensures PteStep(ctx, va, level, 0) == Stop
  {
  }

  lemma PagePerms(c: KernelConfig, l: UserLayout, b: BootImage, j: nat)
    requires ValidLayout(c, l) && Accepted(b, c, l) && j < |Pages(b.image, l)|
    ensures ValidPerms(Pages(b.image, l)[j].perms)
  {
    var segs := SegmentPages(b.image.segments);
    if j < |segs| {
      assert segs[j] in segs;
      var s := SegmentOf(b.image.segments, segs[j]);
      assert PageAccepted(segs[j], s, l, b.fileLen);
    }
  }

  /** At most one page holds an address. */
  lemma OnlyPage(c: KernelConfig, l: UserLayout, b: BootImage, j: nat, va: Word)
    requires ValidLayout(c, l) && Accepted(b, c, l) && !MegapageConflict(b.image, c)
    requires j < |Pages(b.image, l)| && OnPage(Pages(b.image, l)[j].va, va)
    ensures forall k :: 0 <= k < |Pages(b.image, l)| && OnPage(Pages(b.image, l)[k].va, va) ==> k == j
  {
    hide Accepted, MegapageConflict, Pages;
    var ps := Pages(b.image, l);
    PagesFacts(c, l, b, j);
    forall k | 0 <= k < |ps| && OnPage(ps[k].va, va) ensures k == j {
      PagesFacts(c, l, b, k);
      SamePage(ps[j].va, ps[k].va, va);
      if k < j { PagesDistinct(c, l, b, k, j); }
      if j < k { PagesDistinct(c, l, b, j, k); }
    }
  }

  lemma SamePage(a: int, b: int, va: int)
    requires a % PAGE == 0 && b % PAGE == 0 && OnPage(a, va) && OnPage(b, va)
    ensures a == b
  {
  }

  lemma NoPageInSlot(c: KernelConfig, l: UserLayout, b: BootImage, frames: seq<Word>, va: Word, ctx: Context)
    requires Creation(c, l, b, frames)
    requires Vpn1(va) in MegaSlots(c) || forall q :: 0 <= q < |Placing(l, b, frames).slots| ==> Placing(l, b, frames).slots[q].index != Vpn1(va)
    ensures FollowsPlan(Err(PageFault), Pages(b.image, l), frames, va, ctx)
  {
    hide Accepted, CopiesInPage, MegapageConflict, SlotSet, PlaceUpTo, Sv32.Vpn1, Sv32.Vpn0, Pages;
    var ps := Pages(b.image, l);
    forall j | 0 <= j < |ps| ensures !OnPage(ps[j].va, va) {
      PagesFacts(c, l, b, j);
      SameIndices(ps[j].va, va);
      var q := LeafTable(c, l, b, frames, j);
    }
  }

  lemma TopNotZero(c: KernelConfig, slots: seq<Slot>, e: PteWrite, root: Word)
    requires c.ram.base < PHYS_LIMIT && TopEntry(c, slots, e, root)
    ensures e.value != 0
  {
  }

  /** The walk from the root while the PTE writes are under way. */
  function RootWalk(c: KernelConfig, s: Space, m: Memory, k: nat, va: Word, ctx: Context): Result<int, Fault>
    requires k <= |s.ptes|
  {
    WalkFrom(ctx, va, s.root, 1, RamReader(c, Mapped(s, m, k)))
  }

  /** The walk's first step, on the root entry. */
  lemma RootRead(c: KernelConfig, l: UserLayout, b: BootImage, frames: seq<Word>, m: Memory, k: nat, va: Word, ctx: Context)
    requires Creation(c, l, b, frames) && Buildable(c, l, b, frames) && k <= |Built(c, l, b, frames).ptes|
    ensures var s := Built(c, l, b, frames);
      var v := PeekEntry(Mapped(s, m, k), s.root, Vpn1(va));
      var step := PteStep(ctx, va, 1, v);
      && (step.Next? ==> RootWalk(c, s, m, k, va, ctx) == WalkFrom(ctx, va, step.table, 0, RamReader(c, Mapped(s, m, k))))
      && (step.Leaf? ==> RootWalk(c, s, m, k, va, ctx) == Ok(step.pa))
      && (step.Stop? ==> RootWalk(c, s, m, k, va, ctx) == Err(PageFault))
  {
    hide Accepted, CopiesInPage, MegapageConflict, SlotSet, PlaceUpTo, Built, Mapped, PeekEntry, PteStep, RamReader, Pages, ValidLayout;
    var s := Built(c, l, b, frames);
    BuiltIs(c, l, b, frames);
    RootIsApart(c, l, b, frames);
    FrameInPool(c, l, b, frames, s.root);
    ReadsEntry(c, l, Mapped(s, m, k), s.root, va, 1);
  }

  lemma EmptyRootWalk(c: KernelConfig, l: UserLayout, b: BootImage, frames: seq<Word>, m: Memory, k: nat, va: Word, ctx: Context)
    requires Creation(c, l, b, frames) && Buildable(c, l, b, frames) && k <= |Built(c, l, b, frames).ptes|
    requires PeekEntry(Mapped(Built(c, l, b, frames), m, k), Built(c, l, b, frames).root, Vpn1(va)) == 0
    ensures var s := Built(c, l, b, frames);
      && RootWalk(c, s, m, k, va, ctx) == Err(PageFault)
      && (k == |s.ptes| ==> FollowsPlan(Err(PageFault), Pages(b.image, l), frames, va, ctx))
  {
    hide Accepted, CopiesInPage, MegapageConflict, SlotSet, PlaceUpTo, Built, Mapped, PeekEntry, PteStep, RootWalk, FollowsPlan, Sv32.Vpn1, Pages, ValidLayout, TopEntry;
    var s, pl, i := Built(c, l, b, frames), Placing(l, b, frames), Vpn1(va);
    VaSplit(va);
    RootRead(c, l, b, frames, m, k, va, ctx);
    ZeroStops(ctx, va, 1);
    if k == |s.ptes| {
      RootEntry(c, l, b, frames, m, k, i);
      forall q | 0 <= q < |pl.slots| ensures pl.slots[q].index != i {
        if pl.slots[q].index == i {
          var e :| TopEntry(c, pl.slots, e, s.root) && e.index == i && e.value == PeekEntry(Mapped(s, m, k), s.root, i);
          TopNotZero(c, pl.slots, e, s.root);
        }
      }
      NoPageInSlot(c, l, b, frames, va, ctx);
    }
  }

  lemma FullRootWalk(c: KernelConfig, l: UserLayout, b: BootImage, frames: seq<Word>, m: Memory, k: nat, va: Word, ctx: Context, e: PteWrite)
    requires Creation(c, l, b, frames) && Buildable(c, l, b, frames) && ctx.privilege == User
    requires |Pages(b.image, l)| < k <= |Built(c, l, b, frames).ptes|
    requires TopEntry(c, Placing(l, b, frames).slots, e, Built(c, l, b, frames).root) && e.index == Vpn1(va)
    requires PeekEntry(Mapped(Built(c, l, b, frames), m, k), Built(c, l, b, frames).root, Vpn1(va)) == e.value
    ensures FollowsPlan(RootWalk(c, Built(c, l, b, frames), m, k, va, ctx), Pages(b.image, l), frames, va, ctx)
  {
    hide Accepted, CopiesInPage, MegapageConflict, SlotSet, PlaceUpTo, Built, Mapped, PeekEntry, PteStep, RootWalk, FollowsPlan, KernelLeaf, MmioLeaf, TablePte, Sv32.Vpn1, Pages, ValidLayout;
    var pl := Placing(l, b, frames);
    RootRead(c, l, b, frames, m, k, va, ctx);
    if q :| 0 <= q < |pl.slots| && e.index == pl.slots[q].index && e.value == TablePte(pl.slots[q].table) {
      var t := pl.slots[q].table;
      TablesAreFrames(c, l, b, frames, q);
      FrameInPool(c, l, b, frames, t);
      PointerStep(ctx, va, t);
      LeafWalk(c, l, b, frames, m, k, q, va, ctx);
    } else {
      MegaStep(ctx, va, c.ram.base / PAGE);
      MegaStep(ctx, va, MMIO_MEGAPAGE / PAGE);
      NoPageInSlot(c, l, b, frames, va, ctx);
    }
  }

  /** While the PTE writes are under way a walk faults or already has its final result; when they are done it has it. */
  lemma WalkMapped(c: KernelConfig, l: UserLayout, b: BootImage, frames: seq<Word>, m: Memory, k: nat, va: Word, ctx: Context)
    requires Creation(c, l, b, frames) && Buildable(c, l, b, frames) && ctx.privilege == User
    requires k <= |Built(c, l, b, frames).ptes|
    ensures var s := Built(c, l, b, frames);
      var r := RootWalk(c, s, m, k, va, ctx);
      && (r == Err(PageFault) || FollowsPlan(r, Pages(b.image, l), frames, va, ctx))
      && (k == |s.ptes| ==> FollowsPlan(r, Pages(b.image, l), frames, va, ctx))
  {
    hide Accepted, CopiesInPage, MegapageConflict, SlotSet, PlaceUpTo, Built, Mapped, PeekEntry, RootWalk, FollowsPlan, TopEntry, Sv32.Vpn1, Pages, ValidLayout;
    var s, pl, i := Built(c, l, b, frames), Placing(l, b, frames), Vpn1(va);
    VaSplit(va);
    RootEntry(c, l, b, frames, m, k, i);
    if PeekEntry(Mapped(s, m, k), s.root, i) == 0 {
      EmptyRootWalk(c, l, b, frames, m, k, va, ctx);
    } else {
      var e :| TopEntry(c, pl.slots, e, s.root) && e.index == i && e.value == PeekEntry(Mapped(s, m, k), s.root, i);
      FullRootWalk(c, l, b, frames, m, k, va, ctx, e);
    }
  }

  // ----- Copies stay home -----

  /** A copy that reads staging and writes one frame of `fs`, each with one short access. */
  ghost predicate PieceOk(c: KernelConfig, k: Copy, fs: set<int>) {
    && Short(k.src, k.len) && Short(k.dst, k.len) && PageOf(k.dst) in fs
    && c.staging.Has(k.src) && c.staging.Has(k.src + k.len - 1)
  }

  lemma PagePieces(c: KernelConfig, p: PagePlan, f: Word, staged: Word, fs: set<int>)
    requires f as int in fs
    requires p.copy.Some? ==> p.copy.value.pageOffset + p.copy.value.len <= PAGE
    requires p.copy.Some? ==> forall y :: staged + p.copy.value.fileOffset <= y < staged + p.copy.value.fileOffset + p.copy.value.len ==> c.staging.Has(y)
    ensures forall i :: 0 <= i < |PageCopies(p, f, staged)| ==> PieceOk(c, PageCopies(p, f, staged)[i], fs)
  {
    hide SplitCopy, Short;
    if p.copy.Some? {
      var k := p.copy.value;
      SplitCopyPieces(staged + k.fileOffset, f * PAGE + k.pageOffset, k.len);
      var cs := PageCopies(p, f, staged);
      forall i | 0 <= i < |cs| ensures PieceOk(c, cs[i], fs) {
        ShortLen(cs[i].dst, cs[i].len);
        PageSplit(cs[i].dst, f, cs[i].dst - PAGE * f);
      }
    }
  }

  lemma ShortLen(a: int, n: int)
    requires Short(a, n)
    ensures 1 <= n <= MAX_ACCESS
  {
  }

  /** Every copy of the first `i` pages reads staging and writes a page frame. */
  lemma {:induction false} CopyPieces(c: KernelConfig, l: UserLayout, b: BootImage, frames: seq<Word>, i: nat, fs: set<int>)
    requires Creation(c, l, b, frames) && i <= |Pages(b.image, l)| && FramesUsed(Pages(b.image, l), i) <= |frames|
    requires forall j :: 0 <= j < |Placing(l, b, frames).placed| ==> Placing(l, b, frames).placed[j].frame as int in fs
    ensures var cs := PlaceUpTo(Pages(b.image, l), frames, b.staged, i).copies;
      forall k :: 0 <= k < |cs| ==> PieceOk(c, cs[k], fs)
  {
    hide Accepted, CopiesInPage, MegapageConflict, FramesUsed, PlaceUpTo, Place, PieceOk, PageCopies, Room, Pages;
    var ps := Pages(b.image, l);
    if i == 0 {
      CreationBuildable(c, l, b, frames);
      BuiltIs(c, l, b, frames);
      PlaceNoCopies(ps, frames, b.staged);
    } else {
      PlaceNext(ps, frames, b.staged, i - 1);
      CopyPieces(c, l, b, frames, i - 1, fs);
      var pl, p := PlaceUpTo(ps, frames, b.staged, i - 1), ps[i - 1];
      PlaceCopies(pl, p, frames, b.staged);
      var f := frames[FrameNo(ps, i - 1)];
      PageFrame(c, l, b, frames, i - 1);
      OwnFrame(c, l, b, frames, i - 1);
      if p.copy.Some? {
        CopyRanges(c, l, b, i - 1);
      }
      PagePieces(c, p, f, b.staged, fs);
    }
  }

  lemma OwnFrame(c: KernelConfig, l: UserLayout, b: BootImage, frames: seq<Word>, i: nat)
    requires Creation(c, l, b, frames) && i < |Pages(b.image, l)| && FramesUsed(Pages(b.image, l), i + 1) <= |frames|
    ensures var r := PlaceUpTo(Pages(b.image, l), frames, b.staged, i + 1);
      |r.placed| == i + 1 && r.placed[i].frame == frames[FrameNo(Pages(b.image, l), i)]
  {
    hide PlaceUpTo, Accepted, CopiesInPage, MegapageConflict, Pages;
    PlacedFrame(Pages(b.image, l), frames, b.staged, i + 1, i);
  }
}
