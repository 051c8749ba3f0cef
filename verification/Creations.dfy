/** The main theorems about a creation: its accesses are run over any memory, at every step and to the end. */
module Creations {
  import opened Words
  import opened Memory
  import opened Core
  import opened Config
  import opened Image
  import opened Space
  import opened SpaceRun
  import opened SpaceExact
  import opened SpaceWalk
  import opened Sv32

  /** What the CPU's walk gives for `va` after `n` accesses of the creation. */
  function WalkAt(c: KernelConfig, s: Space, m: Memory, n: nat, va: Word, ctx: Context): Result<int, Fault>
    requires n <= Steps(s)
  {
    Translated(Satp(s.root), ctx, va, RamReader(c, After(s, m, n).mem))
  }

  lemma WalkAtIsRootWalk(c: KernelConfig, l: UserLayout, b: BootImage, frames: seq<Word>, m: Memory, k: nat, va: Word, ctx: Context)
    requires Creation(c, l, b, frames) && Buildable(c, l, b, frames) && ctx.privilege == User
    requires k <= |Built(c, l, b, frames).ptes|
    ensures var s := Built(c, l, b, frames);
      WalkAt(c, s, m, CopyEnd(s) + k, va, ctx) == RootWalk(c, s, m, k, va, ctx)
  {
    hide Creation, Buildable, Built, After, DoPtes, SpaceRun.Copied, WalkFrom, RamReader;
    var s := Built(c, l, b, frames);
    BuiltIs(c, l, b, frames);
    RootOfSatp(c, l, b, frames);
    PteRun(s, m, k);
  }

  lemma RootOfSatp(c: KernelConfig, l: UserLayout, b: BootImage, frames: seq<Word>)
    requires Creation(c, l, b, frames) && Buildable(c, l, b, frames)
    ensures Root(Satp(Built(c, l, b, frames).root)) == Built(c, l, b, frames).root
  {
    hide Accepted, CopiesInPage, MegapageConflict, SlotSet, PlaceUpTo, Built, Pages, ValidLayout;
    BuiltIs(c, l, b, frames);
    FrameInPool(c, l, b, frames, frames[0]);
  }

  /** Build, then walk: after all the accesses, over any initial memory, a U-mode access to any 32-bit address gets its
      page's frame and the offset exactly when a planned page grants it, and a page fault otherwise. */
  lemma BuildThenWalk(c: KernelConfig, l: UserLayout, b: BootImage, frames: seq<Word>, m: Memory, va: Word, ctx: Context)
    requires Creation(c, l, b, frames) && ctx.privilege == User
    ensures Buildable(c, l, b, frames)
    ensures var s := Built(c, l, b, frames);
      FollowsPlan(WalkAt(c, s, m, Steps(s), va, ctx), Pages(b.image, l), frames, va, ctx)
  {
    hide Creation, Buildable, Built, WalkAt, RootWalk, FollowsPlan;
    CreationBuildable(c, l, b, frames);
    var s := Built(c, l, b, frames);
    WalkMapped(c, l, b, frames, m, |s.ptes|, va, ctx);
    WalkAtIsRootWalk(c, l, b, frames, m, |s.ptes|, va, ctx);
  }

  // ----- Contents -----

  lemma NoFrameIsATable(c: KernelConfig, l: UserLayout, b: BootImage, frames: seq<Word>, k: nat, x: int)
    requires Creation(c, l, b, frames) && Buildable(c, l, b, frames) && k < |Built(c, l, b, frames).ptes|
    requires Built(c, l, b, frames).ptes[k].table == PageOf(x)
    ensures PageOf(x) in FrameSet(Built(c, l, b, frames))
    ensures |Placing(l, b, frames).placed| == |Pages(b.image, l)|
    ensures forall j :: 0 <= j < |Pages(b.image, l)| ==> Placing(l, b, frames).placed[j].frame != PageOf(x)
  {
    hide Accepted, CopiesInPage, MegapageConflict, SlotSet, PlaceUpTo, Built, Pages, ValidLayout, Sv32.Vpn0, UserLeaf;
    var s, pl := Built(c, l, b, frames), Placing(l, b, frames);
    PteKind(c, l, b, frames, k);
    PlacedCount(c, l, b, frames);
    BuiltIs(c, l, b, frames);
    if k < |Pages(b.image, l)| {
      var q := LeafTable(c, l, b, frames, k);
      TablesAreFrames(c, l, b, frames, q);
    } else {
      RootIsApart(c, l, b, frames);
    }
  }

  /** Byte `x` after the copies is still there after any number of PTE writes, unless it is in a table. */
  lemma MappedKeeps(c: KernelConfig, l: UserLayout, b: BootImage, frames: seq<Word>, m: Memory, k: nat, x: int)
    requires Creation(c, l, b, frames) && Buildable(c, l, b, frames) && k <= |Built(c, l, b, frames).ptes|
    requires
      || PageOf(x) !in FrameSet(Built(c, l, b, frames))
      || exists j :: 0 <= j < |Placing(l, b, frames).placed| && Placing(l, b, frames).placed[j].frame == PageOf(x)
    ensures var s := Built(c, l, b, frames); Peek(Mapped(s, m, k), x) == Peek(SpaceRun.Copied(s, m), x)
  {
    hide Accepted, CopiesInPage, MegapageConflict, SlotSet, PlaceUpTo, Built, Pages, ValidLayout, FrameSet, DoPtes, SpaceRun.Copied;
    var s := Built(c, l, b, frames);
    PtesInRange(c, l, b, frames);
    PlacedCount(c, l, b, frames);
    forall i | 0 <= i < k ensures s.ptes[..k][i].table != PageOf(x) {
      if s.ptes[i].table == PageOf(x) {
        NoFrameIsATable(c, l, b, frames, i, x);
      }
    }
    PtesStayInTables(SpaceRun.Copied(s, m), s.ptes[..k], x);
  }

  /** Frame contents follow the plan: the file bytes at their offsets and zeros elsewhere, in every page's own frame. */
  ghost predicate HoldsPlan(m0: Memory, m: Memory, ps: seq<PagePlan>, frames: seq<Word>, staged: Word)
    requires FramesUsed(ps, |ps|) == |frames|
  {
    forall x, j :: (0 <= j < |ps| && FrameNo(ps, j) < |frames| && frames[FrameNo(ps, j)] == PageOf(x)
                    ==> Peek(m, x) == PlannedByte(ps[j], staged, m0, x % PAGE))
  }

  lemma ContentsByte(c: KernelConfig, l: UserLayout, b: BootImage, frames: seq<Word>, m: Memory, k: nat, j: nat, x: int)
    requires Creation(c, l, b, frames) && Buildable(c, l, b, frames) && k <= |Built(c, l, b, frames).ptes|
    requires j < |Pages(b.image, l)| && FrameNo(Pages(b.image, l), j) < |frames|
    requires frames[FrameNo(Pages(b.image, l), j)] == PageOf(x)
    ensures Peek(Mapped(Built(c, l, b, frames), m, k), x) == PlannedByte(Pages(b.image, l)[j], b.staged, m, x % PAGE)
  {
    hide Accepted, CopiesInPage, MegapageConflict, FramesUsed, PlaceUpTo, Built, Pages, ValidLayout, Mapped, SpaceRun.Copied, PlannedByte, PageOf, FrameSet, Buildable;
    PageFrame(c, l, b, frames, j);
    CopiedBytes(c, l, b, frames, m, x);
    MappedKeeps(c, l, b, frames, m, k, x);
  }

  lemma MappedHoldsPlan(c: KernelConfig, l: UserLayout, b: BootImage, frames: seq<Word>, m: Memory, k: nat)
    requires Creation(c, l, b, frames) && Buildable(c, l, b, frames) && k <= |Built(c, l, b, frames).ptes|
    ensures HoldsPlan(m, Mapped(Built(c, l, b, frames), m, k), Pages(b.image, l), frames, b.staged)
  {
    hide Creation, Built, Pages, Mapped, PlannedByte, PageOf, SlotSet;
    var s, ps := Built(c, l, b, frames), Pages(b.image, l);
    forall x, j | 0 <= j < |ps| && FrameNo(ps, j) < |frames| && frames[FrameNo(ps, j)] == PageOf(x)
      ensures Peek(Mapped(s, m, k), x) == PlannedByte(ps[j], b.staged, m, x % PAGE)
    {
      ContentsByte(c, l, b, frames, m, k, j, x);
    }
  }

  /** Once the copies are made every page frame holds exactly its planned bytes. */
  lemma Contents(c: KernelConfig, l: UserLayout, b: BootImage, frames: seq<Word>, m: Memory, n: nat)
    requires Creation(c, l, b, frames)
    ensures Buildable(c, l, b, frames)
    ensures var s := Built(c, l, b, frames);
      CopyEnd(s) <= n <= Steps(s) ==> HoldsPlan(m, After(s, m, n).mem, Pages(b.image, l), frames, b.staged)
  {
    hide Creation, Buildable, Built, HoldsPlan, After, DoPtes, SpaceRun.Copied, ByIndex, SortByIndex, TopEntries, PlaceUpTo, Pages, FramesUsed, FrameSet;
    CreationBuildable(c, l, b, frames);
    BuiltIs(c, l, b, frames);
    var s := Built(c, l, b, frames);
    if CopyEnd(s) <= n <= Steps(s) {
      PteRun(s, m, n - CopyEnd(s));
      MappedHoldsPlan(c, l, b, frames, m, n - CopyEnd(s));
    }
  }

  // ----- The copy phase -----

  ghost predicate WritesIn(cs: seq<Copy>, fs: set<int>) {
    forall i :: 0 <= i < |cs| ==> Short(cs[i].dst, cs[i].len) && PageOf(cs[i].dst) in fs
  }

  lemma {:induction false} CopiesAway(m: Memory, cs: seq<Copy>, fs: set<int>, x: int)
    requires WritesIn(cs, fs) && PageOf(x) !in fs
    ensures Peek(DoCopies(m, cs), x) == Peek(m, x)
  {
    hide Short, PageOf;
    if cs != [] {
      var n := |cs| - 1;
      assert forall i :: 0 <= i < n ==> cs[..n][i] == cs[i];
      CopiesAway(m, cs[..n], fs, x);
      if cs[n].dst <= x < cs[n].dst + cs[n].len {
        ShortSpan(cs[n].dst, cs[n].len, x);
      }
    }
  }

  lemma WritesInPrefix(cs: seq<Copy>, fs: set<int>, n: nat)
    requires WritesIn(cs, fs) && n <= |cs|
    ensures WritesIn(cs[..n], fs)
  {
  }

  /** A short access stays in its page. */
  lemma ShortSpan(a: int, n: int, x: int)
    requires Short(a, n) && a <= x < a + n
    ensures PageOf(x) == PageOf(a)
  {
  }

  /** The frames the pages got. */
  ghost function PageFrames(l: UserLayout, b: BootImage, frames: seq<Word>): set<int>
    requires l.StackBase().Some? && |frames| == FramesNeeded(b.image, l)
  {
    set j | 0 <= j < |Placing(l, b, frames).placed| :: Placing(l, b, frames).placed[j].frame as int
  }

  lemma CreationWrites(c: KernelConfig, l: UserLayout, b: BootImage, frames: seq<Word>)
    requires Creation(c, l, b, frames) && Buildable(c, l, b, frames)
    ensures var cs, fs := Built(c, l, b, frames).copies, PageFrames(l, b, frames);
      WritesIn(cs, fs) && forall k :: 0 <= k < |cs| ==> PieceOk(c, cs[k], fs)
  {
    hide Accepted, CopiesInPage, MegapageConflict, SlotSet, PlaceUpTo, Built, Pages, ValidLayout, Short, PageOf;
    BuiltIs(c, l, b, frames);
    var ps := Pages(b.image, l);
    CopyPieces(c, l, b, frames, |ps|, PageFrames(l, b, frames));
    assert Placing(l, b, frames) == PlaceUpTo(ps, frames, b.staged, |ps|);
  }

  /** Within the copy phase, memory is the zeroed memory with the finished copies made. */
  lemma CopyPhase(s: Space, m: Memory, n: nat)
    requires ZeroSteps(s) <= n <= CopyEnd(s) && s.ptes != []
    ensures var done := (n - ZeroSteps(s)) / 2;
      done <= |s.copies| && After(s, m, n).mem == DoCopies(After(s, m, ZeroSteps(s)).mem, s.copies[..done])
  {
    hide After, Advance, DoCopies;
    var done := (n - ZeroSteps(s)) / 2;
    CopyRun(s, m, done);
    if n == CopyAt(s, done) + 1 {
      ReadStep(s, After(s, m, CopyAt(s, done)), done);
      AfterOne(s, m, CopyAt(s, done));
    }
  }

  /** A byte in no page frame is as zeroing left it throughout the copy phase. */
  lemma CopyPhaseAway(c: KernelConfig, l: UserLayout, b: BootImage, frames: seq<Word>, m: Memory, n: nat, x: int)
    requires Creation(c, l, b, frames) && Buildable(c, l, b, frames) && PageOf(x) !in PageFrames(l, b, frames)
    ensures var s := Built(c, l, b, frames);
      ZeroSteps(s) <= n <= CopyEnd(s) ==>
        Peek(After(s, m, n).mem, x) == if PageOf(x) in FrameSet(s) then 0 else Peek(m, x)
  {
    hide Creation, FramesNeeded, Built, After, DoCopies, PageFrames, FrameSet, PageOf, PieceOk, WritesIn;
    var s := Built(c, l, b, frames);
    if ZeroSteps(s) <= n <= CopyEnd(s) {
      BuiltIs(c, l, b, frames);
      CreationWrites(c, l, b, frames);
      CopyPhase(s, m, n);
      ZeroDone(s, m);
      WritesInPrefix(s.copies, PageFrames(l, b, frames), (n - ZeroSteps(s)) / 2);
      CopiesAway(After(s, m, ZeroSteps(s)).mem, s.copies[..(n - ZeroSteps(s)) / 2], PageFrames(l, b, frames), x);
    }
  }

  lemma PageFramesAre(c: KernelConfig, l: UserLayout, b: BootImage, frames: seq<Word>)
    requires Creation(c, l, b, frames) && Buildable(c, l, b, frames)
    ensures PageFrames(l, b, frames) <= FrameSet(Built(c, l, b, frames))
    ensures Built(c, l, b, frames).root as int in FrameSet(Built(c, l, b, frames)) - PageFrames(l, b, frames)
  {
    hide Accepted, CopiesInPage, MegapageConflict, SlotSet, PlaceUpTo, Built, Pages, ValidLayout;
    BuiltIs(c, l, b, frames);
    RootIsApart(c, l, b, frames);
    PlacedCount(c, l, b, frames);
    forall j | 0 <= j < |Placing(l, b, frames).placed|
      ensures Placing(l, b, frames).placed[j].frame as int in FrameSet(Built(c, l, b, frames))
    {
      PageFrame(c, l, b, frames, j);
    }
  }

  /** No access of a creation, at any step, changes a byte outside its own frames. */
  lemma OutsideUntouched(c: KernelConfig, l: UserLayout, b: BootImage, frames: seq<Word>, m: Memory, n: nat, x: int)
    requires Creation(c, l, b, frames)
    ensures Buildable(c, l, b, frames)
    ensures var s := Built(c, l, b, frames);
      n <= Steps(s) && PageOf(x) !in FrameSet(s) ==> Peek(After(s, m, n).mem, x) == Peek(m, x)
  {
    hide Creation, Buildable, Built, After, PageFrames, FrameSet, PageOf, SpaceRun.Copied, DoPtes, Zeroed, ByIndex, SortByIndex, TopEntries, PlaceUpTo, Pages;
    CreationBuildable(c, l, b, frames);
    BuiltIs(c, l, b, frames);
    var s := Built(c, l, b, frames);
    if n <= Steps(s) && PageOf(x) !in FrameSet(s) {
      if n <= ZeroSteps(s) {
        ZeroRun(s, m, n);
        NotZeroed(s, n, x);
      } else if n <= CopyEnd(s) {
        PageFramesAre(c, l, b, frames);
        CopyPhaseAway(c, l, b, frames, m, n, x);
      } else {
        PteRun(s, m, n - CopyEnd(s));
        MappedKeeps(c, l, b, frames, m, n - CopyEnd(s), x);
        CopiedOutside(c, l, b, frames, m, x);
      }
    }
  }

  lemma CopiedOutside(c: KernelConfig, l: UserLayout, b: BootImage, frames: seq<Word>, m: Memory, x: int)
    requires Creation(c, l, b, frames) && Buildable(c, l, b, frames) && PageOf(x) !in FrameSet(Built(c, l, b, frames))
    ensures Peek(SpaceRun.Copied(Built(c, l, b, frames), m), x) == Peek(m, x)
  {
    hide Creation, Buildable, Built, SpaceRun.Copied;
    CopiedBytes(c, l, b, frames, m, x);
  }

  lemma NotZeroed(s: Space, n: nat, x: int)
    requires n <= ZeroSteps(s) && PageOf(x) !in FrameSet(s)
    ensures !Zeroed(s, n, x)
  {
    hide ZeroAt;
    ZeroCovers(s, x);
  }

  // ----- Safe at every step -----

  /** Until the first PTE write the root table is zero. */
  lemma RootStartsZero(c: KernelConfig, l: UserLayout, b: BootImage, frames: seq<Word>, m: Memory, n: nat, i: int)
    requires Creation(c, l, b, frames) && Buildable(c, l, b, frames) && EntryIndex(i)
    ensures var s := Built(c, l, b, frames);
      ZeroSteps(s) <= n <= CopyEnd(s) ==> PeekEntry(After(s, m, n).mem, s.root, i) == 0
  {
    hide Creation, Buildable, Built, After, PageOf, EntryAt, PageFrames, FrameSet;
    var s := Built(c, l, b, frames);
    var t, a := s.root, EntryAt(s.root, i);
    PageFramesAre(c, l, b, frames);
    EntryPage(t, i, 0);
    EntryPage(t, i, 1);
    EntryPage(t, i, 2);
    EntryPage(t, i, 3);
    CopyPhaseAway(c, l, b, frames, m, n, a + 0);
    CopyPhaseAway(c, l, b, frames, m, n, a + 1);
    CopyPhaseAway(c, l, b, frames, m, n, a + 2);
    CopyPhaseAway(c, l, b, frames, m, n, a + 3);
    if ZeroSteps(s) <= n <= CopyEnd(s) {
      ZeroEntry(After(s, m, n).mem, a);
    }
  }

  /** Until the first PTE write every U-mode walk faults. */
  lemma CopyPhaseFaults(c: KernelConfig, l: UserLayout, b: BootImage, frames: seq<Word>, m: Memory, n: nat, va: Word, ctx: Context)
    requires Creation(c, l, b, frames) && Buildable(c, l, b, frames) && ctx.privilege == User
    ensures var s := Built(c, l, b, frames);
      ZeroSteps(s) <= n <= CopyEnd(s) ==> WalkAt(c, s, m, n, va, ctx) == Err(PageFault)
  {
    hide Accepted, CopiesInPage, MegapageConflict, SlotSet, PlaceUpTo, Built, Pages, ValidLayout, After, PeekEntry, PteStep, WalkFrom, Sv32.Vpn1, RamReader;
    var s := Built(c, l, b, frames);
    if ZeroSteps(s) <= n <= CopyEnd(s) {
      BuiltIs(c, l, b, frames);
      RootOfSatp(c, l, b, frames);
      VaSplit(va);
      RootStartsZero(c, l, b, frames, m, n, Vpn1(va));
      FrameInPool(c, l, b, frames, s.root);
      ReadsEntry(c, l, After(s, m, n).mem, s.root, va, 1);
      ZeroStops(ctx, va, 1);
      WalkStops(ctx, va, s.root, 1, RamReader(c, After(s, m, n).mem), 0);
    }
  }

  /** A walk's result at step `n` is a fault, or the final translation to a frame that has its final contents. */
  ghost predicate SafeAt(c: KernelConfig, s: Space, m: Memory, n: nat, va: Word, ctx: Context)
    requires n <= Steps(s)
  {
    var r := WalkAt(c, s, m, n, va, ctx);
    || r == Err(PageFault)
    || (r.Ok? && r == WalkAt(c, s, m, Steps(s), va, ctx)
        && forall x :: PageOf(x) == PageOf(r.value) ==> Peek(After(s, m, n).mem, x) == Peek(After(s, m, Steps(s)).mem, x))
  }

  lemma PlanDecides(ps: seq<PagePlan>, frames: seq<Word>, va: Word, ctx: Context, r: Result<int, Fault>, t: Result<int, Fault>) returns (j: nat)
    requires FramesUsed(ps, |ps|) == |frames| && FollowsPlan(r, ps, frames, va, ctx) && FollowsPlan(t, ps, frames, va, ctx)
    ensures r == t
    ensures r != Err(PageFault) ==> r.Ok? && j < |ps| && FrameNo(ps, j) < |frames| && frames[FrameNo(ps, j)] == PageOf(r.value)
  {
    hide FramesUsed, Allows;
    if i :| 0 <= i < |ps| && Grants(ps[i], va, ctx) {
      j := i;
      PageSplit(r.value, frames[FrameNo(ps, j)], va % PAGE);
    } else {
      j := 0;
    }
  }

  /** From the end of the zeroing on, at every step, a U-mode walk faults or gives its final translation, to a frame
      that already holds its final contents. */
  lemma CreationSafe(c: KernelConfig, l: UserLayout, b: BootImage, frames: seq<Word>, m: Memory, n: nat, va: Word, ctx: Context)
    requires Creation(c, l, b, frames) && ctx.privilege == User
    ensures Buildable(c, l, b, frames)
    ensures var s := Built(c, l, b, frames); ZeroSteps(s) <= n <= Steps(s) ==> SafeAt(c, s, m, n, va, ctx)
  {
    hide Accepted, CopiesInPage, MegapageConflict, SlotSet, ValidLayout, Built, Pages, After, WalkAt, RootWalk, FollowsPlan, PageOf, HoldsPlan, Buildable;
    CreationBuildable(c, l, b, frames);
    var s, ps := Built(c, l, b, frames), Pages(b.image, l);
    if ZeroSteps(s) <= n <= CopyEnd(s) {
      CopyPhaseFaults(c, l, b, frames, m, n, va, ctx);
    } else if CopyEnd(s) < n <= Steps(s) && WalkAt(c, s, m, n, va, ctx) != Err(PageFault) {
      var k := n - CopyEnd(s);
      WalkAtIsRootWalk(c, l, b, frames, m, k, va, ctx);
      WalkMapped(c, l, b, frames, m, k, va, ctx);
      BuildThenWalk(c, l, b, frames, m, va, ctx);
      var r := WalkAt(c, s, m, n, va, ctx);
      var j := PlanDecides(ps, frames, va, ctx, r, WalkAt(c, s, m, Steps(s), va, ctx));
      Contents(c, l, b, frames, m, n);
      Contents(c, l, b, frames, m, Steps(s));
      SamePlan(m, After(s, m, n).mem, After(s, m, Steps(s)).mem, ps, frames, b.staged, j);
    }
  }

  lemma SamePlan(m0: Memory, m: Memory, w: Memory, ps: seq<PagePlan>, frames: seq<Word>, staged: Word, j: nat)
    requires FramesUsed(ps, |ps|) == |frames| && j < |ps| && FrameNo(ps, j) < |frames|
    requires HoldsPlan(m0, m, ps, frames, staged) && HoldsPlan(m0, w, ps, frames, staged)
    ensures forall x :: PageOf(x) == frames[FrameNo(ps, j)] ==> Peek(m, x) == Peek(w, x)
  {
    hide FramesUsed, PageOf, PlannedByte;
  }

  /** `frames_needed` is exact: the builder takes every frame it is given, in the order given, each once, as the root,
      a table or a page of a region. */
  lemma FramesExact(c: KernelConfig, l: UserLayout, b: BootImage, frames: seq<Word>)
    requires Buildable(c, l, b, frames) && Ascending(frames)
    ensures var s := Built(c, l, b, frames);
      && s.frames == frames && s.tables != [] && s.tables[0] == s.root && s.regions != [] && s.ptes != []
      && multiset(s.tables + RegionFrames(s.regions)) == multiset(frames)
      && |RegionFrames(s.regions)| == |Pages(b.image, l)|
  {
    hide SlotSet, PlaceUpTo, Pages, SortByIndex, TablesOf, FramesOf, Regions, RegionFrames;
    PlacingFacts(l, b, frames);
    var pl := Placing(l, b, frames);
    EnoughPages(l, b);
    RegionsHoldFrames(b.image, l, FramesOf(pl.placed));
    RegionsNotEmpty(b.image, l, FramesOf(pl.placed));
    TopNotEmpty(c, frames[0], pl.slots);
    assert pl == PlaceUpTo(Pages(b.image, l), frames, b.staged, |Pages(b.image, l)|);
  }

  lemma RegionsNotEmpty(image: UserImage, l: UserLayout, frames: seq<Word>)
    requires |frames| >= |SegmentPages(image.segments)|
    requires forall s :: s in image.segments ==> s.pages != []
    ensures Regions(image, l, frames) != []
  {
  }

  lemma TopNotEmpty(c: KernelConfig, root: Word, slots: seq<Slot>)
    requires c.ram.base < PHYS_LIMIT
    ensures SortByIndex(TopEntries(c, root, slots)) != []
  {
    hide SortByIndex;
    var top := TopEntries(c, root, slots);
    assert |multiset(SortByIndex(top))| == |top|;
  }

  lemma EnoughPages(l: UserLayout, b: BootImage)
    requires l.StackBase().Some?
    ensures |Pages(b.image, l)| >= |SegmentPages(b.image.segments)|
  {
  }
}
