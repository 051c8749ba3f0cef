/** A process's page tables: a walk reads nothing else, a U-mode access reaches none of them, and a creation's accesses
    write them the same whatever the rest of memory holds. */
module SpaceTables {
  import opened Words
  import opened Memory
  import opened Core
  import opened Config
  import opened Image
  import opened Space
  import opened SpaceRun
  import opened SpaceExact
  import opened SpaceWalk
  import opened Creations
  import opened Sv32

  /** The frames that hold page tables. */
  function TableSet(s: Space): set<int> {
    set i | 0 <= i < |s.tables| :: s.tables[i] as int
  }

  /** The tables hold what the first `n` accesses of the creation leave in them, over some memory. */
  ghost predicate TablesAt(mem: Memory, s: Space, n: nat)
    requires n <= Steps(s)
  {
    exists m0: Memory :: SameOn(mem, After(s, m0, n).mem, TableSet(s))
  }

  lemma TableSetIs(c: KernelConfig, l: UserLayout, b: BootImage, frames: seq<Word>)
    requires Creation(c, l, b, frames) && Buildable(c, l, b, frames)
    ensures var s, pl := Built(c, l, b, frames), Placing(l, b, frames);
      && s.root as int in TableSet(s) && TableSet(s) <= FrameSet(s) && TableSet(s) !! PageFrames(l, b, frames)
      && (forall q :: 0 <= q < |pl.slots| ==> pl.slots[q].table as int in TableSet(s))
      && (forall t :: t in TableSet(s) ==> t in FrameSet(s) && InPool(c, t))
  {
    hide Accepted, CopiesInPage, MegapageConflict, SlotSet, PlaceUpTo, Built, Pages, ValidLayout, TablesOf, InPool, TableFrame;
    BuiltIs(c, l, b, frames);
    var s, pl := Built(c, l, b, frames), Placing(l, b, frames);
    assert s.tables[0] == s.root;
    forall i | 0 <= i < |s.tables| ensures s.tables[i] as int in FrameSet(s) && s.tables[i] as int !in PageFrames(l, b, frames) {
      TableIsFrame(c, l, b, frames, i);
    }
    forall q | 0 <= q < |pl.slots| ensures s.tables[q + 1] == pl.slots[q].table {
      TableAt(pl.slots, q);
    }
  }

  lemma TableIsFrame(c: KernelConfig, l: UserLayout, b: BootImage, frames: seq<Word>, i: nat)
    requires Creation(c, l, b, frames) && Buildable(c, l, b, frames) && i < |Built(c, l, b, frames).tables|
    ensures var s := Built(c, l, b, frames);
      s.tables[i] as int in FrameSet(s) && s.tables[i] as int !in PageFrames(l, b, frames)
  {
    hide Accepted, CopiesInPage, MegapageConflict, SlotSet, PlaceUpTo, Built, Pages, ValidLayout, TablesOf, InPool;
    BuiltIs(c, l, b, frames);
    if i == 0 {
      RootIsApart(c, l, b, frames);
    } else {
      TableAt(Placing(l, b, frames).slots, i - 1);
      TablesAreFrames(c, l, b, frames, i - 1);
    }
  }

  // ----- A walk reads only the tables -----

  /** A walk depends on the two entries it reads. */
  lemma WalkLocal(ctx: Context, va: Word, root: Word, a: Reader, b: Reader)
    requires a(PteAddress(root, va, 1)) == b(PteAddress(root, va, 1)) && a(PteAddress(root, va, 1)).Some?
    requires var s := PteStep(ctx, va, 1, a(PteAddress(root, va, 1)).value);
      s.Next? ==> a(PteAddress(s.table, va, 0)) == b(PteAddress(s.table, va, 0))
    ensures WalkFrom(ctx, va, root, 1, a) == WalkFrom(ctx, va, root, 1, b)
  {
    hide PteStep;
  }

  /** The reader gives the entry of a pool frame. */
  lemma SameEntry(c: KernelConfig, l: UserLayout, m: Memory, n: Memory, t: Word, va: Word, level: nat, ts: set<int>)
    requires ValidLayout(c, l) && InPool(c, t) && level <= 1 && t as int in ts && SameOn(m, n, ts)
    ensures RamReader(c, m)(PteAddress(t, va, level)) == RamReader(c, n)(PteAddress(t, va, level))
    ensures RamReader(c, m)(PteAddress(t, va, level)).Some?
  {
    hide ValidLayout, InPool, RamReader, SameOn, PteAddress, PeekEntry, Vpn1, Vpn0;
    VaSplit(va);
    var i := if level == 1 then Vpn1(va) else Vpn0(va);
    ReadsEntry(c, l, m, t, va, level);
    ReadsEntry(c, l, n, t, va, level);
    EntryInPage(m, n, t, i, ts);
  }

  /** A pointer in the finished root leads to a level-0 table of the space. */
  lemma RootPointer(c: KernelConfig, l: UserLayout, b: BootImage, frames: seq<Word>, m: Memory, va: Word, ctx: Context)
    requires Creation(c, l, b, frames) && Buildable(c, l, b, frames) && ctx.privilege == User
    ensures var s := Built(c, l, b, frames);
      var step := PteStep(ctx, va, 1, PeekEntry(Mapped(s, m, |s.ptes|), s.root, Vpn1(va)));
      step.Next? ==> step.table as int in TableSet(s) && Lookup(s.slots, Vpn1(va)) == Some(step.table)
  {
    hide Accepted, CopiesInPage, MegapageConflict, SlotSet, PlaceUpTo, Built, Mapped, PeekEntry, PteStep, Sv32.Vpn1, Pages, ValidLayout, TableSet, TablePte, KernelLeaf, MmioLeaf, FrameSet, PageFrames, InPool;
    var s, pl, i := Built(c, l, b, frames), Placing(l, b, frames), Vpn1(va);
    var v := PeekEntry(Mapped(s, m, |s.ptes|), s.root, i);
    VaSplit(va);
    RootEntry(c, l, b, frames, m, |s.ptes|, i);
    TableSetIs(c, l, b, frames);
    if v == 0 {
      ZeroStops(ctx, va, 1);
    } else {
      var e :| TopEntry(c, pl.slots, e, s.root) && e.index == i && e.value == v;
      if q :| 0 <= q < |pl.slots| && e.index == pl.slots[q].index && e.value == TablePte(pl.slots[q].table) {
        TablesAreFrames(c, l, b, frames, q);
        SlotPointer(c, l, b, frames, q, va, ctx);
        SlotLookup(c, l, b, frames, q);
      } else {
        MegaStep(ctx, va, c.ram.base / PAGE);
        MegaStep(ctx, va, MMIO_MEGAPAGE / PAGE);
      }
    }
  }

  lemma SlotLookup(c: KernelConfig, l: UserLayout, b: BootImage, frames: seq<Word>, q: nat)
    requires Creation(c, l, b, frames) && Buildable(c, l, b, frames) && q < |Placing(l, b, frames).slots|
    ensures Built(c, l, b, frames).slots == Placing(l, b, frames).slots
    ensures var slots := Placing(l, b, frames).slots; Lookup(slots, slots[q].index) == Some(slots[q].table)
  {
    hide Accepted, CopiesInPage, MegapageConflict, SlotSet, PlaceUpTo, Pages, ValidLayout, SortByIndex, TopEntries, Regions;
    PlacingFacts(l, b, frames);
    LookupAt(Placing(l, b, frames).slots, q);
  }

  lemma SlotPointer(c: KernelConfig, l: UserLayout, b: BootImage, frames: seq<Word>, q: nat, va: Word, ctx: Context)
    requires Creation(c, l, b, frames) && q < |Placing(l, b, frames).slots|
    ensures var t := Placing(l, b, frames).slots[q].table; PteStep(ctx, va, 1, TablePte(t)) == Next(t)
  {
    hide Accepted, CopiesInPage, MegapageConflict, SlotSet, PlaceUpTo, Pages, PteStep, TablePte;
    TablesAreFrames(c, l, b, frames, q);
    FrameInPool(c, l, b, frames, Placing(l, b, frames).slots[q].table);
    PointerStep(ctx, va, Placing(l, b, frames).slots[q].table);
  }

  /** With its tables as the creation left them, a process's translations follow its plan, whatever else memory holds. */
  lemma TablesDecide(c: KernelConfig, l: UserLayout, b: BootImage, frames: seq<Word>, mem: Memory, va: Word, ctx: Context)
    requires Creation(c, l, b, frames) && Buildable(c, l, b, frames) && ctx.privilege == User
    requires TablesAt(mem, Built(c, l, b, frames), Steps(Built(c, l, b, frames)))
    ensures FollowsPlan(Translated(Satp(Built(c, l, b, frames).root), ctx, va, RamReader(c, mem)), Pages(b.image, l), frames, va, ctx)
  {
    hide Creation, Buildable, Built, After, FollowsPlan, Pages, RamReader, WalkFrom, Steps, TableSet, PageFrames, FrameSet, Sv32.Root;
    var s := Built(c, l, b, frames);
    var m0: Memory :| SameOn(mem, After(s, m0, Steps(s)).mem, TableSet(s));
    BuildThenWalk(c, l, b, frames, m0, va, ctx);
    TablesWalk(c, l, b, frames, mem, m0, va, ctx);
    assert WalkAt(c, s, m0, Steps(s), va, ctx) == WalkFrom(ctx, va, Sv32.Root(Satp(s.root)), 1, RamReader(c, After(s, m0, Steps(s)).mem));
    RootOfSatp(c, l, b, frames);
  }

  lemma TablesWalk(c: KernelConfig, l: UserLayout, b: BootImage, frames: seq<Word>, mem: Memory, m0: Memory, va: Word, ctx: Context)
    requires Creation(c, l, b, frames) && Buildable(c, l, b, frames) && ctx.privilege == User
    requires SameOn(mem, After(Built(c, l, b, frames), m0, Steps(Built(c, l, b, frames))).mem, TableSet(Built(c, l, b, frames)))
    ensures var s := Built(c, l, b, frames);
      WalkFrom(ctx, va, s.root, 1, RamReader(c, mem)) == WalkFrom(ctx, va, s.root, 1, RamReader(c, After(s, m0, Steps(s)).mem))
  {
    hide Accepted, CopiesInPage, MegapageConflict, SlotSet, ValidLayout, Built, After, Pages, RamReader, WalkFrom, TableSet, SameOn, PteStep, PeekEntry, InPool, PageFrames, FrameSet, Mapped, PteAddress, Sv32.Vpn1, Placing;
    var s := Built(c, l, b, frames);
    var done := After(s, m0, Steps(s)).mem;
    BuiltIs(c, l, b, frames);
    TableSetIs(c, l, b, frames);
    SameEntry(c, l, mem, done, s.root, va, 1, TableSet(s));
    ReadsEntry(c, l, done, s.root, va, 1);
    DoneIsMapped(s, m0);
    RootPointer(c, l, b, frames, m0, va, ctx);
    var step := PteStep(ctx, va, 1, PeekEntry(done, s.root, Vpn1(va)));
    if step.Next? {
      SameEntry(c, l, mem, done, step.table, va, 0, TableSet(s));
    }
    WalkLocal(ctx, va, s.root, RamReader(c, mem), RamReader(c, done));
  }

  lemma DoneIsMapped(s: Space, m: Memory)
    requires s.ptes != []
    ensures After(s, m, Steps(s)).mem == Mapped(s, m, |s.ptes|)
  {
    hide After, DoPtes, SpaceRun.Copied;
    PteRun(s, m, |s.ptes|);
  }

  /** A U-mode access reaches a page frame of the process, never a table. */
  lemma ReachesPages(c: KernelConfig, l: UserLayout, b: BootImage, frames: seq<Word>, va: Word, ctx: Context, r: Result<int, Fault>)
    requires Creation(c, l, b, frames) && Buildable(c, l, b, frames)
    requires FollowsPlan(r, Pages(b.image, l), frames, va, ctx) && r.Ok?
    ensures PageOf(r.value) in PageFrames(l, b, frames) && PageOf(r.value) in FrameSet(Built(c, l, b, frames))
    ensures PageOf(r.value) !in TableSet(Built(c, l, b, frames)) && r.value % PAGE == va % PAGE
  {
    hide Accepted, CopiesInPage, MegapageConflict, SlotSet, ValidLayout, Built, Pages, TableSet, FrameSet, Grants, PlaceUpTo;
    var ps := Pages(b.image, l);
    var j :| 0 <= j < |ps| && Grants(ps[j], va, ctx);
    PageFrame(c, l, b, frames, j);
    PageSplit(r.value, frames[FrameNo(ps, j)], va % PAGE);
    TableSetIs(c, l, b, frames);
    PageFramesAre(c, l, b, frames);
  }

  // ----- A creation writes its tables the same over any memory -----

  /** A write of `data` at `addr` touches no page of `ts`. */
  ghost predicate Avoids(addr: int, data: seq<Byte>, ts: set<int>) {
    forall x :: addr <= x < addr + |data| ==> PageOf(x) !in ts
  }

  lemma AvoidsKeeps(m: Memory, n: Memory, addr: int, data: seq<Byte>, ts: set<int>)
    requires Avoids(addr, data, ts) && SameOn(m, n, ts)
    ensures SameOn(Poke(m, addr, data), n, ts)
  {
    hide PageOf;
  }

  lemma PokeBoth(m: Memory, n: Memory, addr: int, data: seq<Byte>, ts: set<int>)
    requires SameOn(m, n, ts)
    ensures SameOn(Poke(m, addr, data), Poke(n, addr, data), ts)
  {
    hide PageOf;
  }

  lemma ShortAvoids(addr: int, data: seq<Byte>, ts: set<int>)
    requires Short(addr, |data|) && PageOf(addr) !in ts
    ensures Avoids(addr, data, ts)
  {
    hide PageOf, Short;
    forall x | addr <= x < addr + |data| ensures PageOf(x) !in ts {
      ShortSpan(addr, |data|, x);
    }
  }

  /** The data a creation's step works with has the length the step requires. */
  lemma AfterData(s: Space, m: Memory, n: nat)
    requires n < Steps(s) && s.ptes != []
    ensures |After(s, m, n).data| == DataLen(s, n)
  {
    hide After, DoCopies, Advance, DoPtes;
    if n < ZeroSteps(s) {
      ZeroRun(s, m, n);
    } else if n < CopyEnd(s) {
      var k := (n - ZeroSteps(s)) / 2;
      CopyRun(s, m, k);
      CopyIndex(k);
      if n == CopyAt(s, k) + 1 {
        ReadStep(s, After(s, m, CopyAt(s, k)), k);
        AfterOne(s, m, CopyAt(s, k));
      }
    } else {
      PteRun(s, m, n - CopyEnd(s));
    }
  }

  /** One access of a creation, with whatever bytes it read, keeps the tables as the creation leaves them. */
  lemma TablesStep(c: KernelConfig, l: UserLayout, b: BootImage, frames: seq<Word>, mem: Memory, n: nat, data: seq<Byte>)
    requires Creation(c, l, b, frames) && Buildable(c, l, b, frames)
    requires n < Steps(Built(c, l, b, frames)) && |data| == DataLen(Built(c, l, b, frames), n)
    requires TablesAt(mem, Built(c, l, b, frames), n)
    ensures TablesAt(Apply(mem, AccessAt(Built(c, l, b, frames), n, data).value), Built(c, l, b, frames), n + 1)
  {
    hide Creation, Buildable, Built, After, TableSet, SameOn, AccessAt, DataLen, Steps;
    var s, ts := Built(c, l, b, frames), TableSet(Built(c, l, b, frames));
    var m0: Memory :| SameOn(mem, After(s, m0, n).mem, ts);
    BuiltIs(c, l, b, frames);
    AfterData(s, m0, n);
    AfterOne(s, m0, n);
    AdvanceMem(s, After(s, m0, n), n);
    var a, e := AccessAt(s, n, data).value, AccessAt(s, n, After(s, m0, n).data).value;
    AccessTables(c, l, b, frames, n, data, After(s, m0, n).data);
    if a == e {
      ApplyBoth(mem, After(s, m0, n).mem, a, ts);
    } else {
      AvoidsKeeps(mem, After(s, m0, n).mem, a.addr, a.data, ts);
      SameOnSymmetric(Poke(mem, a.addr, a.data), After(s, m0, n).mem, ts);
      AvoidsKeeps(After(s, m0, n).mem, Poke(mem, a.addr, a.data), e.addr, e.data, ts);
      SameOnSymmetric(Poke(After(s, m0, n).mem, e.addr, e.data), Poke(mem, a.addr, a.data), ts);
    }
    assert SameOn(Apply(mem, a), After(s, m0, n + 1).mem, ts);
  }

  lemma AdvanceMem(s: Space, p: Progress, n: nat)
    requires n < Steps(s)
    ensures AccessAt(s, n, p.data).Some? && Advance(s, p, n).mem == Apply(p.mem, AccessAt(s, n, p.data).value)
  {
  }

  lemma SameOnSymmetric(m: Memory, n: Memory, ts: set<int>)
    requires SameOn(m, n, ts)
    ensures SameOn(n, m, ts)
  {
  }

  lemma ApplyBoth(m: Memory, n: Memory, a: Core.Access, ts: set<int>)
    requires SameOn(m, n, ts)
    ensures SameOn(Apply(m, a), Apply(n, a), ts)
  {
    if a.Write? {
      PokeBoth(m, n, a.addr, a.data, ts);
    }
  }

  /** Two data strings of the right length give the same access, or writes that stay off the tables. */
  lemma AccessTables(c: KernelConfig, l: UserLayout, b: BootImage, frames: seq<Word>, n: nat, x: seq<Byte>, y: seq<Byte>)
    requires Creation(c, l, b, frames) && Buildable(c, l, b, frames)
    requires n < Steps(Built(c, l, b, frames)) && |x| == |y| == DataLen(Built(c, l, b, frames), n)
    ensures var s := Built(c, l, b, frames);
      var a, e := AccessAt(s, n, x).value, AccessAt(s, n, y).value;
      || a == e
      || (a.Write? && e.Write? && Avoids(a.addr, a.data, TableSet(s)) && Avoids(e.addr, e.data, TableSet(s)))
  {
    hide Creation, Buildable, Built, TableSet, PageFrames, FrameSet, InPool, Short, PageOf, ZeroAt, Avoids;
    var s := Built(c, l, b, frames);
    var k := n - ZeroSteps(s);
    if 0 <= k && k / 2 < |s.copies| && k % 2 == 1 {
      CreationWrites(c, l, b, frames);
      TableSetIs(c, l, b, frames);
      var d := s.copies[k / 2].dst;
      assert PageOf(d) !in TableSet(s);
      ShortAvoids(d, x, TableSet(s));
      ShortAvoids(d, y, TableSet(s));
    }
  }

  /** Every write of a creation stays in its own frames. */
  lemma WritesHome(c: KernelConfig, l: UserLayout, b: BootImage, frames: seq<Word>, n: nat, data: seq<Byte>)
    requires Creation(c, l, b, frames) && Buildable(c, l, b, frames)
    requires n < Steps(Built(c, l, b, frames)) && |data| == DataLen(Built(c, l, b, frames), n)
    ensures var s := Built(c, l, b, frames);
      var a := AccessAt(s, n, data).value;
      && Short(a.addr, a.Len())
      && (a.Write? ==> PageOf(a.addr) in FrameSet(s))
      && (a.Read? ==> c.staging.Has(a.addr) && c.staging.Has(a.addr + a.Len() - 1))
  {
    hide Creation, Buildable, Built, PageFrames, InPool, ZeroAt, PageOf, Short, FrameSet;
    var s := Built(c, l, b, frames);
    var k := n - ZeroSteps(s);
    if k < 0 {
      ZeroHome(s, n);
    } else if k / 2 < |s.copies| {
      CreationWrites(c, l, b, frames);
      PageFramesAre(c, l, b, frames);
    } else {
      var i := k - 2 * |s.copies|;
      EntryHome(c, l, b, frames, i);
    }
  }

  lemma ZeroHome(s: Space, n: nat)
    requires n < ZeroSteps(s)
    ensures Short(ZeroAt(s, n), 16) && PageOf(ZeroAt(s, n)) in FrameSet(s)
  {
    var f, o := s.frames[n / PER_FRAME], MAX_ACCESS * (n % PER_FRAME);
    PageSplit(ZeroAt(s, n), f, o);
    PageSplit(ZeroAt(s, n) + 15, f, o + 15);
  }

  lemma EntryHome(c: KernelConfig, l: UserLayout, b: BootImage, frames: seq<Word>, i: nat)
    requires Creation(c, l, b, frames) && Buildable(c, l, b, frames) && i < |Built(c, l, b, frames).ptes|
    ensures var s := Built(c, l, b, frames);
      var a := EntryAt(s.ptes[i].table, s.ptes[i].index);
      Short(a, 4) && PageOf(a) in FrameSet(s) && s.ptes[i].table as int in TableSet(s)
  {
    hide Creation, Buildable, Built, PageOf, EntryAt, FrameSet, TableSet, InPool;
    var s := Built(c, l, b, frames);
    PtesInRange(c, l, b, frames);
    var e := s.ptes[i];
    EntryPage(e.table, e.index, 0);
    EntryPage(e.table, e.index, 3);
    var a := EntryAt(e.table, e.index);
    assert a + 0 == a;
    PteInTable(c, l, b, frames, i);
    NoFrameIsATable(c, l, b, frames, i, a);
  }

  lemma PteInTable(c: KernelConfig, l: UserLayout, b: BootImage, frames: seq<Word>, i: nat)
    requires Creation(c, l, b, frames) && Buildable(c, l, b, frames) && i < |Built(c, l, b, frames).ptes|
    ensures var s := Built(c, l, b, frames); s.ptes[i].table as int in TableSet(s)
  {
    hide Accepted, CopiesInPage, MegapageConflict, SlotSet, ValidLayout, PlaceUpTo, Built, Pages, TableSet, InPool, FrameSet, PageFrames, Sv32.Vpn0, UserLeaf;
    TableSetIs(c, l, b, frames);
    PteKind(c, l, b, frames, i);
    if i < |Pages(b.image, l)| {
      var q := LeafTable(c, l, b, frames, i);
    }
  }
}
