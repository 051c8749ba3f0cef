/** The address-space builder: which frames a process needs, what goes in each, and the accesses that put it there
    (components/os/src/space.rs, components/os/src/pte.rs). */
module Space {
  import opened Words
  import opened Memory
  import opened Core
  import opened Config
  import opened Image
  import Sequences
  import Sv32

  // ----- PTE encoders -----

  /** A PTE pointing at physical page `ppn`. `flags` is below 1024, so the two fields do not meet. */
  function PteEntry(ppn: Word, flags: int): (pte: Word)
    requires 0 <= flags < 1024
    ensures Sv32.Ppn(pte) == ppn % Sv32.PPN_LIMIT && pte % 1024 == flags
  {
    ppn % Sv32.PPN_LIMIT * 1024 + flags
  }

  function PermBits(p: Perms): (b: int)
    ensures 0 <= b <= 14
  {
    (if p.read then 2 else 0) + (if p.write then 4 else 0) + (if p.execute then 8 else 0)
  }

  /** `V U A`, the permissions, and `D` exactly when writable. */
  function UserLeaf(ppn: Word, p: Perms): Word {
    PteEntry(ppn, 1 + PermBits(p) + 16 + 64 + (if p.write then 128 else 0))
  }

  /** Only `V`. */
  function TablePte(ppn: Word): Word {
    PteEntry(ppn, 1)
  }

  /** `V R W X G A D`, not `U`. */
  function KernelLeaf(ppn: Word): Word {
    PteEntry(ppn, 1 + 2 + 4 + 8 + 32 + 64 + 128)
  }

  /** `V R W G A D`, not `U`. */
  function MmioLeaf(ppn: Word): Word {
    PteEntry(ppn, 1 + 2 + 4 + 32 + 64 + 128)
  }

  /** `satp` for a root table: Sv32, ASID 0. */
  function Satp(root: Word): (s: Word)
    ensures s >= Sv32.SATP_MODE && Sv32.Root(s) == root % Sv32.PPN_LIMIT
  {
    Sv32.SATP_MODE + root % Sv32.PPN_LIMIT
  }

  // ----- Pages and frames -----

  function StackPages(l: UserLayout): (ps: seq<PagePlan>)
    requires l.StackBase().Some?
  {
    seq<PagePlan>(l.stackPages, i requires 0 <= i < l.stackPages => PagePlan(StackVa(l, i), STACK_PERMS, None))
  }

  /** Every page of a process: the segments' in image order, then the stack's. */
  function Pages(image: UserImage, l: UserLayout): (ps: seq<PagePlan>)
    requires l.StackBase().Some?
  {
    SegmentPages(image.segments) + StackPages(l)
  }

  function SlotOf(p: PagePlan): int {
    Sv32.Vpn1(p.va)
  }

  /** The 4 MiB slots the first `i` pages touch. */
  function SlotSet(ps: seq<PagePlan>, i: nat): (s: set<int>)
    requires i <= |ps|
  {
    if i == 0 then {} else SlotSet(ps, i - 1) + {SlotOf(ps[i - 1])}
  }

  /** The frames the first `i` pages take: the root, a level-0 table per touched slot, and one per page. */
  function FramesUsed(ps: seq<PagePlan>, i: nat): nat
    requires i <= |ps|
  {
    1 + |SlotSet(ps, i)| + i
  }

  function FramesNeeded(image: UserImage, l: UserLayout): nat
    requires l.StackBase().Some?
  {
    FramesUsed(Pages(image, l), |Pages(image, l)|)
  }

  lemma FramesUsedStep(ps: seq<PagePlan>, i: nat)
    requires i < |ps|
    ensures FramesUsed(ps, i + 1) == FramesUsed(ps, i) + if SlotOf(ps[i]) in SlotSet(ps, i) then 1 else 2
  {
    var s, x := SlotSet(ps, i), SlotOf(ps[i]);
    assert SlotSet(ps, i + 1) == s + {x};
    if x in s {
      assert s + {x} == s;
    }
  }

  predicate MegapageConflict(image: UserImage, c: KernelConfig) {
    exists p :: p in SegmentPages(image.segments) && SlotOf(p) in MegaSlots(c)
  }

  // ----- Placement -----

  datatype Slot = Slot(index: int, table: Word)
  datatype Placed = Placed(va: Word, perms: Perms, frame: Word)

  /** A PTE write: entry `index` of the table in frame `table`. */
  datatype PteWrite = PteWrite(table: Word, index: int, value: Word)

  datatype Placement = Placement(
    slots: seq<Slot>,
    order: seq<Word>,
    leaves: seq<PteWrite>,
    copies: seq<Copy>,
    placed: seq<Placed>)

  function Lookup(slots: seq<Slot>, index: int): Option<Word> {
    if slots == [] then None
    else if slots[|slots| - 1].index == index then Some(slots[|slots| - 1].table)
    else Lookup(slots[..|slots| - 1], index)
  }

  function IndexSet(slots: seq<Slot>): set<int> {
    if slots == [] then {} else IndexSet(slots[..|slots| - 1]) + {slots[|slots| - 1].index}
  }

  lemma LookupIff(slots: seq<Slot>, index: int)
    ensures Lookup(slots, index).Some? <==> index in IndexSet(slots)
  {
  }

  function PageCopies(p: PagePlan, frame: Word, staged: Word): seq<Copy> {
    match p.copy
    case None => []
    case Some(c) => SplitCopy(staged + c.fileOffset, frame * PAGE + c.pageOffset, c.len)
  }

  /** `frames` has the frames `Place` takes next. */
  predicate Room(pl: Placement, p: PagePlan, frames: seq<Word>) {
    |pl.order| + (if Lookup(pl.slots, SlotOf(p)).Some? then 1 else 2) <= |frames|
  }

  /** Places one page: its level-0 table on first use of its slot, then its frame, each the next frame not yet taken. */
  function Place(pl: Placement, p: PagePlan, frames: seq<Word>, staged: Word): (r: Placement)
    requires Room(pl, p, frames)
    ensures |r.order| == |pl.order| + if SlotOf(p) in IndexSet(pl.slots) then 1 else 2
    ensures IndexSet(r.slots) == IndexSet(pl.slots) + {SlotOf(p)}
  {
    LookupIff(pl.slots, SlotOf(p));
    var known := Lookup(pl.slots, SlotOf(p));
    var next := |pl.order|;
    var table := if known.Some? then known.value else frames[next];
    var frame := if known.Some? then frames[next] else frames[next + 1];
    Placement(
      if known.Some? then pl.slots else pl.slots + [Slot(SlotOf(p), table)],
      if known.Some? then pl.order + [frame] else pl.order + [table, frame],
      pl.leaves + [PteWrite(table, Sv32.Vpn0(p.va), UserLeaf(frame, p.perms))],
      pl.copies + PageCopies(p, frame, staged),
      pl.placed + [Placed(p.va, p.perms, frame)])
  }

  /** The placement of the first `i` pages. */
  function PlaceUpTo(ps: seq<PagePlan>, frames: seq<Word>, staged: Word, i: nat): (pl: Placement)
    requires i <= |ps| && FramesUsed(ps, i) <= |frames|
    ensures |pl.order| == FramesUsed(ps, i) && IndexSet(pl.slots) == SlotSet(ps, i)
  {
    if i == 0 then Placement([], [frames[0]], [], [], [])
    else
      FramesUsedStep(ps, i - 1);
      var pl := PlaceUpTo(ps, frames, staged, i - 1);
      LookupIff(pl.slots, SlotOf(ps[i - 1]));
      Place(pl, ps[i - 1], frames, staged)
  }

  // ----- What a placement keeps -----

  function TablesOf(slots: seq<Slot>): (ts: seq<Word>)
    ensures |ts| == |slots|
  {
    if slots == [] then [] else TablesOf(slots[..|slots| - 1]) + [slots[|slots| - 1].table]
  }

  function FramesOf(placed: seq<Placed>): (fs: seq<Word>)
    ensures |fs| == |placed|
  {
    if placed == [] then [] else FramesOf(placed[..|placed| - 1]) + [placed[|placed| - 1].frame]
  }

  lemma {:induction false} FrameAt(placed: seq<Placed>, j: nat)
    requires j < |placed|
    ensures FramesOf(placed)[j] == placed[j].frame
  {
    if j < |placed| - 1 {
      FrameAt(placed[..|placed| - 1], j);
    }
  }

  /** The leaf of page `p` in frame `frame`, given the slots' tables. */
  predicate LeafFor(slots: seq<Slot>, p: PagePlan, frame: Word, leaf: PteWrite) {
    && Lookup(slots, SlotOf(p)).Some?
    && leaf == PteWrite(Lookup(slots, SlotOf(p)).value, Sv32.Vpn0(p.va), UserLeaf(frame, p.perms))
  }

  /** Frames are taken in the order given. */
  ghost predicate InOrder(pl: Placement, frames: seq<Word>) {
    1 <= |pl.order| <= |frames| && pl.order == frames[..|pl.order|]
  }

  /** Each of the first `i` pages has its address, its permissions and its leaf. */
  ghost predicate PagesPlaced(pl: Placement, ps: seq<PagePlan>, i: nat)
    requires i <= |ps|
  {
    && |pl.placed| == |pl.leaves| == i
    && (forall j :: 0 <= j < i ==> pl.placed[j].va == ps[j].va && pl.placed[j].perms == ps[j].perms)
    && (forall j :: 0 <= j < i ==> LeafFor(pl.slots, ps[j], pl.placed[j].frame, pl.leaves[j]))
  }

  /** Every frame taken is the root, one slot's table or one page's frame. */
  ghost predicate Accounted(pl: Placement, frames: seq<Word>) {
    && 1 <= |frames|
    && multiset(pl.order) == multiset{frames[0]} + multiset(TablesOf(pl.slots)) + multiset(FramesOf(pl.placed))
  }

  ghost predicate Good(pl: Placement, ps: seq<PagePlan>, frames: seq<Word>, i: nat)
    requires i <= |ps|
  {
    InOrder(pl, frames) && PagesPlaced(pl, ps, i) && Accounted(pl, frames)
  }

  lemma LookupAppend(slots: seq<Slot>, s: Slot, index: int)
    requires s.index != index
    ensures Lookup(slots + [s], index) == Lookup(slots, index)
  {
    assert (slots + [s])[..|slots|] == slots;
  }

  lemma PlaceTakesInOrder(pl: Placement, p: PagePlan, frames: seq<Word>, staged: Word)
    requires Room(pl, p, frames) && InOrder(pl, frames)
    ensures InOrder(Place(pl, p, frames, staged), frames)
  {
    LookupIff(pl.slots, SlotOf(p));
  }

  lemma TablesAppend(slots: seq<Slot>, s: Slot)
    ensures TablesOf(slots + [s]) == TablesOf(slots) + [s.table]
  {
    assert (slots + [s])[..|slots|] == slots;
  }

  lemma FramesAppend(placed: seq<Placed>, p: Placed)
    ensures FramesOf(placed + [p]) == FramesOf(placed) + [p.frame]
  {
    assert (placed + [p])[..|placed|] == placed;
  }

  /** What one placement adds: the new table, if any, and the page's frame. */
  lemma PlaceAdds(pl: Placement, p: PagePlan, frames: seq<Word>, staged: Word) returns (extra: seq<Word>, frame: Word)
    requires Room(pl, p, frames)
    ensures var r := Place(pl, p, frames, staged);
      && r.order == pl.order + extra + [frame]
      && TablesOf(r.slots) == TablesOf(pl.slots) + extra
      && FramesOf(r.placed) == FramesOf(pl.placed) + [frame]
  {
    hide TablesOf, FramesOf, IndexSet;
    var known, next := Lookup(pl.slots, SlotOf(p)), |pl.order|;
    extra := if known.Some? then [] else [frames[next]];
    frame := if known.Some? then frames[next] else frames[next + 1];
    FramesAppend(pl.placed, Placed(p.va, p.perms, frame));
    if known.None? {
      TablesAppend(pl.slots, Slot(SlotOf(p), frames[next]));
    }
  }

  lemma PlaceAccounts(pl: Placement, p: PagePlan, frames: seq<Word>, staged: Word)
    requires Room(pl, p, frames) && Accounted(pl, frames)
    ensures Accounted(Place(pl, p, frames, staged), frames)
  {
    hide TablesOf, FramesOf, Place, Lookup, IndexSet;
    var extra, frame := PlaceAdds(pl, p, frames, staged);
  }

  lemma PlaceKeepsLeaf(pl: Placement, p: PagePlan, frames: seq<Word>, staged: Word, q: PagePlan, frame: Word, leaf: PteWrite)
    requires Room(pl, p, frames) && LeafFor(pl.slots, q, frame, leaf)
    ensures LeafFor(Place(pl, p, frames, staged).slots, q, frame, leaf)
  {
    if Lookup(pl.slots, SlotOf(p)).None? {
      LookupAppend(pl.slots, Slot(SlotOf(p), frames[|pl.order|]), SlotOf(q));
    }
  }

  lemma PlaceOwnLeaf(pl: Placement, p: PagePlan, frames: seq<Word>, staged: Word)
    requires Room(pl, p, frames)
    ensures var r := Place(pl, p, frames, staged);
      && |r.placed| == |pl.placed| + 1 && r.placed[..|pl.placed|] == pl.placed
      && |r.leaves| == |pl.leaves| + 1 && r.leaves[..|pl.leaves|] == pl.leaves
      && r.placed[|pl.placed|].va == p.va && r.placed[|pl.placed|].perms == p.perms
      && LeafFor(r.slots, p, r.placed[|pl.placed|].frame, r.leaves[|pl.leaves|])
  {
  }

  lemma PlacePages(pl: Placement, ps: seq<PagePlan>, frames: seq<Word>, staged: Word, i: nat)
    requires i < |ps| && PagesPlaced(pl, ps, i) && Room(pl, ps[i], frames)
    ensures PagesPlaced(Place(pl, ps[i], frames, staged), ps, i + 1)
  {
    hide LeafFor, Place, Lookup, SlotOf;
    PlaceOwnLeaf(pl, ps[i], frames, staged);
    var r := Place(pl, ps[i], frames, staged);
    forall j | 0 <= j < i
      ensures r.placed[j] == pl.placed[j] && LeafFor(r.slots, ps[j], r.placed[j].frame, r.leaves[j])
    {
      assert r.placed[j] == r.placed[..|pl.placed|][j] && r.leaves[j] == r.leaves[..|pl.leaves|][j];
      PlaceKeepsLeaf(pl, ps[i], frames, staged, ps[j], pl.placed[j].frame, pl.leaves[j]);
    }
  }

  lemma PlaceNone(ps: seq<PagePlan>, frames: seq<Word>, staged: Word)
    requires 1 <= |frames|
    ensures Good(PlaceUpTo(ps, frames, staged, 0), ps, frames, 0)
  {
    var pl := PlaceUpTo(ps, frames, staged, 0);
    assert TablesOf(pl.slots) == [] && FramesOf(pl.placed) == [];
  }

  /** The next placement, and room for it. */
  lemma PlaceNext(ps: seq<PagePlan>, frames: seq<Word>, staged: Word, i: nat)
    requires i < |ps| && FramesUsed(ps, i + 1) <= |frames|
    ensures FramesUsed(ps, i) <= |frames|
    ensures Room(PlaceUpTo(ps, frames, staged, i), ps[i], frames)
    ensures PlaceUpTo(ps, frames, staged, i + 1) == Place(PlaceUpTo(ps, frames, staged, i), ps[i], frames, staged)
  {
    FramesUsedStep(ps, i);
    LookupIff(PlaceUpTo(ps, frames, staged, i).slots, SlotOf(ps[i]));
  }

  lemma {:induction false} PlaceGood(ps: seq<PagePlan>, frames: seq<Word>, staged: Word, i: nat)
    requires i <= |ps| && FramesUsed(ps, i) <= |frames|
    ensures Good(PlaceUpTo(ps, frames, staged, i), ps, frames, i)
  {
    hide PlaceUpTo, InOrder, Accounted, PagesPlaced, Place, Room, SlotSet, Lookup, IndexSet;
    if i == 0 {
      PlaceNone(ps, frames, staged);
    } else {
      PlaceNext(ps, frames, staged, i - 1);
      PlaceGood(ps, frames, staged, i - 1);
      var pl, p := PlaceUpTo(ps, frames, staged, i - 1), ps[i - 1];
      PlaceTakesInOrder(pl, p, frames, staged);
      PlaceAccounts(pl, p, frames, staged);
      PlacePages(pl, ps, frames, staged, i - 1);
    }
  }

  // ----- The space -----

  datatype Region = Region(va: Word, perms: Perms, frames: seq<Word>)

  datatype Space = Space(
    root: Word,
    tables: seq<Word>,
    regions: seq<Region>,
    frames: seq<Word>,
    slots: seq<Slot>,
    copies: seq<Copy>,
    ptes: seq<PteWrite>)

  /** The level-1 entries before sorting: a pointer per slot, then the two megapages. */
  function TopEntries(c: KernelConfig, root: Word, slots: seq<Slot>): (es: seq<PteWrite>)
    requires c.ram.base < PHYS_LIMIT
  {
    Pointers(root, slots) + [
      PteWrite(root, Sv32.Vpn1(c.ram.base), KernelLeaf(c.ram.base / PAGE)),
      PteWrite(root, Sv32.Vpn1(MMIO_MEGAPAGE), MmioLeaf(MMIO_MEGAPAGE / PAGE))]
  }

  function Pointers(root: Word, slots: seq<Slot>): (es: seq<PteWrite>)
    ensures |es| == |slots|
  {
    seq(|slots|, i requires 0 <= i < |slots| => PteWrite(root, slots[i].index, TablePte(slots[i].table)))
  }

  predicate ByIndex(es: seq<PteWrite>) {
    forall i, j :: 0 <= i < j < |es| ==> es[i].index <= es[j].index
  }

  /** The entries in ascending slot order. */
  function SortByIndex(es: seq<PteWrite>): (r: seq<PteWrite>)
    ensures multiset(r) == multiset(es) && ByIndex(r)
  {
    var key := (e: PteWrite) => e.index as int;
    Sequences.SortSorts(es, key);
    Sequences.SortBy(es, key)
  }

  function SegmentRegions(segments: seq<UserSegment>, frames: seq<Word>): (rs: seq<Region>)
    requires |frames| == |SegmentPages(segments)|
    requires forall s :: s in segments ==> s.pages != []
  {
    if segments == [] then [] else
      var front, last := segments[..|segments| - 1], segments[|segments| - 1];
      var n := |SegmentPages(front)|;
      SegmentRegions(front, frames[..n]) + [Region(last.pages[0].va, last.perms, frames[n..])]
  }

  /** The regions with the frames the pages got: the segments', then the stack's. */
  function Regions(image: UserImage, l: UserLayout, frames: seq<Word>): (rs: seq<Region>)
    requires |frames| >= |SegmentPages(image.segments)|
    requires forall s :: s in image.segments ==> s.pages != []
  {
    var n := |SegmentPages(image.segments)|;
    SegmentRegions(image.segments, frames[..n]) + [Region(l.ImageEnd(), STACK_PERMS, frames[n..])]
  }

  function RegionFrames(rs: seq<Region>): seq<Word> {
    if rs == [] then [] else RegionFrames(rs[..|rs| - 1]) + rs[|rs| - 1].frames
  }

  lemma {:induction false} SegmentRegionFrames(segments: seq<UserSegment>, frames: seq<Word>)
    requires |frames| == |SegmentPages(segments)|
    requires forall s :: s in segments ==> s.pages != []
    ensures RegionFrames(SegmentRegions(segments, frames)) == frames
  {
    if segments != [] {
      var front, last := segments[..|segments| - 1], segments[|segments| - 1];
      var n := |SegmentPages(front)|;
      SegmentRegionFrames(front, frames[..n]);
      var rs := SegmentRegions(segments, frames);
      assert rs[..|rs| - 1] == SegmentRegions(front, frames[..n]);
      assert frames[..n] + frames[n..] == frames;
    }
  }

  /** The regions hold every page's frame once, in page order. */
  lemma RegionsHoldFrames(image: UserImage, l: UserLayout, frames: seq<Word>)
    requires |frames| >= |SegmentPages(image.segments)|
    requires forall s :: s in image.segments ==> s.pages != []
    ensures RegionFrames(Regions(image, l, frames)) == frames
  {
    var n, rs := |SegmentPages(image.segments)|, Regions(image, l, frames);
    SegmentRegionFrames(image.segments, frames[..n]);
    assert rs[..|rs| - 1] == SegmentRegions(image.segments, frames[..n]);
    assert frames[..n] + frames[n..] == frames;
  }

  /** `build` may be called: a validated layout and image, and exactly the frames needed. */
  predicate Buildable(c: KernelConfig, l: UserLayout, b: BootImage, frames: seq<Word>) {
    && l.StackBase().Some? && c.ram.base < PHYS_LIMIT
    && (forall s :: s in b.image.segments ==> s.pages != [])
    && |frames| == FramesNeeded(b.image, l)
  }

  /** The address space of `b` in `frames`. */
  function Built(c: KernelConfig, l: UserLayout, b: BootImage, frames: seq<Word>): (s: Space)
    requires Buildable(c, l, b, frames)
  {
    var ps := Pages(b.image, l);
    var pl := PlaceUpTo(ps, frames, b.staged, |ps|);
    PlaceGood(ps, frames, b.staged, |ps|);
    Space(frames[0], [frames[0]] + TablesOf(pl.slots), Regions(b.image, l, FramesOf(pl.placed)), pl.order, pl.slots,
          pl.copies, pl.leaves + SortByIndex(TopEntries(c, frames[0], pl.slots)))
  }

  // ----- The loop -----

  predicate DistinctSlots(slots: seq<Slot>) {
    forall i, j :: 0 <= i < j < |slots| ==> slots[i].index != slots[j].index
  }

  lemma {:induction false} LookupAt(slots: seq<Slot>, k: nat)
    requires k < |slots| && DistinctSlots(slots)
    ensures Lookup(slots, slots[k].index) == Some(slots[k].table)
  {
    if k < |slots| - 1 {
      LookupAt(slots[..|slots| - 1], k);
    }
  }

  lemma {:induction false} LookupNone(slots: seq<Slot>, index: int)
    requires forall k :: 0 <= k < |slots| ==> slots[k].index != index
    ensures Lookup(slots, index) == None
  {
    if slots != [] {
      LookupNone(slots[..|slots| - 1], index);
    }
  }

  lemma {:induction false} LookupSome(slots: seq<Slot>, index: int) returns (k: nat)
    requires Lookup(slots, index).Some?
    ensures k < |slots| && slots[k] == Slot(index, Lookup(slots, index).value)
  {
    if slots[|slots| - 1].index == index {
      k := |slots| - 1;
    } else {
      k := LookupSome(slots[..|slots| - 1], index);
    }
  }

  lemma PlaceDistinct(pl: Placement, p: PagePlan, frames: seq<Word>, staged: Word)
    requires Room(pl, p, frames) && DistinctSlots(pl.slots)
    ensures DistinctSlots(Place(pl, p, frames, staged).slots)
  {
    if Lookup(pl.slots, SlotOf(p)).None? {
      forall k | 0 <= k < |pl.slots| ensures pl.slots[k].index != SlotOf(p) {
        LookupAt(pl.slots, k);
      }
    }
  }

  lemma NoSlotsYet(ps: seq<PagePlan>, frames: seq<Word>, staged: Word)
    requires FramesUsed(ps, 0) <= |frames|
    ensures DistinctSlots(PlaceUpTo(ps, frames, staged, 0).slots)
  {
  }

  lemma {:induction false} PlaceUpToDistinct(ps: seq<PagePlan>, frames: seq<Word>, staged: Word, i: nat)
    requires i <= |ps| && FramesUsed(ps, i) <= |frames|
    ensures DistinctSlots(PlaceUpTo(ps, frames, staged, i).slots)
  {
    hide PlaceUpTo, Place, Room, SlotSet, DistinctSlots, Lookup, IndexSet;
    if i == 0 {
      NoSlotsYet(ps, frames, staged);
    } else {
      PlaceNext(ps, frames, staged, i - 1);
      PlaceUpToDistinct(ps, frames, staged, i - 1);
      PlaceDistinct(PlaceUpTo(ps, frames, staged, i - 1), ps[i - 1], frames, staged);
    }
  }

  /** The first slot with `index`. */
  method FindTable(slots: seq<Slot>, index: int) returns (r: Option<Word>)
    requires DistinctSlots(slots)
    ensures r == Lookup(slots, index)
  {
    for i := 0 to |slots|
      invariant forall k :: 0 <= k < i ==> slots[k].index != index
    {
      if slots[i].index == index {
        LookupAt(slots, i);
        return Some(slots[i].table);
      }
    }
    LookupNone(slots, index);
    return None;
  }

  /** One iteration of `build`. */
  method PlacePage(pl: Placement, p: PagePlan, frames: seq<Word>, staged: Word) returns (r: Placement)
    requires Room(pl, p, frames) && DistinctSlots(pl.slots)
    ensures r == Place(pl, p, frames, staged)
  {
    var next := |pl.order|;
    var slots, order := pl.slots, pl.order;
    var known := FindTable(slots, SlotOf(p));
    var table: Word;
    if known.Some? {
      table := known.value;
    } else {
      table := frames[next];
      next := next + 1;
      slots := slots + [Slot(SlotOf(p), table)];
      order := order + [table];
    }
    var frame := frames[next];
    order := order + [frame];
    var leaves := pl.leaves + [PteWrite(table, Sv32.Vpn0(p.va), UserLeaf(frame, p.perms))];
    var copies := pl.copies;
    if p.copy.Some? {
      var c := p.copy.value;
      copies := ComputeSplitCopy(staged + c.fileOffset, frame * PAGE + c.pageOffset, c.len, copies);
    }
    r := Placement(slots, order, leaves, copies, pl.placed + [Placed(p.va, p.perms, frame)]);
  }

  /** `Space::build`: the loop over the pages. */
  method Build(c: KernelConfig, l: UserLayout, b: BootImage, frames: seq<Word>) returns (s: Space)
    requires Buildable(c, l, b, frames)
    ensures s == Built(c, l, b, frames)
  {
    var ps := Pages(b.image, l);
    var pl := Placement([], [frames[0]], [], [], []);
    var i := 0;
    UsedBounds(ps, 0);
    while i < |ps|
      invariant 0 <= i <= |ps| && FramesUsed(ps, i) <= |frames|
      invariant pl == PlaceUpTo(ps, frames, b.staged, i)
    {
      UsedBounds(ps, i + 1);
      PlaceNext(ps, frames, b.staged, i);
      PlaceUpToDistinct(ps, frames, b.staged, i);
      pl := PlacePage(pl, ps[i], frames, b.staged);
      i := i + 1;
    }
    PlaceGood(ps, frames, b.staged, |ps|);
    s := Space(frames[0], [frames[0]] + TablesOf(pl.slots), Regions(b.image, l, FramesOf(pl.placed)), pl.order, pl.slots,
               pl.copies, pl.leaves + SortByIndex(TopEntries(c, frames[0], pl.slots)));
  }

  /** Fewer pages never use more frames. */
  lemma {:induction false} UsedBounds(ps: seq<PagePlan>, i: nat)
    requires i <= |ps|
    ensures FramesUsed(ps, i) <= FramesUsed(ps, |ps|)
    decreases |ps| - i
  {
    if i < |ps| {
      FramesUsedStep(ps, i);
      UsedBounds(ps, i + 1);
    }
  }
}
