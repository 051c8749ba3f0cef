/** The theorems' hypotheses hold of a concrete platform: a validated configuration, an image, its frames, and a machine
    before boot. */
module Examples {
  import opened Words
  import opened Memory
  import opened Config
  import opened Image
  import opened Space
  import opened SpaceExact
  import opened Processes
  import opened Models
  import opened ModelRun
  import opened Machines
  import opened Isolation
  import opened PermitsRun
  import PermitsPlan
  import GapRun
  import Core
  import Permits
  import ProcOps
  import Sv32

  const CODE := Perms(true, false, true)
  const CODE_PAGE := PagePlan(0x1_0000, CODE, Some(FileCopy(0x40, 0, 0x20)))
  const CODE_SEGMENT := UserSegment(0, 0x1_0000, 0x20, CODE, [CODE_PAGE])
  const BOOT := BootImage(0x8010_0000, 0x100, UserImage(0x1_0000, [CODE_SEGMENT]))
  const FRAMES: seq<Word> := [0x8_0800, 0x8_0801, 0x8_0802, 0x8_0803, 0x8_0804, 0x8_0805, 0x8_0806, 0x8_0807]

  lemma OnePage()
    ensures SegmentPages(BOOT.image.segments) == [CODE_PAGE]
  {
    var segments := BOOT.image.segments;
    assert segments[..0] == [];
    assert SegmentPages(segments[..0]) == [];
  }

  lemma BootAccepted()
    ensures Accepted(BOOT, EXAMPLE_CONFIG, EXAMPLE_LAYOUT) && CopiesInPage(BOOT.image) && !MegapageConflict(BOOT.image, EXAMPLE_CONFIG)
  {
    OnePage();
    assert EXAMPLE_LAYOUT.StackBase() == Some(0x7FFF_B000);
  }

  lemma ExamplePages()
    ensures EXAMPLE_LAYOUT.StackBase() == Some(0x7FFF_B000)
    ensures var ps := Pages(BOOT.image, EXAMPLE_LAYOUT);
      && |ps| == 5 && SlotOf(ps[0]) == 0
      && SlotOf(ps[1]) == 511 && SlotOf(ps[2]) == 511 && SlotOf(ps[3]) == 511 && SlotOf(ps[4]) == 511
  {
    OnePage();
    assert EXAMPLE_LAYOUT.StackBase() == Some(0x7FFF_B000);
    var ps := Pages(BOOT.image, EXAMPLE_LAYOUT);
    assert ps[0] == CODE_PAGE;
    assert ps[1].va == StackVa(EXAMPLE_LAYOUT, 0) == 0x7FFF_B000;
    assert ps[2].va == StackVa(EXAMPLE_LAYOUT, 1) == 0x7FFF_C000;
    assert ps[3].va == StackVa(EXAMPLE_LAYOUT, 2) == 0x7FFF_D000;
    assert ps[4].va == StackVa(EXAMPLE_LAYOUT, 3) == 0x7FFF_E000;
  }

  /** Eight frames: the root, two tables, the code page and four stack pages. */
  lemma EightFrames()
    ensures EXAMPLE_LAYOUT.StackBase().Some? && FramesNeeded(BOOT.image, EXAMPLE_LAYOUT) == 8
  {
    ExamplePages();
    var ps := Pages(BOOT.image, EXAMPLE_LAYOUT);
    hide Pages, SlotOf;
    FramesUsedStep(ps, 0);
    FramesUsedStep(ps, 1);
    FramesUsedStep(ps, 2);
    FramesUsedStep(ps, 3);
    FramesUsedStep(ps, 4);
    assert SlotSet(ps, 1) == {0};
    assert SlotSet(ps, 2) == {0, 511};
    assert SlotSet(ps, 3) == {0, 511};
    assert SlotSet(ps, 4) == {0, 511};
  }

  lemma ExampleCreation()
    ensures Creation(EXAMPLE_CONFIG, EXAMPLE_LAYOUT, BOOT, FRAMES)
  {
    hide ValidLayout, Accepted, CopiesInPage, MegapageConflict, FramesNeeded;
    ExampleLayoutValid();
    BootAccepted();
    EightFrames();
  }

  const SOURCE := Plan(EXAMPLE_LAYOUT, [BOOT])

  /** The example's frame pool, all free. */
  function Pool(): Frames {
    Frames(0x8_0800, seq<Word>(0x400, _ => 0))
  }

  /** The machine before boot. */
  function Before(source: Source, mem: Memory): Machine {
    Machine(mem, Kernel(NewModel(source, Procs([], [], None, Pool())), None), [], [], map[])
  }

  /** A machine before boot from the example's plan, with any memory, is one every theorem about runs speaks of. */
  lemma ExampleMachine(mem: Memory)
    ensures Unbooted(EXAMPLE_CONFIG, Before(SOURCE, mem)) && Permits.RegistersInPage(EXAMPLE_CONFIG)
  {
    hide ValidLayout, Accepted, CopiesInPage, PoolOk, Fresh;
    ExampleLayoutValid();
    BootAccepted();
    PoolIs(EXAMPLE_CONFIG);
    FreshIs(EXAMPLE_CONFIG, SOURCE, mem);
    ExamplePlatform();
    Permits.AlignedInPage(EXAMPLE_CONFIG);
  }

  lemma PoolIs(c: KernelConfig)
    requires c.framePool == EXAMPLE_CONFIG.framePool
    ensures PoolOk(c, Pool())
  {
  }

  lemma FreshIs(c: KernelConfig, source: Source, mem: Memory)
    requires ValidSource(c, source) && PoolOk(c, Pool())
    ensures Fresh(c, Before(source, mem).kernel)
  {
    hide ValidSource, PoolOk;
  }

  lemma ExamplePlatform()
    ensures DevicesApart(EXAMPLE_CONFIG) && Permits.Platform(EXAMPLE_CONFIG)
  {
  }

  // ----- A plan whose copy leaves its page -----

  /** The plan of the image whose copy starts a page short of 4 GiB into its page. */
  const ESCAPING := Plan(EXAMPLE_LAYOUT, [ESCAPING_IMAGE])

  /** The plan is validated, and booting from it makes the kernel want to write outside the whitelist. */
  lemma EscapeCanBoot(mem: Memory) returns (es: seq<ModelRun.Event>)
    ensures ValidSource(EXAMPLE_CONFIG, ESCAPING) && !PlansInPage(ESCAPING) && Permits.Platform(EXAMPLE_CONFIG)
    ensures var k := Before(ESCAPING, mem).kernel;
      && Fresh(EXAMPLE_CONFIG, k) && Inv(EXAMPLE_CONFIG, k) && Run(EXAMPLE_CONFIG, k, es).At?
      && var n := Run(EXAMPLE_CONFIG, k, es).kernel;
         n.op.Some? && ProcOps.OpOk(EXAMPLE_CONFIG, n.op.value)
         && !Permits.Issuable(EXAMPLE_CONFIG, ProcOps.AccessDue(EXAMPLE_CONFIG, n.op.value))
  {
    hide ValidLayout, PoolOk, Fresh, Inv, Run, Permits.Issuable, FramesNeeded, MegapageConflict;
    AcceptedCopyCanLeaveItsPage();
    assert ValidSource(EXAMPLE_CONFIG, ESCAPING);
    PoolIs(EXAMPLE_CONFIG);
    FreshIs(EXAMPLE_CONFIG, ESCAPING, mem);
    ExamplePlatform();
    EscapingFits();
    es := PermitsPlan.EscapeReached(EXAMPLE_CONFIG, Before(ESCAPING, mem).kernel);
  }

  lemma EscapingFits()
    ensures !MegapageConflict(ESCAPING_IMAGE.image, EXAMPLE_CONFIG) && PermitsPlan.Below4GiB(EXAMPLE_CONFIG)
    ensures EXAMPLE_LAYOUT.StackBase().Some? && FramesNeeded(ESCAPING_IMAGE.image, EXAMPLE_LAYOUT) <= |Pool().owners|
  {
    var segments := ESCAPING_IMAGE.image.segments;
    assert SegmentPages(segments[..0]) == [];
    assert SegmentPages(segments) == [ESCAPING_PAGE];
    assert EXAMPLE_LAYOUT.StackBase() == Some(0x7FFF_B000);
    SlotsBound(Pages(ESCAPING_IMAGE.image, EXAMPLE_LAYOUT), 5);
  }

  /** At most one table per page. */
  lemma {:induction false} SlotsBound(ps: seq<PagePlan>, i: nat)
    requires i <= |ps|
    ensures |SlotSet(ps, i)| <= i
  {
    if i > 0 {
      SlotsBound(ps, i - 1);
    }
  }

  // ----- A plan with a gap in a segment -----

  /** A code segment of two pages with an unmapped page between them. */
  const PAST_GAP := PagePlan(0x1_2000, CODE, None)
  const GAP_SEGMENT := UserSegment(0, 0x1_0000, 0x3000, CODE, [CODE_PAGE, PAST_GAP])
  const GAP_IMAGE := BootImage(0x8010_0000, 0x100, UserImage(0x1_0000, [GAP_SEGMENT]))
  const GAP := Plan(EXAMPLE_LAYOUT, [GAP_IMAGE])

  lemma GapPages()
    ensures SegmentPages(GAP_IMAGE.image.segments) == [CODE_PAGE, PAST_GAP]
  {
    var segments := GAP_IMAGE.image.segments;
    assert segments[..0] == [];
    assert SegmentPages(segments[..0]) == [];
  }

  lemma GapAccepted()
    ensures Accepted(GAP_IMAGE, EXAMPLE_CONFIG, EXAMPLE_LAYOUT) && CopiesInPage(GAP_IMAGE.image)
    ensures !MegapageConflict(GAP_IMAGE.image, EXAMPLE_CONFIG)
  {
    hide SegmentPages;
    GapPages();
    assert EXAMPLE_LAYOUT.StackBase() == Some(0x7FFF_B000);
  }

  lemma GapHasGap()
    ensures !ReadableFollow(GAP_IMAGE.image)
  {
    assert GAP_IMAGE.image.segments[0].pages[1] == PAST_GAP;
    assert !Follow(GAP_IMAGE.image.segments[0]);
  }

  lemma GapFits()
    ensures EXAMPLE_LAYOUT.StackBase().Some? && FramesNeeded(GAP_IMAGE.image, EXAMPLE_LAYOUT) <= |Pool().owners|
  {
    hide SegmentPages, SlotSet;
    GapPages();
    assert EXAMPLE_LAYOUT.StackBase() == Some(0x7FFF_B000);
    SlotsBound(Pages(GAP_IMAGE.image, EXAMPLE_LAYOUT), 6);
  }

  /** The plan is validated, and a run from its boot reaches a state whose snapshot the kernel refuses. */
  lemma GapCanBoot(mem: Memory)
    ensures ValidSource(EXAMPLE_CONFIG, GAP) && Unbooted(EXAMPLE_CONFIG, Before(GAP, mem))
    ensures !GapRun.AlwaysRestores(EXAMPLE_CONFIG, Before(GAP, mem))
  {
    hide ValidLayout, Accepted, CopiesInPage, PoolOk, Fresh, ReadableFollow, MegapageConflict, FramesNeeded, GapRun.AlwaysRestores;
    ExampleLayoutValid();
    GapAccepted();
    GapHasGap();
    GapFits();
    PoolIs(EXAMPLE_CONFIG);
    FreshIs(EXAMPLE_CONFIG, GAP, mem);
    ExamplePlatform();
    GapRun.RestoresIffFollows(EXAMPLE_CONFIG, Before(GAP, mem));
  }

  // ----- A register that crosses a page -----

  /** The example with its block controller 2 bytes before a page's end. */
  const CROSSING := EXAMPLE_CONFIG.(blk := Window(0x1100_0FFE, 0x20))
  const DISK := Disk(EXAMPLE_LAYOUT, 100)

  lemma CrossingValid()
    ensures ValidSource(CROSSING, DISK) && DevicesApart(CROSSING) && Permits.Platform(CROSSING)
  {
    var l := EXAMPLE_LAYOUT;
    assert l.StackBase() == Some(0x7FFF_B000);
    forall i {:trigger StackVa(l, i)} | 0 <= i < l.stackPages ensures Sv32.Vpn1(StackVa(l, i)) !in MegaSlots(CROSSING) {
      assert StackVa(l, i) == 0x7FFF_B000 + i * PAGE;
    }
  }

  /** Nothing asks for an aligned block controller: this configuration and disk are validated, and booting from it makes
      the kernel write the COMMAND register across a page. */
  lemma RegisterCanCross(mem: Memory)
    ensures Unbooted(CROSSING, Before(DISK, mem)) && !NeverCrosses(CROSSING, Before(DISK, mem))
    ensures Reaches(CROSSING, Before(DISK, mem), BootRun(CROSSING, 3))
    ensures var a := DueAfter(CROSSING, Before(DISK, mem), BootRun(CROSSING, 3));
      a.addr == CROSSING.blk.base && a.Len() == 4 && !Core.Short(a.addr, a.Len())
  {
    hide ValidSource, PoolOk, Fresh, DevicesApart, Permits.Platform, Reaches, DueAfter, BootRun;
    CrossingValid();
    PoolIs(CROSSING);
    FreshIs(CROSSING, DISK, mem);
    RegisterReached(CROSSING, Before(DISK, mem), 3);
    Permits.WordInPage(CROSSING.blk.base);
  }
}
