/** Host plans and the whitelist: every access of a creation is permitted exactly when no copy leaves its page, and a boot
    from a plan whose first image breaks that rule reaches an access the whitelist refuses. */
module PermitsPlan {
  import opened Words
  import opened Core
  import opened Config
  import opened Image
  import opened Space
  import opened SpaceExact
  import opened SpaceWalk
  import opened Processes
  import opened ProcOps
  import opened Models
  import opened ModelRun
  import opened Permits
  import ProcessTable
  import SpaceRun

  /** No granted range reaches 4 GiB. */
  predicate Below4GiB(c: KernelConfig) {
    forall g :: g in c.Grants() ==> g.base + g.size <= WORD_LIMIT
  }

  /** What `Create` is called with: a validated image in frames of the pool. */
  ghost predicate Planned(c: KernelConfig, l: UserLayout, b: BootImage, frames: seq<Word>) {
    && ValidLayout(c, l) && Accepted(b, c, l) && !MegapageConflict(b.image, c)
    && Ascending(frames) && |frames| == FramesNeeded(b.image, l) && Buildable(c, l, b, frames)
    && (forall i :: 0 <= i < |frames| ==> InPool(c, frames[i]))
  }

  /** Every access of the creation passes the whitelist, whatever the copies read. */
  ghost predicate AllPermitted(c: KernelConfig, s: Space) {
    forall n: nat, data: seq<Byte> ::
      n < SpaceRun.Steps(s) && |data| == SpaceRun.DataLen(s, n) ==> Issuable(c, SpaceRun.AccessAt(s, n, data).value)
  }

  // ----- A copy that leaves its page -----

  /** The last piece of a copy ends where the copy ends. */
  lemma {:induction false} LastPiece(src: int, dst: int, len: nat) returns (k: nat)
    requires len > 0
    ensures k < |SplitCopy(src, dst, len)|
    ensures SplitCopy(src, dst, len)[k].dst + SplitCopy(src, dst, len)[k].len == dst + len
    decreases len
  {
    var n := CopyPiece(src, dst, len);
    if n == len {
      k := 0;
    } else {
      var j := LastPiece(src + n, dst + n, len - n);
      assert SplitCopy(src, dst, len)[j + 1] == SplitCopy(src + n, dst + n, len - n)[j];
      k := j + 1;
    }
  }

  /** The copies of page `j` are among those of the first `i` pages. */
  lemma {:induction false} CopiesAmong(ps: seq<PagePlan>, frames: seq<Word>, staged: Word, i: nat, j: nat, k: nat) returns (q: nat)
    requires j < i <= |ps| && FramesUsed(ps, i) <= |frames| && |PlaceUpTo(ps, frames, staged, i).placed| == i
    requires k < |PageCopies(ps[j], PlaceUpTo(ps, frames, staged, i).placed[j].frame, staged)|
    ensures q < |PlaceUpTo(ps, frames, staged, i).copies|
    ensures PlaceUpTo(ps, frames, staged, i).copies[q] == PageCopies(ps[j], PlaceUpTo(ps, frames, staged, i).placed[j].frame, staged)[k]
  {
    hide PlaceUpTo, SlotSet, PageCopies, Lookup, IndexSet;
    PlaceNext(ps, frames, staged, i - 1);
    var before := PlaceUpTo(ps, frames, staged, i - 1);
    if j < i - 1 {
      q := CopiesAmong(ps, frames, staged, i - 1, j, k);
    } else {
      q := |before.copies| + k;
    }
  }

  /** An accepted copy that leaves its page overflows `u32`. */
  lemma CopyOverflows(c: KernelConfig, l: UserLayout, b: BootImage, p: PagePlan)
    requires Accepted(b, c, l) && p in SegmentPages(b.image.segments)
    requires p.copy.Some? && p.copy.value.pageOffset + p.copy.value.len > PAGE
    ensures p.copy.value.len > 0 && p.copy.value.pageOffset + p.copy.value.len >= WORD_LIMIT
  {
    hide SegmentPages;
    var segment := SegmentOf(b.image.segments, p);
  }

  /** The last piece of an escaping copy, among the copies of the space: it ends past 4 GiB. */
  lemma EscapingPiece(c: KernelConfig, l: UserLayout, b: BootImage, frames: seq<Word>, p: PagePlan) returns (q: nat)
    requires Planned(c, l, b, frames) && p in SegmentPages(b.image.segments)
    requires p.copy.Some? && p.copy.value.pageOffset + p.copy.value.len > PAGE
    ensures var s := Built(c, l, b, frames); q < |s.copies| && s.copies[q].dst + s.copies[q].len > WORD_LIMIT
  {
    hide PlaceUpTo, SplitCopy, SlotSet, ValidLayout, MegapageConflict, SegmentPages, CopyPiece, Accepted, InPool, TablesOf, FramesOf, LeafFor, SortByIndex, TopEntries, Regions, Lookup, IndexSet, StackPages;
    var ps, copy := Pages(b.image, l), p.copy.value;
    var pl := PlaceUpTo(ps, frames, b.staged, |ps|);
    CopyOverflows(c, l, b, p);
    var j :| 0 <= j < |SegmentPages(b.image.segments)| && SegmentPages(b.image.segments)[j] == p;
    PlaceGood(ps, frames, b.staged, |ps|);
    PlacedFrame(ps, frames, b.staged, |ps|, j);
    var f := pl.placed[j].frame;
    var k := LastPiece(b.staged + copy.fileOffset, f * PAGE + copy.pageOffset, copy.len);
    q := CopiesAmong(ps, frames, b.staged, |ps|, j, k);
  }

  lemma PieceRefused(c: KernelConfig, s: Space, q: nat, data: seq<Byte>)
    requires Below4GiB(c) && q < |s.copies| && s.copies[q].dst + s.copies[q].len > WORD_LIMIT && |data| == s.copies[q].len
    ensures var n := SpaceRun.ZeroSteps(s) + 2 * q + 1;
      && n < SpaceRun.Steps(s) && SpaceRun.DataLen(s, n) == |data| && SpaceRun.AccessAt(s, n, data) == Some(Write(s.copies[q].dst, data))
      && !Issuable(c, Write(s.copies[q].dst, data))
  {
    hide KernelConfig.Grants;
    var n := SpaceRun.ZeroSteps(s) + 2 * q + 1;
    assert (n - SpaceRun.ZeroSteps(s)) / 2 == q && (n - SpaceRun.ZeroSteps(s)) % 2 == 1;
  }

  function Zeros(n: nat): (z: seq<Byte>)
    ensures |z| == n
  {
    seq<Byte>(n, _ => 0)
  }

  /** With the granted ranges below 4 GiB, every access of a creation from a validated image passes the whitelist if and only
      if no copy of the image leaves its page. */
  lemma PermittedIffInPage(c: KernelConfig, l: UserLayout, b: BootImage, frames: seq<Word>)
    requires Planned(c, l, b, frames) && Platform(c) && Below4GiB(c)
    ensures AllPermitted(c, Built(c, l, b, frames)) <==> CopiesInPage(b.image)
  {
    hide Buildable, Built, SpaceRun.AccessAt, SpaceRun.Steps, SpaceRun.DataLen, SpaceRun.ZeroSteps, Issuable, Inside, Short, Platform, Below4GiB, MegapageConflict, Accepted, ValidLayout;
    var s := Built(c, l, b, frames);
    if CopiesInPage(b.image) {
      LayoutConfig(c, l);
      forall n: nat, data: seq<Byte> | n < SpaceRun.Steps(s) && |data| == SpaceRun.DataLen(s, n)
        ensures Issuable(c, SpaceRun.AccessAt(s, n, data).value)
      {
        SpacePermitted(c, l, b, frames, n, data);
        ShortBounds(SpaceRun.AccessAt(s, n, data).value);
        InsidePermitted(c, SpaceRun.AccessAt(s, n, data).value);
      }
    } else {
      var p :| p in SegmentPages(b.image.segments) && p.copy.Some? && p.copy.value.pageOffset + p.copy.value.len > PAGE;
      var q := EscapingPiece(c, l, b, frames, p);
      PieceRefused(c, s, q, Zeros(s.copies[q].len));
    }
  }

  lemma LayoutConfig(c: KernelConfig, l: UserLayout)
    requires ValidLayout(c, l)
    ensures c.Valid()
  {
  }

  // ----- A boot that reaches it -----

  /** The creation of process 1 at `n`, the copies having read zeros. */
  function CreateOp(s: Space, n: nat): ProcOp {
    ProcOp(Create(1, s), n, Zeros(SpaceRun.DataLen(s, n)))
  }

  /** Memory of zeros answers the access of step `n`. */
  function ZeroAnswer(s: Space, n: nat): Completion
    requires n < SpaceRun.Steps(s)
  {
    match SpaceRun.AccessAt(s, n, Zeros(SpaceRun.DataLen(s, n))).value case Read(_, len) => Data(Zeros(len)) case Write(_, _) => Written
  }

  /** An ENTER, and the answers to the first `n` accesses of the creation. */
  function CreateRun(c: KernelConfig, s: Space, n: nat): seq<Event>
    requires n <= SpaceRun.Steps(s)
  {
    if n == 0 then [Enter(c.trapFrame)] else CreateRun(c, s, n - 1) + [Answered(ZeroAnswer(s, n - 1))]
  }

  lemma ZeroNext(c: KernelConfig, s: Space, n: nat)
    requires n + 1 < SpaceRun.Steps(s) && s.ptes != []
    ensures OpOk(c, CreateOp(s, n)) && Answers(AccessDue(c, CreateOp(s, n)), ZeroAnswer(s, n))
    ensures Complete(c, CreateOp(s, n), ZeroAnswer(s, n)) == Ok(CreateOp(s, n + 1))
  {
    hide SpaceRun.ZeroAt;
    var a := SpaceRun.AccessAt(s, n, Zeros(SpaceRun.DataLen(s, n))).value;
    if a.Read? {
      assert Zeros(0) + Zeros(a.len) == Zeros(a.len);
    } else {
      assert Zeros(0) == [];
    }
  }

  /** A kernel before boot whose plan's first image can be created. */
  ghost predicate CreatesFirst(c: KernelConfig, k: Kernel) {
    && Fresh(c, k) && k.model.source.Plan?
    && var b, l := k.model.source.images[0], k.model.source.layout;
       !MegapageConflict(b.image, c) && l.StackBase().Some? && FramesNeeded(b.image, l) <= |k.model.procs.frames.owners|
  }

  lemma FreshFacts(c: KernelConfig, k: Kernel)
    requires CreatesFirst(c, k) && Inv(c, k)
    ensures var m := k.model.(life := Up);
      && Sound(c, m, None) && Booting(m, 0) && m.entries >= 1 && k.op.None? && k.model.life == AwaitBoot
      && Accepted(m.source.images[0], c, m.source.layout) && m.procs.frames.Wide()
      && FreeCount(m.procs.frames) == |m.procs.frames.owners|
  {
    hide Consistent, ValidLayout, Accepted, MegapageConflict, FramesNeeded, OwnedFrom;
    InvSound(c, k);
    ConsistentWide(k.model.procs, k.model.entries, None);
    ProcessTable.AllFree(k.model.procs.frames, 0);
  }

  /** The boot starts with the creation of process 1 in the lowest frames of the pool. */
  lemma BootCreates(c: KernelConfig, k: Kernel) returns (frames: seq<Word>)
    requires CreatesFirst(c, k) && Inv(c, k) && Models.Ready(c, k.model)
    ensures Planned(c, k.model.source.layout, k.model.source.images[0], frames)
    ensures var s := Built(c, k.model.source.layout, k.model.source.images[0], frames);
      s.ptes != [] && Start(c, k.model, c.trapFrame).result == Ok(Create(1, s))
  {
    hide Consistent, Built, MegapageConflict, FramesNeeded, ValidLayout, Accepted, SetOwner, OwnedBy, OwnedFrom, Inv, PlaceUpTo, Models.Ready, HasPcb, Fresh, FreeCount, Buildable;
    FreshFacts(c, k);
    var m := k.model.(life := Up);
    var b, l := m.source.images[0], m.source.layout;
    frames := Reserve(m.procs.frames, 1, FramesNeeded(b.image, l)).value;
    NotYet(m, 0);
    ReservedSpace(c, m, b, 1);
  }

  lemma EnterCreates(c: KernelConfig, k: Kernel) returns (frames: seq<Word>)
    requires CreatesFirst(c, k) && Inv(c, k)
    ensures Planned(c, k.model.source.layout, k.model.source.images[0], frames)
    ensures var s := Built(c, k.model.source.layout, k.model.source.images[0], frames);
      && s.ptes != [] && Run(c, k, CreateRun(c, s, 0)).At? && Run(c, k, CreateRun(c, s, 0)).kernel.op == Some(CreateOp(s, 0))
  {
    hide Inv, Built, Start, Models.Ready, SpaceRun.DataLen, MegapageConflict, FramesNeeded, Accepted, ValidLayout, Run, CreateRun, Buildable, PoolOk;
    InvReady(c, k);
    frames := BootCreates(c, k);
    var s := Built(c, k.model.source.layout, k.model.source.images[0], frames);
    FirstEvent(c, k, s);
    NoDataYet(s);
  }

  lemma NoDataYet(s: Space)
    ensures CreateOp(s, 0) == NewOp(Create(1, s))
  {
  }

  lemma FirstEvent(c: KernelConfig, k: Kernel, s: Space)
    requires Inv(c, k) && Models.Ready(c, k.model) && Start(c, k.model, c.trapFrame).result == Ok(Create(1, s))
    requires k.op.None? && k.model.life != Down
    ensures Run(c, k, CreateRun(c, s, 0)).At? && Run(c, k, CreateRun(c, s, 0)).kernel.op == Some(NewOp(Create(1, s)))
  {
    hide Inv, Start, Models.Ready;
    assert CreateRun(c, s, 0)[..0] == [];
    assert Run(c, k, []) == At(k);
    StepKeeps(c, k, Enter(c.trapFrame));
  }

  /** After the ENTER and `n` answers of zeros the creation has step `n` to do. */
  lemma {:induction false} CreateReaches(c: KernelConfig, k: Kernel, s: Space, n: nat)
    requires Inv(c, k) && s.ptes != [] && n < SpaceRun.Steps(s)
    requires Run(c, k, CreateRun(c, s, 0)).At? && Run(c, k, CreateRun(c, s, 0)).kernel.op == Some(CreateOp(s, 0))
    ensures Run(c, k, CreateRun(c, s, n)).At? && Run(c, k, CreateRun(c, s, n)).kernel.op == Some(CreateOp(s, n))
  {
    hide Inv, CreateOp, ZeroAnswer, Run, Step, OpOk, Complete, AccessDue, SpaceRun.Steps;
    if n > 0 {
      CreateReaches(c, k, s, n - 1);
      OneAnswer(c, k, s, n - 1);
    }
  }

  lemma OneAnswer(c: KernelConfig, k: Kernel, s: Space, n: nat)
    requires Inv(c, k) && s.ptes != [] && n + 1 < SpaceRun.Steps(s)
    requires Run(c, k, CreateRun(c, s, n)).At? && Run(c, k, CreateRun(c, s, n)).kernel.op == Some(CreateOp(s, n))
    ensures Run(c, k, CreateRun(c, s, n + 1)).At? && Run(c, k, CreateRun(c, s, n + 1)).kernel.op == Some(CreateOp(s, n + 1))
  {
    hide Inv, ZeroAnswer, OpOk, Complete, AccessDue, SpaceRun.Steps, SpaceRun.DataLen, Models.Ready, Advanceable, Answers, Advance;
    var before, e := Run(c, k, CreateRun(c, s, n)).kernel, Answered(ZeroAnswer(s, n));
    assert CreateRun(c, s, n + 1)[..|CreateRun(c, s, n)|] == CreateRun(c, s, n);
    ZeroNext(c, s, n);
    InvReady(c, before);
    StepKeeps(c, before, e);
    NotFinished(c, s, n + 1);
  }

  lemma NotFinished(c: KernelConfig, s: Space, n: nat)
    requires s.ptes != [] && n < SpaceRun.Steps(s)
    ensures StageOk(Create(1, s)) && !Finished(c, CreateOp(s, n))
  {
  }

  /** A boot from a validated plan whose first image has a copy that leaves its page, in a pool large enough for it, reaches
      an access the whitelist refuses. */
  lemma EscapeReached(c: KernelConfig, k: Kernel) returns (es: seq<Event>)
    requires CreatesFirst(c, k) && Below4GiB(c) && !CopiesInPage(k.model.source.images[0].image)
    ensures Inv(c, k) && Run(c, k, es).At?
    ensures var n := Run(c, k, es).kernel; n.op.Some? && OpOk(c, n.op.value) && !Issuable(c, AccessDue(c, n.op.value))
  {
    hide Inv, Built, Run, Issuable, Accepted, ValidLayout, Buildable, PoolOk, MegapageConflict, FramesNeeded, SpaceRun.AccessAt, SpaceRun.Steps, SpaceRun.DataLen, SpaceRun.ZeroSteps, Below4GiB, CreateRun;
    FreshInv(c, k);
    var frames := EnterCreates(c, k);
    var b, l := k.model.source.images[0], k.model.source.layout;
    var s := Built(c, l, b, frames);
    var p :| p in SegmentPages(b.image.segments) && p.copy.Some? && p.copy.value.pageOffset + p.copy.value.len > PAGE;
    var q := EscapingPiece(c, l, b, frames, p);
    PieceRefused(c, s, q, Zeros(s.copies[q].len));
    var n := SpaceRun.ZeroSteps(s) + 2 * q + 1;
    CreateReaches(c, k, s, n);
    es := CreateRun(c, s, n);
  }
}
