/** Every state a run reaches is a snapshot that the modeled kernel restores to itself, unless a `write` has found pages that
    the running process's regions do not tell; then it is refused. */
module KernelRestore {
  import opened Words
  import opened Memory
  import opened Sequences
  import opened Config
  import opened Image
  import opened Space
  import opened SpaceExact
  import opened Creations
  import opened UserCopy
  import opened Processes
  import ExecTables
  import opened ProcOps
  import opened Models
  import opened ModelRun
  import opened ModelTight
  import opened Machines
  import opened WriteRun
  import opened Gate
  import opened RestoreRun
  import opened KernelSnapshot
  import RegionImages
  import Isolation
  import Permits
  import PermitsRun
  import GateRun
  import SpaceRun
  import SpaceTables
  import SpaceWalk
  import Writes
  import Sv32
  import U = UserElf
  import UX = UserElfExact

  // ----- Owners -----

  lemma {:induction false} ClaimantIs(pcbs: seq<Pcb>, f: int, k: nat)
    requires k < |pcbs| && f in pcbs[k].Held() && forall i :: 0 <= i < |pcbs| && f in pcbs[i].Held() ==> pcbs[i].pid == pcbs[k].pid
    ensures Claimant(pcbs, f) == pcbs[k].pid
  {
    hide Pcb.Held;
    if f !in pcbs[0].Held() {
      forall i | 0 <= i < |pcbs[1..]| && f in pcbs[1..][i].Held() ensures pcbs[1..][i].pid == pcbs[k].pid {
        assert pcbs[1..][i] == pcbs[i + 1];
      }
      ClaimantIs(pcbs[1..], f, k - 1);
    }
  }

  lemma {:induction false} ClaimantNone(pcbs: seq<Pcb>, f: int)
    requires forall i :: 0 <= i < |pcbs| ==> f !in pcbs[i].Held()
    ensures Claimant(pcbs, f) == UNKNOWN
  {
    hide Pcb.Held;
    if pcbs != [] {
      forall i | 0 <= i < |pcbs[1..]| ensures f !in pcbs[1..][i].Held() {
        assert pcbs[1..][i] == pcbs[i + 1];
      }
      ClaimantNone(pcbs[1..], f);
    }
  }

  /** What the decoded table says of an allocated frame: its process, or that it is the creation's. */
  lemma OwnerBack(p: Procs, images: nat, creating: Option<Creating>, i: nat)
    requires Consistent(p, images, creating) && i < |p.frames.owners| && p.frames.owners[i] != 0
    ensures Claimant(p.pcbs, p.frames.base + i)
         == if creating.Some? && creating.value.pid == p.frames.owners[i] then UNKNOWN else p.frames.owners[i]
  {
    hide IndexOf, Pcb.Held, PidsOk, StatesOk, CurrentOk, QueueOk, NoDup;
    var o, f := p.frames.owners[i], p.frames.base + i;
    assert p.frames.Owner(f) == Some(o);
    var k := IndexOf(p.pcbs, o);
    forall j | 0 <= j < |p.pcbs| && f in p.pcbs[j].Held() ensures p.pcbs[j].pid == o {
      assert Processes.Owns(p.frames, p.pcbs[j].pid, p.pcbs[j].Held());
    }
    if k < |p.pcbs| {
      assert Processes.Owns(p.frames, p.pcbs[k].pid, p.pcbs[k].Held());
      ClaimantIs(p.pcbs, f, k);
    } else {
      ClaimantNone(p.pcbs, f);
    }
  }

  /** The bitmap and the PCBs give the owners back, once the creation has its frames. */
  lemma OwnersBack(p: Procs, images: nat, creating: Option<Creating>)
    requires Consistent(p, images, creating) && images < UNKNOWN
    ensures Granted(DecodedFrames(p.frames.base, BitsOf(p.frames), p.pcbs), creating) == Some(p.frames)
    ensures UNKNOWN !in p.frames.owners
  {
    hide IndexOf, Pcb.Held, StatesOk, CurrentOk, QueueOk, Claimant, NoDup;
    var d := DecodedFrames(p.frames.base, BitsOf(p.frames), p.pcbs);
    forall i | 0 <= i < |p.frames.owners|
      ensures p.frames.owners[i] != UNKNOWN
      ensures d.owners[i] == if creating.Some? && creating.value.pid == p.frames.owners[i] then UNKNOWN else p.frames.owners[i]
    {
      if p.frames.owners[i] != 0 {
        OwnerBack(p, images, creating, i);
      }
    }
    if creating.Some? {
      var x := creating.value;
      forall f | f in x.frames ensures d.Owner(f) == Some(UNKNOWN) {
        assert p.frames.Owner(f) == Some(x.pid);
      }
      var r := SetOwners(d.base, d.owners, x.frames, x.pid);
      forall i | 0 <= i < |r| ensures r[i] == p.frames.owners[i] {
        assert p.frames.Owner(d.base + i) == Some(p.frames.owners[i]);
      }
      assert r == p.frames.owners;
    } else {
      assert d.owners == p.frames.owners;
    }
  }

  // ----- Live processes -----

  /** The image a process was created from, or the one its regions describe, builds its tables and regions again. */
  lemma SpaceBack(c: KernelConfig, source: Source, mem: Memory, p: Pcb, b: Birth)
    requires LiveOk(c, source.layout, mem, p, b) && BirthOk(source, p.pid, b)
    ensures var r, s := SpaceOf(c, source, p), Built(c, source.layout, b.boot, b.frames);
      r.Some? && r.value.root == s.root && r.value.tables == s.tables && r.value.regions == s.regions && r.value.slots == s.slots
  {
    hide Built, SpaceTables.TablesAt, Accepted, ValidLayout, CopiesInPage, MegapageConflict, RegionShaped, RegionImages.RegionImage, FramesNeeded, RegionFrames;
    var l, s := source.layout, Built(c, source.layout, b.boot, b.frames);
    FramesExact(c, l, b.boot, b.frames);
    SortPermutation(p.Held(), b.frames);
    if source.Disk? {
      RegionImages.RegionsRebuild(c, l, b.boot, b.frames, c.staging.base % WORD_LIMIT);
    }
  }

  lemma LiveBack(c: KernelConfig, s: Machine, i: nat)
    requires LivesOk(c, s) && BirthsOk(s) && i < |s.kernel.model.procs.pcbs|
    ensures ProcessOk(c, s.kernel.model.source, s.kernel.model.procs.pcbs[i])
  {
    hide LiveOk, BirthOk, SpaceOf, Built;
    var p := s.kernel.model.procs.pcbs[i];
    assert LiveAt(c, s, p) && BornOk(s, p);
    if !p.state.Terminal() {
      SpaceBack(c, s.kernel.model.source, s.mem, p, s.births[p.pid]);
      LiveIs(c, s.kernel.model.source.layout, s.mem, p, s.births[p.pid]);
    }
  }

  lemma LiveIs(c: KernelConfig, l: UserLayout, mem: Memory, p: Pcb, b: Birth)
    requires LiveOk(c, l, mem, p, b)
    ensures Buildable(c, l, b.boot, b.frames)
    ensures var s := Built(c, l, b.boot, b.frames); p.root == s.root && p.tables == s.tables && p.regions == s.regions
  {
    hide Creation, Built, Buildable, SpaceTables.TablesAt;
  }

  // ----- The pages of a `write` -----

  /** The pages from page `at` of the buffer on, as the regions tell them. */
  predicate TracksFrom(rs: seq<Region>, b: Buffer, at: nat, pages: seq<Word>)
    requires b.Fits() && at + |pages| <= b.Pages()
  {
    forall i :: 0 <= i < |pages| ==> RegionImages.RegionPage(rs, b.PageVa(at + i)) == Some(pages[i])
  }

  lemma TracksRest(rs: seq<Region>, b: Buffer, at: nat, pages: seq<Word>)
    requires b.Fits() && at + |pages| <= b.Pages() && pages != []
    ensures TracksFrom(rs, b, at, pages)
       <==> RegionImages.RegionPage(rs, b.PageVa(at)) == Some(pages[0]) && TracksFrom(rs, b, at + 1, pages[1..])
  {
    hide RegionImages.RegionPage, Buffer.PageVa, Buffer.Pages;
    if RegionImages.RegionPage(rs, b.PageVa(at)) == Some(pages[0]) && TracksFrom(rs, b, at + 1, pages[1..]) {
      forall i | 0 <= i < |pages| ensures RegionImages.RegionPage(rs, b.PageVa(at + i)) == Some(pages[i]) {
        if i > 0 {
          assert pages[1..][i - 1] == pages[i] && at + i == at + 1 + (i - 1);
        }
      }
    }
    if TracksFrom(rs, b, at, pages) {
      forall i | 0 <= i < |pages[1..]| ensures RegionImages.RegionPage(rs, b.PageVa(at + 1 + i)) == Some(pages[1..][i]) {
        assert pages[1..][i] == pages[i + 1] && at + 1 + i == at + (i + 1);
      }
    }
  }

  lemma PrefixRest(pages: seq<Word>, f: Word, e: seq<Word>)
    requires pages != []
    ensures pages <= [f] + e <==> pages[0] == f && pages[1..] <= e
  {
    assert pages == [pages[0]] + pages[1..];
  }

  lemma {:induction false} ExpectedIs(rs: seq<Region>, b: Buffer, at: nat, pages: seq<Word>)
    requires b.Fits() && at + |pages| <= b.Pages()
    ensures |Expected(rs, b, at)| <= b.Pages() - at
    ensures pages <= Expected(rs, b, at) <==> TracksFrom(rs, b, at, pages)
    decreases b.Pages() - at
  {
    hide RegionImages.RegionPage, Buffer.PageVa, Buffer.Pages, TracksFrom;
    if pages == [] {
      TracksNone(rs, b, at);
      if at < b.Pages() {
        ExpectedIs(rs, b, at + 1, []);
      }
    } else {
      ExpectedIs(rs, b, at + 1, pages[1..]);
      TracksRest(rs, b, at, pages);
      var r := RegionImages.RegionPage(rs, b.PageVa(at));
      if r.Some? {
        PrefixRest(pages, r.value, Expected(rs, b, at + 1));
      }
    }
  }

  lemma TracksNone(rs: seq<Region>, b: Buffer, at: nat)
    requires b.Fits() && at <= b.Pages()
    ensures TracksFrom(rs, b, at, [])
  {
  }

  /** The PCB of the running process. */
  function Runner(k: Kernel): Pcb
    requires k.model.procs.current.Some? && Writes.RunningAt(k) < |k.model.procs.pcbs|
  {
    k.model.procs.pcbs[Writes.RunningAt(k)]
  }

  /** The process a `write` is for is found again, and its space has the table the walk reads. */
  predicate WriterFits(c: KernelConfig, k: Kernel) {
    && Writing(k) && StageOk(k.op.value.stage) && k.model.procs.current.Some? && Writes.RunningAt(k) < |k.model.procs.pcbs|
    && var w, st := Writer(c, k.model), k.op.value.stage;
       && w.Some? && w.value.0 == Runner(k)
       && (st.Walk? ==> TableFits(w.value.1, st.buffer.PageVa(|st.pages|), st.table, st.level))
  }

  lemma WriterBack(c: KernelConfig, s: Machine)
    requires SoundMachine(c, s) && BirthsOk(s) && Writing(s.kernel)
    ensures WriterFits(c, s.kernel)
  {
    hide Inv, LivesOk, BirthOk, DevicesApart, PlansInPage, FlightOk, IndexOf, SpaceOf, Built, Creation, Buildable, Writes.Found, PeekEntry, SpaceTables.TablesAt, SpaceTables.TableSet, TableFits, Sv32.Vpn1, DecidePte, StageOk;
    var k, root := s.kernel, TheRoot(s.kernel);
    WritingRuns(c, k);
    Writes.RunnerLives(c, k, root);
    StageHolds(c, k);
    var p, source := Runner(k), k.model.source;
    LiveTables(c, s, Writes.RunningAt(k));
    assert BornOk(s, p);
    var b := s.births[p.pid];
    SpaceBack(c, source, s.mem, p, b);
    var st := k.op.value.stage;
    if st.Walk? {
      WalkFits(st);
      WalkTable(c, source.layout, b, s.mem, st.buffer.PageVa(|st.pages|), st.table, st.level);
      SameTables(Built(c, source.layout, b.boot, b.frames), SpaceOf(c, source, p).value, st.buffer.PageVa(|st.pages|), st.table, st.level);
    }
  }

  lemma WalkFits(s: Stage)
    requires s.Walk? && StageOk(s)
    ensures s.buffer.Fits() && |s.pages| < s.buffer.Pages() && s.level <= 1
  {
  }

  lemma SameTables(s: Space, t: Space, va: Word, table: Word, level: nat)
    requires t.root == s.root && t.slots == s.slots && TableFits(s, va, table, level)
    ensures TableFits(t, va, table, level)
  {
  }

  lemma StageHolds(c: KernelConfig, k: Kernel)
    requires Inv(c, k) && k.op.Some?
    ensures StageOk(k.op.value.stage) && OpOk(c, k.op.value)
  {
    hide Sound, StageFits;
  }

  /** The table a walk reads is the root, or the one the root points to. */
  lemma WalkTable(c: KernelConfig, l: UserLayout, b: Birth, mem: Memory, va: Word, table: Word, level: nat)
    requires Creation(c, l, b.boot, b.frames) && Buildable(c, l, b.boot, b.frames) && level <= 1
    requires SpaceTables.TablesAt(mem, Built(c, l, b.boot, b.frames), SpaceRun.Steps(Built(c, l, b.boot, b.frames)))
    requires var root := Built(c, l, b.boot, b.frames).root;
      && (level == 1 ==> table == root)
      && (level == 0 ==> DecidePte(PeekEntry(mem, root, Sv32.Vpn1(va)), 1, va) == Pointer(table))
    ensures TableFits(Built(c, l, b.boot, b.frames), va, table, level)
  {
    hide Creation, Buildable, Built, SpaceTables.TablesAt, SpaceTables.TableSet, PeekEntry, Sv32.Vpn1, Sv32.PteStep, DecidePte;
    if level == 0 {
      Writes.RootStep(c, l, b.boot, b.frames, mem, va, USER_LOAD);
      DecideAgrees(PeekEntry(mem, Built(c, l, b.boot, b.frames).root, Sv32.Vpn1(va)), 1, va);
    }
  }

  // ----- The stage -----

  /** A `write` under way has found the pages the running process's regions tell. */
  predicate Told(k: Kernel) {
    Writing(k) && k.model.procs.current.Some? && Writes.RunningAt(k) < |k.model.procs.pcbs| && StageOk(k.op.value.stage) ==>
      TracksFrom(Runner(k).regions, k.op.value.stage.buffer, 0, k.op.value.stage.pages)
  }

  /** The saved stage is rebuilt, or refused if it is a `write` whose pages the regions do not tell. */
  predicate Rebuilt(c: KernelConfig, k: Kernel) {
    && k.op.Some?
    && StageOf(c, k.model, RawOf(k.op.value.stage)) == if Told(k) then Some(k.op.value.stage) else None
  }

  lemma WriteBack(c: KernelConfig, s: Machine)
    requires SoundMachine(c, s) && BirthsOk(s) && Writing(s.kernel)
    ensures Rebuilt(c, s.kernel)
  {
    hide SoundMachine, BirthsOk, Writer, TableFits, Expected, RegionImages.RegionPage, Buffer.Pages, Buffer.PageVa, Buffer.StartFrom;
    WriterBack(c, s);
    var st := s.kernel.op.value.stage;
    var b, rs := st.buffer, Runner(s.kernel).regions;
    ExpectedIs(rs, b, 0, st.pages);
    if st.Output? {
      Whole(st.pages, Expected(rs, b, 0));
    }
  }

  lemma Whole(a: seq<Word>, b: seq<Word>)
    requires |b| <= |a|
    ensures a <= b <==> a == b
  {
  }

  /** The cursor of a boot from disk is accepted. */
  lemma CursorBack(c: KernelConfig, m: Model, cursor: Cursor)
    requires AtCursor(c, m, cursor) && Uncounted(m, cursor)
    ensures CursorFits(c, m, cursor)
  {
    hide ExecTables.Parsed, ExecTables.EncodedBlock, ExecTables.EntriesError;
    if cursor.table.Some? {
      ExecTables.ParseEncoded(cursor.table.value, m.source.capacity, StagingSize(c));
    }
  }

  lemma CreateBack(c: KernelConfig, k: Kernel)
    requires Inv(c, k) && k.op.Some? && k.op.value.stage.Create?
    ensures Rebuilt(c, k)
  {
    hide Sound, OpOk, Accepted, ValidLayout, MegapageConflict, Built, FramesNeeded;
  }

  lemma LoadBack(c: KernelConfig, k: Kernel)
    requires Inv(c, k) && Tight(k) && k.op.Some? && k.op.value.stage.Load?
    ensures Rebuilt(c, k)
  {
    hide Sound, OpOk, Accepted, ValidLayout, MegapageConflict, Built, FramesNeeded, U.Parsed, AtCursor, CursorFits, Lowest;
    var st := k.op.value.stage;
    CursorBack(c, k.model, st.cursor);
  }

  lemma BootBack(c: KernelConfig, k: Kernel)
    requires Inv(c, k) && Tight(k) && k.op.Some?
    requires var st := k.op.value.stage; st.Command? || st.Poll? || st.Ack? || st.Staged?
    ensures Rebuilt(c, k)
  {
    hide Sound, OpOk, AtCursor, CursorFits;
    CursorBack(c, k.model, k.op.value.stage.cursor);
  }

  lemma OtherBack(c: KernelConfig, k: Kernel)
    requires Inv(c, k) && Tight(k) && k.op.Some?
    requires var st := k.op.value.stage; st.ReadFrame? || st.Return? || st.Shutdown? || st.Dispatch?
    ensures Rebuilt(c, k)
  {
    hide Sound, OpOk, IndexOf;
  }

  lemma StageBack(c: KernelConfig, s: Machine)
    requires SoundMachine(c, s) && BirthsOk(s) && Tight(s.kernel) && s.kernel.op.Some?
    ensures Rebuilt(c, s.kernel)
  {
    hide MachineInv, WriteOk, BirthsOk, Tight, Rebuilt, Inv;
    Isolation.HasLives(c, s);
    var st := s.kernel.op.value.stage;
    match st
    case Walk(_, _, _, _) => WriteBack(c, s);
    case Output(_, _, _) => WriteBack(c, s);
    case Create(_, _) => CreateBack(c, s.kernel);
    case Load(_, _, _, _) => LoadBack(c, s.kernel);
    case Command(_) => BootBack(c, s.kernel);
    case Poll(_) => BootBack(c, s.kernel);
    case Ack(_, _) => BootBack(c, s.kernel);
    case Staged(_, _) => BootBack(c, s.kernel);
    case _ => OtherBack(c, s.kernel);
  }

  // ----- The whole snapshot -----

  /** The decoded model differs from the saved one in its frame owners alone, which no stage depends on. */
  lemma StageAnyway(c: KernelConfig, m: Model, d: Frames, r: RawStage)
    ensures StageOf(c, m.(procs := m.procs.(frames := d)), r) == StageOf(c, m, r)
  {
    hide SpaceOf, ExecTables.Parsed, ExecTables.EncodedBlock, U.Parsed, FramesFit, Built, Expected, IndexOf, TableFits, StagedFits;
  }

  /** The model as `decode_model` leaves it. */
  function Decoded(m: Model): Model {
    m.(procs := m.procs.(frames := DecodedFrames(m.procs.frames.base, BitsOf(m.procs.frames), m.procs.pcbs)))
  }

  lemma DecodeBack(c: KernelConfig, s: Machine, x: Saved)
    requires x.model == s.kernel.model && Inv(c, s.kernel) && LivesOk(c, s) && BirthsOk(s)
    ensures DecodeModel(c, x.model.source, x.model.procs.frames.base, Take(x)) == Some(Decoded(x.model))
  {
    hide ProcessOk, LivesOk, BirthsOk, DecodedFrames, Consistent;
    EntriesFit(c, s.kernel);
    forall i | 0 <= i < |x.model.procs.pcbs| ensures ProcessOk(c, x.model.source, x.model.procs.pcbs[i]) {
      LiveBack(c, s, i);
    }
  }

  lemma EntriesFit(c: KernelConfig, k: Kernel)
    requires Inv(c, k)
    ensures EntriesOk(k.model) && PoolOk(c, k.model.procs.frames) && k.model.entries <= MAX_PROCESSES
    ensures k.model.life == AwaitBoot ==> k.op.None? && k.model.procs.pcbs == [] && (k.model.source.Disk? ==> k.model.entries == 0)
  {
    hide Consistent, ValidLayout, OpOk, SpaceFor, U.Parsed;
    InvSound(c, k);
  }

  /** `check_life` accepts the decoded model, and gives the frames their owners back. */
  lemma LifeBack(c: KernelConfig, k: Kernel)
    requires Inv(c, k) && Tight(k)
    ensures CheckLife(Decoded(k.model), k.op) == Some(k.model)
  {
    hide Sound, Within, OpOk, BitsOf, DecodedFrames, Granted, Consistent, Lowest;
    EntriesFit(c, k);
    InvSound(c, k);
    var creating := if k.op.Some? then InFlight(k.op.value.stage) else None;
    IsConsistent(c, k.model, creating);
    OwnersBack(k.model.procs, k.model.entries, creating);
  }

  lemma IsConsistent(c: KernelConfig, m: Model, creating: Option<Creating>)
    requires Sound(c, m, creating)
    ensures Consistent(m.procs, m.entries, creating)
  {
    hide Consistent;
  }

  /** `x` is a state of the engine whose kernel is `k`. */
  predicate Stands(x: Saved, k: Kernel) {
    && x.model == k.model && OpOf(x.state) == k.op
    && (x.held.Some? <==> !x.state.Idle?) && (x.state.Wait? ==> x.next == x.state.txn + 1)
  }

  /** What `restore` makes of the snapshot of `x`, in a kernel of the same configuration and source. */
  ghost function Back(c: KernelConfig, x: Saved): Option<Saved> {
    var base := c.framePool.base / PAGE;
    if base < WORD_LIMIT then Restored(c, x.model.source, base, Take(x)) else None
  }

  lemma OpBack(c: KernelConfig, s: Machine, op: ProcOp)
    requires SoundMachine(c, s) && BirthsOk(s) && Tight(s.kernel) && s.kernel.op == Some(op)
    ensures OpFrom(c, Decoded(s.kernel.model), RawOp(RawOf(op.stage), op.step, op.data)) == if Told(s.kernel) then Some(op) else None
  {
    hide MachineInv, WriteOk, BirthsOk, Tight, StageOf, RawOf, Inv, Told, OpOk;
    Isolation.HasLives(c, s);
    StageHolds(c, s.kernel);
    StageBack(c, s);
    StageAnyway(c, s.kernel.model, Decoded(s.kernel.model).procs.frames, RawOf(op.stage));
  }

  lemma DuePermitted(c: KernelConfig, s: Machine)
    requires SoundMachine(c, s) && Permits.Platform(c) && s.kernel.op.Some?
    ensures OpOk(c, s.kernel.op.value) && Permitted(c, AccessDue(c, s.kernel.op.value))
  {
    hide MachineInv, WriteOk, Inv, OpOk, AccessDue, Permitted, Permits.Issuable;
    Isolation.HasLives(c, s);
    StageHolds(c, s.kernel);
    Permits.AccessPermitted(c, s);
    GateRun.IssuablePermitted(c, AccessDue(c, s.kernel.op.value));
  }

  /** A snapshot of any state a run from boot reaches restores to that state, or is refused if a `write` under way has
      found pages the running process's regions do not tell. */
  lemma RestoresExactly(c: KernelConfig, s: Machine, x: Saved)
    requires Stands(x, s.kernel) && PermitsRun.Reached(c, s)
    ensures Back(c, x) == if Told(s.kernel) then Some(x) else None
  {
    hide PermitsRun.Reached, MachineInv, WriteOk, BirthsOk, Tight, Inv, Told, OpOk, AccessDue, Permitted, DecodeModel, OpFrom, CheckLife, RawOf, BitsOf, LivesOk;
    PermitsRun.ReachedSound(c, s);
    ReachedRest(c, s);
    Isolation.HasLives(c, s);
    EntriesFit(c, s.kernel);
    DecodeBack(c, s, x);
    LifeBack(c, s.kernel);
    if s.kernel.op.Some? {
      OpBack(c, s, s.kernel.op.value);
      DuePermitted(c, s);
    } else {
      NoneTold(s.kernel);
    }
  }

  lemma NoneTold(k: Kernel)
    requires k.op.None?
    ensures Told(k)
  {
  }

  // ----- When the regions tell -----

  /** The readable segments of every plan have no gap; the parser leaves none in a disk image. */
  predicate PlansFollow(s: Source) {
    s.Plan? ==> forall i :: 0 <= i < |s.images| ==> ReadableFollow(s.images[i].image)
  }

  lemma BirthFollows(source: Source, pid: Word, b: Birth)
    requires BirthOk(source, pid, b) && PlansFollow(source)
    ensures ReadableFollow(b.boot.image)
  {
  }

  /** Where the kernel's walk finds a page of a process, its regions tell it. */
  lemma PageTold(c: KernelConfig, l: UserLayout, b: Birth, mem: Memory, va: Word, f: Word)
    requires Creation(c, l, b.boot, b.frames) && Buildable(c, l, b.boot, b.frames) && ReadableFollow(b.boot.image) && va % PAGE == 0
    requires SpaceTables.TablesAt(mem, Built(c, l, b.boot, b.frames), SpaceRun.Steps(Built(c, l, b.boot, b.frames)))
    requires Writes.UserAt(mem, Built(c, l, b.boot, b.frames).root, va) == Some(f * PAGE)
    ensures RegionImages.RegionPage(Built(c, l, b.boot, b.frames).regions, va) == Some(f)
  {
    hide Accepted, ValidLayout, CopiesInPage, MegapageConflict, SlotSet, PlaceUpTo, Pages, Built, SpaceTables.TablesAt, ReadableFollow, Regions, Writes.UserAt, SpaceWalk.RamReader, Sv32.Translated, SpaceRun.Steps, RegionImages.RegionPage, OnPage;
    var ps := Pages(b.boot.image, l);
    var fs := RegionsOf(c, l, b.boot, b.frames);
    Writes.KernelWalk(c, l, b.boot, b.frames, mem, va);
    SpaceTables.TablesDecide(c, l, b.boot, b.frames, mem, va, USER_LOAD);
    var j :| 0 <= j < |ps| && SpaceWalk.Grants(ps[j], va, USER_LOAD);
    SpaceWalk.PageFrame(c, l, b.boot, b.frames, j);
    FrameAt(Placing(l, b.boot, b.frames).placed, j);
    PagesFacts(c, l, b.boot, j);
    SamePageStart(ps[j].va, va);
    RegionImages.RegionsExact(c, l, b.boot, fs);
  }

  lemma SamePageStart(x: int, y: int)
    requires x % PAGE == 0 && y % PAGE == 0 && OnPage(x, y)
    ensures x == y
  {
  }

  /** The regions of a space hold its pages' frames. */
  lemma RegionsOf(c: KernelConfig, l: UserLayout, b: BootImage, frames: seq<Word>) returns (fs: seq<Word>)
    requires Buildable(c, l, b, frames)
    ensures |fs| == |Pages(b.image, l)| && fs == FramesOf(Placing(l, b, frames).placed)
    ensures Built(c, l, b, frames).regions == Regions(b.image, l, fs)
  {
    hide SlotSet, PlaceUpTo, Pages, SortByIndex, TopEntries, Regions, TablesOf, FramesOf;
    fs := FramesOf(Placing(l, b, frames).placed);
    PlaceGood(Pages(b.image, l), frames, b.staged, |Pages(b.image, l)|);
  }

  lemma RunnerTold(c: KernelConfig, s: Machine, va: Word, f: Word)
    requires SoundMachine(c, s) && BirthsOk(s) && Writing(s.kernel) && PlansFollow(s.kernel.model.source) && va % PAGE == 0
    requires Writes.UserAt(s.mem, TheRoot(s.kernel), va) == Some(f * PAGE)
    ensures s.kernel.model.procs.current.Some? && Writes.RunningAt(s.kernel) < |s.kernel.model.procs.pcbs|
    ensures RegionImages.RegionPage(Runner(s.kernel).regions, va) == Some(f)
  {
    hide WriteOk, Inv, LivesOk, BirthOk, DevicesApart, PlansInPage, FlightOk, IndexOf, Built, Creation, Buildable, SpaceTables.TablesAt, SpaceTables.TableSet, PlansFollow, Writes.UserAt, RegionImages.RegionPage, ReadableFollow;
    var k, root := s.kernel, TheRoot(s.kernel);
    WritingRuns(c, k);
    Writes.RunnerLives(c, k, root);
    var p, source := Runner(k), k.model.source;
    LiveTables(c, s, Writes.RunningAt(k));
    assert BornOk(s, p);
    var b := s.births[p.pid];
    BirthFollows(source, p.pid, b);
    PageTold(c, source.layout, b, s.mem, va, f);
  }

  lemma FollowTold(c: KernelConfig, s: Machine)
    requires SoundMachine(c, s) && BirthsOk(s) && PlansFollow(s.kernel.model.source)
    ensures Told(s.kernel)
  {
    hide MachineInv, BirthsOk, PlansFollow, Writes.UserAt, RegionImages.RegionPage, Buffer.PageVa, Buffer.Pages, StageOk, WriteOk;
    if Writing(s.kernel) && StageOk(s.kernel.op.value.stage) {
      WriteFound(s);
      var st := s.kernel.op.value.stage;
      forall i | 0 <= i < |st.pages|
        ensures s.kernel.model.procs.current.Some? && Writes.RunningAt(s.kernel) < |s.kernel.model.procs.pcbs|
        ensures RegionImages.RegionPage(Runner(s.kernel).regions, st.buffer.PageVa(i)) == Some(st.pages[i])
      {
        RunnerTold(c, s, st.buffer.PageVa(i), st.pages[i]);
      }
    }
  }

  lemma WriteFound(s: Machine)
    requires WriteOk(s) && Writing(s.kernel) && StageOk(s.kernel.op.value.stage)
    ensures var st := s.kernel.op.value.stage;
      st.buffer.Fits() && |st.pages| <= st.buffer.Pages() && Writes.Found(s.mem, TheRoot(s.kernel), st.buffer, st.pages)
  {
    hide Writes.Found, Writes.Readable, DecidePte;
  }

  /** Every snapshot of every state a run from boot reaches restores to that state, if no plan has a gap in a readable
      segment. */
  lemma EveryStateRestores(c: KernelConfig, s: Machine, x: Saved)
    requires Stands(x, s.kernel) && PlansFollow(x.model.source) && PermitsRun.Reached(c, s)
    ensures Back(c, x) == Some(x)
  {
    hide PermitsRun.Reached, SoundMachine, BirthsOk, Tight, Told, Back, PlansFollow;
    PermitsRun.ReachedSound(c, s);
    ReachedRest(c, s);
    FollowTold(c, s);
    RestoresExactly(c, s, x);
  }

  /** The same of the engine: at every point of a run of the kernel from boot, with memory that answers, its snapshot restores
      to its state. */
  lemma EngineRestores(k: ModeledKernel, s: Machine)
    requires GateRun.Joined(k, s) && PermitsRun.Reached(k.config, s) && PlansFollow(k.model.source)
    ensures var x := Saved(k.model.Now(), k.state, k.held, k.nextTxn); Back(k.config, x) == Some(x)
  {
    hide PermitsRun.Reached, SoundMachine, PlansFollow, Back, Inv;
    EveryStateRestores(k.config, s, Saved(k.model.Now(), k.state, k.held, k.nextTxn));
  }
}
