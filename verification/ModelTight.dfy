/** What every stage a run reaches satisfies beyond what the model needs to go on: a creation has the lowest frames, block 0
    is read before the table is counted, a staging read is at least the first, and a shutdown's reason is 0 or 1. */
module ModelTight {
  import opened Words
  import opened Core
  import opened Config
  import opened Image
  import opened Space
  import opened UserCopy
  import opened Processes
  import opened ExecTables
  import opened ProcOps
  import opened Models
  import opened ModelRun
  import opened ModelKept
  import U = UserElf
  import UX = UserElfExact

  /** No frame below the last of `frames` is free. */
  predicate Lowest(fs: Frames, frames: seq<Word>) {
    frames != [] ==> forall i :: 0 <= i < |fs.owners| && fs.base + i < frames[|frames| - 1] ==> fs.owners[i] != 0
  }

  /** Block 0 is read before the table is counted. */
  predicate Uncounted(m: Model, cursor: Cursor) {
    cursor.table.None? ==> m.entries == 0
  }

  predicate StageTight(m: Model, s: Stage) {
    match s
    case Create(_, space) => Lowest(m.procs.frames, space.frames)
    case Load(_, _, _, space) => Lowest(m.procs.frames, space.frames)
    case Command(cursor) => Uncounted(m, cursor)
    case Poll(cursor) => Uncounted(m, cursor)
    case Ack(cursor, _) => Uncounted(m, cursor)
    case Staged(cursor, len) => Uncounted(m, cursor) && (cursor.Ok() ==> len >= cursor.FirstRead())
    case Shutdown(reason) => reason <= 1
    case _ => true
  }

  predicate TurnTight(t: Turn<Stage>) {
    t.result.Ok? ==> StageTight(t.model, t.result.value)
  }

  // ----- Reservations -----

  lemma ReserveLowest(fs: Frames, pid: Word, n: nat)
    requires fs.Wide() && pid != 0 && Reserve(fs, pid, n).Some?
    ensures Lowest(SetOwner(fs, Reserve(fs, pid, n).value, pid), Reserve(fs, pid, n).value)
  {
    hide OwnedFrom, SetOwners;
    var r, free := Reserve(fs, pid, n).value, OwnedBy(fs, 0);
    var after := SetOwner(fs, r, pid);
    if r != [] {
      forall i | 0 <= i < |fs.owners| && fs.base + i < r[|r| - 1] ensures after.owners[i] != 0 {
        var f := fs.base + i;
        assert after.Owner(f) == Some(after.owners[i]) && fs.Owner(f) == Some(fs.owners[i]);
        if fs.owners[i] == 0 {
          assert f in free;
          var k :| 0 <= k < |free| && free[k] == f;
          assert k < |r| && r[k] == f;
        }
      }
    }
  }

  // ----- Decisions -----

  lemma DispatchTight(m: Model)
    ensures TurnTight(DispatchNext(m))
  {
    hide ScheduleNext, IndexOf;
  }

  lemma {:induction false} CreationTight(c: KernelConfig, m: Model, from: nat)
    requires Models.Ready(c, m)
    ensures TurnTight(NextCreation(c, m, from))
    decreases if m.source.Plan? then |m.source.images| - from else 0
  {
    hide Models.Ready, DispatchNext, MegapageConflict, FramesNeeded, Built, SetOwner, OwnedBy, Lowest;
    DispatchTight(m);
    if m.source.Plan? && from < |m.source.images| {
      CreationTight(c, m, from + 1);
      LayoutOf(c, m);
      var b := m.source.images[from];
      var r := Reserve(m.procs.frames, from + 1, FramesNeeded(b.image, m.source.layout));
      if r.Some? && !MegapageConflict(b.image, c) {
        ReserveLowest(m.procs.frames, from + 1, FramesNeeded(b.image, m.source.layout));
        ImageBuildable(c, m, b, from);
        BuiltFrames(c, m.source.layout, b, r.value);
      }
    }
  }

  lemma ImageBuildable(c: KernelConfig, m: Model, b: BootImage, i: nat)
    requires Models.Ready(c, m) && m.source.Plan? && i < |m.source.images| && b == m.source.images[i]
    ensures ValidLayout(c, m.source.layout) && Accepted(b, c, m.source.layout)
  {
    hide ValidLayout, Accepted;
  }

  /** A space takes the frames it is given. */
  lemma BuiltFrames(c: KernelConfig, l: UserLayout, b: BootImage, frames: seq<Word>)
    requires ValidLayout(c, l) && Accepted(b, c, l) && l.StackBase().Some? && |frames| == FramesNeeded(b.image, l)
    ensures Buildable(c, l, b, frames) && Built(c, l, b, frames).frames == frames
  {
    hide ValidLayout, Accepted, PlaceUpTo, SlotSet, SortByIndex, TopEntries, Regions;
    PlanBuildable(c, l, b, frames);
    PlaceGood(Pages(b.image, l), frames, b.staged, |Pages(b.image, l)|);
    assert frames[..|frames|] == frames;
  }

  lemma LoadTight(m: Model, table: Option<ExecTable>, index: nat)
    ensures TurnTight(NextLoad(m, table, index))
  {
    hide DispatchNext;
    DispatchTight(m);
  }

  lemma AckedTight(m: Model, cursor: Cursor, error: Byte)
    requires cursor.Ok() && Uncounted(m, cursor)
    ensures TurnTight(Acked(m, cursor, error))
  {
    hide NextLoad;
    LoadTight(m, cursor.table, cursor.index + 1);
  }

  lemma ImageTight(c: KernelConfig, m: Model, cursor: Cursor, headers: seq<Byte>, image: UserImage)
    requires Models.Ready(c, m) && m.source.Disk? && CursorOk(c, m.source.capacity, cursor) && cursor.table.Some?
    requires cursor.index < MAX_ENTRIES
    requires Accepted(Staging(c, cursor.Entry().value.byteLen, image), c, m.source.layout)
    ensures TurnTight(LoadImage(c, m, cursor, headers, image))
  {
    hide NextLoad, MegapageConflict, FramesNeeded, Built, SetOwner, OwnedBy, Accepted, EntriesError, Lowest, ValidLayout;
    LoadTight(m, cursor.table, cursor.index + 1);
    LayoutOf(c, m);
    var l := m.source.layout;
    var r := Reserve(m.procs.frames, cursor.index + 1, FramesNeeded(image, l));
    if r.Some? && !MegapageConflict(image, c) {
      ReserveLowest(m.procs.frames, cursor.index + 1, FramesNeeded(image, l));
      BuiltFrames(c, l, Staging(c, cursor.Entry().value.byteLen, image), r.value);
    }
  }

  lemma StagedTight(c: KernelConfig, m: Model, cursor: Cursor, len: nat, data: seq<Byte>)
    requires Models.Ready(c, m) && cursor.Ok() && (m.source.Disk? ==> CursorOk(c, m.source.capacity, cursor))
    requires cursor.index < MAX_ENTRIES && Uncounted(m, cursor) && len >= cursor.FirstRead()
    ensures TurnTight(StagedRead(c, m, cursor, len, data))
  {
    hide NextLoad, LoadImage, U.Parsed, ValidSource, EntriesError, Accepted, ExecTables.Parsed;
    LoadTight(m, cursor.table, cursor.index + 1);
    if m.source.Disk? {
      if cursor.table.None? {
        if |data| == BLOCK_SIZE {
          var r := ExecTables.Parsed(data, m.source.capacity, StagingSize(c));
          if r.Ok? {
            LoadTight(m.(entries := |r.value.entries|), Some(r.value), 0);
          }
        }
      } else {
        EntryAccepted(c, m.source, cursor, data);
        var r := U.Parsed(data, cursor.Entry().value.byteLen, UX.RangeOf(m.source.layout));
        if r.Ok? {
          ImageTight(c, m, cursor, data, r.value);
        }
      }
    }
  }

  lemma DecideTight(m: Model, frame: FrameBytes)
    ensures TurnTight(Decide(m, frame))
  {
    hide YieldCurrent, EndCurrent, DispatchNext, WordIn, RunningRoot;
    DispatchTight(m.(procs := YieldCurrent(m.procs, YieldContext(frame)).procs));
    DispatchTight(m.(procs := EndCurrent(m.procs, Exited(Signed(WordIn(frame, FRAME_A0)))).procs));
    DispatchTight(m.(procs := EndCurrent(m.procs, Faulted(WordIn(frame, FRAME_SCAUSE), WordIn(frame, FRAME_SEPC), WordIn(frame, FRAME_STVAL))).procs));
  }

  lemma StartTight(c: KernelConfig, m: Model, value: Word)
    requires Models.Ready(c, m) && (m.life == AwaitBoot && m.source.Disk? ==> m.entries == 0)
    ensures TurnTight(Start(c, m, value))
  {
    hide Models.Ready, NextCreation;
    UpReady(c, m);
    if m.source.Plan? {
      CreationTight(c, m.(life := Up), 0);
    }
  }

  lemma AdvanceTight(c: KernelConfig, m: Model, s: Stage, data: seq<Byte>)
    requires Models.Ready(c, m) && Advanceable(c, m, s) && HasData(s, data) && StageTight(m, s)
    ensures var t := Advance(c, m, s, data); t.result.Ok? && t.result.value.Some? ==> StageTight(t.model, t.result.value.value)
  {
    hide ValidSource, AdmitNew, NextCreation, NextLoad, Decide, StagedRead, Acked, WordIn, EntriesError, RunningRoot, Lowest;
    AdmittedReady(c, m, s);
    match s
    case Create(pid, _) =>
      if m.source.Plan? {
        CreationTight(c, Admitted(m, s), pid);
      }
    case Load(cursor, _, _, _) => LoadTight(Admitted(m, s), cursor.table, cursor.index + 1);
    case Ack(cursor, error) => AckedTight(m, cursor, error);
    case Staged(cursor, len) => StagedTight(c, m, cursor, len, data);
    case ReadFrame => DecideTight(m, data);
    case _ =>
  }

  /** The kernel's stage is tight. */
  predicate Tight(k: Kernel) {
    k.op.Some? ==> StageTight(k.model, k.op.value.stage)
  }

  /** Every event keeps it. */
  lemma StepTight(c: KernelConfig, k: Kernel, e: Event)
    requires Inv(c, k) && Tight(k) && Models.Ready(c, k.model)
    requires k.op.Some? ==> OpOk(c, k.op.value) && Advanceable(c, k.model, k.op.value.stage)
    requires Allowed(c, k, e) && Step(c, k, e).Ok?
    ensures Tight(Step(c, k, e).value)
  {
    hide Within, Sound, Start, Advance, OpOk, Complete, StageOk, Models.Ready, Advanceable, Answers, HasData, StageTight, Finished;
    match e
    case Enter(value) => StartTight(c, k.model, value);
    case Answered(done) =>
      AllowedAnswer(c, k, done);
      OpStage(c, k.op.value);
      CompleteOk(c, k.op.value, done);
      FinishedData(c, k.op.value, done);
      var next := Complete(c, k.op.value, done).value;
      if Finished(c, next) {
        AdvanceTight(c, k.model, next.stage, next.data);
      }
  }
}
