/** What no decision of the kernel changes: a process keeps its PID and, while it lives, its address space; and a Ready
    process keeps its context until it is dispatched with it. */
module ModelKept {
  import opened Words
  import opened Core
  import opened Config
  import opened Image
  import opened Space
  import opened UserCopy
  import opened Processes
  import opened ExecTables
  import opened ProcOps
  import opened Models
  import U = UserElf
  import UX = UserElfExact

  /** `q` is `p` later: the same PID, and ended or still in the same address space. */
  predicate SamePlace(p: Pcb, q: Pcb) {
    && q.pid == p.pid
    && (q.state.Terminal() || (!p.state.Terminal() && q.root == p.root && q.tables == p.tables && q.regions == p.regions))
  }

  predicate Kept(a: Procs, b: Procs) {
    |b.pcbs| == |a.pcbs| && forall i :: 0 <= i < |a.pcbs| ==> SamePlace(a.pcbs[i], b.pcbs[i])
  }

  /** `q` is the Ready process `p` dispatched, with the context it had, in its own address space. */
  predicate Resumed(p: Pcb, q: Pcb, next: Option<Stage>) {
    p.context.Some? && q == p.(state := Running, context := None) && next == Some(Dispatch(p.pid, p.context.value, Satp(p.root)))
  }

  /** Every Ready process of `a` is as it was in `b`, or was dispatched by the stage that comes next. */
  predicate ReadyKept(a: Procs, b: Procs, next: Option<Stage>) {
    && |a.pcbs| <= |b.pcbs|
    && forall i :: 0 <= i < |a.pcbs| && a.pcbs[i].state == Ready ==> b.pcbs[i] == a.pcbs[i] || Resumed(a.pcbs[i], b.pcbs[i], next)
  }

  /** Every Ready process is as it was. */
  predicate StillReady(a: Procs, b: Procs) {
    |b.pcbs| == |a.pcbs| && forall i :: 0 <= i < |a.pcbs| && a.pcbs[i].state == Ready ==> b.pcbs[i] == a.pcbs[i]
  }

  function StageIn(t: Turn<Stage>): Option<Stage> {
    if t.result.Ok? then Some(t.result.value) else None
  }

  predicate TurnKept(m: Model, t: Turn<Stage>) {
    Kept(m.procs, t.model.procs) && t.model.source == m.source && ReadyKept(m.procs, t.model.procs, StageIn(t))
  }

  lemma KeptTwice(a: Procs, b: Procs, c: Procs)
    requires Kept(a, b) && Kept(b, c)
    ensures Kept(a, c)
  {
  }

  lemma ReadyTwice(a: Procs, b: Procs, c: Procs, next: Option<Stage>)
    requires StillReady(a, b) && ReadyKept(b, c, next)
    ensures ReadyKept(a, c, next)
  {
  }

  lemma ScheduleKept(p: Procs)
    ensures Kept(p, ScheduleNext(p).procs)
  {
  }

  /** The current process, if it has a PCB, is Running. */
  predicate RunningRuns(p: Procs) {
    p.current.Some? ==> var k := IndexOf(p.pcbs, p.current.value); k < |p.pcbs| ==> p.pcbs[k].state == Running
  }

  lemma YieldKept(p: Procs, context: Context)
    requires RunningRuns(p)
    ensures Kept(p, YieldCurrent(p, context).procs) && StillReady(p, YieldCurrent(p, context).procs)
  {
  }

  lemma EndKept(p: Procs, state: ProcState)
    requires RunningRuns(p)
    ensures Kept(p, EndCurrent(p, state).procs) && StillReady(p, EndCurrent(p, state).procs)
  {
  }

  lemma DispatchKept(m: Model)
    ensures TurnKept(m, DispatchNext(m))
  {
    hide Kept, IndexOf;
    ScheduleKept(m.procs);
    if m.procs.queue != [] {
      var k := IndexOf(m.procs.pcbs, m.procs.queue[0]);
      if k < |m.procs.pcbs| {
        IndexSame(m.procs.pcbs, k, m.procs.pcbs[k].(context := None, state := Running), m.procs.queue[0]);
      }
    }
  }

  lemma SamePcbs(a: Procs, b: Procs)
    requires a.pcbs == b.pcbs
    ensures Kept(a, b) && forall next: Option<Stage> :: ReadyKept(a, b, next)
  {
  }

  lemma {:induction false} CreationKept(c: KernelConfig, m: Model, from: nat)
    requires Models.Ready(c, m)
    ensures TurnKept(m, NextCreation(c, m, from))
    decreases if m.source.Plan? then |m.source.images| - from else 0
  {
    hide Models.Ready, DispatchNext, MegapageConflict, FramesNeeded, Built, SetOwner, OwnedBy, Kept, ReadyKept;
    SamePcbs(m.procs, m.procs);
    if m.source.Plan? {
      if from >= |m.source.images| {
        DispatchKept(m);
      } else {
        CreationKept(c, m, from + 1);
        LayoutOf(c, m);
        var b := m.source.images[from];
        var r := Reserve(m.procs.frames, from + 1, FramesNeeded(b.image, m.source.layout));
        if r.Some? {
          SamePcbs(m.procs, Taken(m, from + 1, r.value).procs);
        }
      }
    }
  }

  lemma LayoutOf(c: KernelConfig, m: Model)
    requires Models.Ready(c, m)
    ensures m.source.layout.StackBase().Some? && m.procs.frames.Wide() && (m.source.Plan? ==> |m.source.images| <= MAX_PROCESSES)
  {
  }

  lemma LoadKept(m: Model, table: Option<ExecTable>, index: nat)
    ensures TurnKept(m, NextLoad(m, table, index))
  {
    hide DispatchNext, Kept, ReadyKept;
    SamePcbs(m.procs, m.procs);
    DispatchKept(m);
  }

  lemma AckedKept(m: Model, cursor: Cursor, error: Byte)
    requires cursor.Ok()
    ensures TurnKept(m, Acked(m, cursor, error))
  {
    hide NextLoad, Kept, ReadyKept;
    SamePcbs(m.procs, m.procs);
    LoadKept(m, cursor.table, cursor.index + 1);
  }

  lemma TableKept(c: KernelConfig, m: Model, capacity: Word, data: seq<Byte>)
    ensures TurnKept(m, TableRead(c, m, capacity, data))
  {
    hide NextLoad, Kept, ReadyKept, ExecTables.Parsed;
    SamePcbs(m.procs, m.procs);
    if |data| == BLOCK_SIZE {
      var r := ExecTables.Parsed(data, capacity, StagingSize(c));
      if r.Ok? {
        LoadKept(m.(entries := |r.value.entries|), Some(r.value), 0);
      }
    }
  }

  lemma ImageKept(c: KernelConfig, m: Model, cursor: Cursor, headers: seq<Byte>, image: UserImage)
    requires Models.Ready(c, m) && m.source.Disk? && CursorOk(c, m.source.capacity, cursor) && cursor.table.Some?
    requires cursor.index < MAX_ENTRIES
    requires Accepted(Staging(c, cursor.Entry().value.byteLen, image), c, m.source.layout)
    ensures TurnKept(m, LoadImage(c, m, cursor, headers, image))
  {
    hide Models.Ready, NextLoad, Kept, ReadyKept, MegapageConflict, FramesNeeded, Built, SetOwner, OwnedBy, Accepted, EntriesError;
    LoadKept(m, cursor.table, cursor.index + 1);
    LayoutOf(c, m);
    var r := Reserve(m.procs.frames, cursor.index + 1, FramesNeeded(image, m.source.layout));
    if r.Some? {
      SamePcbs(m.procs, Taken(m, cursor.index + 1, r.value).procs);
    }
  }

  lemma StagedKept(c: KernelConfig, m: Model, cursor: Cursor, len: nat, data: seq<Byte>)
    requires Models.Ready(c, m) && cursor.Ok() && (m.source.Disk? ==> CursorOk(c, m.source.capacity, cursor))
    requires cursor.index < MAX_ENTRIES
    ensures TurnKept(m, StagedRead(c, m, cursor, len, data))
  {
    hide NextLoad, Kept, ReadyKept, U.Parsed, LoadImage, TableRead, ValidSource, EntriesError, Accepted;
    SamePcbs(m.procs, m.procs);
    if m.source.Disk? {
      if cursor.table.None? {
        TableKept(c, m, m.source.capacity, data);
      } else {
        LoadKept(m, cursor.table, cursor.index + 1);
        EntryAccepted(c, m.source, cursor, data);
        var r := U.Parsed(data, cursor.Entry().value.byteLen, UX.RangeOf(m.source.layout));
        if r.Ok? {
          ImageKept(c, m, cursor, data, r.value);
        }
      }
    }
  }

  lemma YieldCallKept(m: Model, frame: FrameBytes)
    requires RunningRuns(m.procs)
    ensures TurnKept(m, YieldCall(m, frame))
  {
    hide YieldCurrent, DispatchNext, Kept, IndexOf, ReadyKept, StillReady, RunningRuns;
    var o := YieldCurrent(m.procs, YieldContext(frame));
    YieldKept(m.procs, YieldContext(frame));
    ThenDispatch(m, o.procs);
    StillKept(m.procs, o.procs);
  }

  /** A change that keeps every Ready process, and the dispatch after it. */
  lemma ThenDispatch(m: Model, p: Procs)
    requires Kept(m.procs, p) && StillReady(m.procs, p)
    ensures TurnKept(m, DispatchNext(m.(procs := p)))
  {
    hide DispatchNext, Kept, ReadyKept, StillReady;
    var t := DispatchNext(m.(procs := p));
    DispatchKept(m.(procs := p));
    KeptTwice(m.procs, p, t.model.procs);
    ReadyTwice(m.procs, p, t.model.procs, StageIn(t));
  }

  lemma StillKept(a: Procs, b: Procs)
    requires StillReady(a, b)
    ensures forall next: Option<Stage> :: ReadyKept(a, b, next)
  {
  }

  lemma EndCallKept(m: Model, state: ProcState)
    requires RunningRuns(m.procs)
    ensures TurnKept(m, EndCall(m, state))
  {
    hide EndCurrent, DispatchNext, Kept, IndexOf, ReadyKept, StillReady, RunningRuns;
    var o := EndCurrent(m.procs, state);
    EndKept(m.procs, state);
    ThenDispatch(m, o.procs);
    StillKept(m.procs, o.procs);
  }

  lemma SyscallKept(m: Model, frame: FrameBytes)
    requires RunningRuns(m.procs)
    ensures TurnKept(m, Syscall(m, frame))
  {
    hide YieldCall, EndCall, Kept, ReadyKept, RunningRuns, WordIn, RunningRoot;
    SamePcbs(m.procs, m.procs);
    YieldCallKept(m, frame);
    EndCallKept(m, Exited(Signed(WordIn(frame, FRAME_A0))));
  }

  lemma DecideKept(m: Model, frame: FrameBytes)
    requires RunningRuns(m.procs)
    ensures TurnKept(m, Decide(m, frame))
  {
    hide Syscall, EndCall, Kept, ReadyKept, RunningRuns, WordIn;
    SamePcbs(m.procs, m.procs);
    SyscallKept(m, frame);
    EndCallKept(m, Faulted(WordIn(frame, FRAME_SCAUSE), WordIn(frame, FRAME_SEPC), WordIn(frame, FRAME_STVAL)));
  }

  lemma StartKept(c: KernelConfig, m: Model, value: Word)
    requires Models.Ready(c, m)
    ensures TurnKept(m, Start(c, m, value))
  {
    hide Models.Ready, NextCreation, Kept, ReadyKept;
    SamePcbs(m.procs, m.procs);
    UpReady(c, m);
    if m.source.Plan? {
      CreationKept(c, m.(life := Up), 0);
    }
  }

  lemma UpReady(c: KernelConfig, m: Model)
    requires Models.Ready(c, m)
    ensures Models.Ready(c, m.(life := Up))
  {
  }

  /** The model a finished stage goes on from: with the created process admitted, if it was a creation. */
  function Admitted(m: Model, s: Stage): Model
    requires m.procs.frames.Wide() && StageOk(s) && (s.Create? && m.source.Plan? ==> 1 <= s.pid <= |m.source.images|)
    requires s.Load? ==> s.cursor.index < MAX_ENTRIES
  {
    match s
    case Create(pid, space) => if m.source.Disk? then m else AdmitNew(m, pid, m.source.images[pid - 1].image.entry, space).model
    case Load(cursor, _, image, space) => AdmitNew(m, cursor.index + 1, image.entry, space).model
    case _ => m
  }

  lemma AdmittedReady(c: KernelConfig, m: Model, s: Stage)
    requires Models.Ready(c, m) && Advanceable(c, m, s)
    ensures Models.Ready(c, Admitted(m, s)) && Admitted(m, s).source == m.source
  {
    hide ValidSource, OwnedBy, SortWords, Pcb.Held;
  }

  lemma AdvanceKept(c: KernelConfig, m: Model, s: Stage, data: seq<Byte>)
    requires Models.Ready(c, m) && Advanceable(c, m, s) && HasData(s, data) && RunningRuns(m.procs)
    ensures var t := Advance(c, m, s, data);
      && Kept(Admitted(m, s).procs, t.model.procs) && t.model.source == m.source
      && ReadyKept(Admitted(m, s).procs, t.model.procs, if t.result.Ok? then t.result.value else None)
  {
    hide ValidSource, AdmitNew, NextCreation, NextLoad, Kept, ReadyKept, Decide, StagedRead, Acked, WordIn, RunningRuns, EntriesError, RunningRoot;
    AdmittedReady(c, m, s);
    var a := Admitted(m, s);
    SamePcbs(a.procs, a.procs);
    match s
    case Create(pid, _) =>
      if m.source.Plan? {
        CreationKept(c, a, pid);
      }
    case Load(cursor, _, _, _) => LoadKept(a, cursor.table, cursor.index + 1);
    case Ack(cursor, error) => AckedKept(m, cursor, error);
    case Staged(cursor, len) => StagedKept(c, m, cursor, len, data);
    case ReadFrame => DecideKept(m, data);
    case _ =>
  }
}
