/** The run of a `write`: what the UART has received at every step, and what the caller gets. */
module WriteRun {
  import opened Words
  import opened Memory
  import opened Core
  import opened Config
  import opened Image
  import opened Space
  import opened SpaceExact
  import opened SpaceWalk
  import opened SpaceTables
  import opened UserCopy
  import opened Processes
  import opened ExecTables
  import opened ProcOps
  import opened Models
  import opened ModelRun
  import opened ModelKept
  import opened Machines
  import opened Isolation
  import opened Writes
  import Sv32
  import U = UserElf
  import UX = UserElfExact

  // ----- The invariant -----

  /** A walk of page `|pages|`: the pages before it are found, and a level-0 table is where the root points. */
  ghost predicate WalkInv(m: Memory, root: Word, b: Buffer, pages: seq<Word>, table: Word, level: nat)
    requires b.Fits() && |pages| < b.Pages()
  {
    && Found(m, root, b, pages)
    && (level == 1 ==> table == root)
    && (level == 0 ==> DecidePte(PeekEntry(m, root, Sv32.Vpn1(b.PageVa(|pages|))), 1, b.PageVa(|pages|)) == Pointer(table))
  }

  /** The bytes of the buffer an Output stage has sent. */
  function Sent(done: nat, step: nat): nat {
    if step == 0 then done else done + step - 1
  }

  /** An output of the chunk at `done`: all pages are found, the chunk's bytes are at hand after the first step, and the
      UART has received exactly the bytes before. */
  ghost predicate OutputInv(s: Machine, root: Word, b: Buffer, pages: seq<Word>, done: nat, step: nat, data: seq<Byte>)
    requires b.Fits() && done < b.n && |pages| == b.Pages()
  {
    && Found(s.mem, root, b, pages) && Readable(s.mem, root, b) && step <= b.ChunkLen(done)
    && (step > 0 ==> data == UserBytes(s.mem, root, b, b.n)[done..done + b.ChunkLen(done)])
    && s.uart == s.mark + UserBytes(s.mem, root, b, b.n)[..Sent(done, step)]
  }

  function TheRoot(k: Kernel): Word {
    if RunningRoot(k.model).Ok? then RunningRoot(k.model).value else 0
  }

  ghost predicate WriteOk(s: Machine) {
    s.kernel.op.Some? && StageOk(s.kernel.op.value.stage) ==>
      match s.kernel.op.value.stage
      case Walk(b, pages, table, level) => s.uart == s.mark && WalkInv(s.mem, TheRoot(s.kernel), b, pages, table, level)
      case Output(b, pages, done) => OutputInv(s, TheRoot(s.kernel), b, pages, done, s.kernel.op.value.step, s.kernel.op.value.data)
      case _ => true
  }

  /** A machine whose process isolation and `write` invariants hold. */
  ghost predicate SoundMachine(c: KernelConfig, s: Machine) {
    MachineInv(c, s) && WriteOk(s)
  }

  lemma WritingRuns(c: KernelConfig, k: Kernel)
    requires Inv(c, k) && k.op.Some? && (k.op.value.stage.Walk? || k.op.value.stage.Output?)
    ensures Writes.Runs(k, TheRoot(k)) && k.model.life == Up
  {
    hide ValidSource, IndexOf, OwnersOk, QueueOk, StatesOk, PidsOk;
  }

  // ----- Walk -----

  lemma WalkInPool(c: KernelConfig, s: Machine)
    requires SoundMachine(c, s) && s.kernel.op.Some? && s.kernel.op.value.stage.Walk? && StageOk(s.kernel.op.value.stage)
    ensures InPool(c, s.kernel.op.value.stage.table)
  {
    hide Inv, LivesOk, DevicesApart, PlansInPage, FlightOk, IndexOf, InPool, TableSet, Built, Creation, Buildable, TablesAt, PeekEntry, Sv32.Vpn1, Sv32.PteStep, DecidePte;
    var st, root := s.kernel.op.value.stage, TheRoot(s.kernel);
    WritingRuns(c, s.kernel);
    RunnerLives(c, s.kernel, root);
    var i, l := RunningAt(s.kernel), s.kernel.model.source.layout;
    LiveTables(c, s, i);
    var birth, va := s.births[s.kernel.model.procs.pcbs[i].pid], st.buffer.PageVa(|st.pages|);
    RootStep(c, l, birth.boot, birth.frames, s.mem, va, USER_LOAD);
    DecideAgrees(PeekEntry(s.mem, root, Sv32.Vpn1(va)), 1, va);
  }

  /** The index of the PTE a walk reads. */
  function WalkIndex(b: Buffer, pages: seq<Word>, level: nat): (i: int)
    requires b.Fits() && |pages| < b.Pages()
    ensures EntryIndex(i)
  {
    VaSplit(b.PageVa(|pages|));
    if level == 1 then Sv32.Vpn1(b.PageVa(|pages|)) else Sv32.Vpn0(b.PageVa(|pages|))
  }

  /** A walk reads its PTE from a table in RAM. */
  lemma WalkReads(c: KernelConfig, s: Machine, device: seq<Byte>)
    requires SoundMachine(c, s) && s.kernel.op.Some? && s.kernel.op.value.stage.Walk? && OpOk(c, s.kernel.op.value)
    ensures var op := s.kernel.op.value;
      var a := AccessDue(c, op);
      && a == Read(EntryAt(op.stage.table, WalkIndex(op.stage.buffer, op.stage.pages, op.stage.level)), 4)
      && Short(a.addr, 4) && InPool(c, PageOf(a.addr)) && InRam(c, a) && op.data == []
      && Reply(c, s.mem, a, device) == Data(Slice(s.mem, a.addr, 4))
  {
    hide Inv, LivesOk, DevicesApart, PlansInPage, FlightOk, InPool, WriteOk, PageOf, Sv32.Vpn1, Sv32.Vpn0;
    var op := s.kernel.op.value;
    WalkInPool(c, s);
    var i := WalkIndex(op.stage.buffer, op.stage.pages, op.stage.level);
    EntryPage(op.stage.table, i, 0);
    EntryPage(op.stage.table, i, 3);
    LayoutOk(c, s.kernel);
    PoolInRam(c, s.kernel.model.source.layout, AccessDue(c, op));
  }

  /** A step of the walk: the answer decides the page as `UserAt` does. */
  lemma WalkDecides(m: Memory, root: Word, b: Buffer, pages: seq<Word>, table: Word, level: nat)
    requires b.Fits() && |pages| < b.Pages() && level <= 1 && WalkInv(m, root, b, pages, table, level)
    ensures var va := b.PageVa(|pages|);
      match DecidePte(PeekEntry(m, table, WalkIndex(b, pages, level)), level, va)
      case Pointer(t) => WalkInv(m, root, b, pages, t, 0)
      case Page(ppn) => UserAt(m, root, va) == Some(ppn * PAGE)
      case Refused => UserAt(m, root, va) == None
  {
    hide DecidePte, Sv32.Vpn1, Sv32.Vpn0, PeekWord, Found;
  }

  lemma FoundMore(m: Memory, root: Word, b: Buffer, pages: seq<Word>, ppn: Word)
    requires b.Fits() && |pages| < b.Pages() && Found(m, root, b, pages) && UserAt(m, root, b.PageVa(|pages|)) == Some(ppn * PAGE)
    ensures Found(m, root, b, pages + [ppn])
  {
    hide UserAt, Buffer.PageVa, Buffer.Pages;
  }

  // ----- Output -----

  lemma ChunkPhysical(b: Buffer, pages: seq<Word>, done: nat, i: nat)
    requires b.Fits() && done < b.n && i < b.ChunkLen(done)
    ensures ByteVa(b, done + i) / PAGE == ByteVa(b, done) / PAGE && ByteVa(b, done + i) % PAGE == ByteVa(b, done) % PAGE + i
  {
    var va := b.buf + done;
    PageSplit(va + i, va / PAGE, va % PAGE + i);
  }

  /** The chunk the kernel reads is the buffer's bytes. */
  lemma ChunkBytes(m: Memory, root: Word, b: Buffer, pages: seq<Word>, done: nat)
    requires b.Fits() && done < b.n && |pages| == b.Pages() && Found(m, root, b, pages) && Readable(m, root, b)
    ensures 0 <= (b.buf + done) / PAGE - b.buf / PAGE < |pages|
    ensures Slice(m, Physical(b, pages, b.buf + done), b.ChunkLen(done)) == UserBytes(m, root, b, b.n)[done..done + b.ChunkLen(done)]
  {
    hide UserAt, Buffer.ChunkLen, Found;
    OutputPage(b, done);
    FoundReadable(m, root, b, pages);
    var len := b.ChunkLen(done);
    var chunk, bytes := Slice(m, Physical(b, pages, b.buf + done), len), UserBytes(m, root, b, b.n);
    forall i | 0 <= i < len ensures chunk[i] == bytes[done + i] {
      ChunkPhysical(b, pages, done, i);
      assert UserAt(m, root, ByteVa(b, done + i)) == Some(Physical(b, pages, ByteVa(b, done + i)));
    }
  }

  /** The first access of an Output reads a page frame of the caller. */
  lemma OutputReads(c: KernelConfig, s: Machine, device: seq<Byte>)
    requires SoundMachine(c, s) && s.kernel.op.Some? && s.kernel.op.value.stage.Output? && OpOk(c, s.kernel.op.value)
    requires s.kernel.op.value.step == 0
    ensures var op := s.kernel.op.value;
      var a := AccessDue(c, op);
      && a.Read? && a.len == op.stage.buffer.ChunkLen(op.stage.done)
      && Short(a.addr, a.Len()) && InPool(c, PageOf(a.addr)) && InRam(c, a) && op.data == []
      && Reply(c, s.mem, a, device)
         == Data(UserBytes(s.mem, TheRoot(s.kernel), op.stage.buffer, op.stage.buffer.n)[op.stage.done..op.stage.done + a.len])
  {
    hide Inv, LivesOk, DevicesApart, PlansInPage, FlightOk, InPool, PageOf, UserAt, Found, Readable, UserBytes, Short;
    var op := s.kernel.op.value;
    var b, pages, done, root := op.stage.buffer, op.stage.pages, op.stage.done, TheRoot(s.kernel);
    ChunkBytes(s.mem, root, b, pages, done);
    FoundReadable(s.mem, root, b, pages);
    WritingRuns(c, s.kernel);
    UserAtReaches(c, s, root, ByteVa(b, done));
    SameOffset(b, pages, done);
    LayoutOk(c, s.kernel);
    PoolInRam(c, s.kernel.model.source.layout, AccessDue(c, op));
  }

  /** The physical chunk is as short as the virtual one. */
  lemma SameOffset(b: Buffer, pages: seq<Word>, done: nat)
    requires b.Fits() && done < b.n && 0 <= (b.buf + done) / PAGE - b.buf / PAGE < |pages|
    ensures Short(Physical(b, pages, b.buf + done), b.ChunkLen(done))
  {
    var va, len := b.buf + done, b.ChunkLen(done);
    var pa := Physical(b, pages, va);
    var f := pages[va / PAGE - b.buf / PAGE];
    PageSplit(pa, f, va % PAGE);
    PageSplit(pa + len - 1, f, va % PAGE + len - 1);
  }

  // ----- Which decisions start a write -----

  predicate Plain(t: Turn<Stage>) {
    t.result.Ok? ==> !t.result.value.Walk? && !t.result.value.Output?
  }

  lemma DispatchPlain(m: Model)
    ensures Plain(DispatchNext(m))
  {
  }

  lemma {:induction false} CreationPlain(c: KernelConfig, m: Model, from: nat)
    requires Models.Ready(c, m)
    ensures Plain(NextCreation(c, m, from))
    decreases if m.source.Plan? then |m.source.images| - from else 0
  {
    hide Models.Ready, DispatchNext, MegapageConflict, FramesNeeded, Built, SetOwner, OwnedBy;
    DispatchPlain(m);
    if m.source.Plan? && from < |m.source.images| {
      CreationPlain(c, m, from + 1);
    }
  }

  lemma LoadPlain(m: Model, table: Option<ExecTable>, index: nat)
    ensures Plain(NextLoad(m, table, index))
  {
    hide DispatchNext;
    DispatchPlain(m);
  }

  lemma StagedPlain(c: KernelConfig, m: Model, cursor: Cursor, len: nat, data: seq<Byte>)
    requires Models.Ready(c, m) && cursor.Ok() && (m.source.Disk? ==> CursorOk(c, m.source.capacity, cursor))
    requires cursor.index < MAX_ENTRIES
    ensures Plain(StagedRead(c, m, cursor, len, data))
  {
    hide NextLoad, U.Parsed, ValidSource, EntriesError, Accepted, ExecTables.Parsed, MegapageConflict, FramesNeeded, Built, SetOwner, OwnedBy;
    LoadPlain(m, cursor.table, cursor.index + 1);
    if m.source.Disk? && cursor.table.None? && |data| == BLOCK_SIZE {
      var r := ExecTables.Parsed(data, m.source.capacity, StagingSize(c));
      if r.Ok? {
        LoadPlain(m.(entries := |r.value.entries|), Some(r.value), 0);
      }
    }
  }

  lemma EndPlain(m: Model, state: ProcState)
    ensures Plain(EndCall(m, state))
  {
    hide EndCurrent, DispatchNext;
    DispatchPlain(m.(procs := EndCurrent(m.procs, state).procs));
  }

  lemma YieldPlain(m: Model, frame: FrameBytes)
    ensures Plain(YieldCall(m, frame))
  {
    hide YieldCurrent, DispatchNext;
    DispatchPlain(m.(procs := YieldCurrent(m.procs, YieldContext(frame)).procs));
  }

  /** A decision that starts a walk starts at the buffer's first page and the caller's root, and changes nothing. */
  ghost predicate StartsWalk(m: Model, t: Turn<Stage>) {
    t.result.Ok? ==>
      && !t.result.value.Output?
      && (t.result.value.Walk? ==> t.model == m && t.result.value.pages == [] && t.result.value.level == 1
                                   && RunningRoot(m) == Ok(t.result.value.table))
  }

  lemma DecideStarts(m: Model, frame: FrameBytes)
    ensures StartsWalk(m, Decide(m, frame))
  {
    hide EndCall, YieldCall, RunningRoot, WordIn;
    YieldPlain(m, frame);
    EndPlain(m, Exited(Signed(WordIn(frame, FRAME_A0))));
    EndPlain(m, Faulted(WordIn(frame, FRAME_SCAUSE), WordIn(frame, FRAME_SEPC), WordIn(frame, FRAME_STVAL)));
  }

  lemma StartPlain(c: KernelConfig, m: Model, value: Word)
    requires Models.Ready(c, m)
    ensures Plain(Start(c, m, value))
  {
    hide Models.Ready, NextCreation;
    UpReady(c, m);
    if m.source.Plan? {
      CreationPlain(c, m.(life := Up), 0);
    }
  }

  lemma AdvanceStarts(c: KernelConfig, m: Model, s: Stage, data: seq<Byte>)
    requires Models.Ready(c, m) && Advanceable(c, m, s) && HasData(s, data) && !s.Walk? && !s.Output?
    ensures var t := Advance(c, m, s, data);
      t.result.Ok? && t.result.value.Some? ==> StartsWalk(m, Turn(t.model, Ok(t.result.value.value)))
  {
    hide ValidSource, AdmitNew, NextCreation, NextLoad, Decide, StagedRead, WordIn, EntriesError, RunningRoot;
    AdmittedReady(c, m, s);
    match s
    case Create(pid, _) =>
      if m.source.Plan? {
        CreationPlain(c, Admitted(m, s), pid);
      }
    case Load(cursor, _, _, _) => LoadPlain(Admitted(m, s), cursor.table, cursor.index + 1);
    case Ack(cursor, _) => LoadPlain(m, cursor.table, cursor.index + 1);
    case Staged(cursor, len) => StagedPlain(c, m, cursor, len, data);
    case ReadFrame => DecideStarts(m, data);
    case _ =>
  }

  // ----- What one answer does -----

  /** The kernel can take an answer `done` to the access due. */
  ghost predicate Takes(c: KernelConfig, k: Kernel, done: Completion) {
    && Models.Ready(c, k.model) && k.op.Some? && OpOk(c, k.op.value) && Advanceable(c, k.model, k.op.value.stage)
    && Allowed(c, k, Answered(done)) && Step(c, k, Answered(done)).Ok?
  }

  /** An answer to another stage starts a walk from its beginning, or no write at all. */
  lemma OtherAnswer(c: KernelConfig, k: Kernel, done: Completion)
    requires Takes(c, k, done) && !k.op.value.stage.Walk? && !k.op.value.stage.Output?
    ensures var n := Step(c, k, Answered(done)).value;
      n.op.Some? ==>
        var st := n.op.value.stage;
        !st.Output? && (st.Walk? ==> st.pages == [] && st.level == 1 && RunningRoot(n.model) == Ok(st.table))
  {
    hide Models.Ready, Advanceable, OpOk, Advance, Complete, Answers, AccessDue, HasData, StageOk, RunningRoot, Steps;
    var op := k.op.value;
    OpStage(c, op);
    CompleteOk(c, op, done);
    FinishedData(c, op, done);
    var next := Complete(c, op, done).value;
    if Finished(c, next) {
      AdvanceStarts(c, k.model, next.stage, next.data);
    }
  }

  lemma WalkAnswer(c: KernelConfig, k: Kernel, d: seq<Byte>)
    requires Takes(c, k, Data(d)) && k.op.value.stage.Walk? && |d| == 4 && k.op.value.data == []
    ensures StageOk(k.op.value.stage)
    ensures var st := k.op.value.stage;
      var t := Walked(k.model, st.buffer, st.pages, st.level, WordIn(d, 0));
      t.result.Ok? && Step(c, k, Answered(Data(d))) == Ok(Kernel(t.model, Some(NewOp(t.result.value))))
  {
    hide Models.Ready, Walked, WordIn;
    assert [] + d == d;
  }

  lemma OutputAnswer(c: KernelConfig, k: Kernel, done: Completion)
    requires Takes(c, k, done) && k.op.value.stage.Output?
    ensures var n, op := Step(c, k, Answered(done)).value, k.op.value;
      var len := op.stage.buffer.ChunkLen(op.stage.done);
      && (op.step == 0 ==> done.Data? && |done.data| == len && n == Kernel(k.model, Some(ProcOp(op.stage, 1, done.data))))
      && (0 < op.step < len ==> n == Kernel(k.model, Some(ProcOp(op.stage, op.step + 1, op.data))))
      && (op.step == len && op.stage.done + len < op.stage.buffer.n ==>
            n == Kernel(k.model, Some(NewOp(Output(op.stage.buffer, op.stage.pages, op.stage.done + len)))))
      && (op.step == len && op.stage.done + len == op.stage.buffer.n ==>
            n == Kernel(k.model, Some(NewOp(Return(op.stage.buffer.sepc, op.stage.buffer.n)))))
  {
    hide Models.Ready, Physical;
    var op := k.op.value;
    if done.Data? {
      assert [] + done.data == done.data;
    }
  }
}
