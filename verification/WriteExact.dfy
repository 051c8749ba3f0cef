/** Each access of a `write` keeps what the UART has received and what the walk has found, and brings the write nearer its
    result; everything else that happens keeps them too. */
module WriteExact {
  import opened Words
  import opened Memory
  import opened Core
  import opened Config
  import opened Image
  import opened SpaceExact
  import opened SpaceWalk
  import opened SpaceTables
  import opened UserCopy
  import opened Processes
  import opened ProcOps
  import opened Models
  import opened ModelRun
  import opened ModelKept
  import opened Machines
  import opened Isolation
  import opened Writes
  import opened WriteRun
  import Space
  import Sv32

  /** The buffer of the `write` under way. */
  function BufferOf(k: Kernel): Buffer
    requires Writing(k)
  {
    k.op.value.stage.buffer
  }

  /** A bound on the accesses left before the result. */
  function Left(k: Kernel): nat
    requires Writing(k) && StageOk(k.op.value.stage)
  {
    match k.op.value.stage
    case Walk(b, pages, _, level) => 2 * WRITE_MAX + 1 + 2 * (b.Pages() - |pages|) + level
    case Output(b, _, done) => if 2 * (b.n - done) >= k.op.value.step then 2 * (b.n - done) - k.op.value.step else 0
  }

  /** The outcome of a `write`: the value returned and the bytes at the UART. */
  ghost predicate WriteResult(s: Machine, n: Machine, root: Word, b: Buffer)
    requires b.Fits()
  {
    && n.kernel.op.Some? && n.kernel.op.value.step == 0
    && if Readable(s.mem, root, b)
       then n.kernel.op.value.stage == Return(b.sepc, b.n) && n.uart == s.mark + UserBytes(s.mem, root, b, b.n)
       else n.kernel.op.value.stage == Return(b.sepc, Neg(EFAULT)) && n.uart == s.mark
  }

  /** One access of a `write`: memory and the processes stay, and the write goes on, nearer its end, or has its
      result. */
  ghost predicate Goes(s: Machine, n: Machine)
    requires Writing(s.kernel) && StageOk(s.kernel.op.value.stage)
  {
    && n.mem == s.mem && n.kernel.model == s.kernel.model && n.births == s.births
    && if Writing(n.kernel)
       then && StageOk(n.kernel.op.value.stage) && BufferOf(n.kernel) == BufferOf(s.kernel) && n.mark == s.mark && WriteOk(n)
            && Left(n.kernel) < Left(s.kernel)
       else WriteResult(s, n, TheRoot(s.kernel), BufferOf(s.kernel))
  }

  /** What the kernel's step gives, for the machine's. */
  lemma AccessIs(c: KernelConfig, s: Machine, h: Happening)
    requires MachineInv(c, s) && Possible(c, s, h) && h.KernelAccess?
    ensures var a := AccessDue(c, s.kernel.op.value);
      var done := Reply(c, s.mem, a, h.device);
      && Takes(c, s.kernel, done)
      && var n, k := Happen(c, s, h), Step(c, s.kernel, Answered(done)).value;
         && n.kernel == k && n.mem == MemAfter(c, s.mem, a) && n.uart == UartAfter(c, s.uart, a)
         && n.mark == (if Writing(k) && Writing(s.kernel) then s.mark else n.uart)
         && (!s.kernel.op.value.stage.Create? && !s.kernel.op.value.stage.Load? ==> n.births == s.births)
  {
    hide Inv, LivesOk, DevicesApart, PlansInPage, FlightOk, Step, OpOk, AccessDue, Models.Ready, Advanceable, Reply, MemAfter, UartAfter, Steps, Allowed;
    EventAllowed(c, s, h);
    KernelWithin(c, s.kernel);
  }

  lemma WalkGoes(c: KernelConfig, s: Machine, h: Happening)
    requires SoundMachine(c, s) && Possible(c, s, h) && h.KernelAccess? && s.kernel.op.value.stage.Walk?
    ensures StageOk(s.kernel.op.value.stage) && Goes(s, Happen(c, s, h))
  {
    hide MachineInv, Possible, Happen, Takes, OpOk, AccessDue, InPool, PageOf, Short, InRam, Walked, EntryAt, WordIn;
    PossibleAccess(c, s, h);
    AccessIs(c, s, h);
    WalkReads(c, s, h.device);
    var op, m, root := s.kernel.op.value, s.kernel.model, TheRoot(s.kernel);
    var a := AccessDue(c, op);
    var d := Slice(s.mem, a.addr, 4);
    WalkAnswer(c, s.kernel, d);
    SliceIsEntry(s.mem, op.stage.table, WalkIndex(op.stage.buffer, op.stage.pages, op.stage.level));
    var pte := PeekEntry(s.mem, op.stage.table, WalkIndex(op.stage.buffer, op.stage.pages, op.stage.level));
    WalkedGoes(s, Happen(c, s, h), pte);
  }

  lemma PossibleAccess(c: KernelConfig, s: Machine, h: Happening)
    requires MachineInv(c, s) && Possible(c, s, h) && h.KernelAccess?
    ensures Inv(c, s.kernel) && s.kernel.op.Some? && OpOk(c, s.kernel.op.value) && StageOk(s.kernel.op.value.stage)
  {
    hide Within;
  }

  lemma SliceIsEntry(m: Memory, t: Word, i: int)
    ensures WordIn(Slice(m, EntryAt(t, i), 4), 0) == PeekEntry(m, t, i)
  {
    var s := Slice(m, EntryAt(t, i), 4);
    assert s[0..4] == s;
    SliceWord(m, EntryAt(t, i));
  }

  /** The walk's decision on the PTE it read. */
  lemma WalkedGoes(s: Machine, n: Machine, pte: Word)
    requires WriteOk(s) && s.kernel.op.Some? && s.kernel.op.value.stage.Walk? && StageOk(s.kernel.op.value.stage)
    requires var st := s.kernel.op.value.stage; pte == PeekEntry(s.mem, st.table, WalkIndex(st.buffer, st.pages, st.level))
    requires var st := s.kernel.op.value.stage;
      var t := Walked(s.kernel.model, st.buffer, st.pages, st.level, pte);
      t.result.Ok? && n.kernel == Kernel(t.model, Some(NewOp(t.result.value)))
    requires n.mem == s.mem && n.uart == s.uart && n.births == s.births
    requires n.mark == (if Writing(n.kernel) then s.mark else n.uart)
    ensures Goes(s, n)
  {
    hide UserAt, PeekEntry, WalkIndex, IndexOf, Buffer.Pages, Buffer.PageVa, Readable, UserBytes, Sv32.Vpn1;
    var st, root := s.kernel.op.value.stage, TheRoot(s.kernel);
    var b, va := st.buffer, st.buffer.PageVa(|st.pages|);
    WalkDecides(s.mem, root, b, st.pages, st.table, st.level);
    match DecidePte(pte, st.level, va)
    case Pointer(_) =>
    case Refused => RefusedUnreadable(s.mem, root, b, |st.pages|);
    case Page(ppn) =>
      FoundMore(s.mem, root, b, st.pages, ppn);
      if |st.pages| + 1 == b.Pages() {
        FirstChunk(b);
        FoundReadable(s.mem, root, b, st.pages + [ppn]);
      }
  }

  lemma FirstChunk(b: Buffer)
    requires b.Fits()
    ensures b.StartFrom(0, 0) && 0 < b.n && 1 <= b.ChunkLen(0)
  {
  }

  lemma OutputGoes(c: KernelConfig, s: Machine, h: Happening)
    requires SoundMachine(c, s) && Possible(c, s, h) && h.KernelAccess? && s.kernel.op.value.stage.Output?
    ensures StageOk(s.kernel.op.value.stage) && Goes(s, Happen(c, s, h))
  {
    hide MachineInv, WriteOk, Possible, Happen, Goes, OpOk, Inv, Takes, Step, Reply, MemAfter, UartAfter, AccessDue;
    PossibleAccess(c, s, h);
    AccessIs(c, s, h);
    var a, n := AccessDue(c, s.kernel.op.value), Happen(c, s, h);
    if s.kernel.op.value.step == 0 {
      FirstAccess(c, s, n, a, h.device);
    } else {
      LaterAccess(c, s, n, a, Reply(c, s.mem, a, h.device));
    }
  }

  lemma OutputFacts(s: Machine)
    requires WriteOk(s) && s.kernel.op.Some? && s.kernel.op.value.stage.Output? && StageOk(s.kernel.op.value.stage)
    ensures var st := s.kernel.op.value.stage;
      Readable(s.mem, TheRoot(s.kernel), st.buffer) && s.kernel.op.value.step <= st.buffer.ChunkLen(st.done)
  {
  }

  lemma FirstAccess(c: KernelConfig, s: Machine, n: Machine, a: Core.Access, device: seq<Byte>)
    requires SoundMachine(c, s) && s.kernel.op.Some? && s.kernel.op.value.stage.Output?
    requires s.kernel.op.value.step == 0 && OpOk(c, s.kernel.op.value) && StageOk(s.kernel.op.value.stage)
    requires a == AccessDue(c, s.kernel.op.value) && Takes(c, s.kernel, Reply(c, s.mem, a, device))
    requires n.kernel == Step(c, s.kernel, Answered(Reply(c, s.mem, a, device))).value
    requires n.mem == MemAfter(c, s.mem, a) && n.uart == UartAfter(c, s.uart, a) && n.births == s.births
    requires n.mark == if Writing(n.kernel) then s.mark else n.uart
    ensures Goes(s, n)
  {
    hide MachineInv, Takes, OpOk, InPool, PageOf, Short, AccessDue, InRam, UartAfter, MemAfter, Reply, Goes, WriteOk, Readable, UserBytes, Buffer.ChunkLen, StageOk, Step;
    var op := s.kernel.op.value;
    OutputAnswer(c, s.kernel, Reply(c, s.mem, a, device));
    OutputReads(c, s, device);
    OutputFacts(s);
    ReadKeeps(c, s.mem, s.uart, a);
    ChunkRead(s, n);
  }

  lemma LaterAccess(c: KernelConfig, s: Machine, n: Machine, a: Core.Access, done: Completion)
    requires SoundMachine(c, s) && s.kernel.op.Some? && s.kernel.op.value.stage.Output?
    requires s.kernel.op.value.step > 0 && OpOk(c, s.kernel.op.value) && StageOk(s.kernel.op.value.stage)
    requires a == AccessDue(c, s.kernel.op.value) && Takes(c, s.kernel, done)
    requires n.kernel == Step(c, s.kernel, Answered(done)).value
    requires n.mem == MemAfter(c, s.mem, a) && n.uart == UartAfter(c, s.uart, a) && n.births == s.births
    requires n.mark == if Writing(n.kernel) then s.mark else n.uart
    ensures Goes(s, n)
  {
    hide MachineInv, Takes, AccessDue, UartAfter, MemAfter, Goes, WriteOk, Readable, Buffer.ChunkLen, Buffer.Pages, Step;
    OutputAnswer(c, s.kernel, done);
    OutputFacts(s);
    OutputWrites(c, s);
    ByteSent(s, n);
  }

  lemma ReadKeeps(c: KernelConfig, m: Memory, uart: seq<Byte>, a: Core.Access)
    requires a.Read?
    ensures MemAfter(c, m, a) == m && UartAfter(c, uart, a) == uart
  {
  }

  /** A later access of an Output writes one byte to the UART. */
  lemma OutputWrites(c: KernelConfig, s: Machine)
    requires MachineInv(c, s) && s.kernel.op.Some? && s.kernel.op.value.stage.Output? && OpOk(c, s.kernel.op.value)
    requires s.kernel.op.value.step > 0
    ensures var op := s.kernel.op.value;
      var a := AccessDue(c, op);
      && op.step <= |op.data| && a == Write(c.uartTx, [op.data[op.step - 1]])
      && MemAfter(c, s.mem, a) == s.mem && UartAfter(c, s.uart, a) == s.uart + [op.data[op.step - 1]]
  {
    hide Inv, LivesOk, PlansInPage, FlightOk, Physical;
  }

  lemma ChunkRead(s: Machine, n: Machine)
    requires s.kernel.op.Some? && s.kernel.op.value.stage.Output? && StageOk(s.kernel.op.value.stage) && WriteOk(s) && s.kernel.op.value.step == 0
    requires var op := s.kernel.op.value;
      var b, done := op.stage.buffer, op.stage.done;
      && Readable(s.mem, TheRoot(s.kernel), b)
      && n.kernel == Kernel(s.kernel.model, Some(ProcOp(op.stage, 1, UserBytes(s.mem, TheRoot(s.kernel), b, b.n)[done..done + b.ChunkLen(done)])))
    requires n.mem == s.mem && n.uart == s.uart && n.mark == s.mark && n.births == s.births
    ensures Goes(s, n)
  {
    hide UserAt, Found, Buffer.Pages, UserBytes, Readable;
  }

  lemma SameRoot(a: Kernel, b: Kernel)
    requires a.model == b.model
    ensures TheRoot(a) == TheRoot(b)
  {
  }

  /** A byte more at the UART. */
  lemma ByteSent(s: Machine, n: Machine)
    requires s.kernel.op.Some? && s.kernel.op.value.stage.Output? && StageOk(s.kernel.op.value.stage) && WriteOk(s)
    requires 0 < s.kernel.op.value.step <= |s.kernel.op.value.data|
    requires n.mem == s.mem && n.uart == s.uart + [s.kernel.op.value.data[s.kernel.op.value.step - 1]] && n.births == s.births
    requires n.mark == (if Writing(n.kernel) then s.mark else n.uart)
    requires var op := s.kernel.op.value;
      var b, pages, done := op.stage.buffer, op.stage.pages, op.stage.done;
      var len := b.ChunkLen(done);
      && op.step <= len && |op.data| == len
      && n.kernel == Kernel(s.kernel.model, Some(
           if op.step < len then ProcOp(op.stage, op.step + 1, op.data)
           else if done + len < b.n then NewOp(Output(b, pages, done + len))
           else NewOp(Return(b.sepc, b.n))))
    ensures Goes(s, n)
  {
    hide UserAt, Found, Buffer.Pages, Readable, UserBytes, TheRoot, WriteOk, Buffer.ChunkLen;
    var op := s.kernel.op.value;
    var b, done := op.stage.buffer, op.stage.done;
    var len := b.ChunkLen(done);
    OutputFacts(s);
    SentOne(s, n.uart);
    SameRoot(s.kernel, n.kernel);
    if op.step < len || done + len < b.n {
      if op.step == len {
        NextStart(b, 0, done);
        StartBefore(b, 0, done + len);
      }
      SentOk(s, n);
    }
  }

  /** What the UART has received after one byte more. */
  lemma SentOne(s: Machine, uart: seq<Byte>)
    requires s.kernel.op.Some? && s.kernel.op.value.stage.Output? && StageOk(s.kernel.op.value.stage) && WriteOk(s)
    requires 0 < s.kernel.op.value.step <= |s.kernel.op.value.data|
    requires uart == s.uart + [s.kernel.op.value.data[s.kernel.op.value.step - 1]]
    ensures var op := s.kernel.op.value;
      var b := op.stage.buffer;
      && Readable(s.mem, TheRoot(s.kernel), b) && op.stage.done + op.step <= b.n
      && uart == s.mark + UserBytes(s.mem, TheRoot(s.kernel), b, b.n)[..op.stage.done + op.step]
      && (op.stage.done + op.step == b.n ==> uart == s.mark + UserBytes(s.mem, TheRoot(s.kernel), b, b.n))
  {
    hide UserAt, Found, Buffer.Pages, Readable, UserBytes, TheRoot;
    var op := s.kernel.op.value;
    var bytes, k := UserBytes(s.mem, TheRoot(s.kernel), op.stage.buffer, op.stage.buffer.n), op.stage.done + op.step;
    assert op.data[op.step - 1] == bytes[k - 1];
    assert bytes[..k] == bytes[..k - 1] + [bytes[k - 1]];
    assert bytes[..|bytes|] == bytes;
  }

  /** The output goes on after a byte. */
  lemma SentOk(s: Machine, n: Machine)
    requires s.kernel.op.Some? && s.kernel.op.value.stage.Output? && StageOk(s.kernel.op.value.stage) && WriteOk(s)
    requires s.kernel.op.value.step > 0 && n.mem == s.mem && n.mark == s.mark && TheRoot(n.kernel) == TheRoot(s.kernel)
    requires var op := s.kernel.op.value;
      var b := op.stage.buffer;
      && Readable(s.mem, TheRoot(s.kernel), b) && op.stage.done + op.step <= b.n
      && n.uart == s.mark + UserBytes(s.mem, TheRoot(s.kernel), b, b.n)[..op.stage.done + op.step]
    requires n.kernel.op.Some? && StageOk(n.kernel.op.value.stage)
    requires var op := s.kernel.op.value;
      var len := op.stage.buffer.ChunkLen(op.stage.done);
      n.kernel.op.value == if op.step < len then ProcOp(op.stage, op.step + 1, op.data)
                           else NewOp(Output(op.stage.buffer, op.stage.pages, op.stage.done + len))
    ensures WriteOk(n)
  {
    hide UserAt, Found, Buffer.Pages, Readable, UserBytes, TheRoot;
  }

  // ----- Everything that happens -----

  /** Staging is no part of a walk or of a page of the running process, so a transfer into it changes neither. */
  lemma StagingWrite(c: KernelConfig, s: Machine, n: Machine, addr: int, bytes: seq<Byte>)
    requires SoundMachine(c, s) && MachineInv(c, n) && Writing(s.kernel) && StageOk(s.kernel.op.value.stage)
    requires n == s.(mem := Poke(s.mem, addr, bytes)) && forall x :: addr <= x < addr + |bytes| ==> c.staging.Has(x)
    requires SameRootPage(s, n)
    ensures WriteOk(n)
  {
    hide MachineInv, UserAt, Buffer.Pages, Buffer.PageVa, PeekEntry, Sv32.Vpn1, TheRoot, DecidePte, Readable, UserBytes;
    var op, root := s.kernel.op.value, TheRoot(s.kernel);
    HasLives(c, s);
    WritingRuns(c, s.kernel);
    var b := op.stage.buffer;
    forall va: Word ensures UserAt(n.mem, root, va) == UserAt(s.mem, root, va) {
      SameWalk(c, s, n, root, va);
    }
    if op.stage.Output? {
      SameBytes(c, s, n, root, b, addr, bytes);
    } else if op.stage.level == 0 {
      VaSplit(b.PageVa(|op.stage.pages|));
      assert PeekEntry(n.mem, root, Sv32.Vpn1(b.PageVa(|op.stage.pages|))) == PeekEntry(s.mem, root, Sv32.Vpn1(b.PageVa(|op.stage.pages|)));
    }
  }

  /** The caller's root table holds the same entries. */
  ghost predicate SameRootPage(s: Machine, n: Machine) {
    forall i :: EntryIndex(i) ==> PeekEntry(n.mem, TheRoot(s.kernel), i) == PeekEntry(s.mem, TheRoot(s.kernel), i)
  }

  lemma SameBytes(c: KernelConfig, s: Machine, n: Machine, root: Word, b: Buffer, addr: int, bytes: seq<Byte>)
    requires MachineInv(c, s) && Writes.Runs(s.kernel, root) && b.Fits() && Readable(s.mem, root, b)
    requires n.mem == Poke(s.mem, addr, bytes) && forall x :: addr <= x < addr + |bytes| ==> c.staging.Has(x)
    requires forall va: Word :: UserAt(n.mem, root, va) == UserAt(s.mem, root, va)
    ensures Readable(n.mem, root, b) && UserBytes(n.mem, root, b, b.n) == UserBytes(s.mem, root, b, b.n)
  {
    hide MachineInv, UserAt, InPool, PageOf;
    HasLives(c, s);
    LayoutOk(c, s.kernel);
    forall i | 0 <= i < b.n ensures Peek(n.mem, UserAt(s.mem, root, ByteVa(b, i)).value) == Peek(s.mem, UserAt(s.mem, root, ByteVa(b, i)).value) {
      var x := UserAt(s.mem, root, ByteVa(b, i)).value;
      UserAtReaches(c, s, root, ByteVa(b, i));
      if addr <= x < addr + |bytes| {
        NotPoolByte(c, s.kernel.model.source.layout, x);
      }
    }
    assert UserBytes(n.mem, root, b, b.n) == UserBytes(s.mem, root, b, b.n);
  }

  lemma RootPageSame(c: KernelConfig, s: Machine, h: Happening)
    requires MachineInv(c, s) && Possible(c, s, h) && Writing(s.kernel)
    ensures SameRootPage(s, Happen(c, s, h))
  {
    hide MachineInv, Possible, Happen, PeekEntry, IndexOf, SameOn, TableSet, Space.Built, LiveOk, EntryIndex, TheRoot;
    HasLives(c, s);
    WritingRuns(c, s.kernel);
    var root, n := TheRoot(s.kernel), Happen(c, s, h);
    RunnerLives(c, s.kernel, root);
    var i := RunningAt(s.kernel);
    var p := s.kernel.model.procs.pcbs[i];
    TablesNeverChange(c, s, h, i);
    RootIsTable(c, s, i);
    forall k | EntryIndex(k) ensures PeekEntry(n.mem, root, k) == PeekEntry(s.mem, root, k) {
      EntryInPage(s.mem, n.mem, root, k, Tables(p));
    }
  }

  lemma RootIsTable(c: KernelConfig, s: Machine, i: nat)
    requires MachineInv(c, s) && i < |s.kernel.model.procs.pcbs| && !s.kernel.model.procs.pcbs[i].state.Terminal()
    ensures s.kernel.model.procs.pcbs[i].root as int in Tables(s.kernel.model.procs.pcbs[i])
  {
    hide Inv, LivesOk, DevicesApart, PlansInPage, FlightOk, InPool, TablesAt, Creation, Space.Buildable, Space.Built, TableSet, Creations.PageFrames;
    LiveTables(c, s, i);
    var p := s.kernel.model.procs.pcbs[i];
    var b := s.births[p.pid];
    TableSetIs(c, s.kernel.model.source.layout, b.boot, b.frames);
  }

  /** A step outside a write starts one only from its beginning. */
  lemma BeginsOk(n: Machine)
    requires n.uart == n.mark
    requires n.kernel.op.Some? ==>
      var st := n.kernel.op.value.stage;
      !st.Output? && (st.Walk? ==> st.pages == [] && st.level == 1 && RunningRoot(n.kernel.model) == Ok(st.table))
    ensures WriteOk(n)
  {
  }

  /** Everything that can happen keeps the isolation and the `write` invariants. */
  lemma HappenSound(c: KernelConfig, s: Machine, h: Happening)
    requires SoundMachine(c, s) && Possible(c, s, h)
    ensures SoundMachine(c, Happen(c, s, h))
  {
    hide MachineInv, WriteOk, Possible, Happen, Goes;
    HappenKeeps(c, s, h);
    match h
    case UserStore(_, _, _, _) => QuietOk(c, s, h);
    case FrameStore(_, _) => QuietOk(c, s, h);
    case KernelEnter(_) => EnterOk(c, s, h);
    case StagingStore(_, _) => StagingOk(c, s, h);
    case KernelAccess(_) =>
      PossibleAccess(c, s, h);
      if s.kernel.op.value.stage.Walk? {
        WalkGoes(c, s, h);
        GoesOk(s, Happen(c, s, h));
      } else if s.kernel.op.value.stage.Output? {
        OutputGoes(c, s, h);
        GoesOk(s, Happen(c, s, h));
      } else {
        OtherOk(c, s, h);
      }
  }

  lemma GoesOk(s: Machine, n: Machine)
    requires Writing(s.kernel) && StageOk(s.kernel.op.value.stage) && Goes(s, n)
    ensures WriteOk(n)
  {
    hide UserAt, Readable, UserBytes, Found;
  }

  lemma QuietOk(c: KernelConfig, s: Machine, h: Happening)
    requires MachineInv(c, s) && Possible(c, s, h) && (h.UserStore? || h.FrameStore?)
    ensures WriteOk(Happen(c, s, h))
  {
    hide MachineInv, StoreAt;
    HasLives(c, s);
  }

  lemma EnterOk(c: KernelConfig, s: Machine, h: Happening)
    requires MachineInv(c, s) && Possible(c, s, h) && h.KernelEnter?
    ensures WriteOk(Happen(c, s, h))
  {
    hide Inv, LivesOk, DevicesApart, PlansInPage, FlightOk, WriteOk, Start, Models.Ready, OpOk, Advanceable;
    EventAllowed(c, s, h);
    StartPlain(c, s.kernel.model, h.value);
    BeginsOk(Happen(c, s, h));
  }

  lemma OtherOk(c: KernelConfig, s: Machine, h: Happening)
    requires MachineInv(c, s) && Possible(c, s, h) && h.KernelAccess? && !s.kernel.op.value.stage.Walk? && !s.kernel.op.value.stage.Output?
    ensures WriteOk(Happen(c, s, h))
  {
    hide MachineInv, Possible, Happen, WriteOk, Takes, Step, Reply, AccessDue, RunningRoot, MemAfter, UartAfter, OpOk;
    PossibleAccess(c, s, h);
    AccessIs(c, s, h);
    OtherAnswer(c, s.kernel, Reply(c, s.mem, AccessDue(c, s.kernel.op.value), h.device));
    BeginsOk(Happen(c, s, h));
  }

  lemma StagingOk(c: KernelConfig, s: Machine, h: Happening)
    requires SoundMachine(c, s) && Possible(c, s, h) && h.StagingStore? && MachineInv(c, Happen(c, s, h))
    ensures WriteOk(Happen(c, s, h))
  {
    hide MachineInv, WriteOk, SameRootPage;
    HasLives(c, s);
    if Writing(s.kernel) {
      KernelWithin(c, s.kernel);
      RootPageSame(c, s, h);
      StagingWrite(c, s, Happen(c, s, h), h.addr, h.bytes);
    } else {
      NotWriting(Happen(c, s, h));
    }
  }

  lemma NotWriting(n: Machine)
    requires !Writing(n.kernel)
    ensures WriteOk(n)
  {
  }

  /** One access of a `write`. */
  lemma WriteGoes(c: KernelConfig, s: Machine, h: Happening)
    requires SoundMachine(c, s) && Writing(s.kernel) && StageOk(s.kernel.op.value.stage) && Possible(c, s, h) && h.KernelAccess?
    ensures Goes(s, Happen(c, s, h))
  {
    hide MachineInv, WriteOk, Possible, Happen, Goes;
    if s.kernel.op.value.stage.Walk? {
      WalkGoes(c, s, h);
    } else {
      OutputGoes(c, s, h);
    }
  }
}
