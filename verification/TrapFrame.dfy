/** The trap frame over whole runs: a trap's decision is taken on the frame as it is in memory, a finished dispatch leaves
    the process's context and `satp` there, and a process that yields is dispatched again with the context it had. */
module TrapFrames {
  import opened Words
  import opened Memory
  import opened Core
  import opened Config
  import opened Image
  import opened Space
  import opened UserCopy
  import opened Processes
  import opened ProcOps
  import opened Models
  import opened ModelRun
  import opened ModelKept
  import opened Machines
  import opened Isolation
  import opened WriteExact
  import opened PermitsRun
  import WR = WriteRun

  /** The trap frame in memory. */
  function FrameIn(c: KernelConfig, m: Memory): FrameBytes {
    Slice(m, c.trapFrame, FRAME_BYTES)
  }

  /** Byte `x` is in one of the first `k` chunks. */
  predicate Covered(cs: seq<Chunk>, k: nat, x: int)
    requires k <= |cs|
  {
    exists j :: 0 <= j < k && cs[j].addr <= x < cs[j].addr + cs[j].len
  }

  /** The chunks a Dispatch has written hold its bytes. */
  ghost predicate Written(c: KernelConfig, m: Memory, k: nat, bytes: FrameBytes)
    requires k <= |DispatchChunks(c)|
  {
    forall x :: c.Frame().Has(x) && Covered(DispatchChunks(c), k, x) ==> Peek(m, x) == bytes[x - c.trapFrame]
  }

  /** A ReadFrame holds the bytes of the frame it has read, a Dispatch has written its first chunks. */
  ghost predicate FrameOk(c: KernelConfig, s: Machine) {
    s.kernel.op.Some? && OpOk(c, s.kernel.op.value) ==>
      var op := s.kernel.op.value;
      match op.stage
      case ReadFrame => op.data == Slice(s.mem, c.trapFrame, TotalLen(FrameChunks(c)[..op.step]))
      case Dispatch(_, context, satp) => Written(c, s.mem, op.step, DispatchBytes(context, satp))
      case _ => true
  }

  lemma FrameRange(c: KernelConfig, k: Kernel)
    requires Inv(c, k)
    ensures c.trapFrame % 4 == 0 && c.ram.base <= c.trapFrame && c.trapFrame + FRAME_BYTES <= c.ram.base + c.ram.size
    ensures forall x :: c.Frame().Has(x) ==> !c.staging.Has(x)
    ensures c.ram.base + c.ram.size <= LONG_MAX
  {
    hide Inv, KernelConfig.Frame;
    LayoutOk(c, k);
    ConfigFrame(c, k.model.source.layout);
  }

  lemma ConfigFrame(c: KernelConfig, l: UserLayout)
    requires ValidLayout(c, l)
    ensures c.trapFrame % 4 == 0 && c.ram.base <= c.trapFrame && c.trapFrame + FRAME_BYTES <= c.ram.base + c.ram.size
    ensures forall x :: c.Frame().Has(x) ==> !c.staging.Has(x)
    ensures c.ram.base + c.ram.size <= LONG_MAX
  {
    assert c.ram.Contains(c.trapFrame, FRAME_BYTES);
    assert c.ram in [c.ram, c.gate, c.Frame(), c.staging, c.framePool, c.blk];
    assert c.staging in [c.ram, c.gate, c.Frame(), c.staging, c.framePool, c.blk];
  }

  // ----- Reading the frame -----

  /** Chunk `k` of the frame follows the ones before it. */
  lemma FrameChunk(c: KernelConfig, m: Memory, k: nat)
    requires k < |FrameChunks(c)|
    ensures var d := FrameChunks(c)[k];
      && d.addr == c.trapFrame + TotalLen(FrameChunks(c)[..k]) && c.trapFrame <= d.addr && d.addr + d.len <= c.trapFrame + FRAME_BYTES
      && Slice(m, c.trapFrame, TotalLen(FrameChunks(c)[..k])) + Slice(m, d.addr, d.len) == Slice(m, c.trapFrame, TotalLen(FrameChunks(c)[..k + 1]))
      && (k + 1 == |FrameChunks(c)| ==> TotalLen(FrameChunks(c)[..k + 1]) == FRAME_BYTES)
  {
    hide Chunks, TotalLen, Short;
    var cs := FrameChunks(c);
    ChunksTile(c.trapFrame, FRAME_BYTES);
    ReadStep(cs, k);
    SliceMore(m, c.trapFrame, TotalLen(cs[..k]), cs[k].len);
    assert k + 1 == |cs| ==> cs[..k + 1] == cs;
  }

  /** The kernel after the last chunk is read: the decision on the frame. */
  lemma FrameAnswer(c: KernelConfig, k: Kernel, d: seq<Byte>)
    requires WR.Takes(c, k, Data(d)) && k.op.value.stage.ReadFrame?
    ensures var n, op, data := Step(c, k, Answered(Data(d))).value, k.op.value, k.op.value.data + d;
      if op.step + 1 < |FrameChunks(c)| then n == Kernel(k.model, Some(ProcOp(ReadFrame, op.step + 1, data)))
      else |data| == FRAME_BYTES && Decide(k.model, data).result.Ok?
           && n == Kernel(Decide(k.model, data).model, Some(NewOp(Decide(k.model, data).result.value)))
  {
    hide Models.Ready, Decide, Chunks, TotalLen;
    var op := k.op.value;
    if op.step + 1 < |FrameChunks(c)| {
      ReadStep(FrameChunks(c), op.step);
    } else {
      FinishedData(c, op, Data(d));
    }
  }

  /** An access of a ReadFrame: memory stays, and after the last the kernel has decided on the frame in memory. */
  lemma FrameRead(c: KernelConfig, s: Machine, h: Happening)
    requires MachineInv(c, s) && FrameOk(c, s) && Possible(c, s, h) && h.KernelAccess? && s.kernel.op.value.stage.ReadFrame?
    ensures var n, op, m := Happen(c, s, h), s.kernel.op.value, s.kernel.model;
      && n.mem == s.mem && n.uart == s.uart && n.births == s.births
      && if op.step + 1 < |FrameChunks(c)|
         then n.kernel == Kernel(m, Some(ProcOp(ReadFrame, op.step + 1, Slice(s.mem, c.trapFrame, TotalLen(FrameChunks(c)[..op.step + 1])))))
         else Decide(m, FrameIn(c, s.mem)).result.Ok?
              && n.kernel == Kernel(Decide(m, FrameIn(c, s.mem)).model, Some(NewOp(Decide(m, FrameIn(c, s.mem)).result.value)))
  {
    hide MachineInv, Happen, Possible, WR.Takes, Decide, Step, Chunks, TotalLen, Inv;
    PossibleAccess(c, s, h);
    FrameRange(c, s.kernel);
    AccessIs(c, s, h);
    var op := s.kernel.op.value;
    FrameChunk(c, s.mem, op.step);
    FrameAnswer(c, s.kernel, Slice(s.mem, FrameChunks(c)[op.step].addr, FrameChunks(c)[op.step].len));
  }

  // ----- Writing the frame -----

  lemma {:induction false} ChunksCover(base: int, len: nat, x: int)
    requires base <= x < base + len
    ensures Covered(Chunks(base, len), |Chunks(base, len)|, x)
    decreases len
  {
    var cs := Chunks(base, len);
    var n := cs[0].len;
    if x >= base + n {
      ChunksCover(base + n, len - n, x);
      var rest := Chunks(base + n, len - n);
      var j :| 0 <= j < |rest| && rest[j].addr <= x < rest[j].addr + rest[j].len;
      assert cs[j + 1] == rest[j];
    }
  }

  /** A Dispatch writes the context, `satp` and the action. */
  lemma DispatchCovers(c: KernelConfig, x: int)
    requires c.trapFrame <= x < c.trapFrame + CONTEXT_BYTES || c.trapFrame + FRAME_SATP <= x < c.trapFrame + FRAME_SATP + 8
    ensures Covered(DispatchChunks(c), |DispatchChunks(c)|, x)
  {
    hide Chunks;
    var a, b := Chunks(c.trapFrame, CONTEXT_BYTES), Chunks(c.trapFrame + FRAME_SATP, 8);
    if x < c.trapFrame + CONTEXT_BYTES {
      ChunksCover(c.trapFrame, CONTEXT_BYTES, x);
      var j :| 0 <= j < |a| && a[j].addr <= x < a[j].addr + a[j].len;
      assert DispatchChunks(c)[j] == a[j];
    } else {
      ChunksCover(c.trapFrame + FRAME_SATP, 8, x);
      var j :| 0 <= j < |b| && b[j].addr <= x < b[j].addr + b[j].len;
      assert DispatchChunks(c)[|a| + j] == b[j];
    }
  }

  lemma WrittenMore(c: KernelConfig, m: Memory, k: nat, bytes: FrameBytes)
    requires k < |DispatchChunks(c)| && Written(c, m, k, bytes)
    ensures var d := DispatchChunks(c)[k];
      && c.trapFrame <= d.addr && d.addr + d.len <= c.trapFrame + FRAME_BYTES
      && Written(c, Poke(m, d.addr, bytes[d.addr - c.trapFrame..d.addr - c.trapFrame + d.len]), k + 1, bytes)
  {
    hide DispatchChunks;
    DispatchChunkInside(c, k);
    var cs := DispatchChunks(c);
    var d := cs[k];
    var n := Poke(m, d.addr, bytes[d.addr - c.trapFrame..d.addr - c.trapFrame + d.len]);
    forall x | c.Frame().Has(x) && Covered(cs, k + 1, x) ensures Peek(n, x) == bytes[x - c.trapFrame] {
      if !(d.addr <= x < d.addr + d.len) {
        var j :| 0 <= j < k + 1 && cs[j].addr <= x < cs[j].addr + cs[j].len;
        assert j < k;
        assert Covered(cs, k, x);
      }
    }
  }

  lemma DispatchAnswer(c: KernelConfig, k: Kernel)
    requires WR.Takes(c, k, Completion.Written) && k.op.value.stage.Dispatch?
    ensures var n, op := Step(c, k, Answered(Completion.Written)).value, k.op.value;
      n == Kernel(k.model, if op.step + 1 < |DispatchChunks(c)| then Some(ProcOp(op.stage, op.step + 1, [])) else None)
  {
    hide Models.Ready, DispatchChunks;
  }

  /** An access of a Dispatch writes its next chunk. */
  lemma DispatchWrites(c: KernelConfig, s: Machine, h: Happening)
    requires MachineInv(c, s) && FrameOk(c, s) && Possible(c, s, h) && h.KernelAccess? && s.kernel.op.value.stage.Dispatch?
    ensures var n, op := Happen(c, s, h), s.kernel.op.value;
      && Written(c, n.mem, op.step + 1, DispatchBytes(op.stage.context, op.stage.satp))
      && n.kernel == Kernel(s.kernel.model, if op.step + 1 < |DispatchChunks(c)| then Some(ProcOp(op.stage, op.step + 1, [])) else None)
  {
    hide MachineInv, Happen, Possible, WR.Takes, Step, DispatchChunks, Inv, Written, DispatchBytes;
    PossibleAccess(c, s, h);
    FrameRange(c, s.kernel);
    AccessIs(c, s, h);
    var op := s.kernel.op.value;
    WrittenMore(c, s.mem, op.step, DispatchBytes(op.stage.context, op.stage.satp));
    DispatchAnswer(c, s.kernel);
  }

  /** What a finished Dispatch has left in the frame: the context, `satp`, and the action Resume. */
  ghost predicate Delivered(c: KernelConfig, m: Memory, context: Context, satp: Word) {
    FromFrame(FrameIn(c, m)) == context && WordIn(FrameIn(c, m), FRAME_SATP) == satp && WordIn(FrameIn(c, m), FRAME_ACTION) == 0
  }

  lemma AllWritten(c: KernelConfig, m: Memory, context: Context, satp: Word)
    requires Written(c, m, |DispatchChunks(c)|, DispatchBytes(context, satp))
    ensures Delivered(c, m, context, satp)
  {
    hide DispatchChunks, ToFrame, LeWord, LeBytes, FromFrame;
    var f, b := FrameIn(c, m), DispatchBytes(context, satp);
    forall i | 0 <= i < FRAME_BYTES && (i < CONTEXT_BYTES || FRAME_SATP <= i < FRAME_SATP + 8) ensures f[i] == b[i] {
      DispatchCovers(c, c.trapFrame + i);
      assert c.Frame().Has(c.trapFrame + i);
    }
    assert f[..CONTEXT_BYTES] == ToFrame(context);
    ContextRoundTrip(context);
    FromPrefix(f);
    assert f[FRAME_SATP..FRAME_SATP + 4] == LeBytes(satp);
    assert f[FRAME_ACTION..FRAME_ACTION + 4] == [0, 0, 0, 0];
    ZeroWord();
  }

  lemma ZeroWord()
    ensures LeWord([0, 0, 0, 0]) == 0
  {
  }

  lemma WordInPrefix(f: seq<Byte>, n: nat, o: nat)
    requires o + 4 <= n <= |f|
    ensures WordIn(f[..n], o) == WordIn(f, o)
  {
    hide LeWord;
    assert f[..n][o..o + 4] == f[o..o + 4];
  }

  /** A context is read from the frame's first bytes alone. */
  lemma FromPrefix(f: seq<Byte>)
    requires |f| >= CONTEXT_BYTES
    ensures FromFrame(f) == FromFrame(f[..CONTEXT_BYTES])
  {
    hide LeWord, WordIn;
    var g := f[..CONTEXT_BYTES];
    forall k: nat | k < 33 ensures WordIn(f, 4 * k) == WordIn(g, 4 * k) {
      WordInPrefix(f, CONTEXT_BYTES, 4 * k);
    }
    assert WordIn(f, 4 * 31) == WordIn(g, 4 * 31) && WordIn(f, 4 * 32) == WordIn(g, 4 * 32);
  }

  // ----- Everything that happens -----

  lemma StartsOk(c: KernelConfig, n: Machine)
    requires n.kernel.op.Some? ==> n.kernel.op.value.step == 0
    ensures FrameOk(c, n)
  {
    hide Chunks;
    if n.kernel.op.Some? && OpOk(c, n.kernel.op.value) && n.kernel.op.value.stage.ReadFrame? {
      assert FrameChunks(c)[..0] == [];
    }
  }

  lemma SameStageOk(c: KernelConfig, n: Machine)
    requires n.kernel.op.Some? ==> !n.kernel.op.value.stage.ReadFrame? && !n.kernel.op.value.stage.Dispatch?
    ensures FrameOk(c, n)
  {
  }

  /** Everything that can happen keeps the frame's invariant. */
  lemma HappenFrame(c: KernelConfig, s: Machine, h: Happening)
    requires MachineInv(c, s) && FrameOk(c, s) && Possible(c, s, h)
    ensures FrameOk(c, Happen(c, s, h))
  {
    hide MachineInv, FrameOk, Possible, Happen;
    match h
    case UserStore(_, _, _, _) => QuietFrame(c, s, h);
    case FrameStore(_, _) => QuietFrame(c, s, h);
    case KernelEnter(_) => EnterFrame(c, s, h);
    case StagingStore(_, _) => StagingFrame(c, s, h);
    case KernelAccess(_) => AccessFrame(c, s, h);
  }

  lemma QuietFrame(c: KernelConfig, s: Machine, h: Happening)
    requires MachineInv(c, s) && Possible(c, s, h) && (h.UserStore? || h.FrameStore?)
    ensures FrameOk(c, Happen(c, s, h))
  {
    hide MachineInv, StoreAt;
    HasLives(c, s);
  }

  lemma EnterFrame(c: KernelConfig, s: Machine, h: Happening)
    requires MachineInv(c, s) && Possible(c, s, h) && h.KernelEnter?
    ensures FrameOk(c, Happen(c, s, h))
  {
    hide Inv, LivesOk, DevicesApart, PlansInPage, FlightOk, KernelAfter, FrameOk;
    EnterMoves(c, s, h);
    StartsOk(c, Happen(c, s, h));
  }

  lemma StagingFrame(c: KernelConfig, s: Machine, h: Happening)
    requires MachineInv(c, s) && FrameOk(c, s) && Possible(c, s, h) && h.StagingStore?
    ensures FrameOk(c, Happen(c, s, h))
  {
    hide MachineInv, Inv, Chunks, OpOk, DispatchChunks, KernelConfig.Frame, DispatchBytes, StageOk;
    HasLives(c, s);
    FrameRange(c, s.kernel);
    FrameSame(c, s.mem, h.addr, h.bytes);
    if s.kernel.op.Some? && OpOk(c, s.kernel.op.value) && s.kernel.op.value.stage.ReadFrame? {
      FrameLen(c, s.kernel.op.value);
      SamePrefix(c, s.mem, Poke(s.mem, h.addr, h.bytes), TotalLen(FrameChunks(c)[..s.kernel.op.value.step]));
    }
  }

  lemma FrameLen(c: KernelConfig, op: ProcOp)
    requires OpOk(c, op) && op.stage.ReadFrame?
    ensures op.step < |FrameChunks(c)| && TotalLen(FrameChunks(c)[..op.step]) <= FRAME_BYTES
  {
    hide Chunks, TotalLen;
    ChunksTile(c.trapFrame, FRAME_BYTES);
  }

  /** A store into staging leaves the frame as it was. */
  lemma FrameSame(c: KernelConfig, m: Memory, addr: int, bytes: seq<Byte>)
    requires forall x :: c.Frame().Has(x) ==> !c.staging.Has(x)
    requires forall x :: addr <= x < addr + |bytes| ==> c.staging.Has(x)
    ensures forall x :: c.Frame().Has(x) ==> Peek(Poke(m, addr, bytes), x) == Peek(m, x)
  {
    hide KernelConfig.Frame;
  }

  lemma SamePrefix(c: KernelConfig, m: Memory, n: Memory, k: nat)
    requires k <= FRAME_BYTES && forall x :: c.Frame().Has(x) ==> Peek(n, x) == Peek(m, x)
    ensures Slice(n, c.trapFrame, k) == Slice(m, c.trapFrame, k)
  {
    var a, b := Slice(n, c.trapFrame, k), Slice(m, c.trapFrame, k);
    forall i | 0 <= i < k ensures a[i] == b[i] {
      assert c.Frame().Has(c.trapFrame + i);
    }
  }

  lemma AccessFrame(c: KernelConfig, s: Machine, h: Happening)
    requires MachineInv(c, s) && FrameOk(c, s) && Possible(c, s, h) && h.KernelAccess?
    ensures FrameOk(c, Happen(c, s, h))
  {
    hide MachineInv, FrameOk, Possible, Happen, OpOk, Inv;
    PossibleAccess(c, s, h);
    if s.kernel.op.value.stage.ReadFrame? {
      FrameReadOn(c, s, h);
    } else if s.kernel.op.value.stage.Dispatch? {
      DispatchFrame(c, s, h);
    } else {
      OtherFrame(c, s, h);
    }
  }

  lemma FrameReadOn(c: KernelConfig, s: Machine, h: Happening)
    requires MachineInv(c, s) && FrameOk(c, s) && Possible(c, s, h) && h.KernelAccess? && s.kernel.op.value.stage.ReadFrame?
    ensures FrameOk(c, Happen(c, s, h))
  {
    hide MachineInv, FrameOk, Possible, Happen, OpOk, Decide, Chunks, TotalLen, Inv;
    PossibleAccess(c, s, h);
    FrameRead(c, s, h);
    ReadOn(c, s, Happen(c, s, h));
  }

  lemma DispatchFrame(c: KernelConfig, s: Machine, h: Happening)
    requires MachineInv(c, s) && FrameOk(c, s) && Possible(c, s, h) && h.KernelAccess? && s.kernel.op.value.stage.Dispatch?
    ensures FrameOk(c, Happen(c, s, h))
  {
    hide MachineInv, FrameOk, Possible, Happen, Written, DispatchBytes, DispatchChunks, Inv;
    PossibleAccess(c, s, h);
    DispatchWrites(c, s, h);
    WriteOn(c, s, Happen(c, s, h));
  }

  lemma ReadOn(c: KernelConfig, s: Machine, n: Machine)
    requires s.kernel.op.Some? && s.kernel.op.value.stage.ReadFrame? && n.mem == s.mem && n.kernel.op.Some?
    requires var op := s.kernel.op.value;
      if op.step + 1 < |FrameChunks(c)|
      then n.kernel.op == Some(ProcOp(ReadFrame, op.step + 1, Slice(s.mem, c.trapFrame, TotalLen(FrameChunks(c)[..op.step + 1]))))
      else n.kernel.op.value.step == 0
    ensures FrameOk(c, n)
  {
    hide Chunks;
    if s.kernel.op.value.step + 1 >= |FrameChunks(c)| {
      StartsOk(c, n);
    }
  }

  lemma WriteOn(c: KernelConfig, s: Machine, n: Machine)
    requires s.kernel.op.Some? && s.kernel.op.value.stage.Dispatch? && s.kernel.op.value.step + 1 <= |DispatchChunks(c)|
    requires var op := s.kernel.op.value;
      && Written(c, n.mem, op.step + 1, DispatchBytes(op.stage.context, op.stage.satp))
      && n.kernel.op == if op.step + 1 < |DispatchChunks(c)| then Some(ProcOp(op.stage, op.step + 1, [])) else None
    ensures FrameOk(c, n)
  {
    hide Chunks, Written;
  }

  lemma OtherFrame(c: KernelConfig, s: Machine, h: Happening)
    requires MachineInv(c, s) && Possible(c, s, h) && h.KernelAccess?
    requires !s.kernel.op.value.stage.ReadFrame? && !s.kernel.op.value.stage.Dispatch?
    ensures FrameOk(c, Happen(c, s, h))
  {
    hide Inv, LivesOk, DevicesApart, PlansInPage, FlightOk, KernelAfter, FrameOk, OpOk, AccessDue, Steps, BirthsAfter, Writing, Models.Ready, Advanceable, Admitted;
    EventAllowed(c, s, h);
    AccessMoves(c, s, h);
    KernelWithin(c, s.kernel);
    var n, op := Happen(c, s, h), s.kernel.op.value;
    if op.step + 1 < Steps(c, op.stage) {
      SameStageOk(c, n);
    } else {
      StartsOk(c, n);
    }
  }

  /** Every run keeps the frame's invariant. */
  lemma {:induction false} RunsFrame(c: KernelConfig, s: Machine, hs: seq<Happening>)
    requires MachineInv(c, s) && FrameOk(c, s)
    ensures Runs(c, s, hs).Some? ==> FrameOk(c, Runs(c, s, hs).value)
  {
    hide MachineInv, FrameOk, Possible, Happen;
    if hs != [] {
      var front, h := hs[..|hs| - 1], hs[|hs| - 1];
      RunsFrame(c, s, front);
      if Runs(c, s, hs).Some? {
        HappenFrame(c, Runs(c, s, front).value, h);
      }
    }
  }

  /** In every state a run from boot reaches, the frame's invariant holds. */
  lemma ReachedFrame(c: KernelConfig, s: Machine)
    requires Reached(c, s)
    ensures FrameOk(c, s)
  {
    hide MachineInv, Runs, Fresh, DevicesApart, PlansInPage;
    var s0: Machine, hs: seq<Happening> :| Unbooted(c, s0) && MachineInv(c, s0) && Runs(c, s0, hs) == Some(s);
    FreshQuiet(c, s0.kernel);
    StartsOk(c, s0);
    RunsFrame(c, s0, hs);
  }

  // ----- Dispatch -----

  /** The kernel works on: its own accesses, and disk transfers into staging. */
  predicate Working(hs: seq<Happening>) {
    forall i :: 0 <= i < |hs| ==> hs[i].KernelAccess? || hs[i].StagingStore?
  }

  /** A Dispatch under way, or finished with its context and `satp` in the frame. */
  ghost predicate Delivering(c: KernelConfig, s: Machine, m: Model, d: Stage)
    requires d.Dispatch?
  {
    && FrameOk(c, s) && s.kernel.model == m
    && if s.kernel.op.Some? then s.kernel.op.value.stage == d else Delivered(c, s.mem, d.context, d.satp)
  }

  lemma DeliversStep(c: KernelConfig, s: Machine, h: Happening, m: Model, d: Stage)
    requires MachineInv(c, s) && d.Dispatch? && Delivering(c, s, m, d) && Possible(c, s, h) && (h.KernelAccess? || h.StagingStore?)
    ensures Delivering(c, Happen(c, s, h), m, d)
  {
    hide MachineInv, FrameOk, Happen, Possible, DispatchChunks, DispatchBytes, Written, OpOk, FromFrame, WordIn, FrameIn, Inv;
    HappenFrame(c, s, h);
    if h.StagingStore? {
      StagingDelivers(c, s, h);
    } else {
      PossibleAccess(c, s, h);
      DispatchWrites(c, s, h);
      var n, op := Happen(c, s, h), s.kernel.op.value;
      if n.kernel.op.None? {
        LastChunk(c, op);
        AllWritten(c, n.mem, d.context, d.satp);
      }
    }
  }

  lemma LastChunk(c: KernelConfig, op: ProcOp)
    requires OpOk(c, op) && op.stage.Dispatch?
    ensures op.step < |DispatchChunks(c)|
  {
    hide DispatchChunks;
  }

  lemma StagingDelivers(c: KernelConfig, s: Machine, h: Happening)
    requires MachineInv(c, s) && Possible(c, s, h) && h.StagingStore?
    ensures Happen(c, s, h).kernel == s.kernel && FrameIn(c, Happen(c, s, h).mem) == FrameIn(c, s.mem)
  {
    hide MachineInv, Inv, KernelConfig.Frame;
    HasLives(c, s);
    FrameRange(c, s.kernel);
    FrameSame(c, s.mem, h.addr, h.bytes);
    SamePrefix(c, s.mem, Poke(s.mem, h.addr, h.bytes), FRAME_BYTES);
  }

  lemma {:induction false} DispatchRun(c: KernelConfig, s: Machine, hs: seq<Happening>)
    requires MachineInv(c, s) && FrameOk(c, s) && s.kernel.op.Some? && s.kernel.op.value.stage.Dispatch? && Working(hs)
    ensures Runs(c, s, hs).Some? ==> Delivering(c, Runs(c, s, hs).value, s.kernel.model, s.kernel.op.value.stage)
  {
    hide MachineInv, FrameOk, Possible, Happen, Delivering;
    if hs == [] {
      Begins(c, s);
    } else {
      var front, h := hs[..|hs| - 1], hs[|hs| - 1];
      DispatchRun(c, s, front);
      if Runs(c, s, hs).Some? {
        DeliversStep(c, Runs(c, s, front).value, h, s.kernel.model, s.kernel.op.value.stage);
      }
    }
  }

  /** In every state a run from boot reaches with a dispatch under way, working on leaves the processes as they are and, when
      the dispatch has finished, its context, its `satp` and the action Resume in the trap frame, whatever disk transfers
      come between its accesses. */
  lemma DispatchDelivers(c: KernelConfig, s: Machine, hs: seq<Happening>)
    requires Reached(c, s) && s.kernel.op.Some? && s.kernel.op.value.stage.Dispatch? && Working(hs)
    ensures MachineInv(c, s) && (Runs(c, s, hs).Some? ==> Delivering(c, Runs(c, s, hs).value, s.kernel.model, s.kernel.op.value.stage))
  {
    hide MachineInv, WR.WriteOk, Reached, Runs, Delivering, FrameOk;
    ReachedSound(c, s);
    ReachedFrame(c, s);
    DispatchRun(c, s, hs);
  }

  lemma Begins(c: KernelConfig, s: Machine)
    requires FrameOk(c, s) && s.kernel.op.Some? && s.kernel.op.value.stage.Dispatch?
    ensures Delivering(c, s, s.kernel.model, s.kernel.op.value.stage)
  {
    hide FrameOk;
  }

  // ----- Yield -----

  /** The frame asks for `sched_yield`. */
  predicate AsksYield(f: FrameBytes) {
    WordIn(f, FRAME_SSTATUS) % 512 < 256 && WordIn(f, FRAME_SCAUSE) == 8 && WordIn(f, FRAME_A7) == 124
  }

  /** The operation that dispatches the Ready process `w` with its context. */
  function DispatchOf(w: Pcb): ProcOp
    requires w.context.Some?
  {
    NewOp(Dispatch(w.pid, w.context.value, Satp(w.root)))
  }

  /** Process `i` is `w`, waiting, or has just been dispatched with `w`'s context. */
  ghost predicate WaitsOrResumes(k: Kernel, i: nat, w: Pcb)
    requires w.context.Some?
  {
    i < |k.model.procs.pcbs| && (k.model.procs.pcbs[i] == w || k.op == Some(DispatchOf(w)))
  }

  lemma NewOpIs(c: KernelConfig, k: Kernel)
    requires Inv(c, k) && k.op.Some? && k.op.value.step == 0 && k.op.value.stage.Dispatch?
    ensures k.op.value == NewOp(k.op.value.stage)
  {
    hide Within, Chunks;
  }

  /** What one happening does to a Ready process. */
  lemma ReadyStep(c: KernelConfig, s: Machine, h: Happening, i: nat)
    requires MachineInv(c, s) && Possible(c, s, h) && i < |s.kernel.model.procs.pcbs|
    requires s.kernel.model.procs.pcbs[i].state == Ready && s.kernel.model.procs.pcbs[i].context.Some?
    ensures WaitsOrResumes(Happen(c, s, h).kernel, i, s.kernel.model.procs.pcbs[i])
  {
    hide Inv, LivesOk, DevicesApart, PlansInPage, FlightOk, KernelAfter, StoreAt, OpOk, AccessDue, Steps, BirthsAfter, Writing, KernelConfig.Frame, Admitted, Models.Ready, Advanceable;
    match h
    case KernelEnter(_) =>
      EnterMoves(c, s, h);
      AfterInv(c, s, h);
      ReadyMoved(c, s.kernel.model.procs, KernelAfter(c, s, h), i);
    case KernelAccess(_) =>
      EventAllowed(c, s, h);
      AccessMoves(c, s, h);
      AdmittedKeeps(c, s.kernel, i);
      AfterInv(c, s, h);
      var op := s.kernel.op.value;
      KernelWithin(c, s.kernel);
      if op.step + 1 >= Steps(c, op.stage) {
        ReadyMoved(c, Admitted(s.kernel.model, op.stage).procs, KernelAfter(c, s, h), i);
      }
    case _ =>
  }

  lemma ReadyMoved(c: KernelConfig, p: Procs, k: Kernel, i: nat)
    requires Inv(c, k) && ReadyKept(p, k.model.procs, StageOf(k)) && (k.op.Some? ==> k.op.value.step == 0)
    requires i < |p.pcbs| && p.pcbs[i].state == Ready && p.pcbs[i].context.Some?
    ensures WaitsOrResumes(k, i, p.pcbs[i])
  {
    hide Inv;
    if k.op.Some? && k.op.value.stage.Dispatch? {
      NewOpIs(c, k);
    }
  }

  /** The yielding process waits with the frame's context, `a0 = 0` and past its `ecall`, or is dispatched with it at
      once. */
  lemma YieldSaves(c: KernelConfig, s: Machine, h: Happening, i: nat)
    requires MachineInv(c, s) && FrameOk(c, s) && Possible(c, s, h) && h.KernelAccess? && s.kernel.op.value.stage.ReadFrame?
    requires s.kernel.op.value.step + 1 == |FrameChunks(c)| && AsksYield(FrameIn(c, s.mem))
    requires i < |s.kernel.model.procs.pcbs| && s.kernel.model.procs.current == Some(s.kernel.model.procs.pcbs[i].pid)
    ensures var w := s.kernel.model.procs.pcbs[i].(state := Ready, context := Some(YieldContext(FrameIn(c, s.mem))));
      WaitsOrResumes(Happen(c, s, h).kernel, i, w)
  {
    hide MachineInv, FrameOk, Possible, Happen, Chunks, YieldContext, WordIn, YieldCall, Inv, FrameIn, OpOk;
    PossibleAccess(c, s, h);
    FrameRead(c, s, h);
    YieldIs(c, s.kernel, i, FrameIn(c, s.mem));
    HappenKeeps(c, s, h);
    HasLives(c, Happen(c, s, h));
    var m, f := s.kernel.model, FrameIn(c, s.mem);
    var y := YieldCurrent(m.procs, YieldContext(f)).procs;
    ReadyMoved(c, y, Happen(c, s, h).kernel, i);
  }

  lemma YieldIs(c: KernelConfig, k: Kernel, i: nat, f: FrameBytes)
    requires Inv(c, k) && i < |k.model.procs.pcbs| && k.model.procs.current == Some(k.model.procs.pcbs[i].pid) && AsksYield(f)
    ensures var y, t := YieldCurrent(k.model.procs, YieldContext(f)).procs, Decide(k.model, f);
      && y.pcbs == k.model.procs.pcbs[i := k.model.procs.pcbs[i].(state := Ready, context := Some(YieldContext(f)))]
      && ReadyKept(y, t.model.procs, StageIn(t))
  {
    hide Inv, IndexOf, WordIn, DispatchNext, YieldContext;
    PidsDistinct(c, k, i, IndexOf(k.model.procs.pcbs, k.model.procs.pcbs[i].pid));
    DispatchKept(k.model.(procs := YieldCurrent(k.model.procs, YieldContext(f)).procs));
  }

  /** After `j` happenings process `i` is still `w`. */
  ghost predicate StillWaits(c: KernelConfig, s: Machine, hs: seq<Happening>, j: nat, i: nat, w: Pcb)
    requires MachineInv(c, s) && j <= |hs|
  {
    var r := Runs(c, s, hs[..j]);
    r.Some? && i < |r.value.kernel.model.procs.pcbs| && r.value.kernel.model.procs.pcbs[i] == w
  }

  /** After `k` happenings, having waited as `w` all along, process `i` is dispatched with `w`'s context and root. */
  ghost predicate ResumesAt(c: KernelConfig, s: Machine, hs: seq<Happening>, k: nat, i: nat, w: Pcb)
    requires MachineInv(c, s) && k <= |hs| && w.context.Some?
  {
    && (forall j :: 0 <= j < k ==> StillWaits(c, s, hs, j, i, w))
    && Runs(c, s, hs[..k]).Some? && Runs(c, s, hs[..k]).value.kernel.op == Some(DispatchOf(w))
  }

  /** Over any run a waiting process keeps its context, and the first thing that happens to it is its dispatch with that
      context in its own address space. */
  lemma {:induction false} WaitsThenResumes(c: KernelConfig, s: Machine, hs: seq<Happening>, i: nat, w: Pcb)
    requires MachineInv(c, s) && w.state == Ready && w.context.Some? && WaitsOrResumes(s.kernel, i, w) && Runs(c, s, hs).Some?
    ensures (forall j :: 0 <= j <= |hs| ==> StillWaits(c, s, hs, j, i, w)) || (exists k :: 0 <= k <= |hs| && ResumesAt(c, s, hs, k, i, w))
  {
    hide MachineInv, Possible, Happen, DispatchOf;
    if hs == [] {
      assert hs[..0] == [];
      assert s.kernel.model.procs.pcbs[i] == w ==> StillWaits(c, s, hs, 0, i, w);
      assert s.kernel.model.procs.pcbs[i] != w ==> ResumesAt(c, s, hs, 0, i, w);
    } else {
      var front, h := hs[..|hs| - 1], hs[|hs| - 1];
      WaitsThenResumes(c, s, front, i, w);
      forall j: nat | j <= |front| ensures StillWaits(c, s, hs, j, i, w) == StillWaits(c, s, front, j, i, w) {
        assert hs[..j] == front[..j];
      }
      if k :| 0 <= k <= |front| && ResumesAt(c, s, front, k, i, w) {
        assert hs[..k] == front[..k];
        assert ResumesAt(c, s, hs, k, i, w);
      } else {
        assert StillWaits(c, s, front, |front|, i, w);
        assert front[..|front|] == front && hs[..|hs|] == hs;
        var before := Runs(c, s, front).value;
        ReadyStep(c, before, h, i);
        assert Runs(c, s, hs).value.kernel.op == Some(DispatchOf(w)) ==> ResumesAt(c, s, hs, |hs|, i, w);
      }
    }
  }

  /** The last access of a frame read that found a yield of process `i`. */
  ghost predicate Yields(c: KernelConfig, s: Machine, h: Happening, i: nat) {
    && Inv(c, s.kernel) && Possible(c, s, h) && h.KernelAccess?
    && s.kernel.op.value.stage.ReadFrame? && s.kernel.op.value.step + 1 == |FrameChunks(c)| && AsksYield(FrameIn(c, s.mem))
    && i < |s.kernel.model.procs.pcbs| && s.kernel.model.procs.current == Some(s.kernel.model.procs.pcbs[i].pid)
  }

  /** The yielding process with the context it is to resume with. */
  function Yielded(c: KernelConfig, s: Machine, i: nat): Pcb
    requires i < |s.kernel.model.procs.pcbs|
  {
    s.kernel.model.procs.pcbs[i].(state := Ready, context := Some(YieldContext(FrameIn(c, s.mem))))
  }

  /** In every state a run from boot reaches, a process that yields keeps the context it had in the trap frame, with
      `a0 = 0` and past its `ecall`, over any run from there, until it is dispatched with it. */
  lemma YieldResumes(c: KernelConfig, s: Machine, h: Happening, i: nat, hs: seq<Happening>)
    requires Reached(c, s) && Yields(c, s, h, i)
    ensures MachineInv(c, Happen(c, s, h))
    ensures Runs(c, Happen(c, s, h), hs).Some? ==>
      var n, w := Happen(c, s, h), Yielded(c, s, i);
      || (forall j :: 0 <= j <= |hs| ==> StillWaits(c, n, hs, j, i, w))
      || (exists k :: 0 <= k <= |hs| && ResumesAt(c, n, hs, k, i, w))
  {
    hide MachineInv, WR.WriteOk, FrameOk, Possible, Happen, FrameIn, AsksYield, Chunks, YieldContext, Runs, WaitsOrResumes, Reached, Inv;
    ReachedSound(c, s);
    ReachedFrame(c, s);
    HappenKeeps(c, s, h);
    YieldSaves(c, s, h, i);
    if Runs(c, Happen(c, s, h), hs).Some? {
      WaitsThenResumes(c, Happen(c, s, h), hs, i, Yielded(c, s, i));
    }
  }
}
