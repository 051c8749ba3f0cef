/** The whole `write` call, from the read of the trap frame to the end of the operation: the bytes at the UART, the value in
    the caller's `a0`, and nothing else, whatever disk transfers come between its accesses. */
module WriteCalls {
  import opened Words
  import opened Memory
  import opened Core
  import opened Config
  import opened Image
  import opened UserCopy
  import opened Processes
  import opened ProcOps
  import opened Models
  import opened ModelRun
  import opened Machines
  import opened Isolation
  import opened Writes
  import opened WriteRun
  import opened WriteExact
  import opened TrapFrames
  import opened PermitsRun
  import SpaceExact

  /** The operation of a trap whose frame asks for `write`. */
  ghost predicate WriteAsked(c: KernelConfig, s: Machine) {
    && s.kernel.op == Some(NewOp(ReadFrame))
    && var f := FrameIn(c, s.mem);
       WordIn(f, FRAME_SSTATUS) % 512 < 256 && WordIn(f, FRAME_SCAUSE) == 8 && WordIn(f, FRAME_A7) == 64
  }

  /** The buffer the frame names, if the file descriptor is 1 or 2 and it holds a byte and fits below 2^32. */
  function Asked(f: FrameBytes): Option<Buffer> {
    var fd, n := WordIn(f, FRAME_A0), Min(WordIn(f, FRAME_A2), WRITE_MAX);
    if fd != 1 && fd != 2 then None else NewBuffer(WordIn(f, FRAME_SEPC), WordIn(f, FRAME_A1), n)
  }

  /** Every byte of the buffer the frame names is readable by the caller. */
  ghost predicate Sends(c: KernelConfig, s: Machine) {
    var b := Asked(FrameIn(c, s.mem));
    b.Some? && Readable(s.mem, TheRoot(s.kernel), b.value)
  }

  /** What the call sends: the buffer's bytes, or nothing. */
  ghost function Output(c: KernelConfig, s: Machine): seq<Byte> {
    if Sends(c, s) then
      var b := Asked(FrameIn(c, s.mem)).value;
      UserBytes(s.mem, TheRoot(s.kernel), b, b.n)
    else []
  }

  /** What the call returns: the number of bytes sent, 0 for an empty buffer, `-EBADF` or `-EFAULT`. */
  ghost function Returns(c: KernelConfig, s: Machine): Word {
    var f := FrameIn(c, s.mem);
    if WordIn(f, FRAME_A0) != 1 && WordIn(f, FRAME_A0) != 2 then Neg(EBADF)
    else if Min(WordIn(f, FRAME_A2), WRITE_MAX) == 0 then 0
    else if Sends(c, s) then Asked(f).value.n
    else Neg(EFAULT)
  }

  /** Memory with the first `k` words of the return written: `a0`, then `sepc` past the `ecall`. */
  ghost function Replied(c: KernelConfig, s: Machine, k: nat): Memory {
    var a0 := Poke(s.mem, c.trapFrame + FRAME_A0, LeBytes(Returns(c, s)));
    if k == 0 then s.mem
    else if k == 1 then a0
    else Poke(a0, c.trapFrame + FRAME_SEPC, LeBytes(Wrap(WordIn(FrameIn(c, s.mem), FRAME_SEPC) + 4)))
  }

  /** Outside staging, memory is `n`. */
  ghost predicate SameButStaging(c: KernelConfig, m: Memory, n: Memory) {
    forall x :: !c.staging.Has(x) ==> Peek(m, x) == Peek(n, x)
  }

  /** The call begun in `s0`, under way or finished in `s`. */
  ghost predicate Serving(c: KernelConfig, s0: Machine, s: Machine) {
    && SoundMachine(c, s) && FrameOk(c, s) && s.kernel.model == s0.kernel.model && s.births == s0.births
    && match s.kernel.op
       case None => s.uart == s0.uart + Output(c, s0) && SameButStaging(c, s.mem, Replied(c, s0, 2))
       case Some(op) =>
         match op.stage
         case ReadFrame => s.uart == s0.uart && SameButStaging(c, s.mem, s0.mem)
         case Walk(b, _, _, _) => Asked(FrameIn(c, s0.mem)) == Some(b) && s.mark == s0.uart && SameButStaging(c, s.mem, s0.mem)
         case Output(b, _, _) => Asked(FrameIn(c, s0.mem)) == Some(b) && s.mark == s0.uart && SameButStaging(c, s.mem, s0.mem)
         case Return(sepc, value) =>
           && sepc == WordIn(FrameIn(c, s0.mem), FRAME_SEPC) && value == Returns(c, s0)
           && s.uart == s0.uart + Output(c, s0) && SameButStaging(c, s.mem, Replied(c, s0, op.step))
         case _ => false
  }

  /** More than the accesses of a call after its frame is read. */
  const BOUND := 2 * WRITE_MAX + 10

  /** A bound on the accesses left. */
  function Remaining(c: KernelConfig, k: Kernel): nat {
    if k.op.None? || !StageOk(k.op.value.stage) then 0
    else
      match k.op.value.stage
      case ReadFrame => BOUND + (if |FrameChunks(c)| >= k.op.value.step then |FrameChunks(c)| - k.op.value.step else 0)
      case Walk(_, _, _, _) => Left(k) + 3
      case Output(_, _, _) => Left(k) + 3
      case Return(_, _) => if k.op.value.step < 2 then 2 - k.op.value.step else 0
      case _ => 0
  }

  // ----- What the caller's memory looks like meanwhile -----

  /** Staging is no part of what the call reads: the frame and the caller's pages are as they were. */
  lemma FrameStays(c: KernelConfig, k: Kernel, m: Memory, n: Memory)
    requires Inv(c, k) && SameButStaging(c, m, n)
    ensures FrameIn(c, m) == FrameIn(c, n)
  {
    hide Inv, KernelConfig.Frame;
    FrameRange(c, k);
    SamePrefix(c, n, m, FRAME_BYTES);
  }

  lemma BytesStay(c: KernelConfig, s0: Machine, s: Machine, root: Word, b: Buffer)
    requires MachineInv(c, s0) && MachineInv(c, s) && Writes.Runs(s0.kernel, root) && b.Fits()
    requires s.kernel.model == s0.kernel.model && s.births == s0.births && SameButStaging(c, s.mem, s0.mem)
    ensures Readable(s.mem, root, b) <==> Readable(s0.mem, root, b)
    ensures Readable(s.mem, root, b) ==> UserBytes(s.mem, root, b, b.n) == UserBytes(s0.mem, root, b, b.n)
  {
    hide MachineInv, UserAt, SpaceExact.InPool, PageOf;
    HasLives(c, s0);
    LayoutOk(c, s0.kernel);
    forall va: Word ensures UserAt(s.mem, root, va) == UserAt(s0.mem, root, va) {
      SameWalk(c, s0, s, root, va);
    }
    if Readable(s.mem, root, b) {
      forall i | 0 <= i < b.n ensures Peek(s.mem, UserAt(s0.mem, root, ByteVa(b, i)).value) == Peek(s0.mem, UserAt(s0.mem, root, ByteVa(b, i)).value) {
        var x := UserAt(s0.mem, root, ByteVa(b, i)).value;
        UserAtReaches(c, s0, root, ByteVa(b, i));
        if c.staging.Has(x) {
          NotPoolByte(c, s0.kernel.model.source.layout, x);
        }
      }
      assert UserBytes(s.mem, root, b, b.n) == UserBytes(s0.mem, root, b, b.n);
    }
  }

  // ----- Stage by stage -----

  /** A disk transfer. */
  lemma StagingServes(c: KernelConfig, s0: Machine, s: Machine, h: Happening)
    requires Serving(c, s0, s) && Inv(c, s.kernel) && Possible(c, s, h) && h.StagingStore?
    ensures Serving(c, s0, Happen(c, s, h)) && Happen(c, s, h).kernel == s.kernel
  {
    hide MachineInv, WriteOk, FrameOk, Inv, Output, Returns, FrameIn, Replied, Asked;
    HappenSound(c, s, h);
    HappenFrame(c, s, h);
    var n := Happen(c, s, h);
    assert forall m: Memory :: SameButStaging(c, s.mem, m) ==> SameButStaging(c, n.mem, m);
  }

  /** The decision on a frame that asks for `write`: a walk of its buffer, or its value at once. */
  lemma DecidesWrite(c: KernelConfig, s0: Machine)
    requires WriteAsked(c, s0) && Inv(c, s0.kernel)
    ensures var t, f := Decide(s0.kernel.model, FrameIn(c, s0.mem)), FrameIn(c, s0.mem);
      && t.model == s0.kernel.model
      && t.result == Ok(match Asked(f)
                        case Some(b) => Walk(b, [], TheRoot(s0.kernel), 1)
                        case None => Return(WordIn(f, FRAME_SEPC), Returns(c, s0)))
      && (Asked(f).None? ==> Output(c, s0) == [])
  {
    hide Inv, WordIn, FrameIn;
    ReaderRuns(c, s0.kernel);
  }

  lemma ReaderRuns(c: KernelConfig, k: Kernel)
    requires Inv(c, k) && k.op == Some(NewOp(ReadFrame))
    ensures Writes.Runs(k, TheRoot(k)) && k.model.procs.current.Some?
  {
    hide ValidSource, IndexOf, OwnersOk, QueueOk, StatesOk, PidsOk, Chunks;
  }

  lemma FrameServes(c: KernelConfig, s0: Machine, s: Machine, h: Happening)
    requires h.KernelAccess? && s.kernel.op.Some? && s.kernel.op.value.stage.ReadFrame? && Inv(c, s.kernel) && Possible(c, s, h)
    requires Serving(c, s0, s) && WriteAsked(c, s0) && Inv(c, s0.kernel)
    ensures Serving(c, s0, Happen(c, s, h)) && Remaining(c, Happen(c, s, h).kernel) < Remaining(c, s.kernel)
  {
    hide MachineInv, WriteOk, FrameOk, Inv, Output, Returns, FrameIn, Asked, Possible, Happen, Decide, Chunks, TotalLen, WriteAsked, Left, OpOk;
    PossibleAccess(c, s, h);
    FrameStays(c, s.kernel, s.mem, s0.mem);
    FrameRead(c, s, h);
    HappenSound(c, s, h);
    HappenFrame(c, s, h);
    FrameLen(c, s.kernel.op.value);
    var n := Happen(c, s, h);
    if s.kernel.op.value.step + 1 >= |FrameChunks(c)| {
      DecidesWrite(c, s0);
      StartsMark(c, s, h);
      StartLeft(c, n);
    }
  }

  /** A write begins with the UART as it is. */
  lemma StartsMark(c: KernelConfig, s: Machine, h: Happening)
    requires MachineInv(c, s) && Possible(c, s, h) && h.KernelAccess? && !Writing(s.kernel)
    ensures Happen(c, s, h).mark == Happen(c, s, h).uart
  {
    hide MachineInv, Possible, Happen, Takes, Step;
    AccessIs(c, s, h);
  }

  lemma StartLeft(c: KernelConfig, n: Machine)
    requires SoundMachine(c, n) && n.kernel.op.Some? && n.kernel.op.value.step == 0
    requires n.kernel.op.value.stage.Walk? || n.kernel.op.value.stage.Return?
    ensures Remaining(c, n.kernel) < BOUND
  {
    hide MachineInv, WriteOk, Inv, Buffer.Pages;
    HasLives(c, n);
  }

  lemma WritesServe(c: KernelConfig, s0: Machine, s: Machine, h: Happening)
    requires h.KernelAccess? && Writing(s.kernel) && Inv(c, s.kernel) && Possible(c, s, h)
    requires Serving(c, s0, s) && WriteAsked(c, s0) && MachineInv(c, s0)
    ensures Serving(c, s0, Happen(c, s, h)) && Remaining(c, Happen(c, s, h).kernel) < Remaining(c, s.kernel)
  {
    hide MachineInv, WriteOk, FrameOk, Inv, FrameIn, Possible, Happen, Left, OpOk, TheRoot, Readable, UserBytes, WriteAsked;
    PossibleAccess(c, s, h);
    WriteGoes(c, s, h);
    HappenSound(c, s, h);
    HappenFrame(c, s, h);
    var n := Happen(c, s, h);
    HasLives(c, s0);
    AskedIs(c, s0);
    ReaderRuns(c, s0.kernel);
    SameRoot(s0.kernel, s.kernel);
    var b := BufferOf(s.kernel);
    BytesStay(c, s0, s, TheRoot(s0.kernel), b);
    ResultServes(c, s0, s, n, b);
  }

  lemma AskedIs(c: KernelConfig, s: Machine)
    requires WriteAsked(c, s)
    ensures s.kernel.op == Some(NewOp(ReadFrame))
  {
  }

  /** The write goes on, or has its result. */
  lemma ResultServes(c: KernelConfig, s0: Machine, s: Machine, n: Machine, b: Buffer)
    requires Serving(c, s0, s) && Writing(s.kernel) && StageOk(s.kernel.op.value.stage) && b == BufferOf(s.kernel) && Goes(s, n)
    requires SoundMachine(c, n) && FrameOk(c, n) && TheRoot(s.kernel) == TheRoot(s0.kernel)
    requires Readable(s.mem, TheRoot(s0.kernel), b) <==> Readable(s0.mem, TheRoot(s0.kernel), b)
    requires Readable(s.mem, TheRoot(s0.kernel), b) ==> UserBytes(s.mem, TheRoot(s0.kernel), b, b.n) == UserBytes(s0.mem, TheRoot(s0.kernel), b, b.n)
    ensures Serving(c, s0, n) && Remaining(c, n.kernel) < Remaining(c, s.kernel)
  {
    hide MachineInv, WriteOk, FrameOk, FrameIn, Left, TheRoot, Readable, UserBytes, SameButStaging, WordIn;
  }

  lemma ReturnAnswer(c: KernelConfig, k: Kernel)
    requires Takes(c, k, Completion.Written) && k.op.value.stage.Return?
    ensures Step(c, k, Answered(Completion.Written)) == Ok(Kernel(k.model, if k.op.value.step == 0 then Some(ProcOp(k.op.value.stage, 1, [])) else None))
  {
    hide Models.Ready, LeBytes;
  }

  lemma ReturnServes(c: KernelConfig, s0: Machine, s: Machine, h: Happening)
    requires h.KernelAccess? && s.kernel.op.Some? && s.kernel.op.value.stage.Return? && Inv(c, s.kernel) && Possible(c, s, h)
    requires Serving(c, s0, s)
    ensures Serving(c, s0, Happen(c, s, h)) && Remaining(c, Happen(c, s, h).kernel) < Remaining(c, s.kernel)
  {
    hide MachineInv, WriteOk, FrameOk, Inv, Output, Returns, FrameIn, Asked, Possible, Happen, WordIn, LeBytes, Takes, Step, SameButStaging;
    PossibleAccess(c, s, h);
    FrameRange(c, s.kernel);
    AccessIs(c, s, h);
    HappenSound(c, s, h);
    HappenFrame(c, s, h);
    ReturnAnswer(c, s.kernel);
    HasLives(c, s);
    var n, op := Happen(c, s, h), s.kernel.op.value;
    var a := AccessDue(c, op);
    UartElsewhere(c, a);
    SamePoke(c, s.mem, Replied(c, s0, op.step), a.addr, a.data);
  }

  lemma UartElsewhere(c: KernelConfig, a: Core.Access)
    requires DevicesApart(c) && InRam(c, a) && a.Len() > 0
    ensures a.addr != c.uartTx
  {
  }

  lemma SamePoke(c: KernelConfig, m: Memory, n: Memory, addr: int, data: seq<Byte>)
    requires SameButStaging(c, m, n)
    ensures SameButStaging(c, Poke(m, addr, data), Poke(n, addr, data))
  {
  }

  // ----- The whole call -----

  lemma ServesStep(c: KernelConfig, s0: Machine, s: Machine, h: Happening)
    requires WriteAsked(c, s0) && MachineInv(c, s0) && Serving(c, s0, s) && Inv(c, s.kernel) && Possible(c, s, h)
    requires h.KernelAccess? || h.StagingStore?
    ensures Serving(c, s0, Happen(c, s, h))
    ensures Remaining(c, Happen(c, s, h).kernel) + (if h.KernelAccess? then 1 else 0) <= Remaining(c, s.kernel)
  {
    hide MachineInv, WriteOk, FrameOk, Inv, Output, Returns, FrameIn, Asked, Possible, Happen, Remaining, SameButStaging, Replied, WordIn, OpOk, WriteAsked;
    HasLives(c, s0);
    if h.StagingStore? {
      StagingServes(c, s0, s, h);
    } else {
      PossibleAccess(c, s, h);
      if s.kernel.op.value.stage.ReadFrame? {
        FrameServes(c, s0, s, h);
      } else if s.kernel.op.value.stage.Return? {
        ReturnServes(c, s0, s, h);
      } else {
        WritesServe(c, s0, s, h);
      }
    }
  }

  /** The kernel's accesses among the happenings. */
  function Accesses(hs: seq<Happening>): nat {
    if hs == [] then 0 else Accesses(hs[..|hs| - 1]) + if hs[|hs| - 1].KernelAccess? then 1 else 0
  }

  lemma Asks(c: KernelConfig, s: Machine)
    requires SoundMachine(c, s) && FrameOk(c, s) && WriteAsked(c, s)
    ensures Serving(c, s, s)
  {
    hide MachineInv, WriteOk, FrameOk, WordIn, FrameIn;
  }

  lemma {:induction false} Serves(c: KernelConfig, s: Machine, hs: seq<Happening>)
    requires SoundMachine(c, s) && FrameOk(c, s) && WriteAsked(c, s) && Working(hs)
    ensures Isolation.Runs(c, s, hs).Some? ==>
      var n := Isolation.Runs(c, s, hs).value;
      Serving(c, s, n) && Accesses(hs) + Remaining(c, n.kernel) <= Remaining(c, s.kernel)
  {
    hide MachineInv, WriteOk, FrameOk, WriteAsked, Serving, Possible, Happen, Remaining, Inv;
    if hs == [] {
      Asks(c, s);
    } else {
      var front, h := hs[..|hs| - 1], hs[|hs| - 1];
      Serves(c, s, front);
      if Isolation.Runs(c, s, hs).Some? {
        var before := Isolation.Runs(c, s, front).value;
        HasLives(c, before);
        ServesStep(c, s, before, h);
      }
    }
  }

  /** `write` is all or nothing and exact: in every state a run from boot reaches at the read of a trap frame that asks for
      it, and over any run of the kernel's accesses and disk transfers from there, the processes stay as they were; the
      call ends after boundedly many accesses; and when it has ended, the UART has received exactly the buffer's bytes, in
      order, and `a0` is their number, or it has received nothing and `a0` is 0, `-EBADF` or `-EFAULT`; `sepc` is past the
      `ecall`, and no other byte outside staging has changed. */
  lemma WriteExactly(c: KernelConfig, s: Machine, hs: seq<Happening>)
    requires Reached(c, s) && WriteAsked(c, s) && Working(hs)
    ensures MachineInv(c, s)
    ensures Isolation.Runs(c, s, hs).Some? ==>
      var n := Isolation.Runs(c, s, hs).value;
      && n.kernel.model == s.kernel.model
      && (n.kernel.op.Some? ==> Due(c, n.kernel) && Accesses(hs) < BOUND + |FrameChunks(c)|)
      && (n.kernel.op.None? ==> n.uart == s.uart + Output(c, s) && SameButStaging(c, n.mem, Replied(c, s, 2)))
  {
    hide MachineInv, WriteOk, FrameOk, WriteAsked, Inv, Isolation.Runs, Output, SameButStaging, Replied, Returns, OpOk, Reached;
    ReachedSound(c, s);
    ReachedFrame(c, s);
    Serves(c, s, hs);
    if Isolation.Runs(c, s, hs).Some? {
      var n := Isolation.Runs(c, s, hs).value;
      HasLives(c, n);
      AskedIs(c, s);
      if n.kernel.op.Some? {
        StillDue(c, s, n);
      }
    }
  }

  lemma StillDue(c: KernelConfig, s0: Machine, s: Machine)
    requires Serving(c, s0, s) && Inv(c, s.kernel) && s.kernel.op.Some?
    ensures Due(c, s.kernel) && Remaining(c, s.kernel) > 0
  {
    hide MachineInv, WriteOk, FrameOk, Output, SameButStaging, Replied, Returns, Within, Left, Chunks;
  }
}
