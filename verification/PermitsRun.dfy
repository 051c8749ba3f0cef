/** The kernel's accesses over whole runs: every one passes the whitelist and is 1 to 16 bytes, and they all cross no page
    exactly when the boot is from a plan or no register of the block controller crosses one. */
module PermitsRun {
  import opened Words
  import opened Memory
  import opened Core
  import opened Config
  import opened Image
  import opened UserCopy
  import opened ProcOps
  import opened Models
  import opened ModelRun
  import opened Machines
  import opened Isolation
  import opened WriteRun
  import opened WriteExact
  import opened Permits

  /** A machine before boot, with any memory. */
  ghost predicate Unbooted(c: KernelConfig, s: Machine) {
    && Fresh(c, s.kernel) && DevicesApart(c) && PlansInPage(s.kernel.model.source) && Platform(c)
    && s.uart == [] && s.mark == [] && s.births == map[]
  }

  lemma UnbootedSound(c: KernelConfig, s: Machine)
    requires Unbooted(c, s)
    ensures SoundMachine(c, s)
  {
    hide Fresh, DevicesApart, PlansInPage, MachineInv, Platform;
    FreshMachine(c, s.kernel, s.mem);
    assert s == Machine(s.mem, s.kernel, [], [], map[]);
    FreshQuiet(c, s.kernel);
  }

  lemma FreshQuiet(c: KernelConfig, k: Kernel)
    requires Fresh(c, k)
    ensures k.op.None?
  {
  }

  /** Every run keeps the isolation and the `write` invariants, and the source of the processes. */
  lemma {:induction false} RunsSound(c: KernelConfig, s: Machine, hs: seq<Happening>)
    requires SoundMachine(c, s)
    ensures Runs(c, s, hs).Some? ==>
      SoundMachine(c, Runs(c, s, hs).value) && Runs(c, s, hs).value.kernel.model.source == s.kernel.model.source
  {
    hide MachineInv, WriteOk, Possible, Happen;
    if hs != [] {
      var front, h := hs[..|hs| - 1], hs[|hs| - 1];
      RunsSound(c, s, front);
      if Runs(c, s, hs).Some? {
        HappenSound(c, Runs(c, s, front).value, h);
        HappenSource(c, Runs(c, s, front).value, h);
      }
    }
  }

  /** Some run from boot leads to `s`. */
  ghost predicate Reached(c: KernelConfig, s: Machine) {
    exists s0: Machine, hs: seq<Happening> :: Unbooted(c, s0) && MachineInv(c, s0) && Runs(c, s0, hs) == Some(s)
  }

  lemma ReachedSound(c: KernelConfig, s: Machine)
    requires Reached(c, s)
    ensures SoundMachine(c, s) && Platform(c)
  {
    hide MachineInv, WriteOk, Runs, Fresh, DevicesApart, PlansInPage, Platform;
    var s0: Machine, hs: seq<Happening> :| Unbooted(c, s0) && MachineInv(c, s0) && Runs(c, s0, hs) == Some(s);
    UnbootedSound(c, s0);
    RunsSound(c, s0, hs);
  }

  lemma ReachedNext(c: KernelConfig, s: Machine, h: Happening)
    requires Reached(c, s) && Inv(c, s.kernel) && Possible(c, s, h)
    ensures Reached(c, Happen(c, s, h))
  {
    hide MachineInv, Runs, Unbooted, Possible, Happen, Inv;
    var s0: Machine, hs: seq<Happening> :| Unbooted(c, s0) && MachineInv(c, s0) && Runs(c, s0, hs) == Some(s);
    OneMore(c, s0, hs, h);
  }

  lemma HappenSource(c: KernelConfig, s: Machine, h: Happening)
    requires MachineInv(c, s) && Possible(c, s, h)
    ensures Happen(c, s, h).kernel.model.source == s.kernel.model.source
  {
    hide Inv, LivesOk, DevicesApart, PlansInPage, FlightOk, KernelAfter, StoreAt, OpOk, AccessDue, Steps, BirthsAfter, Writing, KernelConfig.Frame, Models.Ready, Advanceable;
    match h
    case KernelEnter(_) => EnterMoves(c, s, h);
    case KernelAccess(_) =>
      EventAllowed(c, s, h);
      AccessMoves(c, s, h);
    case _ =>
  }

  /** A run that leaves an access due. */
  ghost predicate Reaches(c: KernelConfig, s: Machine, hs: seq<Happening>) {
    MachineInv(c, s) && Runs(c, s, hs).Some? && Due(c, Runs(c, s, hs).value.kernel)
  }

  /** The access a run leaves due. */
  ghost function DueAfter(c: KernelConfig, s: Machine, hs: seq<Happening>): Core.Access
    requires Reaches(c, s, hs)
  {
    AccessDue(c, Runs(c, s, hs).value.kernel.op.value)
  }

  /** Over every run from boot, every access the kernel has due passes the whitelist and is 1 to 16 bytes. */
  lemma EveryAccessPermitted(c: KernelConfig, s: Machine, hs: seq<Happening>)
    requires Unbooted(c, s)
    ensures Reaches(c, s, hs) ==> Issuable(c, DueAfter(c, s, hs))
  {
    hide MachineInv, WriteOk, Runs, OpOk, Inv, Issuable, AccessDue, Fresh, PlansInPage, DevicesApart;
    UnbootedSound(c, s);
    RunsSound(c, s, hs);
    if Reaches(c, s, hs) {
      AccessPermitted(c, Runs(c, s, hs).value);
    }
  }

  /** No access of any run crosses a page. */
  ghost predicate NeverCrosses(c: KernelConfig, s: Machine) {
    forall hs: seq<Happening> :: Reaches(c, s, hs) ==> Short(DueAfter(c, s, hs).addr, DueAfter(c, s, hs).Len())
  }

  lemma InPageThenNever(c: KernelConfig, s: Machine)
    requires Unbooted(c, s) && (s.kernel.model.source.Plan? || RegistersInPage(c))
    ensures NeverCrosses(c, s)
  {
    hide MachineInv, Runs, OpOk, Inv, AccessDue, Fresh, PlansInPage, DevicesApart, Short, RegistersInPage, WriteOk;
    UnbootedSound(c, s);
    forall hs: seq<Happening> | Reaches(c, s, hs) ensures Short(DueAfter(c, s, hs).addr, DueAfter(c, s, hs).Len()) {
      RunsSound(c, s, hs);
      AccessInPage(c, Runs(c, s, hs).value);
    }
  }

  // ----- A boot from disk reaches every register -----

  const BLOCK_ZERO := Cursor(None, 0)

  /** A STATUS word with DONE set and no error. */
  const DONE: seq<Byte> := [2, 0, 0, 0]

  /** The operation of a boot from disk after `n` accesses: the command's four, the poll, the acknowledgement. */
  function BootOp(n: nat): ProcOp {
    if n < 4 then ProcOp(Command(BLOCK_ZERO), n, []) else if n == 4 then NewOp(Poll(BLOCK_ZERO)) else NewOp(Ack(BLOCK_ZERO, 0))
  }

  /** An ENTER, and `n` accesses, the device answering DONE. */
  function BootRun(c: KernelConfig, n: nat): seq<Happening> {
    if n == 0 then [KernelEnter(c.trapFrame)] else BootRun(c, n - 1) + [KernelAccess(DONE)]
  }

  lemma BootOpOk(c: KernelConfig, n: nat)
    requires n < |REGISTERS|
    ensures OpOk(c, BootOp(n)) && ToBlk(BootOp(n).stage) && RegisterOf(BootOp(n)) == n
  {
  }

  /** One access of the boot. */
  lemma BootStep(c: KernelConfig, k: Kernel, n: nat, done: Completion)
    requires n + 1 < |REGISTERS| && Models.Ready(c, k.model) && k.op == Some(BootOp(n)) && OpOk(c, BootOp(n))
    requires Advanceable(c, k.model, BootOp(n).stage) && Allowed(c, k, Answered(done)) && (n == 4 ==> done == Data(DONE))
    ensures Step(c, k, Answered(done)) == Ok(Kernel(k.model, Some(BootOp(n + 1))))
  {
    hide Models.Ready, LeBytes, AdmitNew, NextCreation, NextLoad, Decide, StagedRead, Acked, Walked, CursorOk, Chunks;
    if n == 4 {
      assert [] + DONE == DONE && DONE[0..4] == DONE;
    }
  }

  /** A STATUS read is answered by the device. */
  lemma DeviceAnswers(c: KernelConfig, s: Machine, n: nat, device: seq<Byte>)
    requires MachineInv(c, s) && s.kernel.op == Some(BootOp(n)) && n < |REGISTERS| && OpOk(c, BootOp(n))
    ensures AccessDue(c, BootOp(n)).Read? ==> Reply(c, s.mem, AccessDue(c, BootOp(n)), device) == Data(device)
  {
    hide Inv, LivesOk, PlansInPage, FlightOk, ValidLayout, OpOk, AccessDue, DevicesApart;
    BootOpOk(c, n);
    BlkAccess(c, BootOp(n));
    LayoutOk(c, s.kernel);
    CursorDisk(c, s.kernel);
    BlkApart(c, s.kernel.model.source.layout, AccessDue(c, BootOp(n)).addr);
  }

  lemma BootStarts(c: KernelConfig, s: Machine)
    requires Unbooted(c, s) && s.kernel.model.source.Disk? && MachineInv(c, s)
    ensures Runs(c, s, BootRun(c, 0)).Some?
    ensures Runs(c, s, BootRun(c, 0)).value.kernel.op == Some(BootOp(0))
  {
    hide MachineInv, Happen, Inv, Models.Ready, Fresh, PlansInPage, DevicesApart, Platform, BootOp, Possible, Step;
    HasLives(c, s);
    var h := KernelEnter(c.trapFrame);
    assert BootRun(c, 0)[..0] == [];
    assert Runs(c, s, []) == Some(s);
    EnterPossible(c, s, c.trapFrame);
    EnteredIs(c, s, h);
    EnterBoots(c, s.kernel);
  }

  lemma EnterPossible(c: KernelConfig, s: Machine, value: Word)
    requires Fresh(c, s.kernel) && Inv(c, s.kernel)
    ensures Possible(c, s, KernelEnter(value))
  {
    hide Inv, ValidSource, PoolOk;
  }

  lemma EnterBoots(c: KernelConfig, k: Kernel)
    requires Fresh(c, k) && k.model.source.Disk? && Models.Ready(c, k.model)
    ensures Step(c, k, Enter(c.trapFrame)).Ok? && Step(c, k, Enter(c.trapFrame)).value.op == Some(BootOp(0))
  {
  }

  lemma EnteredIs(c: KernelConfig, s: Machine, h: Happening)
    requires MachineInv(c, s) && Possible(c, s, h) && h.KernelEnter?
    ensures Models.Ready(c, s.kernel.model) && s.kernel.op.None? && s.kernel.model.life != Down
    ensures Step(c, s.kernel, Enter(h.value)).Ok? && Happen(c, s, h).kernel == Step(c, s.kernel, Enter(h.value)).value
  {
    hide Inv, LivesOk, PlansInPage, FlightOk, DevicesApart, Step, Models.Ready;
    EventAllowed(c, s, h);
  }

  /** After an ENTER and `n` accesses the boot has register `n` to access. */
  lemma {:induction false} BootReaches(c: KernelConfig, s: Machine, n: nat)
    requires Unbooted(c, s) && s.kernel.model.source.Disk? && MachineInv(c, s) && n < |REGISTERS|
    ensures Runs(c, s, BootRun(c, n)).Some?
    ensures Runs(c, s, BootRun(c, n)).value.kernel.op == Some(BootOp(n)) && OpOk(c, BootOp(n))
  {
    hide MachineInv, Fresh, DevicesApart, PlansInPage, Possible, Happen, BootOp, OpOk, Platform, Runs, Inv;
    BootOpOk(c, n);
    if n == 0 {
      BootStarts(c, s);
    } else {
      BootReaches(c, s, n - 1);
      BootAccess(c, Runs(c, s, BootRun(c, n - 1)).value, n - 1);
      OneMore(c, s, BootRun(c, n - 1), KernelAccess(DONE));
    }
  }

  lemma OneMore(c: KernelConfig, s: Machine, hs: seq<Happening>, h: Happening)
    requires MachineInv(c, s) && Runs(c, s, hs).Some? && Possible(c, Runs(c, s, hs).value, h)
    ensures Runs(c, s, hs + [h]) == Some(Happen(c, Runs(c, s, hs).value, h))
  {
    hide MachineInv, Possible, Happen;
    assert (hs + [h])[..|hs|] == hs;
  }

  lemma BootAccess(c: KernelConfig, s: Machine, n: nat)
    requires MachineInv(c, s) && s.kernel.op == Some(BootOp(n)) && n + 1 < |REGISTERS|
    ensures Inv(c, s.kernel) && Possible(c, s, KernelAccess(DONE)) && Happen(c, s, KernelAccess(DONE)).kernel.op == Some(BootOp(n + 1))
  {
    hide MachineInv, BootOp, OpOk, AccessDue, Happen, Step, Inv, Models.Ready, Advanceable, Reply, Allowed;
    HasLives(c, s);
    BootOpOk(c, n);
    BlkAccess(c, BootOp(n));
    var h := KernelAccess(DONE);
    AccessIs(c, s, h);
    var done := Reply(c, s.mem, AccessDue(c, BootOp(n)), DONE);
    DeviceAnswers(c, s, n, DONE);
    PollReads(c);
    BootStep(c, s.kernel, n, done);
  }

  lemma PollReads(c: KernelConfig)
    ensures OpOk(c, BootOp(4)) && AccessDue(c, BootOp(4)).Read?
  {
  }

  /** A run that makes the kernel access register `n` of the block controller. */
  lemma RegisterReached(c: KernelConfig, s: Machine, n: nat)
    requires Unbooted(c, s) && s.kernel.model.source.Disk? && n < |REGISTERS|
    ensures Reaches(c, s, BootRun(c, n))
    ensures DueAfter(c, s, BootRun(c, n)).addr == c.blk.base + REGISTERS[n] && DueAfter(c, s, BootRun(c, n)).Len() == 4
  {
    hide MachineInv, WriteOk, Runs, Inv, OpOk, AccessDue, Fresh, DevicesApart, PlansInPage, Platform, BootOp, BootRun;
    UnbootedSound(c, s);
    BootReaches(c, s, n);
    HasLives(c, Runs(c, s, BootRun(c, n)).value);
    BootOpOk(c, n);
    BlkAccess(c, BootOp(n));
  }

  /** The accesses of all runs from boot cross no page exactly when the boot is from a plan or no register of the block
      controller crosses one. */
  lemma CrossesNoPage(c: KernelConfig, s: Machine)
    requires Unbooted(c, s)
    ensures NeverCrosses(c, s) <==> s.kernel.model.source.Plan? || RegistersInPage(c)
  {
    hide MachineInv, Reaches, DueAfter, Unbooted, Short, BootRun;
    if s.kernel.model.source.Plan? || RegistersInPage(c) {
      InPageThenNever(c, s);
    } else {
      var n :| 0 <= n < |REGISTERS| && (c.blk.base + REGISTERS[n]) % PAGE > PAGE - 4;
      RegisterReached(c, s, n);
      WordInPage(c.blk.base + REGISTERS[n]);
    }
  }
}
