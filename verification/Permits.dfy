/** Every access the kernel has due passes its whitelist and is 1 to 16 bytes long, and which of them cross no page. */
module Permits {
  import opened Words
  import opened Memory
  import opened Core
  import opened Config
  import opened Image
  import opened Space
  import opened SpaceExact
  import opened SpaceTables
  import opened UserCopy
  import opened ProcOps
  import opened Models
  import opened ModelRun
  import opened Machines
  import opened Isolation
  import opened WriteRun
  import SpaceRun
  import ExecTables
  import Processes

  /** The builder's invariant: the gate window meets no granted range, and the UART is below the top of `u64`. */
  predicate Platform(c: KernelConfig) {
    c.GateApart() && c.uartTx < LONG_MAX
  }

  /** One granted range holds every byte of the access. */
  predicate Inside(c: KernelConfig, a: Core.Access) {
    && 0 <= a.addr <= LONG_MAX && a.Len() <= MAX_ACCESS
    && exists g :: g in c.Grants() && g.Contains(a.addr, a.Len())
  }

  /** An access the whitelist permits, of a length the bus carries. */
  predicate Issuable(c: KernelConfig, a: Core.Access) {
    0 <= a.addr <= LONG_MAX && 1 <= a.Len() <= MAX_ACCESS && c.Permits(a.addr, a.Len())
  }

  lemma InsidePermitted(c: KernelConfig, a: Core.Access)
    requires c.Valid() && Platform(c) && Inside(c, a) && a.Len() >= 1
    ensures Issuable(c, a)
  {
    hide KernelConfig.Grants;
    PermitsIsGranted(c, a.addr, a.Len());
  }

  lemma ShortBounds(a: Core.Access)
    requires Short(a.addr, a.Len())
    ensures 1 <= a.Len() <= MAX_ACCESS
  {
  }

  /** Bytes of the frame pool. */
  lemma PoolInside(c: KernelConfig, a: Core.Access)
    requires c.Valid() && Short(a.addr, a.Len()) && InPool(c, PageOf(a.addr))
    ensures Inside(c, a)
  {
    var f := PageOf(a.addr);
    assert PAGE * f <= a.addr && a.addr + a.Len() <= PAGE * f + PAGE;
    assert c.framePool in c.Grants();
    assert c.framePool.Contains(a.addr, a.Len());
  }

  /** Bytes of staging. */
  lemma StagingInside(c: KernelConfig, a: Core.Access)
    requires c.Valid() && Short(a.addr, a.Len()) && c.staging.Has(a.addr) && c.staging.Has(a.addr + a.Len() - 1)
    ensures Inside(c, a)
  {
    assert c.staging in c.Grants();
    assert c.staging.Contains(a.addr, a.Len());
  }

  /** Bytes of the trap frame. */
  lemma FrameInside(c: KernelConfig, a: Core.Access)
    requires c.Valid() && Short(a.addr, a.Len()) && c.trapFrame <= a.addr && a.addr + a.Len() <= c.trapFrame + FRAME_BYTES
    ensures Inside(c, a)
  {
    assert c.Frame() in c.Grants();
    assert c.Frame().Contains(a.addr, a.Len());
  }

  /** A word of the block controller's registers. */
  lemma BlkInside(c: KernelConfig, a: Core.Access, o: int)
    requires c.Valid() && c.blk.size >= BLK_REGISTERS && 0 <= o <= 0x18 && a.addr == c.blk.base + o && a.Len() == 4
    ensures Inside(c, a)
  {
    assert c.blk in c.Grants();
    assert c.blk.Contains(a.addr, a.Len());
  }

  // ----- Stage by stage -----

  /** Every access of a creation whose copies stay in their pages is to its own frames or reads staging. */
  lemma SpacePermitted(c: KernelConfig, l: UserLayout, b: BootImage, frames: seq<Word>, n: nat, data: seq<Byte>)
    requires Creation(c, l, b, frames) && Buildable(c, l, b, frames) && c.Valid()
    requires n < SpaceRun.Steps(Built(c, l, b, frames)) && |data| == SpaceRun.DataLen(Built(c, l, b, frames), n)
    ensures var a := SpaceRun.AccessAt(Built(c, l, b, frames), n, data).value; Short(a.addr, a.Len()) && Inside(c, a)
  {
    hide Creation, Buildable, Built, InPool, Short, PageOf, SpaceRun.FrameSet, SpaceRun.AccessAt, SpaceRun.DataLen, SpaceRun.Steps, KernelConfig.Valid, Inside;
    WritesHome(c, l, b, frames, n, data);
    var a := SpaceRun.AccessAt(Built(c, l, b, frames), n, data).value;
    if a.Write? {
      SpaceInPool(c, l, b, frames, PageOf(a.addr));
      PoolInside(c, a);
    } else {
      StagingInside(c, a);
    }
  }

  lemma CreationPermitted(c: KernelConfig, s: Machine)
    requires MachineInv(c, s) && s.kernel.op.Some? && OpOk(c, s.kernel.op.value) && c.Valid()
    requires s.kernel.op.value.stage.Create? || s.kernel.op.value.stage.Load?
    ensures var a := AccessDue(c, s.kernel.op.value); Short(a.addr, a.Len()) && Inside(c, a)
  {
    hide Inv, LivesOk, DevicesApart, PlansInPage, FlightOk, Short, SpaceRun.AccessAt, SpaceRun.DataLen, SpaceRun.Steps, AccessDue, OpOk, Creation, StageFits, KernelConfig.Valid, Inside, FlightBoot;
    var op, m := s.kernel.op.value, s.kernel.model;
    FlightCreation(c, s.kernel);
    CreationAccess(c, op);
    SpacePermitted(c, m.source.layout, FlightBoot(c, m, op.stage), op.stage.space.frames, op.step, op.data);
  }

  lemma FrameStagePermitted(c: KernelConfig, op: ProcOp)
    requires OpOk(c, op) && c.Valid() && (op.stage.ReadFrame? || op.stage.Dispatch? || op.stage.Shutdown? || op.stage.Return?)
    ensures var a := AccessDue(c, op); Short(a.addr, a.Len()) && Inside(c, a)
  {
    hide Chunks, ToFrame, LeBytes, KernelConfig.Valid, Inside, Short;
    match op.stage
    case ReadFrame =>
      ChunkInside(c.trapFrame, FRAME_BYTES, op.step);
      FrameInside(c, AccessDue(c, op));
    case Dispatch(_, _, _) =>
      DispatchChunkInside(c, op.step);
      FrameInside(c, AccessDue(c, op));
    case Shutdown(_) =>
      ChunkInside(c.trapFrame + FRAME_ACTION, 8, op.step);
      FrameInside(c, AccessDue(c, op));
    case Return(_, _) =>
      AlignedFrame(c);
      AlignedShort(c.trapFrame + FRAME_A0);
      AlignedShort(c.trapFrame + FRAME_SEPC);
      FrameInside(c, AccessDue(c, op));
  }

  lemma AlignedFrame(c: KernelConfig)
    requires c.Valid()
    ensures c.trapFrame % 4 == 0
  {
  }

  /** An aligned word crosses no page. */
  lemma AlignedShort(a: int)
    requires a % 4 == 0
    ensures Short(a, 4)
  {
    var q := a / 4;
    assert a == 4 * q;
    PageSplit(a + 3, a / PAGE, a % PAGE + 3);
  }

  lemma WalkPermitted(c: KernelConfig, s: Machine)
    requires SoundMachine(c, s) && s.kernel.op.Some? && s.kernel.op.value.stage.Walk? && OpOk(c, s.kernel.op.value) && c.Valid()
    ensures var a := AccessDue(c, s.kernel.op.value); Short(a.addr, a.Len()) && Inside(c, a)
  {
    hide MachineInv, WriteOk, OpOk, AccessDue, InPool, PageOf, Short, Inside, KernelConfig.Valid, InRam, EntryAt;
    WalkReads(c, s, []);
    PoolInside(c, AccessDue(c, s.kernel.op.value));
  }

  lemma OutputPermitted(c: KernelConfig, s: Machine)
    requires SoundMachine(c, s) && s.kernel.op.Some? && s.kernel.op.value.stage.Output? && OpOk(c, s.kernel.op.value) && c.Valid() && Platform(c)
    ensures var a := AccessDue(c, s.kernel.op.value); Short(a.addr, a.Len()) && Inside(c, a)
  {
    hide MachineInv, WriteOk, InPool, PageOf, Short, Inside, KernelConfig.Valid, InRam, Physical;
    var op := s.kernel.op.value;
    if op.step == 0 {
      OutputReads(c, s, []);
      PoolInside(c, AccessDue(c, op));
    } else {
      UartInside(c, op.data[op.step - 1]);
    }
  }

  lemma UartInside(c: KernelConfig, b: Byte)
    requires c.uartTx < LONG_MAX
    ensures Short(c.uartTx, 1) && Inside(c, Write(c.uartTx, [b]))
  {
    var w := Window(c.uartTx, 1);
    assert w in c.Grants() && w.Contains(c.uartTx, 1);
  }

  lemma StagedPermitted(c: KernelConfig, k: Kernel)
    requires Inv(c, k) && k.op.Some? && k.op.value.stage.Staged? && OpOk(c, k.op.value) && c.Valid()
    ensures var a := AccessDue(c, k.op.value); Short(a.addr, a.Len()) && Inside(c, a)
  {
    hide Inv, Chunks, KernelConfig.Valid, Inside, Short;
    var op := k.op.value;
    StagedFits(c, k);
    ChunkInside(c.staging.base, op.stage.len, op.step);
    ShortBounds(AccessDue(c, op));
    StagingInside(c, AccessDue(c, op));
  }

  lemma StagedFits(c: KernelConfig, k: Kernel)
    requires Inv(c, k) && k.op.Some? && k.op.value.stage.Staged?
    ensures k.op.value.stage.len <= c.staging.size
  {
    hide Processes.Consistent, OpOk, ExecTables.EntriesError;
    var st := k.op.value.stage;
    if st.cursor.table.Some? {
      EntryStaged(c, k.model.source, st.cursor);
    }
  }

  // ----- The block controller -----

  /** The register offsets, in the order a boot from disk first uses them. */
  const REGISTERS := [0x08, 0x0C, 0x10, 0x00, 0x04, 0x18]

  predicate ToBlk(s: Stage) {
    s.Command? || s.Poll? || s.Ack?
  }

  /** The register a block controller stage accesses. */
  function RegisterOf(op: ProcOp): (i: nat)
    requires ToBlk(op.stage) && (op.stage.Command? ==> op.step < 4)
    ensures i < |REGISTERS|
  {
    if op.stage.Command? then op.step else if op.stage.Poll? then 4 else 5
  }

  lemma BlkAccess(c: KernelConfig, op: ProcOp)
    requires OpOk(c, op) && ToBlk(op.stage)
    ensures op.stage.Command? ==> op.step < 4
    ensures AccessDue(c, op).addr == c.blk.base + REGISTERS[RegisterOf(op)] && AccessDue(c, op).Len() == 4
  {
    hide LeBytes;
  }

  lemma BlkPermitted(c: KernelConfig, k: Kernel)
    requires Inv(c, k) && k.op.Some? && OpOk(c, k.op.value) && c.Valid() && ToBlk(k.op.value.stage)
    ensures var a := AccessDue(c, k.op.value); a.Len() == 4 && Inside(c, a)
  {
    hide Inv, KernelConfig.Valid, Inside, ValidLayout, OpOk, AccessDue;
    CursorDisk(c, k);
    LayoutOk(c, k);
    var a := AccessDue(c, k.op.value);
    BlkAccess(c, k.op.value);
    BlkInside(c, a, a.addr - c.blk.base);
  }

  /** No register of the block controller crosses a page. */
  predicate RegistersInPage(c: KernelConfig) {
    forall i :: 0 <= i < |REGISTERS| ==> (c.blk.base + REGISTERS[i]) % PAGE <= PAGE - 4
  }

  /** A word crosses no page exactly when it starts 4 bytes before the page's end, or earlier. */
  lemma WordInPage(a: int)
    ensures Short(a, 4) <==> a % PAGE <= PAGE - 4
  {
    if a % PAGE <= PAGE - 4 {
      PageSplit(a + 3, a / PAGE, a % PAGE + 3);
    } else {
      PageSplit(a + 3, a / PAGE + 1, a % PAGE + 3 - PAGE);
    }
  }

  lemma RegisterShort(c: KernelConfig, i: nat)
    requires RegistersInPage(c) && i < |REGISTERS|
    ensures Short(c.blk.base + REGISTERS[i], 4)
  {
    WordInPage(c.blk.base + REGISTERS[i]);
  }

  /** An aligned window is enough. */
  lemma AlignedInPage(c: KernelConfig)
    requires c.blk.base % 4 == 0
    ensures RegistersInPage(c)
  {
    forall i | 0 <= i < |REGISTERS| ensures (c.blk.base + REGISTERS[i]) % PAGE <= PAGE - 4 {
      AlignedShort(c.blk.base + REGISTERS[i]);
      WordInPage(c.blk.base + REGISTERS[i]);
    }
  }

  // ----- Every access -----

  lemma OtherPermitted(c: KernelConfig, s: Machine)
    requires SoundMachine(c, s) && s.kernel.op.Some? && OpOk(c, s.kernel.op.value) && Platform(c) && c.Valid()
    requires !ToBlk(s.kernel.op.value.stage)
    ensures var a := AccessDue(c, s.kernel.op.value); Short(a.addr, a.Len()) && Inside(c, a)
  {
    hide MachineInv, WriteOk, OpOk, AccessDue, Inside, Short, KernelConfig.Valid;
    HasLives(c, s);
    var op := s.kernel.op.value;
    match op.stage {
      case Create(_, _) => CreationPermitted(c, s);
      case Load(_, _, _, _) => CreationPermitted(c, s);
      case Walk(_, _, _, _) => WalkPermitted(c, s);
      case Output(_, _, _) => OutputPermitted(c, s);
      case Staged(_, _) => StagedPermitted(c, s.kernel);
      case ReadFrame => FrameStagePermitted(c, op);
      case Dispatch(_, _, _) => FrameStagePermitted(c, op);
      case Shutdown(_) => FrameStagePermitted(c, op);
      case Return(_, _) => FrameStagePermitted(c, op);
    }
  }

  /** In every sound state with an access due, the access passes the whitelist and is 1 to 16 bytes. */
  lemma AccessPermitted(c: KernelConfig, s: Machine)
    requires SoundMachine(c, s) && s.kernel.op.Some? && OpOk(c, s.kernel.op.value) && Platform(c)
    ensures Issuable(c, AccessDue(c, s.kernel.op.value))
  {
    hide MachineInv, WriteOk, OpOk, AccessDue, Inside, Issuable, Short, ValidLayout;
    HasLives(c, s);
    ConfigValid(c, s.kernel);
    var a := AccessDue(c, s.kernel.op.value);
    if ToBlk(s.kernel.op.value.stage) {
      BlkPermitted(c, s.kernel);
    } else {
      OtherPermitted(c, s);
      ShortBounds(a);
    }
    InsidePermitted(c, a);
  }

  /** And it crosses no page, if it is no block controller access or no register of the block controller does. */
  lemma AccessInPage(c: KernelConfig, s: Machine)
    requires SoundMachine(c, s) && s.kernel.op.Some? && OpOk(c, s.kernel.op.value) && Platform(c)
    requires s.kernel.model.source.Plan? || RegistersInPage(c)
    ensures var a := AccessDue(c, s.kernel.op.value); Short(a.addr, a.Len())
  {
    hide MachineInv, WriteOk, OpOk, AccessDue, Inside, Short, KernelConfig.Valid, Inv, RegistersInPage, Platform;
    HasLives(c, s);
    ConfigValid(c, s.kernel);
    if ToBlk(s.kernel.op.value.stage) {
      CursorDisk(c, s.kernel);
      BlkAccess(c, s.kernel.op.value);
      RegisterShort(c, RegisterOf(s.kernel.op.value));
    } else {
      OtherPermitted(c, s);
    }
  }

  lemma ConfigValid(c: KernelConfig, k: Kernel)
    requires Inv(c, k)
    ensures c.Valid()
  {
    hide Inv;
    LayoutOk(c, k);
  }
}
