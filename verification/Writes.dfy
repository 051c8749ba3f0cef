/** The kernel's walk over a live process and the buffers it walks: where a `write` finds its bytes. */
module Writes {
  import opened Words
  import opened Memory
  import opened Core
  import opened Config
  import opened Image
  import opened Space
  import opened SpaceExact
  import opened SpaceWalk
  import opened Creations
  import opened SpaceTables
  import opened UserCopy
  import opened Processes
  import opened ProcOps
  import opened Models
  import opened ModelRun
  import opened ModelKept
  import opened Machines
  import opened Isolation
  import SpaceRun
  import Sv32

  // ----- The kernel's walk over a live process -----

  /** PTEs as the kernel reads them from memory. */
  function Ptes(m: Memory): int -> Word {
    a => PeekWord(m, a)
  }

  /** Where the kernel finds the byte at `va` of the process with root table `root`. */
  function UserAt(m: Memory, root: Word, va: Word): Option<int> {
    UserAddress(root, va, Ptes(m))
  }

  /** A pointer in a finished root table leads to a table of the space. */
  lemma RootStep(c: KernelConfig, l: UserLayout, b: BootImage, frames: seq<Word>, mem: Memory, va: Word, ctx: Sv32.Context)
    requires Creation(c, l, b, frames) && Buildable(c, l, b, frames) && ctx.privilege == Sv32.User
    requires TablesAt(mem, Built(c, l, b, frames), SpaceRun.Steps(Built(c, l, b, frames)))
    ensures var s := Built(c, l, b, frames);
      var step := Sv32.PteStep(ctx, va, 1, PeekEntry(mem, s.root, Sv32.Vpn1(va)));
      && s.root as int in TableSet(s) && InPool(c, s.root)
      && (step.Next? ==> step.table as int in TableSet(s) && InPool(c, step.table) && Lookup(s.slots, Sv32.Vpn1(va)) == Some(step.table))
  {
    hide Creation, Buildable, Built, SpaceRun.After, TableSet, SameOn, Sv32.PteStep, PeekEntry, InPool, PageFrames, SpaceRun.FrameSet, Mapped, Sv32.Vpn1, SpaceRun.Steps;
    var s := Built(c, l, b, frames);
    var m0: Memory :| SameOn(mem, SpaceRun.After(s, m0, SpaceRun.Steps(s)).mem, TableSet(s));
    BuiltIs(c, l, b, frames);
    TableSetIs(c, l, b, frames);
    VaSplit(va);
    EntryInPage(mem, SpaceRun.After(s, m0, SpaceRun.Steps(s)).mem, s.root, Sv32.Vpn1(va), TableSet(s));
    DoneIsMapped(s, m0);
    RootPointer(c, l, b, frames, m0, va, ctx);
  }

  /** The kernel's walk of a live process gives what the CPU's gives for a user load. */
  lemma KernelWalk(c: KernelConfig, l: UserLayout, b: BootImage, frames: seq<Word>, mem: Memory, va: Word)
    requires Creation(c, l, b, frames) && Buildable(c, l, b, frames)
    requires TablesAt(mem, Built(c, l, b, frames), SpaceRun.Steps(Built(c, l, b, frames)))
    ensures var root := Built(c, l, b, frames).root;
      Sv32.Translated(Satp(root), USER_LOAD, va, RamReader(c, mem))
      == match UserAt(mem, root, va) case Some(pa) => Ok(pa) case None => Err(Sv32.PageFault)
  {
    hide Creation, Buildable, Built, TablesAt, TableSet, Sv32.PteStep, PeekEntry, InPool, Sv32.Vpn1, Sv32.Vpn0, SpaceRun.Steps, RamReader, Ptes, Sv32.WalkFrom, UserAddress, Sv32.PteAddress, Sv32.Root;
    var root := Built(c, l, b, frames).root;
    var total: Sv32.Reader := a => Some(Ptes(mem)(a));
    RootOfSatp(c, l, b, frames);
    WalksAgree(Satp(root), va, Ptes(mem));
    RootStep(c, l, b, frames, mem, va, USER_LOAD);
    LayoutIs(c, l, b, frames);
    TotalReads(c, l, mem, root, va, 1);
    var step := Sv32.PteStep(USER_LOAD, va, 1, PeekEntry(mem, root, Sv32.Vpn1(va)));
    if step.Next? {
      TotalReads(c, l, mem, step.table, va, 0);
    }
    WalkLocal(USER_LOAD, va, root, RamReader(c, mem), total);
  }

  lemma LayoutIs(c: KernelConfig, l: UserLayout, b: BootImage, frames: seq<Word>)
    requires Creation(c, l, b, frames)
    ensures ValidLayout(c, l)
  {
  }

  /** For entries of pool frames RAM answers every read. */
  lemma TotalReads(c: KernelConfig, l: UserLayout, m: Memory, t: Word, va: Word, level: nat)
    requires ValidLayout(c, l) && InPool(c, t) && level <= 1
    ensures var a := Sv32.PteAddress(t, va, level);
      RamReader(c, m)(a) == Some(Ptes(m)(a)) == Some(PeekEntry(m, t, if level == 1 then Sv32.Vpn1(va) else Sv32.Vpn0(va)))
  {
    hide ValidLayout, InPool;
    ReadsEntry(c, l, m, t, va, level);
  }

  // ----- Running processes -----

  /** The index of the running process's PCB. */
  function RunningAt(k: Kernel): nat
    requires k.model.procs.current.Some?
  {
    IndexOf(k.model.procs.pcbs, k.model.procs.current.value)
  }

  /** A process runs, with root table `root`. */
  predicate Runs(k: Kernel, root: Word) {
    RunsRoot(k.model, root)
  }

  lemma RunnerLives(c: KernelConfig, k: Kernel, root: Word)
    requires Inv(c, k) && Runs(k, root)
    ensures k.model.procs.current.Some?
    ensures var i := RunningAt(k); i < |k.model.procs.pcbs| && !k.model.procs.pcbs[i].state.Terminal() && k.model.procs.pcbs[i].root == root
  {
    hide Inv, IndexOf;
    RunningIsLive(c, k);
  }

  /** Whatever the kernel's walk finds in the running process is a byte of one of its page frames. */
  lemma UserAtReaches(c: KernelConfig, s: Machine, root: Word, va: Word)
    requires MachineInv(c, s) && Runs(s.kernel, root)
    ensures var r := UserAt(s.mem, root, va); r.Some? ==> InPool(c, PageOf(r.value)) && r.value % PAGE == va % PAGE
  {
    hide Inv, LivesOk, DevicesApart, PlansInPage, FlightOk, IndexOf, InPool, UserAt, RamReader, Sv32.Translated, LiveOk, TableSet, Built, PageOf;
    RunnerLives(c, s.kernel, root);
    var i := RunningAt(s.kernel);
    UserReaches(c, s, i, va, USER_LOAD);
    RunnerWalk(c, s, root, va);
  }

  lemma RunnerWalk(c: KernelConfig, s: Machine, root: Word, va: Word)
    requires MachineInv(c, s) && Runs(s.kernel, root)
    ensures Sv32.Translated(Satp(root), USER_LOAD, va, RamReader(c, s.mem))
         == match UserAt(s.mem, root, va) case Some(pa) => Ok(pa) case None => Err(Sv32.PageFault)
  {
    hide Inv, LivesOk, DevicesApart, PlansInPage, FlightOk, IndexOf, InPool, UserAt, RamReader, Sv32.Translated, TableSet, Creation, Buildable, Built, TablesAt;
    RunnerLives(c, s.kernel, root);
    var p := s.kernel.model.procs.pcbs[RunningAt(s.kernel)];
    LiveTables(c, s, RunningAt(s.kernel));
    var b := s.births[p.pid];
    KernelWalk(c, s.kernel.model.source.layout, b.boot, b.frames, s.mem, va);
  }

  /** With the kernel and the births as they were, two sound machines walk the same. */
  lemma SameWalk(c: KernelConfig, s: Machine, n: Machine, root: Word, va: Word)
    requires MachineInv(c, s) && MachineInv(c, n) && Runs(s.kernel, root) && n.births == s.births
    requires n.kernel.model.procs == s.kernel.model.procs && n.kernel.model.source == s.kernel.model.source
    ensures UserAt(n.mem, root, va) == UserAt(s.mem, root, va)
  {
    hide Inv, LivesOk, DevicesApart, PlansInPage, FlightOk, IndexOf, InPool, UserAt, RamReader, Sv32.Translated, TableSet, Creation, Buildable, Built, TablesAt, FollowsPlan;
    RunnerLives(c, s.kernel, root);
    var i, l := RunningAt(s.kernel), s.kernel.model.source.layout;
    var p := s.kernel.model.procs.pcbs[i];
    LiveTables(c, s, i);
    LiveTables(c, n, i);
    var b := s.births[p.pid];
    TablesDecide(c, l, b.boot, b.frames, s.mem, va, USER_LOAD);
    TablesDecide(c, l, b.boot, b.frames, n.mem, va, USER_LOAD);
    RunnerWalk(c, s, root, va);
    RunnerWalk(c, n, root, va);
    PlanAgrees(c, l, b, va, USER_LOAD, Sv32.Translated(Satp(root), USER_LOAD, va, RamReader(c, s.mem)),
               Sv32.Translated(Satp(root), USER_LOAD, va, RamReader(c, n.mem)));
  }

  lemma PlanAgrees(c: KernelConfig, l: UserLayout, b: Birth, va: Word, ctx: Sv32.Context, r: Result<int, Sv32.Fault>, t: Result<int, Sv32.Fault>)
    requires Creation(c, l, b.boot, b.frames) && Buildable(c, l, b.boot, b.frames)
    requires FollowsPlan(r, Pages(b.boot.image, l), b.frames, va, ctx) && FollowsPlan(t, Pages(b.boot.image, l), b.frames, va, ctx)
    ensures r == t
  {
    hide Accepted, CopiesInPage, MegapageConflict, ValidLayout, Pages, FollowsPlan, SlotSet;
    var j := PlanDecides(Pages(b.boot.image, l), b.frames, va, ctx, r, t);
  }

  // ----- Buffers -----

  /** The pages of a buffer found so far are where the kernel's walk finds them. */
  ghost predicate Found(m: Memory, root: Word, b: Buffer, pages: seq<Word>)
    requires b.Fits() && |pages| <= b.Pages()
  {
    forall i :: 0 <= i < |pages| ==> UserAt(m, root, b.PageVa(i)) == Some(pages[i] * PAGE)
  }

  /** Two addresses on one page are walked to the same physical page. */
  lemma SamePageWalk(m: Memory, root: Word, base: Word, va: Word)
    requires base % PAGE == 0 && base / PAGE == va / PAGE
    ensures UserAt(m, root, base).Some? <==> UserAt(m, root, va).Some?
    ensures UserAt(m, root, va).Some? ==> UserAt(m, root, va).value == UserAt(m, root, base).value + va % PAGE
  {
    SameVpns(base, va);
  }

  lemma SameVpns(base: Word, va: Word)
    requires base / PAGE == va / PAGE
    ensures Sv32.Vpn1(base) == Sv32.Vpn1(va) && Sv32.Vpn0(base) == Sv32.Vpn0(va)
  {
    MegaOfPage(base);
    MegaOfPage(va);
  }

  /** The address `i` bytes into a buffer. */
  function ByteVa(b: Buffer, i: nat): (va: Word)
    requires b.Fits() && i < b.n
  {
    b.buf + i
  }

  /** Every byte of the buffer is in a readable user page. */
  ghost predicate Readable(m: Memory, root: Word, b: Buffer)
    requires b.Fits()
  {
    forall i :: 0 <= i < b.n ==> UserAt(m, root, ByteVa(b, i)).Some?
  }

  /** The first `k` bytes of the buffer, where the running process's user loads would read them. */
  ghost function UserBytes(m: Memory, root: Word, b: Buffer, k: nat): (r: seq<Byte>)
    requires b.Fits() && k <= b.n && Readable(m, root, b)
    ensures |r| == k
  {
    seq<Byte>(k, i requires 0 <= i < k => Peek(m, UserAt(m, root, ByteVa(b, i)).value))
  }

  /** The page of byte `i` of a buffer. */
  lemma PageOfByte(b: Buffer, i: nat)
    requires b.Fits() && i < b.n
    ensures var j := ByteVa(b, i) / PAGE - b.buf / PAGE; 0 <= j < b.Pages() && b.PageVa(j) / PAGE == ByteVa(b, i) / PAGE
  {
    OutputPage(b, i);
  }

  /** With every page found, the buffer is readable, and each byte is where the kernel looks for it. */
  lemma FoundReadable(m: Memory, root: Word, b: Buffer, pages: seq<Word>)
    requires b.Fits() && |pages| == b.Pages() && Found(m, root, b, pages)
    ensures Readable(m, root, b)
    ensures forall i :: 0 <= i < b.n ==>
      0 <= ByteVa(b, i) / PAGE - b.buf / PAGE < |pages| && UserAt(m, root, ByteVa(b, i)) == Some(Physical(b, pages, ByteVa(b, i)))
  {
    hide UserAt, Buffer.Pages, Buffer.PageVa;
    forall i | 0 <= i < b.n
      ensures 0 <= ByteVa(b, i) / PAGE - b.buf / PAGE < |pages| && UserAt(m, root, ByteVa(b, i)) == Some(Physical(b, pages, ByteVa(b, i)))
    {
      PageOfByte(b, i);
      SamePageWalk(m, root, b.PageVa(ByteVa(b, i) / PAGE - b.buf / PAGE), ByteVa(b, i));
    }
  }

  /** A page the walk refuses makes the buffer unreadable. */
  lemma RefusedUnreadable(m: Memory, root: Word, b: Buffer, j: nat)
    requires b.Fits() && j < b.Pages() && UserAt(m, root, b.PageVa(j)).None?
    ensures !Readable(m, root, b)
  {
    hide UserAt;
    var i := ByteOfPage(b, j);
    SamePageWalk(m, root, b.PageVa(j), ByteVa(b, i));
  }

  /** Every page of a buffer holds one of its bytes. */
  lemma ByteOfPage(b: Buffer, j: nat) returns (i: nat)
    requires b.Fits() && j < b.Pages()
    ensures i < b.n && ByteVa(b, i) / PAGE == b.PageVa(j) / PAGE
  {
    if j == 0 {
      i := 0;
    } else {
      i := b.n - 1;
    }
  }
}
