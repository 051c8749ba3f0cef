/** Processes: the PCB table, the run queue, the running PID and the frame owners (components/os/src/process.rs,
    components/os/src/frames.rs), as values. */
module Processes {
  import opened Words
  import opened Sequences
  import opened Space

  // ----- Frame owners -----

  /** The pool: `owners[i]` is the PID that owns frame `base + i`, or 0. */
  datatype Frames = Frames(base: Word, owners: seq<Word>) {

    /** `None` outside the pool, `Some(0)` when free. */
    function Owner(f: int): Option<Word> {
      if base <= f < base + |owners| then Some(owners[f - base]) else None
    }

    predicate Wide() {
      base + |owners| <= WORD_LIMIT
    }
  }

  /** The frames of `pid`, ascending: index order from `i` on. */
  function OwnedFrom(fs: Frames, pid: Word, i: nat): (r: seq<Word>)
    requires fs.Wide() && i <= |fs.owners|
    decreases |fs.owners| - i
  {
    if i == |fs.owners| then []
    else if fs.owners[i] == pid then [fs.base + i] + OwnedFrom(fs, pid, i + 1)
    else OwnedFrom(fs, pid, i + 1)
  }

  lemma {:induction false} OwnedAre(fs: Frames, pid: Word, i: nat)
    requires fs.Wide() && i <= |fs.owners|
    ensures var r := OwnedFrom(fs, pid, i);
      Ascending(r) && forall f: int :: f in r <==> fs.base + i <= f && fs.Owner(f) == Some(pid)
    decreases |fs.owners| - i
  {
    if i < |fs.owners| {
      OwnedAre(fs, pid, i + 1);
      var rest := OwnedFrom(fs, pid, i + 1);
      forall k | 0 <= k < |rest| ensures rest[k] > fs.base + i {
        assert rest[k] in rest;
      }
    }
  }

  /** `owned_by`. */
  function OwnedBy(fs: Frames, pid: Word): (r: seq<Word>)
    requires fs.Wide()
    ensures Ascending(r) && forall f: int :: f in r <==> fs.Owner(f) == Some(pid)
  {
    OwnedAre(fs, pid, 0);
    OwnedFrom(fs, pid, 0)
  }

  function FreeCount(fs: Frames): nat
    requires fs.Wide()
  {
    |OwnedBy(fs, 0)|
  }

  function SetOwners(base: Word, owners: seq<Word>, ppns: seq<Word>, pid: Word): (r: seq<Word>)
    ensures |r| == |owners|
  {
    seq<Word>(|owners|, i requires 0 <= i < |owners| => if base + i in ppns then pid else owners[i])
  }

  /** Sets the owner of every frame in `ppns`. */
  function SetOwner(fs: Frames, ppns: seq<Word>, pid: Word): (r: Frames)
    ensures r.base == fs.base && |r.owners| == |fs.owners|
    ensures forall f: int :: r.Owner(f) == if f in ppns && fs.Owner(f).Some? then Some(pid) else fs.Owner(f)
  {
    Frames(fs.base, SetOwners(fs.base, fs.owners, ppns, pid))
  }

  /** `reserve`: the `n` lowest free frames for `pid`, or nothing when fewer are free. */
  function Reserve(fs: Frames, pid: Word, n: nat): (r: Option<seq<Word>>)
    requires fs.Wide()
    ensures r.None? <==> FreeCount(fs) < n
    ensures r.Some? ==> |r.value| == n && Ascending(r.value) && forall f :: f in r.value ==> fs.Owner(f) == Some(0)
  {
    var free := OwnedBy(fs, 0);
    if |free| < n then None else
      assert forall f :: f in free[..n] ==> f in free;
      Some(free[..n])
  }

  // ----- PCBs -----

  datatype ProcState = Ready | Running | Exited(status: int) | Faulted(cause: Word, epc: Word, tval: Word) {
    predicate Terminal() { Exited? || Faulted? }
  }

  /** `x1` to `x31`. */
  type Regs = r: seq<Word> | |r| == 31 witness seq(31, i => 0)

  datatype Context = Context(regs: Regs, pc: Word, sstatus: Word)

  datatype Pcb = Pcb(pid: Word, state: ProcState, context: Option<Context>, root: Word, tables: seq<Word>, regions: seq<Region>) {
    /** Every frame the process owns: its tables, then its regions' frames. */
    function Held(): seq<Word> {
      tables + RegionFrames(regions)
    }
  }

  /** A `Ready` process with its new context, built in `s`. */
  function NewPcb(pid: Word, s: Space, context: Context): Pcb {
    Pcb(pid, Ready, Some(context), s.root, s.tables, s.regions)
  }

  datatype Procs = Procs(pcbs: seq<Pcb>, queue: seq<Word>, current: Option<Word>, frames: Frames)

  /** The PID and frames of a creation in flight. */
  datatype Creating = Creating(pid: Word, frames: seq<Word>)

  /** The index of `pid`'s PCB, or the table's length. */
  function IndexOf(pcbs: seq<Pcb>, pid: Word): (k: nat)
    ensures k <= |pcbs| && (k < |pcbs| ==> pcbs[k].pid == pid) && forall i :: 0 <= i < k ==> pcbs[i].pid != pid
  {
    if pcbs == [] then 0
    else
      var k := IndexOf(pcbs[..|pcbs| - 1], pid);
      if k < |pcbs| - 1 then k else if pcbs[|pcbs| - 1].pid == pid then |pcbs| - 1 else |pcbs|
  }

  predicate HasPcb(p: Procs, pid: Word) {
    IndexOf(p.pcbs, pid) < |p.pcbs|
  }

  // ----- The invariants -----

  predicate PidsOk(pcbs: seq<Pcb>, images: nat) {
    && (forall i :: 0 <= i < |pcbs| ==> 1 <= pcbs[i].pid <= images)
    && (forall i, j :: 0 <= i < j < |pcbs| ==> pcbs[i].pid < pcbs[j].pid)
  }

  predicate PcbOk(p: Pcb) {
    && (p.state == Ready <==> p.context.Some?)
    && (p.state.Terminal() <==> p.tables == []) && (p.state.Terminal() <==> p.regions == [])
    && (p.state.Terminal() || p.tables[0] == p.root)
  }

  predicate StatesOk(pcbs: seq<Pcb>) {
    forall i :: 0 <= i < |pcbs| ==> PcbOk(pcbs[i])
  }

  /** The current PID is the one Running process. */
  predicate CurrentOk(pcbs: seq<Pcb>, current: Option<Word>) {
    && (forall i :: 0 <= i < |pcbs| ==> (pcbs[i].state == Running <==> current == Some(pcbs[i].pid)))
    && (current.Some? ==> IndexOf(pcbs, current.value) < |pcbs|)
  }

  /** The queue holds each Ready process once and nothing else. */
  predicate QueueOk(pcbs: seq<Pcb>, queue: seq<Word>) {
    && NoDup(queue)
    && (forall k :: 0 <= k < |queue| ==> IndexOf(pcbs, queue[k]) < |pcbs|)
    && (forall i :: 0 <= i < |pcbs| ==> (pcbs[i].state == Ready <==> pcbs[i].pid in queue))
  }

  predicate CreatingOk(pcbs: seq<Pcb>, images: nat, creating: Option<Creating>) {
    creating.Some? ==> 1 <= creating.value.pid <= images && IndexOf(pcbs, creating.value.pid) == |pcbs|
  }

  /** `held` lists exactly the frames of `pid`, each once. */
  ghost predicate Owns(fs: Frames, pid: Word, held: seq<Word>) {
    NoDup(held) && forall f: int :: f in held <==> fs.Owner(f) == Some(pid)
  }

  /** Every allocated frame belongs to exactly one process of the table or to the creation in flight. */
  ghost predicate OwnersOk(p: Procs, creating: Option<Creating>) {
    && (forall i :: 0 <= i < |p.pcbs| ==> Owns(p.frames, p.pcbs[i].pid, p.pcbs[i].Held()))
    && (creating.Some? ==> Owns(p.frames, creating.value.pid, creating.value.frames))
    && (forall k :: (0 <= k < |p.frames.owners| && p.frames.owners[k] != 0
                     ==> IndexOf(p.pcbs, p.frames.owners[k]) < |p.pcbs| || (creating.Some? && creating.value.pid == p.frames.owners[k])))
  }

  /** What `Processes::check` accepts. */
  ghost predicate Consistent(p: Procs, images: nat, creating: Option<Creating>) {
    && p.frames.Wide()
    && PidsOk(p.pcbs, images) && StatesOk(p.pcbs) && CurrentOk(p.pcbs, p.current) && QueueOk(p.pcbs, p.queue)
    && CreatingOk(p.pcbs, images, creating) && OwnersOk(p, creating)
  }

  // ----- Transitions -----

  /** A change that would break an invariant. */
  datatype Violation =
    | PidNotAbove | NotReadyWithContext | FramesNotReserved
    | NoRunningProcess | NoPcb | NotTerminal | FrameNotOwned
    | StillRunning | QueuedNoPcb | QueuedNoContext | QueuedNotReady
    | EnterAfterShutdown | EnterNotRunning | NoPlan | NoDisk | BadBlock

  /** A transition's new state and result; the state is what the method leaves even on a violation. */
  datatype Outcome<+T> = Outcome(procs: Procs, result: Result<T, Violation>)

  predicate NonDescending(s: seq<Word>) {
    forall i, j :: 0 <= i < j < |s| ==> s[i] <= s[j]
  }

  function SortWords(s: seq<Word>): (r: seq<Word>)
    ensures multiset(r) == multiset(s) && NonDescending(r)
  {
    var key := (w: Word) => w as int;
    SortSorts(s, key);
    SortBy(s, key)
  }

  function Admit(p: Procs, pcb: Pcb): (o: Outcome<()>)
    requires p.frames.Wide()
  {
    if p.pcbs != [] && p.pcbs[|p.pcbs| - 1].pid >= pcb.pid then Outcome(p, Err(PidNotAbove))
    else if pcb.state != Ready || pcb.context.None? then Outcome(p, Err(NotReadyWithContext))
    else if SortWords(pcb.Held()) != OwnedBy(p.frames, pcb.pid) then Outcome(p, Err(FramesNotReserved))
    else Outcome(p.(queue := p.queue + [pcb.pid], pcbs := p.pcbs + [pcb]), Ok(()))
  }

  function YieldCurrent(p: Procs, context: Context): (o: Outcome<Word>) {
    if p.current.None? then Outcome(p, Err(NoRunningProcess))
    else
      var pid := p.current.value;
      var k := IndexOf(p.pcbs, pid);
      if k == |p.pcbs| then Outcome(p, Err(NoPcb))
      else
        Outcome(p.(pcbs := p.pcbs[k := p.pcbs[k].(state := Ready, context := Some(context))], queue := p.queue + [pid], current := None),
                Ok(pid))
  }

  /** A frame of `ppns` that `pid` may not free. */
  predicate Releasable(fs: Frames, pid: Word, ppns: seq<Word>) {
    forall f :: f in ppns ==> fs.Owner(f) == Some(pid) && pid != 0
  }

  function EndCurrent(p: Procs, state: ProcState): (o: Outcome<Word>) {
    if !state.Terminal() then Outcome(p, Err(NotTerminal))
    else if p.current.None? then Outcome(p, Err(NoRunningProcess))
    else
      var pid := p.current.value;
      var k := IndexOf(p.pcbs, pid);
      if k == |p.pcbs| then Outcome(p, Err(NoPcb))
      else
        var held := p.pcbs[k].Held();
        var ended := p.(pcbs := p.pcbs[k := p.pcbs[k].(state := state, context := None, tables := [], regions := [])]);
        if !Releasable(p.frames, pid, held) then Outcome(ended, Err(FrameNotOwned))
        else Outcome(ended.(frames := SetOwner(p.frames, held, 0), current := None), Ok(pid))
  }

  function ScheduleNext(p: Procs): (o: Outcome<Option<(Word, Context)>>) {
    if p.current.Some? then Outcome(p, Err(StillRunning))
    else if p.queue == [] then Outcome(p, Ok(None))
    else
      var pid, popped := p.queue[0], p.(queue := p.queue[1..]);
      var k := IndexOf(p.pcbs, pid);
      if k == |p.pcbs| then Outcome(popped, Err(QueuedNoPcb))
      else if p.pcbs[k].context.None? then Outcome(popped, Err(QueuedNoContext))
      else
        var taken := popped.(pcbs := p.pcbs[k := p.pcbs[k].(context := None)]);
        if p.pcbs[k].state != Ready then Outcome(taken, Err(QueuedNotReady))
        else Outcome(taken.(pcbs := p.pcbs[k := p.pcbs[k].(context := None, state := Running)], current := Some(pid)),
                     Ok(Some((pid, p.pcbs[k].context.value))))
  }

  // ----- What a change of one PCB keeps -----

  lemma IndexUnique(pcbs: seq<Pcb>, images: nat, i: nat)
    requires PidsOk(pcbs, images) && i < |pcbs|
    ensures IndexOf(pcbs, pcbs[i].pid) == i
  {
    hide IndexOf;
  }

  lemma IndexSame(pcbs: seq<Pcb>, k: nat, q: Pcb, pid: Word)
    requires k < |pcbs| && q.pid == pcbs[k].pid
    ensures IndexOf(pcbs[k := q], pid) == IndexOf(pcbs, pid)
  {
    hide IndexOf;
    var n := pcbs[k := q];
    assert forall i :: 0 <= i < |pcbs| ==> n[i].pid == pcbs[i].pid;
  }

  lemma IndexAppend(pcbs: seq<Pcb>, q: Pcb, pid: Word)
    ensures var k := IndexOf(pcbs, pid);
      IndexOf(pcbs + [q], pid) == if k < |pcbs| then k else if q.pid == pid then |pcbs| else |pcbs| + 1
  {
    assert (pcbs + [q])[..|pcbs|] == pcbs;
  }

  lemma OwnsSame(fs: Frames, gs: Frames, pid: Word, held: seq<Word>)
    requires Owns(fs, pid, held) && forall f: int :: fs.Owner(f) == Some(pid) <==> gs.Owner(f) == Some(pid)
    ensures Owns(gs, pid, held)
  {
  }

  // ----- Yield -----

  lemma YieldKeeps(p: Procs, images: nat, context: Context)
    requires Consistent(p, images, None) && p.current.Some?
    ensures var o := YieldCurrent(p, context);
      && o.result == Ok(p.current.value) && Consistent(o.procs, images, None) && o.procs.current.None?
      && o.procs.queue == p.queue + [p.current.value] && o.procs.frames == p.frames
  {
    hide OwnersOk, IndexOf;
    var o, k := YieldCurrent(p, context), IndexOf(p.pcbs, p.current.value);
    var q := p.pcbs[k].(state := Ready, context := Some(context));
    ReplaceKeeps(p, images, k, q);
    YieldQueue(p, images, context);
    assert CurrentOk(o.procs.pcbs, None) by {
      forall i | 0 <= i < |p.pcbs| && i != k ensures p.pcbs[i].state != Running {
        IndexUnique(p.pcbs, images, i);
      }
    }
    ReplaceOwners(p, k, q, p.queue + [p.current.value], None);
  }

  /** Replacing a PCB by one with the same PID and good fields keeps the table's own rules. */
  lemma ReplaceKeeps(p: Procs, images: nat, k: nat, q: Pcb)
    requires PidsOk(p.pcbs, images) && StatesOk(p.pcbs) && k < |p.pcbs| && q.pid == p.pcbs[k].pid && PcbOk(q)
    ensures PidsOk(p.pcbs[k := q], images) && StatesOk(p.pcbs[k := q])
  {
  }

  lemma YieldQueue(p: Procs, images: nat, context: Context)
    requires PidsOk(p.pcbs, images) && CurrentOk(p.pcbs, p.current) && QueueOk(p.pcbs, p.queue) && p.current.Some?
    ensures var o := YieldCurrent(p, context); QueueOk(o.procs.pcbs, o.procs.queue)
  {
    hide IndexOf;
    var pid := p.current.value;
    var k := IndexOf(p.pcbs, pid);
    var q := p.pcbs[k].(state := Ready, context := Some(context));
    var pcbs, queue := p.pcbs[k := q], p.queue + [pid];
    assert p.pcbs[k].state == Running;
    assert pid !in p.queue;
    forall j | 0 <= j < |queue| ensures IndexOf(pcbs, queue[j]) < |pcbs| {
      IndexSame(p.pcbs, k, q, queue[j]);
    }
    forall i | 0 <= i < |pcbs| ensures pcbs[i].state == Ready <==> pcbs[i].pid in queue {
      IndexUnique(p.pcbs, images, i);
    }
  }

  // ----- Schedule -----

  /** The scheduler takes the queue's head, if there is one, and it is the one Running process; nothing is Running
      otherwise. */
  lemma ScheduleKeeps(p: Procs, images: nat)
    requires Consistent(p, images, None) && p.current.None?
    ensures var o := ScheduleNext(p);
      && o.result.Ok? && Consistent(o.procs, images, None) && o.procs.frames == p.frames
      && (p.queue == [] ==> o == Outcome(p, Ok(None)))
      && (p.queue != [] ==>
            var k := IndexOf(p.pcbs, p.queue[0]);
            && k < |p.pcbs| && p.pcbs[k].context.Some?
            && o.result.value == Some((p.queue[0], p.pcbs[k].context.value))
            && o.procs.current == Some(p.queue[0]) && o.procs.queue == p.queue[1..]
            && |o.procs.pcbs| == |p.pcbs| && o.procs.pcbs[k].root == p.pcbs[k].root)
  {
    hide OwnersOk, IndexOf;
    if p.queue != [] {
      var pid := p.queue[0];
      var k := IndexOf(p.pcbs, pid);
      IndexUnique(p.pcbs, images, k);
      assert p.pcbs[k].state == Ready;
      var q := p.pcbs[k].(context := None, state := Running);
      ReplaceKeeps(p, images, k, q);
      ScheduleQueue(p, images);
      ScheduleCurrent(p, images);
      ReplaceOwners(p, k, q, p.queue[1..], Some(pid));
    }
  }

  lemma ReplaceOwners(p: Procs, k: nat, q: Pcb, queue: seq<Word>, current: Option<Word>)
    requires OwnersOk(p, None) && k < |p.pcbs| && q.pid == p.pcbs[k].pid && q.Held() == p.pcbs[k].Held()
    ensures OwnersOk(Procs(p.pcbs[k := q], queue, current, p.frames), None)
  {
    hide IndexOf, Owns;
    forall i | 0 <= i < |p.frames.owners| ensures IndexOf(p.pcbs[k := q], p.frames.owners[i]) == IndexOf(p.pcbs, p.frames.owners[i]) {
      IndexSame(p.pcbs, k, q, p.frames.owners[i]);
    }
  }

  lemma ScheduleQueue(p: Procs, images: nat)
    requires PidsOk(p.pcbs, images) && QueueOk(p.pcbs, p.queue) && p.queue != []
    ensures var k := IndexOf(p.pcbs, p.queue[0]);
      QueueOk(p.pcbs[k := p.pcbs[k].(context := None, state := Running)], p.queue[1..])
  {
    hide IndexOf;
    var pid, queue := p.queue[0], p.queue[1..];
    var k := IndexOf(p.pcbs, pid);
    var q := p.pcbs[k].(context := None, state := Running);
    var pcbs := p.pcbs[k := q];
    forall j | 0 <= j < |queue| ensures IndexOf(pcbs, queue[j]) < |pcbs| && queue[j] != pid {
      IndexSame(p.pcbs, k, q, queue[j]);
      assert queue[j] == p.queue[j + 1];
    }
    forall i | 0 <= i < |pcbs| ensures pcbs[i].state == Ready <==> pcbs[i].pid in queue {
      IndexUnique(p.pcbs, images, i);
      assert p.pcbs[i].pid in p.queue <==> p.pcbs[i].pid == pid || p.pcbs[i].pid in queue;
    }
  }

  lemma ScheduleCurrent(p: Procs, images: nat)
    requires PidsOk(p.pcbs, images) && CurrentOk(p.pcbs, None) && QueueOk(p.pcbs, p.queue) && p.queue != []
    ensures var k := IndexOf(p.pcbs, p.queue[0]);
      CurrentOk(p.pcbs[k := p.pcbs[k].(context := None, state := Running)], Some(p.queue[0]))
  {
    hide IndexOf;
    var pid := p.queue[0];
    var k := IndexOf(p.pcbs, pid);
    var q := p.pcbs[k].(context := None, state := Running);
    IndexSame(p.pcbs, k, q, pid);
    forall i | 0 <= i < |p.pcbs| && i != k ensures p.pcbs[i].pid != pid {
      IndexUnique(p.pcbs, images, i);
    }
  }

  // ----- End -----

  /** Ending the running process frees exactly its frames and leaves nothing Running. */
  lemma EndKeeps(p: Procs, images: nat, state: ProcState)
    requires Consistent(p, images, None) && p.current.Some? && state.Terminal()
    ensures var o, k := EndCurrent(p, state), IndexOf(p.pcbs, p.current.value);
      && o.result == Ok(p.current.value) && Consistent(o.procs, images, None) && o.procs.current.None?
      && o.procs.queue == p.queue && |o.procs.pcbs| == |p.pcbs| && k < |p.pcbs| && o.procs.pcbs[k].state == state
      && o.procs.frames == SetOwner(p.frames, p.pcbs[k].Held(), 0)
  {
    hide OwnersOk, IndexOf, SetOwner;
    var pid := p.current.value;
    var k := IndexOf(p.pcbs, pid);
    var q := p.pcbs[k].(state := state, context := None, tables := [], regions := []);
    IndexUnique(p.pcbs, images, k);
    ReplaceKeeps(p, images, k, q);
    EndQueue(p, images, k, q);
    EndOwners(p, images, k, q);
    assert CurrentOk(p.pcbs[k := q], None) by {
      forall i | 0 <= i < |p.pcbs| && i != k ensures p.pcbs[i].state != Running {
        IndexUnique(p.pcbs, images, i);
      }
    }
  }

  lemma EndQueue(p: Procs, images: nat, k: nat, q: Pcb)
    requires PidsOk(p.pcbs, images) && QueueOk(p.pcbs, p.queue) && k < |p.pcbs|
    requires q.pid == p.pcbs[k].pid && q.state.Terminal() && p.pcbs[k].state == Running
    ensures QueueOk(p.pcbs[k := q], p.queue)
  {
    hide IndexOf;
    forall j | 0 <= j < |p.queue| ensures IndexOf(p.pcbs[k := q], p.queue[j]) < |p.pcbs| {
      IndexSame(p.pcbs, k, q, p.queue[j]);
    }
  }

  lemma EndOwners(p: Procs, images: nat, k: nat, q: Pcb)
    requires PidsOk(p.pcbs, images) && OwnersOk(p, None) && k < |p.pcbs| && q.pid == p.pcbs[k].pid && q.tables == [] && q.regions == []
    ensures Releasable(p.frames, q.pid, p.pcbs[k].Held())
    ensures OwnersOk(Procs(p.pcbs[k := q], p.queue, None, SetOwner(p.frames, p.pcbs[k].Held(), 0)), None)
  {
    hide IndexOf, SetOwner, Pcb.Held;
    var held := p.pcbs[k].Held();
    assert Owns(p.frames, q.pid, held);
    var gs := SetOwner(p.frames, held, 0);
    var n := Procs(p.pcbs[k := q], p.queue, None, gs);
    EmptyHeld(q);
    forall i | 0 <= i < |n.pcbs| ensures Owns(gs, n.pcbs[i].pid, n.pcbs[i].Held()) {
      if i != k {
        assert p.pcbs[i].pid != q.pid;
        OwnsSame(p.frames, gs, p.pcbs[i].pid, p.pcbs[i].Held());
      } else {
        assert forall f: int :: gs.Owner(f) != Some(q.pid);
      }
    }
    forall i | 0 <= i < |gs.owners| && gs.owners[i] != 0 ensures IndexOf(n.pcbs, gs.owners[i]) < |n.pcbs| {
      assert gs.Owner(gs.base + i) == Some(gs.owners[i]);
      IndexSame(p.pcbs, k, q, gs.owners[i]);
    }
  }

  lemma EmptyHeld(q: Pcb)
    requires q.tables == [] && q.regions == []
    ensures q.Held() == []
  {
  }

  // ----- Reserve and admit -----

  /** Reserving frames for a new PID puts exactly them in its creation's hands. */
  lemma ReserveKeeps(p: Procs, images: nat, pid: Word, n: nat)
    requires Consistent(p, images, None) && 1 <= pid <= images && !HasPcb(p, pid)
    ensures var r := Reserve(p.frames, pid, n);
      r.Some? ==> Consistent(p.(frames := SetOwner(p.frames, r.value, pid)), images, Some(Creating(pid, r.value)))
                  && OwnedBy(SetOwner(p.frames, r.value, pid), pid) == r.value
  {
    hide IndexOf, SetOwner, OwnersOk, Reserve, PidsOk, StatesOk, CurrentOk, QueueOk, OwnedBy;
    var r := Reserve(p.frames, pid, n);
    if r.Some? {
      ReserveOwners(p, images, pid, r.value);
      SameAscending(OwnedBy(SetOwner(p.frames, r.value, pid), pid), r.value);
    }
  }

  lemma ReserveOwners(p: Procs, images: nat, pid: Word, fs: seq<Word>)
    requires PidsOk(p.pcbs, images) && OwnersOk(p, None) && 1 <= pid && !HasPcb(p, pid)
    requires Ascending(fs) && forall f :: f in fs ==> p.frames.Owner(f) == Some(0)
    ensures OwnersOk(p.(frames := SetOwner(p.frames, fs, pid)), Some(Creating(pid, fs)))
    ensures forall f: int :: f in fs <==> SetOwner(p.frames, fs, pid).Owner(f) == Some(pid)
  {
    hide IndexOf, SetOwner, Pcb.Held;
    var gs := SetOwner(p.frames, fs, pid);
    assert forall f: int :: p.frames.Owner(f) != Some(pid);
    forall i | 0 <= i < |p.pcbs| ensures Owns(gs, p.pcbs[i].pid, p.pcbs[i].Held()) {
      assert p.pcbs[i].pid != pid;
      OwnsSame(p.frames, gs, p.pcbs[i].pid, p.pcbs[i].Held());
    }
    forall i | 0 <= i < |gs.owners| && gs.owners[i] != 0 && gs.owners[i] != pid ensures IndexOf(p.pcbs, gs.owners[i]) < |p.pcbs| {
      assert gs.Owner(gs.base + i) == Some(gs.owners[i]);
      assert p.frames.Owner(gs.base + i) == Some(gs.owners[i]);
    }
  }

  /** Two ascending lists with the same elements are equal. */
  lemma {:induction false} SameAscending(a: seq<Word>, b: seq<Word>)
    requires Ascending(a) && Ascending(b) && forall x: int :: x in a <==> x in b
    ensures a == b
  {
    assert |a| > 0 ==> a[0] in a;
    assert |b| > 0 ==> b[0] in b;
    if a != [] && b != [] {
      var m, n := |a| - 1, |b| - 1;
      assert a[m] in b && b[n] in a;
      assert a[m] == b[n];
      forall x: int ensures x in a[..m] <==> x in b[..n] {
        if x in a[..m] { assert x in a && x != a[m]; }
        if x in b[..n] { assert x in b && x != b[n]; }
      }
      SameAscending(a[..m], b[..n]);
      assert a == a[..m] + [a[m]] && b == b[..n] + [b[n]];
    }
  }

  /** Sorting a permutation of an ascending list gives that list. */
  lemma SortPermutation(s: seq<Word>, a: seq<Word>)
    requires Ascending(a) && multiset(s) == multiset(a)
    ensures SortWords(s) == a
  {
    hide SortWords;
    SamePermutation(SortWords(s), a);
  }

  lemma FrontOf(s: seq<Word>)
    requires s != [] && NonDescending(s)
    ensures NonDescending(s[..|s| - 1]) && s == s[..|s| - 1] + [s[|s| - 1]] && multiset(s[..|s| - 1]) == multiset(s) - multiset{s[|s| - 1]}
  {
    assert s == s[..|s| - 1] + [s[|s| - 1]];
  }

  lemma LastSame(s: seq<Word>, a: seq<Word>)
    requires NonDescending(s) && NonDescending(a) && multiset(s) == multiset(a) && |s| == |a| > 0
    ensures s[|s| - 1] == a[|a| - 1]
  {
    assert s[|s| - 1] in multiset(a) && a[|a| - 1] in multiset(s);
  }

  lemma {:induction false} SamePermutation(s: seq<Word>, a: seq<Word>)
    requires NonDescending(s) && NonDescending(a) && multiset(s) == multiset(a)
    ensures s == a
  {
    hide NonDescending;
    assert |s| == |multiset(s)| == |multiset(a)| == |a|;
    if s != [] {
      var n := |s| - 1;
      LastSame(s, a);
      FrontOf(s);
      FrontOf(a);
      SamePermutation(s[..n], a[..n]);
    }
  }

  /** Admitting the process whose creation holds its frames succeeds, ends the creation, and queues it last. */
  lemma AdmitKeeps(p: Procs, images: nat, pcb: Pcb, fs: seq<Word>)
    requires Consistent(p, images, Some(Creating(pcb.pid, fs))) && p.current.None?
    requires forall i :: 0 <= i < |p.pcbs| ==> p.pcbs[i].pid < pcb.pid
    requires pcb.state == Ready && PcbOk(pcb) && Ascending(fs) && multiset(pcb.Held()) == multiset(fs)
    ensures var o := Admit(p, pcb);
      && o.result == Ok(()) && Consistent(o.procs, images, None) && o.procs.current.None? && o.procs.frames == p.frames
      && o.procs.pcbs == p.pcbs + [pcb] && o.procs.queue == p.queue + [pcb.pid]
  {
    hide IndexOf, Pcb.Held, OwnedBy, OwnersOk, SortWords, QueueOk, StatesOk;
    AdmitReserved(p, pcb, fs);
    AdmitQueue(p, pcb);
    AdmitOwners(p, images, pcb, fs);
    AdmitLast(p, pcb);
  }

  lemma AdmitReserved(p: Procs, pcb: Pcb, fs: seq<Word>)
    requires p.frames.Wide() && OwnersOk(p, Some(Creating(pcb.pid, fs))) && Ascending(fs) && multiset(pcb.Held()) == multiset(fs)
    ensures SortWords(pcb.Held()) == OwnedBy(p.frames, pcb.pid)
  {
    hide IndexOf, Pcb.Held, OwnedBy, SortWords;
    assert Owns(p.frames, pcb.pid, fs);
    SameAscending(OwnedBy(p.frames, pcb.pid), fs);
    SortPermutation(pcb.Held(), fs);
  }

  lemma AdmitLast(p: Procs, pcb: Pcb)
    requires forall i :: 0 <= i < |p.pcbs| ==> p.pcbs[i].pid < pcb.pid
    requires StatesOk(p.pcbs) && PcbOk(pcb)
    ensures StatesOk(p.pcbs + [pcb])
    ensures p.pcbs != [] ==> p.pcbs[|p.pcbs| - 1].pid < pcb.pid
  {
  }

  lemma AdmitQueue(p: Procs, pcb: Pcb)
    requires QueueOk(p.pcbs, p.queue) && IndexOf(p.pcbs, pcb.pid) == |p.pcbs| && pcb.state == Ready
    requires forall i :: 0 <= i < |p.pcbs| ==> p.pcbs[i].pid < pcb.pid
    ensures QueueOk(p.pcbs + [pcb], p.queue + [pcb.pid])
  {
    hide IndexOf;
    var pcbs, queue := p.pcbs + [pcb], p.queue + [pcb.pid];
    forall j | 0 <= j < |queue| ensures IndexOf(pcbs, queue[j]) < |pcbs| {
      IndexAppend(p.pcbs, pcb, queue[j]);
    }
    assert pcb.pid !in p.queue;
  }

  lemma HeldOwns(fs: Frames, pid: Word, a: seq<Word>, b: seq<Word>)
    requires Owns(fs, pid, a) && multiset(a) == multiset(b)
    ensures Owns(fs, pid, b)
  {
    forall f: int ensures f in a <==> f in b {
      if 0 <= f < WORD_LIMIT {
        assert f in multiset(a) <==> f in multiset(b);
      }
    }
    NoDupMultiset(a, b);
  }

  /** Owning no list twice is a property of the multiset. */
  lemma NoDupMultiset(a: seq<Word>, b: seq<Word>)
    requires NoDup(a) && multiset(a) == multiset(b)
    ensures NoDup(b)
  {
    CountOnce(a);
    OnceNoDup(b);
  }

  lemma AdmitOwners(p: Procs, images: nat, pcb: Pcb, fs: seq<Word>)
    requires OwnersOk(p, Some(Creating(pcb.pid, fs))) && multiset(pcb.Held()) == multiset(fs)
    ensures OwnersOk(p.(queue := p.queue + [pcb.pid], pcbs := p.pcbs + [pcb]), None)
  {
    hide IndexOf, Pcb.Held, Owns;
    HeldOwns(p.frames, pcb.pid, fs, pcb.Held());
    var owners := p.frames.owners;
    forall i | 0 <= i < |owners| && owners[i] != 0 ensures IndexOf(p.pcbs + [pcb], owners[i]) < |p.pcbs| + 1 {
      IndexAppend(p.pcbs, pcb, owners[i]);
    }
  }
}
