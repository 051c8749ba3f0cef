/** `Processes` and `Frames` in place: each method leaves the state its transition function gives, and `Check` decides
    the invariants. */
module ProcessTable {
  import opened Words
  import P = Processes
  import opened Processes

  class Table {
    var pcbs: seq<Pcb>
    var queue: seq<Word>
    var current: Option<Word>
    var owners: seq<Word>
    const base: Word

    ghost function State(): Procs
      reads this
    {
      Procs(pcbs, queue, current, Frames(base, owners))
    }

    /** No process, an empty queue and an all-free pool. */
    constructor (base: Word, count: nat)
      requires base + count <= WORD_LIMIT
      ensures this.base == base && pcbs == [] && queue == [] && current.None? && owners == seq<Word>(count, _ => 0)
      ensures forall images: nat :: Consistent(State(), images, None)
      ensures FreeCount(State().frames) == count
    {
      this.base := base;
      pcbs, queue, current := [], [], None;
      owners := seq<Word>(count, _ => 0);
      new;
      AllFree(State().frames, 0);
    }

    /** `Frames::reserve`. */
    method Reserve(pid: Word, n: nat) returns (r: Option<seq<Word>>)
      requires State().frames.Wide() && pid != 0
      modifies this`owners
      ensures r == P.Reserve(old(State()).frames, pid, n)
      ensures State() == if r.None? then old(State()) else
                old(State()).(frames := SetOwner(old(State()).frames, r.value, pid))
      ensures |owners| == |old(owners)|
    {
      hide SetOwner;
      var free := LowestFree(Frames(base, owners), n);
      if |free| < n {
        return None;
      }
      assert P.Reserve(State().frames, pid, n) == Some(free);
      Mark(free, pid);
      return Some(free);
    }

    /** Gives every frame in `ppns` to `pid`. */
    method Mark(ppns: seq<Word>, pid: Word)
      requires forall f :: f in ppns ==> State().frames.Owner(f).Some?
      modifies this`owners
      ensures State() == old(State()).(frames := SetOwner(old(State()).frames, ppns, pid))
      ensures |owners| == |old(owners)|
    {
      hide SetOwners;
      ghost var fs := State().frames;
      var k := 0;
      SetNone(base, owners, ppns[..0], pid);
      while k < |ppns|
        invariant 0 <= k <= |ppns|
        invariant owners == SetOwners(base, fs.owners, ppns[..k], pid)
      {
        assert ppns[k] in ppns;
        SetOne(base, fs.owners, ppns, k, pid);
        owners := owners[ppns[k] - base := pid];
        k := k + 1;
      }
      assert ppns[..k] == ppns;
    }

    /** `Frames::release`: frees all of `ppns`, or nothing when one of them is not `pid`'s. */
    method Release(pid: Word, ppns: seq<Word>) returns (ok: bool)
      modifies this`owners
      ensures ok <==> Releasable(old(State()).frames, pid, ppns)
      ensures State() == if ok then old(State()).(frames := SetOwner(old(State()).frames, ppns, 0)) else old(State())
      ensures |owners| == |old(owners)|
    {
      var k := 0;
      while k < |ppns|
        invariant 0 <= k <= |ppns| && forall j :: 0 <= j < k ==> State().frames.Owner(ppns[j]) == Some(pid) && pid != 0
      {
        if !(base <= ppns[k] < base + |owners|) || owners[ppns[k] - base] != pid || pid == 0 {
          assert ppns[k] in ppns;
          return false;
        }
        k := k + 1;
      }
      Mark(ppns, 0);
      return true;
    }

    method Admit(pcb: Pcb) returns (r: Result<(), Violation>)
      requires State().frames.Wide()
      modifies this`pcbs, this`queue
      ensures Outcome(State(), r) == P.Admit(old(State()), pcb)
    {
      if pcbs != [] && pcbs[|pcbs| - 1].pid >= pcb.pid {
        return Err(PidNotAbove);
      }
      if pcb.state != Ready || pcb.context.None? {
        return Err(NotReadyWithContext);
      }
      if SortWords(pcb.Held()) != OwnedBy(Frames(base, owners), pcb.pid) {
        return Err(FramesNotReserved);
      }
      queue := queue + [pcb.pid];
      pcbs := pcbs + [pcb];
      return Ok(());
    }

    method YieldCurrent(context: Context) returns (r: Result<Word, Violation>)
      modifies this`pcbs, this`queue, this`current
      ensures Outcome(State(), r) == P.YieldCurrent(old(State()), context)
    {
      if current.None? {
        return Err(NoRunningProcess);
      }
      var pid := current.value;
      var k := Find(pcbs, pid);
      if k == |pcbs| {
        return Err(NoPcb);
      }
      pcbs := pcbs[k := pcbs[k].(state := Ready, context := Some(context))];
      queue := queue + [pid];
      current := None;
      return Ok(pid);
    }

    method EndCurrent(state: ProcState) returns (r: Result<Word, Violation>)
      modifies this`pcbs, this`current, this`owners
      ensures Outcome(State(), r) == P.EndCurrent(old(State()), state)
      ensures |owners| == |old(owners)|
    {
      if !state.Terminal() {
        return Err(NotTerminal);
      }
      if current.None? {
        return Err(NoRunningProcess);
      }
      var pid := current.value;
      var k := Find(pcbs, pid);
      if k == |pcbs| {
        return Err(NoPcb);
      }
      var held := pcbs[k].Held();
      pcbs := pcbs[k := pcbs[k].(state := state, context := None, tables := [], regions := [])];
      var ok := Release(pid, held);
      if !ok {
        return Err(FrameNotOwned);
      }
      current := None;
      return Ok(pid);
    }

    method ScheduleNext() returns (r: Result<Option<(Word, Context)>, Violation>)
      modifies this`pcbs, this`queue, this`current
      ensures Outcome(State(), r) == P.ScheduleNext(old(State()))
    {
      if current.Some? {
        return Err(StillRunning);
      }
      if queue == [] {
        return Ok(None);
      }
      var pid := queue[0];
      queue := queue[1..];
      var k := Find(pcbs, pid);
      if k == |pcbs| {
        return Err(QueuedNoPcb);
      }
      var context := pcbs[k].context;
      if context.None? {
        return Err(QueuedNoContext);
      }
      pcbs := pcbs[k := pcbs[k].(context := None)];
      if pcbs[k].state != Ready {
        return Err(QueuedNotReady);
      }
      pcbs := pcbs[k := pcbs[k].(state := Running)];
      current := Some(pid);
      return Ok(Some((pid, context.value)));
    }
  }

  lemma {:induction false} AllFree(fs: Frames, i: nat)
    requires fs.Wide() && i <= |fs.owners| && forall k :: 0 <= k < |fs.owners| ==> fs.owners[k] == 0
    ensures |OwnedFrom(fs, 0, i)| == |fs.owners| - i
    decreases |fs.owners| - i
  {
    if i < |fs.owners| {
      AllFree(fs, i + 1);
    }
  }

  lemma SetNone(base: Word, owners: seq<Word>, ppns: seq<Word>, pid: Word)
    requires ppns == []
    ensures SetOwners(base, owners, ppns, pid) == owners
  {
  }

  lemma SetOne(base: Word, owners: seq<Word>, ppns: seq<Word>, k: nat, pid: Word)
    requires k < |ppns| && base <= ppns[k] < base + |owners|
    ensures SetOwners(base, owners, ppns[..k + 1], pid) == SetOwners(base, owners, ppns[..k], pid)[ppns[k] - base := pid]
  {
    var a, b := SetOwners(base, owners, ppns[..k + 1], pid), SetOwners(base, owners, ppns[..k], pid);
    forall i | 0 <= i < |a| ensures a[i] == b[ppns[k] - base := pid][i] {
      InPrefix(ppns, k, base + i);
    }
  }

  lemma InPrefix(s: seq<Word>, k: nat, x: int)
    requires k < |s|
    ensures x in s[..k + 1] <==> x in s[..k] || x == s[k]
  {
    assert s[..k + 1] == s[..k] + [s[k]];
  }

  lemma OwnedStep(fs: Frames, pid: Word, i: nat)
    requires fs.Wide() && i < |fs.owners|
    ensures OwnedFrom(fs, pid, i) == (if fs.owners[i] == pid then [fs.base + i] else []) + OwnedFrom(fs, pid, i + 1)
  {
  }

  lemma OwnedEnd(fs: Frames, pid: Word)
    requires fs.Wide()
    ensures OwnedFrom(fs, pid, |fs.owners|) == []
  {
  }

  /** The free frames from the lowest on, at most `n` of them. */
  method LowestFree(fs: Frames, n: nat) returns (free: seq<Word>)
    requires fs.Wide()
    ensures var all := OwnedFrom(fs, 0, 0); free == if |all| < n then all else all[..n]
  {
    hide OwnedFrom;
    free := [];
    var i := 0;
    ghost var rest := OwnedFrom(fs, 0, 0);
    while i < |fs.owners| && |free| < n
      invariant 0 <= i <= |fs.owners| && |free| <= n
      invariant rest == OwnedFrom(fs, 0, i) && OwnedFrom(fs, 0, 0) == free + rest
    {
      OwnedStep(fs, 0, i);
      if fs.owners[i] == 0 {
        free := free + [fs.base + i];
      }
      i := i + 1;
      rest := OwnedFrom(fs, 0, i);
    }
    if i == |fs.owners| {
      OwnedEnd(fs, 0);
    }
  }

  /** The first PCB of `pid`. */
  method Find(pcbs: seq<Pcb>, pid: Word) returns (k: nat)
    ensures k == IndexOf(pcbs, pid)
  {
    k := 0;
    while k < |pcbs| && pcbs[k].pid != pid
      invariant 0 <= k <= |pcbs| && forall i :: 0 <= i < k ==> pcbs[i].pid != pid
    {
      k := k + 1;
    }
  }

  // ----- Check -----

  /** The per-process rules, with the last PID seen. */
  method CheckPcbs(pcbs: seq<Pcb>, images: nat) returns (ok: bool)
    ensures ok <==> PidsOk(pcbs, images) && StatesOk(pcbs)
  {
    var last, i := 0, 0;
    while i < |pcbs|
      invariant 0 <= i <= |pcbs|
      invariant last == if i == 0 then 0 else pcbs[i - 1].pid
      invariant forall j :: 0 <= j < i ==> 1 <= pcbs[j].pid <= images && PcbOk(pcbs[j])
      invariant forall j, k :: 0 <= j < k < i ==> pcbs[j].pid < pcbs[k].pid
    {
      var p := pcbs[i];
      if p.pid <= last || p.pid > images {
        return false;
      }
      last := p.pid;
      if !PcbOk(p) {
        return false;
      }
      i := i + 1;
    }
    return true;
  }

  /** At most one process runs, and it is the current one. */
  method CheckRunning(pcbs: seq<Pcb>, images: nat, current: Option<Word>) returns (ok: bool)
    requires PidsOk(pcbs, images)
    ensures ok <==> CurrentOk(pcbs, current)
  {
    var running: seq<Word> := [];
    var i := 0;
    ghost var at := 0;
    while i < |pcbs|
      invariant 0 <= i <= |pcbs| && |running| <= 1
      invariant |running| == 0 ==> forall j :: 0 <= j < i ==> pcbs[j].state != Running
      invariant |running| == 1 ==> 0 <= at < i && pcbs[at].state == Running && running[0] == pcbs[at].pid
      invariant |running| == 1 ==> forall j :: 0 <= j < i && pcbs[j].state == Running ==> j == at
    {
      if pcbs[i].state == Running {
        if |running| == 1 {
          assert pcbs[at].pid < pcbs[i].pid;
          return false;
        }
        running := running + [pcbs[i].pid];
        at := i;
      }
      i := i + 1;
    }
    var first := if |running| == 1 then Some(running[0]) else None;
    if first.Some? {
      IndexUnique(pcbs, images, at);
    }
    return first == current;
  }

  /** Each queue entry is a distinct Ready process, and every Ready process is queued. */
  method CheckQueue(pcbs: seq<Pcb>, images: nat, queue: seq<Word>) returns (ok: bool)
    requires PidsOk(pcbs, images)
    ensures ok <==> QueueOk(pcbs, queue)
  {
    var seen: seq<Word> := [];
    var k := 0;
    while k < |queue|
      invariant 0 <= k <= |queue| && seen == queue[..k] && NoDup(seen)
      invariant forall j :: 0 <= j < k ==> IndexOf(pcbs, queue[j]) < |pcbs| && pcbs[IndexOf(pcbs, queue[j])].state == Ready
    {
      var pid := queue[k];
      if pid in seen {
        return false;
      }
      var i := Find(pcbs, pid);
      if i == |pcbs| || pcbs[i].state != Ready {
        assert queue[k] in queue;
        return false;
      }
      seen := seen + [pid];
      k := k + 1;
    }
    ok := ReadyQueued(pcbs, queue);
    if ok {
      assert queue[..k] == queue;
      forall i | 0 <= i < |pcbs| && pcbs[i].pid in queue ensures pcbs[i].state == Ready {
        IndexUnique(pcbs, images, i);
      }
    }
  }

  method ReadyQueued(pcbs: seq<Pcb>, queue: seq<Word>) returns (ok: bool)
    ensures ok <==> forall i :: 0 <= i < |pcbs| && pcbs[i].state == Ready ==> pcbs[i].pid in queue
  {
    var i := 0;
    while i < |pcbs|
      invariant 0 <= i <= |pcbs| && forall j :: 0 <= j < i && pcbs[j].state == Ready ==> pcbs[j].pid in queue
    {
      if pcbs[i].state == Ready && pcbs[i].pid !in queue {
        return false;
      }
      i := i + 1;
    }
    return true;
  }

  /** Puts `pid` in the slots of `held`, all of which must be empty slots of the pool. */
  method Claim(expected: seq<Word>, base: Word, pid: Word, held: seq<Word>) returns (ok: bool, r: seq<Word>)
    requires pid != 0
    ensures ok <==> NoDup(held) && forall f :: f in held ==> Frames(base, expected).Owner(f) == Some(0)
    ensures ok ==> |r| == |expected| && Frames(base, r) == SetOwner(Frames(base, expected), held, pid)
  {
    hide SetOwners;
    r := expected;
    var k := 0;
    SetNone(base, expected, held[..0], pid);
    while k < |held|
      invariant 0 <= k <= |held| && NoDup(held[..k])
      invariant forall j :: 0 <= j < k ==> Frames(base, expected).Owner(held[j]) == Some(0)
      invariant r == SetOwners(base, expected, held[..k], pid)
    {
      var f := held[k];
      if !(base <= f < base + |r|) || r[f - base] != 0 {
        assert f in held;
        ClaimFails(expected, base, pid, held, k);
        return false, r;
      }
      ClaimStep(expected, base, pid, held, k);
      r := r[f - base := pid];
      k := k + 1;
    }
    assert held[..k] == held;
    return true, r;
  }

  lemma ClaimFails(expected: seq<Word>, base: Word, pid: Word, held: seq<Word>, k: nat)
    requires pid != 0 && k < |held| && SetOwner(Frames(base, expected), held[..k], pid).Owner(held[k]) != Some(0)
    ensures held[k] in held
    ensures !(NoDup(held) && forall f :: f in held ==> Frames(base, expected).Owner(f) == Some(0))
  {
    hide SetOwner;
    if held[k] in held[..k] {
      var j :| 0 <= j < k && held[j] == held[k];
    }
  }

  lemma ClaimStep(expected: seq<Word>, base: Word, pid: Word, held: seq<Word>, k: nat)
    requires pid != 0 && k < |held| && NoDup(held[..k])
    requires SetOwner(Frames(base, expected), held[..k], pid).Owner(held[k]) == Some(0)
    ensures NoDup(held[..k + 1]) && Frames(base, expected).Owner(held[k]) == Some(0)
    ensures SetOwners(base, expected, held[..k + 1], pid) == SetOwners(base, expected, held[..k], pid)[held[k] - base := pid]
  {
    hide SetOwners;
    assert held[k] !in held[..k];
    assert held[..k + 1] == held[..k] + [held[k]];
    SetOne(base, expected, held, k, pid);
  }

  /** The slots the first `n` processes claim. */
  ghost predicate Claimed(pcbs: seq<Pcb>, n: nat, fs: Frames)
    requires n <= |pcbs|
  {
    && (forall i :: 0 <= i < n ==> Owns(fs, pcbs[i].pid, pcbs[i].Held()))
    && (forall f: int :: fs.Owner(f).Some? && fs.Owner(f) != Some(0) ==> exists i :: 0 <= i < n && fs.Owner(f) == Some(pcbs[i].pid))
  }

  lemma ClaimNext(pcbs: seq<Pcb>, images: nat, n: nat, fs: Frames, gs: Frames)
    requires PidsOk(pcbs, images) && n < |pcbs| && Claimed(pcbs, n, fs)
    requires NoDup(pcbs[n].Held()) && forall f :: f in pcbs[n].Held() ==> fs.Owner(f) == Some(0)
    requires gs == SetOwner(fs, pcbs[n].Held(), pcbs[n].pid)
    ensures Claimed(pcbs, n + 1, gs)
  {
    hide SetOwner, Pcb.Held;
    var held, pid := pcbs[n].Held(), pcbs[n].pid;
    assert forall i :: 0 <= i < n ==> pcbs[i].pid != pid;
    assert forall f: int :: fs.Owner(f) != Some(pid);
    forall i | 0 <= i < n ensures Owns(gs, pcbs[i].pid, pcbs[i].Held()) {
      OwnsSame(fs, gs, pcbs[i].pid, pcbs[i].Held());
    }
  }

  /** A claim that fails shows the real owners are not as the table says. */
  lemma ClaimRefutes(p: Procs, images: nat, n: nat, fs: Frames, pid: Word, held: seq<Word>)
    requires PidsOk(p.pcbs, images) && n <= |p.pcbs| && Claimed(p.pcbs, n, fs)
    requires fs.base == p.frames.base && |fs.owners| == |p.frames.owners|
    requires forall i :: 0 <= i < n ==> p.pcbs[i].pid != pid
    requires !(NoDup(held) && forall f :: f in held ==> fs.Owner(f) == Some(0))
    requires forall i :: 0 <= i < n ==> Owns(p.frames, p.pcbs[i].pid, p.pcbs[i].Held())
    ensures !Owns(p.frames, pid, held)
  {
    hide Pcb.Held;
    if NoDup(held) {
      var f :| f in held && fs.Owner(f) != Some(0);
      if fs.Owner(f).Some? {
        var i :| 0 <= i < n && fs.Owner(f) == Some(p.pcbs[i].pid);
        assert Owns(fs, p.pcbs[i].pid, p.pcbs[i].Held()) && Owns(p.frames, p.pcbs[i].pid, p.pcbs[i].Held());
        assert f in p.pcbs[i].Held();
        assert p.frames.Owner(f) == Some(p.pcbs[i].pid);
      }
    }
  }

  /** The recomputed owners. */
  method ExpectedOwners(p: Procs, images: nat, creating: Option<Creating>) returns (ok: bool, expected: seq<Word>)
    requires PidsOk(p.pcbs, images) && CreatingOk(p.pcbs, images, creating)
    ensures ok ==> |expected| == |p.frames.owners|
    ensures OwnersOk(p, creating) <==> ok && expected == p.frames.owners
  {
    hide Pcb.Held, IndexOf, SetOwner;
    expected := seq<Word>(|p.frames.owners|, _ => 0);
    var base, i := p.frames.base, 0;
    while i < |p.pcbs|
      invariant 0 <= i <= |p.pcbs| && |expected| == |p.frames.owners|
      invariant Claimed(p.pcbs, i, Frames(base, expected))
    {
      ghost var fs := Frames(base, expected);
      var good, next := Claim(expected, base, p.pcbs[i].pid, p.pcbs[i].Held());
      if !good {
        if OwnersOk(p, creating) {
          ClaimRefutes(p, images, i, fs, p.pcbs[i].pid, p.pcbs[i].Held());
        }
        return false, expected;
      }
      ClaimNext(p.pcbs, images, i, fs, Frames(base, next));
      expected := next;
      i := i + 1;
    }
    ghost var fs := Frames(base, expected);
    if creating.Some? {
      var pid, held := creating.value.pid, creating.value.frames;
      var good, next := Claim(expected, base, pid, held);
      if !good {
        if OwnersOk(p, creating) {
          ClaimRefutes(p, images, i, fs, pid, held);
        }
        return false, expected;
      }
      expected := next;
    }
    OwnersDecided(p, images, creating, fs, Frames(base, expected));
    return true, expected;
  }

  /** Recomputed owners without conflict are the real ones exactly when the ownership rules hold. */
  lemma OwnersDecided(p: Procs, images: nat, creating: Option<Creating>, fs: Frames, gs: Frames)
    requires PidsOk(p.pcbs, images) && CreatingOk(p.pcbs, images, creating) && Claimed(p.pcbs, |p.pcbs|, fs)
    requires fs.base == gs.base == p.frames.base && |gs.owners| == |fs.owners| == |p.frames.owners|
    requires creating.None? ==> gs == fs
    requires creating.Some? ==> NoDup(creating.value.frames) && gs == SetOwner(fs, creating.value.frames, creating.value.pid)
    requires creating.Some? ==> forall f :: f in creating.value.frames ==> fs.Owner(f) == Some(0)
    ensures OwnersOk(p, creating) <==> gs.owners == p.frames.owners
  {
    hide Pcb.Held, IndexOf, SetOwner;
    ClaimedAll(p, images, creating, fs, gs);
    assert gs.owners == p.frames.owners ==> p.(frames := gs) == p;
    if OwnersOk(p, creating) {
      OwnersAgree(p, creating, gs);
    }
  }

  lemma ClaimedAll(p: Procs, images: nat, creating: Option<Creating>, fs: Frames, gs: Frames)
    requires PidsOk(p.pcbs, images) && CreatingOk(p.pcbs, images, creating) && Claimed(p.pcbs, |p.pcbs|, fs)
    requires fs.base == gs.base && |gs.owners| == |fs.owners|
    requires creating.None? ==> gs == fs
    requires creating.Some? ==> NoDup(creating.value.frames) && gs == SetOwner(fs, creating.value.frames, creating.value.pid)
    requires creating.Some? ==> forall f :: f in creating.value.frames ==> fs.Owner(f) == Some(0)
    ensures OwnersOk(p.(frames := gs), creating)
  {
    hide Pcb.Held, IndexOf, SetOwner;
    if creating.Some? {
      var pid := creating.value.pid;
      assert forall i :: 0 <= i < |p.pcbs| ==> p.pcbs[i].pid != pid;
      assert forall f: int :: fs.Owner(f) != Some(pid);
      forall i | 0 <= i < |p.pcbs| ensures Owns(gs, p.pcbs[i].pid, p.pcbs[i].Held()) {
        OwnsSame(fs, gs, p.pcbs[i].pid, p.pcbs[i].Held());
      }
    }
    forall k | 0 <= k < |gs.owners| && gs.owners[k] != 0 && (creating.None? || gs.owners[k] != creating.value.pid)
      ensures IndexOf(p.pcbs, gs.owners[k]) < |p.pcbs|
    {
      assert gs.Owner(gs.base + k) == Some(gs.owners[k]);
      assert fs.Owner(gs.base + k) == Some(gs.owners[k]);
      var i :| 0 <= i < |p.pcbs| && fs.Owner(gs.base + k) == Some(p.pcbs[i].pid);
    }
  }

  /** The ownership rules determine the owners. */
  lemma OwnersAgree(p: Procs, creating: Option<Creating>, gs: Frames)
    requires gs.base == p.frames.base && |gs.owners| == |p.frames.owners|
    requires OwnersOk(p, creating) && OwnersOk(p.(frames := gs), creating)
    ensures gs.owners == p.frames.owners
  {
    hide Pcb.Held, IndexOf;
    var fs := p.frames;
    forall k | 0 <= k < |gs.owners| ensures gs.owners[k] == fs.owners[k] {
      var f := fs.base + k;
      assert fs.Owner(f) == Some(fs.owners[k]) && gs.Owner(f) == Some(gs.owners[k]);
      if fs.owners[k] != 0 {
        OwnerSame(p, creating, gs, f);
      } else if gs.owners[k] != 0 {
        OwnerSame(p.(frames := gs), creating, fs, f);
      }
    }
  }

  lemma OwnerSame(p: Procs, creating: Option<Creating>, gs: Frames, f: int)
    requires OwnersOk(p, creating) && OwnersOk(p.(frames := gs), creating)
    requires p.frames.Owner(f).Some? && p.frames.Owner(f).value != 0
    ensures gs.Owner(f) == p.frames.Owner(f)
  {
    hide Pcb.Held, IndexOf;
    var pid := p.frames.Owner(f).value;
    assert p.frames.owners[f - p.frames.base] == pid;
    var i := IndexOf(p.pcbs, pid);
    if i < |p.pcbs| {
      assert Owns(p.frames, pid, p.pcbs[i].Held()) && Owns(gs, pid, p.pcbs[i].Held());
      assert f in p.pcbs[i].Held();
    } else {
      assert Owns(p.frames, pid, creating.value.frames) && Owns(gs, pid, creating.value.frames);
      assert f in creating.value.frames;
    }
  }

  /** `Processes::check`: it accepts exactly the consistent states. */
  method Check(p: Procs, images: nat, creating: Option<Creating>) returns (ok: bool)
    requires p.frames.Wide()
    ensures ok <==> Consistent(p, images, creating)
  {
    hide PidsOk, StatesOk, CurrentOk, QueueOk, OwnersOk;
    var good := CheckPcbs(p.pcbs, images);
    if !good {
      return false;
    }
    good := CheckRunning(p.pcbs, images, p.current);
    if !good {
      return false;
    }
    good := CheckQueue(p.pcbs, images, p.queue);
    if !good {
      return false;
    }
    if creating.Some? {
      var k := Find(p.pcbs, creating.value.pid);
      if creating.value.pid == 0 || k < |p.pcbs| || creating.value.pid > images {
        return false;
      }
    }
    var filled, expected := ExpectedOwners(p, images, creating);
    return filled && expected == p.frames.owners;
  }
}
