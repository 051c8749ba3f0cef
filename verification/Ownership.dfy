/** Frame conservation: in every consistent state the free frames, the processes' frames and the frames of a creation
    in flight make up the pool. */
module Ownership {
  import opened Words
  import opened Processes

  function Count(owners: seq<Word>, v: Word): nat {
    multiset(owners)[v]
  }

  function CountAll(owners: seq<Word>, vs: seq<Word>): nat {
    if vs == [] then 0 else CountAll(owners, vs[..|vs| - 1]) + Count(owners, vs[|vs| - 1])
  }

  lemma CountStep(owners: seq<Word>, v: Word)
    requires owners != []
    ensures Count(owners, v) == Count(owners[..|owners| - 1], v) + if owners[|owners| - 1] == v then 1 else 0
  {
    assert owners == owners[..|owners| - 1] + [owners[|owners| - 1]];
  }

  /** Dropping the last owner lowers the count of the list that names it by one. */
  lemma {:induction false} CountAllStep(owners: seq<Word>, vs: seq<Word>)
    requires owners != [] && NoDup(vs)
    ensures CountAll(owners, vs) == CountAll(owners[..|owners| - 1], vs) + if owners[|owners| - 1] in vs then 1 else 0
  {
    hide Count;
    if vs != [] {
      var n := |vs| - 1;
      CountAllStep(owners, vs[..n]);
      CountStep(owners, vs[n]);
      assert vs == vs[..n] + [vs[n]];
      assert vs[n] !in vs[..n];
    }
  }

  lemma {:induction false} CountNone(vs: seq<Word>)
    ensures CountAll([], vs) == 0
  {
    if vs != [] {
      CountNone(vs[..|vs| - 1]);
    }
  }

  /** Distinct values that cover a list count it once each. */
  lemma {:induction false} CountCovers(owners: seq<Word>, vs: seq<Word>)
    requires NoDup(vs) && forall i :: 0 <= i < |owners| ==> owners[i] in vs
    ensures CountAll(owners, vs) == |owners|
  {
    hide NoDup, CountAll;
    if owners == [] {
      CountNone(vs);
    } else {
      CountCovers(owners[..|owners| - 1], vs);
      CountAllStep(owners, vs);
    }
  }

  lemma {:induction false} OwnedCount(fs: Frames, pid: Word, i: nat)
    requires fs.Wide() && i <= |fs.owners|
    ensures |OwnedFrom(fs, pid, i)| == Count(fs.owners[i..], pid)
    decreases |fs.owners| - i
  {
    if i < |fs.owners| {
      OwnedCount(fs, pid, i + 1);
      assert fs.owners[i..] == [fs.owners[i]] + fs.owners[i + 1..];
    }
  }

  /** A list that owns exactly the frames of `pid` is as long as `pid` has frames. */
  lemma HeldCount(fs: Frames, pid: Word, held: seq<Word>)
    requires fs.Wide() && Owns(fs, pid, held)
    ensures |held| == Count(fs.owners, pid)
  {
    hide OwnedBy, Owns, Count;
    OwnedCount(fs, pid, 0);
    assert fs.owners[0..] == fs.owners;
    SameLength(fs, pid, held);
  }

  lemma SameLength(fs: Frames, pid: Word, held: seq<Word>)
    requires fs.Wide() && Owns(fs, pid, held)
    ensures |held| == |OwnedBy(fs, pid)| && OwnedBy(fs, pid) == OwnedFrom(fs, pid, 0)
  {
    var owned := OwnedBy(fs, pid);
    AsSet(held);
    AsSet(owned);
    assert Elements(held) == Elements(owned);
  }

  function Elements(s: seq<Word>): (r: set<Word>)
    ensures forall x :: x in r <==> x in s
  {
    set x | x in s
  }

  lemma {:induction false} AsSet(s: seq<Word>)
    requires NoDup(s)
    ensures |Elements(s)| == |s|
  {
    hide Elements;
    if s == [] {
      assert Elements(s) == {};
    } else {
      var n := |s| - 1;
      var front := s[..n];
      AsSet(front);
      assert s == front + [s[n]];
      assert s[n] !in Elements(front);
      assert Elements(s) == Elements(front) + {s[n]};
    }
  }

  /** The frames the first `n` processes hold. */
  function HeldTotal(pcbs: seq<Pcb>, n: nat): nat
    requires n <= |pcbs|
  {
    if n == 0 then 0 else HeldTotal(pcbs, n - 1) + |pcbs[n - 1].Held()|
  }

  function Pids(pcbs: seq<Pcb>, n: nat): (vs: seq<Word>)
    requires n <= |pcbs|
    ensures |vs| == n && forall i :: 0 <= i < n ==> vs[i] == pcbs[i].pid
  {
    seq<Word>(n, i requires 0 <= i < n => pcbs[i].pid)
  }

  lemma {:induction false} HeldIsCount(p: Procs, n: nat)
    requires p.frames.Wide() && n <= |p.pcbs|
    requires forall i :: 0 <= i < |p.pcbs| ==> Owns(p.frames, p.pcbs[i].pid, p.pcbs[i].Held())
    ensures HeldTotal(p.pcbs, n) == CountAll(p.frames.owners, Pids(p.pcbs, n))
  {
    hide Owns, Pcb.Held, Count;
    if n > 0 {
      HeldIsCount(p, n - 1);
      HeldCount(p.frames, p.pcbs[n - 1].pid, p.pcbs[n - 1].Held());
      assert Pids(p.pcbs, n)[..n - 1] == Pids(p.pcbs, n - 1);
    }
  }

  lemma CountAppend(owners: seq<Word>, vs: seq<Word>, v: Word)
    ensures CountAll(owners, vs + [v]) == CountAll(owners, vs) + Count(owners, v)
  {
    assert (vs + [v])[..|vs|] == vs;
  }

  /** The owners a consistent state may name: 0, the processes and the creation. */
  function Names(p: Procs, creating: Option<Creating>): seq<Word> {
    Pids(p.pcbs, |p.pcbs|) + [0] + if creating.Some? then [creating.value.pid] else []
  }

  lemma NamesCover(p: Procs, images: nat, creating: Option<Creating>)
    requires Consistent(p, images, creating)
    ensures NoDup(Names(p, creating)) && forall i :: 0 <= i < |p.frames.owners| ==> p.frames.owners[i] in Names(p, creating)
  {
    hide Owns, Pcb.Held, IndexOf, QueueOk, CurrentOk, StatesOk;
    var vs, pids := Names(p, creating), Pids(p.pcbs, |p.pcbs|);
    forall i | 0 <= i < |p.frames.owners| ensures p.frames.owners[i] in vs {
      var o := p.frames.owners[i];
      var k := IndexOf(p.pcbs, o);
      if o != 0 && k < |p.pcbs| {
        assert pids[k] == o;
      }
    }
  }

  /** Free plus owned is the pool. */
  lemma Conserved(p: Procs, images: nat, creating: Option<Creating>)
    requires Consistent(p, images, creating)
    ensures FreeCount(p.frames) + HeldTotal(p.pcbs, |p.pcbs|) + (if creating.Some? then |creating.value.frames| else 0)
         == |p.frames.owners|
  {
    hide Owns, Pcb.Held, IndexOf, QueueOk, CurrentOk, StatesOk, PidsOk, CountAll, Count, HeldTotal;
    var owners, pids := p.frames.owners, Pids(p.pcbs, |p.pcbs|);
    NamesCover(p, images, creating);
    CountCovers(owners, Names(p, creating));
    HeldIsCount(p, |p.pcbs|);
    OwnedCount(p.frames, 0, 0);
    assert owners[0..] == owners;
    CountAppend(owners, pids, 0);
    if creating.Some? {
      CountAppend(owners, pids + [0], creating.value.pid);
      HeldCount(p.frames, creating.value.pid, creating.value.frames);
    } else {
      assert Names(p, creating) == pids + [0];
    }
  }
}
