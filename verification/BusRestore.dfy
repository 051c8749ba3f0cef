/** The bus's snapshot check (`restore` of components/platform/src/mmbus.rs): its loops decide a predicate that every state a
    run reaches satisfies, so that every snapshot restores to the state it was taken from. */
module BusRestore {
  import opened Words
  import opened Config
  import opened Bus
  import opened BusRun

  // ----- What `restore` accepts -----

  /** A request in the FIFO of a region: not empty, and inside it. */
  predicate InWindow(w: Window, m: Msg) {
    m.Len() > 0 && m.addr + m.Len() - 1 < w.size
  }

  predicate QueueInside(w: Window, q: seq<Msg>) {
    forall i :: 0 <= i < |q| ==> InWindow(w, q[i])
  }

  /** What can be checked within one region. */
  predicate RegionOk(masters: nat, w: Window, next: Long, r: Region) {
    && (r.active.Some? ==> r.active.value.master < masters && r.active.value.downstream < next)
    && r.cursor < masters && forall m :: 0 <= m < |r.queues| ==> QueueInside(w, r.queues[m])
  }

  /** The transactions of a queue of master `m`. */
  function QueuePairs(q: seq<Msg>, m: nat): set<(nat, Long)> {
    set i | 0 <= i < |q| :: (m, q[i].txn)
  }

  function ActivePairs(r: Region): set<(nat, Long)> {
    if r.active.Some? then {(r.active.value.master, r.active.value.original)} else {}
  }

  /** The live transactions of the active one and the first `n` queues. */
  function PairsUpTo(r: Region, n: nat): set<(nat, Long)>
    requires n <= |r.queues|
  {
    if n == 0 then ActivePairs(r) else PairsUpTo(r, n - 1) + QueuePairs(r.queues[n - 1], n - 1)
  }

  function Pairs(r: Region): set<(nat, Long)> {
    PairsUpTo(r, |r.queues|)
  }

  predicate QueueDistinct(q: seq<Msg>) {
    forall i, j :: 0 <= i < j < |q| ==> q[i].txn != q[j].txn
  }

  /** No transaction is live twice in the region. */
  predicate RegionDistinct(r: Region) {
    forall m :: 0 <= m < |r.queues| ==> QueueDistinct(r.queues[m]) && (r.active.Some? ==> (r.active.value.master, r.active.value.original) !in QueuePairs(r.queues[m], m))
  }

  /** The live transactions of the first `n` regions. */
  function LiveUpTo(regions: seq<Region>, n: nat): set<(nat, Long)>
    requires n <= |regions|
  {
    if n == 0 then {} else LiveUpTo(regions, n - 1) + Pairs(regions[n - 1])
  }

  function DownUpTo(regions: seq<Region>, n: nat): set<Long>
    requires n <= |regions|
  {
    if n == 0 then {}
    else DownUpTo(regions, n - 1) + if regions[n - 1].active.Some? then {regions[n - 1].active.value.downstream} else {}
  }

  /** What `restore` accepts of the first `n` regions together. */
  predicate ApartUpTo(regions: seq<Region>, n: nat)
    requires n <= |regions|
  {
    n == 0 ||
    (&& ApartUpTo(regions, n - 1) && RegionDistinct(regions[n - 1]) && Pairs(regions[n - 1]) !! LiveUpTo(regions, n - 1)
     && (regions[n - 1].active.Some? ==> regions[n - 1].active.value.downstream !in DownUpTo(regions, n - 1)))
  }

  predicate RestoreOk(s: Setup, regions: seq<Region>, next: Long) {
    && |regions| == |s.windows|
    && (forall r :: 0 <= r < |regions| ==> |regions[r].queues| == s.masters && RegionOk(s.masters, s.windows[r], next, regions[r]))
    && ApartUpTo(regions, |regions|)
  }

  // ----- The loops -----

  method CheckQueue(w: Window, q: seq<Msg>) returns (ok: bool)
    ensures ok <==> QueueInside(w, q)
  {
    for i := 0 to |q|
      invariant forall j :: 0 <= j < i ==> InWindow(w, q[j])
    {
      if !InWindow(w, q[i]) {
        return false;
      }
    }
    return true;
  }

  /** `read_region`. */
  method CheckRegion(masters: nat, w: Window, next: Long, r: Region) returns (ok: bool)
    ensures ok <==> RegionOk(masters, w, next, r)
  {
    hide QueueInside;
    if r.active.Some? && (r.active.value.master >= masters || r.active.value.downstream >= next) {
      return false;
    }
    if r.cursor >= masters {
      return false;
    }
    for m := 0 to |r.queues|
      invariant forall j :: 0 <= j < m ==> QueueInside(w, r.queues[j])
    {
      var good := CheckQueue(w, r.queues[m]);
      if !good {
        return false;
      }
    }
    return true;
  }

  /** Inserts the transactions of a queue; an insertion that finds one already live fails. */
  method InsertQueue(q: seq<Msg>, m: nat, live: set<(nat, Long)>) returns (ok: bool, all: set<(nat, Long)>)
    ensures ok <==> QueueDistinct(q) && QueuePairs(q, m) !! live
    ensures ok ==> all == live + QueuePairs(q, m)
  {
    all := live;
    assert QueuePairs(q[..0], m) == {};
    for i := 0 to |q|
      invariant QueueDistinct(q[..i]) && QueuePairs(q[..i], m) !! live && all == live + QueuePairs(q[..i], m)
    {
      PairsMore(q, i, m);
      if (m, q[i].txn) in all {
        RepeatedPair(q, i, m, live);
        return false, all;
      }
      all := all + {(m, q[i].txn)};
      DistinctMore(q, i, m);
    }
    assert q[..|q|] == q;
    return true, all;
  }

  lemma PairsMore(q: seq<Msg>, i: nat, m: nat)
    requires i < |q|
    ensures QueuePairs(q[..i + 1], m) == QueuePairs(q[..i], m) + {(m, q[i].txn)}
    ensures QueuePairs(q[..i + 1], m) <= QueuePairs(q, m)
  {
    var a, b := q[..i + 1], q[..i];
    forall p ensures p in QueuePairs(a, m) <==> p in QueuePairs(b, m) + {(m, q[i].txn)} {
      if p in QueuePairs(a, m) {
        var k :| 0 <= k < |a| && p == (m, a[k].txn);
        assert k < i ==> b[k] == a[k];
      }
      if p in QueuePairs(b, m) {
        var k :| 0 <= k < |b| && p == (m, b[k].txn);
        assert a[k] == b[k];
      }
      assert a[i] == q[i];
    }
    forall p | p in QueuePairs(a, m) ensures p in QueuePairs(q, m) {
      var k :| 0 <= k < |a| && p == (m, a[k].txn);
      assert q[k] == a[k];
    }
  }

  lemma RepeatedPair(q: seq<Msg>, i: nat, m: nat, live: set<(nat, Long)>)
    requires i < |q| && (m, q[i].txn) in live + QueuePairs(q[..i], m)
    ensures !(QueueDistinct(q) && QueuePairs(q, m) !! live)
  {
    assert (m, q[i].txn) in QueuePairs(q, m);
    if (m, q[i].txn) in QueuePairs(q[..i], m) {
      var k :| 0 <= k < |q[..i]| && (m, q[i].txn) == (m, q[..i][k].txn);
      assert q[k].txn == q[i].txn;
    }
  }

  lemma DistinctMore(q: seq<Msg>, i: nat, m: nat)
    requires i < |q| && QueueDistinct(q[..i]) && (m, q[i].txn) !in QueuePairs(q[..i], m)
    ensures QueueDistinct(q[..i + 1])
  {
    forall k | 0 <= k < i ensures q[k].txn != q[i].txn {
      assert (m, q[..i][k].txn) in QueuePairs(q[..i], m);
    }
  }

  /** Inserts the transactions of a region. */
  method InsertRegion(r: Region, live: set<(nat, Long)>) returns (ok: bool, all: set<(nat, Long)>)
    ensures ok <==> RegionDistinct(r) && Pairs(r) !! live
    ensures ok ==> all == live + Pairs(r)
  {
    hide QueueDistinct, QueuePairs;
    all := live;
    if r.active.Some? {
      var pair := (r.active.value.master, r.active.value.original);
      if pair in live {
        PairsGrow(r, 0);
        return false, all;
      }
      all := all + {pair};
    }
    for m := 0 to |r.queues|
      invariant all == live + PairsUpTo(r, m) && PairsUpTo(r, m) !! live
      invariant forall j :: 0 <= j < m ==> QueueDistinct(r.queues[j]) && QueuePairs(r.queues[j], j) !! ActivePairs(r)
    {
      PairsGrow(r, m + 1);
      OtherMasters(r, m);
      ActiveIn(r, m);
      var good, more := InsertQueue(r.queues[m], m, all);
      if !good {
        return false, all;
      }
      all := more;
    }
    return true, all;
  }

  lemma {:induction false} PairsGrow(r: Region, n: nat)
    requires n <= |r.queues|
    ensures PairsUpTo(r, n) <= Pairs(r)
    decreases |r.queues| - n
  {
    hide QueuePairs;
    if n < |r.queues| {
      PairsGrow(r, n + 1);
    }
  }

  /** Different masters' transactions differ, so that a queue can only meet the active one. */
  lemma {:induction false} OtherMasters(r: Region, n: nat)
    requires n < |r.queues|
    ensures QueuePairs(r.queues[n], n) !! PairsUpTo(r, n) <==> QueuePairs(r.queues[n], n) !! ActivePairs(r)
  {
    FirstBelow(r, n);
    ActiveIn(r, n);
  }

  lemma {:induction false} FirstBelow(r: Region, n: nat)
    requires n <= |r.queues|
    ensures forall p :: p in PairsUpTo(r, n) ==> p in ActivePairs(r) || p.0 < n
  {
    if n > 0 {
      FirstBelow(r, n - 1);
    }
  }

  lemma {:induction false} ActiveIn(r: Region, n: nat)
    requires n <= |r.queues|
    ensures ActivePairs(r) <= PairsUpTo(r, n)
  {
    hide QueuePairs;
    if n > 0 {
      ActiveIn(r, n - 1);
    }
  }

  /** The checks over all regions. */
  method CheckSnapshot(s: Setup, regions: seq<Region>, next: Long) returns (ok: bool)
    requires |regions| == |s.windows| && forall r :: 0 <= r < |regions| ==> |regions[r].queues| == s.masters
    ensures ok <==> RestoreOk(s, regions, next)
  {
    hide RegionOk, RegionDistinct, Pairs;
    for r := 0 to |regions|
      invariant forall j :: 0 <= j < r ==> RegionOk(s.masters, s.windows[j], next, regions[j])
    {
      var good := CheckRegion(s.masters, s.windows[r], next, regions[r]);
      if !good {
        return false;
      }
    }
    var live: set<(nat, Long)> := {};
    var downstream: set<Long> := {};
    for r := 0 to |regions|
      invariant live == LiveUpTo(regions, r) && downstream == DownUpTo(regions, r) && ApartUpTo(regions, r)
    {
      var good, more := InsertRegion(regions[r], live);
      if !good || (regions[r].active.Some? && regions[r].active.value.downstream in downstream) {
        NotApart(regions, r + 1, |regions|);
        return false;
      }
      live := more;
      if regions[r].active.Some? {
        downstream := downstream + {regions[r].active.value.downstream};
      }
    }
    return true;
  }

  lemma {:induction false} NotApart(regions: seq<Region>, i: nat, n: nat)
    requires i <= n <= |regions| && !ApartUpTo(regions, i)
    ensures !ApartUpTo(regions, n)
  {
    if i < n {
      NotApart(regions, i, n - 1);
    }
  }

  // ----- Every state a run reaches -----

  /** Every queued request is inside its region. */
  ghost predicate QueuesInside(s: Setup, regions: seq<Region>)
    requires |regions| == |s.windows|
  {
    forall r, m :: 0 <= r < |regions| && 0 <= m < |regions[r].queues| ==> QueueInside(s.windows[r], regions[r].queues[m])
  }

  lemma RequestInside(s: Setup, b: State, m: nat, msg: Msg)
    requires Shaped(s, b) && QueuesInside(s, b.regions) && m < s.masters && Request(s, b, m, msg).Ok?
    ensures |Request(s, b, m, msg).value.regions| == |s.windows| && QueuesInside(s, Request(s, b, m, msg).value.regions)
  {
    hide IsLive, WindowOf;
    var n := Request(s, b, m, msg).value;
    if Route(s, msg).Some? {
      var r := Route(s, msg).value;
      var q := b.regions[r].queues[m];
      assert QueueInside(s.windows[r], q);
    }
  }

  lemma TurnInside(s: Setup, b: State, i: nat)
    requires s.masters > 0 && Shaped(s, b) && QueuesInside(s, b.regions) && i < |b.regions| && Turn(s, b, i).Ok?
    ensures |Turn(s, b, i).value.regions| == |s.windows| && QueuesInside(s, Turn(s, b, i).value.regions)
  {
    hide SelectFrom;
    var n := Turn(s, b, i).value;
    if n != b {
      var m := SelectFrom(b.regions[i], 0).value;
      assert QueueInside(s.windows[i], b.regions[i].queues[m]);
      assert QueueInside(s.windows[i], b.regions[i].queues[m][1..]);
    }
  }

  lemma {:induction false} PassInside(s: Setup, b: State, i: nat)
    requires s.masters > 0 && Shaped(s, b) && QueuesInside(s, b.regions) && i <= |b.regions| && Arbitrate(s, b, i).Ok?
    ensures QueuesInside(s, Arbitrate(s, b, i).value.regions)
  {
    hide QueuesInside, Turn;
    if i > 0 {
      PassInside(s, b, i - 1);
      TurnInside(s, Arbitrate(s, b, i - 1).value, i - 1);
    }
  }

  lemma StepInside(s: Setup, b: State, e: Event)
    requires BusInv(s, b) && QueuesInside(s, b.regions) && Possible(s, b, e) && Step(s, b, e).Ok?
    ensures |Step(s, b, e).value.regions| == |s.windows| && QueuesInside(s, Step(s, b, e).value.regions)
  {
    hide Fifo, OnceEach, UniqueLive, DownstreamOk, Request, Arbitrate, NoLostWake;
    match e
    case Asks(m, msg) => RequestInside(s, b, m, msg);
    case Wakes => PassInside(s, b.(wakes := b.wakes - 1), |b.regions|);
    case Answers(r, reply) =>
  }

  lemma {:induction false} RunInside(s: Setup, es: seq<Event>)
    requires s.Valid() && BusInv(s, Fresh(s))
    ensures Run(s, Fresh(s), es).Some? ==>
      |Run(s, Fresh(s), es).value.regions| == |s.windows| && QueuesInside(s, Run(s, Fresh(s), es).value.regions)
  {
    hide BusInv, QueuesInside, Step, Possible;
    if es == [] {
      FreshInside(s);
    } else {
      RunInside(s, es[..|es| - 1]);
      if Run(s, Fresh(s), es).Some? {
        StepInside(s, Run(s, Fresh(s), es[..|es| - 1]).value, es[|es| - 1]);
      }
    }
  }

  lemma FreshInside(s: Setup)
    ensures |Fresh(s).regions| == |s.windows| && QueuesInside(s, Fresh(s).regions)
  {
  }

  /** A transaction of a region is live at a place in it. */
  lemma {:induction false} PairLives(s: Setup, b: State, r: nat, n: nat, p: (nat, Long)) returns (i: int)
    requires Shaped(s, b) && r < |b.regions| && n <= s.masters && p in PairsUpTo(b.regions[r], n)
    ensures p.0 < s.masters && LiveAt(s, b, p.0, r, i, p.1)
  {
    if n == 0 {
      i := -1;
    } else if p in PairsUpTo(b.regions[r], n - 1) {
      i := PairLives(s, b, r, n - 1, p);
    } else {
      i :| 0 <= i < |b.regions[r].queues[n - 1]| && p == (n - 1, b.regions[r].queues[n - 1][i].txn);
    }
  }

  lemma DistinctOk(s: Setup, b: State, r: nat)
    requires Shaped(s, b) && UniqueLive(s, b) && r < |b.regions|
    ensures RegionDistinct(b.regions[r])
  {
    var region := b.regions[r];
    forall m | 0 <= m < |region.queues|
      ensures QueueDistinct(region.queues[m]) && (region.active.Some? ==> (region.active.value.master, region.active.value.original) !in QueuePairs(region.queues[m], m))
    {
      var q := region.queues[m];
      forall i, j | 0 <= i < j < |q| ensures q[i].txn != q[j].txn {
        if q[i].txn == q[j].txn {
          assert LiveAt(s, b, m, r, i, q[i].txn) && LiveAt(s, b, m, r, j, q[i].txn);
        }
      }
      if region.active.Some? && (region.active.value.master, region.active.value.original) in QueuePairs(q, m) {
        var i :| 0 <= i < |q| && (region.active.value.master, region.active.value.original) == (m, q[i].txn);
        assert LiveAt(s, b, m, r, i, q[i].txn) && LiveAt(s, b, m, r, -1, q[i].txn);
      }
    }
  }

  lemma {:induction false} LiveFrom(s: Setup, b: State, n: nat, p: (nat, Long)) returns (r: nat, i: int)
    requires Shaped(s, b) && n <= |b.regions| && p in LiveUpTo(b.regions, n)
    ensures r < n && p.0 < s.masters && LiveAt(s, b, p.0, r, i, p.1)
  {
    hide PairsUpTo;
    if p in LiveUpTo(b.regions, n - 1) {
      r, i := LiveFrom(s, b, n - 1, p);
    } else {
      r := n - 1;
      i := PairLives(s, b, n - 1, s.masters, p);
    }
  }

  lemma {:induction false} DownFrom(regions: seq<Region>, n: nat, d: Long) returns (r: nat)
    requires n <= |regions| && d in DownUpTo(regions, n)
    ensures r < n && regions[r].active.Some? && regions[r].active.value.downstream == d
  {
    if d in DownUpTo(regions, n - 1) {
      r := DownFrom(regions, n - 1, d);
    } else {
      r := n - 1;
    }
  }

  lemma {:induction false} ApartOk(s: Setup, b: State, n: nat)
    requires Shaped(s, b) && UniqueLive(s, b) && DownstreamOk(s, b) && n <= |b.regions|
    ensures ApartUpTo(b.regions, n)
  {
    hide RegionDistinct, PairsUpTo, LiveAt, Downstreams;
    if n > 0 {
      ApartOk(s, b, n - 1);
      DistinctOk(s, b, n - 1);
      var mine, others := Pairs(b.regions[n - 1]), LiveUpTo(b.regions, n - 1);
      forall p | p in mine ensures p !in others {
        if p in others {
          var r, i := LiveFrom(s, b, n - 1, p);
          var j := PairLives(s, b, n - 1, s.masters, p);
        }
      }
      if b.regions[n - 1].active.Some? && b.regions[n - 1].active.value.downstream in DownUpTo(b.regions, n - 1) {
        var r := DownFrom(b.regions, n - 1, b.regions[n - 1].active.value.downstream);
      }
    }
  }

  /** Every state a run reaches passes the check its snapshot is restored with. */
  lemma EveryStateRestores(s: Setup, es: seq<Event>)
    requires s.Valid()
    ensures BusInv(s, Fresh(s))
    ensures Run(s, Fresh(s), es).Some? ==>
      var n := Run(s, Fresh(s), es).value; RestoreOk(s, n.regions, n.next)
  {
    hide Run, Fifo, OnceEach, UniqueLive, ApartUpTo, Downstreams, NoLostWake;
    FreshInv(s);
    RunInside(s, es);
    if Run(s, Fresh(s), es).Some? {
      var n := Run(s, Fresh(s), es).value;
      ApartOk(s, n, |n.regions|);
    }
  }
}
