/** Bounded waiting: a request `k` places deep in its FIFO is forwarded within `(k + 1) * M` grants of its region, where
    `M` is the number of masters. */
module BusWait {
  import opened Words
  import opened Config
  import opened Bus
  import opened BusRun

  /** The grants of region `r` so far. */
  function Grants(b: State, r: nat): nat {
    |Forwarded(b.log, r)|
  }

  /** The grants of region `r` to master `m` so far. */
  function Served(b: State, r: nat, m: nat): nat {
    |GrantedTo(b.log, r, m)|
  }

  /** How far request `k` of master `m` is from its grant. */
  function Ahead(s: Setup, b: State, r: nat, m: nat, k: nat): nat
    requires Shaped(s, b) && r < |b.regions| && m < s.masters
  {
    k * s.masters + Distance(b.regions[r].cursor, m, s.masters)
  }

  /** From `b` to `n` request `k` was forwarded, or it moved up, the same, and each grant of the region brought it nearer. */
  ghost predicate Nearer(s: Setup, b: State, n: State, r: nat, m: nat, k: nat)
    requires Shaped(s, b) && Shaped(s, n) && r < |b.regions| && m < s.masters && k < |b.regions[r].queues[m]|
  {
    && Served(n, r, m) >= Served(b, r, m) && Grants(n, r) >= Grants(b, r)
    && var p, g := Served(n, r, m) - Served(b, r, m), Grants(n, r) - Grants(b, r);
       p <= k ==>
         && k - p < |n.regions[r].queues[m]| && n.regions[r].queues[m][k - p] == b.regions[r].queues[m][k]
         && Ahead(s, n, r, m, k - p) + g <= Ahead(s, b, r, m, k)
  }

  lemma NearerTwice(s: Setup, a: State, b: State, c: State, r: nat, m: nat, k: nat)
    requires Shaped(s, a) && Shaped(s, b) && Shaped(s, c) && r < |a.regions| && m < s.masters && k < |a.regions[r].queues[m]|
    requires Nearer(s, a, b, r, m, k)
    requires var p := Served(b, r, m) - Served(a, r, m); p <= k ==> Nearer(s, b, c, r, m, k - p)
    requires Served(c, r, m) >= Served(b, r, m) && Grants(c, r) >= Grants(b, r)
    ensures Nearer(s, a, c, r, m, k)
  {
    hide Ahead, Served, Grants;
  }

  lemma NearerSame(s: Setup, b: State, r: nat, m: nat, k: nat)
    requires Shaped(s, b) && r < |b.regions| && m < s.masters && k < |b.regions[r].queues[m]|
    ensures Nearer(s, b, b, r, m, k)
  {
  }

  /** An entry that grants nothing on `r` changes no count. */
  lemma QuietEntry(log: seq<Entry>, e: Entry, r: nat, m: nat)
    requires !(e.Granted? && e.region == r)
    ensures GrantedTo(log + [e], r, m) == GrantedTo(log, r, m) && Forwarded(log + [e], r) == Forwarded(log, r)
  {
    LogStep(log, e, r, m);
    IdStep(log, e, r);
  }

  lemma RequestNearer(s: Setup, b: State, a: nat, msg: Msg, r: nat, m: nat, k: nat)
    requires Shaped(s, b) && a < s.masters && Request(s, b, a, msg).Ok? && r < |b.regions| && m < s.masters && k < |b.regions[r].queues[m]|
    ensures Shaped(s, Request(s, b, a, msg).value) && Nearer(s, b, Request(s, b, a, msg).value, r, m, k)
  {
    hide Route, IsLive, GrantedTo, Forwarded, Distance;
    RequestShaped(s, b, a, msg);
    var n := Request(s, b, a, msg).value;
    QuietEntry(b.log, n.log[|b.log|], r, m);
    assert n.log == b.log + [n.log[|b.log|]];
  }

  lemma ResponseNearer(s: Setup, b: State, i: nat, reply: Reply, r: nat, m: nat, k: nat)
    requires Shaped(s, b) && i < |b.regions| && Response(s, b, i, reply).Ok? && r < |b.regions| && m < s.masters && k < |b.regions[r].queues[m]|
    ensures Shaped(s, Response(s, b, i, reply).value) && Nearer(s, b, Response(s, b, i, reply).value, r, m, k)
  {
    hide HasQueued, GrantedTo, Forwarded, Distance;
    var n := Response(s, b, i, reply).value;
    QuietEntry(b.log, n.log[|b.log|], r, m);
    assert n.log == b.log + [n.log[|b.log|]];
  }

  /** Past the master granted, the cursor is nearer every master behind it. */
  lemma CursorMoves(cursor: nat, g: nat, m: nat, masters: nat)
    requires cursor < masters && g < masters && m < masters && Distance(cursor, g, masters) < Distance(cursor, m, masters)
    ensures (g + 1) % masters < masters
    ensures Distance((g + 1) % masters, m, masters) == Distance(cursor, m, masters) - Distance(cursor, g, masters) - 1
  {
    NextCursor(g, masters);
  }

  lemma NextCursor(g: nat, masters: nat)
    requires g < masters
    ensures (g + 1) % masters == if g + 1 < masters then g + 1 else 0
  {
  }

  /** The master just granted is the farthest from the cursor. */
  lemma CursorPasses(m: nat, masters: nat)
    requires m < masters
    ensures (m + 1) % masters < masters && Distance((m + 1) % masters, m, masters) == masters - 1
  {
    NextCursor(m, masters);
  }

  /** A grant on the region itself. */
  lemma GrantNearer(s: Setup, b: State, r: nat, m: nat, k: nat)
    requires s.masters > 0 && Shaped(s, b) && r < |b.regions| && Turn(s, b, r).Ok? && m < s.masters && k < |b.regions[r].queues[m]|
    requires Turn(s, b, r).value != b && Shaped(s, Turn(s, b, r).value)
    ensures Nearer(s, b, Turn(s, b, r).value, r, m, k)
  {
    hide SelectFrom, GrantedTo, Forwarded, Distance;
    var n, g := Turn(s, b, r).value, SelectFrom(b.regions[r], 0).value;
    var e := n.log[|b.log|];
    assert n.log == b.log + [e];
    LogStep(b.log, e, r, m);
    IdStep(b.log, e, r);
    SelectFirst(b.regions[r]);
    if g == m {
      CursorPasses(m, s.masters);
      OneLess(k, s.masters);
    } else {
      DistancesDiffer(b.regions[r].cursor, g, m, s.masters);
      CursorMoves(b.regions[r].cursor, g, m, s.masters);
    }
  }

  lemma OneLess(k: nat, masters: nat)
    ensures k >= 1 ==> (k - 1) * masters + masters == k * masters
  {
  }

  lemma DistancesDiffer(cursor: nat, g: nat, m: nat, masters: nat)
    requires cursor < masters && g < masters && m < masters && g != m
    ensures Distance(cursor, g, masters) != Distance(cursor, m, masters)
  {
  }

  lemma TurnNearer(s: Setup, b: State, i: nat, r: nat, m: nat, k: nat)
    requires s.masters > 0 && Shaped(s, b) && i < |b.regions| && Turn(s, b, i).Ok? && Shaped(s, Turn(s, b, i).value)
    requires r < |b.regions| && m < s.masters && k < |b.regions[r].queues[m]|
    ensures Nearer(s, b, Turn(s, b, i).value, r, m, k)
  {
    hide SelectFrom, GrantedTo, Forwarded, Distance;
    var n := Turn(s, b, i).value;
    if n == b {
      NearerSame(s, b, r, m, k);
    } else if i == r {
      GrantNearer(s, b, r, m, k);
    } else {
      QuietEntry(b.log, n.log[|b.log|], r, m);
      assert n.log == b.log + [n.log[|b.log|]];
    }
  }

  /** Counts never fall. */
  lemma TurnCounts(s: Setup, b: State, i: nat, r: nat, m: nat)
    requires s.masters > 0 && Shaped(s, b) && i < |b.regions| && Turn(s, b, i).Ok?
    ensures Served(Turn(s, b, i).value, r, m) >= Served(b, r, m) && Grants(Turn(s, b, i).value, r) >= Grants(b, r)
  {
    hide SelectFrom, GrantedTo, Forwarded;
    var n := Turn(s, b, i).value;
    if n != b {
      LogStep(b.log, n.log[|b.log|], r, m);
      IdStep(b.log, n.log[|b.log|], r);
      assert n.log == b.log + [n.log[|b.log|]];
    }
  }

  lemma {:induction false} PassNearer(s: Setup, b: State, i: nat, r: nat, m: nat, k: nat)
    requires s.masters > 0 && Shaped(s, b) && i <= |b.regions| && Arbitrate(s, b, i).Ok?
    requires r < |b.regions| && m < s.masters && k < |b.regions[r].queues[m]|
    ensures Nearer(s, b, Arbitrate(s, b, i).value, r, m, k)
  {
    hide Turn, Ahead, Served, Grants;
    if i == 0 {
      NearerSame(s, b, r, m, k);
    } else {
      PassNearer(s, b, i - 1, r, m, k);
      var a := Arbitrate(s, b, i - 1).value;
      TurnShape(s, a, i - 1);
      TurnCounts(s, a, i - 1, r, m);
      var p := Served(a, r, m) - Served(b, r, m);
      if p <= k {
        TurnNearer(s, a, i - 1, r, m, k - p);
      }
      NearerTwice(s, b, a, Turn(s, a, i - 1).value, r, m, k);
    }
  }

  lemma StepNearer(s: Setup, b: State, e: Event, r: nat, m: nat, k: nat)
    requires BusInv(s, b) && Possible(s, b, e) && Step(s, b, e).Ok? && r < |b.regions| && m < s.masters && k < |b.regions[r].queues[m]|
    ensures Shaped(s, Step(s, b, e).value) && Nearer(s, b, Step(s, b, e).value, r, m, k)
  {
    hide Steady, NoLostWake, Request, Response, Arbitrate, Nearer;
    SteadyShaped(s, b);
    match e
    case Asks(a, msg) => RequestNearer(s, b, a, msg, r, m, k);
    case Answers(i, reply) => ResponseNearer(s, b, i, reply, r, m, k);
    case Wakes =>
      var w := b.(wakes := b.wakes - 1);
      PassNearer(s, w, |b.regions|, r, m, k);
      WakesAside(s, b, w, Arbitrate(s, w, |b.regions|).value, r, m, k);
  }

  lemma WakesAside(s: Setup, b: State, w: State, n: State, r: nat, m: nat, k: nat)
    requires Shaped(s, b) && Shaped(s, w) && Shaped(s, n) && w.regions == b.regions && w.log == b.log
    requires r < |b.regions| && m < s.masters && k < |b.regions[r].queues[m]| && Nearer(s, w, n, r, m, k)
    ensures Nearer(s, b, n, r, m, k)
  {
  }

  lemma StepCounts(s: Setup, b: State, e: Event, r: nat, m: nat)
    requires BusInv(s, b) && Possible(s, b, e) && Step(s, b, e).Ok?
    ensures Served(Step(s, b, e).value, r, m) >= Served(b, r, m) && Grants(Step(s, b, e).value, r) >= Grants(b, r)
  {
    hide Steady, NoLostWake, Arbitrate, GrantedTo, Forwarded, Route, IsLive, HasQueued;
    SteadyShaped(s, b);
    var n := Step(s, b, e).value;
    match e
    case Wakes => PassCounts(s, b.(wakes := b.wakes - 1), |b.regions|, r, m);
    case Asks(_, _) =>
      assert n.log == b.log + [n.log[|b.log|]];
      QuietEntry(b.log, n.log[|b.log|], r, m);
    case Answers(_, _) =>
      assert n.log == b.log + [n.log[|b.log|]];
      QuietEntry(b.log, n.log[|b.log|], r, m);
  }

  lemma {:induction false} PassCounts(s: Setup, b: State, i: nat, r: nat, m: nat)
    requires s.masters > 0 && Shaped(s, b) && i <= |b.regions| && Arbitrate(s, b, i).Ok?
    ensures Served(Arbitrate(s, b, i).value, r, m) >= Served(b, r, m) && Grants(Arbitrate(s, b, i).value, r) >= Grants(b, r)
  {
    hide Turn, Served, Grants;
    if i > 0 {
      PassCounts(s, b, i - 1, r, m);
      TurnCounts(s, Arbitrate(s, b, i - 1).value, i - 1, r, m);
    }
  }

  lemma {:induction false} RunNearer(s: Setup, b: State, es: seq<Event>, r: nat, m: nat, k: nat)
    requires BusInv(s, b) && r < |b.regions| && m < s.masters && k < |b.regions[r].queues[m]|
    ensures Run(s, b, es).Some? ==> Shaped(s, Run(s, b, es).value) && Nearer(s, b, Run(s, b, es).value, r, m, k)
  {
    hide Steady, NoLostWake, Step, Ahead, Served, Grants, Possible;
    SteadyShaped(s, b);
    if es == [] {
      NearerSame(s, b, r, m, k);
    } else if Run(s, b, es).Some? {
      var front, e := es[..|es| - 1], es[|es| - 1];
      RunNearer(s, b, front, r, m, k);
      var a := Run(s, b, front).value;
      SteadyShaped(s, Run(s, b, es).value);
      StepCounts(s, a, e, r, m);
      var p := Served(a, r, m) - Served(b, r, m);
      if p <= k {
        StepNearer(s, a, e, r, m, k - p);
      }
      NearerTwice(s, b, a, Step(s, a, e).value, r, m, k);
    }
  }

  /** Bounded waiting, over any run: once its region has made `(k + 1) * M` further grants, the request `k` places deep
      in the FIFO has been forwarded. */
  lemma GrantedInTime(s: Setup, b: State, es: seq<Event>, r: nat, m: nat, k: nat)
    requires BusInv(s, b) && r < |b.regions| && m < s.masters && k < |b.regions[r].queues[m]|
    ensures Run(s, b, es).Some? ==>
      var n := Run(s, b, es).value;
      Grants(n, r) >= Grants(b, r) + (k + 1) * s.masters ==> Served(n, r, m) > Served(b, r, m) + k
  {
    hide Steady, NoLostWake, Run, Served, Grants, Distance;
    SteadyShaped(s, b);
    RunNearer(s, b, es, r, m, k);
    AtMost(k, s.masters);
  }

  lemma AtMost(k: nat, masters: nat)
    ensures k * masters + masters == (k + 1) * masters
  {
  }

  /** A wake leaves no idle region waiting: each one that was has now forwarded a request. */
  lemma WakeServes(s: Setup, b: State, r: nat)
    requires BusInv(s, b) && b.wakes > 0 && Wake(s, b).Ok? && r < |b.regions|
    ensures var n := Wake(s, b).value; |n.regions| == |b.regions| && !Waiting(n.regions[r])
  {
    hide Steady, Waiting, Arbitrate;
    SteadyShaped(s, b);
    FewerWakes(s, b, b.wakes - 1);
    PassKeeps(s, b.(wakes := b.wakes - 1), |b.regions|);
  }
}
