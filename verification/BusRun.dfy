/** Every run of the bus: what every event keeps. */
module BusRun {
  import opened Words
  import opened Config
  import opened Bus

  datatype Event = Asks(master: nat, msg: Msg) | Wakes | Answers(region: nat, reply: Reply)

  /** A request comes from a configured master, a wake only when one is pending, a response on a region's port. */
  predicate Possible(s: Setup, b: State, e: Event) {
    match e
    case Asks(m, _) => m < s.masters
    case Wakes => b.wakes > 0
    case Answers(r, _) => r < |b.regions|
  }

  function Step(s: Setup, b: State, e: Event): Result<State, Fault>
    requires s.masters > 0 && Shaped(s, b) && Possible(s, b, e)
  {
    match e
    case Asks(m, msg) => Request(s, b, m, msg)
    case Wakes => Wake(s, b)
    case Answers(r, reply) => Response(s, b, r, reply)
  }

  // ----- The history by region and master -----

  /** The requests routed to region `r` for master `m`. */
  function RoutedTo(log: seq<Entry>, r: nat, m: nat): seq<Msg> {
    if log == [] then []
    else
      var e := log[|log| - 1];
      RoutedTo(log[..|log| - 1], r, m) + if e.Routed? && e.region == r && e.master == m then [e.msg] else []
  }

  /** The requests of master `m` forwarded on region `r`. */
  function GrantedTo(log: seq<Entry>, r: nat, m: nat): seq<Msg> {
    if log == [] then []
    else
      var e := log[|log| - 1];
      GrantedTo(log[..|log| - 1], r, m) + if e.Granted? && e.region == r && e.master == m then [e.msg] else []
  }

  /** A forwarded transaction: its master, the master's `txn` and the downstream one. */
  datatype Id = Id(master: nat, original: Long, downstream: Long)

  /** The transactions forwarded on region `r`. */
  function Forwarded(log: seq<Entry>, r: nat): seq<Id> {
    if log == [] then []
    else
      var e := log[|log| - 1];
      Forwarded(log[..|log| - 1], r) + if e.Granted? && e.region == r then [Id(e.master, e.msg.txn, e.downstream)] else []
  }

  /** The transactions of region `r` relayed back: to whom, under which `txn`. */
  function Relays(log: seq<Entry>, r: nat): seq<Id> {
    if log == [] then []
    else
      var e := log[|log| - 1];
      Relays(log[..|log| - 1], r) + if e.Relayed? && e.region == r then [Id(e.master, e.reply.txn, e.downstream)] else []
  }

  /** The downstream transactions of all regions, in the order they were forwarded. */
  function Downstreams(log: seq<Entry>): seq<Long> {
    if log == [] then []
    else
      var e := log[|log| - 1];
      Downstreams(log[..|log| - 1]) + if e.Granted? then [e.downstream] else []
  }

  function ActiveId(r: Region): seq<Id> {
    if r.active.Some? then [Id(r.active.value.master, r.active.value.original, r.active.value.downstream)] else []
  }

  // ----- Invariants -----

  /** Each FIFO holds the requests routed to it that are not yet forwarded, in arrival order. */
  ghost predicate Fifo(s: Setup, b: State)
    requires Shaped(s, b)
  {
    forall r, m :: 0 <= r < |b.regions| && 0 <= m < s.masters ==>
      RoutedTo(b.log, r, m) == GrantedTo(b.log, r, m) + b.regions[r].queues[m]
  }

  /** Every forwarded transaction is relayed back, once, to its master under its original `txn`, except the active one. */
  ghost predicate OnceEach(s: Setup, b: State)
    requires Shaped(s, b)
  {
    forall r :: 0 <= r < |b.regions| ==> Forwarded(b.log, r) == Relays(b.log, r) + ActiveId(b.regions[r])
  }

  /** The downstream transactions forwarded so far strictly increase and are below the counter, so that each is used
      once, and two active ones differ. */
  ghost predicate DownstreamOk(s: Setup, b: State)
    requires Shaped(s, b)
  {
    && Ascending(Downstreams(b.log)) && (forall i :: 0 <= i < |Downstreams(b.log)| ==> Downstreams(b.log)[i] < b.next)
    && (forall r :: 0 <= r < |b.regions| && b.regions[r].active.Some? ==> b.regions[r].active.value.downstream < b.next)
    && (forall r, q :: 0 <= r < q < |b.regions| && b.regions[r].active.Some? && b.regions[q].active.Some?
         ==> b.regions[r].active.value.downstream != b.regions[q].active.value.downstream)
  }

  /** An idle region with a queued request has an arbitration wake coming. */
  predicate NoLostWake(b: State) {
    (exists r :: 0 <= r < |b.regions| && Waiting(b.regions[r])) ==> b.wakes > 0
  }

  predicate Waiting(r: Region) {
    r.active.None? && HasQueued(r)
  }

  /** The place of a live request of master `m`: a position in a FIFO, or -1 for the active transaction. */
  ghost predicate LiveAt(s: Setup, b: State, m: nat, r: nat, i: int, txn: Long)
    requires Shaped(s, b) && m < s.masters
  {
    && r < |b.regions| && -1 <= i < |b.regions[r].queues[m]|
    && if i == -1 then b.regions[r].active.Some? && b.regions[r].active.value.master == m && b.regions[r].active.value.original == txn
       else b.regions[r].queues[m][i].txn == txn
  }

  /** No master has one `txn` live twice. */
  ghost predicate UniqueLive(s: Setup, b: State)
    requires Shaped(s, b)
  {
    forall m: nat, r: nat, q: nat, i, j, t :: m < s.masters && LiveAt(s, b, m, r, i, t) && LiveAt(s, b, m, q, j, t) ==> r == q && i == j
  }

  ghost predicate Steady(s: Setup, b: State) {
    s.Valid() && Shaped(s, b) && Fifo(s, b) && OnceEach(s, b) && DownstreamOk(s, b) && UniqueLive(s, b)
  }

  ghost predicate BusInv(s: Setup, b: State) {
    Steady(s, b) && NoLostWake(b)
  }

  /** The bus as `new` makes it. */
  function Fresh(s: Setup): State {
    State(seq(|s.windows|, _ => Region(None, seq(s.masters, _ => []), 0)), 0, 0, [])
  }

  lemma FreshInv(s: Setup)
    requires s.Valid()
    ensures BusInv(s, Fresh(s))
  {
  }

  // ----- The log grows -----

  lemma LogStep(log: seq<Entry>, e: Entry, r: nat, m: nat)
    ensures RoutedTo(log + [e], r, m) == RoutedTo(log, r, m) + if e.Routed? && e.region == r && e.master == m then [e.msg] else []
    ensures GrantedTo(log + [e], r, m) == GrantedTo(log, r, m) + if e.Granted? && e.region == r && e.master == m then [e.msg] else []
  {
    assert (log + [e])[..|log|] == log;
  }

  lemma IdStep(log: seq<Entry>, e: Entry, r: nat)
    ensures Forwarded(log + [e], r) == Forwarded(log, r) + if e.Granted? && e.region == r then [Id(e.master, e.msg.txn, e.downstream)] else []
    ensures Relays(log + [e], r) == Relays(log, r) + if e.Relayed? && e.region == r then [Id(e.master, e.reply.txn, e.downstream)] else []
  {
    assert (log + [e])[..|log|] == log;
  }

  lemma DownstreamStep(log: seq<Entry>, e: Entry)
    ensures Downstreams(log + [e]) == Downstreams(log) + if e.Granted? then [e.downstream] else []
  {
    assert (log + [e])[..|log|] == log;
  }

  // ----- Requests -----

  lemma RequestKeeps(s: Setup, b: State, m: nat, msg: Msg)
    requires BusInv(s, b) && m < s.masters && Request(s, b, m, msg).Ok?
    ensures BusInv(s, Request(s, b, m, msg).value)
  {
    hide Fifo, OnceEach, UniqueLive, DownstreamOk, Route, IsLive, HasQueued;
    var n := Request(s, b, m, msg).value;
    RequestLogs(s, b, m, msg);
    RequestUnique(s, b, m, msg);
    RequestDownstream(s, b, m, msg);
    assert NoLostWake(n);
  }

  lemma RequestDownstream(s: Setup, b: State, m: nat, msg: Msg)
    requires Shaped(s, b) && DownstreamOk(s, b) && m < s.masters && Request(s, b, m, msg).Ok?
    ensures var n := Request(s, b, m, msg).value; Shaped(s, n) && DownstreamOk(s, n)
  {
    hide Route, IsLive, Downstreams;
    var n := Request(s, b, m, msg).value;
    DownstreamStep(b.log, n.log[|b.log|]);
    assert n.log == b.log + [n.log[|b.log|]];
  }

  lemma RequestLogs(s: Setup, b: State, m: nat, msg: Msg)
    requires Shaped(s, b) && Fifo(s, b) && OnceEach(s, b) && m < s.masters && Request(s, b, m, msg).Ok?
    ensures var n := Request(s, b, m, msg).value; Shaped(s, n) && Fifo(s, n) && OnceEach(s, n)
  {
    hide Route, IsLive, RoutedTo, GrantedTo, Forwarded, Relays;
    var n := Request(s, b, m, msg).value;
    var e := n.log[|b.log|];
    assert n.log == b.log + [e];
    forall r, k | 0 <= r < |n.regions| && 0 <= k < s.masters ensures RoutedTo(n.log, r, k) == GrantedTo(n.log, r, k) + n.regions[r].queues[k] {
      LogStep(b.log, e, r, k);
    }
    forall r | 0 <= r < |n.regions| ensures Forwarded(n.log, r) == Relays(n.log, r) + ActiveId(n.regions[r]) {
      IdStep(b.log, e, r);
    }
  }

  lemma NotLive(s: Setup, b: State, m: nat, txn: Long, r: nat, i: int)
    requires Shaped(s, b) && m < s.masters && !IsLive(s, b, m, txn)
    ensures !LiveAt(s, b, m, r, i, txn)
  {
    if LiveAt(s, b, m, r, i, txn) {
      LiveIsIn(s, b, m, txn, r, i);
    }
  }

  lemma LiveIsIn(s: Setup, b: State, m: nat, txn: Long, r: nat, i: int)
    requires Shaped(s, b) && m < s.masters && LiveAt(s, b, m, r, i, txn)
    ensures LiveIn(b.regions[r], m, txn)
  {
  }

  /** Where a live request was before a request of `m` was routed. */
  lemma RequestPlace(s: Setup, b: State, m: nat, msg: Msg, k: nat, r: nat, i: int, t: Long)
    requires Shaped(s, b) && m < s.masters && k < s.masters && Request(s, b, m, msg).Ok?
    requires Shaped(s, Request(s, b, m, msg).value) && LiveAt(s, Request(s, b, m, msg).value, k, r, i, t)
    ensures LiveAt(s, b, k, r, i, t) || (k == m && t == msg.txn && r < |b.regions| && i == |b.regions[r].queues[m]| && Route(s, msg) == Some(r))
    ensures msg.Len() > 0
  {
    hide Route, IsLive;
  }

  lemma RequestUnique(s: Setup, b: State, m: nat, msg: Msg)
    requires Shaped(s, b) && UniqueLive(s, b) && m < s.masters && Request(s, b, m, msg).Ok?
    ensures var n := Request(s, b, m, msg).value; Shaped(s, n) && UniqueLive(s, n)
  {
    hide Route, LiveAt, IsLive;
    RequestShaped(s, b, m, msg);
    var n := Request(s, b, m, msg).value;
    forall k: nat, r: nat, q: nat, i, j, t | k < s.masters && LiveAt(s, n, k, r, i, t) && LiveAt(s, n, k, q, j, t) ensures r == q && i == j {
      RequestPlace(s, b, m, msg, k, r, i, t);
      RequestPlace(s, b, m, msg, k, q, j, t);
      NotLive(s, b, m, msg.txn, r, i);
      NotLive(s, b, m, msg.txn, q, j);
    }
  }

  lemma RequestShaped(s: Setup, b: State, m: nat, msg: Msg)
    requires Shaped(s, b) && m < s.masters && Request(s, b, m, msg).Ok?
    ensures Shaped(s, Request(s, b, m, msg).value)
  {
    hide Route, IsLive;
  }

  // ----- Grants -----

  lemma TurnShape(s: Setup, b: State, i: nat)
    requires s.masters > 0 && Shaped(s, b) && i < |b.regions| && Turn(s, b, i).Ok?
    ensures var n := Turn(s, b, i).value;
      Shaped(s, n) && n.wakes == b.wakes && !Waiting(n.regions[i]) && forall r :: 0 <= r < |b.regions| && r != i ==> n.regions[r] == b.regions[r]
  {
    hide SelectFrom, Distance;
    SelectFirst(b.regions[i]);
  }

  lemma TurnKeeps(s: Setup, b: State, i: nat)
    requires Steady(s, b) && i < |b.regions| && Turn(s, b, i).Ok?
    ensures Steady(s, Turn(s, b, i).value)
  {
    hide Fifo, OnceEach, UniqueLive, DownstreamOk, SelectFrom, Waiting;
    TurnShape(s, b, i);
    TurnLogs(s, b, i);
    TurnUnique(s, b, i);
    TurnDownstream(s, b, i);
  }

  lemma TurnDownstream(s: Setup, b: State, i: nat)
    requires s.masters > 0 && Shaped(s, b) && DownstreamOk(s, b) && i < |b.regions| && Turn(s, b, i).Ok? && Shaped(s, Turn(s, b, i).value)
    ensures DownstreamOk(s, Turn(s, b, i).value)
  {
    hide SelectFrom, Downstreams;
    var n := Turn(s, b, i).value;
    if n != b {
      DownstreamStep(b.log, n.log[|b.log|]);
      assert n.log == b.log + [n.log[|b.log|]];
    }
  }

  lemma TurnLogs(s: Setup, b: State, i: nat)
    requires s.masters > 0 && Shaped(s, b) && Fifo(s, b) && OnceEach(s, b) && i < |b.regions| && Turn(s, b, i).Ok? && Shaped(s, Turn(s, b, i).value)
    ensures Fifo(s, Turn(s, b, i).value) && OnceEach(s, Turn(s, b, i).value)
  {
    hide SelectFrom, RoutedTo, GrantedTo, Forwarded, Relays;
    var n := Turn(s, b, i).value;
    if n != b {
      var e := n.log[|b.log|];
      assert n.log == b.log + [e];
      var q := b.regions[i].queues[e.master];
      assert q == [q[0]] + q[1..];
      forall r, k | 0 <= r < |n.regions| && 0 <= k < s.masters ensures RoutedTo(n.log, r, k) == GrantedTo(n.log, r, k) + n.regions[r].queues[k] {
        LogStep(b.log, e, r, k);
      }
      forall r | 0 <= r < |n.regions| ensures Forwarded(n.log, r) == Relays(n.log, r) + ActiveId(n.regions[r]) {
        IdStep(b.log, e, r);
      }
    }
  }

  /** Where a live request was before a turn: a grant moves a FIFO's head to the active place. */
  lemma TurnPlace(s: Setup, b: State, i: nat, k: nat, r: nat, j: int, t: Long)
    requires s.masters > 0 && Shaped(s, b) && i < |b.regions| && Turn(s, b, i).Ok? && Shaped(s, Turn(s, b, i).value)
    requires k < s.masters && LiveAt(s, Turn(s, b, i).value, k, r, j, t)
    ensures var moved := Turn(s, b, i).value != b && r == i && SelectFrom(b.regions[i], 0) == Some(k);
      LiveAt(s, b, k, r, if moved then j + 1 else j, t)
  {
    hide SelectFrom;
    var n := Turn(s, b, i).value;
    if n != b && r == i {
      var m := SelectFrom(b.regions[i], 0).value;
      assert n.regions[i] == Grant(b.regions[i], m, b.next);
    }
  }

  lemma TurnUnique(s: Setup, b: State, i: nat)
    requires s.masters > 0 && Shaped(s, b) && UniqueLive(s, b) && i < |b.regions| && Turn(s, b, i).Ok? && Shaped(s, Turn(s, b, i).value)
    ensures UniqueLive(s, Turn(s, b, i).value)
  {
    hide LiveAt, Turn, SelectFrom;
    var n := Turn(s, b, i).value;
    forall k: nat, r: nat, q: nat, j, h, t | k < s.masters && LiveAt(s, n, k, r, j, t) && LiveAt(s, n, k, q, h, t) ensures r == q && j == h {
      TurnPlace(s, b, i, k, r, j, t);
      TurnPlace(s, b, i, k, q, h, t);
    }
  }

  /** A pass keeps the bus steady and leaves no idle region waiting. */
  lemma {:induction false} PassKeeps(s: Setup, b: State, i: nat)
    requires Steady(s, b) && i <= |b.regions| && Arbitrate(s, b, i).Ok?
    ensures var n := Arbitrate(s, b, i).value;
      && Steady(s, n) && n.wakes == b.wakes && |n.regions| == |b.regions|
      && (forall r :: 0 <= r < i ==> !Waiting(n.regions[r])) && (forall r :: i <= r < |b.regions| ==> n.regions[r] == b.regions[r])
  {
    hide Fifo, OnceEach, UniqueLive, DownstreamOk, Turn, Waiting;
    if i > 0 {
      PassKeeps(s, b, i - 1);
      var before := Arbitrate(s, b, i - 1).value;
      TurnKeeps(s, before, i - 1);
      TurnShape(s, before, i - 1);
    }
  }

  lemma FewerWakes(s: Setup, b: State, w: nat)
    requires Steady(s, b)
    ensures Steady(s, b.(wakes := w))
  {
    hide RoutedTo, GrantedTo, Forwarded, Relays, Downstreams;
    var n := b.(wakes := w);
    forall m: nat, r: nat, q: nat, i, j, t | m < s.masters && LiveAt(s, n, m, r, i, t) && LiveAt(s, n, m, q, j, t) ensures r == q && i == j {
      assert LiveAt(s, b, m, r, i, t) && LiveAt(s, b, m, q, j, t);
    }
  }

  lemma WakeKeeps(s: Setup, b: State)
    requires BusInv(s, b) && b.wakes > 0 && Wake(s, b).Ok?
    ensures BusInv(s, Wake(s, b).value)
  {
    hide Steady, Waiting, Arbitrate;
    SteadyShaped(s, b);
    FewerWakes(s, b, b.wakes - 1);
    SteadyShaped(s, b.(wakes := b.wakes - 1));
    PassKeeps(s, b.(wakes := b.wakes - 1), |b.regions|);
  }

  lemma SteadyShaped(s: Setup, b: State)
    requires Steady(s, b)
    ensures s.Valid() && Shaped(s, b)
  {
  }

  // ----- Responses -----

  lemma ResponseKeeps(s: Setup, b: State, i: nat, reply: Reply)
    requires BusInv(s, b) && i < |b.regions| && Response(s, b, i, reply).Ok?
    ensures BusInv(s, Response(s, b, i, reply).value)
  {
    hide Fifo, OnceEach, UniqueLive, DownstreamOk;
    ResponseLogs(s, b, i, reply);
    ResponseUnique(s, b, i, reply);
    ResponseDownstream(s, b, i, reply);
  }

  lemma ResponseDownstream(s: Setup, b: State, i: nat, reply: Reply)
    requires Shaped(s, b) && DownstreamOk(s, b) && i < |b.regions| && Response(s, b, i, reply).Ok?
    ensures var n := Response(s, b, i, reply).value; Shaped(s, n) && DownstreamOk(s, n)
  {
    hide HasQueued, Downstreams;
    var n := Response(s, b, i, reply).value;
    DownstreamStep(b.log, n.log[|b.log|]);
    assert n.log == b.log + [n.log[|b.log|]];
  }

  lemma ResponseLogs(s: Setup, b: State, i: nat, reply: Reply)
    requires Shaped(s, b) && Fifo(s, b) && OnceEach(s, b) && i < |b.regions| && Response(s, b, i, reply).Ok?
    ensures var n := Response(s, b, i, reply).value; Shaped(s, n) && Fifo(s, n) && OnceEach(s, n)
  {
    hide HasQueued, RoutedTo, GrantedTo, Forwarded, Relays;
    var n := Response(s, b, i, reply).value;
    var e := n.log[|b.log|];
    assert n.log == b.log + [e];
    forall r, k | 0 <= r < |n.regions| && 0 <= k < s.masters ensures RoutedTo(n.log, r, k) == GrantedTo(n.log, r, k) + n.regions[r].queues[k] {
      LogStep(b.log, e, r, k);
    }
    forall r | 0 <= r < |n.regions| ensures Forwarded(n.log, r) == Relays(n.log, r) + ActiveId(n.regions[r]) {
      IdStep(b.log, e, r);
    }
  }

  lemma ResponseUnique(s: Setup, b: State, i: nat, reply: Reply)
    requires Shaped(s, b) && UniqueLive(s, b) && i < |b.regions| && Response(s, b, i, reply).Ok?
    ensures var n := Response(s, b, i, reply).value; Shaped(s, n) && UniqueLive(s, n)
  {
    hide HasQueued;
    var n := Response(s, b, i, reply).value;
    assert Shaped(s, n);
    forall k: nat, r: nat, q: nat, j, h, t | k < s.masters && LiveAt(s, n, k, r, j, t) && LiveAt(s, n, k, q, h, t) ensures r == q && j == h {
      assert LiveAt(s, b, k, r, j, t) && LiveAt(s, b, k, q, h, t);
    }
  }

  // ----- Runs -----

  lemma StepKeeps(s: Setup, b: State, e: Event)
    requires BusInv(s, b) && Possible(s, b, e) && Step(s, b, e).Ok?
    ensures BusInv(s, Step(s, b, e).value)
  {
    hide Steady, NoLostWake, Request, Wake, Response;
    SteadyShaped(s, b);
    match e
    case Asks(m, msg) => RequestKeeps(s, b, m, msg);
    case Wakes => WakeKeeps(s, b);
    case Answers(r, reply) => ResponseKeeps(s, b, r, reply);
  }

  /** The bus after a run of events, or `None` once an event is impossible or faults the session. */
  ghost function Run(s: Setup, b: State, es: seq<Event>): (r: Option<State>)
    requires BusInv(s, b)
    ensures r.Some? ==> BusInv(s, r.value)
  {
    if es == [] then Some(b)
    else
      var before := Run(s, b, es[..|es| - 1]);
      var e := es[|es| - 1];
      if before.None? || !Possible(s, before.value, e) || Step(s, before.value, e).Err? then None
      else
        StepKeeps(s, before.value, e);
        Some(Step(s, before.value, e).value)
  }

  /** Over every run from a fresh bus: an idle region with a queued request has a wake coming; each FIFO holds exactly
      the routed requests not yet forwarded, in arrival order; each forwarded transaction but the active one was relayed
      back once, to its master under its own `txn`; no master has a `txn` live twice; and the downstream transactions of
      all regions strictly increase in the order they are forwarded. */
  lemma EveryRun(s: Setup, es: seq<Event>)
    requires s.Valid()
    ensures BusInv(s, Fresh(s))
    ensures Run(s, Fresh(s), es).Some? ==>
      var n := Run(s, Fresh(s), es).value;
      Shaped(s, n) && NoLostWake(n) && Fifo(s, n) && OnceEach(s, n) && UniqueLive(s, n) && DownstreamOk(s, n)
  {
    hide Run;
    FreshInv(s);
  }
}
