/** The bus in place: each handler leaves the state its specification gives, or faults the session. */
module BusObject {
  import opened Words
  import opened Config
  import opened Bus
  import opened BusRun
  import BusRestore

  /** Faults of the handlers beyond those of the state: a message in the wrong phase. */
  datatype SessionFault = Bus(fault: Fault) | OutsidePhase

  class MultiMasterBus {
    const setup: Setup
    var regions: seq<Region>
    var nextDownstream: Long
    /** The arbitration wakes scheduled and not yet delivered, and what the ports have carried. */
    var wakes: nat
    var log: seq<Entry>

    ghost function Now(): State
      reads this
    {
      State(regions, nextDownstream, wakes, log)
    }

    ghost predicate Valid()
      reads this
    {
      BusInv(setup, Now())
    }

    constructor (s: Setup)
      requires s.Valid()
      ensures Valid() && setup == s && Now() == Fresh(s)
    {
      setup := s;
      regions := seq(|s.windows|, _ => Region(None, seq(s.masters, _ => []), 0));
      nextDownstream, wakes, log := 0, 0, [];
      new;
      FreshInv(s);
    }

    /** A message on master port `master`. */
    method HandleRequest(master: nat, msg: Msg, inRequest: bool) returns (r: Result<(), SessionFault>)
      requires Valid() && master < setup.masters
      modifies this
      ensures Shaped(setup, old(Now()))
      ensures r.Ok? <==> inRequest && Request(setup, old(Now()), master, msg).Ok?
      ensures if r.Ok? then Request(setup, old(Now()), master, msg) == Ok(Now()) else unchanged(this)
      ensures Valid()
    {
      hide Steady, NoLostWake, LiveIn, Route;
      SteadyShaped(setup, Now());
      if !inRequest {
        return Err(OutsidePhase);
      }
      var live := CheckLive(setup, Now(), regions, master, msg.txn);
      if live {
        return Err(SessionFault.Bus(ReusedTxn));
      }
      if msg.Len() == 0 {
        return Err(SessionFault.Bus(ZeroLength));
      }
      RequestKeeps(setup, Now(), master, msg);
      var route := FindRegion(setup, msg);
      if route.None? {
        log := log + [Refused(master, msg.txn)];
      } else {
        var i := route.value;
        RoutedBase(setup, msg);
        var m := msg.At(msg.addr - setup.windows[i].base);
        regions := regions[i := regions[i].(queues := regions[i].queues[master := regions[i].queues[master] + [m]])];
        wakes := wakes + 1;
        log := log + [Routed(i, master, m)];
      }
      return Ok(());
    }

    /** An arbitration wake: one pass over the regions in order. A pass that runs out of downstream transactions faults
        the session part-way, with the grants before it made. */
    method HandleWake(inTransfer: bool) returns (r: Result<(), SessionFault>)
      requires Valid() && wakes > 0
      modifies this
      ensures setup.masters > 0 && Shaped(setup, old(Now()))
      ensures r.Ok? <==> inTransfer && Wake(setup, old(Now())).Ok?
      ensures r.Ok? ==> Wake(setup, old(Now())) == Ok(Now()) && Valid()
      ensures r.Err? && !inTransfer ==> unchanged(this)
      ensures r.Err? && inTransfer ==> Steady(setup, Now()) && FailedAt(setup, old(Now()).(wakes := old(wakes) - 1), Now())
    {
      hide Steady, NoLostWake, Turn;
      SteadyShaped(setup, Now());
      if !inTransfer {
        return Err(OutsidePhase);
      }
      if Wake(setup, Now()).Ok? {
        WakeKeeps(setup, Now());
      }
      FewerWakes(setup, Now(), wakes - 1);
      wakes := wakes - 1;
      ghost var start := Now();
      var i := 0;
      while i < |regions|
        invariant 0 <= i <= |regions| == |start.regions|
        invariant Shaped(setup, start) && Shaped(setup, Now()) && Arbitrate(setup, start, i) == Ok(Now())
        decreases |start.regions| - i
      {
        ghost var before := Now();
        var fault := GrantOne(i);
        if fault {
          PassFails(setup, start, i + 1, |start.regions|);
          PassKeeps(setup, start, i);
          assert FailsAt(setup, start, i, Now());
          return Err(SessionFault.Bus(TxnExhausted));
        }
        TurnShape(setup, before, i);
        i := i + 1;
      }
      return Ok(());
    }

    /** Region `i`'s turn. */
    method GrantOne(i: nat) returns (fault: bool)
      requires setup.masters > 0 && Shaped(setup, Now()) && i < |regions|
      modifies this`regions, this`nextDownstream, this`log
      ensures fault <==> Turn(setup, old(Now()), i).Err?
      ensures if fault then Now() == old(Now()) else Turn(setup, old(Now()), i) == Ok(Now())
    {
      hide SelectFrom;
      if regions[i].active.Some? {
        return false;
      }
      var chosen := Select(regions[i]);
      if chosen.None? {
        return false;
      }
      if nextDownstream == LONG_MAX {
        return true;
      }
      var master := chosen.value;
      var request := regions[i].queues[master][0];
      log := log + [Granted(i, master, request, nextDownstream)];
      var queues := regions[i].queues[master := regions[i].queues[master][1..]];
      var active := Active(master, request.txn, nextDownstream, request.WriteReq?);
      regions := regions[i := Region(Some(active), queues, (master + 1) % setup.masters)];
      nextDownstream := nextDownstream + 1;
      return false;
    }

    /** A message on region port `i`. */
    method HandleResponse(i: nat, reply: Reply, inComplete: bool) returns (r: Result<(), SessionFault>)
      requires Valid() && i < |regions|
      modifies this
      ensures Shaped(setup, old(Now()))
      ensures r.Ok? <==> inComplete && Response(setup, old(Now()), i, reply).Ok?
      ensures if r.Ok? then Response(setup, old(Now()), i, reply) == Ok(Now()) else unchanged(this)
      ensures Valid()
    {
      hide Steady, NoLostWake;
      SteadyShaped(setup, Now());
      if !inComplete {
        return Err(OutsidePhase);
      }
      var active := regions[i].active;
      if active.None? || active.value.downstream != reply.txn {
        return Err(SessionFault.Bus(NotActive));
      }
      if active.value.write != reply.WriteResp? {
        return Err(SessionFault.Bus(WrongKind));
      }
      ResponseKeeps(setup, Now(), i, reply);
      var again := AnyQueued(regions[i].queues);
      log := log + [Relayed(i, active.value.master, active.value.downstream, reply.With(active.value.original))];
      regions := regions[i := regions[i].(active := None)];
      if again {
        wakes := wakes + 1;
      }
      return Ok(());
    }

    /** `restore`: a snapshot is accepted exactly when it passes every check, and replaces the state, or changes nothing. */
    method Restore(snapshot: seq<Region>, next: Long) returns (ok: bool)
      requires |snapshot| == |setup.windows| && forall r :: 0 <= r < |snapshot| ==> |snapshot[r].queues| == setup.masters
      modifies this`regions, this`nextDownstream
      ensures ok <==> BusRestore.RestoreOk(setup, snapshot, next)
      ensures if ok then regions == snapshot && nextDownstream == next else unchanged(this)
    {
      ok := BusRestore.CheckSnapshot(setup, snapshot, next);
      if ok {
        regions, nextDownstream := snapshot, next;
      }
    }
  }

  /** The first `i` regions had their turns, giving `n`, and region `i`'s turn fails. */
  predicate FailsAt(s: Setup, b: State, i: nat, n: State) {
    && s.masters > 0 && Shaped(s, b) && i < |b.regions| && Arbitrate(s, b, i) == Ok(n)
    && |n.regions| == |b.regions| && Turn(s, n, i).Err?
  }

  ghost predicate FailedAt(s: Setup, b: State, n: State) {
    exists i: nat :: FailsAt(s, b, i, n)
  }

  lemma RoutedBase(s: Setup, msg: Msg)
    requires msg.Len() > 0 && Route(s, msg).Some?
    ensures s.windows[Route(s, msg).value].base <= msg.addr
  {
  }

  lemma {:induction false} PassFails(s: Setup, b: State, i: nat, n: nat)
    requires s.masters > 0 && Shaped(s, b) && i <= n <= |b.regions| && Arbitrate(s, b, i).Err?
    ensures Arbitrate(s, b, n).Err?
  {
    if i < n {
      PassFails(s, b, i, n - 1);
    }
  }

  /** The master to grant: a circular scan from the cursor. */
  method Select(r: Region) returns (m: Option<nat>)
    requires |r.queues| > 0
    ensures m == SelectFrom(r, 0)
  {
    var k := 0;
    while k < |r.queues|
      invariant 0 <= k <= |r.queues| && SelectFrom(r, 0) == SelectFrom(r, k)
    {
      var n := (r.cursor + k) % |r.queues|;
      if r.queues[n] != [] {
        return Some(n);
      }
      k := k + 1;
    }
    return None;
  }

  method AnyQueued(queues: seq<seq<Msg>>) returns (any: bool)
    ensures any <==> exists m :: 0 <= m < |queues| && queues[m] != []
  {
    var m := 0;
    while m < |queues|
      invariant 0 <= m <= |queues| && forall j :: 0 <= j < m ==> queues[j] == []
    {
      if queues[m] != [] {
        return true;
      }
      m := m + 1;
    }
    return false;
  }

  /** The region holding every byte of the request. */
  method FindRegion(s: Setup, msg: Msg) returns (r: Option<nat>)
    requires msg.Len() > 0
    ensures r == Route(s, msg)
  {
    var last := msg.addr + msg.Len() - 1;
    if last > LONG_MAX {
      return None;
    }
    var i := 0;
    while i < |s.windows| && !Holds(s.windows[i], msg.addr)
      invariant 0 <= i <= |s.windows| && forall j :: 0 <= j < i ==> !Holds(s.windows[j], msg.addr)
    {
      i := i + 1;
    }
    assert i == WindowOf(s.windows, msg.addr);
    if i < |s.windows| && last - s.windows[i].base < s.windows[i].size {
      return Some(i);
    }
    return None;
  }

  /** Whether `master` has a request with `txn` queued or active anywhere. */
  method CheckLive(s: Setup, ghost b: State, regions: seq<Region>, master: nat, txn: Long) returns (live: bool)
    requires Shaped(s, b) && regions == b.regions && master < s.masters
    ensures live <==> IsLive(s, b, master, txn)
  {
    hide LiveIn;
    var i := 0;
    while i < |regions|
      invariant 0 <= i <= |regions| && forall j :: 0 <= j < i ==> !LiveIn(regions[j], master, txn)
    {
      var here := CheckRegion(regions[i], master, txn);
      if here {
        return true;
      }
      i := i + 1;
    }
    return false;
  }

  method CheckRegion(r: Region, master: nat, txn: Long) returns (live: bool)
    requires master < |r.queues|
    ensures live <==> LiveIn(r, master, txn)
  {
    if r.active.Some? && r.active.value.master == master && r.active.value.original == txn {
      return true;
    }
    var q, i := r.queues[master], 0;
    while i < |q|
      invariant 0 <= i <= |q| && forall j :: 0 <= j < i ==> q[j].txn != txn
    {
      if q[i].txn == txn {
        return true;
      }
      i := i + 1;
    }
    return false;
  }
}
