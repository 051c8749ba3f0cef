/** The multi-master bus (components/platform/src/mmbus.rs) as values: routing, round-robin arbitration and relaying. */
module Bus {
  import opened Words
  import opened Config

  /** A `mem.v1` request. */
  datatype Msg = ReadReq(txn: Long, addr: Long, len: Word) | WriteReq(txn: Long, addr: Long, data: seq<Byte>) {
    function Len(): nat {
      match this case ReadReq(_, _, n) => n case WriteReq(_, _, d) => |d|
    }

    function At(offset: Long): Msg {
      match this case ReadReq(t, _, n) => ReadReq(t, offset, n) case WriteReq(t, _, d) => WriteReq(t, offset, d)
    }
  }

  /** A `mem.v1` response; no data, or not done, is a fault. */
  datatype Reply = ReadResp(txn: Long, data: Option<seq<Byte>>) | WriteResp(txn: Long, done: bool) {
    function With(t: Long): Reply {
      match this case ReadResp(_, d) => ReadResp(t, d) case WriteResp(_, d) => WriteResp(t, d)
    }
  }

  /** A region's one downstream transaction. */
  datatype Active = Active(master: nat, original: Long, downstream: Long, write: bool)

  datatype Region = Region(active: Option<Active>, queues: seq<seq<Msg>>, cursor: nat)

  /** What the bus has done, in order: routed a request to a FIFO, refused one with an access fault, forwarded one
      downstream, relayed its response to its master. */
  datatype Entry =
    | Routed(region: nat, master: nat, msg: Msg)
    | Refused(master: nat, txn: Long)
    | Granted(region: nat, master: nat, msg: Msg, downstream: Long)
    | Relayed(region: nat, master: nat, downstream: Long, reply: Reply)

  /** The bus, its pending arbitration wakes and its history. */
  datatype State = State(regions: seq<Region>, next: Long, wakes: nat, log: seq<Entry>)

  datatype Setup = Setup(masters: nat, windows: seq<Window>) {

    /** What `new` accepts, names aside. */
    predicate Valid() {
      && 1 <= masters && masters + |windows| < 0xFFFF
      && (forall i :: 0 <= i < |windows| ==> windows[i].size != 0 && windows[i].base + (windows[i].size - 1) <= LONG_MAX)
      && (forall i, j :: 0 <= i < j < |windows| ==> Disjoint(windows[i], windows[j]))
    }
  }

  predicate Disjoint(a: Window, b: Window) {
    a.base + a.size <= b.base || b.base + b.size <= a.base
  }

  datatype Fault = ReusedTxn | ZeroLength | TxnExhausted | NotActive | WrongKind

  // ----- Routing -----

  predicate Holds(w: Window, x: int) {
    w.base <= x && x - w.base < w.size
  }

  /** The first window that holds `x`, or the number of windows. */
  function WindowOf(ws: seq<Window>, x: Long): (i: nat)
    ensures i <= |ws| && (i < |ws| ==> Holds(ws[i], x)) && forall j :: 0 <= j < i ==> !Holds(ws[j], x)
  {
    if ws == [] then 0
    else
      var i := WindowOf(ws[..|ws| - 1], x);
      if i < |ws| - 1 then i else if Holds(ws[|ws| - 1], x) then |ws| - 1 else |ws|
  }

  /** The region a request goes to; `None` for one that no region contains or that runs past `u64`. */
  function Route(s: Setup, msg: Msg): (r: Option<nat>)
    requires msg.Len() > 0
    ensures r.Some? ==> r.value < |s.windows|
  {
    var last := msg.addr + msg.Len() - 1;
    if last > LONG_MAX then None
    else
      var i := WindowOf(s.windows, msg.addr);
      if i < |s.windows| && last - s.windows[i].base < s.windows[i].size then Some(i) else None
  }

  /** A request is routed to the one region that holds every one of its bytes. */
  lemma RouteIs(s: Setup, msg: Msg, i: nat)
    requires s.Valid() && msg.Len() > 0 && i < |s.windows|
    ensures Route(s, msg) == Some(i) <==> forall x :: msg.addr <= x < msg.addr + msg.Len() ==> Holds(s.windows[i], x)
  {
    var k, last := WindowOf(s.windows, msg.addr), msg.addr + msg.Len() - 1;
    if forall x :: msg.addr <= x < msg.addr + msg.Len() ==> Holds(s.windows[i], x) {
      assert Holds(s.windows[i], msg.addr) && Holds(s.windows[i], last);
    }
  }

  // ----- Requests -----

  predicate Queued(q: seq<Msg>, txn: Long) {
    exists i :: 0 <= i < |q| && q[i].txn == txn
  }

  predicate LiveIn(r: Region, master: nat, txn: Long)
    requires master < |r.queues|
  {
    (r.active.Some? && r.active.value.master == master && r.active.value.original == txn) || Queued(r.queues[master], txn)
  }

  predicate Shaped(s: Setup, b: State) {
    && |b.regions| == |s.windows|
    && (forall r :: 0 <= r < |b.regions| ==> |b.regions[r].queues| == s.masters && b.regions[r].cursor < s.masters)
    && (forall r :: 0 <= r < |b.regions| && b.regions[r].active.Some? ==> b.regions[r].active.value.master < s.masters)
  }

  /** `master` has a request with `txn` queued or active anywhere. */
  predicate IsLive(s: Setup, b: State, master: nat, txn: Long)
    requires Shaped(s, b) && master < s.masters
  {
    exists r :: 0 <= r < |b.regions| && LiveIn(b.regions[r], master, txn)
  }

  function Push(r: Region, master: nat, msg: Msg): Region
    requires master < |r.queues|
  {
    r.(queues := r.queues[master := r.queues[master] + [msg]])
  }

  /** A request of `master`. */
  function Request(s: Setup, b: State, master: nat, msg: Msg): Result<State, Fault>
    requires Shaped(s, b) && master < s.masters
  {
    if IsLive(s, b, master, msg.txn) then Err(ReusedTxn)
    else if msg.Len() == 0 then Err(ZeroLength)
    else
      match Route(s, msg)
      case None => Ok(b.(log := b.log + [Refused(master, msg.txn)]))
      case Some(r) =>
        var m := msg.At(msg.addr - s.windows[r].base);
        Ok(b.(regions := b.regions[r := Push(b.regions[r], master, m)], wakes := b.wakes + 1,
              log := b.log + [Routed(r, master, m)]))
  }

  // ----- Arbitration -----

  /** The `k`-th master after the cursor. */
  function Nth(cursor: nat, k: nat, masters: nat): nat
    requires masters > 0
  {
    (cursor + k) % masters
  }

  /** The first master with a queued request, scanning `k` and more places after the cursor. */
  function SelectFrom(r: Region, k: nat): (m: Option<nat>)
    requires |r.queues| > 0
    ensures m.Some? ==> m.value < |r.queues| && r.queues[m.value] != []
    decreases |r.queues| - k
  {
    if k >= |r.queues| then None
    else
      var m := Nth(r.cursor, k, |r.queues|);
      if r.queues[m] != [] then Some(m) else SelectFrom(r, k + 1)
  }

  function Grant(r: Region, master: nat, next: Long): Region
    requires master < |r.queues| && r.queues[master] != []
  {
    var msg := r.queues[master][0];
    Region(Some(Active(master, msg.txn, next, msg.WriteReq?)), r.queues[master := r.queues[master][1..]], (master + 1) % |r.queues|)
  }

  /** One region's turn in an arbitration pass. */
  function Turn(s: Setup, b: State, i: nat): Result<State, Fault>
    requires s.masters > 0 && Shaped(s, b) && i < |b.regions|
  {
    var r := b.regions[i];
    if r.active.Some? || SelectFrom(r, 0).None? then Ok(b)
    else if b.next == LONG_MAX then Err(TxnExhausted)
    else
      var m := SelectFrom(r, 0).value;
      Ok(b.(regions := b.regions[i := Grant(r, m, b.next)], next := b.next + 1,
            log := b.log + [Granted(i, m, r.queues[m][0], b.next)]))
  }

  /** The first `i` regions' turns. */
  function Arbitrate(s: Setup, b: State, i: nat): (a: Result<State, Fault>)
    requires s.masters > 0 && Shaped(s, b) && i <= |b.regions|
    ensures a.Ok? ==> Shaped(s, a.value)
  {
    if i == 0 then Ok(b)
    else
      var before := Arbitrate(s, b, i - 1);
      if before.Err? then before else Turn(s, before.value, i - 1)
  }

  /** An arbitration wake. */
  function Wake(s: Setup, b: State): Result<State, Fault>
    requires s.masters > 0 && Shaped(s, b) && b.wakes > 0
  {
    Arbitrate(s, b.(wakes := b.wakes - 1), |b.regions|)
  }

  // ----- Responses -----

  predicate HasQueued(r: Region) {
    exists m :: 0 <= m < |r.queues| && r.queues[m] != []
  }

  function Response(s: Setup, b: State, i: nat, reply: Reply): Result<State, Fault>
    requires Shaped(s, b) && i < |b.regions|
  {
    var r := b.regions[i];
    if r.active.None? || r.active.value.downstream != reply.txn then Err(NotActive)
    else
      var a := r.active.value;
      if a.write != reply.WriteResp? then Err(WrongKind)
      else
        Ok(b.(regions := b.regions[i := r.(active := None)], wakes := if HasQueued(r) then b.wakes + 1 else b.wakes,
              log := b.log + [Relayed(i, a.master, a.downstream, reply.With(a.original))]))
  }

  // ----- Selection -----

  /** The circular distance from the cursor to `m`. */
  function Distance(cursor: nat, m: nat, masters: nat): (d: nat)
    requires cursor < masters && m < masters
    ensures d < masters && Nth(cursor, d, masters) == m
  {
    if m >= cursor then
      assert (cursor + (m - cursor)) % masters == m;
      m - cursor
    else
      assert (cursor + (m + masters - cursor)) % masters == m by { WrapOnce(m, masters); }
      m + masters - cursor
  }

  lemma WrapOnce(m: nat, masters: nat)
    requires m < masters
    ensures (m + masters) % masters == m
  {
  }

  lemma NthIs(cursor: nat, k: nat, masters: nat)
    requires cursor < masters && k < masters
    ensures Nth(cursor, k, masters) == if cursor + k < masters then cursor + k else cursor + k - masters
  {
    if cursor + k >= masters {
      WrapOnce(cursor + k - masters, masters);
    }
  }

  lemma {:induction false} SelectIs(r: Region, k: nat)
    requires |r.queues| > 0 && r.cursor < |r.queues|
    ensures var m := SelectFrom(r, k);
      && (m.Some? ==> k <= Distance(r.cursor, m.value, |r.queues|))
      && (m.Some? ==> forall j :: (k <= j < Distance(r.cursor, m.value, |r.queues|) ==> r.queues[Nth(r.cursor, j, |r.queues|)] == []))
      && (m.None? ==> forall j :: (k <= j < |r.queues| ==> r.queues[Nth(r.cursor, j, |r.queues|)] == []))
    decreases |r.queues| - k
  {
    hide Nth, Distance;
    if k < |r.queues| {
      SelectIs(r, k + 1);
      DistanceOf(r.cursor, k, |r.queues|);
    }
  }

  lemma DistanceOf(cursor: nat, k: nat, masters: nat)
    requires cursor < masters && k < masters
    ensures Nth(cursor, k, masters) < masters && Distance(cursor, Nth(cursor, k, masters), masters) == k
  {
    NthIs(cursor, k, masters);
  }

  /** Arbitration takes the first waiting master from the cursor on: it has a queued request, and no master nearer the
      cursor has one; no master is taken exactly when none waits. */
  lemma SelectFirst(r: Region)
    requires |r.queues| > 0 && r.cursor < |r.queues|
    ensures SelectFrom(r, 0).None? <==> !HasQueued(r)
    ensures var m := SelectFrom(r, 0);
      m.Some? ==> forall n :: 0 <= n < |r.queues| && r.queues[n] != [] ==>
        Distance(r.cursor, m.value, |r.queues|) <= Distance(r.cursor, n, |r.queues|)
  {
    hide SelectFrom, Nth, Distance;
    SelectIs(r, 0);
    if m :| 0 <= m < |r.queues| && r.queues[m] != [] {
      var d := Distance(r.cursor, m, |r.queues|);
    }
  }
}
