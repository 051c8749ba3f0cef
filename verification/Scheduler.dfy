/** The event scheduler (runtime/src/scheduler.rs): a strict dispatch order over every run, and snapshots whose restored
    future is the same. The heap is its pending events, in any arrangement. */
module Scheduler {
  import opened Words
  import opened Config

  datatype Phase = Request | Transfer | Complete | Commit | Observe {
    function Rank(): nat {
      match this case Request => 0 case Transfer => 1 case Complete => 2 case Commit => 3 case Observe => 4
    }
  }

  datatype Key = Key(tick: nat, phase: Phase, sequence: Long)

  /** Keys by tick, then phase, then sequence. */
  predicate Less(a: Key, b: Key) {
    || a.tick < b.tick
    || (a.tick == b.tick && a.phase.Rank() < b.phase.Rank())
    || (a.tick == b.tick && a.phase == b.phase && a.sequence < b.sequence)
  }

  datatype Event<T> = Event(key: Key, payload: T)

  datatype Sched<T> = Sched(limit: nat, last: Option<Key>, count: nat, next: Long, pending: seq<Event<T>>)

  datatype SimError = PastTick | PhaseViolation | SequenceOverflow | SameTickLivelock

  function Fresh<T>(limit: nat): Sched<T> {
    Sched(limit, None, 0, 0, [])
  }

  // ----- Operations -----

  function Now<T>(s: Sched<T>): nat {
    if s.last.Some? then s.last.value.tick else 0
  }

  function PhaseNow<T>(s: Sched<T>): Phase {
    if s.last.Some? then s.last.value.phase else Request
  }

  /** `schedule`. */
  function Schedule<T>(s: Sched<T>, tick: nat, phase: Phase, payload: T): (r: Result<(Sched<T>, Key), SimError>) {
    if phase == Observe then Err(PhaseViolation)
    else if tick < Now(s) then Err(PastTick)
    else if tick == Now(s) && phase.Rank() < PhaseNow(s).Rank() then Err(PhaseViolation)
    else if s.next == LONG_MAX then Err(SequenceOverflow)
    else
      var key := Key(tick, phase, s.next);
      Ok((s.(next := s.next + 1, pending := s.pending + [Event(key, payload)]), key))
  }

  /** The index of a pending event with the least key. */
  function Least<T>(q: seq<Event<T>>): (i: nat)
    requires q != []
    ensures i < |q|
  {
    if |q| == 1 then 0
    else
      var i := Least(q[..|q| - 1]);
      if Less(q[|q| - 1].key, q[i].key) then |q| - 1 else i
  }

  function Without<T>(q: seq<Event<T>>, i: nat): seq<Event<T>>
    requires i < |q|
  {
    q[..i] + q[i + 1..]
  }

  predicate SamePhase(a: Key, b: Key) {
    a.tick == b.tick && a.phase == b.phase
  }

  /** `pop`. */
  function Pop<T>(s: Sched<T>): (r: Result<(Sched<T>, Option<Event<T>>), SimError>) {
    if s.pending == [] then Ok((s, None))
    else
      var i := Least(s.pending);
      var e := s.pending[i];
      var count := if s.last.Some? && SamePhase(s.last.value, e.key) then s.count + 1 else 1;
      if count > s.limit then Err(SameTickLivelock)
      else Ok((s.(last := Some(e.key), count := count, pending := Without(s.pending, i)), Some(e)))
  }

  // ----- The invariant -----

  predicate Distinct<T>(q: seq<Event<T>>) {
    forall i, j :: 0 <= i < j < |q| ==> q[i].key.sequence != q[j].key.sequence
  }

  /** What a pending event satisfies: already numbered, not in OBSERVE, and after the last dispatched one. */
  predicate PendingOk(k: Key, last: Option<Key>, next: Long) {
    k.sequence < next && k.phase != Observe && (last.Some? ==> Less(last.value, k))
  }

  /** What `restore` accepts. */
  predicate Restorable<T>(s: Sched<T>) {
    && (if s.last.Some? then 1 <= s.count <= s.limit else s.count == 0)
    && Distinct(s.pending)
    && forall i :: 0 <= i < |s.pending| ==> PendingOk(s.pending[i].key, s.last, s.next)
  }

  /** A reachable scheduler: restorable, with the last dispatched event already numbered. */
  predicate SchedOk<T>(s: Sched<T>) {
    Restorable(s) && (s.last.Some? ==> s.last.value.sequence < s.next)
  }

  lemma LessTransitive(a: Key, b: Key, c: Key)
    requires Less(a, b) && Less(b, c)
    ensures Less(a, c)
  {
  }

  /** Two keys with different sequences are ordered one way. */
  lemma LessTotal(a: Key, b: Key)
    requires a.sequence != b.sequence
    ensures Less(a, b) != Less(b, a)
  {
    RanksDiffer(a.phase, b.phase);
  }

  lemma RanksDiffer(p: Phase, q: Phase)
    ensures p.Rank() == q.Rank() <==> p == q
  {
  }

  lemma {:induction false} LeastIs<T>(q: seq<Event<T>>)
    requires q != [] && Distinct(q)
    ensures forall j :: 0 <= j < |q| && j != Least(q) ==> Less(q[Least(q)].key, q[j].key)
  {
    if |q| > 1 {
      var n := |q| - 1;
      var front := q[..n];
      LeastIs(front);
      var i := Least(front);
      LessTotal(q[n].key, q[i].key);
      if Less(q[n].key, q[i].key) {
        forall j | 0 <= j < n ensures Less(q[n].key, q[j].key) {
          if j != i {
            assert Less(front[i].key, front[j].key);
            LessTransitive(q[n].key, q[i].key, q[j].key);
          }
        }
      }
    }
  }

  lemma ScheduleOk<T>(s: Sched<T>, tick: nat, phase: Phase, payload: T)
    requires SchedOk(s)
    ensures var r := Schedule(s, tick, phase, payload);
      r.Ok? ==> SchedOk(r.value.0) && (s.last.Some? ==> Less(s.last.value, r.value.1))
  {
    var r := Schedule(s, tick, phase, payload);
    if r.Ok? && s.last.Some? {
      RanksDiffer(s.last.value.phase, phase);
    }
  }

  lemma PopOk<T>(s: Sched<T>)
    requires SchedOk(s)
    ensures var r := Pop(s);
      r.Ok? ==>
        && SchedOk(r.value.0)
        && (r.value.1.Some? ==> r.value.0.last == Some(r.value.1.value.key) && (s.last.Some? ==> Less(s.last.value, r.value.1.value.key)))
        && (r.value.1.None? ==> r.value.0 == s)
  {
    if s.pending != [] {
      LeastIs(s.pending);
    }
  }

  // ----- Runs -----

  datatype Op<T> = Put(tick: nat, phase: Phase, payload: T) | Take

  /** What an operation returns. */
  datatype Answer<T> = Keyed(key: Key) | Dispatched(event: Event<T>) | Nothing | Failed(error: SimError)

  function Do<T>(s: Sched<T>, op: Op<T>): (Sched<T>, Answer<T>) {
    match op
    case Put(tick, phase, payload) =>
      (match Schedule(s, tick, phase, payload) case Ok((n, k)) => (n, Keyed(k)) case Err(e) => (s, Failed(e)))
    case Take =>
      (match Pop(s) case Ok((n, Some(e))) => (n, Dispatched(e)) case Ok((n, None)) => (n, Nothing) case Err(e) => (s, Failed(e)))
  }

  lemma DoOk<T>(s: Sched<T>, op: Op<T>)
    requires SchedOk(s)
    ensures SchedOk(Do(s, op).0)
  {
    hide SchedOk;
    match op
    case Put(tick, phase, payload) => ScheduleOk(s, tick, phase, payload);
    case Take => PopOk(s);
  }

  /** The scheduler and its answers after the operations. */
  function Run<T>(s: Sched<T>, ops: seq<Op<T>>): (r: (Sched<T>, seq<Answer<T>>))
    ensures |r.1| == |ops|
  {
    if ops == [] then (s, [])
    else
      var (m, answers) := Run(s, ops[..|ops| - 1]);
      var (n, a) := Do(m, ops[|ops| - 1]);
      (n, answers + [a])
  }

  /** The keys dispatched, in order. */
  function Log<T>(answers: seq<Answer<T>>): seq<Key> {
    if answers == [] then []
    else
      var a := answers[|answers| - 1];
      Log(answers[..|answers| - 1]) + if a.Dispatched? then [a.event.key] else []
  }

  predicate Increasing(ks: seq<Key>) {
    forall i, j :: 0 <= i < j < |ks| ==> Less(ks[i], ks[j])
  }

  /** The dispatches at `(tick, phase)`. */
  function CountAt(ks: seq<Key>, tick: nat, phase: Phase): nat {
    if ks == [] then 0
    else CountAt(ks[..|ks| - 1], tick, phase) + if ks[|ks| - 1].tick == tick && ks[|ks| - 1].phase == phase then 1 else 0
  }

  /** A log that belongs to a scheduler. */
  ghost predicate LogOk<T>(s: Sched<T>, ks: seq<Key>) {
    && SchedOk(s) && Increasing(ks)
    && s.last == (if ks == [] then None else Some(ks[|ks| - 1]))
    && (forall t, p :: CountAt(ks, t, p) <= s.limit)
    && (s.last.Some? ==> CountAt(ks, s.last.value.tick, s.last.value.phase) == s.count)
  }

  /** No dispatch was at a place after every dispatch. */
  lemma {:induction false} NoneLater(ks: seq<Key>, k: Key)
    requires forall i :: 0 <= i < |ks| ==> Less(ks[i], k) && !SamePhase(ks[i], k)
    ensures CountAt(ks, k.tick, k.phase) == 0
  {
    if ks != [] {
      NoneLater(ks[..|ks| - 1], k);
    }
  }

  lemma LogPops<T>(s: Sched<T>, ks: seq<Key>)
    requires LogOk(s, ks) && Pop(s).Ok? && Pop(s).value.1.Some?
    ensures LogOk(Pop(s).value.0, ks + [Pop(s).value.1.value.key])
  {
    hide Pop, CountAt;
    var n, k := Pop(s).value.0, Pop(s).value.1.value.key;
    PopOk(s);
    PopCount(s);
    var all := ks + [k];
    forall i | 0 <= i < |ks| ensures Less(ks[i], k) {
      if i < |ks| - 1 {
        LessTransitive(ks[i], ks[|ks| - 1], k);
      }
    }
    forall t, p ensures CountAt(all, t, p) == CountAt(ks, t, p) + if k.tick == t && k.phase == p then 1 else 0 {
      CountMore(ks, k, t, p);
    }
    if ks == [] || !SamePhase(ks[|ks| - 1], k) {
      PhasesPassed(ks, k);
      NoneLater(ks, k);
    }
  }

  lemma CountMore(ks: seq<Key>, k: Key, t: nat, p: Phase)
    ensures CountAt(ks + [k], t, p) == CountAt(ks, t, p) + if k.tick == t && k.phase == p then 1 else 0
  {
    assert (ks + [k])[..|ks|] == ks;
  }

  lemma PopCount<T>(s: Sched<T>)
    requires Pop(s).Ok? && Pop(s).value.1.Some?
    ensures var n, k := Pop(s).value.0, Pop(s).value.1.value.key;
      n.limit == s.limit && n.count <= s.limit
      && n.count == if s.last.Some? && SamePhase(s.last.value, k) then s.count + 1 else 1
  {
  }

  /** Once the phase has changed, none of the earlier dispatches was in the new one. */
  lemma PhasesPassed(ks: seq<Key>, k: Key)
    requires Increasing(ks) && forall i :: 0 <= i < |ks| ==> Less(ks[i], k)
    requires ks == [] || !SamePhase(ks[|ks| - 1], k)
    ensures forall i :: 0 <= i < |ks| ==> !SamePhase(ks[i], k)
  {
    if ks != [] {
      RanksDiffer(ks[|ks| - 1].phase, k.phase);
      forall i | 0 <= i < |ks| ensures !SamePhase(ks[i], k) {
        if i < |ks| - 1 {
          assert Less(ks[i], ks[|ks| - 1]);
          RanksDiffer(ks[i].phase, ks[|ks| - 1].phase);
        }
      }
    }
  }

  lemma {:induction false} RunOk<T>(limit: nat, ops: seq<Op<T>>)
    ensures var (s, answers) := Run(Fresh<T>(limit), ops); s.limit == limit && LogOk(s, Log(answers))
  {
    hide LogOk, Do, Log;
    if ops == [] {
      FreshLog<T>(limit);
    } else {
      RunOk(limit, ops[..|ops| - 1]);
      var (m, answers) := Run(Fresh<T>(limit), ops[..|ops| - 1]);
      OneMore(m, answers, ops[|ops| - 1]);
    }
  }

  lemma FreshLog<T>(limit: nat)
    ensures Log<T>([]) == [] && LogOk(Fresh<T>(limit), Log<T>([]))
  {
  }

  lemma OneMore<T>(s: Sched<T>, answers: seq<Answer<T>>, op: Op<T>)
    requires LogOk(s, Log(answers))
    ensures var (n, a) := Do(s, op); n.limit == s.limit && LogOk(n, Log(answers + [a]))
  {
    hide LogOk, Schedule, Pop;
    var (n, a) := Do(s, op);
    assert (answers + [a])[..|answers|] == answers;
    assert Log(answers) + [] == Log(answers);
    match op
    case Put(tick, phase, payload) => LogPuts(s, Log(answers), tick, phase, payload);
    case Take =>
      if a.Dispatched? {
        LogPops(s, Log(answers));
        PopCount(s);
      } else {
        PopNothing(s);
      }
  }

  lemma PopNothing<T>(s: Sched<T>)
    ensures Pop(s).Ok? && Pop(s).value.1.None? ==> Pop(s).value.0 == s
  {
  }

  lemma LogPuts<T>(s: Sched<T>, ks: seq<Key>, tick: nat, phase: Phase, payload: T)
    requires LogOk(s, ks)
    ensures var r := Schedule(s, tick, phase, payload); r.Ok? ==> r.value.0.limit == s.limit && LogOk(r.value.0, ks)
  {
    hide SchedOk, CountAt;
    ScheduleOk(s, tick, phase, payload);
  }

  /** Over any operations on a new scheduler, the dispatched keys strictly increase, and at most the limit of events run
      in one `(tick, phase)`. */
  lemma DispatchOrder<T>(limit: nat, ops: seq<Op<T>>)
    ensures var ks := Log(Run(Fresh<T>(limit), ops).1);
      Increasing(ks) && forall t, p :: CountAt(ks, t, p) <= limit
  {
    hide CountAt, Log, Run;
    RunOk<T>(limit, ops);
  }

  // ----- Scheduling order -----

  /** Every key answered by a schedule is numbered, and has been dispatched or is pending; every dispatched key is
      numbered. */
  ghost predicate Accounted<T>(s: Sched<T>, answers: seq<Answer<T>>, ks: seq<Key>) {
    && (forall a :: 0 <= a < |answers| && answers[a].Keyed? ==>
          answers[a].key.sequence < s.next && (answers[a].key in ks || Awaits(s, answers[a].key)))
    && (forall i :: 0 <= i < |ks| ==> ks[i].sequence < s.next)
  }

  predicate Awaits<T>(s: Sched<T>, k: Key) {
    exists i :: 0 <= i < |s.pending| && s.pending[i].key == k
  }

  /** Schedules are numbered in the order they were made, and each key is of the event's own tick and phase. */
  ghost predicate Numbered<T>(ops: seq<Op<T>>, answers: seq<Answer<T>>)
    requires |answers| == |ops|
  {
    && (forall a :: 0 <= a < |ops| && answers[a].Keyed? ==>
          ops[a].Put? && answers[a].key.tick == ops[a].tick && answers[a].key.phase == ops[a].phase)
    && (forall a, b :: 0 <= a < b < |ops| && answers[a].Keyed? && answers[b].Keyed? ==> answers[a].key.sequence < answers[b].key.sequence)
  }

  predicate Before(ks: seq<Key>, k: Key, j: nat) {
    exists i :: 0 <= i < j && i < |ks| && ks[i] == k
  }

  /** Of two events of one `(tick, phase)`, the one scheduled first is dispatched first. */
  ghost predicate InOrder<T>(answers: seq<Answer<T>>, ks: seq<Key>) {
    forall a, b, j: nat ::
      && 0 <= a < b < |answers| && answers[a].Keyed? && answers[b].Keyed? && SamePhase(answers[a].key, answers[b].key)
      && j < |ks| && ks[j] == answers[b].key
      ==> Before(ks, answers[a].key, j)
  }

  lemma PutOrdered<T>(s: Sched<T>, ops: seq<Op<T>>, answers: seq<Answer<T>>, ks: seq<Key>, op: Op<T>)
    requires op.Put? && |answers| == |ops| && Accounted(s, answers, ks) && Numbered(ops, answers) && InOrder(answers, ks)
    ensures var (n, x) := Do(s, op);
      Accounted(n, answers + [x], ks) && Numbered(ops + [op], answers + [x]) && InOrder(answers + [x], ks)
  {
    hide Before;
    var (n, x) := Do(s, op);
    var all := answers + [x];
    forall a | 0 <= a < |all| && all[a].Keyed?
      ensures all[a].key.sequence < n.next && (all[a].key in ks || Awaits(n, all[a].key))
    {
      if a < |answers| && answers[a].key !in ks {
        var i :| 0 <= i < |s.pending| && s.pending[i].key == answers[a].key;
        assert n.pending[i].key == answers[a].key;
      } else if a == |answers| {
        assert n.pending[|s.pending|].key == x.key;
      }
    }
  }

  /** A dispatch leaves everything else pending. */
  lemma StillAwaits<T>(s: Sched<T>, k: Key)
    requires Pop(s).Ok? && Pop(s).value.1.Some? && Awaits(s, k)
    ensures k == Pop(s).value.1.value.key || Awaits(Pop(s).value.0, k)
  {
    var l := Least(s.pending);
    var i :| 0 <= i < |s.pending| && s.pending[i].key == k;
    var rest := Pop(s).value.0.pending;
    assert i < l ==> rest[i].key == k;
    assert i > l ==> rest[i - 1].key == k;
  }

  /** The event dispatched comes before every other pending one. */
  lemma LeastFirst<T>(s: Sched<T>, k: Key)
    requires SchedOk(s) && Pop(s).Ok? && Pop(s).value.1.Some? && Awaits(s, k)
    ensures k == Pop(s).value.1.value.key || Less(Pop(s).value.1.value.key, k)
  {
    hide Least, Less;
    LeastIs(s.pending);
  }

  lemma Dispatches<T>(s: Sched<T>)
    requires SchedOk(s) && Pop(s).Ok? && Pop(s).value.1.Some?
    ensures Pop(s).value.1.value.key.sequence < s.next && Pop(s).value.0.next == s.next
  {
    hide Least;
  }

  lemma TakeAccounted<T>(s: Sched<T>, answers: seq<Answer<T>>, ks: seq<Key>)
    requires SchedOk(s) && Pop(s).Ok? && Pop(s).value.1.Some? && Accounted(s, answers, ks)
    ensures var (n, e) := Pop(s).value; Accounted(n, answers + [Dispatched(e.value)], ks + [e.value.key])
  {
    hide Pop, SchedOk, Awaits;
    Dispatches(s);
    var (n, e) := Pop(s).value;
    forall a | 0 <= a < |answers| && answers[a].Keyed?
      ensures answers[a].key in ks + [e.value.key] || Awaits(n, answers[a].key)
    {
      if answers[a].key !in ks {
        StillAwaits(s, answers[a].key);
      }
    }
  }

  lemma TakeInOrder<T>(s: Sched<T>, ops: seq<Op<T>>, answers: seq<Answer<T>>, ks: seq<Key>)
    requires SchedOk(s) && Pop(s).Ok? && Pop(s).value.1.Some?
    requires |answers| == |ops| && Accounted(s, answers, ks) && Numbered(ops, answers) && InOrder(answers, ks)
    ensures var e := Pop(s).value.1.value; InOrder(answers + [Dispatched(e)], ks + [e.key])
  {
    hide Pop, SchedOk, Awaits;
    var e := Pop(s).value.1.value;
    var all, log := answers + [Dispatched(e)], ks + [e.key];
    forall a, b, j: nat | 0 <= a < b < |all| && all[a].Keyed? && all[b].Keyed? && SamePhase(all[a].key, all[b].key)
      && j < |log| && log[j] == all[b].key
      ensures Before(log, all[a].key, j)
    {
      var k := answers[a].key;
      assert answers[b].key.sequence > k.sequence;
      if j < |ks| {
        assert Before(ks, k, j);
        var i :| 0 <= i < j && i < |ks| && ks[i] == k;
        assert log[i] == k;
      } else {
        if k !in ks {
          LeastFirst(s, k);
        }
        var i :| 0 <= i < |ks| && ks[i] == k;
        assert log[i] == k;
      }
    }
  }

  lemma Unkeyed<T>(s: Sched<T>, ops: seq<Op<T>>, answers: seq<Answer<T>>, ks: seq<Key>, op: Op<T>, x: Answer<T>)
    requires |answers| == |ops| && !x.Keyed?
    ensures Accounted(s, answers, ks) ==> Accounted(s, answers + [x], ks)
    ensures Numbered(ops, answers) ==> Numbered(ops + [op], answers + [x])
    ensures InOrder(answers, ks) ==> InOrder(answers + [x], ks)
  {
    hide Awaits, Before;
  }

  lemma OrderedMore<T>(s: Sched<T>, ops: seq<Op<T>>, answers: seq<Answer<T>>, op: Op<T>)
    requires SchedOk(s) && |answers| == |ops|
    requires Accounted(s, answers, Log(answers)) && Numbered(ops, answers) && InOrder(answers, Log(answers))
    ensures var (n, x) := Do(s, op); var all := answers + [x];
      Accounted(n, all, Log(all)) && Numbered(ops + [op], all) && InOrder(all, Log(all))
  {
    hide SchedOk, Accounted, Numbered, InOrder, Schedule, Pop;
    var (n, x) := Do(s, op);
    assert (answers + [x])[..|answers|] == answers;
    assert Log(answers) + [] == Log(answers);
    match op
    case Put(_, _, _) => PutOrdered(s, ops, answers, Log(answers), op);
    case Take =>
      Unkeyed(s, ops, answers, Log(answers), op, x);
      if x.Dispatched? {
        TakeAccounted(s, answers, Log(answers));
        TakeInOrder(s, ops, answers, Log(answers));
      } else {
        PopNothing(s);
      }
  }

  lemma {:induction false} RunOrdered<T>(limit: nat, ops: seq<Op<T>>)
    ensures var (s, answers) := Run(Fresh<T>(limit), ops);
      && SchedOk(s)
      && Accounted(s, answers, Log(answers)) && Numbered(ops, answers) && InOrder(answers, Log(answers))
  {
    hide Do, Accounted, Numbered, InOrder, SchedOk;
    if ops == [] {
      NothingOrdered<T>(limit);
    } else {
      var front, op := ops[..|ops| - 1], ops[|ops| - 1];
      RunOrdered(limit, front);
      var (m, answers) := Run(Fresh<T>(limit), front);
      assert front + [op] == ops;
      OrderedMore(m, front, answers, op);
      DoOk(m, op);
    }
  }

  lemma NothingOrdered<T>(limit: nat)
    ensures SchedOk(Fresh<T>(limit)) && Accounted(Fresh<T>(limit), [], []) && Numbered<T>([], []) && InOrder<T>([], [])
  {
  }

  /** Over any operations on a new scheduler, the schedules that succeed are numbered in the order they were made, and of
      two events scheduled for one `(tick, phase)` the second is dispatched only after the first. */
  lemma SchedulingOrder<T>(limit: nat, ops: seq<Op<T>>, a: nat, b: nat)
    requires a < b < |ops|
    requires Run(Fresh<T>(limit), ops).1[a].Keyed? && Run(Fresh<T>(limit), ops).1[b].Keyed?
    ensures var answers := Run(Fresh<T>(limit), ops).1;
      var ka, kb, ks := answers[a].key, answers[b].key, Log(answers);
      && ops[a].Put? && ops[b].Put? && ka == Key(ops[a].tick, ops[a].phase, ka.sequence) && kb == Key(ops[b].tick, ops[b].phase, kb.sequence)
      && ka.sequence < kb.sequence
      && (SamePhase(ka, kb) ==> forall j :: 0 <= j < |ks| && ks[j] == kb ==> exists i :: 0 <= i < j && ks[i] == ka)
  {
    hide Run, Accounted, Log, SchedOk;
    RunOrdered<T>(limit, ops);
    var answers := Run(Fresh<T>(limit), ops).1;
    var ka, kb, ks := answers[a].key, answers[b].key, Log(answers);
    if SamePhase(ka, kb) {
      forall j | 0 <= j < |ks| && ks[j] == kb ensures exists i :: 0 <= i < j && ks[i] == ka {
        assert Before(ks, ka, j);
      }
    }
  }

  // ----- Snapshots -----

  /** The same scheduler but for the arrangement of its heap. */
  ghost predicate Same<T>(a: Sched<T>, b: Sched<T>) {
    && a.limit == b.limit && a.last == b.last && a.count == b.count && a.next == b.next
    && multiset(a.pending) == multiset(b.pending)
  }

  /** A sequence number picks one event, whatever the arrangement. */
  lemma SameElement<T>(q: seq<Event<T>>, r: seq<Event<T>>, i: nat)
    requires multiset(q) == multiset(r) && i < |q|
    ensures exists j :: 0 <= j < |r| && r[j] == q[i]
  {
    assert q[i] in multiset(q);
    assert q[i] in multiset(r);
  }

  lemma SameDistinct<T>(q: seq<Event<T>>, r: seq<Event<T>>)
    requires multiset(q) == multiset(r) && Distinct(q)
    ensures Distinct(r)
  {
    forall i, j | 0 <= i < j < |r| ensures r[i].key.sequence != r[j].key.sequence {
      if r[i].key.sequence == r[j].key.sequence {
        SameElement(r, q, i);
        SameElement(r, q, j);
        var a :| 0 <= a < |q| && q[a] == r[i];
        var b :| 0 <= b < |q| && q[b] == r[j];
        Twice(q, r, i, j, a, b);
      }
    }
  }

  lemma Twice<T>(q: seq<Event<T>>, r: seq<Event<T>>, i: nat, j: nat, a: nat, b: nat)
    requires multiset(q) == multiset(r) && Distinct(q) && i < j < |r| && a < |q| && b < |q| && q[a] == r[i] && q[b] == r[j]
    ensures r[i].key.sequence != r[j].key.sequence
  {
    if a == b {
      assert r == r[..i] + [r[i]] + r[i + 1..j] + [r[j]] + r[j + 1..];
      assert multiset(r)[r[i]] >= 2;
      OnlyOnce(q, a);
    }
  }

  lemma OnlyOnce<T>(q: seq<Event<T>>, a: nat)
    requires Distinct(q) && a < |q|
    ensures multiset(q)[q[a]] == 1
  {
    assert q == q[..a] + [q[a]] + q[a + 1..];
    assert q[a] !in q[..a] && q[a] !in q[a + 1..];
  }

  /** The least event is the same in every arrangement. */
  lemma SameLeast<T>(q: seq<Event<T>>, r: seq<Event<T>>)
    requires multiset(q) == multiset(r) && Distinct(q) && q != []
    ensures r != [] && Distinct(r) && q[Least(q)] == r[Least(r)]
    ensures multiset(Without(q, Least(q))) == multiset(Without(r, Least(r)))
  {
    hide Least, Without;
    SameDistinct(q, r);
    SameElement(q, r, 0);
    LeastIs(q);
    LeastIs(r);
    SameElement(q, r, Least(q));
    SameElement(r, q, Least(r));
    var j :| 0 <= j < |r| && r[j] == q[Least(q)];
    var i :| 0 <= i < |q| && q[i] == r[Least(r)];
    if i != Least(q) {
      assert Less(q[Least(q)].key, q[i].key);
      if j != Least(r) {
        assert Less(r[Least(r)].key, r[j].key);
        LessTotal(q[i].key, q[Least(q)].key);
      }
    }
    WithoutIs(q, Least(q));
    WithoutIs(r, Least(r));
  }

  lemma WithoutIs<T>(q: seq<Event<T>>, i: nat)
    requires i < |q|
    ensures multiset(Without(q, i)) == multiset(q) - multiset{q[i]}
  {
    assert q == q[..i] + [q[i]] + q[i + 1..];
  }

  /** The same scheduler in another arrangement answers the same and stays the same. */
  lemma SameDo<T>(a: Sched<T>, b: Sched<T>, op: Op<T>)
    requires SchedOk(a) && Same(a, b)
    ensures Do(a, op).1 == Do(b, op).1 && Same(Do(a, op).0, Do(b, op).0)
  {
    hide Least, Without;
    if op.Take? {
      if a.pending == [] {
        assert |multiset(b.pending)| == 0;
      } else {
        SameLeast(a.pending, b.pending);
      }
    }
  }

  lemma {:induction false} SameRun<T>(a: Sched<T>, b: Sched<T>, ops: seq<Op<T>>)
    requires SchedOk(a) && Same(a, b)
    ensures SchedOk(Run(a, ops).0) && Same(Run(a, ops).0, Run(b, ops).0) && Run(a, ops).1 == Run(b, ops).1
  {
    hide Do, SchedOk, Same;
    if ops != [] {
      var front, op := ops[..|ops| - 1], ops[|ops| - 1];
      SameRun(a, b, front);
      SameDo(Run(a, front).0, Run(b, front).0, op);
      DoOk(Run(a, front).0, op);
    }
  }

  /** A snapshot with its queue in another order is one `restore` accepts. */
  lemma RestorePermuted<T>(s: Sched<T>, q: seq<Event<T>>)
    requires SchedOk(s) && multiset(q) == multiset(s.pending)
    ensures Restorable(s.(pending := q)) && Same(s, s.(pending := q))
  {
    SameDistinct(s.pending, q);
    forall i | 0 <= i < |q| ensures PendingOk(q[i].key, s.last, s.next) {
      SameElement(q, s.pending, i);
    }
  }

  /** Snapshot and restore: after any operations, the snapshot, its queue in any permutation, is accepted, and the
      restored scheduler answers every later operation as the original does. */
  lemma RestoredFuture<T>(limit: nat, before: seq<Op<T>>, q: seq<Event<T>>, after: seq<Op<T>>)
    requires multiset(q) == multiset(Run(Fresh<T>(limit), before).0.pending)
    ensures var s := Run(Fresh<T>(limit), before).0;
      Restorable(s.(pending := q)) && Run(s.(pending := q), after).1 == Run(s, after).1
  {
    hide Run, Restorable, Log;
    RunOk<T>(limit, before);
    var (s, answers) := Run(Fresh<T>(limit), before);
    LogIsOk(s, Log(answers));
    RestorePermuted(s, q);
    SameRun(s, s.(pending := q), after);
  }

  lemma LogIsOk<T>(s: Sched<T>, ks: seq<Key>)
    requires LogOk(s, ks)
    ensures SchedOk(s)
  {
  }
}
