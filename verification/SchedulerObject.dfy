/** The scheduler in place, and `restore` as the checks it makes. */
module SchedulerObject {
  import opened Words
  import opened Config
  import S = Scheduler
  import opened Scheduler
  import Sequences

  datatype RestoreError =
    | DuplicateSequence(sequence: Long) | SequenceNotYetAssigned(sequence: Long)
    | EventBeforeCursor(key: Key) | ObservePhaseEvent(key: Key) | InvalidPhaseCount(count: nat)

  class EventScheduler<T> {
    const limit: nat
    var last: Option<Key>
    var count: nat
    var nextSequence: Long
    var heap: seq<Event<T>>

    ghost function State(): Sched<T>
      reads this
    {
      Sched(limit, last, count, nextSequence, heap)
    }

    ghost predicate Valid()
      reads this
    {
      SchedOk(State())
    }

    constructor (limit: nat)
      ensures Valid() && State() == Fresh(limit)
    {
      this.limit := limit;
      last, count, nextSequence, heap := None, 0, 0, [];
    }

    /** A scheduler with a restored state. */
    constructor Restored(s: Sched<T>)
      ensures State() == s
    {
      limit := s.limit;
      last, count, nextSequence, heap := s.last, s.count, s.next, s.pending;
    }

    method Schedule(tick: nat, phase: Phase, payload: T) returns (r: Result<Key, SimError>)
      requires Valid()
      modifies this`nextSequence, this`heap
      ensures Valid()
      ensures match S.Schedule(old(State()), tick, phase, payload)
              case Err(e) => r == Err(e) && State() == old(State())
              case Ok((n, k)) => r == Ok(k) && State() == n
    {
      hide SchedOk;
      ScheduleOk(State(), tick, phase, payload);
      var now, current := if last.Some? then last.value.tick else 0, if last.Some? then last.value.phase else Request;
      if phase == Observe {
        return Err(PhaseViolation);
      }
      if tick < now {
        return Err(PastTick);
      }
      if tick == now && phase.Rank() < current.Rank() {
        return Err(PhaseViolation);
      }
      if nextSequence == LONG_MAX {
        return Err(SequenceOverflow);
      }
      var key := Key(tick, phase, nextSequence);
      nextSequence := nextSequence + 1;
      heap := heap + [Event(key, payload)];
      return Ok(key);
    }

    method Pop() returns (r: Result<Option<Event<T>>, SimError>)
      requires Valid()
      modifies this`last, this`count, this`heap
      ensures Valid()
      ensures match S.Pop(old(State()))
              case Err(e) => r == Err(e) && State() == old(State())
              case Ok((n, e)) => r == Ok(e) && State() == n
    {
      hide SchedOk, Least;
      PopOk(State());
      if heap == [] {
        return Ok(None);
      }
      var i := FindLeast(heap);
      var event := heap[i];
      var n := if last.Some? && SamePhase(last.value, event.key) then count + 1 else 1;
      if n > limit {
        return Err(SameTickLivelock);
      }
      heap := heap[..i] + heap[i + 1..];
      last := Some(event.key);
      count := n;
      return Ok(Some(event));
    }

    /** The full state, the queue sorted by key. */
    method Snapshot() returns (s: Sched<T>)
      requires Valid()
      ensures Same(s, State()) && KeysAscend(s.pending)
    {
      ByKeyIs(heap);
      s := Sched(limit, last, count, nextSequence, ByKey(heap));
    }
  }

  method FindLeast<T>(q: seq<Event<T>>) returns (i: nat)
    requires q != []
    ensures i == Least(q)
  {
    i := 0;
    var n := 1;
    assert q[..1] == [q[0]];
    while n < |q|
      invariant 1 <= n <= |q| && i < n && i == Least(q[..n])
    {
      assert q[..n + 1][..n] == q[..n];
      if Less(q[n].key, q[i].key) {
        i := n;
      }
      n := n + 1;
    }
    assert q[..n] == q;
  }

  /** The events by key. */
  function ByKey<T>(q: seq<Event<T>>): (r: seq<Event<T>>)
    decreases |q|
  {
    if q == [] then [] else [q[Least(q)]] + ByKey(Without(q, Least(q)))
  }

  predicate KeysAscend<T>(q: seq<Event<T>>) {
    forall i, j :: 0 <= i < j < |q| ==> Less(q[i].key, q[j].key)
  }

  lemma {:induction false} ByKeyIs<T>(q: seq<Event<T>>)
    requires Distinct(q)
    ensures multiset(ByKey(q)) == multiset(q) && KeysAscend(ByKey(q))
    decreases |q|
  {
    hide Less, Least, Without, Distinct;
    if q != [] {
      var k := Least(q);
      var rest := Without(q, k);
      LeastIs(q);
      RestAfter(q, k);
      WithoutIs(q, k);
      ByKeyIs(rest);
      FirstThen(q[k], ByKey(rest), rest);
    }
  }

  lemma FirstThen<T>(e: Event<T>, r: seq<Event<T>>, rest: seq<Event<T>>)
    requires KeysAscend(r) && multiset(r) == multiset(rest) && forall j :: 0 <= j < |rest| ==> Less(e.key, rest[j].key)
    ensures KeysAscend([e] + r)
  {
    hide Less;
    forall j | 0 <= j < |r| ensures Less(e.key, r[j].key) {
      SameElement(r, rest, j);
    }
  }

  /** Without its least event, a list holds the others, all after it. */
  lemma RestAfter<T>(q: seq<Event<T>>, k: nat)
    requires k < |q| && Distinct(q) && forall j :: 0 <= j < |q| && j != k ==> Less(q[k].key, q[j].key)
    ensures var r := Without(q, k);
      |r| == |q| - 1 && Distinct(r) && forall j :: 0 <= j < |r| ==> Less(q[k].key, r[j].key)
  {
    hide Less;
  }

  /** `restore`: it accepts exactly the restorable snapshots, and the scheduler it returns has that state but for the
      arrangement of the heap. */
  method Restore<T>(s: Sched<T>) returns (r: Result<EventScheduler<T>, RestoreError>)
    ensures r.Ok? <==> Restorable(s)
    ensures r.Ok? ==> fresh(r.value) && Same(r.value.State(), s)
  {
    hide Less, InSequence;
    if !(if s.last.Some? then 1 <= s.count <= s.limit else s.count == 0) {
      return Err(InvalidPhaseCount(s.count));
    }
    var queue := InSequence(s.pending);
    var i := 0;
    while i + 1 < |queue|
      invariant 0 <= i && (i == 0 || i < |queue|)
      invariant forall j :: 0 <= j < i ==> queue[j].key.sequence < queue[j + 1].key.sequence
    {
      if queue[i].key.sequence == queue[i + 1].key.sequence {
        RepeatedSequence(queue, s.pending, i);
        return Err(DuplicateSequence(queue[i].key.sequence));
      }
      i := i + 1;
    }
    StrictlySorted(queue);
    SameDistinct(queue, s.pending);
    i := 0;
    while i < |queue|
      invariant 0 <= i <= |queue| && forall j :: 0 <= j < i ==> PendingOk(queue[j].key, s.last, s.next)
    {
      var key := queue[i].key;
      SameElement(queue, s.pending, i);
      if key.sequence >= s.next {
        return Err(SequenceNotYetAssigned(key.sequence));
      }
      if key.phase == Observe {
        return Err(ObservePhaseEvent(key));
      }
      if s.last.Some? && !Less(s.last.value, key) {
        return Err(EventBeforeCursor(key));
      }
      i := i + 1;
    }
    forall k | 0 <= k < |s.pending| ensures PendingOk(s.pending[k].key, s.last, s.next) {
      SameElement(s.pending, queue, k);
    }
    var restored := new EventScheduler<T>.Restored(s.(pending := queue));
    return Ok(restored);
  }

  predicate BySequence<T>(q: seq<Event<T>>) {
    forall i, j :: 0 <= i < j < |q| ==> q[i].key.sequence <= q[j].key.sequence
  }

  /** The events by sequence. */
  function InSequence<T>(q: seq<Event<T>>): (r: seq<Event<T>>)
    ensures multiset(r) == multiset(q) && BySequence(r)
  {
    var key := (e: Event<T>) => e.key.sequence as int;
    Sequences.SortSorts(q, key);
    Sequences.SortBy(q, key)
  }

  lemma {:induction false} StrictlySorted<T>(q: seq<Event<T>>)
    requires BySequence(q) && forall j :: 0 <= j && j + 1 < |q| ==> q[j].key.sequence < q[j + 1].key.sequence
    ensures Distinct(q)
  {
    forall i, j | 0 <= i < j < |q| ensures q[i].key.sequence != q[j].key.sequence {
      assert q[i].key.sequence < q[i + 1].key.sequence;
    }
  }

  /** Equal neighbours in sorted order are a repetition in any order. */
  lemma RepeatedSequence<T>(q: seq<Event<T>>, r: seq<Event<T>>, i: nat)
    requires multiset(q) == multiset(r) && i + 1 < |q| && q[i].key.sequence == q[i + 1].key.sequence
    ensures !Distinct(r)
  {
    if Distinct(r) {
      SameDistinct(r, q);
    }
  }
}
