/** A traced session (runtime/src/runtime.rs): its recorded trace, at every event boundary, is a prefix that `check_prefix`
    accepts for its own history. */
module TraceRun {
  import opened Words
  import opened Config
  import opened Scheduler
  import opened Trace

  /** An execution digest, and the hash that chains an event to it. */
  type Digest = seq<Byte>
  type Chain = (Digest, CanonicalEvent) -> Digest

  const START: Digest :=
    [0, 0, 0, 0, 0, 0, 0, 0, 0, 0, 0, 0, 0, 0, 0, 0, 0, 0, 0, 0, 0, 0, 0, 0, 0, 0, 0, 0, 0, 0, 0, 0]

  function Chained(chain: Chain, digest: Digest, e: CanonicalEvent): Digest {
    chain(digest, e)
  }

  /** What an event carries in the queue. */
  datatype Pending = Pending(source: Word, target: Word, delivery: Delivered)

  datatype Session = Session(sched: Sched<Pending>, digest: Digest, records: seq<Record>)

  // ----- The prefix check -----

  /** The last dispatched key and the digest a prefix replays to; `None` if a record is out of place. */
  function Replay(chain: Chain, records: seq<Record>, components: nat): (r: Option<(Option<Key>, Digest)>) {
    if records == [] then Some((None, START))
    else
      var before := Replay(chain, records[..|records| - 1], components);
      if before.None? then None else ReplayOne(chain, before.value.0, before.value.1, records[|records| - 1], components)
  }

  /** One record of a prefix. */
  function ReplayOne(chain: Chain, current: Option<Key>, digest: Digest, r: Record, components: nat): Option<(Option<Key>, Digest)> {
    if r.component >= components then None
    else if r.runtime then
      var e := DispatchedEvent(r);
      if e.None? || (current.Some? && !Less(current.value, e.value.key)) then None
      else Some((Some(e.value.key), Chained(chain, digest, e.value)))
    else if (r.at.Init? && current.None?) || (r.at.During? && current == Some(r.at.key)) then Some((current, digest))
    else None
  }

  datatype ResumeError = MalformedRecord(index: nat) | HistoryMismatch

  /** `check_prefix`: a loop over the records with the running key and digest. */
  method CheckPrefix(chain: Chain, records: seq<Record>, components: nat, last: Option<Key>, digest: Digest) returns (r: Result<(), ResumeError>)
    ensures r.Ok? <==> Replay(chain, records, components) == Some((last, digest))
  {
    hide DispatchedEvent;
    var replayed, current := START, None;
    var i := 0;
    assert records[..0] == [];
    while i < |records|
      invariant 0 <= i <= |records| && Replay(chain, records[..i], components) == Some((current, replayed))
    {
      assert records[..i + 1][..i] == records[..i];
      var record := records[i];
      if ReplayOne(chain, current, replayed, record, components).None? {
        BadRecord(chain, records, i + 1, components);
      }
      if record.component >= components {
        return Err(MalformedRecord(i));
      }
      if record.runtime {
        var e := DispatchedEvent(record);
        if e.None? || (current.Some? && !Less(current.value, e.value.key)) {
          return Err(MalformedRecord(i));
        }
        replayed := Chained(chain, replayed, e.value);
        current := Some(e.value.key);
      } else if !((record.at.Init? && current.None?) || (record.at.During? && current == Some(record.at.key))) {
        return Err(MalformedRecord(i));
      }
      i := i + 1;
    }
    assert records[..i] == records;
    if current != last || replayed != digest {
      return Err(HistoryMismatch);
    }
    return Ok(());
  }

  /** A record out of place spoils every longer prefix. */
  lemma {:induction false} BadRecord(chain: Chain, records: seq<Record>, i: nat, components: nat)
    requires i <= |records| && Replay(chain, records[..i], components).None?
    ensures Replay(chain, records, components).None?
  {
    if i == |records| {
      assert records[..i] == records;
    } else {
      var front := records[..|records| - 1];
      assert front[..i] == records[..i];
      BadRecord(chain, front, i, components);
    }
  }

  // ----- The session -----

  /** A record a component's handler or initializer asks for. */
  datatype Note = Note(kind: string, fields: seq<Field>)

  /** The notes of component `me`, recorded at `at`. */
  function NoteRecords(notes: seq<Note>, me: Word, at: At): (rs: seq<Record>)
    ensures |rs| == |notes|
  {
    seq(|notes|, i requires 0 <= i < |notes| => Record(at, false, me, notes[i].kind, notes[i].fields))
  }

  /** One component's `init`: its notes and the events it schedules. */
  function Initialize(s: Session, me: Word, notes: seq<Note>, puts: seq<Op<Pending>>): Session {
    Session(Run(s.sched, puts).0, s.digest, s.records + NoteRecords(notes, me, Init))
  }

  function EventOf(e: Event<Pending>): CanonicalEvent {
    CanonicalEvent(e.key, e.payload.source, e.payload.target, e.payload.delivery)
  }

  function RecordOf(e: Event<Pending>): Record {
    DispatchRecord(During(e.key), e.payload.source, e.payload.target, e.payload.delivery)
  }

  /** `dispatch`: the next event is chained into the digest and recorded, then its handler's notes and schedules. `None`
      when there is none, or the scheduler refuses. */
  function Dispatch(chain: Chain, s: Session, notes: seq<Note>, puts: seq<Op<Pending>>): Option<Session> {
    var popped := Pop(s.sched);
    if popped.Err? || popped.value.1.None? then None
    else
      var e := popped.value.1.value;
      Some(Session(Run(popped.value.0, puts).0, Chained(chain, s.digest, EventOf(e)),
                   s.records + [RecordOf(e)] + NoteRecords(notes, e.payload.target, During(e.key))))
  }

  /** Handlers schedule; they never pop. */
  predicate OnlyPuts(ops: seq<Op<Pending>>, components: nat) {
    forall i :: 0 <= i < |ops| ==> ops[i].Put? && ops[i].payload.target < components
  }

  /** Every queued event has a component to go to. */
  predicate Targeted(q: seq<Event<Pending>>, components: nat) {
    forall i :: 0 <= i < |q| ==> q[i].payload.target < components
  }

  /** A session whose trace replays to its own last key and digest. */
  ghost predicate Replays(chain: Chain, s: Session, components: nat) {
    && SchedOk(s.sched) && Targeted(s.sched.pending, components)
    && Replay(chain, s.records, components) == Some((s.sched.last, s.digest))
  }

  lemma {:induction false} PutsKeep(s: Sched<Pending>, puts: seq<Op<Pending>>, components: nat)
    requires SchedOk(s) && Targeted(s.pending, components) && OnlyPuts(puts, components)
    ensures var n := Run(s, puts).0; SchedOk(n) && n.last == s.last && Targeted(n.pending, components)
  {
    hide SchedOk;
    if puts != [] {
      var front, op := puts[..|puts| - 1], puts[|puts| - 1];
      PutsKeep(s, front, components);
      DoOk(Run(s, front).0, op);
    }
  }

  lemma ReplayMore(chain: Chain, records: seq<Record>, r: Record, components: nat)
    ensures var before := Replay(chain, records, components);
      Replay(chain, records + [r], components)
      == if before.None? then None else ReplayOne(chain, before.value.0, before.value.1, r, components)
  {
    assert (records + [r])[..|records|] == records;
  }

  /** A component's notes, recorded where the trace stands, change nothing. */
  lemma {:induction false} NotesReplay(chain: Chain, records: seq<Record>, notes: seq<Note>, me: Word, at: At, components: nat)
    requires me < components && Replay(chain, records, components).Some?
    requires var c := Replay(chain, records, components).value.0; if at.Init? then c.None? else c == Some(at.key)
    ensures Replay(chain, records + NoteRecords(notes, me, at), components) == Replay(chain, records, components)
  {
    hide Replay;
    if notes == [] {
      assert records + NoteRecords(notes, me, at) == records;
    } else {
      var n := |notes| - 1;
      NotesReplay(chain, records, notes[..n], me, at, components);
      var before := records + NoteRecords(notes[..n], me, at);
      var r := NoteRecords(notes, me, at)[n];
      assert NoteRecords(notes, me, at) == NoteRecords(notes[..n], me, at) + [r];
      assert records + NoteRecords(notes, me, at) == before + [r];
      ReplayMore(chain, before, r, components);
    }
  }

  lemma InitializeReplays(chain: Chain, s: Session, me: Word, notes: seq<Note>, puts: seq<Op<Pending>>, components: nat)
    requires Replays(chain, s, components) && s.sched.last.None? && me < components && OnlyPuts(puts, components)
    ensures Replays(chain, Initialize(s, me, notes, puts), components) && Initialize(s, me, notes, puts).sched.last.None?
  {
    hide Replay, SchedOk, Run;
    PutsKeep(s.sched, puts, components);
    NotesReplay(chain, s.records, notes, me, Init, components);
  }

  lemma DispatchReplays(chain: Chain, s: Session, notes: seq<Note>, puts: seq<Op<Pending>>, components: nat)
    requires Replays(chain, s, components) && OnlyPuts(puts, components) && Dispatch(chain, s, notes, puts).Some?
    ensures Replays(chain, Dispatch(chain, s, notes, puts).value, components)
  {
    hide Replay, SchedOk, Run, Pop, DispatchedEvent, DispatchRecord;
    var n, e := Pop(s.sched).value.0, Pop(s.sched).value.1.value;
    var p := e.payload;
    PopOk(s.sched);
    PopTargets(s.sched, components);
    PutsKeep(n, puts, components);
    var record := RecordOf(e);
    RecordRoundTrip(EventOf(e));
    RecordIs(During(e.key), p.source, p.target, p.delivery);
    ReplayMore(chain, s.records, record, components);
    NotesReplay(chain, s.records + [record], notes, p.target, During(e.key), components);
  }

  lemma RecordIs(at: At, source: Word, target: Word, d: Delivered)
    ensures var r := DispatchRecord(at, source, target, d); r.runtime && r.component == target
  {
  }

  lemma PopTargets(s: Sched<Pending>, components: nat)
    requires Targeted(s.pending, components) && Pop(s).Ok? && Pop(s).value.1.Some?
    ensures Targeted(Pop(s).value.0.pending, components) && Pop(s).value.1.value.payload.target < components
  {
  }

  // ----- Whole runs -----

  /** A step of a session: a component initialized, or an event dispatched. */
  datatype Step = Starts(me: Word, notes: seq<Note>, puts: seq<Op<Pending>>) | Runs(notes: seq<Note>, puts: seq<Op<Pending>>)

  /** A step the runtime makes: initialization before the first event, by a component of the session. */
  predicate Legal(s: Session, step: Step, components: nat) {
    match step
    case Starts(me, _, puts) => s.sched.last.None? && me < components && OnlyPuts(puts, components)
    case Runs(_, puts) => OnlyPuts(puts, components)
  }

  function NewSession(limit: nat): Session {
    Session(Fresh(limit), START, [])
  }

  function Steps(chain: Chain, limit: nat, steps: seq<Step>, components: nat): Option<Session> {
    if steps == [] then Some(NewSession(limit))
    else
      var before := Steps(chain, limit, steps[..|steps| - 1], components);
      var step := steps[|steps| - 1];
      if before.None? || !Legal(before.value, step, components) then None
      else
        match step
        case Starts(me, notes, puts) => Some(Initialize(before.value, me, notes, puts))
        case Runs(notes, puts) => Dispatch(chain, before.value, notes, puts)
  }

  /** A run's own trace always replays: at every boundary `check_prefix` accepts the recorded records for the run's last
      key and chained digest, whatever the hash. */
  lemma {:induction false} TraceReplays(chain: Chain, limit: nat, steps: seq<Step>, components: nat)
    ensures var s := Steps(chain, limit, steps, components); s.Some? ==> Replays(chain, s.value, components)
  {
    hide Replays, Legal, Dispatch, Initialize;
    if steps == [] {
      StartReplays(chain, limit, components);
    } else {
      var front, step := steps[..|steps| - 1], steps[|steps| - 1];
      TraceReplays(chain, limit, front, components);
      var s := Steps(chain, limit, front, components);
      if s.Some? && Legal(s.value, step, components) {
        LegalIs(s.value, step, components);
        match step
        case Starts(me, notes, puts) => InitializeReplays(chain, s.value, me, notes, puts, components);
        case Runs(notes, puts) =>
          if Dispatch(chain, s.value, notes, puts).Some? {
            DispatchReplays(chain, s.value, notes, puts, components);
          }
      }
    }
  }

  lemma LegalIs(s: Session, step: Step, components: nat)
    requires Legal(s, step, components)
    ensures OnlyPuts(step.puts, components) && (step.Starts? ==> s.sched.last.None? && step.me < components)
  {
  }

  lemma StartReplays(chain: Chain, limit: nat, components: nat)
    ensures Replays(chain, NewSession(limit), components)
  {
  }
}
