/** `Model` in place (components/os/src/procop.rs): its methods change the process table, the life and the entry count,
    and leave what the decision functions give. Between operations and in every stage the model keeps what the next call
    needs, so that the engine can call it for ever. */
module ModelObject {
  import opened Words
  import opened Core
  import opened Config
  import opened Image
  import opened Space
  import opened UserCopy
  import P = Processes
  import opened Processes
  import opened ProcessTable
  import opened ExecTables
  import opened ProcOps
  import M = Models
  import opened Models
  import ModelKept
  import opened ModelRun
  import U = UserElf
  import UX = UserElfExact

  class KernelModel {
    const config: KernelConfig
    const source: Source
    const table: Table
    var entries: nat
    var life: Life

    ghost function Now(): Model
      reads this, table
    {
      Model(source, entries, table.State(), life)
    }

    ghost predicate Valid()
      reads this, table
    {
      M.Ready(config, Now())
    }

    /** No operation is under way. */
    ghost predicate Rests()
      reads this, table
    {
      AtRest(config, Now())
    }

    /** An operation is under way, in stage `s`. */
    ghost predicate Serves(s: Stage)
      reads this, table
    {
      Within(config, Now(), s)
    }

    /** A model awaiting boot over the process table `t`. */
    constructor (c: KernelConfig, s: Source, t: Table)
      requires ValidSource(c, s) && t.State().frames.Wide()
      ensures Valid() && config == c && source == s && table == t && Now() == NewModel(s, t.State())
    {
      config, source, table := c, s, t;
      entries := if s.Plan? then |s.images| else 0;
      life := AwaitBoot;
    }

    /** Whether every process exited with status 0. */
    method AllClean() returns (clean: bool)
      ensures clean <==> forall p :: p in table.pcbs ==> p.state == Exited(0)
    {
      var i := 0;
      while i < |table.pcbs|
        invariant 0 <= i <= |table.pcbs| && forall k :: 0 <= k < i ==> table.pcbs[k].state == Exited(0)
      {
        if table.pcbs[i].state != Exited(0) {
          assert table.pcbs[i] in table.pcbs;
          return false;
        }
        i := i + 1;
      }
      return true;
    }

    method DispatchNext() returns (r: Result<Stage, Violation>)
      modifies this`life, table
      ensures |table.owners| == |old(table.owners)|
      ensures Turn(Now(), r) == M.DispatchNext(old(Now()))
      ensures table.State().frames == old(table.State().frames)
    {
      ScheduleFrames(table.State());
      var o := table.ScheduleNext();
      if o.Err? {
        return Err(o.error);
      }
      if o.value.Some? {
        var (pid, context) := o.value.value;
        var k := Find(table.pcbs, pid);
        if k == |table.pcbs| {
          return Err(QueuedNoPcb);
        }
        return Ok(Dispatch(pid, context, Satp(table.pcbs[k].root)));
      }
      var clean := AllClean();
      var reason := if |table.pcbs| == entries && clean then 0 else 1;
      life := Down;
      return Ok(Shutdown(reason));
    }

    /** The loop over the images from `from` on: the first that can be created, its frames reserved. */
    method NextCreation(from: nat) returns (r: Result<Stage, Violation>)
      requires Valid()
      modifies this`life, table
      ensures |table.owners| == |old(table.owners)|
      ensures Turn(Now(), r) == M.NextCreation(config, old(Now()), from)
      ensures Valid()
      ensures old(Sound(config, Now(), None) && source.Plan? && from <= |source.images| && Booting(Now(), from)) ==> r.Ok? && Serves(r.value)
    {
      hide ValidSource, M.DispatchNext, MegapageConflict, FramesNeeded, Built, SetOwner, OwnedBy, Sound, Booting, Within;
      if source.Disk? {
        return Err(NoPlan);
      }
      if Sound(config, Now(), None) && from <= |source.images| && Booting(Now(), from) {
        CreationGood(config, Now(), from);
      }
      var index := from;
      while index < |source.images|
        invariant Valid() && Now() == old(Now())
        invariant M.NextCreation(config, Now(), index) == M.NextCreation(config, Now(), from)
        decreases |source.images| - index
      {
        ModelKept.LayoutOf(config, Now());
        var b := source.images[index];
        if !MegapageConflict(b.image, config) {
          var frames := table.Reserve(index + 1, FramesNeeded(b.image, source.layout));
          if frames.Some? {
            SourceImage(config, source, index);
            PlanBuildable(config, source.layout, b, frames.value);
            var space := Build(config, source.layout, b, frames.value);
            return Ok(Create(index + 1, space));
          }
        }
        index := index + 1;
      }
      r := DispatchNext();
    }

    /** Admits the created process `pid`. */
    method AdmitNew(pid: Word, entry: Word, s: Space) returns (r: Result<(), Violation>)
      requires Valid()
      modifies table
      ensures |table.owners| == |old(table.owners)|
      ensures Turn(Now(), r) == M.AdmitNew(old(Now()), pid, entry, s)
      ensures Valid()
    {
      hide ValidSource, P.Admit;
      AdmitFrames(table.State(), NewPcb(pid, s, InitialContext(entry, source.layout.stackTop)));
      r := table.Admit(NewPcb(pid, s, InitialContext(entry, source.layout.stackTop)));
    }

    method NextLoad(execs: Option<ExecTable>, index: nat) returns (r: Result<Stage, Violation>)
      modifies this`life, table
      ensures |table.owners| == |old(table.owners)|
      ensures Turn(Now(), r) == M.NextLoad(old(Now()), execs, index)
    {
      hide M.DispatchNext;
      if execs.Some? && index < |execs.value.entries| {
        return Ok(Command(Cursor(execs, index)));
      }
      r := DispatchNext();
    }

    method Acked(cursor: Cursor, error: Byte) returns (r: Result<Stage, Violation>)
      requires cursor.Ok()
      modifies this`life, table
      ensures |table.owners| == |old(table.owners)|
      ensures Turn(Now(), r) == M.Acked(old(Now()), cursor, error)
    {
      hide M.NextLoad;
      if error == 0 {
        return Ok(Staged(cursor, cursor.FirstRead()));
      }
      if cursor.table.None? {
        life := Down;
        return Ok(Shutdown(1));
      }
      r := NextLoad(cursor.table, cursor.index + 1);
    }

    /** Block 0 has been read. */
    method TableRead(data: seq<Byte>) returns (r: Result<Stage, Violation>)
      requires source.Disk?
      modifies this`life, this`entries, table
      ensures |table.owners| == |old(table.owners)|
      ensures Turn(Now(), r) == M.TableRead(config, old(Now()), source.capacity, data)
    {
      hide M.NextLoad, ExecTables.Parsed;
      if |data| != BLOCK_SIZE {
        return Err(BadBlock);
      }
      var parsed := ExecTables.Parsed(data, source.capacity, StagingSize(config));
      if parsed.Err? {
        life := Down;
        return Ok(Shutdown(1));
      }
      entries := |parsed.value.entries|;
      r := NextLoad(Some(parsed.value), 0);
    }

    /** An executable's headers have been read. */
    method HeadersRead(cursor: Cursor, len: nat, data: seq<Byte>) returns (r: Result<Stage, Violation>)
      requires Valid() && source.Disk? && CursorOk(config, source.capacity, cursor) && cursor.table.Some? && cursor.index < MAX_ENTRIES
      modifies this`life, table
      ensures |table.owners| == |old(table.owners)|
      ensures Turn(Now(), r) == M.StagedRead(config, old(Now()), cursor, len, data)
    {
      hide ValidSource, M.NextLoad, M.LoadImage, U.Parsed, EntriesError, Accepted;
      var n := cursor.Entry().value.byteLen;
      var parsed := U.Parse(data, n, UX.RangeOf(source.layout));
      if parsed.Ok? {
        EntryAccepted(config, source, cursor, data);
        r := LoadImage(cursor, data, parsed.value);
      } else if parsed.error.PrefixTooShort? && parsed.error.needed > len {
        return Ok(Staged(cursor, parsed.error.needed));
      } else {
        r := NextLoad(cursor.table, cursor.index + 1);
      }
    }

    method LoadImage(cursor: Cursor, headers: seq<Byte>, image: UserImage) returns (r: Result<Stage, Violation>)
      requires Valid() && source.Disk? && CursorOk(config, source.capacity, cursor) && cursor.table.Some? && cursor.index < MAX_ENTRIES
      requires Accepted(Staging(config, cursor.Entry().value.byteLen, image), config, source.layout)
      modifies this`life, table
      ensures |table.owners| == |old(table.owners)|
      ensures Turn(Now(), r) == M.LoadImage(config, old(Now()), cursor, headers, image)
    {
      hide ValidSource, M.NextLoad, EntriesError, MegapageConflict, FramesNeeded, Built, SetOwner, OwnedBy, Accepted;
      ModelKept.LayoutOf(config, Now());
      if !MegapageConflict(image, config) {
        var frames := table.Reserve(cursor.index + 1, FramesNeeded(image, source.layout));
        if frames.Some? {
          var b := Staging(config, cursor.Entry().value.byteLen, image);
          LayoutValid(config, source);
          PlanBuildable(config, source.layout, b, frames.value);
          var space := Build(config, source.layout, b, frames.value);
          return Ok(Load(cursor, headers, image, space));
        }
      }
      r := NextLoad(cursor.table, cursor.index + 1);
    }

    /** Ends the running process with `state`. */
    method EndCall(state: ProcState) returns (r: Result<Stage, Violation>)
      modifies this`life, table
      ensures |table.owners| == |old(table.owners)|
      ensures Turn(Now(), r) == M.EndCall(old(Now()), state)
    {
      hide M.DispatchNext, P.EndCurrent;
      var o := table.EndCurrent(state);
      if o.Err? {
        return Err(o.error);
      }
      r := DispatchNext();
    }

    method YieldCall(frame: FrameBytes) returns (r: Result<Stage, Violation>)
      modifies this`life, table
      ensures |table.owners| == |old(table.owners)|
      ensures Turn(Now(), r) == M.YieldCall(old(Now()), frame)
    {
      hide M.DispatchNext, P.YieldCurrent;
      var o := table.YieldCurrent(YieldContext(frame));
      if o.Err? {
        return Err(o.error);
      }
      r := DispatchNext();
    }

    /** The running process's root table. */
    method FindRoot() returns (r: Result<Word, Violation>)
      ensures r == RunningRoot(Now())
    {
      if table.current.None? {
        return Err(NoRunningProcess);
      }
      var k := Find(table.pcbs, table.current.value);
      if k == |table.pcbs| {
        return Err(NoPcb);
      }
      return Ok(table.pcbs[k].root);
    }

    method WriteCall(frame: FrameBytes) returns (r: Result<Stage, Violation>)
      ensures Turn(Now(), r) == M.WriteCall(Now(), frame)
    {
      hide WordIn, RunningRoot;
      var sepc, fd := WordIn(frame, FRAME_SEPC), WordIn(frame, FRAME_A0);
      var n := Min(WordIn(frame, FRAME_A2), WRITE_MAX);
      var buffer := if n == 0 then None else NewBuffer(sepc, WordIn(frame, FRAME_A1), n);
      if (fd != 1 && fd != 2) || n == 0 || buffer.None? {
        if table.current.None? {
          return Err(NoRunningProcess);
        }
        return Ok(Return(sepc, if fd != 1 && fd != 2 then Neg(EBADF) else if n == 0 then 0 else Neg(EFAULT)));
      }
      var root := FindRoot();
      if root.Err? {
        return Err(root.error);
      }
      return Ok(Walk(buffer.value, [], root.value, 1));
    }

    /** The syscall in the frame. */
    method Syscall(frame: FrameBytes) returns (r: Result<Stage, Violation>)
      modifies this`life, table
      ensures |table.owners| == |old(table.owners)|
      ensures Turn(Now(), r) == M.Syscall(old(Now()), frame)
    {
      hide WordIn, M.WriteCall, M.YieldCall, M.EndCall;
      if table.current.None? {
        return Err(NoRunningProcess);
      }
      var nr, sepc := WordIn(frame, FRAME_A7), WordIn(frame, FRAME_SEPC);
      if nr == 172 {
        return Ok(Return(sepc, table.current.value));
      } else if nr == 64 {
        r := WriteCall(frame);
      } else if nr == 124 {
        r := YieldCall(frame);
      } else if nr == 93 || nr == 94 {
        r := EndCall(Exited(Signed(WordIn(frame, FRAME_A0))));
      } else {
        return Ok(Return(sepc, Neg(ENOSYS)));
      }
    }

    /** The decision after a trap. */
    method Decide(frame: FrameBytes) returns (r: Result<Stage, Violation>)
      modifies this`life, table
      ensures |table.owners| == |old(table.owners)|
      ensures Turn(Now(), r) == M.Decide(old(Now()), frame)
    {
      hide WordIn, M.Syscall, M.EndCall;
      if WordIn(frame, FRAME_SSTATUS) % 512 >= 256 {
        life := Down;
        return Ok(Shutdown(1));
      }
      if WordIn(frame, FRAME_SCAUSE) == 8 {
        r := Syscall(frame);
      } else {
        r := EndCall(Faulted(WordIn(frame, FRAME_SCAUSE), WordIn(frame, FRAME_SEPC), WordIn(frame, FRAME_STVAL)));
      }
    }

    /** A walk's next step. */
    method Walked(b: Buffer, pages: seq<Word>, level: nat, pte: Word) returns (r: Result<Stage, Violation>)
      requires b.Fits() && |pages| < b.Pages() && level <= 1
      ensures Turn(Now(), r) == M.Walked(Now(), b, pages, level, pte)
    {
      hide DecidePte, RunningRoot;
      var d := DecidePte(pte, level, b.PageVa(|pages|));
      if d.Pointer? {
        return Ok(Walk(b, pages, d.table, 0));
      } else if d.Refused? {
        if table.current.None? {
          return Err(NoRunningProcess);
        }
        return Ok(Return(b.sepc, Neg(EFAULT)));
      }
      var found := pages + [d.ppn];
      if |found| == b.Pages() {
        return Ok(Output(b, found, 0));
      }
      var root := FindRoot();
      if root.Err? {
        return Err(root.error);
      }
      return Ok(Walk(b, found, root.value, 1));
    }

    /** Starts the operation of an ENTER of `value`. */
    method Start(value: Word) returns (r: Result<Stage, Violation>)
      requires Valid()
      modifies this`life, table
      ensures |table.owners| == |old(table.owners)|
      ensures Turn(Now(), r) == M.Start(config, old(Now()), value)
      ensures Valid()
      ensures old(Rests() && life != Down) ==> r.Ok? && Serves(r.value)
    {
      hide ValidSource, M.NextCreation, AtRest, Within;
      if AtRest(config, Now()) && life != Down {
        StartGood(config, Now(), value);
      }
      if value != config.trapFrame {
        if life == Down {
          return Err(EnterAfterShutdown);
        }
        life := Down;
        return Ok(Shutdown(1));
      }
      match life {
        case AwaitBoot =>
          life := Up;
          if source.Disk? {
            return Ok(Command(Cursor(None, 0)));
          }
          r := NextCreation(0);
        case Up =>
          if table.current.None? {
            return Err(EnterNotRunning);
          }
          return Ok(ReadFrame);
        case Down =>
          return Err(EnterAfterShutdown);
      }
    }

    /** Moves past the finished stage: the next one, or none when the operation has finished. */
    method Advance(s: Stage, data: seq<Byte>) returns (r: Result<Option<Stage>, Violation>)
      requires Valid() && Advanceable(config, Now(), s) && HasData(s, data)
      modifies this`life, this`entries, table
      ensures |table.owners| == |old(table.owners)|
      ensures Turn(Now(), r) == M.Advance(config, old(Now()), s, data)
      ensures Valid()
      ensures old(Serves(s)) && (s.Staged? ==> |data| == s.len) ==>
        r.Ok? && if r.value.Some? then Serves(r.value.value) else Rests() && life != AwaitBoot
    {
      hide ValidSource, M.AdmitNew, M.NextCreation, M.NextLoad, M.Decide, M.StagedRead, M.Acked, M.Walked, WordIn, EntriesError, AtRest, Within;
      if Within(config, Now(), s) && (s.Staged? ==> |data| == s.len) {
        AdvanceGood(config, Now(), s, data);
      }
      var next: Result<Stage, Violation>;
      match s {
        case Create(pid, space) =>
          if source.Disk? {
            return Err(NoPlan);
          }
          var a := AdmitNew(pid, source.images[pid - 1].image.entry, space);
          if a.Err? {
            return Err(a.error);
          }
          next := NextCreation(pid);
        case Load(cursor, _, image, space) =>
          var a := AdmitNew(cursor.index + 1, image.entry, space);
          if a.Err? {
            return Err(a.error);
          }
          next := NextLoad(cursor.table, cursor.index + 1);
        case Command(cursor) =>
          return Ok(Some(Poll(cursor)));
        case Poll(cursor) =>
          var status := WordIn(data, 0);
          return Ok(Some(if status % 4 >= 2 then Ack(cursor, status / 256 % 256) else Poll(cursor)));
        case Ack(cursor, error) =>
          next := Acked(cursor, error);
        case Staged(cursor, len) =>
          next := StagedRead(cursor, len, data);
        case ReadFrame =>
          next := Decide(data);
        case Walk(b, pages, _, level) =>
          next := Walked(b, pages, level, WordIn(data, 0));
        case Output(b, pages, done) =>
          var at := done + b.ChunkLen(done);
          if at < b.n {
            return Ok(Some(Output(b, pages, at)));
          }
          if table.current.None? {
            return Err(NoRunningProcess);
          }
          next := Ok(Return(b.sepc, b.n));
        case _ =>
          return Ok(None);
      }
      return if next.Ok? then Ok(Some(next.value)) else Err(next.error);
    }

    method StagedRead(cursor: Cursor, len: nat, data: seq<Byte>) returns (r: Result<Stage, Violation>)
      requires Valid() && cursor.Ok() && cursor.index < MAX_ENTRIES && (source.Disk? ==> CursorOk(config, source.capacity, cursor))
      modifies this`life, this`entries, table
      ensures |table.owners| == |old(table.owners)|
      ensures Turn(Now(), r) == M.StagedRead(config, old(Now()), cursor, len, data)
    {
      hide ValidSource, M.TableRead, M.LoadImage, M.NextLoad, U.Parsed, EntriesError, Accepted;
      if source.Plan? {
        return Err(NoDisk);
      }
      if cursor.table.None? {
        r := TableRead(data);
      } else {
        r := HeadersRead(cursor, len, data);
      }
    }
  }

  /** Scheduling moves no frame. */
  lemma ScheduleFrames(p: Procs)
    ensures ScheduleNext(p).procs.frames == p.frames
  {
  }

  lemma AdmitFrames(p: Procs, pcb: Pcb)
    requires p.frames.Wide()
    ensures P.Admit(p, pcb).procs.frames == p.frames
  {
  }

  lemma SourceImage(c: KernelConfig, s: Source, i: nat)
    requires ValidSource(c, s) && s.Plan? && i < |s.images|
    ensures ValidLayout(c, s.layout) && Accepted(s.images[i], c, s.layout)
  {
  }

  lemma LayoutValid(c: KernelConfig, s: Source)
    requires ValidSource(c, s)
    ensures ValidLayout(c, s.layout)
  {
  }
}
