/** The M3 CPU in place: its fields, its handlers and the requests it has sent. */
module CpuObject {
  import opened Words
  import opened Config
  import opened Sv32
  import opened Privileged
  import C = Cpu
  import opened Cpu
  import R = CpuRun

  /** A request on the bus: its transaction, its physical address, and the length read or the bytes written. */
  datatype Request = ReadReq(txn: Long, addr: int, len: nat) | WriteReq(txn: Long, addr: int, data: seq<Byte>)

  /** The wake a state waits for. */
  function TokenOf(s: State): Option<Token> {
    match s
    case FetchIssue(_) => Some(FetchToken)
    case MemIssue(_, _, _) => Some(MemoryToken)
    case WalkIssue(_) => Some(WalkToken)
    case CommitPending(_, _, _) => Some(CommitToken)
    case _ => None
  }

  /** The request a state sends at its wake: the instruction's word, the load or store at the plan's address, translated if
      it is, or the page table entry. */
  function RequestOf(x: Core): Option<Request> {
    match x.state
    case FetchIssue(pa) => Some(ReadReq(x.nextTxn, if pa.Some? then pa.value else x.pc, 4))
    case MemIssue(_, plan, pa) =>
      var addr := if pa.Some? then pa.value else plan.addr;
      Some(match plan
           case LoadPlan(_, _, width, _, _) => ReadReq(x.nextTxn, addr, width.Size())
           case StorePlan(_, data, _) => WriteReq(x.nextTxn, addr, data))
    case WalkIssue(w) =>
      if w.level > 1 then None
      else Some(ReadReq(x.nextTxn, PteAddress(w.table, if w.data.None? then x.pc else w.data.value.plan.addr, w.level), 4))
    case _ => None
  }

  class Rv32iCpu {
    const isa: Isa
    const limit: nat
    var pc: Word
    var regs: Regs
    var instret: nat
    var nextTxn: Long
    var state: State
    var csrs: Csrs
    /** The pending wake, and the requests sent. */
    var wake: Option<Token>
    var sent: seq<Request>

    ghost function Now(): Core
      reads this
    {
      Core(pc, regs, instret, nextTxn, state, csrs)
    }

    /** The state is one the snapshot validator restores to itself; the wake it waits for, and no other, is pending; and
        transactions number the requests. */
    ghost predicate Valid()
      reads this
    {
      && R.Restores(isa, limit, Now()) && wake == TokenOf(state)
      && |sent| == nextTxn && forall i :: 0 <= i < |sent| ==> sent[i].txn == i
    }

    constructor (isa: Isa, limit: nat, entry: Word)
      requires entry % 4 == 0 && limit >= 1
      ensures Valid() && this.isa == isa && this.limit == limit && Now() == R.Reset(entry)
    {
      hide R.Restores;
      this.isa, this.limit := isa, limit;
      pc, regs, instret, nextTxn := entry, seq<Word>(32, _ => 0), 0, 0;
      state, csrs := FetchIssue(None), RESET_CSRS;
      wake, sent := Some(FetchToken), [];
      new;
      R.ResetOk(isa, limit, entry);
    }

    /** The next fetch. */
    method FetchNext()
      modifies this`state, this`wake
      ensures Now() == C.FetchNext(old(Now())) && wake == TokenOf(state)
    {
      if Translates(csrs.s) {
        state := WalkIssue(Walk(None, 1, Root(csrs.s.satp)));
        wake := Some(WalkToken);
      } else {
        state := FetchIssue(None);
        wake := Some(FetchToken);
      }
    }

    /** Sends a request under the next transaction. */
    method Send(request: Request) returns (txn: Long)
      requires nextTxn < LONG_MAX && request.txn == nextTxn
      modifies this`nextTxn, this`sent, this`wake
      ensures txn == old(nextTxn) && nextTxn == txn + 1 && sent == old(sent) + [request] && wake.None?
    {
      txn := nextTxn;
      sent := sent + [request];
      nextTxn := nextTxn + 1;
      wake := None;
    }

    method HandleWake(token: Token) returns (fault: Option<C.Fault>)
      requires Valid()
      modifies this
      ensures Valid()
      ensures match C.Wake(isa, limit, old(Now()), token)
              case Err(f) => fault == Some(f) && unchanged(this)
              case Ok(n) => fault.None? && Now() == n
      ensures fault.None? ==> sent == old(sent) + match RequestOf(old(Now())) case Some(request) => [request] case None => []
    {
      hide R.Restores, C.Commit, PteAddress;
      R.DoOk(isa, limit, Now(), R.Wakes(token));
      match (token, state) {
        case (FetchToken, FetchIssue(pa)) =>
          if nextTxn == LONG_MAX {
            return Some(TxnExhausted);
          }
          var txn := Send(ReadReq(nextTxn, if pa.Some? then pa.value else pc, 4));
          state := FetchWait(txn, pa);
        case (MemoryToken, MemIssue(insn, plan, pa)) =>
          if nextTxn == LONG_MAX {
            return Some(TxnExhausted);
          }
          var addr := if pa.Some? then pa.value else plan.addr;
          var txn := Send(match plan
                          case LoadPlan(_, _, width, _, _) => ReadReq(nextTxn, addr, width.Size())
                          case StorePlan(_, data, _) => WriteReq(nextTxn, addr, data));
          state := MemWait(txn, insn, plan, pa);
        case (WalkToken, WalkIssue(walk)) =>
          if nextTxn == LONG_MAX {
            return Some(TxnExhausted);
          }
          WalkLevel(isa, limit, Now());
          var va := if walk.data.None? then pc else walk.data.value.plan.addr;
          var txn := Send(ReadReq(nextTxn, PteAddress(walk.table, va, walk.level), 4));
          state := WalkWait(txn, walk);
        case (CommitToken, CommitPending(word, outcome, _)) =>
          R.CommitOk(isa, limit, Now());
          CommitNow(word, outcome);
        case _ =>
          return Some(BadWake);
      }
      return None;
    }

    /** Commits the pending outcome: a trap is delegated or halts, an instruction retires. */
    method CommitNow(word: Option<Word>, outcome: Outcome)
      requires C.Commit(limit, Now(), word, outcome).Ok?
      modifies this`pc, this`regs, this`instret, this`state, this`csrs, this`wake
      ensures C.Commit(limit, old(Now()), word, outcome) == Ok(Now()) && wake == TokenOf(state)
    {
      hide TakeException, C.Retire, C.AfterRetire;
      if outcome.Executes? && outcome.exec.Traps? {
        var t := outcome.exec.trap;
        var e := TakeException(csrs, t.cause, pc, t.tval);
        if e.Some? {
          csrs, pc := e.value.0, e.value.1;
          FetchNext();
        } else {
          state, wake := Halted(Trapped(t.cause, pc, t.tval)), None;
        }
        return;
      }
      RetireNow(outcome);
      Proceed();
    }

    /** Applies a retiring instruction. */
    method RetireNow(outcome: Outcome)
      requires C.Retire(Now(), outcome).Some?
      modifies this`pc, this`regs, this`csrs
      ensures C.Retire(old(Now()), outcome) == Some(Now())
    {
      hide ReadCsr, WriteCsr, Privileged.Mret, Privileged.Sret, CsrOp.Apply;
      match outcome {
        case Executes(Effect(w, nextPc)) =>
          if w.Some? {
            regs := WriteReg(regs, w.value.rd, w.value.value);
          }
          pc := nextPc;
        case CsrAccess(csr, op, write, operand, rd, nextPc) =>
          var was := ReadCsr(csrs, csr);
          if write {
            csrs := WriteCsr(csrs, csr, op.Apply(was.value, operand)).value;
          }
          regs := WriteReg(regs, rd, was.value);
          pc := nextPc;
        case MretOut =>
          pc, csrs := Privileged.Mret(csrs).1, Privileged.Mret(csrs).0;
        case SretOut =>
          pc, csrs := Privileged.Sret(csrs).1, Privileged.Sret(csrs).0;
      }
    }

    /** After a retirement: the limit, the interrupt, the next fetch. */
    method Proceed()
      modifies this`pc, this`instret, this`state, this`csrs, this`wake
      ensures Now() == C.AfterRetire(limit, old(Now())) && wake == TokenOf(state)
    {
      hide C.FetchNext, TakeMei, MeiEligible;
      instret := instret + 1;
      if instret >= limit {
        state, wake := Halted(InstructionLimit), None;
        return;
      }
      if MeiEligible(csrs) {
        pc, csrs := TakeMei(csrs, pc).1, TakeMei(csrs, pc).0;
      }
      FetchNext();
    }

    method HandleResponse(r: Response, inComplete: bool) returns (ok: bool)
      requires Valid()
      modifies this
      ensures Valid()
      ensures ok <==> inComplete && C.Respond(isa, old(Now()), r).Ok?
      ensures if ok then C.Respond(isa, old(Now()), r) == Ok(Now()) else unchanged(this)
    {
      hide R.Restores, C.Fetched, C.Walked, CompleteMemory;
      R.RespondOk(isa, limit, Now(), r);
      if !inComplete {
        return false;
      }
      match state {
        case FetchWait(txn, _) =>
          if r.txn != txn {
            return false;
          }
          ok := TakeFetch(r);
        case MemWait(txn, insn, plan, pa) =>
          if r.txn != txn {
            return false;
          }
          var e := CompleteMemory(plan, r);
          if e.Err? {
            return false;
          }
          state := CommitPending(Some(insn), Executes(e.value), if e.value.Effect? then pa else None);
          wake := Some(CommitToken);
          return true;
        case WalkWait(txn, walk) =>
          if r.txn != txn {
            return false;
          }
          ok := TakePte(walk, r);
        case _ =>
          return false;
      }
    }

    /** A fetch's response: the word is executed, or its access begins. */
    method TakeFetch(r: Response) returns (ok: bool)
      modifies this`state, this`wake
      ensures ok <==> C.Fetched(isa, old(Now()), r).Ok?
      ensures if ok then C.Fetched(isa, old(Now()), r) == Ok(Now()) && wake == TokenOf(state) else unchanged(this)
    {
      hide StepWord, LeWord;
      if r.WriteResp? {
        return false;
      }
      if r.data.None? {
        state, wake := CommitPending(None, Trapping(InstructionAccessFault, pc), None), Some(CommitToken);
        return true;
      }
      if |r.data.value| != 4 {
        return false;
      }
      var word := LeWord(r.data.value);
      var step := StepWord(isa, csrs.s.privilege, word, pc, regs);
      if step.Done? {
        state, wake := CommitPending(Some(word), step.outcome, None), Some(CommitToken);
      } else if Translates(csrs.s) {
        state, wake := WalkIssue(Walk(Some(WalkData(word, step.plan)), 1, Root(csrs.s.satp))), Some(WalkToken);
      } else {
        state, wake := MemIssue(word, step.plan, None), Some(MemoryToken);
      }
      return true;
    }

    /** A PTE read's response: the next level, the translated access, or a fault. */
    method TakePte(walk: Walk, r: Response) returns (ok: bool)
      modifies this`state, this`wake
      ensures ok <==> C.Walked(old(Now()), walk, r).Ok?
      ensures if ok then C.Walked(old(Now()), walk, r) == Ok(Now()) && wake == TokenOf(state) else unchanged(this)
    {
      hide PteStep, LeWord;
      if r.WriteResp? || (r.data.Some? && (|r.data.value| != 4 || walk.level > 1)) {
        return false;
      }
      var access, va := PurposeAccess(walk), if walk.data.None? then pc else walk.data.value.plan.addr;
      var insn := if walk.data.None? then None else Some(walk.data.value.insn);
      if r.data.None? {
        state, wake := CommitPending(insn, Trapping(AccessFaultOf(access), va), None), Some(CommitToken);
        return true;
      }
      var context := Context(csrs.s.privilege, csrs.s.sum, csrs.s.mxr, access);
      match PteStep(context, va, walk.level, LeWord(r.data.value)) {
        case Next(next) =>
          state, wake := WalkIssue(walk.(level := walk.level - 1, table := next)), Some(WalkToken);
        case Leaf(pa) =>
          if walk.data.None? {
            state, wake := FetchIssue(Some(pa)), Some(FetchToken);
          } else {
            state, wake := MemIssue(walk.data.value.insn, walk.data.value.plan, Some(pa)), Some(MemoryToken);
          }
        case Stop =>
          state, wake := CommitPending(insn, Trapping(PageFaultOf(access), va), None), Some(CommitToken);
      }
      return true;
    }

    /** A level on the interrupt line; outside the Complete phase it faults the session. */
    method SetLine(asserted: bool, inComplete: bool) returns (ok: bool)
      requires Valid()
      modifies this`csrs
      ensures Valid() && ok == inComplete
      ensures Now() == if ok then old(Now()).(csrs := old(csrs).(m := old(csrs).m.(irqLevel := asserted))) else old(Now())
    {
      hide R.Restores;
      if !inComplete {
        return false;
      }
      R.LineOk(isa, limit, Now(), asserted);
      csrs := csrs.(m := csrs.m.(irqLevel := asserted));
      return true;
    }
  }

  lemma WalkLevel(isa: Isa, limit: nat, x: Core)
    requires R.Restores(isa, limit, x) && x.state.WalkIssue?
    ensures x.state.walk.level <= 1
  {
    hide R.Restores;
    R.WalkFacts(isa, limit, x);
  }
}
