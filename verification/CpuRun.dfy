/** Every state a run of the M3 CPU reaches passes `validate_state_m3` and restores to itself. */
module CpuRun {
  import opened Words
  import opened Config
  import opened Sv32
  import opened Privileged
  import opened Cpu

  // ----- Snapshots -----

  datatype WalkRecord = WalkRecord(data: Option<Word>, level: nat, table: Word)

  /** A state as the snapshot stores it: an instruction's plan is not stored, but decoded again. */
  datatype StateRecord =
    | FetchIssueRec(pa: Option<int>)
    | FetchWaitRec(txn: Long, pa: Option<int>)
    | MemIssueRec(insn: Word, pa: Option<int>)
    | MemWaitRec(txn: Long, insn: Word, pa: Option<int>)
    | WalkIssueRec(walk: WalkRecord)
    | WalkWaitRec(txn: Long, walk: WalkRecord)
    | CommitRec(word: Option<Word>, outcome: Outcome, pa: Option<int>)
    | HaltRec(halt: Halt)

  function WalkRec(w: Walk): WalkRecord {
    WalkRecord(if w.data.Some? then Some(w.data.value.insn) else None, w.level, w.table)
  }

  function RecordOf(s: State): StateRecord {
    match s
    case FetchIssue(pa) => FetchIssueRec(pa)
    case FetchWait(txn, pa) => FetchWaitRec(txn, pa)
    case MemIssue(insn, _, pa) => MemIssueRec(insn, pa)
    case MemWait(txn, insn, _, pa) => MemWaitRec(txn, insn, pa)
    case WalkIssue(w) => WalkIssueRec(WalkRec(w))
    case WalkWait(txn, w) => WalkWaitRec(txn, WalkRec(w))
    case CommitPending(word, o, pa) => CommitRec(word, o, pa)
    case Halted(h) => HaltRec(h)
  }

  // ----- Validation -----

  const PA_LIMIT := 0x4_0000_0000

  /** A physical address is present exactly when translating, has 34 bits and the virtual address's page offset. */
  predicate PaOk(translates: bool, pa: Option<int>, va: Word) {
    if translates then pa.Some? && 0 <= pa.value < PA_LIMIT && pa.value % PAGE == va % PAGE else pa.None?
  }

  predicate Latest(x: Core, txn: Long) {
    x.nextTxn == txn + 1
  }

  /** The plan of a word that needs memory. */
  function PlanOf(isa: Isa, x: Core, insn: Word): Option<Plan> {
    match StepWord(isa, x.csrs.s.privilege, insn, x.pc, x.regs) case Memory(plan) => Some(plan) case Done(_) => None
  }

  function ValidWalk(isa: Isa, x: Core, w: WalkRecord): Option<Walk> {
    if !Translates(x.csrs.s) || w.level > 1 || w.table >= PPN_LIMIT || (w.level == 1 && w.table != Root(x.csrs.s.satp)) then None
    else if w.data.None? then Some(Walk(None, w.level, w.table))
    else
      match PlanOf(isa, x, w.data.value)
      case None => None
      case Some(plan) => Some(Walk(Some(WalkData(w.data.value, plan)), w.level, w.table))
  }

  /** The trap of an access of kind `a` to `tval`: an access fault, or a page fault when translating. */
  predicate FaultOf(translates: bool, a: Access, tval: Word, t: Trap) {
    t == Trap(AccessFaultOf(a), tval) || (translates && t == Trap(PageFaultOf(a), tval))
  }

  /** `consistent`: the pending outcome is one the instruction can have. */
  predicate Consistent(isa: Isa, x: Core, word: Option<Word>, o: Outcome) {
    var tr := Translates(x.csrs.s);
    if word.None? then o.Executes? && o.exec.Traps? && FaultOf(tr, Fetch, x.pc, o.exec.trap)
    else
      match StepWord(isa, x.csrs.s.privilege, word.value, x.pc, x.regs)
      case Done(expected) => expected == o
      case Memory(plan) =>
        && o.Executes?
        && match (plan, o.exec)
           case (LoadPlan(rd, _, _, _, nextPc), Effect(w, next)) => next == nextPc && w.Some? && w.value.rd == rd
           case (LoadPlan(_, addr, _, _, _), Traps(t)) => FaultOf(tr, Load, addr, t)
           case (StorePlan(_, _, nextPc), Effect(w, next)) => next == nextPc && w.None?
           case (StorePlan(addr, _, _), Traps(t)) => FaultOf(tr, Store, addr, t)
  }

  /** The access a pending outcome retires, if it is one. */
  function Retiring(isa: Isa, x: Core, word: Option<Word>, o: Outcome): Option<Plan> {
    if word.Some? && o.Executes? && o.exec.Effect? then PlanOf(isa, x, word.value) else None
  }

  predicate PageFaultCause(c: TrapCause) {
    c.InstructionPageFault? || c.LoadPageFault? || c.StorePageFault?
  }

  predicate EcallCauses(c: TrapCause) {
    c.EnvironmentCall? || c.EnvironmentCallFromS? || c.EnvironmentCallFromU?
  }

  predicate HaltOk(x: Core, h: Halt) {
    h.Trapped? ==>
      && !(PageFaultCause(h.cause) && !Translates(x.csrs.s)) && h.pc == x.pc && !Delegates(x.csrs.s, h.cause)
      && (EcallCauses(h.cause) ==> h.cause == EcallCause(x.csrs.s.privilege))
  }

  /** `validate_state_m3`: the state a record stands for, or `None` when no run reaches it. */
  function Validate(isa: Isa, x: Core, r: StateRecord): Option<State> {
    var tr := Translates(x.csrs.s);
    match r
    case FetchIssueRec(pa) => if PaOk(tr, pa, x.pc) then Some(FetchIssue(pa)) else None
    case FetchWaitRec(txn, pa) => if Latest(x, txn) && PaOk(tr, pa, x.pc) then Some(FetchWait(txn, pa)) else None
    case MemIssueRec(insn, pa) =>
      var plan := PlanOf(isa, x, insn);
      if plan.Some? && PaOk(tr, pa, plan.value.addr) then Some(MemIssue(insn, plan.value, pa)) else None
    case MemWaitRec(txn, insn, pa) =>
      var plan := PlanOf(isa, x, insn);
      if plan.Some? && Latest(x, txn) && PaOk(tr, pa, plan.value.addr) then Some(MemWait(txn, insn, plan.value, pa)) else None
    case WalkIssueRec(w) => (match ValidWalk(isa, x, w) case Some(walk) => Some(WalkIssue(walk)) case None => None)
    case WalkWaitRec(txn, w) =>
      (match ValidWalk(isa, x, w) case Some(walk) => if Latest(x, txn) then Some(WalkWait(txn, walk)) else None case None => None)
    case CommitRec(word, o, pa) =>
      var plan := Retiring(isa, x, word, o);
      if !Consistent(isa, x, word, o) then None
      else if plan.Some? then if PaOk(tr, pa, plan.value.addr) then Some(CommitPending(word, o, pa)) else None
      else if pa.Some? then None else Some(CommitPending(word, o, pa))
    case HaltRec(h) => if HaltOk(x, h) then Some(Halted(h)) else None
  }

  /** What `restore_m3` accepts of a CPU's own snapshot, restored to itself. */
  predicate Restores(isa: Isa, limit: nat, x: Core) {
    && x.pc % 4 == 0 && CsrsOk(x.csrs)
    && Validate(isa, x, RecordOf(x.state)) == Some(x.state)
    && (if x.state == Halted(InstructionLimit) then x.instret == limit else x.instret < limit)
  }

  // ----- Facts about instructions -----

  lemma NextAligned(pc: Word)
    requires pc % 4 == 0
    ensures NextPc(pc) % 4 == 0
  {
  }

  /** An instruction that retires goes to a multiple of 4, and a trap it raises itself is no page fault and names the mode
      if it is an ECALL. */
  lemma StepFacts(isa: Isa, p: Privilege, word: Word, pc: Word, regs: Regs)
    requires pc % 4 == 0
    ensures match StepWord(isa, p, word, pc, regs)
            case Memory(plan) => plan.nextPc % 4 == 0
            case Done(Executes(Effect(_, nextPc))) => nextPc % 4 == 0
            case Done(Executes(Traps(t))) => !PageFaultCause(t.cause) && (EcallCauses(t.cause) ==> t.cause == EcallCause(p))
            case Done(CsrAccess(csr, _, _, _, _, nextPc)) => Supported(csr) && nextPc % 4 == 0
            case Done(_) => true
  {
    hide Supported, Accessible, LeBytes;
    NextAligned(pc);
  }

  // ----- Every step -----

  lemma FetchNextOk(isa: Isa, limit: nat, x: Core)
    requires x.pc % 4 == 0 && CsrsOk(x.csrs) && x.instret < limit
    ensures Restores(isa, limit, FetchNext(x))
  {
    hide CsrsOk;
  }

  /** A state's validity does not depend on the counters it does not mention. */
  lemma WakeOk(isa: Isa, limit: nat, x: Core, token: Token)
    requires Restores(isa, limit, x) && !token.CommitToken?
    ensures Wake(isa, limit, x, token).Ok? ==> Restores(isa, limit, Wake(isa, limit, x, token).value)
  {
    hide CsrsOk, StepWord, Translates;
  }

  lemma FetchedOk(isa: Isa, limit: nat, x: Core, r: Response)
    requires Restores(isa, limit, x) && x.state.FetchWait? && Fetched(isa, x, r).Ok?
    ensures Restores(isa, limit, Fetched(isa, x, r).value)
  {
    hide CsrsOk, StepWord;
  }

  lemma CompletedOk(isa: Isa, limit: nat, x: Core, r: Response)
    requires Restores(isa, limit, x) && x.state.MemWait? && Respond(isa, x, r).Ok?
    ensures Restores(isa, limit, Respond(isa, x, r).value)
  {
    hide CsrsOk, StepWord, LoadValue, Translates;
  }

  /** The walk a valid state holds. */
  lemma WalkFacts(isa: Isa, limit: nat, x: Core)
    requires Restores(isa, limit, x) && (x.state.WalkIssue? || x.state.WalkWait?)
    ensures var w := x.state.walk;
      && Translates(x.csrs.s) && w.level <= 1 && w.table < PPN_LIMIT
      && (w.data.Some? ==> PlanOf(isa, x, w.data.value.insn) == Some(w.data.value.plan))
  {
    hide CsrsOk, StepWord;
  }

  lemma WalkFaultOk(isa: Isa, limit: nat, x: Core, cause: TrapCause)
    requires Restores(isa, limit, x) && x.state.WalkWait?
    requires cause == AccessFaultOf(PurposeAccess(x.state.walk)) || cause == PageFaultOf(PurposeAccess(x.state.walk))
    ensures Restores(isa, limit, WalkFault(x, x.state.walk, cause))
  {
    hide CsrsOk, StepWord;
    WalkFacts(isa, limit, x);
  }

  lemma WalkedOk(isa: Isa, limit: nat, x: Core, r: Response)
    requires Restores(isa, limit, x) && x.state.WalkWait? && Walked(x, x.state.walk, r).Ok?
    ensures Restores(isa, limit, Walked(x, x.state.walk, r).value)
  {
    hide CsrsOk, StepWord, PteStep, WalkFault, Restores;
    WalkFacts(isa, limit, x);
    var w := x.state.walk;
    WalkFaultOk(isa, limit, x, AccessFaultOf(PurposeAccess(w)));
    WalkFaultOk(isa, limit, x, PageFaultOf(PurposeAccess(w)));
    if r.ReadResp? && r.data.Some? {
      var pte := LeWord(r.data.value);
      var s := PteStep(WalkContext(x, w), WalkVa(x, w), w.level, pte);
      if s.Next? {
        NextWalkOk(isa, limit, x, s.table);
      } else if s.Leaf? {
        LeafKeepsOffset(WalkContext(x, w), WalkVa(x, w), w.level, pte);
        LeafOk(isa, limit, x, s.pa);
      }
    }
  }

  lemma NextWalkOk(isa: Isa, limit: nat, x: Core, table: Word)
    requires Restores(isa, limit, x) && x.state.WalkWait? && x.state.walk.level == 1 && table < PPN_LIMIT
    ensures Restores(isa, limit, x.(state := WalkIssue(x.state.walk.(level := 0, table := table))))
  {
    hide CsrsOk, StepWord;
  }

  lemma LeafOk(isa: Isa, limit: nat, x: Core, pa: int)
    requires Restores(isa, limit, x) && x.state.WalkWait? && 0 <= pa < PA_LIMIT && pa % PAGE == WalkVa(x, x.state.walk) % PAGE
    ensures var w := x.state.walk;
      Restores(isa, limit, x.(state := if w.data.None? then FetchIssue(Some(pa)) else MemIssue(w.data.value.insn, w.data.value.plan, Some(pa))))
  {
    hide CsrsOk, StepWord;
    WalkFacts(isa, limit, x);
  }

  lemma RespondOk(isa: Isa, limit: nat, x: Core, r: Response)
    requires Restores(isa, limit, x)
    ensures Respond(isa, x, r).Ok? ==> Restores(isa, limit, Respond(isa, x, r).value)
  {
    hide Restores, Fetched, Walked, CompleteMemory;
    if Respond(isa, x, r).Ok? {
      match x.state
      case FetchWait(_, _) => FetchedOk(isa, limit, x, r);
      case MemWait(_, _, _, _) => CompletedOk(isa, limit, x, r);
      case WalkWait(_, _) => WalkedOk(isa, limit, x, r);
      case _ =>
    }
  }

  // ----- Commit -----

  /** What a pending outcome is, from its validity. */
  lemma PendingFacts(isa: Isa, limit: nat, x: Core)
    requires Restores(isa, limit, x) && x.state.CommitPending?
    ensures var o := x.state.outcome;
      && (o.Executes? && o.exec.Effect? ==> o.exec.nextPc % 4 == 0)
      && (o.Executes? && o.exec.Traps? ==> var c := o.exec.trap.cause;
            (PageFaultCause(c) ==> Translates(x.csrs.s)) && (EcallCauses(c) ==> c == EcallCause(x.csrs.s.privilege)))
      && (o.CsrAccess? ==> Supported(o.csr) && o.nextPc % 4 == 0)
  {
    hide CsrsOk, StepWord, Supported, Translates;
    if x.state.word.Some? {
      StepFacts(isa, x.csrs.s.privilege, x.state.word.value, x.pc, x.regs);
    }
  }

  lemma TrapOk(isa: Isa, limit: nat, x: Core, t: Trap)
    requires Restores(isa, limit, x) && x.state.CommitPending? && x.state.outcome == Executes(Traps(t))
    ensures Restores(isa, limit, CommitTrap(x, t))
  {
    hide StepWord, Supported, Delegates, MaskDelegation, SatpWrite;
    PendingFacts(isa, limit, x);
    var e := TakeException(x.csrs, t.cause, x.pc, t.tval);
    if e.Some? {
      FetchNextOk(isa, limit, x.(csrs := e.value.0, pc := e.value.1));
    }
  }

  lemma RetireOk(isa: Isa, limit: nat, x: Core)
    requires Restores(isa, limit, x) && x.state.CommitPending?
    requires !(x.state.outcome.Executes? && x.state.outcome.exec.Traps?)
    ensures var y := Retire(x, x.state.outcome); y.Some? && y.value.pc % 4 == 0 && CsrsOk(y.value.csrs) && y.value.instret == x.instret < limit
  {
    hide StepWord, Supported, MaskDelegation, SatpWrite, ReadCsr, WriteCsr, Validate, CsrOp.Apply;
    PendingFacts(isa, limit, x);
    var o := x.state.outcome;
    if o.CsrAccess? {
      ReadsAreWrites(x.csrs, o.csr, 0);
      var was := ReadCsr(x.csrs, o.csr);
      var v := o.op.Apply(was.value, o.operand);
      ReadsAreWrites(x.csrs, o.csr, v);
      WriteOk(x.csrs, o.csr, v);
    }
  }

  lemma AfterRetireOk(isa: Isa, limit: nat, x: Core)
    requires x.pc % 4 == 0 && CsrsOk(x.csrs) && x.instret < limit
    ensures Restores(isa, limit, AfterRetire(limit, x))
  {
    hide MaskDelegation, SatpWrite, Restores, FetchNext;
    var y := x.(instret := x.instret + 1);
    if y.instret >= limit {
      LimitOk(isa, limit, y);
    } else if MeiEligible(y.csrs) {
      FetchNextOk(isa, limit, y.(csrs := TakeMei(y.csrs, y.pc).0, pc := TakeMei(y.csrs, y.pc).1));
    } else {
      FetchNextOk(isa, limit, y);
    }
  }

  lemma LimitOk(isa: Isa, limit: nat, x: Core)
    requires x.pc % 4 == 0 && CsrsOk(x.csrs) && x.instret == limit
    ensures Restores(isa, limit, x.(state := Halted(InstructionLimit)))
  {
    hide CsrsOk;
  }

  /** A committing CPU never faults the session, and stays valid. */
  lemma CommitOk(isa: Isa, limit: nat, x: Core)
    requires Restores(isa, limit, x) && x.state.CommitPending?
    ensures var r := Commit(limit, x, x.state.word, x.state.outcome); r.Ok? && Restores(isa, limit, r.value)
  {
    hide Restores, CommitTrap, Retire, AfterRetire;
    var o := x.state.outcome;
    if o.Executes? && o.exec.Traps? {
      TrapOk(isa, limit, x, o.exec.trap);
    } else {
      HasWord(isa, limit, x);
      RetireOk(isa, limit, x);
      AfterRetireOk(isa, limit, Retire(x, o).value);
    }
  }

  lemma HasWord(isa: Isa, limit: nat, x: Core)
    requires Restores(isa, limit, x) && x.state.CommitPending? && !(x.state.outcome.Executes? && x.state.outcome.exec.Traps?)
    ensures x.state.word.Some?
  {
    hide CsrsOk, StepWord;
  }

  // ----- Runs -----

  /** What happens to the CPU: a wake, a response, or a change of the interrupt line. */
  datatype Event = Wakes(token: Token) | Answers(response: Response) | Line(asserted: bool)

  function Do(isa: Isa, limit: nat, x: Core, e: Event): Result<Core, Cpu.Fault> {
    match e
    case Wakes(token) => Wake(isa, limit, x, token)
    case Answers(r) => Respond(isa, x, r)
    case Line(on) => Ok(x.(csrs := x.csrs.(m := x.csrs.m.(irqLevel := on))))
  }

  lemma LineOk(isa: Isa, limit: nat, x: Core, on: bool)
    requires Restores(isa, limit, x)
    ensures Restores(isa, limit, x.(csrs := x.csrs.(m := x.csrs.m.(irqLevel := on))))
  {
    hide StepWord, MaskDelegation, SatpWrite;
  }

  lemma DoOk(isa: Isa, limit: nat, x: Core, e: Event)
    requires Restores(isa, limit, x)
    ensures Do(isa, limit, x, e).Ok? ==> Restores(isa, limit, Do(isa, limit, x, e).value)
  {
    hide Restores, Respond, Commit;
    match e
    case Wakes(token) =>
      if token.CommitToken? {
        if x.state.CommitPending? {
          CommitOk(isa, limit, x);
        }
      } else {
        WakeOk(isa, limit, x, token);
      }
    case Answers(r) => RespondOk(isa, limit, x, r);
    case Line(on) => LineOk(isa, limit, x, on);
  }

  /** The CPU as `new` makes it. */
  function Reset(entry: Word): Core {
    Core(entry, seq<Word>(32, _ => 0), 0, 0, FetchIssue(None), RESET_CSRS)
  }

  function Run(isa: Isa, limit: nat, entry: Word, es: seq<Event>): Option<Core> {
    if es == [] then Some(Reset(entry))
    else
      var before := Run(isa, limit, entry, es[..|es| - 1]);
      if before.None? then None
      else match Do(isa, limit, before.value, es[|es| - 1]) case Ok(x) => Some(x) case Err(_) => None
  }

  /** For any decoder, any memory responses and any interrupt levels, every state a run reaches is one the snapshot
      validator accepts and restores to itself. */
  lemma {:induction false} EveryStateRestores(isa: Isa, limit: nat, entry: Word, es: seq<Event>)
    requires entry % 4 == 0 && limit >= 1
    ensures var x := Run(isa, limit, entry, es); x.Some? ==> Restores(isa, limit, x.value)
  {
    hide Restores, Do;
    if es == [] {
      ResetOk(isa, limit, entry);
    } else {
      EveryStateRestores(isa, limit, entry, es[..|es| - 1]);
      var before := Run(isa, limit, entry, es[..|es| - 1]);
      if before.Some? {
        DoOk(isa, limit, before.value, es[|es| - 1]);
      }
    }
  }

  lemma ResetOk(isa: Isa, limit: nat, entry: Word)
    requires entry % 4 == 0 && limit >= 1
    ensures Restores(isa, limit, Reset(entry))
  {
    hide CsrsOk, StepWord;
    ResetCsrsOk();
  }

  lemma ResetCsrsOk()
    ensures CsrsOk(RESET_CSRS)
  {
    hide MaskDelegation, SatpWrite;
    ZeroFields(0);
  }

  /** Machine mode is entered from below only by the external interrupt: the line is up and enabled, and the handler is
      `mtvec`. */
  lemma MachineOnlyByInterrupt(isa: Isa, limit: nat, x: Core, e: Event)
    requires Restores(isa, limit, x) && x.csrs.s.privilege != Machine
    ensures var r := Do(isa, limit, x, e);
      r.Ok? && r.value.csrs.s.privilege == Machine ==>
        && e == Wakes(CommitToken) && r.value.csrs.m.mcause == 0x8000_000B && r.value.csrs.m.irqLevel && r.value.csrs.m.meie
        && r.value.pc == r.value.csrs.m.mtvec
  {
    hide Restores, StepWord, Fetched, Walked, CompleteMemory, ReadCsr, WriteCsr, Supported;
    if e == Wakes(CommitToken) && x.state.CommitPending? && !(x.state.outcome.Executes? && x.state.outcome.exec.Traps?) {
      RetireMode(isa, limit, x);
    }
    FetchedMode(isa, x);
  }

  lemma FetchedMode(isa: Isa, x: Core)
    ensures forall r :: Respond(isa, x, r).Ok? ==> Respond(isa, x, r).value.csrs == x.csrs
  {
    hide StepWord, PteStep;
  }

  /** Below M no instruction raises the mode to M: `MRET` traps, and `SRET` and CSR writes cannot. */
  lemma RetireMode(isa: Isa, limit: nat, x: Core)
    requires Restores(isa, limit, x) && x.state.CommitPending? && x.csrs.s.privilege != Machine
    requires !(x.state.outcome.Executes? && x.state.outcome.exec.Traps?)
    ensures Retire(x, x.state.outcome).Some? && Retire(x, x.state.outcome).value.csrs.s.privilege != Machine
  {
    hide Supported, ReadCsr, WriteCsr, MaskDelegation, SatpWrite, CsrOp.Apply, Unprivileged;
    RetireOk(isa, limit, x);
    NotMret(isa, limit, x);
    var o := x.state.outcome;
    if o.CsrAccess? {
      var was := ReadCsr(x.csrs, o.csr);
      WriteOk(x.csrs, o.csr, o.op.Apply(was.value, o.operand));
    }
  }

  lemma NotMret(isa: Isa, limit: nat, x: Core)
    requires Restores(isa, limit, x) && x.state.CommitPending? && x.csrs.s.privilege != Machine
    ensures !x.state.outcome.MretOut?
  {
    hide CsrsOk, Supported;
  }
}
