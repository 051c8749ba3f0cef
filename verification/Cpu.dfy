/** The M3 CPU's state machine (components/rv32i/src/cpu.rs, memory.rs and execute.rs), on values: fetch, walk, memory and
    commit, with delegation and the external interrupt. Decoding, ALU values and branch conditions are parameters. */
module Cpu {
  import opened Words
  import opened Config
  import opened Sv32
  import opened Privileged

  type Regs = r: seq<Word> | |r| == 32 witness seq(32, i => 0)
  type RegNo = x: int | 0 <= x < 32

  /** A decoded instruction; the ALU family carries only its registers. */
  datatype Instr =
    | Alu(rd: RegNo, rs1: RegNo, rs2: RegNo)
    | Jal(rd: RegNo, offset: Word)
    | Jalr(rd: RegNo, rs1: RegNo, offset: Word)
    | Branch(rs1: RegNo, rs2: RegNo, offset: Word)
    | Fence | Ecall | Ebreak
    | LoadOp(rd: RegNo, rs1: RegNo, offset: Word, width: Width, signed: bool)
    | StoreOp(rs1: RegNo, rs2: RegNo, offset: Word, width: Width)
    | Illegal

  datatype Width = Byte1 | Byte2 | Byte4 {
    function Size(): nat {
      match this case Byte1 => 1 case Byte2 => 2 case Byte4 => 4
    }
  }

  /** The decoder, the ALU's value of a word at a `pc` with its operands, and whether a branch is taken. */
  datatype Isa = Isa(decode: Word -> Instr, alu: (Word, Word, Word, Word) -> Word, taken: (Word, Word, Word) -> bool)

  datatype Plan = LoadPlan(rd: RegNo, addr: Word, width: Width, signed: bool, nextPc: Word) | StorePlan(addr: Word, data: seq<Byte>, nextPc: Word)

  datatype RegWrite = RegWrite(rd: RegNo, value: Word)
  datatype Trap = Trap(cause: TrapCause, tval: Word)
  datatype Exec = Effect(write: Option<RegWrite>, nextPc: Word) | Traps(trap: Trap)

  datatype CsrOp = CsrWrite | CsrSet | CsrClear {
    function Apply(was: Word, operand: Word): Word {
      match this
      case CsrWrite => operand
      case CsrSet => (was as bv32 | operand as bv32) as int
      case CsrClear => (was as bv32 & !(operand as bv32)) as int
    }
  }

  datatype Outcome =
    | Executes(exec: Exec)
    | CsrAccess(csr: nat, op: CsrOp, write: bool, operand: Word, rd: RegNo, nextPc: Word)
    | MretOut
    | SretOut

  datatype StepResult = Done(outcome: Outcome) | Memory(plan: Plan)

  // ----- One instruction -----

  function NextPc(pc: Word): Word {
    Wrap(pc + 4)
  }

  function ReadReg(regs: Regs, r: RegNo): Word {
    if r == 0 then 0 else regs[r]
  }

  function WriteReg(regs: Regs, r: RegNo, v: Word): Regs {
    if r == 0 then regs else regs[r := v]
  }

  function Trapping(cause: TrapCause, tval: Word): Outcome {
    Executes(Traps(Trap(cause, tval)))
  }

  /** A jump to `target`, which must be a multiple of 4. */
  function Jump(write: Option<RegWrite>, target: Word): Outcome {
    if target % 4 != 0 then Trapping(InstructionAddressMisaligned, target) else Executes(Effect(write, target))
  }

  /** A load or store: its plan, or a misaligned trap. */
  function PrepareLoad(i: Instr, pc: Word, a: Word): StepResult
    requires i.LoadOp?
  {
    var addr := Wrap(a + i.offset);
    if addr % i.width.Size() != 0 then Done(Trapping(LoadAddressMisaligned, addr))
    else Memory(LoadPlan(i.rd, addr, i.width, i.signed, NextPc(pc)))
  }

  function PrepareStore(i: Instr, pc: Word, a: Word, b: Word): StepResult
    requires i.StoreOp?
  {
    var addr := Wrap(a + i.offset);
    if addr % i.width.Size() != 0 then Done(Trapping(StoreAddressMisaligned, addr))
    else Memory(StorePlan(addr, LeBytes(b)[..i.width.Size()], NextPc(pc)))
  }

  function EcallCause(p: Privilege): TrapCause {
    match p case User => EnvironmentCallFromU case Supervisor => EnvironmentCallFromS case Machine => EnvironmentCall
  }

  /** An unprivileged instruction. */
  function Unprivileged(isa: Isa, p: Privilege, word: Word, pc: Word, regs: Regs): StepResult {
    var i := isa.decode(word);
    match i
    case Illegal => Done(Trapping(IllegalInstruction, word))
    case Alu(rd, rs1, rs2) =>
      Done(Executes(Effect(Some(RegWrite(rd, isa.alu(word, pc, ReadReg(regs, rs1), ReadReg(regs, rs2)))), NextPc(pc))))
    case Jal(rd, offset) => Done(Jump(Some(RegWrite(rd, NextPc(pc))), Wrap(pc + offset)))
    case Jalr(rd, rs1, offset) =>
      var t := Wrap(ReadReg(regs, rs1) + offset);
      Done(Jump(Some(RegWrite(rd, NextPc(pc))), t - t % 2))
    case Branch(rs1, rs2, offset) =>
      if isa.taken(word, ReadReg(regs, rs1), ReadReg(regs, rs2)) then Done(Jump(None, Wrap(pc + offset)))
      else Done(Executes(Effect(None, NextPc(pc))))
    case Fence => Done(Executes(Effect(None, NextPc(pc))))
    case Ecall => Done(Trapping(EcallCause(p), 0))
    case Ebreak => Done(Trapping(Breakpoint, pc))
    case LoadOp(_, rs1, _, _, _) => PrepareLoad(i, pc, ReadReg(regs, rs1))
    case StoreOp(rs1, rs2, _, _) => PrepareStore(i, pc, ReadReg(regs, rs1), ReadReg(regs, rs2))
  }

  const MRET := 0x3020_0073
  const SRET := 0x1020_0073

  function CsrOpOf(word: Word): Option<CsrOp> {
    var f := word / 0x1000 % 4;
    if word % 0x80 != 0x73 then None
    else if f == 1 then Some(CsrWrite) else if f == 2 then Some(CsrSet) else if f == 3 then Some(CsrClear) else None
  }

  /** A CSR instruction: refused when the register is unsupported or out of the mode's reach. */
  function CsrInstruction(p: Privilege, word: Word, pc: Word, regs: Regs, op: CsrOp): Outcome {
    var csr, src, rd := word / 0x10_0000, word / 0x8000 % 32, word / 0x80 % 32;
    var immediate := word / 0x4000 % 2 == 1;
    var writes := op == CsrWrite || src != 0;
    if !Supported(csr) || !Accessible(csr, p, writes) then Trapping(IllegalInstruction, word)
    else CsrAccess(csr, op, writes, if immediate then src else ReadReg(regs, src), rd, NextPc(pc))
  }

  /** A privileged instruction in mode `p`, if the word is one. */
  function PrivilegedOutcome(p: Privilege, word: Word, pc: Word, regs: Regs): Option<Outcome> {
    if word == MRET then Some(if p == Machine then MretOut else Trapping(IllegalInstruction, word))
    else if CsrOpOf(word).Some? then Some(CsrInstruction(p, word, pc, regs, CsrOpOf(word).value))
    else if word == SRET then Some(if p == User then Trapping(IllegalInstruction, word) else SretOut)
    else if word / 0x200_0000 == 9 && word % 0x8000 == 0x73 then
      Some(if p == User then Trapping(IllegalInstruction, word) else Executes(Effect(None, NextPc(pc))))
    else None
  }

  /** `step`: what the fetched word does, or the access it needs first. */
  function StepWord(isa: Isa, p: Privilege, word: Word, pc: Word, regs: Regs): StepResult {
    var o := PrivilegedOutcome(p, word, pc, regs);
    if o.Some? then Done(o.value) else Unprivileged(isa, p, word, pc, regs)
  }

  // ----- The state -----

  datatype WalkData = WalkData(insn: Word, plan: Plan)
  datatype Walk = Walk(data: Option<WalkData>, level: nat, table: Word)
  datatype Halt = Trapped(cause: TrapCause, pc: Word, tval: Word) | InstructionLimit

  datatype State =
    | FetchIssue(pa: Option<int>)
    | FetchWait(txn: Long, pa: Option<int>)
    | MemIssue(insn: Word, plan: Plan, pa: Option<int>)
    | MemWait(txn: Long, insn: Word, plan: Plan, pa: Option<int>)
    | WalkIssue(walk: Walk)
    | WalkWait(txn: Long, walk: Walk)
    | CommitPending(word: Option<Word>, outcome: Outcome, pa: Option<int>)
    | Halted(halt: Halt)

  datatype Core = Core(pc: Word, regs: Regs, instret: nat, nextTxn: Long, state: State, csrs: Csrs)

  datatype Response = ReadResp(txn: Long, data: Option<seq<Byte>>) | WriteResp(txn: Long, done: bool)

  datatype Fault = BadWake | TxnExhausted | NotOutstanding | WrongLength | WrongKind | NoWord | UnsupportedCsr

  function PurposeAccess(w: Walk): Access {
    match w.data case None => Fetch case Some(d) => if d.plan.LoadPlan? then Load else Store
  }

  function WalkVa(x: Core, w: Walk): Word {
    match w.data case None => x.pc case Some(d) => d.plan.addr
  }

  function AccessFaultOf(a: Access): TrapCause {
    match a case Fetch => InstructionAccessFault case Load => LoadAccessFault case Store => StoreAccessFault
  }

  function PageFaultOf(a: Access): TrapCause {
    match a case Fetch => InstructionPageFault case Load => LoadPageFault case Store => StorePageFault
  }

  /** The next fetch: a walk when the new mode translates. */
  function FetchNext(x: Core): Core {
    if Translates(x.csrs.s) then x.(state := WalkIssue(Walk(None, 1, Root(x.csrs.s.satp)))) else x.(state := FetchIssue(None))
  }

  // ----- Wakes -----

  datatype Token = FetchToken | MemoryToken | WalkToken | CommitToken

  /** A wake: the due request is sent, or the pending instruction commits. */
  function Wake(isa: Isa, limit: nat, x: Core, token: Token): Result<Core, Fault> {
    match (token, x.state)
    case (FetchToken, FetchIssue(pa)) =>
      if x.nextTxn == LONG_MAX then Err(TxnExhausted) else Ok(x.(nextTxn := x.nextTxn + 1, state := FetchWait(x.nextTxn, pa)))
    case (MemoryToken, MemIssue(insn, plan, pa)) =>
      if x.nextTxn == LONG_MAX then Err(TxnExhausted) else Ok(x.(nextTxn := x.nextTxn + 1, state := MemWait(x.nextTxn, insn, plan, pa)))
    case (WalkToken, WalkIssue(walk)) =>
      if x.nextTxn == LONG_MAX then Err(TxnExhausted) else Ok(x.(nextTxn := x.nextTxn + 1, state := WalkWait(x.nextTxn, walk)))
    case (CommitToken, CommitPending(word, outcome, _)) => Commit(limit, x, word, outcome)
    case _ => Err(BadWake)
  }

  // ----- Responses -----

  function LoadValue(plan: Plan, data: seq<Byte>): Word
    requires plan.LoadPlan? && |data| == plan.width.Size()
  {
    match plan.width
    case Byte1 => if plan.signed && data[0] >= 0x80 then data[0] + 0xFFFF_FF00 else data[0]
    case Byte2 => if plan.signed && LeHalf(data) >= 0x8000 then Wrap(LeHalf(data) + 0xFFFF_0000) else LeHalf(data)
    case Byte4 => LeWord(data)
  }

  /** `complete_memory`. */
  function CompleteMemory(plan: Plan, r: Response): Result<Exec, Fault> {
    match (plan, r)
    case (LoadPlan(rd, addr, width, _, nextPc), ReadResp(_, Some(d))) =>
      if |d| != width.Size() then Err(WrongLength) else Ok(Effect(Some(RegWrite(rd, LoadValue(plan, d))), nextPc))
    case (LoadPlan(_, addr, _, _, _), ReadResp(_, None)) => Ok(Traps(Trap(LoadAccessFault, addr)))
    case (StorePlan(_, _, nextPc), WriteResp(_, true)) => Ok(Effect(None, nextPc))
    case (StorePlan(addr, _, _), WriteResp(_, false)) => Ok(Traps(Trap(StoreAccessFault, addr)))
    case _ => Err(WrongKind)
  }

  /** A response to the outstanding request. */
  function Respond(isa: Isa, x: Core, r: Response): Result<Core, Fault> {
    match x.state
    case FetchWait(txn, _) => if r.txn != txn then Err(NotOutstanding) else Fetched(isa, x, r)
    case MemWait(txn, insn, plan, pa) =>
      if r.txn != txn then Err(NotOutstanding)
      else
        (match CompleteMemory(plan, r)
         case Err(f) => Err(f)
         case Ok(e) => Ok(x.(state := CommitPending(Some(insn), Executes(e), if e.Effect? then pa else None))))
    case WalkWait(txn, walk) => if r.txn != txn then Err(NotOutstanding) else Walked(x, walk, r)
    case _ => Err(NotOutstanding)
  }

  function Fetched(isa: Isa, x: Core, r: Response): Result<Core, Fault> {
    match r
    case ReadResp(_, Some(d)) =>
      if |d| != 4 then Err(WrongLength)
      else
        var word := LeWord(d);
        (match StepWord(isa, x.csrs.s.privilege, word, x.pc, x.regs)
         case Done(o) => Ok(x.(state := CommitPending(Some(word), o, None)))
         case Memory(plan) =>
           if Translates(x.csrs.s) then Ok(x.(state := WalkIssue(Walk(Some(WalkData(word, plan)), 1, Root(x.csrs.s.satp)))))
           else Ok(x.(state := MemIssue(word, plan, None))))
    case ReadResp(_, None) => Ok(x.(state := CommitPending(None, Trapping(InstructionAccessFault, x.pc), None)))
    case _ => Err(WrongKind)
  }

  function WalkContext(x: Core, w: Walk): Context {
    Context(x.csrs.s.privilege, x.csrs.s.sum, x.csrs.s.mxr, PurposeAccess(w))
  }

  /** A PTE read's response. */
  function Walked(x: Core, w: Walk, r: Response): Result<Core, Fault> {
    match r
    case WriteResp(_, _) => Err(WrongKind)
    case ReadResp(_, None) => Ok(WalkFault(x, w, AccessFaultOf(PurposeAccess(w))))
    case ReadResp(_, Some(d)) =>
      if |d| != 4 || w.level > 1 then Err(WrongLength)
      else
        (match PteStep(WalkContext(x, w), WalkVa(x, w), w.level, LeWord(d))
         case Next(table) => Ok(x.(state := WalkIssue(w.(level := w.level - 1, table := table))))
         case Leaf(pa) =>
           Ok(x.(state := if w.data.None? then FetchIssue(Some(pa)) else MemIssue(w.data.value.insn, w.data.value.plan, Some(pa))))
         case Stop => Ok(WalkFault(x, w, PageFaultOf(PurposeAccess(w)))))
  }

  function WalkFault(x: Core, w: Walk, cause: TrapCause): Core {
    x.(state := CommitPending(if w.data.None? then None else Some(w.data.value.insn), Trapping(cause, WalkVa(x, w)), None))
  }

  // ----- Commit -----

  /** `commit`: the trap is delegated or halts; an instruction retires, and the interrupt is sampled after it. */
  function Commit(limit: nat, x: Core, word: Option<Word>, outcome: Outcome): Result<Core, Fault> {
    if outcome.Executes? && outcome.exec.Traps? then Ok(CommitTrap(x, outcome.exec.trap))
    else if word.None? then Err(NoWord)
    else
      match Retire(x, outcome)
      case None => Err(UnsupportedCsr)
      case Some(y) => Ok(AfterRetire(limit, y))
  }

  function CommitTrap(x: Core, t: Trap): Core {
    var e := TakeException(x.csrs, t.cause, x.pc, t.tval);
    if e.Some? then FetchNext(x.(csrs := e.value.0, pc := e.value.1)) else x.(state := Halted(Trapped(t.cause, x.pc, t.tval)))
  }

  /** The instruction's effect on the registers, the CSRs and the `pc`. */
  function Retire(x: Core, o: Outcome): Option<Core> {
    match o
    case Executes(Effect(w, nextPc)) => Some(x.(regs := if w.Some? then WriteReg(x.regs, w.value.rd, w.value.value) else x.regs, pc := nextPc))
    case Executes(Traps(_)) => None
    case CsrAccess(csr, op, write, operand, rd, nextPc) =>
      var was := ReadCsr(x.csrs, csr);
      if was.None? then None
      else
        var written := if write then WriteCsr(x.csrs, csr, op.Apply(was.value, operand)) else Some(x.csrs);
        if written.None? then None
        else Some(x.(csrs := written.value, regs := WriteReg(x.regs, rd, was.value), pc := nextPc))
    case MretOut => Some(x.(csrs := Mret(x.csrs).0, pc := Mret(x.csrs).1))
    case SretOut => Some(x.(csrs := Sret(x.csrs).0, pc := Sret(x.csrs).1))
  }

  /** After a retirement: the limit, then the external interrupt, then the next fetch. */
  function AfterRetire(limit: nat, x: Core): Core {
    var y := x.(instret := x.instret + 1);
    if y.instret >= limit then y.(state := Halted(InstructionLimit))
    else if MeiEligible(y.csrs) then FetchNext(y.(csrs := TakeMei(y.csrs, y.pc).0, pc := TakeMei(y.csrs, y.pc).1))
    else FetchNext(y)
  }
}
