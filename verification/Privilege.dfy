/** The M3 privileged state (components/rv32i/src/privilege.rs, components/rv32i/src/csr.rs): modes, CSR reads and writes,
    returns, delegated exceptions and the machine external interrupt. */
module Privileged {
  import opened Words
  import opened Sv32

  datatype Spp = SppUser | SppSupervisor

  datatype TrapCause =
    | InstructionAddressMisaligned | InstructionAccessFault | IllegalInstruction | Breakpoint
    | LoadAddressMisaligned | LoadAccessFault | StoreAddressMisaligned | StoreAccessFault
    | EnvironmentCallFromU | EnvironmentCallFromS | EnvironmentCall
    | InstructionPageFault | LoadPageFault | StorePageFault
  {
    function Code(): nat {
      match this
      case InstructionAddressMisaligned => 0
      case InstructionAccessFault => 1
      case IllegalInstruction => 2
      case Breakpoint => 3
      case LoadAddressMisaligned => 4
      case LoadAccessFault => 5
      case StoreAddressMisaligned => 6
      case StoreAccessFault => 7
      case EnvironmentCallFromU => 8
      case EnvironmentCallFromS => 9
      case EnvironmentCall => 11
      case InstructionPageFault => 12
      case LoadPageFault => 13
      case StorePageFault => 15
    }
  }

  /** The machine CSRs. */
  datatype CsrFile = CsrFile(
    mie: bool, mpie: bool, meie: bool, mtvec: Word, mscratch: Word, mepc: Word, mcause: Word, mtval: Word, irqLevel: bool)

  /** The mode, the `mstatus` fields below M, and the supervisor CSRs. */
  datatype M3State = M3State(
    privilege: Privilege, sie: bool, spie: bool, spp: Spp, mpp: Privilege, sum: bool, mxr: bool,
    medeleg: Word, stvec: Word, sscratch: Word, sepc: Word, scause: Word, stval: Word, satp: Word)

  datatype Csrs = Csrs(m: CsrFile, s: M3State)

  const RESET_CSRS := Csrs(
    CsrFile(false, false, false, 0, 0, 0, 0, 0, false),
    M3State(Machine, false, false, SppUser, User, false, false, 0, 0, 0, 0, 0, 0, 0))

  function Bits(p: Privilege): nat {
    match p case User => 0 case Supervisor => 1 case Machine => 3
  }

  /** Bit `d` (a power of two) of `w`. */
  predicate Bit(w: Word, d: nat)
    requires d > 0
  {
    w / d % 2 == 1
  }

  function Flag(b: bool, d: Word): Word {
    if b then d else 0
  }

  /** `w & !3`. */
  function Aligned(w: Word): (r: Word)
    ensures r % 4 == 0
  {
    w - w % 4
  }

  /** `w & 0xB1FF`: the exceptions that can be delegated. */
  function MaskDelegation(w: Word): (r: Word)
    ensures r < 0x1_0000
  {
    w % 0x200 + w / 0x1000 % 4 * 0x1000 + w / 0x8000 % 2 * 0x8000
  }

  /** `satp` with the ASID bits cleared. */
  function SatpWrite(w: Word): Word {
    w / 0x8000_0000 * 0x8000_0000 + w % PPN_LIMIT
  }

  lemma Split8000(x: int, q: int, r: int)
    requires x == 0x8000 * q + r && 0 <= r < 0x8000
    ensures x / 0x8000 == q
  {
  }

  lemma Split1000(x: int, q: int, r: int)
    requires x == 0x1000 * q + r && 0 <= r < 0x1000
    ensures x / 0x1000 == q
  {
  }

  lemma Split200(x: int, q: int, r: int)
    requires x == 0x200 * q + r && 0 <= r < 0x200
    ensures x % 0x200 == r
  {
  }

  lemma MaskTwice(w: Word)
    ensures MaskDelegation(MaskDelegation(w)) == MaskDelegation(w)
  {
    var a, b, c := w % 0x200, w / 0x1000 % 4, w / 0x8000 % 2;
    var r := MaskDelegation(w);
    Split8000(r, c, 0x1000 * b + a);
    Split1000(r, 8 * c + b, a);
    Split200(r, 64 * c + 8 * b, a);
  }

  lemma SatpTwice(w: Word)
    ensures SatpWrite(SatpWrite(w)) == SatpWrite(w)
  {
    var h, l := w / 0x8000_0000, w % PPN_LIMIT;
    var r := SatpWrite(w);
    assert r == 0x8000_0000 * h + l && 0 <= l < 0x8000_0000;
    assert r / 0x8000_0000 == h;
    assert r == PPN_LIMIT * (512 * h) + l;
    assert r % PPN_LIMIT == l;
  }

  lemma ZeroFields(w: Word)
    requires w == 0
    ensures MaskDelegation(w) == w && SatpWrite(w) == w
  {
    assert w % 0x200 == 0 && w / 0x1000 == 0 && w / 0x8000 == 0 && w / 0x8000_0000 == 0 && w % PPN_LIMIT == 0;
  }

  // ----- Reads and writes -----

  const MSTATUS := 0x300
  const MEDELEG := 0x302
  const MIDELEG := 0x303
  const MIE := 0x304
  const MTVEC := 0x305
  const MSCRATCH := 0x340
  const MEPC := 0x341
  const MCAUSE := 0x342
  const MTVAL := 0x343
  const MIP := 0x344
  const SSTATUS := 0x100
  const SIE := 0x104
  const STVEC := 0x105
  const SSCRATCH := 0x140
  const SEPC := 0x141
  const SCAUSE := 0x142
  const STVAL := 0x143
  const SIP := 0x144
  const SATP := 0x180

  predicate Supported(csr: nat) {
    csr in {MSTATUS, MIE, MIP, MTVEC, MSCRATCH, MEPC, MCAUSE, MTVAL, SSTATUS, SIE, SIP, STVEC, SSCRATCH, SEPC, SCAUSE, STVAL, SATP,
            MEDELEG, MIDELEG}
  }

  /** The CSR access rule: the mode reaches the register, and a read-only one is not written. */
  predicate Accessible(csr: nat, p: Privilege, writes: bool) {
    Bits(p) >= csr / 0x100 % 4 && !(writes && csr / 0x400 % 4 == 3)
  }

  function ReadSstatus(s: M3State): Word {
    Flag(s.sie, 0x2) + Flag(s.spie, 0x20) + Flag(s.spp.SppSupervisor?, 0x100) + Flag(s.sum, 0x4_0000) + Flag(s.mxr, 0x8_0000)
  }

  function ReadCsr(c: Csrs, csr: nat): Option<Word> {
    if csr == MSTATUS then Some(ReadSstatus(c.s) + Flag(c.m.mie, 0x8) + Flag(c.m.mpie, 0x80) + Bits(c.s.mpp) * 0x800)
    else if csr == SSTATUS then Some(ReadSstatus(c.s))
    else if csr == MEDELEG then Some(c.s.medeleg)
    else if csr == MIDELEG || csr == SIE || csr == SIP then Some(0)
    else if csr == STVEC then Some(c.s.stvec)
    else if csr == SSCRATCH then Some(c.s.sscratch)
    else if csr == SEPC then Some(c.s.sepc)
    else if csr == SCAUSE then Some(c.s.scause)
    else if csr == STVAL then Some(c.s.stval)
    else if csr == SATP then Some(c.s.satp)
    else if csr == MIE then Some(Flag(c.m.meie, 0x800))
    else if csr == MIP then Some(Flag(c.m.irqLevel, 0x800))
    else if csr == MTVEC then Some(c.m.mtvec)
    else if csr == MSCRATCH then Some(c.m.mscratch)
    else if csr == MEPC then Some(c.m.mepc)
    else if csr == MCAUSE then Some(c.m.mcause)
    else if csr == MTVAL then Some(c.m.mtval)
    else None
  }

  function WriteSstatus(s: M3State, v: Word): M3State {
    s.(sie := Bit(v, 0x2), spie := Bit(v, 0x20), spp := if Bit(v, 0x100) then SppSupervisor else SppUser, sum := Bit(v, 0x4_0000), mxr := Bit(v, 0x8_0000))
  }

  /** `MPP` as written: the reserved encoding becomes U. */
  function LegalMpp(field: int): Privilege {
    if field % 4 == 1 then Supervisor else if field % 4 == 3 then Machine else User
  }

  function WriteCsr(c: Csrs, csr: nat, v: Word): Option<Csrs> {
    if csr == MSTATUS then
      Some(Csrs(c.m.(mie := Bit(v, 0x8), mpie := Bit(v, 0x80)), WriteSstatus(c.s, v).(mpp := LegalMpp(v / 0x800))))
    else if csr == SSTATUS then Some(c.(s := WriteSstatus(c.s, v)))
    else if csr == MEDELEG then Some(c.(s := c.s.(medeleg := MaskDelegation(v))))
    else if csr == MIDELEG || csr == SIE || csr == SIP || csr == MIP then Some(c)
    else if csr == STVEC then Some(c.(s := c.s.(stvec := Aligned(v))))
    else if csr == SSCRATCH then Some(c.(s := c.s.(sscratch := v)))
    else if csr == SEPC then Some(c.(s := c.s.(sepc := Aligned(v))))
    else if csr == SCAUSE then Some(c.(s := c.s.(scause := v)))
    else if csr == STVAL then Some(c.(s := c.s.(stval := v)))
    else if csr == SATP then Some(c.(s := c.s.(satp := SatpWrite(v))))
    else if csr == MIE then Some(c.(m := c.m.(meie := Bit(v, 0x800))))
    else if csr == MTVEC then Some(c.(m := c.m.(mtvec := Aligned(v))))
    else if csr == MSCRATCH then Some(c.(m := c.m.(mscratch := v)))
    else if csr == MEPC then Some(c.(m := c.m.(mepc := Aligned(v))))
    else if csr == MCAUSE then Some(c.(m := c.m.(mcause := v)))
    else if csr == MTVAL then Some(c.(m := c.m.(mtval := v)))
    else None
  }

  // ----- Mode changes -----

  /** `MRET`: the new state and the `pc`. */
  function Mret(c: Csrs): (Csrs, Word) {
    (Csrs(c.m.(mie := c.m.mpie, mpie := true), c.s.(privilege := c.s.mpp, mpp := User)), c.m.mepc)
  }

  function Sret(c: Csrs): (Csrs, Word) {
    (c.(s := c.s.(privilege := if c.s.spp.SppUser? then User else Supervisor, spp := SppUser, sie := c.s.spie, spie := true)), c.s.sepc)
  }

  predicate Translates(s: M3State) {
    s.privilege != Machine && s.satp >= SATP_MODE
  }

  predicate Delegates(s: M3State, cause: TrapCause) {
    s.privilege != Machine && Bit(s.medeleg, Power(cause.Code()))
  }

  function Power(n: nat): (d: nat)
    ensures d > 0
  {
    if n == 0 then 1 else 2 * Power(n - 1)
  }

  /** A delegated exception's entry to S, or `None` when it is not delegated. */
  function TakeException(c: Csrs, cause: TrapCause, pc: Word, tval: Word): Option<(Csrs, Word)> {
    if !Delegates(c.s, cause) then None
    else
      Some((c.(s := c.s.(spp := if c.s.privilege == User then SppUser else SppSupervisor, sepc := pc, scause := cause.Code(), stval := tval,
                         spie := c.s.sie, sie := false, privilege := Supervisor)), Aligned(c.s.stvec)))
  }

  predicate MeiEligible(c: Csrs) {
    c.m.irqLevel && c.m.meie && (c.s.privilege != Machine || c.m.mie)
  }

  function TakeMei(c: Csrs, nextPc: Word): (Csrs, Word) {
    (Csrs(c.m.(mepc := nextPc, mcause := 0x8000_000B, mtval := 0, mpie := c.m.mie, mie := false), c.s.(mpp := c.s.privilege, privilege := Machine)), c.m.mtvec)
  }

  // ----- What every change keeps -----

  /** What `restore_m3` asks of the CSRs. */
  predicate CsrsOk(c: Csrs) {
    && c.m.mtvec % 4 == 0 && c.m.mepc % 4 == 0 && c.s.stvec % 4 == 0 && c.s.sepc % 4 == 0
    && MaskDelegation(c.s.medeleg) == c.s.medeleg && SatpWrite(c.s.satp) == c.s.satp
  }

  lemma WriteOk(c: Csrs, csr: nat, v: Word)
    requires CsrsOk(c)
    ensures WriteCsr(c, csr, v).Some? ==> CsrsOk(WriteCsr(c, csr, v).value) && WriteCsr(c, csr, v).value.s.privilege == c.s.privilege
  {
    hide MaskDelegation, SatpWrite, Bit, LegalMpp;
    MaskTwice(v);
    SatpTwice(v);
  }

  /** A CSR that can be read can be written. */
  lemma ReadsAreWrites(c: Csrs, csr: nat, v: Word)
    ensures ReadCsr(c, csr).Some? <==> WriteCsr(c, csr, v).Some?
    ensures Supported(csr) <==> ReadCsr(c, csr).Some?
  {
    hide MaskDelegation, SatpWrite, Bit, LegalMpp;
  }
}
