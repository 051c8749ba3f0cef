/** The engine with memory that answers correctly: each access it sends is the machine's next step, and its whitelist fault
    is never reached. */
module GateRun {
  import opened Words
  import opened Core
  import opened Config
  import opened ProcOps
  import opened Models
  import opened ModelRun
  import opened Machines
  import opened WriteRun
  import opened WriteExact
  import opened Permits
  import opened PermitsRun
  import opened Gate
  import Isolation

  /** The engine's kernel is that of the sound machine `s`. */
  ghost predicate Joined(k: ModeledKernel, s: Machine)
    reads k, k.model, k.model.table
  {
    k.Valid() && k.Abstract() == s.kernel && SoundMachine(k.config, s)
  }

  /** The response of memory and devices to an access. */
  function Respond(c: KernelConfig, s: Machine, a: Core.Access, txn: Long, device: seq<Byte>): Response {
    match Reply(c, s.mem, a, device) case Data(d) => ReadResp(txn, Some(d)) case Written => WriteResp(txn, true)
  }

  lemma RespondCorrect(c: KernelConfig, s: Machine, a: Core.Access, txn: Long, device: seq<Byte>)
    requires |device| == a.Len()
    ensures var r := Respond(c, s, a, txn, device);
      Correct(a, txn, r) && CompletionOf(r) == Some(Reply(c, s.mem, a, device))
  {
  }

  lemma IssuablePermitted(c: KernelConfig, a: Core.Access)
    requires Issuable(c, a)
    ensures Permitted(c, a)
  {
  }

  lemma StillReached(c: KernelConfig, s: Machine, h: Happening)
    requires Inv(c, s.kernel) && Possible(c, s, h)
    ensures Reached(c, s) ==> Reached(c, Happen(c, s, h))
  {
    hide Reached, Inv, Possible, Happen;
    if Reached(c, s) {
      ReachedNext(c, s, h);
    }
  }

  /** An ENTER write to the gate is taken exactly between operations before the shutdown, and is the machine's step. */
  method ServeEnter(k: ModeledKernel, s: Machine, txn: Long, value: Word) returns (r: Result<(), SimError>)
    requires Joined(k, s)
    modifies k, k.model, k.model.table
    ensures r.Ok? <==> s.kernel.op.None? && s.kernel.model.life != Down
    ensures r.Ok? ==>
      && Inv(k.config, s.kernel) && Possible(k.config, s, KernelEnter(value))
      && Joined(k, Happen(k.config, s, KernelEnter(value))) && k.entered == old(k.entered) + [txn]
      && (Reached(k.config, s) ==> Reached(k.config, Happen(k.config, s, KernelEnter(value))))
    ensures r.Err? ==> Joined(k, s)
  {
    hide MachineInv, WriteOk, Inv, Step, Models.Ready, Reached;
    Isolation.HasLives(k.config, s);
    ghost var h := KernelEnter(value);
    r := k.Enter(txn, value);
    if r.Ok? {
      EnterHappens(k.config, s, value);
      HappenSound(k.config, s, h);
      StillReached(k.config, s, h);
    }
  }

  lemma EnterHappens(c: KernelConfig, s: Machine, value: Word)
    requires MachineInv(c, s) && s.kernel.op.None? && s.kernel.model.life != Down
    ensures Inv(c, s.kernel) && Possible(c, s, KernelEnter(value)) && Models.Ready(c, s.kernel.model)
    ensures Step(c, s.kernel, Enter(value)) == Ok(Happen(c, s, KernelEnter(value)).kernel)
  {
    hide Inv, LivesOk, PlansInPage, FlightOk, DevicesApart, Step, Models.Ready;
    EventAllowed(c, s, KernelEnter(value));
  }

  /** The access due is sent and answered: it passes the whitelist and is 1 to 16 bytes, the engine never faults but for
      running out of transactions, and the answer takes it to the machine's next state. */
  method ServeAccess(k: ModeledKernel, s: Machine, device: seq<Byte>) returns (r: Result<(), SimError>)
    requires Joined(k, s) && Platform(k.config) && k.state.Issue? && OpOk(k.config, k.state.op)
    requires |device| == AccessDue(k.config, k.state.op).Len()
    modifies k, k.model, k.model.table
    ensures if old(k.nextTxn) == LONG_MAX then r == Err(TxnExhausted) && Joined(k, s) else r.Ok?
    ensures r.Ok? ==>
      var a := AccessDue(k.config, old(k.state).op);
      && Issuable(k.config, a) && k.issued == old(k.issued) + [Request(old(k.nextTxn), a)]
      && Inv(k.config, s.kernel) && Possible(k.config, s, KernelAccess(device))
      && Joined(k, Happen(k.config, s, KernelAccess(device))) && !k.state.Wait?
      && (Reached(k.config, s) ==> Reached(k.config, Happen(k.config, s, KernelAccess(device))))
  {
    hide MachineInv, WriteOk, Inv, Step, Models.Ready, OpOk, AccessDue, Issuable, Permitted, Correct, Reply, TookAnswer, Platform, Respond, CompletionOf, Possible, Happen, Reached;
    Isolation.HasLives(k.config, s);
    var op, c := k.state.op, k.config;
    var a := AccessDue(c, op);
    AccessPermitted(c, s);
    IssuablePermitted(c, a);
    r := k.IssueAccess();
    if r.Err? {
      return r;
    }
    var txn := k.state.txn;
    RespondCorrect(c, s, a, txn, device);
    r := k.MemResponse(Respond(c, s, a, txn, device), true);
    AccessHappens(c, s, device, k.Abstract());
    HappenSound(c, s, KernelAccess(device));
    StillReached(c, s, KernelAccess(device));
  }

  lemma AccessHappens(c: KernelConfig, s: Machine, device: seq<Byte>, n: Kernel)
    requires MachineInv(c, s) && s.kernel.op.Some? && OpOk(c, s.kernel.op.value)
    requires |device| == AccessDue(c, s.kernel.op.value).Len()
    requires TookAnswer(c, s.kernel, Reply(c, s.mem, AccessDue(c, s.kernel.op.value), device), n)
    ensures Inv(c, s.kernel) && Possible(c, s, KernelAccess(device)) && n == Happen(c, s, KernelAccess(device)).kernel
  {
    hide Inv, LivesOk, PlansInPage, FlightOk, DevicesApart, Step, Models.Ready, OpOk, AccessDue, Reply, Advanceable, Happen, Allowed;
    AccessIs(c, s, KernelAccess(device));
  }
}
