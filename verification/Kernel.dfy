/** The held-ENTER engine of the modeled kernel (components/os/src/kernel.rs): one ENTER is held while its operation's
    accesses are issued one at a time, and answered once when the last has completed. */
module Gate {
  import opened Words
  import opened Core
  import opened Config
  import opened ProcOps
  import opened Models
  import opened ModelRun
  import opened ModelObject
  import ProcessTable
  import Processes
  import Image

  /** The engine's position: nothing held, an access due at the next wake, or one outstanding. */
  datatype Position = Idle | Issue(op: ProcOp) | Wait(op: ProcOp, txn: Long)

  function OpOf(p: Position): Option<ProcOp> {
    match p
    case Idle => None
    case Issue(op) => Some(op)
    case Wait(op, _) => Some(op)
  }

  /** A request on the memory port. */
  datatype Request = Request(txn: Long, access: Core.Access)

  /** A response on the memory port: read data, a write's acknowledgement, or a fault of either kind. */
  datatype Response = ReadResp(txn: Long, data: Option<seq<Byte>>) | WriteResp(txn: Long, done: bool)

  datatype SimError =
    | SecondEnter | NothingToIssue | OutsideWhitelist | TxnExhausted
    | NothingOutstanding | WrongTxn | WrongPhase | WrongResponse | Faulted | WrongLength | Violation(v: Processes.Violation)

  /** The completion a response carries, if it is not a fault. */
  function CompletionOf(r: Response): Option<Completion> {
    match r
    case ReadResp(_, Some(d)) => Some(Data(d))
    case WriteResp(_, true) => Some(Written)
    case _ => None
  }

  /** The response answers the access, and correctly. */
  predicate Correct(a: Core.Access, txn: Long, r: Response) {
    r.txn == txn && CompletionOf(r).Some? && (a.Write? <==> r.WriteResp?) && Answers(a, CompletionOf(r).value)
  }

  class ModeledKernel {
    const config: KernelConfig
    var state: Position
    var held: Option<Long>
    var nextTxn: Long
    const model: KernelModel
    /** Whether an ISSUE wake is pending. */
    var wake: bool
    /** What the ports have carried: accesses issued, ENTERs accepted and ENTERs answered, in order. */
    var issued: seq<Request>
    var entered: seq<Long>
    var answered: seq<Long>

    ghost function Abstract(): Kernel
      reads this, model, model.table
    {
      Kernel(model.Now(), OpOf(state))
    }

    ghost predicate Valid()
      reads this, model, model.table
    {
      && model.config == config && Inv(config, Abstract())
      && (held.Some? <==> !state.Idle?)
      && (wake <==> state.Issue?)
      && (state.Wait? ==> nextTxn == state.txn + 1)
      && |issued| == nextTxn && (forall i :: 0 <= i < |issued| ==> issued[i].txn == i)
      && (state.Wait? ==> OpOk(config, state.op) && issued[|issued| - 1] == Request(state.txn, AccessDue(config, state.op)))
      && entered == answered + (if held.Some? then [held.value] else [])
    }

    /** `with_source`: idle, awaiting boot, with an all-free pool. */
    constructor (c: KernelConfig, source: Source)
      requires ValidSource(c, source)
      ensures Valid() && config == c && state.Idle? && nextTxn == 0 && entered == [] && Fresh(c, Abstract())
      ensures model.source == source && fresh(model) && fresh(model.table)
    {
      PoolBase(c, source.layout);
      var table := new ProcessTable.Table(c.framePool.base / PAGE, c.framePool.size / PAGE);
      config := c;
      state, held, nextTxn, wake := Idle, None, 0, false;
      issued, entered, answered := [], [], [];
      model := new KernelModel(c, source, table);
      new;
      FreshInv(c, Abstract());
    }

    /** An ENTER write: it is refused while one is held and after the shutdown, and otherwise held, with its operation's
        first access due. No other ENTER is a violation. */
    method Enter(txn: Long, value: Word) returns (r: Result<(), SimError>)
      requires Valid()
      modifies this, model, model.table
      ensures r.Ok? <==> old(held).None? && old(model.life) != Down
      ensures r.Err? ==> unchanged(this) && Abstract() == old(Abstract())
      ensures Valid()
      ensures r.Ok? ==>
        && held == Some(txn) && state.Issue? && entered == old(entered) + [txn] && answered == old(answered)
        && issued == old(issued) && nextTxn == old(nextTxn)
        && Models.Ready(config, old(model.Now())) && Step(config, old(Abstract()), ModelRun.Enter(value)) == Ok(Abstract())
    {
      hide Inv, Models.Ready, Start, Step, OpOk, AccessDue, Advanceable;
      if held.Some? {
        return Err(SecondEnter);
      }
      InvReady(config, Abstract());
      EnterIs(config, Abstract(), value);
      var stage := model.Start(value);
      if stage.Err? {
        return Err(Violation(stage.error));
      }
      held := Some(txn);
      state := Issue(NewOp(stage.value));
      wake := true;
      entered := entered + [txn];
      return Ok(());
    }

    /** An ISSUE wake: the access due is sent, if the whitelist permits it, under the next transaction. */
    method IssueAccess() returns (r: Result<(), SimError>)
      requires Valid()
      modifies this
      ensures r.Ok? <==> old(state).Issue? && OpOk(config, old(state).op) && Permitted(config, AccessDue(config, old(state).op)) && old(nextTxn) < LONG_MAX
      ensures r.Err? ==> unchanged(this)
      ensures r.Err? ==> r.error == if !old(state).Issue? then NothingToIssue
        else if OpOk(config, old(state).op) && Permitted(config, AccessDue(config, old(state).op)) then TxnExhausted
        else OutsideWhitelist
      ensures Valid()
      ensures r.Ok? ==>
        && state == Wait(old(state).op, old(nextTxn)) && nextTxn == old(nextTxn) + 1
        && issued == old(issued) + [Request(old(nextTxn), AccessDue(config, old(state).op))]
        && Abstract() == old(Abstract()) && held == old(held) && entered == old(entered) && answered == old(answered)
    {
      hide Inv, Models.Ready, OpOk, AccessDue, Advanceable, Permitted;
      if !state.Issue? {
        return Err(NothingToIssue);
      }
      InvReady(config, Abstract());
      var op := state.op;
      var access := AccessDue(config, op);
      if !Permitted(config, access) {
        return Err(OutsideWhitelist);
      }
      if nextTxn == LONG_MAX {
        return Err(TxnExhausted);
      }
      issued := issued + [Request(nextTxn, access)];
      state := Wait(op, nextTxn);
      nextTxn := nextTxn + 1;
      wake := false;
      return Ok(());
    }

    /** The response to the outstanding access: the operation takes it, and goes on to its next access or, after its
        last, answers the held ENTER. */
    method MemResponse(msg: Response, inComplete: bool) returns (r: Result<(), SimError>)
      requires Valid()
      modifies this, model, model.table
      ensures r.Ok? <==> old(state).Wait? && inComplete && OpOk(config, old(state).op) && Correct(AccessDue(config, old(state).op), old(state).txn, msg)
      ensures r.Err? ==> unchanged(this, model, model.table)
      ensures Valid()
      ensures r.Ok? ==>
        && issued == old(issued) && nextTxn == old(nextTxn) && entered == old(entered)
        && TookAnswer(config, old(Abstract()), CompletionOf(msg).value, Abstract())
        && !state.Wait?
        && (state.Idle? ==> old(held).Some? && answered == old(answered) + [old(held).value])
        && (state.Issue? ==> held == old(held) && answered == old(answered))
    {
      hide Inv, Models.Ready, OpOk, AccessDue, Advanceable, Step, Complete, Advance, Answers, TookAnswer, StageOk, HasData, Finished;
      if !state.Wait? {
        return Err(NothingOutstanding);
      }
      var op := state.op;
      if msg.txn != state.txn {
        return Err(WrongTxn);
      }
      if !inComplete {
        return Err(WrongPhase);
      }
      InvReady(config, Abstract());
      var access := AccessDue(config, op);
      if access.Write? != msg.WriteResp? {
        return Err(WrongResponse);
      }
      var completion := CompletionOf(msg);
      if completion.None? {
        return Err(Faulted);
      }
      var done := completion.value;
      var next := Complete(config, op, done);
      if next.Err? {
        return Err(WrongLength);
      }
      AnswerIs(config, Abstract(), done);
      if !Finished(config, next.value) {
        state := Issue(next.value);
        wake := true;
        return Ok(());
      }
      var after := model.Advance(next.value.stage, next.value.data);
      if after.value.Some? {
        state := Issue(NewOp(after.value.value));
        wake := true;
      } else {
        Release();
      }
      return Ok(());
    }

    /** Answers the held ENTER once and returns to idle. */
    method Release()
      requires held.Some?
      modifies this`held, this`state, this`answered
      ensures held.None? && state.Idle? && answered == old(answered) + [old(held).value]
    {
      answered := answered + [held.value];
      held := None;
      state := Idle;
    }
  }

  /** The whitelist, for an access with an address a `u64` can hold. */
  predicate Permitted(c: KernelConfig, a: Core.Access) {
    0 <= a.addr <= LONG_MAX && a.Len() <= LONG_MAX && c.Permits(a.addr, a.Len())
  }

  /** `n` is the kernel `k` after the answer `done`. */
  ghost predicate TookAnswer(c: KernelConfig, k: Kernel, done: Completion, n: Kernel) {
    && Models.Ready(c, k.model) && k.op.Some? && OpOk(c, k.op.value) && Advanceable(c, k.model, k.op.value.stage)
    && Allowed(c, k, Answered(done)) && Step(c, k, Answered(done)) == Ok(n)
  }

  /** An ENTER between operations: refused exactly when the kernel is down, and otherwise the operation's start. */
  lemma EnterIs(c: KernelConfig, k: Kernel, value: Word)
    requires Inv(c, k) && k.op.None? && Models.Ready(c, k.model)
    ensures var t := Start(c, k.model, value);
      && (t.result.Err? <==> k.model.life == Down) && (t.result.Err? ==> t.model == k.model)
      && (k.model.life != Down ==>
            var n := Kernel(t.model, Some(NewOp(t.result.value))); Step(c, k, ModelRun.Enter(value)) == Ok(n) && Inv(c, n))
  {
    hide Inv, NextCreation, Models.Ready;
    if k.model.life != Down {
      StepKeeps(c, k, ModelRun.Enter(value));
    }
  }

  /** The answer to the access due: the operation goes on within its stage, to its next one, or to its end. */
  lemma AnswerIs(c: KernelConfig, k: Kernel, done: Completion)
    requires Inv(c, k) && k.op.Some? && Models.Ready(c, k.model) && OpOk(c, k.op.value) && Advanceable(c, k.model, k.op.value.stage)
    requires Answers(AccessDue(c, k.op.value), done)
    ensures Complete(c, k.op.value, done).Ok? && StageOk(Complete(c, k.op.value, done).value.stage)
    ensures var next := Complete(c, k.op.value, done).value;
      if !Finished(c, next) then var n := Kernel(k.model, Some(next)); TookAnswer(c, k, done, n) && Inv(c, n)
      else
        && Advanceable(c, k.model, next.stage) && HasData(next.stage, next.data)
        && var t := Advance(c, k.model, next.stage, next.data);
           && t.result.Ok?
           && var n := Kernel(t.model, if t.result.value.Some? then Some(NewOp(t.result.value.value)) else None);
              TookAnswer(c, k, done, n) && Inv(c, n)
  {
    hide Inv, Models.Ready, OpOk, AccessDue, Advanceable, Advance, Answers, HasData, Steps, StageOk, Complete;
    OpStage(c, k.op.value);
    CompleteOk(c, k.op.value, done);
    FinishedData(c, k.op.value, done);
    StepKeeps(c, k, Answered(done));
  }

  lemma PoolBase(c: KernelConfig, l: Image.UserLayout)
    requires Image.ValidLayout(c, l)
    ensures 0 <= c.framePool.base / PAGE < WORD_LIMIT && c.framePool.size / PAGE >= 0
    ensures c.framePool.base / PAGE + c.framePool.size / PAGE <= WORD_LIMIT
  {
    var b, n := c.framePool.base / PAGE, c.framePool.size / PAGE;
    assert c.framePool.base == PAGE * b && c.framePool.size == PAGE * n;
    assert PAGE * (b + n) <= PHYS_LIMIT;
  }
}
