/** The DMA controller in place: its fields, its handlers, and what it has sent. */
module DmaObject {
  import opened Words
  import opened Config
  import opened Dma

  /** The levels sent alternate from a first assertion, and the last is `level` (the line starts deasserted). */
  ghost predicate Toggles(levels: seq<bool>, level: bool) {
    && level == (levels != [] && levels[|levels| - 1])
    && (levels != [] ==> levels[0]) && forall i :: 0 < i < |levels| ==> levels[i] != levels[i - 1]
  }

  class DmaBlockController {
    const config: DmaConfig
    var lba: Word
    var memAddr: Word
    var blockCount: Word
    var irqEnable: bool
    var busy: bool
    var done: bool
    var rejected: bool
    var error: Byte
    var latched: Option<Latched>
    var engine: Engine
    var block: Word
    var beat: nat
    var buffer: seq<Byte>
    var dmaTxn: Long
    var blkTxn: Long
    var irqLevel: bool
    /** Whether `Wake(ISSUE)` is pending, the requests sent, and the levels sent on the interrupt line. */
    var wake: bool
    var sent: seq<Request>
    var levels: seq<bool>

    ghost function Now(): Ctl
      reads this
    {
      Ctl(lba, memAddr, blockCount, irqEnable, busy, done, rejected, error, latched, engine, block, beat, buffer, dmaTxn, blkTxn, irqLevel)
    }

    /** The state is one `restore` accepts, a wake is pending exactly when a request is due, and the line was sent each
        of its changes and no more. */
    ghost predicate Valid()
      reads this
    {
      && config.Valid() && CtlOk(config, Now()) && (wake <==> engine.Issue?)
      && Toggles(levels, irqLevel)
    }

    constructor (g: DmaConfig)
      requires g.Valid()
      ensures Valid() && config == g && Now() == RESET && sent == [] && levels == []
    {
      config := g;
      lba, memAddr, blockCount, irqEnable := 0, 0, 0, false;
      busy, done, rejected, error := false, false, false, 0;
      latched, engine, block, beat, buffer := None, Idle, 0, 0, [];
      dmaTxn, blkTxn, irqLevel := 0, 0, false;
      wake, sent, levels := false, [], [];
    }

    /** Sends the interrupt line's level when it changes. */
    method UpdateIrq()
      requires Toggles(levels, irqLevel)
      modifies this`irqLevel, this`levels
      ensures Now() == WithIrq(old(Now()))
      ensures Toggles(levels, irqLevel)
      ensures levels == if irqLevel == old(irqLevel) then old(levels) else old(levels) + [irqLevel]
    {
      var level := done && irqEnable;
      if level == irqLevel {
        return;
      }
      irqLevel := level;
      levels := levels + [level];
    }

    /** Leaves the command: DONE with `code`, and the engine idle. */
    method Leave(code: Byte)
      modifies this`busy, this`done, this`error, this`latched, this`engine, this`block, this`beat, this`buffer
      ensures Now() == old(Now()).(busy := false, done := true, error := code, latched := None, engine := Idle, block := 0, beat := 0, buffer := [])
    {
      busy, done, error := false, true, code;
      GoIdle();
    }

    method GoIdle()
      modifies this`latched, this`engine, this`block, this`beat, this`buffer
      ensures latched.None? && engine == Idle && block == 0 && beat == 0 && buffer == []
    {
      latched, engine, block, beat, buffer := None, Idle, 0, 0, [];
    }

    /** Ends the command, or a failed validation, with `code`. */
    method CompleteWith(code: Byte)
      requires Toggles(levels, irqLevel)
      modifies this`busy, this`done, this`error, this`latched, this`engine, this`block, this`beat, this`buffer, this`irqLevel, this`levels
      ensures Now() == Complete(old(Now()), code)
      ensures Toggles(levels, irqLevel)
    {
      hide Toggles;
      Leave(code);
      UpdateIrq();
    }

    /** A `COMMAND` write. */
    method CommandWrite(value: Word)
      requires Valid()
      modifies this
      ensures Valid() && Now() == Command(config, old(Now()), value) && sent == old(sent)
    {
      hide CtlOk, Validate, Toggles;
      CommandOk(config, Now(), value);
      CommandEngine(config, Now(), value);
      if busy || done {
        rejected := true;
        return;
      }
      var r := Validate(config, value, lba, memAddr, blockCount);
      if r.Ok? {
        busy := true;
        latched := Some(Latched(r.value, lba, memAddr, blockCount));
        engine := Issue;
        wake := true;
      } else {
        CompleteWith(r.error);
      }
    }

    method EnableIrq(on: bool)
      requires Toggles(levels, irqLevel)
      modifies this`irqEnable, this`irqLevel, this`levels
      ensures Now() == WithIrq(old(Now()).(irqEnable := on)) && Toggles(levels, irqLevel)
    {
      hide Toggles;
      irqEnable := on;
      UpdateIrq();
    }

    method Acknowledge()
      requires Toggles(levels, irqLevel)
      modifies this`done, this`error, this`irqLevel, this`levels
      ensures Now() == WithIrq(old(Now()).(done := false, error := 0)) && Toggles(levels, irqLevel)
    {
      hide Toggles;
      done, error := false, 0;
      UpdateIrq();
    }

    /** A register write; `ok` tells whether the register can be written. */
    method WriteAt(offset: nat, value: Word) returns (ok: bool)
      requires Valid()
      modifies this
      ensures Valid() && sent == old(sent)
      ensures ok <==> WriteRegister(config, old(Now()), offset, value).Some?
      ensures Now() == if ok then WriteRegister(config, old(Now()), offset, value).value else old(Now())
    {
      hide CtlOk, Command, Toggles;
      RegistersOk(config, Now(), offset, value);
      if offset == 0x00 {
        CommandWrite(value);
      } else if offset == 0x04 {
        if value % 8 >= 4 {
          rejected := false;
        }
      } else if offset == 0x08 {
        lba := value;
      } else if offset == 0x0C {
        memAddr := value;
      } else if offset == 0x10 {
        blockCount := value;
      } else if offset == 0x14 {
        EnableIrq(value % 2 == 1);
      } else if offset == 0x18 {
        if value % 2 == 1 && done {
          Acknowledge();
        }
      } else {
        return false;
      }
      return true;
    }

    /** `Wake(ISSUE)`: sends the latched command's next request. */
    method IssueWake() returns (fault: Option<Fault>)
      requires Valid()
      modifies this
      ensures Valid() && BufferOk(old(Now()))
      ensures match IssueNext(old(Now()))
              case Err(f) => fault == Some(f) && unchanged(this)
              case Ok((n, r)) => fault.None? && Now() == n && sent == old(sent) + [r]
    {
      hide LatchedOk, Toggles;
      IssueOk(config, Now());
      if !engine.Issue? || latched.None? {
        return Some(NothingToIssue);
      }
      var l := latched.value;
      if l.op.Read? && buffer == [] {
        if blkTxn == LONG_MAX {
          return Some(TxnExhausted);
        }
        SendBlock(ReadBlock(blkTxn, l.lba + block));
      } else if l.op.Read? {
        if dmaTxn == LONG_MAX {
          return Some(TxnExhausted);
        }
        SendBeat(BeatOut(dmaTxn, BeatAddr(l, block, beat), buffer[BEAT * beat..BEAT * beat + BEAT]));
      } else if beat == BEATS {
        if blkTxn == LONG_MAX {
          return Some(TxnExhausted);
        }
        SendBlock(WriteBlock(blkTxn, l.lba + block, buffer));
        buffer := [];
      } else {
        if dmaTxn == LONG_MAX {
          return Some(TxnExhausted);
        }
        SendBeat(BeatIn(dmaTxn, BeatAddr(l, block, beat)));
      }
      return None;
    }

    method SendBlock(r: Request)
      requires blkTxn < LONG_MAX
      modifies this`blkTxn, this`engine, this`sent, this`wake
      ensures blkTxn == old(blkTxn) + 1 && engine == WaitMedia(old(blkTxn)) && sent == old(sent) + [r] && !wake
    {
      sent := sent + [r];
      engine := WaitMedia(blkTxn);
      blkTxn := blkTxn + 1;
      wake := false;
    }

    method SendBeat(r: Request)
      requires dmaTxn < LONG_MAX
      modifies this`dmaTxn, this`engine, this`sent, this`wake
      ensures dmaTxn == old(dmaTxn) + 1 && engine == WaitBeat(old(dmaTxn)) && sent == old(sent) + [r] && !wake
    {
      sent := sent + [r];
      engine := WaitBeat(dmaTxn);
      dmaTxn := dmaTxn + 1;
      wake := false;
    }

    /** Block `i` is done. */
    method FinishBlock(l: Latched)
      requires block + 1 < WORD_LIMIT && latched == Some(l) && !wake
      requires Toggles(levels, irqLevel)
      modifies this`busy, this`done, this`error, this`latched, this`engine, this`block, this`beat, this`buffer, this`irqLevel, this`levels, this`wake
      ensures Now() == NextBlock(old(Now()), l) && (wake <==> engine.Issue?)
      ensures Toggles(levels, irqLevel)
    {
      hide Toggles;
      beat, buffer := 0, [];
      block := block + 1;
      if block == l.count {
        CompleteWith(0);
      } else {
        engine := Issue;
        wake := true;
      }
    }

    /** The result of the outstanding media request, in `Complete`. */
    method HandleMedia(txn: Long, o: Outcome) returns (fault: Option<Fault>)
      requires Valid()
      modifies this
      ensures Valid() && sent == old(sent) && old(block) + 1 < WORD_LIMIT
      ensures match MediaResult(old(Now()), txn, o)
              case Err(f) => fault == Some(f) && unchanged(this)
              case Ok(n) => fault.None? && Now() == n
    {
      hide LatchedOk, Toggles;
      BlockBounds(config, Now());
      MediaOk(config, Now(), txn, o);
      if !engine.WaitMedia? || latched.None? || txn != engine.txn {
        return Some(NotOutstanding);
      }
      var l := latched.value;
      if l.op.Read? && o.BlockData? {
        if |o.data| != BLOCK {
          return Some(WrongLength);
        }
        buffer, engine, wake := o.data, Issue, true;
      } else if l.op.Write? && o.BlockDone? {
        FinishBlock(l);
      } else if o.BlockError? {
        CompleteWith(MEDIA_ERROR);
      } else {
        return Some(NotOutstanding);
      }
      return None;
    }

    /** The response to the outstanding beat, in `Complete`. */
    method HandleBeat(txn: Long, o: Outcome) returns (fault: Option<Fault>)
      requires Valid()
      modifies this
      ensures Valid() && sent == old(sent) && old(block) + 1 < WORD_LIMIT
      ensures match BeatResult(old(Now()), txn, o)
              case Err(f) => fault == Some(f) && unchanged(this)
              case Ok(n) => fault.None? && Now() == n
    {
      hide LatchedOk, Toggles;
      BlockBounds(config, Now());
      BeatOk(config, Now(), txn, o);
      if !engine.WaitBeat? || latched.None? || txn != engine.txn {
        return Some(NotOutstanding);
      }
      var l := latched.value;
      if l.op.Read? && o.BeatDone? {
        if beat + 1 == BEATS {
          FinishBlock(l);
        } else {
          beat, engine, wake := beat + 1, Issue, true;
        }
      } else if l.op.Write? && o.BeatData? {
        if |o.data| != BEAT {
          return Some(WrongLength);
        }
        buffer, beat, engine, wake := buffer + o.data, beat + 1, Issue, true;
      } else if o.BeatFault? {
        CompleteWith(DMA_FAULT);
      } else {
        return Some(NotOutstanding);
      }
      return None;
    }
  }

  /** A command changes the engine only from idle to a due request. */
  lemma CommandEngine(g: DmaConfig, x: Ctl, value: Word)
    requires CtlOk(g, x)
    ensures !x.busy ==> x.engine.Idle?
  {
  }
}
