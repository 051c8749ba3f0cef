/** Dispatch records and the prefix check (runtime/src/trace.rs). */
module Trace {
  import opened Words
  import opened Config
  import opened Scheduler

  // ----- Messages -----

  datatype MediaError = OutOfRange | BadBlock

  datatype MemV0 =
    | ReadReq0(txn: Long, addr: Long, len: Word)
    | ReadResp0(txn: Long, data: seq<Byte>)
    | WriteReq0(txn: Long, addr: Long, data: seq<Byte>)
    | WriteResp0(txn: Long)

  /** A `mem.v1` outcome that is not data or done is an access fault. */
  datatype MemV1 =
    | ReadReq1(txn: Long, addr: Long, len: Word)
    | ReadResp1(txn: Long, outcome: Option<seq<Byte>>)
    | WriteReq1(txn: Long, addr: Long, data: seq<Byte>)
    | WriteResp1(txn: Long, done: bool)

  datatype BlockMsg =
    | ReadBlock(txn: Long, lba: Long)
    | WriteBlock(txn: Long, lba: Long, data: seq<Byte>)
    | ReadResult(txn: Long, read: Result<seq<Byte>, MediaError>)
    | WriteResult(txn: Long, failed: Option<MediaError>)

  datatype Message = Mem(mem: MemV0) | MemOne(one: MemV1) | Irq(asserted: bool) | Block(block: BlockMsg)

  type Port = x: int | 0 <= x < 0x1_0000

  datatype Delivered = Arrives(port: Port, msg: Message) | Wake(token: Long)

  datatype CanonicalEvent = CanonicalEvent(key: Key, source: Word, target: Word, delivery: Delivered)

  // ----- Records -----

  datatype Value = U64(n: Long) | Str(s: string) | Bytes(b: seq<Byte>) | Bool(v: bool)

  datatype Field = Field(name: string, value: Value)

  datatype At = Init | During(key: Key)

  datatype Record = Record(at: At, runtime: bool, component: Word, kind: string, fields: seq<Field>)

  const DISPATCH := "runtime.dispatch"

  /** A protocol's name and version. */
  function Protocol(m: Message): (string, Long) {
    match m
    case Mem(_) => ("mem", 0)
    case MemOne(_) => ("mem", 1)
    case Irq(_) => ("irq", 0)
    case Block(_) => ("block", 0)
  }

  function ErrorName(e: MediaError): string {
    match e case OutOfRange => "OutOfRange" case BadBlock => "BadBlock"
  }

  /** The message's variant name and fields, an outcome flattened into its name and field. */
  function MessageFields(m: Message): seq<Field> {
    match m
    case Mem(ReadReq0(t, a, n)) => [Field("msg", Str("ReadReq")), Field("txn", U64(t)), Field("addr", U64(a)), Field("len", U64(n))]
    case Mem(ReadResp0(t, d)) => [Field("msg", Str("ReadResp")), Field("txn", U64(t)), Field("data", Bytes(d))]
    case Mem(WriteReq0(t, a, d)) => [Field("msg", Str("WriteReq")), Field("txn", U64(t)), Field("addr", U64(a)), Field("data", Bytes(d))]
    case Mem(WriteResp0(t)) => [Field("msg", Str("WriteResp")), Field("txn", U64(t))]
    case MemOne(ReadReq1(t, a, n)) => [Field("msg", Str("ReadReq")), Field("txn", U64(t)), Field("addr", U64(a)), Field("len", U64(n))]
    case MemOne(ReadResp1(t, Some(d))) => [Field("msg", Str("ReadResp")), Field("txn", U64(t)), Field("outcome", Str("Data")), Field("data", Bytes(d))]
    case MemOne(ReadResp1(t, None)) => [Field("msg", Str("ReadResp")), Field("txn", U64(t)), Field("outcome", Str("Fault")), Field("fault", Str("AccessFault"))]
    case MemOne(WriteReq1(t, a, d)) => [Field("msg", Str("WriteReq")), Field("txn", U64(t)), Field("addr", U64(a)), Field("data", Bytes(d))]
    case MemOne(WriteResp1(t, true)) => [Field("msg", Str("WriteResp")), Field("txn", U64(t)), Field("outcome", Str("Done"))]
    case MemOne(WriteResp1(t, false)) => [Field("msg", Str("WriteResp")), Field("txn", U64(t)), Field("outcome", Str("Fault")), Field("fault", Str("AccessFault"))]
    case Irq(on) => [Field("msg", Str("Level")), Field("asserted", Bool(on))]
    case Block(ReadBlock(t, l)) => [Field("msg", Str("ReadBlock")), Field("txn", U64(t)), Field("lba", U64(l))]
    case Block(WriteBlock(t, l, d)) => [Field("msg", Str("WriteBlock")), Field("txn", U64(t)), Field("lba", U64(l)), Field("data", Bytes(d))]
    case Block(ReadResult(t, Ok(d))) => [Field("msg", Str("ReadResult")), Field("txn", U64(t)), Field("outcome", Str("Data")), Field("data", Bytes(d))]
    case Block(ReadResult(t, Err(e))) => [Field("msg", Str("ReadResult")), Field("txn", U64(t)), Field("outcome", Str("Error")), Field("error", Str(ErrorName(e)))]
    case Block(WriteResult(t, None)) => [Field("msg", Str("WriteResult")), Field("txn", U64(t)), Field("outcome", Str("Done"))]
    case Block(WriteResult(t, Some(e))) => [Field("msg", Str("WriteResult")), Field("txn", U64(t)), Field("outcome", Str("Error")), Field("error", Str(ErrorName(e)))]
  }

  function DeliveryFields(d: Delivered): seq<Field> {
    match d
    case Wake(token) => [Field("token", U64(token))]
    case Arrives(port, msg) =>
      [Field("port", U64(port)), Field("protocol", Str(Protocol(msg).0)), Field("version", U64(Protocol(msg).1))] + MessageFields(msg)
  }

  /** `dispatch_record`. */
  function DispatchRecord(at: At, source: Word, target: Word, d: Delivered): Record {
    Record(at, true, target, DISPATCH, [Field("source", U64(source))] + DeliveryFields(d))
  }

  // ----- Reading a record back -----

  function Get(fs: seq<Field>, i: nat, name: string): Option<Value> {
    if i < |fs| && fs[i].name == name then Some(fs[i].value) else None
  }

  function Int(fs: seq<Field>, i: nat, name: string): Option<Long> {
    match Get(fs, i, name) case Some(U64(n)) => Some(n) case _ => None
  }

  function Text(fs: seq<Field>, i: nat, name: string): Option<string> {
    match Get(fs, i, name) case Some(Str(s)) => Some(s) case _ => None
  }

  function Blob(fs: seq<Field>, i: nat, name: string): Option<seq<Byte>> {
    match Get(fs, i, name) case Some(Bytes(b)) => Some(b) case _ => None
  }

  /** A `u64` that fits in a `u32`. */
  function Narrow(n: Option<Long>): Option<Word> {
    match n case Some(x) => if x < WORD_LIMIT then Some(x) else None case None => None
  }

  function ErrorAt(fs: seq<Field>): Option<MediaError> {
    match Text(fs, 7, "error")
    case Some(s) => if s == "OutOfRange" then Some(OutOfRange) else if s == "BadBlock" then Some(BadBlock) else None
    case None => None
  }

  function BlockAt(fs: seq<Field>, name: string): Option<Message> {
    match Int(fs, 5, "txn")
    case None => None
    case Some(t) =>
      if name == "ReadBlock" then
        (match Int(fs, 6, "lba") case Some(l) => Some(Block(ReadBlock(t, l))) case None => None)
      else if name == "WriteBlock" then
        (match (Int(fs, 6, "lba"), Blob(fs, 7, "data")) case (Some(l), Some(d)) => Some(Block(WriteBlock(t, l, d))) case _ => None)
      else if name == "ReadResult" then
        if Text(fs, 6, "outcome") == Some("Data") then
          (match Blob(fs, 7, "data") case Some(d) => Some(Block(ReadResult(t, Ok(d)))) case None => None)
        else if Text(fs, 6, "outcome") == Some("Error") then
          (match ErrorAt(fs) case Some(e) => Some(Block(ReadResult(t, Err(e)))) case None => None)
        else None
      else if name == "WriteResult" then
        if Text(fs, 6, "outcome") == Some("Done") then Some(Block(WriteResult(t, None)))
        else if Text(fs, 6, "outcome") == Some("Error") then
          (match ErrorAt(fs) case Some(e) => Some(Block(WriteResult(t, Some(e)))) case None => None)
        else None
      else None
  }

  function MemAt(fs: seq<Field>, name: string): Option<Message> {
    match Int(fs, 5, "txn")
    case None => None
    case Some(t) =>
      if name == "ReadReq" then
        (match (Int(fs, 6, "addr"), Narrow(Int(fs, 7, "len"))) case (Some(a), Some(n)) => Some(Mem(ReadReq0(t, a, n))) case _ => None)
      else if name == "ReadResp" then
        (match Blob(fs, 6, "data") case Some(d) => Some(Mem(ReadResp0(t, d))) case None => None)
      else if name == "WriteReq" then
        (match (Int(fs, 6, "addr"), Blob(fs, 7, "data")) case (Some(a), Some(d)) => Some(Mem(WriteReq0(t, a, d))) case _ => None)
      else if name == "WriteResp" then Some(Mem(WriteResp0(t)))
      else None
  }

  function MemOneAt(fs: seq<Field>, name: string): Option<Message> {
    match Int(fs, 5, "txn")
    case None => None
    case Some(t) =>
      var fault := Text(fs, 7, "fault") == Some("AccessFault");
      if name == "ReadReq" then
        (match (Int(fs, 6, "addr"), Narrow(Int(fs, 7, "len"))) case (Some(a), Some(n)) => Some(MemOne(ReadReq1(t, a, n))) case _ => None)
      else if name == "ReadResp" then
        if Text(fs, 6, "outcome") == Some("Data") then
          (match Blob(fs, 7, "data") case Some(d) => Some(MemOne(ReadResp1(t, Some(d)))) case None => None)
        else if Text(fs, 6, "outcome") == Some("Fault") && fault then Some(MemOne(ReadResp1(t, None)))
        else None
      else if name == "WriteReq" then
        (match (Int(fs, 6, "addr"), Blob(fs, 7, "data")) case (Some(a), Some(d)) => Some(MemOne(WriteReq1(t, a, d))) case _ => None)
      else if name == "WriteResp" then
        if Text(fs, 6, "outcome") == Some("Done") then Some(MemOne(WriteResp1(t, true)))
        else if Text(fs, 6, "outcome") == Some("Fault") && fault then Some(MemOne(WriteResp1(t, false)))
        else None
      else None
  }

  function MessageAt(fs: seq<Field>): Option<Message> {
    match (Text(fs, 2, "protocol"), Int(fs, 3, "version"), Text(fs, 4, "msg"))
    case (Some(protocol), Some(version), Some(name)) =>
      if protocol == "irq" && version == 0 then
        (match Get(fs, 5, "asserted") case Some(Bool(on)) => if name == "Level" then Some(Irq(on)) else None case _ => None)
      else if protocol == "block" && version == 0 then BlockAt(fs, name)
      else if version == 0 then MemAt(fs, name)
      else if version == 1 then MemOneAt(fs, name)
      else None
    case _ => None
  }

  function DeliveryAt(fs: seq<Field>): Option<Delivered> {
    if |fs| == 2 && Get(fs, 1, "token").Some? then
      (match Int(fs, 1, "token") case Some(n) => Some(Wake(n)) case None => None)
    else
      match (Int(fs, 1, "port"), MessageAt(fs))
      case (Some(p), Some(m)) => if p < 0x1_0000 then Some(Arrives(p, m)) else None
      case _ => None
  }

  /** `dispatched_event`: the event a record describes, if it is exactly the record that event writes. */
  function DispatchedEvent(r: Record): Option<CanonicalEvent> {
    if r.at.Init? || !r.runtime || r.kind != DISPATCH then None
    else
      match (Narrow(Int(r.fields, 0, "source")), DeliveryAt(r.fields))
      case (Some(source), Some(d)) =>
        if DispatchRecord(r.at, source, r.component, d) == r then Some(CanonicalEvent(r.at.key, source, r.component, d)) else None
      case _ => None
  }

  // ----- The two are inverse -----

  /** The fields of a record, by position. */
  lemma FieldsAt(source: Word, port: Port, m: Message)
    ensures var fs := [Field("source", U64(source))] + DeliveryFields(Arrives(port, m));
      && |fs| == 4 + |MessageFields(m)| && |MessageFields(m)| >= 2
      && fs[0] == Field("source", U64(source)) && fs[1] == Field("port", U64(port))
      && fs[2] == Field("protocol", Str(Protocol(m).0)) && fs[3] == Field("version", U64(Protocol(m).1))
      && fs[4..] == MessageFields(m)
  {
    hide Protocol;
  }

  lemma Later(fs: seq<Field>, ms: seq<Field>, i: nat, name: string)
    requires |fs| == 4 + |ms| && fs[4..] == ms && i >= 4
    ensures Get(fs, i, name) == Get(ms, i - 4, name)
  {
    if i < |fs| {
      assert fs[4..][i - 4] == fs[i];
    }
  }

  lemma Shifts(fs: seq<Field>, ms: seq<Field>)
    requires |fs| == 4 + |ms| && fs[4..] == ms
    ensures forall i, name :: i >= 4 ==> Get(fs, i, name) == Get(ms, i - 4, name)
  {
    forall i: int, name | i >= 4 ensures Get(fs, i, name) == Get(ms, i - 4, name) {
      Later(fs, ms, i, name);
    }
  }

  lemma BlockBack(fs: seq<Field>, b: BlockMsg)
    requires |fs| == 4 + |MessageFields(Block(b))| && fs[4..] == MessageFields(Block(b))
    ensures exists name :: Text(fs, 4, "msg") == Some(name) && BlockAt(fs, name) == Some(Block(b))
  {
    Shifts(fs, MessageFields(Block(b)));
    var name := match b
      case ReadBlock(_, _) => "ReadBlock"
      case WriteBlock(_, _, _) => "WriteBlock"
      case ReadResult(_, _) => "ReadResult"
      case WriteResult(_, _) => "WriteResult";
    assert Text(fs, 4, "msg") == Some(name);
    assert BlockAt(fs, name) == Some(Block(b));
  }

  lemma MemBack(fs: seq<Field>, m: MemV0)
    requires |fs| == 4 + |MessageFields(Mem(m))| && fs[4..] == MessageFields(Mem(m))
    ensures exists name :: Text(fs, 4, "msg") == Some(name) && MemAt(fs, name) == Some(Mem(m))
  {
    Shifts(fs, MessageFields(Mem(m)));
    var name := match m
      case ReadReq0(_, _, _) => "ReadReq"
      case ReadResp0(_, _) => "ReadResp"
      case WriteReq0(_, _, _) => "WriteReq"
      case WriteResp0(_) => "WriteResp";
    assert Text(fs, 4, "msg") == Some(name);
    assert MemAt(fs, name) == Some(Mem(m));
  }

  lemma MemOneBack(fs: seq<Field>, m: MemV1)
    requires |fs| == 4 + |MessageFields(MemOne(m))| && fs[4..] == MessageFields(MemOne(m))
    ensures exists name :: Text(fs, 4, "msg") == Some(name) && MemOneAt(fs, name) == Some(MemOne(m))
  {
    Shifts(fs, MessageFields(MemOne(m)));
    var name := match m
      case ReadReq1(_, _, _) => "ReadReq"
      case ReadResp1(_, _) => "ReadResp"
      case WriteReq1(_, _, _) => "WriteReq"
      case WriteResp1(_, _) => "WriteResp";
    assert Text(fs, 4, "msg") == Some(name);
    assert MemOneAt(fs, name) == Some(MemOne(m));
  }

  lemma IrqBack(fs: seq<Field>, on: bool)
    requires |fs| == 4 + |MessageFields(Irq(on))| && fs[4..] == MessageFields(Irq(on))
    ensures Text(fs, 4, "msg") == Some("Level") && Get(fs, 5, "asserted") == Some(Bool(on))
  {
    Shifts(fs, MessageFields(Irq(on)));
  }

  lemma MessageBack(fs: seq<Field>, m: Message)
    requires |fs| == 4 + |MessageFields(m)| && fs[4..] == MessageFields(m)
    requires fs[2] == Field("protocol", Str(Protocol(m).0)) && fs[3] == Field("version", U64(Protocol(m).1))
    ensures MessageAt(fs) == Some(m)
  {
    hide BlockAt, MemAt, MemOneAt, MessageFields;
    assert Text(fs, 2, "protocol") == Some(Protocol(m).0) && Int(fs, 3, "version") == Some(Protocol(m).1);
    match m
    case Mem(x) => MemBack(fs, x);
    case MemOne(x) => MemOneBack(fs, x);
    case Irq(on) => IrqBack(fs, on);
    case Block(x) => BlockBack(fs, x);
  }

  /** `dispatched_event` inverts `dispatch_record` on every event. */
  lemma RecordRoundTrip(e: CanonicalEvent)
    ensures DispatchedEvent(DispatchRecord(During(e.key), e.source, e.target, e.delivery)) == Some(e)
  {
    hide MessageAt, MessageFields, Protocol;
    var r := DispatchRecord(During(e.key), e.source, e.target, e.delivery);
    var fs := r.fields;
    assert fs[0] == Field("source", U64(e.source));
    assert Int(fs, 0, "source") == Some(e.source);
    match e.delivery
    case Wake(token) =>
      assert fs[1] == Field("token", U64(token));
      assert Get(fs, 1, "token") == Some(U64(token));
    case Arrives(port, m) =>
      FieldsAt(e.source, port, m);
      MessageBack(fs, m);
      assert Get(fs, 1, "port") == Some(U64(port));
  }
}
