/** The executable table of a boot disk's block 0 (elf/src/exec_table.rs). */
module ExecTables {
  import opened Words

  const BLOCK_SIZE := 512
  const MAGIC := 0x3058_5353
  const VERSION := 0
  const MAX_ENTRIES := 8

  datatype ExecEntry = ExecEntry(startLba: Word, byteLen: Word) {
    function Blocks(): (n: Word)
      ensures (n - 1) * BLOCK_SIZE < byteLen <= n * BLOCK_SIZE || (n == 0 && byteLen == 0)
    {
      (byteLen + BLOCK_SIZE - 1) / BLOCK_SIZE
    }

    function EndLba(): int {
      startLba + Blocks()
    }
  }

  datatype ExecTable = ExecTable(entries: seq<ExecEntry>)

  datatype ExecTableError =
    | BadMagic(magic: Word)
    | BadVersion(version: Word)
    | BadCount(count: Word)
    | NonZeroReserved(offset: nat)
    | NonZeroUnusedEntry(slot: nat)
    | LbaZero(entry: nat)
    | EmptyFile(entry: nat)
    | TooLarge(entry: nat)
    | OutsideDisk(entry: nat)
    | Overlap(first: nat, second: nat)

  type Block = b: seq<Byte> | |b| == BLOCK_SIZE witness seq(BLOCK_SIZE, i => 0)

  /** Word `k` of a block, the `u32` at byte `4k`. */
  function WordAt(b: Block, k: nat): Word
    requires k < 128
  {
    LeWord(b[4 * k..4 * k + 4])
  }

  // ----- Checks -----

  function EntryError(e: ExecEntry, i: nat, capacity: Word, staging: Word): Option<ExecTableError> {
    if e.startLba == 0 then Some(LbaZero(i))
    else if e.byteLen == 0 then Some(EmptyFile(i))
    else if e.byteLen > staging then Some(TooLarge(i))
    else if e.EndLba() > capacity then Some(OutsideDisk(i))
    else None
  }

  /** The first entry from `i` on that breaks a range rule. */
  function RangeError(es: seq<ExecEntry>, i: nat, capacity: Word, staging: Word): Option<ExecTableError>
    decreases |es| - i
  {
    if i >= |es| then None
    else if EntryError(es[i], i, capacity, staging).Some? then EntryError(es[i], i, capacity, staging)
    else RangeError(es, i + 1, capacity, staging)
  }

  predicate Overlapping(a: ExecEntry, b: ExecEntry) {
    a.startLba < b.EndLba() && b.startLba < a.EndLba()
  }

  /** The first overlapping pair from `(first, second)` on, by second and then first entry. */
  function OverlapError(es: seq<ExecEntry>, first: nat, second: nat): Option<ExecTableError>
    decreases |es| - second, second - first
  {
    if second >= |es| then None
    else if first >= second then OverlapError(es, 0, second + 1)
    else if Overlapping(es[first], es[second]) then Some(Overlap(first, second))
    else OverlapError(es, first + 1, second)
  }

  /** `check_entries`. */
  function EntriesError(es: seq<ExecEntry>, capacity: Word, staging: Word): Option<ExecTableError> {
    var e := RangeError(es, 0, capacity, staging);
    if e.Some? then e else OverlapError(es, 0, 0)
  }

  method CheckEntries(es: seq<ExecEntry>, capacity: Word, staging: Word) returns (r: Option<ExecTableError>)
    ensures r == EntriesError(es, capacity, staging)
  {
    var i := 0;
    while i < |es|
      invariant 0 <= i <= |es| && RangeError(es, i, capacity, staging) == RangeError(es, 0, capacity, staging)
    {
      var e := EntryError(es[i], i, capacity, staging);
      if e.Some? {
        return e;
      }
      i := i + 1;
    }
    var second := 0;
    while second < |es|
      invariant 0 <= second <= |es| && OverlapError(es, 0, second) == OverlapError(es, 0, 0)
    {
      var first := 0;
      while first < second
        invariant 0 <= first <= second && OverlapError(es, first, second) == OverlapError(es, 0, 0)
      {
        if Overlapping(es[first], es[second]) {
          return Some(Overlap(first, second));
        }
        first := first + 1;
      }
      second := second + 1;
    }
    return None;
  }

  // ----- Parsing -----

  /** The index of the first word of slot `i`. */
  function SlotWord(i: nat): nat {
    4 + 4 * i
  }

  /** The first reserved word from slot `i` on, of the first `used`, that is not zero. */
  function ReservedError(b: Block, used: nat, i: nat): Option<ExecTableError>
    requires used <= MAX_ENTRIES
    decreases used - i
  {
    if i >= used then None
    else if WordAt(b, SlotWord(i) + 2) != 0 then Some(NonZeroReserved(4 * (SlotWord(i) + 2)))
    else if WordAt(b, SlotWord(i) + 3) != 0 then Some(NonZeroReserved(4 * (SlotWord(i) + 3)))
    else ReservedError(b, used, i + 1)
  }

  predicate AllZero(s: seq<Byte>) {
    forall i :: 0 <= i < |s| ==> s[i] == 0
  }

  /** The first unused slot from `i` on that is not zero; slot 8 is the rest of the block. */
  function UnusedError(b: Block, i: nat): Option<ExecTableError>
    requires i <= MAX_ENTRIES
    decreases MAX_ENTRIES - i
  {
    if i == MAX_ENTRIES then if AllZero(b[0x90..]) then None else Some(NonZeroUnusedEntry(MAX_ENTRIES))
    else if !AllZero(b[4 * SlotWord(i)..4 * SlotWord(i) + 16]) then Some(NonZeroUnusedEntry(i))
    else UnusedError(b, i + 1)
  }

  function EntriesOf(b: Block, used: nat): (es: seq<ExecEntry>)
    requires used <= MAX_ENTRIES
    ensures |es| == used
  {
    seq(used, i requires 0 <= i < used => ExecEntry(WordAt(b, SlotWord(i)), WordAt(b, SlotWord(i) + 1)))
  }

  /** `parse_exec_table`. */
  function Parsed(b: Block, capacity: Word, staging: Word): (r: Result<ExecTable, ExecTableError>) {
    var count := WordAt(b, 2);
    if WordAt(b, 0) != MAGIC then Err(BadMagic(WordAt(b, 0)))
    else if WordAt(b, 1) != VERSION then Err(BadVersion(WordAt(b, 1)))
    else if !(1 <= count <= MAX_ENTRIES) then Err(BadCount(count))
    else if WordAt(b, 3) != 0 then Err(NonZeroReserved(0x0C))
    else if ReservedError(b, count, 0).Some? then Err(ReservedError(b, count, 0).value)
    else if UnusedError(b, count).Some? then Err(UnusedError(b, count).value)
    else
      var es := EntriesOf(b, count);
      var bad := EntriesError(es, capacity, staging);
      if bad.Some? then Err(bad.value) else Ok(ExecTable(es))
  }

  // ----- Encoding -----

  /** Word `k` of the block that encodes `t`. */
  function EncodedWord(t: ExecTable, k: nat): Word
    requires |t.entries| <= MAX_ENTRIES
  {
    if k == 0 then MAGIC
    else if k == 1 then VERSION
    else if k == 2 then |t.entries|
    else
      var slot, field := (k - 4) / 4, (k - 4) % 4;
      if k < 4 || slot >= |t.entries| then 0
      else if field == 0 then t.entries[slot].startLba
      else if field == 1 then t.entries[slot].byteLen
      else 0
  }

  function EncodedBlock(t: ExecTable): (b: Block)
    requires |t.entries| <= MAX_ENTRIES
  {
    seq<Byte>(BLOCK_SIZE, i requires 0 <= i < BLOCK_SIZE => LeBytes(EncodedWord(t, i / 4))[i % 4])
  }

  predicate Countable(t: ExecTable) {
    1 <= |t.entries| <= MAX_ENTRIES
  }

  /** Writes a word into the block. */
  method Put(block: array<Byte>, k: nat, value: Word)
    requires block.Length == BLOCK_SIZE && k < 128
    modifies block
    ensures forall i :: 0 <= i < BLOCK_SIZE ==> block[i] == if 4 * k <= i < 4 * k + 4 then LeBytes(value)[i - 4 * k] else old(block[i])
  {
    var b := LeBytes(value);
    block[4 * k], block[4 * k + 1], block[4 * k + 2], block[4 * k + 3] := b[0], b[1], b[2], b[3];
  }

  /** The words of the first `n` entries are in place and every later byte is zero. */
  ghost predicate Filled(s: seq<Byte>, t: ExecTable, n: nat)
    requires |s| == BLOCK_SIZE && n <= |t.entries| <= MAX_ENTRIES
  {
    forall i :: 0 <= i < BLOCK_SIZE ==>
      s[i] == if i < 4 * SlotWord(n) then LeBytes(EncodedWord(t, i / 4))[i % 4] else 0
  }

  /** `ExecTable::encode`: the words are put into a zeroed block. */
  method Encode(t: ExecTable) returns (r: Result<Block, ExecTableError>)
    ensures r == if Countable(t) then Ok(EncodedBlock(t)) else Err(BadCount(if |t.entries| < WORD_LIMIT then |t.entries| else WORD_LIMIT - 1))
  {
    if !(1 <= |t.entries| <= MAX_ENTRIES) {
      return Err(BadCount(if |t.entries| < WORD_LIMIT then |t.entries| else WORD_LIMIT - 1));
    }
    var block := new Byte[BLOCK_SIZE](_ => 0);
    Put(block, 0, MAGIC);
    Put(block, 1, VERSION);
    Put(block, 2, |t.entries|);
    HeadFilled(block[..], t);
    var i := 0;
    while i < |t.entries|
      invariant 0 <= i <= |t.entries| && Filled(block[..], t, i)
    {
      ghost var before := block[..];
      Put(block, SlotWord(i), t.entries[i].startLba);
      Put(block, SlotWord(i) + 1, t.entries[i].byteLen);
      SlotFilled(before, block[..], t, i);
      i := i + 1;
    }
    AllFilled(block[..], t);
    return Ok(block[..]);
  }

  lemma WordIndex(i: int, k: int)
    requires 4 * k <= i < 4 * k + 4
    ensures i / 4 == k && i % 4 == i - 4 * k
  {
  }

  lemma ZeroBytes()
    ensures LeBytes(0) == [0, 0, 0, 0]
  {
  }

  lemma HeadFilled(s: seq<Byte>, t: ExecTable)
    requires |s| == BLOCK_SIZE && Countable(t)
    requires forall i :: 0 <= i < 4 ==> s[i] == LeBytes(MAGIC)[i]
    requires forall i :: 4 <= i < 8 ==> s[i] == LeBytes(VERSION)[i - 4]
    requires forall i :: 8 <= i < 12 ==> s[i] == LeBytes(|t.entries|)[i - 8]
    requires forall i :: 12 <= i < BLOCK_SIZE ==> s[i] == 0
    ensures Filled(s, t, 0)
  {
    hide LeBytes;
    ZeroBytes();
    forall i | 0 <= i < 16 ensures s[i] == LeBytes(EncodedWord(t, i / 4))[i % 4] {
      if i < 4 { WordIndex(i, 0); }
      else if i < 8 { WordIndex(i, 1); }
      else if i < 12 { WordIndex(i, 2); }
      else { WordIndex(i, 3); }
    }
  }

  lemma EncodedSlot(t: ExecTable, n: nat)
    requires |t.entries| <= MAX_ENTRIES && n < |t.entries|
    ensures EncodedWord(t, SlotWord(n)) == t.entries[n].startLba && EncodedWord(t, SlotWord(n) + 1) == t.entries[n].byteLen
    ensures EncodedWord(t, SlotWord(n) + 2) == 0 && EncodedWord(t, SlotWord(n) + 3) == 0
  {
    WordIndex(4 * n, n);
    WordIndex(4 * n + 1, n);
    WordIndex(4 * n + 2, n);
    WordIndex(4 * n + 3, n);
  }

  lemma SlotFilled(was: seq<Byte>, s: seq<Byte>, t: ExecTable, n: nat)
    requires |s| == |was| == BLOCK_SIZE && Countable(t) && n < |t.entries| && Filled(was, t, n)
    requires forall i :: 0 <= i < BLOCK_SIZE && !(4 * SlotWord(n) <= i < 4 * SlotWord(n) + 8) ==> s[i] == was[i]
    requires forall i :: 4 * SlotWord(n) <= i < 4 * SlotWord(n) + 4 ==> s[i] == LeBytes(t.entries[n].startLba)[i - 4 * SlotWord(n)]
    requires forall i :: 4 * SlotWord(n) + 4 <= i < 4 * SlotWord(n) + 8 ==> s[i] == LeBytes(t.entries[n].byteLen)[i - 4 * SlotWord(n) - 4]
    ensures Filled(s, t, n + 1)
  {
    hide LeBytes, EncodedWord;
    ZeroBytes();
    EncodedSlot(t, n);
    var k := SlotWord(n);
    forall i | 4 * k <= i < 4 * k + 16 ensures s[i] == LeBytes(EncodedWord(t, i / 4))[i % 4] {
      if i < 4 * k + 4 { WordIndex(i, k); }
      else if i < 4 * k + 8 { WordIndex(i, k + 1); }
      else if i < 4 * k + 12 { WordIndex(i, k + 2); }
      else { WordIndex(i, k + 3); }
    }
  }

  lemma PastEntries(t: ExecTable, k: nat)
    requires |t.entries| <= MAX_ENTRIES && k >= SlotWord(|t.entries|)
    ensures EncodedWord(t, k) == 0
  {
  }

  lemma AllFilled(s: seq<Byte>, t: ExecTable)
    requires |s| == BLOCK_SIZE && Countable(t) && Filled(s, t, |t.entries|)
    ensures s == EncodedBlock(t)
  {
    hide LeBytes, EncodedWord;
    ZeroBytes();
    forall i | 4 * SlotWord(|t.entries|) <= i < BLOCK_SIZE ensures s[i] == LeBytes(EncodedWord(t, i / 4))[i % 4] {
      PastEntries(t, i / 4);
    }
  }

  // ----- Round trips -----

  /** Word `k` of an encoded block. */
  lemma EncodedWordAt(t: ExecTable, k: nat)
    requires |t.entries| <= MAX_ENTRIES && k < 128
    ensures WordAt(EncodedBlock(t), k) == EncodedWord(t, k)
  {
    hide LeBytes, LeWord, EncodedWord;
    var b, w := EncodedBlock(t), EncodedWord(t, k);
    forall i | 0 <= i < 4 ensures b[4 * k..4 * k + 4][i] == LeBytes(w)[i] {
      WordIndex(4 * k + i, k);
    }
    assert b[4 * k..4 * k + 4] == LeBytes(w);
  }

  /** A block is its words. */
  lemma WordsDetermine(a: Block, b: Block)
    requires forall k :: 0 <= k < 128 ==> WordAt(a, k) == WordAt(b, k)
    ensures a == b
  {
    hide LeBytes, LeWord;
    forall i | 0 <= i < BLOCK_SIZE ensures a[i] == b[i] {
      var k := i / 4;
      LeBytesOfWord(a[4 * k..4 * k + 4]);
      LeBytesOfWord(b[4 * k..4 * k + 4]);
      assert WordAt(a, k) == WordAt(b, k);
      assert a[i] == a[4 * k..4 * k + 4][i - 4 * k];
      assert b[i] == b[4 * k..4 * k + 4][i - 4 * k];
    }
  }

  lemma WordZero(b: Block, k: nat)
    requires k < 128
    ensures WordAt(b, k) == 0 <==> AllZero(b[4 * k..4 * k + 4])
  {
  }

  lemma {:induction false} ReservedAre(b: Block, used: nat, i: nat)
    requires used <= MAX_ENTRIES
    ensures ReservedError(b, used, i).None?
       <==> forall s :: (i <= s < used ==> WordAt(b, SlotWord(s) + 2) == 0 && WordAt(b, SlotWord(s) + 3) == 0)
    decreases used - i
  {
    hide WordAt;
    if i < used {
      ReservedAre(b, used, i + 1);
      assert SlotWord(i) + 3 < 128;
    }
  }

  lemma SliceZero(b: Block, from: nat, to: nat)
    requires from <= to <= BLOCK_SIZE
    ensures AllZero(b[from..to]) <==> forall x :: from <= x < to ==> b[x] == 0
  {
    if AllZero(b[from..to]) {
      forall x | from <= x < to ensures b[x] == 0 {
        assert b[x] == b[from..to][x - from];
      }
    }
  }

  lemma {:induction false} UnusedAre(b: Block, i: nat)
    requires i <= MAX_ENTRIES
    ensures UnusedError(b, i).None? <==> AllZero(b[4 * SlotWord(i)..])
    decreases MAX_ENTRIES - i
  {
    hide AllZero;
    assert b[0x90..] == b[0x90..BLOCK_SIZE];
    if i < MAX_ENTRIES {
      UnusedAre(b, i + 1);
      SliceZero(b, 4 * SlotWord(i), 4 * SlotWord(i) + 16);
      SliceZero(b, 4 * SlotWord(i), BLOCK_SIZE);
      SliceZero(b, 4 * SlotWord(i + 1), BLOCK_SIZE);
      assert b[4 * SlotWord(i)..] == b[4 * SlotWord(i)..BLOCK_SIZE];
      assert b[4 * SlotWord(i + 1)..] == b[4 * SlotWord(i + 1)..BLOCK_SIZE];
    }
  }

  lemma EncodedTail(t: ExecTable)
    requires |t.entries| <= MAX_ENTRIES
    ensures AllZero(EncodedBlock(t)[4 * SlotWord(|t.entries|)..])
  {
    hide LeBytes, EncodedWord;
    var b, from := EncodedBlock(t), 4 * SlotWord(|t.entries|);
    ZeroBytes();
    forall i | 0 <= i < |b[from..]| ensures b[from..][i] == 0 {
      PastEntries(t, (from + i) / 4);
      assert b[from..][i] == b[from + i];
    }
  }

  /** Decoding an encoded table gives it back exactly when its entries pass the checks, and their error otherwise. */
  lemma ParseEncoded(t: ExecTable, capacity: Word, staging: Word)
    requires Countable(t)
    ensures Parsed(EncodedBlock(t), capacity, staging)
         == match EntriesError(t.entries, capacity, staging) case None => Ok(t) case Some(e) => Err(e)
  {
    hide WordAt, EncodedWord, LeBytes, EncodedBlock, AllZero, ReservedError, UnusedError, EntriesError;
    var b, n := EncodedBlock(t), |t.entries|;
    EncodedHead(t);
    forall s | 0 <= s < n
      ensures WordAt(b, SlotWord(s)) == t.entries[s].startLba && WordAt(b, SlotWord(s) + 1) == t.entries[s].byteLen
      ensures WordAt(b, SlotWord(s) + 2) == 0 && WordAt(b, SlotWord(s) + 3) == 0
    {
      EncodedEntry(t, s);
    }
    ReservedAre(b, n, 0);
    EncodedTail(t);
    UnusedAre(b, n);
    assert EntriesOf(b, n) == t.entries;
  }

  lemma EncodedHead(t: ExecTable)
    requires Countable(t)
    ensures var b := EncodedBlock(t);
      WordAt(b, 0) == MAGIC && WordAt(b, 1) == VERSION && WordAt(b, 2) == |t.entries| && WordAt(b, 3) == 0
  {
    hide EncodedBlock, WordAt;
    EncodedWordAt(t, 0);
    EncodedWordAt(t, 1);
    EncodedWordAt(t, 2);
    EncodedWordAt(t, 3);
  }

  lemma EncodedEntry(t: ExecTable, s: nat)
    requires Countable(t) && s < |t.entries|
    ensures var b := EncodedBlock(t);
      && WordAt(b, SlotWord(s)) == t.entries[s].startLba && WordAt(b, SlotWord(s) + 1) == t.entries[s].byteLen
      && WordAt(b, SlotWord(s) + 2) == 0 && WordAt(b, SlotWord(s) + 3) == 0
  {
    hide EncodedBlock, WordAt, EncodedWord;
    EncodedSlot(t, s);
    EncodedWordAt(t, SlotWord(s));
    EncodedWordAt(t, SlotWord(s) + 1);
    EncodedWordAt(t, SlotWord(s) + 2);
    EncodedWordAt(t, SlotWord(s) + 3);
  }

  /** The accepted block's word `k`, by slot and field. */
  lemma ParsedWord(b: Block, capacity: Word, staging: Word, k: nat)
    requires Parsed(b, capacity, staging).Ok? && k < 128
    ensures WordAt(b, k) == EncodedWord(Parsed(b, capacity, staging).value, k)
  {
    hide WordAt, AllZero, ReservedError, UnusedError, EntriesError;
    var t, n := Parsed(b, capacity, staging).value, WordAt(b, 2);
    ReservedAre(b, n, 0);
    UnusedAre(b, n);
    if 4 <= k < SlotWord(n) {
      var s := (k - 4) / 4;
      var f := k - SlotWord(s);
      WordIndex(k - 4, s);
      assert k == SlotWord(s) + f && 0 <= f < 4 && s < n;
      EntryWords(b, n, s);
    } else if k >= 4 {
      PastEntries(t, k);
      TailWord(b, SlotWord(n), k);
    }
  }

  lemma EntryWords(b: Block, n: nat, s: nat)
    requires s < n <= MAX_ENTRIES
    ensures EntriesOf(b, n)[s] == ExecEntry(WordAt(b, SlotWord(s)), WordAt(b, SlotWord(s) + 1))
  {
  }

  lemma TailWord(b: Block, from: nat, k: nat)
    requires from <= k < 128 && AllZero(b[4 * from..])
    ensures WordAt(b, k) == 0
  {
    hide WordAt;
    WordZero(b, k);
    var s := b[4 * k..4 * k + 4];
    forall i | 0 <= i < 4 ensures s[i] == 0 {
      assert s[i] == b[4 * from..][4 * k - 4 * from + i];
    }
  }

  /** Every block the parser accepts is the encoding of the table it returns. */
  lemma EncodeParsed(b: Block, capacity: Word, staging: Word)
    ensures var r := Parsed(b, capacity, staging); r.Ok? ==> Countable(r.value) && EncodedBlock(r.value) == b
  {
    hide WordAt, EncodedWord, EncodedBlock, ReservedError, UnusedError, EntriesError;
    var r := Parsed(b, capacity, staging);
    if r.Ok? {
      forall k | 0 <= k < 128 ensures WordAt(EncodedBlock(r.value), k) == WordAt(b, k) {
        EncodedWordAt(r.value, k);
        ParsedWord(b, capacity, staging, k);
      }
      WordsDetermine(EncodedBlock(r.value), b);
    }
  }

  // ----- What the checks mean -----

  lemma {:induction false} RangesAre(es: seq<ExecEntry>, i: nat, capacity: Word, staging: Word)
    ensures RangeError(es, i, capacity, staging).None?
       <==> forall s :: i <= s < |es| ==> EntryError(es[s], s, capacity, staging).None?
    decreases |es| - i
  {
    hide EntryError;
    if i < |es| {
      RangesAre(es, i + 1, capacity, staging);
    }
  }

  lemma {:induction false} OverlapsAre(es: seq<ExecEntry>, first: nat, second: nat)
    requires first <= second
    ensures OverlapError(es, first, second).None?
       <==> forall a, b :: 0 <= a < b < |es| && (b > second || (b == second && a >= first)) ==> !Overlapping(es[a], es[b])
    decreases |es| - second, second - first
  {
    hide Overlapping;
    if second < |es| {
      if first < second {
        OverlapsAre(es, first + 1, second);
      } else {
        OverlapsAre(es, 0, second + 1);
      }
    }
  }

  /** Entry `e` is a non-empty file that staging can hold, in whole blocks of the disk after block 0. */
  predicate Placed(e: ExecEntry, capacity: Word, staging: Word) {
    0 < e.byteLen <= staging && 1 <= e.startLba < e.EndLba() <= capacity
  }

  lemma PlacedIs(e: ExecEntry, i: nat, capacity: Word, staging: Word)
    ensures EntryError(e, i, capacity, staging).None? <==> Placed(e, capacity, staging)
  {
  }

  /** Block `x` of the disk belongs to entry `e`. */
  predicate Owns(e: ExecEntry, x: int) {
    e.startLba <= x < e.EndLba()
  }

  /** The checks accept exactly the tables whose files are on the disk after block 0, fit in staging and share no
      block. */
  lemma EntriesAre(es: seq<ExecEntry>, capacity: Word, staging: Word)
    ensures EntriesError(es, capacity, staging).None?
       <==> && (forall s :: 0 <= s < |es| ==> Placed(es[s], capacity, staging))
            && (forall a, b, x :: 0 <= a < b < |es| && Owns(es[a], x) ==> !Owns(es[b], x))
  {
    hide Placed, EntryError, ExecEntry.EndLba, RangeError, OverlapError, Overlapping, Owns;
    RangesAre(es, 0, capacity, staging);
    OverlapsAre(es, 0, 0);
    forall s | 0 <= s < |es| ensures EntryError(es[s], s, capacity, staging).None? <==> Placed(es[s], capacity, staging) {
      PlacedIs(es[s], s, capacity, staging);
    }
    if forall s :: 0 <= s < |es| ==> Placed(es[s], capacity, staging) {
      SharingIs(es, capacity, staging);
    }
  }

  lemma SharingIs(es: seq<ExecEntry>, capacity: Word, staging: Word)
    requires forall s :: 0 <= s < |es| ==> Placed(es[s], capacity, staging)
    ensures (forall a, b :: 0 <= a < b < |es| ==> !Overlapping(es[a], es[b]))
       <==> (forall a, b, x :: 0 <= a < b < |es| && Owns(es[a], x) ==> !Owns(es[b], x))
  {
    hide ExecEntry.EndLba;
    if forall a, b, x :: 0 <= a < b < |es| && Owns(es[a], x) ==> !Owns(es[b], x) {
      forall a, b | 0 <= a < b < |es| ensures !Overlapping(es[a], es[b]) {
        assert Placed(es[a], capacity, staging) && Placed(es[b], capacity, staging);
        assert !(Owns(es[a], es[a].startLba) && Owns(es[b], es[a].startLba));
        assert !(Owns(es[a], es[b].startLba) && Owns(es[b], es[b].startLba));
      }
    }
  }
}
