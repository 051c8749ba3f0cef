/** Bytes, 32-bit words and their little-endian codec, and the small value types every module shares. */
module Words {

  /** A `u8`. */
  type Byte = x: int | 0 <= x < 256

  /** A `u32`. */
  type Word = x: int | 0 <= x < 0x1_0000_0000

  datatype Option<+T> = None | Some(value: T)

  datatype Result<+T, +E> = Ok(value: T) | Err(error: E)

  const WORD_LIMIT := 0x1_0000_0000
  const PAGE := 4096

  /** The frame number of a physical byte, and the page number of a virtual one. */
  function PageOf(a: int): int {
    a / PAGE
  }

  /** The quotient and remainder by the page size are the only ones. */
  lemma PageSplit(x: int, q: int, r: int)
    requires x == PAGE * q + r && 0 <= r < PAGE
    ensures PageOf(x) == x / PAGE == q && x % PAGE == r
  {
  }

  /** `u32::from_le_bytes`. */
  function LeWord(b: seq<Byte>): (w: Word)
    requires |b| == 4
  {
    var b0: int, b1: int, b2: int, b3: int := b[0], b[1], b[2], b[3];
    b0 + 0x100 * b1 + 0x1_0000 * b2 + 0x100_0000 * b3
  }

  /** `u16::from_le_bytes`. */
  function LeHalf(b: seq<Byte>): (w: Word)
    requires |b| == 2
  {
    var b0: int, b1: int := b[0], b[1];
    b0 + 0x100 * b1
  }

  /** `u32::to_le_bytes`, the inverse of `LeWord`. */
  function LeBytes(w: Word): (b: seq<Byte>)
    ensures |b| == 4 && LeWord(b) == w
  {
    var high := w / 0x100;
    var higher := high / 0x100;
    [w % 0x100, high % 0x100, higher % 0x100, higher / 0x100]
  }

  /** Four bytes are determined by the word they spell, so `LeBytes` is a bijection. */
  lemma LeBytesOfWord(a: seq<Byte>)
    requires |a| == 4
    ensures LeBytes(LeWord(a)) == a
  {
    var a0: int, a1: int, a2: int, a3: int := a[0], a[1], a[2], a[3];
    var w: int := LeWord(a);
    assert w == a0 + 0x100 * (a1 + 0x100 * (a2 + 0x100 * a3));
    assert w % 0x100 == a0 && w / 0x100 == a1 + 0x100 * (a2 + 0x100 * a3);
  }

  /** Two's complement wrap-around of a `u32` sum. */
  function Wrap(x: int): (w: Word) {
    x % WORD_LIMIT
  }

  predicate Ascending(s: seq<int>) {
    forall i, j :: 0 <= i < j < |s| ==> s[i] < s[j]
  }

  predicate NoDup<T(==)>(s: seq<T>) {
    forall i, j :: 0 <= i < j < |s| ==> s[i] != s[j]
  }
}
