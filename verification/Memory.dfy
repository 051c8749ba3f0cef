/** Physical memory as a total map from address to byte. */
module Memory {
  import opened Words

  type Memory = int -> Byte

  function Peek(m: Memory, a: int): (b: Byte) {
    m(a)
  }

  function Poke(m: Memory, a: int, data: seq<Byte>): (r: Memory)
    ensures forall x :: Peek(r, x) == if a <= x < a + |data| then data[x - a] else Peek(m, x)
  {
    x => if a <= x < a + |data| then data[x - a] else Peek(m, x)
  }

  function Slice(m: Memory, a: int, n: nat): (s: seq<Byte>)
    ensures |s| == n && forall i :: 0 <= i < n ==> s[i] == Peek(m, a + i)
  {
    seq<Byte>(n, i requires 0 <= i < n => Peek(m, a + i))
  }

  function PeekWord(m: Memory, a: int): (w: Word) {
    LeWord([Peek(m, a), Peek(m, a + 1), Peek(m, a + 2), Peek(m, a + 3)])
  }

  /** The same byte everywhere. */
  ghost predicate Same(m: Memory, n: Memory) {
    forall x :: Peek(m, x) == Peek(n, x)
  }

  /** The same byte at every address of the pages in `pages`. */
  ghost predicate SameOn(m: Memory, n: Memory, pages: set<int>) {
    forall x :: PageOf(x) in pages ==> Peek(m, x) == Peek(n, x)
  }

  /** The address of entry `i` of the 1024-word table in frame `t`. */
  function EntryAt(t: int, i: int): int {
    PAGE * t + 4 * i
  }

  function PeekEntry(m: Memory, t: int, i: int): (w: Word) {
    PeekWord(m, EntryAt(t, i))
  }

  predicate EntryIndex(i: int) {
    0 <= i < 1024
  }

  lemma EntryPage(t: int, i: int, k: int)
    requires EntryIndex(i) && 0 <= k < 4
    ensures PageOf(EntryAt(t, i) + k) == t
  {
    PageSplit(EntryAt(t, i) + k, t, 4 * i + k);
  }

  /** Writing a table entry sets it and keeps every other entry of every table. */
  lemma PokeEntry(m: Memory, t: int, i: int, w: Word, u: int, j: int)
    requires EntryIndex(i) && EntryIndex(j)
    ensures PeekEntry(Poke(m, EntryAt(t, i), LeBytes(w)), u, j) == if t == u && i == j then w else PeekEntry(m, u, j)
  {
    var a, x, r := EntryAt(t, i), EntryAt(u, j), Poke(m, EntryAt(t, i), LeBytes(w));
    if t == u && i == j {
      assert [Peek(r, a), Peek(r, a + 1), Peek(r, a + 2), Peek(r, a + 3)] == LeBytes(w);
    } else {
      assert x + 4 <= a || a + 4 <= x;
    }
  }

  /** A table entry depends on its table's bytes only. */
  lemma EntryInPage(m: Memory, n: Memory, t: int, i: int, pages: set<int>)
    requires EntryIndex(i) && t in pages && SameOn(m, n, pages)
    ensures PeekEntry(m, t, i) == PeekEntry(n, t, i)
  {
    hide PageOf;
    EntryPage(t, i, 0);
    EntryPage(t, i, 1);
    EntryPage(t, i, 2);
    EntryPage(t, i, 3);
  }

  lemma SliceMore(m: Memory, a: int, n: nat, k: nat)
    ensures Slice(m, a, n) + Slice(m, a + n, k) == Slice(m, a, n + k)
  {
    var s, t := Slice(m, a, n) + Slice(m, a + n, k), Slice(m, a, n + k);
    forall i | 0 <= i < n + k ensures s[i] == t[i] {
      if i >= n {
        assert s[i] == Slice(m, a + n, k)[i - n];
      }
    }
  }

  lemma SliceWord(m: Memory, a: int)
    ensures LeWord(Slice(m, a, 4)) == PeekWord(m, a)
  {
    assert Slice(m, a, 4) == [Peek(m, a), Peek(m, a + 1), Peek(m, a + 2), Peek(m, a + 3)];
  }
}
