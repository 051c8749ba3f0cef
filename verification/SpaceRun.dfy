/** A creation's accesses by step, and the memory after each of them (`Space::access`, `data_len`, `steps`). */
module SpaceRun {
  import opened Words
  import opened Memory
  import opened Core
  import opened Space

  const PER_FRAME := 256

  function ZeroSteps(s: Space): nat {
    PER_FRAME * |s.frames|
  }

  function CopyEnd(s: Space): nat {
    ZeroSteps(s) + 2 * |s.copies|
  }

  function Steps(s: Space): nat {
    CopyEnd(s) + |s.ptes|
  }

  /** The working data step `step` requires: a copy's bytes between its read and its write. */
  function DataLen(s: Space, step: nat): nat {
    var k := step - ZeroSteps(s);
    if 0 <= k && k / 2 < |s.copies| && k % 2 == 1 then s.copies[k / 2].len else 0
  }

  /** The address the `k`-th zeroing write starts at. */
  function ZeroAt(s: Space, k: nat): int
    requires k < ZeroSteps(s)
  {
    PAGE * s.frames[k / PER_FRAME] + MAX_ACCESS * (k % PER_FRAME)
  }

  const ZEROS: seq<Byte> := [0, 0, 0, 0, 0, 0, 0, 0, 0, 0, 0, 0, 0, 0, 0, 0]

  /** The access due at `step`, with `data` the bytes a copy read; `None` past the last. */
  function AccessAt(s: Space, step: nat, data: seq<Byte>): (a: Option<Access>)
    ensures a.Some? <==> step < Steps(s)
  {
    if step < ZeroSteps(s) then Some(Write(ZeroAt(s, step), ZEROS))
    else
      var k := step - ZeroSteps(s);
      if k / 2 < |s.copies| then
        var c := s.copies[k / 2];
        if k % 2 == 0 then Some(Read(c.src, c.len)) else Some(Write(c.dst, data))
      else
        var p := k - 2 * |s.copies|;
        if p < |s.ptes| then
          var e := s.ptes[p];
          Some(Write(EntryAt(e.table, e.index), LeBytes(e.value)))
        else None
  }

  /** The working data and the memory between two steps of a creation. */
  datatype Progress = Progress(data: seq<Byte>, mem: Memory)

  /** One access, answered by memory, and the bookkeeping of `ProcOp::complete`. */
  function Advance(s: Space, p: Progress, step: nat): Progress
    requires step < Steps(s)
  {
    var a := AccessAt(s, step, p.data).value;
    var data := match Answer(p.mem, a) case Data(d) => p.data + d case Written => p.data;
    Progress(if step + 1 < Steps(s) && |data| != DataLen(s, step + 1) then [] else data, Apply(p.mem, a))
  }

  /** The creation after `n` accesses over memory `m`. */
  function After(s: Space, m: Memory, n: nat): Progress
    requires n <= Steps(s)
  {
    if n == 0 then Progress([], m) else Advance(s, After(s, m, n - 1), n - 1)
  }

  // ----- Zeroing -----

  /** One of the first `n` zeroing writes covers `x`. */
  ghost predicate Zeroed(s: Space, n: nat, x: int)
    requires n <= ZeroSteps(s)
  {
    exists k :: 0 <= k < n && ZeroAt(s, k) <= x < ZeroAt(s, k) + MAX_ACCESS
  }

  lemma ZeroStep(s: Space, p: Progress, n: nat)
    requires n < ZeroSteps(s) && p.data == []
    ensures n < Steps(s) && Advance(s, p, n) == Progress([], Poke(p.mem, ZeroAt(s, n), ZEROS))
  {
  }

  lemma AfterNone(s: Space, m: Memory)
    ensures After(s, m, 0) == Progress([], m)
  {
  }

  lemma AfterOne(s: Space, m: Memory, n: nat)
    requires n < Steps(s)
    ensures After(s, m, n + 1) == Advance(s, After(s, m, n), n)
  {
  }

  lemma {:induction false} ZeroRun(s: Space, m: Memory, n: nat)
    requires n <= ZeroSteps(s)
    ensures After(s, m, n).data == []
    ensures forall x :: Peek(After(s, m, n).mem, x) == if Zeroed(s, n, x) then 0 else Peek(m, x)
  {
    hide After, ZeroAt, Advance, ZeroSteps;
    if n == 0 {
      AfterNone(s, m);
    } else {
      ZeroRun(s, m, n - 1);
      ZeroStep(s, After(s, m, n - 1), n - 1);
      AfterOne(s, m, n - 1);
      forall x ensures Peek(After(s, m, n).mem, x) == if Zeroed(s, n, x) then 0 else Peek(m, x) {
        ZeroedStep(s, n - 1, x);
        ZeroPoke(After(s, m, n - 1).mem, ZeroAt(s, n - 1), x);
      }
    }
  }

  lemma ZeroPoke(m: Memory, a: int, x: int)
    ensures Peek(Poke(m, a, ZEROS), x) == if a <= x < a + MAX_ACCESS then 0 else Peek(m, x)
  {
    assert forall i :: 0 <= i < |ZEROS| ==> ZEROS[i] == 0;
  }

  lemma ZeroedStep(s: Space, n: nat, x: int)
    requires n < ZeroSteps(s)
    ensures Zeroed(s, n + 1, x) <==> Zeroed(s, n, x) || ZeroAt(s, n) <= x < ZeroAt(s, n) + MAX_ACCESS
  {
    hide ZeroAt;
  }

  /** The zeroing writes cover exactly the frames. */
  lemma ZeroCovers(s: Space, x: int)
    ensures Zeroed(s, ZeroSteps(s), x) <==> exists f :: 0 <= f < |s.frames| && s.frames[f] == PageOf(x)
  {
    if k :| 0 <= k < ZeroSteps(s) && ZeroAt(s, k) <= x < ZeroAt(s, k) + MAX_ACCESS {
      PageSplit(x, s.frames[k / PER_FRAME], x - PAGE * s.frames[k / PER_FRAME]);
    }
    if f :| 0 <= f < |s.frames| && s.frames[f] == PageOf(x) {
      var o := x % PAGE;
      var k := PER_FRAME * f + o / MAX_ACCESS;
      ZeroIndex(f, o / MAX_ACCESS);
      assert x == PAGE * s.frames[f] + o;
      assert ZeroAt(s, k) <= x < ZeroAt(s, k) + MAX_ACCESS;
    }
  }

  lemma ZeroIndex(f: nat, j: nat)
    requires j < PER_FRAME
    ensures (PER_FRAME * f + j) / PER_FRAME == f && (PER_FRAME * f + j) % PER_FRAME == j
  {
  }

  /** The set of frames a space owns. */
  function FrameSet(s: Space): set<int> {
    set i | 0 <= i < |s.frames| :: s.frames[i] as int
  }

  /** Zeroing sets every byte of every frame to zero and keeps every other byte. */
  lemma ZeroDone(s: Space, m: Memory)
    ensures After(s, m, ZeroSteps(s)).data == []
    ensures forall x :: Peek(After(s, m, ZeroSteps(s)).mem, x) == if PageOf(x) in FrameSet(s) then 0 else Peek(m, x)
  {
    ZeroRun(s, m, ZeroSteps(s));
    forall x ensures Zeroed(s, ZeroSteps(s), x) <==> PageOf(x) in FrameSet(s) {
      ZeroCovers(s, x);
    }
  }

  // ----- Copying -----

  /** The steps of copy `c`: the read, then the write. */
  function CopyAt(s: Space, c: nat): nat {
    ZeroSteps(s) + 2 * c
  }

  lemma CopyIndex(c: nat)
    ensures (2 * c) / 2 == c && (2 * c) % 2 == 0 && (2 * c + 1) / 2 == c && (2 * c + 1) % 2 == 1
  {
  }

  lemma ReadStep(s: Space, p: Progress, c: nat)
    requires c < |s.copies| && p.data == []
    ensures CopyAt(s, c) + 1 < Steps(s)
    ensures Advance(s, p, CopyAt(s, c)) == Progress(Slice(p.mem, s.copies[c].src, s.copies[c].len), p.mem)
  {
    CopyIndex(c);
    var d := Slice(p.mem, s.copies[c].src, s.copies[c].len);
    assert [] + d == d;
  }

  lemma WriteStep(s: Space, p: Progress, c: nat)
    requires c < |s.copies| && |p.data| == s.copies[c].len && s.ptes != []
    ensures CopyAt(s, c) + 2 < Steps(s)
    ensures Advance(s, p, CopyAt(s, c) + 1) == Progress([], Poke(p.mem, s.copies[c].dst, p.data))
  {
    CopyIndex(c);
    CopyIndex(c + 1);
    assert DataLen(s, CopyAt(s, c) + 2) == 0;
  }

  lemma AfterTwo(s: Space, m: Memory, n: nat)
    requires n + 2 <= Steps(s)
    ensures After(s, m, n + 2) == Advance(s, Advance(s, After(s, m, n), n), n + 1)
  {
    assert After(s, m, n + 1) == Advance(s, After(s, m, n), n);
  }

  lemma CopyStep(s: Space, m: Memory, c: nat)
    requires c < |s.copies| && s.ptes != [] && After(s, m, CopyAt(s, c)).data == []
    ensures CopyAt(s, c + 1) <= Steps(s)
    ensures After(s, m, CopyAt(s, c + 1)) == Progress([], DoCopy(After(s, m, CopyAt(s, c)).mem, s.copies[c]))
  {
    hide After, Advance;
    var p := After(s, m, CopyAt(s, c));
    ReadStep(s, p, c);
    WriteStep(s, Advance(s, p, CopyAt(s, c)), c);
    AfterTwo(s, m, CopyAt(s, c));
  }

  lemma CopiesPrefix(m: Memory, cs: seq<Copy>, c: nat)
    requires 0 < c <= |cs|
    ensures DoCopies(m, cs[..c]) == DoCopy(DoCopies(m, cs[..c - 1]), cs[c - 1])
  {
    assert cs[..c][..c - 1] == cs[..c - 1];
  }

  /** After `c` copies the memory is the zeroed memory with those copies made. */
  lemma {:induction false} CopyRun(s: Space, m: Memory, c: nat)
    requires c <= |s.copies| && s.ptes != []
    ensures CopyAt(s, c) <= Steps(s)
    ensures After(s, m, CopyAt(s, c)) == Progress([], DoCopies(After(s, m, ZeroSteps(s)).mem, s.copies[..c]))
  {
    hide After, DoCopies, DoCopy;
    if c == 0 {
      ZeroRun(s, m, ZeroSteps(s));
      assert s.copies[..0] == [];
      NoCopies(After(s, m, ZeroSteps(s)).mem);
    } else {
      CopyRun(s, m, c - 1);
      CopyStep(s, m, c - 1);
      CopiesPrefix(After(s, m, ZeroSteps(s)).mem, s.copies, c);
    }
  }

  // ----- Mapping -----

  function DoPtes(m: Memory, es: seq<PteWrite>): Memory {
    if es == [] then m else
      var e := es[|es| - 1];
      Poke(DoPtes(m, es[..|es| - 1]), EntryAt(e.table, e.index), LeBytes(e.value))
  }

  lemma PteWriteStep(s: Space, p: Progress, k: nat)
    requires k < |s.ptes| && p.data == []
    ensures var e := s.ptes[k];
      Advance(s, p, CopyEnd(s) + k) == Progress([], Poke(p.mem, EntryAt(e.table, e.index), LeBytes(e.value)))
  {
  }

  lemma PtesPrefix(m: Memory, es: seq<PteWrite>, k: nat)
    requires 0 < k <= |es|
    ensures DoPtes(m, es[..k])
         == Poke(DoPtes(m, es[..k - 1]), EntryAt(es[k - 1].table, es[k - 1].index), LeBytes(es[k - 1].value))
  {
    assert es[..k][..k - 1] == es[..k - 1];
  }

  /** The memory when every copy is made. */
  function Copied(s: Space, m: Memory): Memory {
    DoCopies(After(s, m, ZeroSteps(s)).mem, s.copies)
  }

  /** After `k` PTE writes the memory is the copied memory with those entries written. */
  lemma {:induction false} PteRun(s: Space, m: Memory, k: nat)
    requires k <= |s.ptes| && s.ptes != []
    ensures After(s, m, CopyEnd(s) + k) == Progress([], DoPtes(Copied(s, m), s.ptes[..k]))
  {
    hide After, DoPtes, DoCopies;
    if k == 0 {
      CopyRun(s, m, |s.copies|);
      assert s.copies[..|s.copies|] == s.copies;
      assert s.ptes[..0] == [];
      NoPtes(Copied(s, m));
    } else {
      PteRun(s, m, k - 1);
      AfterOne(s, m, CopyEnd(s) + (k - 1));
      PteWriteStep(s, After(s, m, CopyEnd(s) + (k - 1)), k - 1);
      PtesPrefix(Copied(s, m), s.ptes, k);
    }
  }

  lemma NoPtes(m: Memory)
    ensures DoPtes(m, []) == m
  {
  }

  predicate EntriesInRange(es: seq<PteWrite>) {
    forall i :: 0 <= i < |es| ==> EntryIndex(es[i].index)
  }

  predicate Hits(e: PteWrite, t: int, i: int) {
    e.table == t && e.index == i
  }

  /** An entry after PTE writes is what the last write to it stored, or what it held if none wrote it. */
  lemma {:induction false} EntryAfter(m: Memory, es: seq<PteWrite>, t: int, i: int) returns (q: int)
    requires EntriesInRange(es) && EntryIndex(i)
    ensures -1 <= q < |es|
    ensures q >= 0 ==> Hits(es[q], t, i) && PeekEntry(DoPtes(m, es), t, i) == es[q].value
    ensures q == -1 ==> PeekEntry(DoPtes(m, es), t, i) == PeekEntry(m, t, i) && forall k :: 0 <= k < |es| ==> !Hits(es[k], t, i)
  {
    hide PeekEntry;
    if es == [] {
      q := -1;
    } else {
      var n := |es| - 1;
      var e, front := es[n], es[..n];
      PokeEntry(DoPtes(m, front), e.table, e.index, e.value, t, i);
      if Hits(e, t, i) {
        q := n;
      } else {
        q := EntryAfter(m, front, t, i);
        assert forall k :: 0 <= k < n ==> es[k] == front[k];
      }
    }
  }

  /** PTE writes change only the tables they name. */
  lemma {:induction false} PtesStayInTables(m: Memory, es: seq<PteWrite>, x: int)
    requires EntriesInRange(es) && forall k :: 0 <= k < |es| ==> es[k].table != PageOf(x)
    ensures Peek(DoPtes(m, es), x) == Peek(m, x)
  {
    if es != [] {
      var n := |es| - 1;
      var e, front := es[n], es[..n];
      assert forall k :: 0 <= k < n ==> front[k] == es[k];
      PtesStayInTables(m, front, x);
      if EntryAt(e.table, e.index) <= x < EntryAt(e.table, e.index) + 4 {
        EntryPage(e.table, e.index, x - EntryAt(e.table, e.index));
      }
    }
  }
}
