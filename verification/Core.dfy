/** The kernel's bus accesses and how ranges are split into them (components/os/src/core.rs, `split_copy` of space.rs). */
module Core {
  import opened Words
  import opened Memory

  const MAX_ACCESS := 16

  datatype Access = Read(addr: int, len: nat) | Write(addr: int, data: seq<Byte>) {
    function Len(): nat {
      match this case Read(_, n) => n case Write(_, d) => |d|
    }
  }

  /** The successful response to an access. */
  datatype Completion = Data(data: seq<Byte>) | Written

  /** Memory that answers an access correctly. */
  function Answer(m: Memory, a: Access): Completion {
    match a case Read(addr, n) => Data(Slice(m, addr, n)) case Write(_, _) => Written
  }

  function Apply(m: Memory, a: Access): Memory {
    match a case Read(_, _) => m case Write(addr, d) => Poke(m, addr, d)
  }

  /** 1 to 16 bytes that cross no page. */
  predicate Short(addr: int, len: int) {
    1 <= len <= MAX_ACCESS && PageOf(addr) == PageOf(addr + len - 1)
  }

  datatype Chunk = Chunk(addr: int, len: nat)

  /** The first piece of a split of `addr..end`. */
  function ChunkEnd(addr: int, end: int): (next: int)
    requires addr < end
    ensures addr < next <= end && Short(addr, next - addr)
  {
    var pageEnd := (addr / PAGE + 1) * PAGE;
    var a := if end < pageEnd then end else pageEnd;
    if a < addr + MAX_ACCESS then a else addr + MAX_ACCESS
  }

  /** `base..base + len` split into accesses of at most 16 bytes that cross no page, in address order. */
  function Chunks(base: int, len: nat): (cs: seq<Chunk>)
    decreases len
  {
    if len == 0 then [] else
      var n := ChunkEnd(base, base + len) - base;
      [Chunk(base, n)] + Chunks(base + n, len - n)
  }

  method ComputeChunks(base: int, len: nat) returns (out: seq<Chunk>)
    ensures out == Chunks(base, len)
  {
    out := [];
    var addr, end := base, base + len;
    while addr < end
      invariant base <= addr <= end
      invariant out + Chunks(addr, end - addr) == Chunks(base, len)
    {
      var next := ChunkEnd(addr, end);
      out := out + [Chunk(addr, next - addr)];
      addr := next;
    }
  }

  function TotalLen(cs: seq<Chunk>): nat {
    if cs == [] then 0 else cs[0].len + TotalLen(cs[1..])
  }

  /** Chunk `k` starts where the first `k` end, every chunk is short, and together they are the whole range. */
  lemma {:induction false} ChunksTile(base: int, len: nat)
    ensures TotalLen(Chunks(base, len)) == len
    ensures forall k :: 0 <= k < |Chunks(base, len)| ==>
      var c := Chunks(base, len)[k];
      Short(c.addr, c.len) && c.addr == base + TotalLen(Chunks(base, len)[..k]) && c.addr + c.len <= base + len
    decreases len
  {
    var cs := Chunks(base, len);
    if len != 0 {
      var n := cs[0].len;
      ChunksTile(base + n, len - n);
      var rest := Chunks(base + n, len - n);
      forall k | 0 <= k < |cs|
        ensures Short(cs[k].addr, cs[k].len) && cs[k].addr == base + TotalLen(cs[..k]) && cs[k].addr + cs[k].len <= base + len
      {
        if k > 0 {
          assert cs[k] == rest[k - 1] && cs[..k][1..] == rest[..k - 1];
        }
      }
    }
  }

  /** One bus copy: `len` bytes from `src` to `dst`. */
  datatype Copy = Copy(src: int, dst: int, len: nat)

  function Min(a: int, b: int): int {
    if a < b then a else b
  }

  /** The length of the first piece of a copy. */
  function CopyPiece(src: int, dst: int, len: nat): (n: nat)
    requires len > 0
    ensures 0 < n <= len && Short(src, n) && Short(dst, n)
  {
    Min(Min(Min(len, MAX_ACCESS), PAGE - src % PAGE), PAGE - dst % PAGE)
  }

  /** `len` bytes from `src` to `dst` as copies of at most 16 bytes that cross no page on either side. */
  function SplitCopy(src: int, dst: int, len: nat): (cs: seq<Copy>)
    decreases len
  {
    if len == 0 then [] else
      var n := CopyPiece(src, dst, len);
      [Copy(src, dst, n)] + SplitCopy(src + n, dst + n, len - n)
  }

  method ComputeSplitCopy(src0: int, dst0: int, len: nat, out0: seq<Copy>) returns (out: seq<Copy>)
    ensures out == out0 + SplitCopy(src0, dst0, len)
  {
    var src, dst, end := src0, dst0, src0 + len;
    out := out0;
    while src < end
      invariant src0 <= src <= end
      invariant out + SplitCopy(src, dst, end - src) == out0 + SplitCopy(src0, dst0, len)
    {
      var n := CopyPiece(src, dst, end - src);
      out := out + [Copy(src, dst, n)];
      src, dst := src + n, dst + n;
    }
  }

  /** Each piece is a short access on both sides, inside the two ranges, at the same offset in both. */
  lemma {:induction false} SplitCopyPieces(src: int, dst: int, len: nat)
    ensures forall k :: 0 <= k < |SplitCopy(src, dst, len)| ==>
      var c := SplitCopy(src, dst, len)[k];
      Short(c.src, c.len) && Short(c.dst, c.len) && c.src - src == c.dst - dst && dst <= c.dst && c.dst + c.len <= dst + len
    decreases len
  {
    if len != 0 {
      var n := CopyPiece(src, dst, len);
      SplitCopyPieces(src + n, dst + n, len - n);
      var cs, rest := SplitCopy(src, dst, len), SplitCopy(src + n, dst + n, len - n);
      assert forall k :: 0 < k < |cs| ==> cs[k] == rest[k - 1];
    }
  }

  /** Memory after one copy's read and write. */
  function DoCopy(m: Memory, c: Copy): Memory {
    Poke(m, c.dst, Slice(m, c.src, c.len))
  }

  /** Memory after the copies in order. */
  function DoCopies(m: Memory, cs: seq<Copy>): Memory {
    if cs == [] then m else DoCopy(DoCopies(m, cs[..|cs| - 1]), cs[|cs| - 1])
  }

  lemma {:induction false} DoCopiesAppend(m: Memory, a: seq<Copy>, b: seq<Copy>)
    ensures DoCopies(m, a + b) == DoCopies(DoCopies(m, a), b)
  {
    if b == [] {
      assert a + b == a;
    } else {
      DoCopiesAppend(m, a, b[..|b| - 1]);
      assert (a + b)[..|a + b| - 1] == a + b[..|b| - 1];
    }
  }

  lemma DoCopiesFirst(m: Memory, c: Copy, rest: seq<Copy>)
    ensures DoCopies(m, [c] + rest) == DoCopies(DoCopy(m, c), rest)
  {
    DoCopiesAppend(m, [c], rest);
    assert [c][..0] == [];
    assert DoCopies(m, [c]) == DoCopy(DoCopies(m, []), c);
  }

  /** The byte at `x` after `len` bytes were copied from `src` to `dst`. */
  function Copied(m: Memory, src: int, dst: int, len: nat, x: int): Byte {
    if dst <= x < dst + len then Peek(m, src + (x - dst)) else Peek(m, x)
  }

  /** Copying the first `n` bytes and then the rest copies them all. */
  lemma CopiedInTwo(m: Memory, src: int, dst: int, n: nat, len: nat, x: int)
    requires n <= len && (src + len <= dst || dst + len <= src)
    ensures Copied(DoCopy(m, Copy(src, dst, n)), src + n, dst + n, len - n, x) == Copied(m, src, dst, len, x)
  {
  }

  lemma SplitCopyFirst(m: Memory, src: int, dst: int, len: nat)
    requires len > 0
    ensures var n := CopyPiece(src, dst, len);
      DoCopies(m, SplitCopy(src, dst, len)) == DoCopies(DoCopy(m, Copy(src, dst, n)), SplitCopy(src + n, dst + n, len - n))
  {
    var n := CopyPiece(src, dst, len);
    DoCopiesFirst(m, Copy(src, dst, n), SplitCopy(src + n, dst + n, len - n));
  }

  lemma NoCopies(m: Memory)
    ensures DoCopies(m, []) == m
  {
  }

  /** Splitting a copy changes nothing: the pieces leave the same memory as one copy of the whole range, as long as
      the two ranges are apart. */
  lemma {:induction false} SplitCopyIsCopy(m: Memory, src: int, dst: int, len: nat, x: int)
    requires src + len <= dst || dst + len <= src
    ensures Peek(DoCopies(m, SplitCopy(src, dst, len)), x) == Copied(m, src, dst, len, x)
    decreases len
  {
    hide DoCopies;
    if len == 0 {
      NoCopies(m);
    } else {
      var n := CopyPiece(src, dst, len);
      SplitCopyFirst(m, src, dst, len);
      SplitCopyIsCopy(DoCopy(m, Copy(src, dst, n)), src + n, dst + n, len - n, x);
      CopiedInTwo(m, src, dst, n, len, x);
    }
  }
}
