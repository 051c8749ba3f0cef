/** The kernel's configuration and its access whitelist (components/os/src/config.rs). */
module Config {
  import opened Words

  /** A `u64`. */
  type Long = x: int | 0 <= x < 0x1_0000_0000_0000_0000

  const LONG_MAX := 0xFFFF_FFFF_FFFF_FFFF
  const FRAME_BYTES := 0x98
  const MEGAPAGE := 0x40_0000
  const PHYS_LIMIT := 0x4_0000_0000

  /** A half-open physical range, `base..base + size`. */
  datatype Window = Window(base: Long, size: Long) {

    /** Every byte of `addr..addr + len` is inside; false for an empty or overflowing range. */
    predicate Contains(addr: Long, len: Long) {
      len != 0 && addr >= base && addr + len <= LONG_MAX && addr + len - base <= size
    }

    /** Shares a byte with `addr..addr + len`, the ends saturating at `u64::MAX`. */
    predicate Overlaps(addr: Long, len: Long) {
      var end := if addr + len > LONG_MAX then LONG_MAX else addr + len;
      var ownEnd := if base + size > LONG_MAX then LONG_MAX else base + size;
      len != 0 && size != 0 && addr < ownEnd && base < end
    }

    ghost predicate Has(x: int) {
      base <= x < base + size
    }
  }

  datatype KernelConfig = KernelConfig(
    ram: Window,
    gate: Window,
    trapFrame: Word,
    staging: Window,
    framePool: Window,
    blk: Window,
    uartTx: Long)
  {
    function Frame(): Window {
      Window(trapFrame, FRAME_BYTES)
    }

    function Grants(): seq<Window> {
      [Frame(), staging, framePool, blk, Window(uartTx, 1)]
    }

    /** The whitelist: one granted range holds every byte, and none is in the gate window. */
    predicate Permits(addr: Long, len: Long) {
      !gate.Overlaps(addr, len) && exists g :: g in Grants() && g.Contains(addr, len)
    }

    /** `KernelConfig::validate`. */
    predicate Valid() {
      && (forall w :: w in [ram, gate, Frame(), staging, framePool, blk] ==> w.size != 0 && w.base + w.size <= LONG_MAX)
      && trapFrame % 4 == 0
      && ram.Contains(trapFrame, FRAME_BYTES)
      && ram.Contains(staging.base, staging.size)
      && ram.Contains(framePool.base, framePool.size)
      && !Frame().Overlaps(staging.base, staging.size)
      && !Frame().Overlaps(framePool.base, framePool.size)
      && !staging.Overlaps(framePool.base, framePool.size)
    }

    /** The platform builder's invariant: the gate window meets no granted range. */
    predicate GateApart() {
      forall g :: g in Grants() ==> !gate.Overlaps(g.base, g.size)
    }
  }

  /** Two ranges that fit in `u64` share a byte exactly when `Overlaps` says so. */
  lemma OverlapsIsSharing(w: Window, addr: Long, len: Long)
    requires w.base + w.size <= LONG_MAX && addr + len <= LONG_MAX
    ensures w.Overlaps(addr, len) <==> exists x :: w.Has(x) && addr <= x < addr + len
  {
    if w.Overlaps(addr, len) {
      var x := if addr < w.base then w.base else addr;
      assert w.Has(x);
    }
  }

  /** With the gate apart, the whitelist permits exactly the accesses one granted range contains: the gate check
      never refuses one of them, and no permitted byte is a gate byte. */
  lemma PermitsIsGranted(c: KernelConfig, addr: Long, len: Long)
    requires c.Valid() && c.GateApart()
    ensures c.Permits(addr, len) <==> exists g :: g in c.Grants() && g.Contains(addr, len)
    ensures c.Permits(addr, len) ==> forall x :: addr <= x < addr + len ==> !c.gate.Has(x)
  {
    if g :| g in c.Grants() && g.Contains(addr, len) {
      assert !c.gate.Overlaps(g.base, g.size);
    }
  }
}
