/** How a memory region is divided into bitmap blocks and data blocks. */
module Partition {
  import opened Machine

  function DivCeil(a: u32, b: u32): u32
    requires b > 0
  {
    Wrap(a / b + if a % b != 0 then 1 else 0)
  }

  function AlignRight(a: u32, b: u32): u32
    requires b > 0
  {
    Wrap(DivCeil(a, b) * b)
  }

  function AlignLeft(a: u32, b: u32): u32
    requires b > 0
  {
    Wrap(a / b * b)
  }

  datatype Layout = Layout(bitmapAddr: u32, bitmapCount: u32, dataAddr: u32, dataCount: u32)

  /** The region arithmetic of the memory constructor, every sum and product taken modulo 2^32. */
  function Divide(base: u32, size: u32): Layout {
    var first := AlignRight(base, 4096);
    var last := AlignLeft(Wrap(base + size), 4096);
    var blockCount := Wrap(last - first) / 4096;
    var needed := DivCeil(DivCeil(blockCount, 8), 4096);
    Layout(first, needed, Wrap(first + needed * 4096), Wrap(blockCount - needed))
  }

  /** The whole blocks inside [base, base + size), in unbounded arithmetic: the first, and the one past the last. */
  function FirstBlock(base: u32): nat { (base + 4095) / 4096 }
  function EndBlock(base: u32, size: u32): nat { (base + size) / 4096 }

  /** The blocks below 4 GB. */
  const BLOCKS: nat := 0x10_0000

  /** Bitmap blocks then data blocks, side by side, cover exactly the whole blocks, with a bit for each. */
  ghost predicate Exact(l: Layout, base: u32, size: u32) {
    && l.bitmapAddr == FirstBlock(base) * 4096
    && l.dataAddr == l.bitmapAddr + l.bitmapCount * 4096
    && l.dataAddr + l.dataCount * 4096 == EndBlock(base, size) * 4096 <= TWO32
    && l.dataCount <= l.bitmapCount * 4096 * 8
  }

  /** A block number modulo 2^20. */
  function Wrapped(k: int): nat {
    k % 0x10_0000
  }

  lemma WrapBytes(k: int)
    ensures Wrap(k * 4096) == Wrapped(k) * 4096
  {
    var a, r := k / 0x10_0000, k % 0x10_0000;
    assert k == 0x10_0000 * a + r;
    assert k * 4096 == 0x1_0000_0000 * a + r * 4096;
  }

  lemma WrapSmall(k: nat)
    requires k < TWO32
    ensures Wrap(k) == k
  {
  }

  lemma WrapFloor(x: nat)
    ensures Wrap(x) / 4096 == Wrapped(x / 4096)
  {
    var a, r := x / 0x1_0000_0000, x % 0x1_0000_0000;
    assert x / 4096 == 0x10_0000 * a + r / 4096;
  }

  lemma DivCeilBy(a: u32, b: u32)
    requires b == 8 || b == 4096
    ensures DivCeil(a, b) == (a + b - 1) / b
  {
  }

  lemma CeilOfCeil(n: nat)
    requires n < BLOCKS
    ensures DivCeil(DivCeil(n, 8), 4096) == (n + 32767) / 32768 <= n
  {
    DivCeilBy(n, 8);
    DivCeilBy((n + 7) / 8, 4096);
  }

  lemma ModDifference(q: int, p: int)
    ensures Wrapped(Wrapped(q) as int - Wrapped(p)) == Wrapped(q - p)
  {
    var a, b := q / 0x10_0000, p / 0x10_0000;
    assert q - p == 0x10_0000 * (a - b) + (q % 0x10_0000 - p % 0x10_0000);
  }

  lemma ModSum(p: int, k: int)
    ensures Wrapped(Wrapped(p) + k) == Wrapped(p + k)
  {
    assert p + k == 0x10_0000 * (p / 0x10_0000) + (p % 0x10_0000 + k);
  }

  lemma EndsInBlocks(base: u32, size: u32)
    ensures AlignRight(base, 4096) == Wrapped(FirstBlock(base)) * 4096
    ensures AlignLeft(Wrap(base + size), 4096) == Wrapped(EndBlock(base, size)) * 4096
    ensures EndBlock(base, size) - FirstBlock(base) < BLOCKS && FirstBlock(base) <= BLOCKS
  {
    DivCeilBy(base, 4096);
    WrapBytes(FirstBlock(base));
    WrapFloor(base + size);
  }

  lemma SpanInBlocks(p: int, q: int)
    ensures Wrap(Wrapped(q) * 4096 - Wrapped(p) * 4096) == Wrapped(q - p) * 4096
    ensures Wrapped(q - p) < BLOCKS
  {
    var span: int := Wrapped(q) as int - Wrapped(p);
    WrapBytes(span);
    ModDifference(q, p);
    assert Wrapped(q) * 4096 - Wrapped(p) * 4096 == span * 4096;
  }

  lemma SumInBlocks(p: int, k: nat)
    ensures Wrap(Wrapped(p) * 4096 + k * 4096) == Wrapped(p + k) * 4096
  {
    WrapBytes(Wrapped(p) + k);
    ModSum(p, k);
    assert Wrapped(p) * 4096 + k * 4096 == (Wrapped(p) + k) * 4096;
  }

  /** The same arithmetic counted in blocks: there are 2^20 of them below 4 GB. */
  lemma DivideInBlocks(base: u32, size: u32)
    ensures var p, q, l := FirstBlock(base) as int, EndBlock(base, size) as int, Divide(base, size);
      var n := Wrapped(q - p);
      && l.bitmapAddr == Wrapped(p) * 4096
      && l.bitmapCount == (n + 32767) / 32768 <= n < BLOCKS
      && l.dataAddr == Wrapped(p + l.bitmapCount) * 4096
      && l.dataCount == n - l.bitmapCount
      && q - p < BLOCKS && p <= BLOCKS
  {
    hide Wrap, Wrapped, DivCeil, AlignRight, AlignLeft, FirstBlock, EndBlock;
    var p: int, q: int := FirstBlock(base), EndBlock(base, size);
    EndsInBlocks(base, size);
    SpanInBlocks(p, q);
    var n := Wrapped(q - p);
    CeilOfCeil(n);
    SumInBlocks(p, (n + 32767) / 32768);
    WrapSmall(n - (n + 32767) / 32768);
  }

  /**
    The constructor divides a region exactly when rounding the base up neither overflows nor passes the
    end rounded down, that end is at most 2^32, and the region is more than the last block below 2^32.
   */
  lemma DivideIsExact(base: u32, size: u32)
    ensures Exact(Divide(base, size), base, size) <==>
      && FirstBlock(base) < BLOCKS
      && FirstBlock(base) <= EndBlock(base, size) <= BLOCKS
      && !(FirstBlock(base) == BLOCKS - 1 && EndBlock(base, size) == BLOCKS)
  {
    hide Divide, FirstBlock, EndBlock;
    DivideInBlocks(base, size);
  }

  /** A region that holds no whole block: base 1, size 10 yields a data area of almost 4 GB. */
  lemma TinyRegionOverflows()
    ensures !Exact(Divide(1, 10), 1, 10) && Divide(1, 10).dataCount > 1_000_000
  {
    hide Divide;
    DivideInBlocks(1, 10);
    DivideIsExact(1, 10);
  }

  /** Bit b of the bitmap lies in the 32-bit word at this offset from the start of the bitmap. */
  function WordOffset(b: nat): nat { 4 * (b / 32) }

  /** With the bitmap in its reserved blocks every bit would have a place there. */
  lemma ReservedBlocksHoldAllBits(base: u32, size: u32, b: nat)
    requires Exact(Divide(base, size), base, size) && b < Divide(base, size).dataCount
    ensures WordOffset(b) + 4 <= Divide(base, size).bitmapCount * 4096
  {
    hide Divide;
  }

  /** The word that holds bit b, as the code places it, shares no byte with data block c. */
  ghost predicate Apart(b: nat, c: nat) {
    WordOffset(b) + 4 <= c * 4096 || (c + 1) * 4096 <= WordOffset(b)
  }

  /**
    The words are indexed from the first data block, not from the reserved bitmap. Keeping block 0 back
    therefore protects them exactly when there are at most 32768 data blocks.
   */
  lemma BlockZeroShieldsBitmap(count: nat)
    ensures (forall b: nat, c: nat | b < count && 1 <= c < count :: Apart(b, c)) <==> count <= 32768
  {
    if count > 32768 {
      assert !Apart(32768, 1);
    }
  }
}
