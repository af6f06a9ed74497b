/** The physical block allocator: a bitmap of 32-bit words, a count of used blocks and a next-fit cursor. */
module BlockAllocator {
  import opened Machine
  import opened Bits
  import opened Blocks
  import opened Partition

  /** The blocks below count whose bit is set. */
  ghost function Marked(words: seq<u32>, count: nat): (s: set<nat>)
    requires count <= 32 * |words|
    ensures forall b: nat | b in s :: b < count
  {
    set b: nat | b < count && Bit(words[b / 32], b % 32)
  }

  /** words[b / 32] |= 1 << b % 32 */
  function WithBit(words: seq<u32>, b: nat): seq<u32>
    requires b < 32 * |words|
  {
    MaskBelow(b % 32);
    words[b / 32 := Or32(words[b / 32], Pow2(b % 32))]
  }

  /** words[b / 32] &= ~(1 << b % 32) */
  function WithoutBit(words: seq<u32>, b: nat): seq<u32>
    requires b < 32 * |words|
  {
    AndNotBelow(words[b / 32], Pow2(b % 32));
    words[b / 32 := AndNot(words[b / 32], Pow2(b % 32))]
  }

  lemma {:induction false} Pow2Grows(j: nat, k: nat)
    requires j < k
    ensures Pow2(j) < Pow2(k)
  {
    if j + 1 < k { Pow2Grows(j, k - 1); }
  }

  lemma MaskBelow(k: nat)
    requires k < 32
    ensures Pow2(k) < TWO32
  {
    Pow2Values();
    Pow2Grows(k, 32);
  }

  lemma MarkedSet(words: seq<u32>, count: nat, b: nat)
    requires b < count <= 32 * |words|
    ensures Marked(WithBit(words, b), count) == Marked(words, count) + {b}
  {
    hide Bit, Or, Pow2;
    forall c: nat | c < count ensures Bit(WithBit(words, b)[c / 32], c % 32) <==> c == b || Bit(words[c / 32], c % 32) {
      OrBit(words[b / 32], Pow2(b % 32), c % 32);
      MaskBit(b % 32, c % 32);
    }
  }

  lemma MarkedCleared(words: seq<u32>, count: nat, b: nat)
    requires b < count <= 32 * |words|
    ensures Marked(WithoutBit(words, b), count) == Marked(words, count) - {b}
  {
    hide Bit, AndNot, Pow2;
    forall c: nat | c < count
      ensures Bit(WithoutBit(words, b)[c / 32], c % 32) <==> c != b && Bit(words[c / 32], c % 32)
    {
      AndNotBit(words[b / 32], Pow2(b % 32), c % 32);
      MaskBit(b % 32, c % 32);
    }
  }

  lemma BelowSize(s: set<nat>, count: nat)
    requires forall b | b in s :: b < count
    ensures |s| <= count
  {
    if count > 0 {
      var rest := s - {count - 1};
      BelowSize(rest, count - 1);
      assert |rest| == if count - 1 in s then |s| - 1 else |s|;
    }
  }

  /** The counter is one less than the number of used blocks, modulo 2^32. */
  ghost predicate Counts(counter: u32, used: set<nat>) {
    if used == {} then counter == 0xffff_ffff else counter == |used| - 1
  }

  /** With the counter at 0 only block 0 may be marked. */
  lemma OnlyZeroCounts(s: set<nat>, count: nat)
    requires (forall b | b in s :: b < count) && (count > 0 ==> 0 in s)
    ensures Counts(0, s) <==> count > 0 && s <= {0}
  {
    if count > 0 {
      assert |s - {0}| == |s| - 1;
    }
  }

  lemma CounterRises(counter: u32, used: set<nat>, taken: set<nat>, total: u32)
    requires Counts(counter, used) && used !! taken && forall b | b in used + taken :: b < total
    ensures |taken| <= total && Counts(Add32(counter, |taken|), used + taken)
  {
    BelowSize(used + taken, total);
    assert |used + taken| == |used| + |taken|;
  }

  lemma CounterFalls(counter: u32, used: set<nat>, b: nat)
    requires Counts(counter, used) && b in used
    ensures Counts(Sub32(counter, 1), used - {b})
  {
    assert |used - {b}| == |used| - 1;
  }

  function CounterAfterFree(counter: u32, used: set<nat>, total: nat, b: nat): u32 {
    if b in used || b >= total then Sub32(counter, 1) else counter
  }

  /** Freeing a block keeps the counter right if and only if its number is not past the end. */
  lemma FreeCounts(counter: u32, used: set<nat>, total: nat, b: nat)
    requires Counts(counter, used) && forall c | c in used :: c < total
    ensures Counts(CounterAfterFree(counter, used, total, b), used - {b}) <==> b < total
  {
    if b in used {
      CounterFalls(counter, used, b);
    } else {
      assert used - {b} == used;
    }
  }

  /** Four blocks, two of them used, one counted; freeing block 5 leaves both used and none counted. */
  lemma FreePastEnd()
    ensures Counts(1, {0, 1}) && {0, 1} - {5} == {0, 1}
    ensures CounterAfterFree(1, {0, 1}, 4, 5) == 0 && !Counts(0, {0, 1})
  {
  }

  /** What the scan knows at the cursor: the last curr blocks are free, and no run that ends here is long enough. */
  ghost predicate Scanned(used: set<nat>, start: nat, cursor: nat, curr: nat, count: nat) {
    && curr < count && start + curr <= cursor
    && FreeRun(used, cursor - curr, curr)
    && (cursor - curr == start || cursor - curr - 1 in used)
    && forall g: nat | start <= g && g + count <= cursor :: !FreeRun(used, g, count)
  }

  lemma ScanBegins(used: set<nat>, start: nat, count: nat)
    requires count > 0
    ensures Scanned(used, start, start, 0, count)
  {
  }

  lemma ScanStep(used: set<nat>, start: nat, cursor: nat, curr: nat, count: nat)
    requires Scanned(used, start, cursor, curr, count)
    ensures cursor in used ==> Scanned(used, start, cursor + 1, 0, count)
    ensures cursor !in used && curr + 1 < count ==> Scanned(used, start, cursor + 1, curr + 1, count)
    ensures cursor !in used && curr + 1 == count ==>
      && start + count <= cursor + 1
      && FreeRun(used, cursor + 1 - count, count)
      && forall g | start <= g < cursor + 1 - count :: !FreeRun(used, g, count)
  {
    forall g: nat | start <= g && g + count == cursor + 1 && (cursor in used || curr + 1 < count)
      ensures !FreeRun(used, g, count)
    {
      if cursor in used {
        assert g <= cursor < g + count;
      } else {
        assert g <= cursor - curr - 1 < g + count;
      }
    }
  }

  lemma ScanEnds(used: set<nat>, start: nat, total: nat, curr: nat, count: nat)
    requires Scanned(used, start, total, curr, count)
    ensures forall g: nat | start <= g && g + count <= total :: !FreeRun(used, g, count)
  {
  }

  lemma EmptyRequest(st: State, total: nat)
    ensures Outcome(st, total, 0).None? && AfterRequest(st, total, 0) == State(st.used, Start(st, total))
  {
  }

  lemma Succeeds(st: State, total: nat, count: nat, f: nat)
    requires WellFormed(st, total) && count > 0
    requires Start(st, total) <= f && f + count <= total && FreeRun(st.used, f, count)
    requires forall g | Start(st, total) <= g < f :: !FreeRun(st.used, g, count)
    ensures Outcome(st, total, count) == Some(f)
    ensures AfterRequest(st, total, count) == State(st.used + Range(f, count), f + count - 1)
    ensures st.used !! Range(f, count)
    ensures 0 in st.used ==> f > 0
  {
    NextFitUnique(st.used, total, Start(st, total), count, f);
  }

  lemma Fails(st: State, total: nat, count: nat)
    requires WellFormed(st, total) && count > 0
    requires forall g: nat | Start(st, total) <= g && g + count <= total :: !FreeRun(st.used, g, count)
    ensures Outcome(st, total, count).None? && AfterRequest(st, total, count) == State(st.used, total)
  {
    NextFitIsLowest(st.used, total, Start(st, total), count);
  }

  lemma RangeGrows(first: nat, count: nat)
    ensures Range(first, count + 1) == Range(first, count) + {first + count}
  {
  }

  /** Outside the words that hold count bits from word first on, m and r agree. */
  ghost predicate Elsewhere(m: seq<u32>, r: seq<u32>, first: nat, count: nat) {
    && |r| == |m|
    && forall k | 0 <= k < |m| && !(first <= k < first + (count + 31) / 32) :: r[k] == m[k]
  }

  lemma MarkedAgree(m: seq<u32>, r: seq<u32>, first: nat, count: nat)
    requires |r| == |m| && first <= |m| && count <= 32 * (|m| - first)
    requires forall k | first <= k < first + (count + 31) / 32 :: r[k] == m[k]
    ensures Marked(r[first..], count) == Marked(m[first..], count)
  {
    hide Bit;
    forall b: nat | b < count ensures r[first..][b / 32] == m[first..][b / 32] {
      assert b / 32 < (count + 31) / 32;
    }
  }

  /** Whatever is written outside data block 0, the same blocks stay marked. */
  ghost predicate Insulated(first: nat, total: nat)
    requires first + total <= BLOCKS
  {
    forall m: seq<u32>, r: seq<u32> | SameBlockZero(m, r, first) ::
      Marked(r[first * 1024..], total) == Marked(m[first * 1024..], total)
  }

  /** Two memories agree on the page with number first. */
  ghost predicate SameBlockZero(m: seq<u32>, r: seq<u32>, first: nat) {
    && |m| == |r| == 0x4000_0000 && first < BLOCKS
    && forall k | first * 1024 <= k < first * 1024 + 1024 :: r[k] == m[k]
  }

  /** Keeping block 0 back keeps the marks safe from every other write if and only if it holds all the bits. */
  lemma BlockZeroInsulates(first: nat, total: nat)
    requires first + total <= BLOCKS
    ensures Insulated(first, total) <==> total <= 32768
  {
    if total <= 32768 {
      forall m: seq<u32>, r: seq<u32> | SameBlockZero(m, r, first)
        ensures Marked(r[first * 1024..], total) == Marked(m[first * 1024..], total)
      {
        MarkedAgree(m, r, first * 1024, total);
      }
    } else {
      var m: seq<u32> := seq(0x4000_0000, _ => 0);
      LargeMemoryLosesMarks(m, first, total);
      var k := (first + 1) * 1024;
      assert SameBlockZero(m, m[k := 0], first) && SameBlockZero(m, m[k := 1], first);
    }
  }

  /**
    With more blocks the first request after start is given block 1, and a client that writes its first word
    decides whether block 32768 counts as used.
   */
  lemma LargeMemoryLosesMarks(m: seq<u32>, first: nat, total: nat)
    requires |m| == 0x4000_0000 && first + total <= BLOCKS && total > 32768
    ensures Outcome(State({0}, 0), total, 1) == Some(1)
    ensures 32768 !in Marked(m[(first + 1) * 1024 := 0][first * 1024..], total)
    ensures 32768 in Marked(m[(first + 1) * 1024 := 1][first * 1024..], total)
  {
    NextFitUnique({0}, total, 0, 1, 1);
    assert m[(first + 1) * 1024 := 0][first * 1024..][1024] == 0;
    assert m[(first + 1) * 1024 := 1][first * 1024..][1024] == 1;
  }

  /** From m to r the count words from first on became zero, and behind them only bits for blocks changed. */
  ghost predicate Zeroed(m: seq<u32>, r: seq<u32>, first: nat, count: nat, blocks: nat) {
    && |r| == |m|
    && (forall k | 0 <= k < |m| && first <= k < first + count :: r[k] == 0)
    && forall k | 0 <= k < |m| && !(first <= k < first + count + (blocks + 31) / 32) :: r[k] == m[k]
  }

  /** memory_set with zeroes, by words */
  method ZeroWords(ram: array<u32>, first: nat, count: nat)
    requires first + count <= ram.Length
    modifies ram
    ensures forall k | 0 <= k < ram.Length :: ram[k] == if first <= k < first + count then 0 else old(ram[k])
  {
    for i := 0 to count
      invariant forall k | 0 <= k < ram.Length :: ram[k] == if first <= k < first + i then 0 else old(ram[k])
    {
      ram[first + i] := 0;
    }
  }

  class Memory {
    const bitmapBlockAddr: u32
    const bitmapBlockCount: u32
    const dataBlockAddr: u32
    const dataBlockCount: u32
    /** The page number of data block 0. */
    ghost const dataPage: nat
    /** Physical memory as 32-bit words; the code keeps its bits from dataBlockAddr on. */
    const ram: array<u32>
    var usedBlocks: u32
    /** The function-static i of allocate_blocks. */
    var cursor: u32

    ghost predicate Valid()
      reads this
    {
      && ram.Length == 0x4000_0000
      && dataBlockAddr == dataPage * 4096
      && dataPage + dataBlockCount <= BLOCKS
      && (dataBlockCount > 0 ==> dataPage > 0)
      && cursor <= dataBlockCount
    }

    /** The blocks marked used in memory m. */
    ghost function BitsIn(m: seq<u32>): set<nat>
      requires Valid() && |m| == 0x4000_0000
      reads this
    {
      Marked(m[dataPage * 1024..], dataBlockCount)
    }

    ghost function Used(): set<nat>
      requires Valid()
      reads this, ram
    {
      BitsIn(ram[..])
    }

    ghost function Now(): State
      requires Valid()
      reads this, ram
    {
      State(Used(), cursor)
    }

    /** The counter knows every used block but block 0. */
    ghost predicate Counted()
      requires Valid()
      reads this, ram
    {
      Counts(usedBlocks, Used())
    }

    constructor (base: u32, size: u32, ram: array<u32>)
      requires Exact(Divide(base, size), base, size) && ram.Length == 0x4000_0000
      modifies ram
      ensures Valid() && this.ram == ram && usedBlocks == 0 && cursor == 0
      ensures Layout(bitmapBlockAddr, bitmapBlockCount, dataBlockAddr, dataBlockCount) == Divide(base, size)
      ensures Used() == BitsIn(old(ram[..])) + if dataBlockCount > 0 then {0} else {}
      ensures Counted() <==> dataBlockCount > 0 && BitsIn(old(ram[..])) <= {0}
      ensures Zeroed(old(ram[..]), ram[..], bitmapBlockAddr / 4, bitmapBlockCount * 1024, dataBlockCount)
    {
      hide Divide, Bit, Marked, Wrapped;
      var l := Divide(base, size);
      usedBlocks := 0;
      cursor := 0;
      bitmapBlockAddr := l.bitmapAddr;
      bitmapBlockCount := l.bitmapCount;
      dataBlockAddr := l.dataAddr;
      dataBlockCount := l.dataCount;
      dataPage := FirstBlock(base) + l.bitmapCount;
      this.ram := ram;
      DivideInBlocks(base, size);
      new;
      ghost var m := ram[..];
      ZeroWords(ram, bitmapBlockAddr / 4, bitmapBlockCount * 1024);
      MarkedAgree(m, ram[..], dataPage * 1024, dataBlockCount);
      MarkBlockUsed(0);
      OnlyZeroCounts(Used(), dataBlockCount);
    }

    function IsBlockUsed(b: u32): (r: bool)
      requires Valid()
      reads this, ram
      ensures r <==> b >= dataBlockCount || b in Used()
    {
      if b < dataBlockCount then
        AndMask(ram[dataBlockAddr / 4 + b / 32], b % 32);
        And(ram[dataBlockAddr / 4 + b / 32], Pow2(b % 32)) != 0
      else
        true
    }

    method MarkBlockUsed(b: u32)
      requires Valid()
      modifies ram
      ensures Used() == old(Used()) + if b < dataBlockCount then {b} else {}
      ensures Elsewhere(old(ram[..]), ram[..], dataPage * 1024, dataBlockCount)
    {
      if b < dataBlockCount {
        ghost var words := ram[..][dataPage * 1024..];
        var k := dataBlockAddr / 4 + b / 32;
        MarkedSet(words, dataBlockCount, b);
        MaskBelow(b % 32);
        hide Or32, Pow2, Marked;
        ram[k] := Or32(ram[k], Pow2(b % 32));
        assert ram[..][dataPage * 1024..] == WithBit(words, b);
      }
    }

    method MarkBlockFree(b: u32)
      requires Valid()
      modifies ram
      ensures Used() == old(Used()) - {b}
      ensures Elsewhere(old(ram[..]), ram[..], dataPage * 1024, dataBlockCount)
    {
      if b < dataBlockCount {
        ghost var words := ram[..][dataPage * 1024..];
        var k := dataBlockAddr / 4 + b / 32;
        MarkedCleared(words, dataBlockCount, b);
        AndNotBelow(ram[k], Pow2(b % 32));
        hide AndNot, Pow2, Marked;
        ram[k] := AndNot(ram[k], Pow2(b % 32));
        assert ram[..][dataPage * 1024..] == WithoutBit(words, b);
      }
    }

    /** The address of the lowest run of free blocks at or above the cursor, or 0. */
    method AllocateBlocks(count: u32) returns (p: u32)
      requires Valid()
      modifies this`usedBlocks, this`cursor, ram
      ensures Valid()
      ensures Now() == AfterRequest(old(Now()), dataBlockCount, count)
      ensures match Outcome(old(Now()), dataBlockCount, count)
        case Some(f) => f < dataBlockCount && p == dataBlockAddr + f * 4096
        case None => p == 0
      ensures p != 0 ==> count > 0 && p == dataBlockAddr + (cursor + 1 - count) * 4096
      ensures p == 0 && 0 in old(Used()) ==>
        cursor == if count > 0 then dataBlockCount else if old(cursor) == dataBlockCount then 0 else old(cursor)
      ensures Outcome(old(Now()), dataBlockCount, count).Some? ==> usedBlocks == Add32(old(usedBlocks), count)
      ensures Outcome(old(Now()), dataBlockCount, count).None? ==> usedBlocks == old(usedBlocks)
      ensures Elsewhere(old(ram[..]), ram[..], dataPage * 1024, dataBlockCount)
      ensures old(Counted()) ==> Counted()
      ensures 0 in old(Used()) ==> (p == 0 <==> Outcome(old(Now()), dataBlockCount, count).None?)
    {
      hide Marked, IsBlockUsed, Scanned, FreeRun, Outcome, AfterRequest, Range, NextFit;
      ghost var st := Now();
      if cursor == dataBlockCount { cursor := 0; }
      ghost var start: nat := cursor;
      if count == 0 {
        EmptyRequest(st, dataBlockCount);
        return 0;
      }
      var curr: u32 := 0;
      ScanBegins(st.used, start, count);
      while cursor < dataBlockCount
        invariant Valid() && Used() == st.used && usedBlocks == old(usedBlocks) && ram[..] == old(ram[..])
        invariant curr < count && Scanned(st.used, start, cursor, curr, count)
        decreases dataBlockCount - cursor
      {
        ScanStep(st.used, start, cursor, curr, count);
        if !IsBlockUsed(cursor) { curr := curr + 1; } else { curr := 0; }
        if curr == count {
          var first: u32 := cursor + 1 - count;
          Succeeds(st, dataBlockCount, count, first);
          Take(first, count);
          return dataBlockAddr + first * 4096;
        }
        cursor := cursor + 1;
      }
      ScanEnds(st.used, start, dataBlockCount, curr, count);
      Fails(st, dataBlockCount, count);
      return 0;
    }

    /** Marks a run and counts it. */
    method Take(first: u32, count: u32)
      requires Valid() && first + count <= dataBlockCount && Used() !! Range(first, count)
      modifies ram, this`usedBlocks
      ensures Valid() && Used() == old(Used()) + Range(first, count)
      ensures Elsewhere(old(ram[..]), ram[..], dataPage * 1024, dataBlockCount)
      ensures usedBlocks == Add32(old(usedBlocks), count)
      ensures old(Counted()) ==> Counted()
    {
      hide Marked, Range;
      if Counted() { CounterRises(usedBlocks, Used(), Range(first, count), dataBlockCount); }
      MarkRun(first, count);
      usedBlocks := Add32(usedBlocks, count);
    }

    /** The marking loop of allocate_blocks. */
    method MarkRun(first: u32, count: u32)
      requires Valid() && first + count <= dataBlockCount
      modifies ram
      ensures Elsewhere(old(ram[..]), ram[..], dataPage * 1024, dataBlockCount)
      ensures Used() == old(Used()) + Range(first, count)
    {
      hide Marked, Range;
      assert Range(first, 0) == {};
      for j := 0 to count
        invariant Used() == old(Used()) + Range(first, j)
        invariant Elsewhere(old(ram[..]), ram[..], dataPage * 1024, dataBlockCount)
      {
        RangeGrows(first, j);
        MarkBlockUsed(first + j);
      }
    }

    /** The block number an address stands for, or None when it is not a block address modulo 2^32. */
    function BlockOf(p: u32): (b: Option<u32>)
      ensures b.Some? ==> b.value < 0x10_0000
      ensures forall n: nat | n < 0x10_0000 :: b == Some(n) <==> p == Add32(dataBlockAddr, n * 4096)
    {
      var offset := Sub32(p, dataBlockAddr);
      if offset % 4096 == 0 then Some(offset / 4096) else None
    }

    /**
      Frees one block. A block number past the end frees nothing but still lowers the counter: the
      counter stays right exactly when that does not happen.
     */
    method FreeBlock(p: u32)
      requires Valid()
      modifies this`usedBlocks, ram
      ensures Valid()
      ensures BlockOf(p).None? ==> Used() == old(Used()) && usedBlocks == old(usedBlocks)
      ensures BlockOf(p).Some? ==> var b := BlockOf(p).value;
        && Used() == old(Used()) - {b}
        && usedBlocks == CounterAfterFree(old(usedBlocks), old(Used()), dataBlockCount, b)
      ensures Elsewhere(old(ram[..]), ram[..], dataPage * 1024, dataBlockCount)
      ensures old(Counted()) ==> (Counted() <==> !(BlockOf(p).Some? && BlockOf(p).value >= dataBlockCount))
    {
      hide Marked, IsBlockUsed;
      var offset := Sub32(p, dataBlockAddr);
      if offset % 4096 == 0 {
        var block := offset / 4096;
        if Counted() { FreeCounts(usedBlocks, Used(), dataBlockCount, block); }
        if IsBlockUsed(block) { usedBlocks := Sub32(usedBlocks, 1); }
        MarkBlockFree(block);
      }
    }
  }
}
