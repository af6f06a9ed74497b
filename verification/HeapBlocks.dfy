/** The kernel heap seen as the sequence of blocks its header walk meets, and what allocate and free do to it. */
module HeapBlocks {

  /** sizeof(heap_header_t) and sizeof(heap_footer_t) on i386. */
  const HEADER: nat := 12
  const FOOTER: nat := 8
  const TAGS: nat := 20

  datatype Block = Block(at: nat, size: nat, used: bool) {
    function Payload(): nat { at + HEADER }
    function Tail(): nat { at + HEADER + size }
    function End(): nat { at + TAGS + size }
  }

  /** The blocks lie end to end and fill [lo, hi). */
  ghost predicate Tiles(bs: seq<Block>, lo: nat, hi: nat) {
    if bs == [] then lo == hi else bs[0].at == lo && Tiles(bs[1..], bs[0].End(), hi)
  }

  /** No two neighbours are both free. */
  ghost predicate Coalesced(bs: seq<Block>) {
    forall i, j | 0 <= i && j == i + 1 && j < |bs| :: bs[i].used || bs[j].used
  }

  ghost predicate WellFormed(bs: seq<Block>, lo: nat, hi: nat) {
    bs != [] && Tiles(bs, lo, hi) && Coalesced(bs)
  }

  predicate Fits(b: Block, count: nat) {
    !b.used && count <= b.size
  }

  /** The index of the lowest block that fits, or |bs|. */
  function FirstFit(bs: seq<Block>, count: nat): (i: nat)
    ensures i <= |bs|
    ensures i < |bs| ==> Fits(bs[i], count)
    ensures forall j | 0 <= j < i :: !Fits(bs[j], count)
  {
    if bs == [] || Fits(bs[0], count) then 0 else 1 + FirstFit(bs[1..], count)
  }

  /** A fitting block, cut in two when its surplus can hold both tags and at least one byte. */
  function Carve(b: Block, count: nat): seq<Block>
    requires Fits(b, count)
  {
    if b.size > count + TAGS then
      [Block(b.at, count, true), Block(b.at + TAGS + count, b.size - count - TAGS, false)]
    else
      [b.(used := true)]
  }

  function AfterAllocate(bs: seq<Block>, count: nat): seq<Block> {
    var i := FirstFit(bs, count);
    if i == |bs| then bs else bs[..i] + Carve(bs[i], count) + bs[i + 1..]
  }

  /** How far left the free neighbours of block i reach. */
  function Leftmost(bs: seq<Block>, i: nat): (l: nat)
    requires i < |bs|
    ensures l <= i
    ensures forall j | l <= j < i :: !bs[j].used
    ensures l == 0 || bs[l - 1].used
  {
    if i > 0 && !bs[i - 1].used then Leftmost(bs, i - 1) else i
  }

  /** How far right the free neighbours of block i reach. */
  function Rightmost(bs: seq<Block>, i: nat): (r: nat)
    requires i < |bs|
    ensures i <= r < |bs|
    ensures forall j | i < j <= r :: !bs[j].used
    ensures r == |bs| - 1 || bs[r + 1].used
    decreases |bs| - i
  {
    if i + 1 < |bs| && !bs[i + 1].used then Rightmost(bs, i + 1) else i
  }

  /** The free block with the header of l and the footer of r. */
  function Merged(l: Block, r: Block): Block
    requires l.Payload() <= r.Tail()
  {
    Block(l.at, r.Tail() - l.Payload(), false)
  }

  ghost function AfterFree(bs: seq<Block>, i: nat): seq<Block>
    requires i < |bs| && (exists lo, hi :: Tiles(bs, lo, hi))
  {
    var l, r := Leftmost(bs, i), Rightmost(bs, i);
    assert bs[l].Payload() <= bs[r].Tail() by {
      var lo, hi :| Tiles(bs, lo, hi);
      Ascending(bs, lo, hi, l, r);
    }
    bs[..l] + [Merged(bs[l], bs[r])] + bs[r + 1..]
  }

  // ----- tilings cut and joined

  ghost function EndOf(bs: seq<Block>, lo: nat): nat {
    if bs == [] then lo else bs[|bs| - 1].End()
  }

  lemma {:induction false} TilesJoin(a: seq<Block>, b: seq<Block>, lo: nat, hi: nat)
    ensures Tiles(a + b, lo, hi) <==> Tiles(a, lo, EndOf(a, lo)) && Tiles(b, EndOf(a, lo), hi)
  {
    if a == [] {
      assert a + b == b;
    } else {
      assert (a + b)[1..] == a[1..] + b;
      TilesJoin(a[1..], b, a[0].End(), hi);
    }
  }

  /** Blocks in [lo, mid), then those of the cut, then the rest. */
  lemma TilesCut(bs: seq<Block>, lo: nat, hi: nat, l: nat, r: nat)
    requires Tiles(bs, lo, hi) && l < r <= |bs|
    ensures Tiles(bs[..l], lo, bs[l].at)
    ensures Tiles(bs[l..r], bs[l].at, bs[r - 1].End())
    ensures Tiles(bs[r..], bs[r - 1].End(), hi)
  {
    assert bs == bs[..l] + bs[l..] && bs[l..] == bs[l..r] + bs[r..];
    TilesJoin(bs[..l], bs[l..], lo, hi);
    TilesJoin(bs[l..r], bs[r..], EndOf(bs[..l], lo), hi);
  }

  /** Replacing blocks l..r-1 by others that fill the same bytes leaves a tiling. */
  lemma TilesReplace(bs: seq<Block>, lo: nat, hi: nat, l: nat, r: nat, mid: seq<Block>)
    requires Tiles(bs, lo, hi) && l < r <= |bs| && mid != []
    requires Tiles(mid, bs[l].at, bs[r - 1].End())
    ensures Tiles(bs[..l] + mid + bs[r..], lo, hi)
  {
    TilesCut(bs, lo, hi, l, r);
    TilesEnd(bs[..l], lo, bs[l].at);
    TilesEnd(mid, bs[l].at, bs[r - 1].End());
    TilesJoin(bs[..l], mid, lo, bs[r - 1].End());
    TilesJoin(bs[..l] + mid, bs[r..], lo, hi);
  }

  lemma {:induction false} TilesEnd(bs: seq<Block>, lo: nat, hi: nat)
    requires Tiles(bs, lo, hi)
    ensures EndOf(bs, lo) == hi && lo <= hi
  {
    if bs != [] { TilesEnd(bs[1..], bs[0].End(), hi); }
  }

  /** Each block ends before every later one begins, and next to the one that follows. */
  lemma Ascending(bs: seq<Block>, lo: nat, hi: nat, i: nat, j: nat)
    requires Tiles(bs, lo, hi) && i <= j < |bs|
    ensures lo <= bs[i].at && bs[j].End() <= hi
    ensures i < j ==> bs[i].End() <= bs[j].at
    ensures i == j ==> bs[i].at <= bs[j].at
    ensures j == i + 1 ==> bs[i].End() == bs[j].at
    ensures i == 0 ==> bs[i].at == lo
    ensures j == |bs| - 1 ==> bs[j].End() == hi
  {
    TilesCut(bs, lo, hi, i, i + 1);
    TilesEnd(bs[..i], lo, bs[i].at);
    if i < j {
      TilesCut(bs[i + 1..], bs[i].End(), hi, j - i - 1, j - i);
      TilesEnd(bs[i + 1..][..j - i - 1], bs[i].End(), bs[j].at);
    }
    TilesCut(bs, lo, hi, j, j + 1);
    TilesEnd(bs[j + 1..], bs[j].End(), hi);
  }

  /** Live payloads never overlap, and lie inside the region. */
  lemma PayloadsDisjoint(bs: seq<Block>, lo: nat, hi: nat, i: nat, j: nat)
    requires Tiles(bs, lo, hi) && i < |bs| && j < |bs| && i != j
    ensures bs[i].Tail() <= bs[j].Payload() || bs[j].Tail() <= bs[i].Payload()
    ensures lo <= bs[i].Payload() && bs[i].Tail() <= hi
  {
    Ascending(bs, lo, hi, if i < j then i else j, if i < j then j else i);
  }

  function PayloadBytes(bs: seq<Block>): nat {
    if bs == [] then 0 else bs[0].size + PayloadBytes(bs[1..])
  }

  /** Conservation: the payload sizes make up the region less 20 bytes of tags a block. */
  lemma {:induction false} SizesAddUp(bs: seq<Block>, lo: nat, hi: nat)
    requires Tiles(bs, lo, hi)
    ensures PayloadBytes(bs) + TAGS * |bs| == hi - lo
  {
    if bs != [] { SizesAddUp(bs[1..], bs[0].End(), hi); }
  }

  // ----- what one call keeps

  lemma CoalescedJoin(a: seq<Block>, b: seq<Block>)
    ensures Coalesced(a + b) <==>
      Coalesced(a) && Coalesced(b) && (a != [] && b != [] ==> a[|a| - 1].used || b[0].used)
  {
    if Coalesced(a + b) {
      assert forall i | 0 <= i < |a| :: a[i] == (a + b)[i];
      assert forall i | 0 <= i < |b| :: b[i] == (a + b)[|a| + i];
    }
  }

  lemma CoalescedCut(bs: seq<Block>, l: nat, r: nat)
    requires Coalesced(bs) && l <= r <= |bs|
    ensures Coalesced(bs[..l]) && Coalesced(bs[l..r]) && Coalesced(bs[r..])
  {
    assert bs == bs[..l] + bs[l..] && bs[l..] == bs[l..r] + bs[r..];
    CoalescedJoin(bs[..l], bs[l..]);
    CoalescedJoin(bs[l..r], bs[r..]);
  }

  lemma AllocateKeeps(bs: seq<Block>, lo: nat, hi: nat, count: nat)
    requires WellFormed(bs, lo, hi)
    ensures WellFormed(AfterAllocate(bs, count), lo, hi)
  {
    var i := FirstFit(bs, count);
    if i < |bs| {
      var mid := Carve(bs[i], count);
      assert mid[1..] == [] || mid[1..] == [mid[1]];
      TilesReplace(bs, lo, hi, i, i + 1, mid);
      CoalescedCut(bs, i, i + 1);
      CoalescedJoin(bs[..i], mid);
      CoalescedJoin(bs[..i] + mid, bs[i + 1..]);
    }
  }

  /**
    From bs to cs pointer p was handed out for count bytes, from the lowest block that can hold them: block i is
    used now, and begins where it did. A surplus that holds both tags and more is a free block right behind it,
    which ends where block i ended; a smaller one stays with it. No other block changed.
   */
  ghost predicate Granted(bs: seq<Block>, cs: seq<Block>, count: nat, i: nat, p: nat) {
    && i < |bs| && i < |cs| && !bs[i].used && count <= bs[i].size
    && (forall j | 0 <= j < i :: bs[j].used || bs[j].size < count)
    && cs[i].used && cs[i].at == bs[i].at && p == cs[i].at + HEADER
    && count <= cs[i].size <= count + TAGS
    && (forall j | 0 <= j < i :: cs[j] == bs[j])
    && if count + TAGS < bs[i].size then
         && |cs| == |bs| + 1 && cs[i].size == count
         && !cs[i + 1].used && cs[i + 1].at == cs[i].End() && cs[i + 1].End() == bs[i].End()
         && cs[i + 1].size == bs[i].size - (count + TAGS)
         && forall j | i < j < |bs| :: cs[j + 1] == bs[j]
       else
         && |cs| == |bs| && cs[i].size == bs[i].size
         && forall j | i < j < |bs| :: cs[j] == bs[j]
  }

  /** A request is granted whenever some free block can hold it. */
  lemma AllocateServes(bs: seq<Block>, count: nat)
    ensures var i, cs := FirstFit(bs, count), AfterAllocate(bs, count);
      if i < |bs| then Granted(bs, cs, count, i, bs[i].Payload())
      else cs == bs && forall b | b in bs :: b.used || b.size < count
  {
    var i := FirstFit(bs, count);
    if i < |bs| {
      var mid := Carve(bs[i], count);
      Spliced(bs, i, mid);
      assert mid[0].used && (|mid| == 2 ==> mid[1].at == mid[0].End() && mid[1].End() == bs[i].End());
    }
  }

  lemma Spliced(bs: seq<Block>, i: nat, mid: seq<Block>)
    requires i < |bs| && 1 <= |mid| <= 2
    ensures var cs := bs[..i] + mid + bs[i + 1..];
      && |cs| == |bs| - 1 + |mid| && cs[i] == mid[0] && (|mid| == 2 ==> cs[i + 1] == mid[1])
      && (forall j | 0 <= j < i :: cs[j] == bs[j])
      && forall j | i < j < |bs| :: (if |mid| == 2 then cs[j + 1] else cs[j]) == bs[j]
  {
  }

  lemma FreeKeeps(bs: seq<Block>, lo: nat, hi: nat, i: nat)
    requires WellFormed(bs, lo, hi) && i < |bs|
    ensures WellFormed(AfterFree(bs, i), lo, hi)
  {
    var l, r := Leftmost(bs, i), Rightmost(bs, i);
    Ascending(bs, lo, hi, l, r);
    var mid := [Merged(bs[l], bs[r])];
    TilesReplace(bs, lo, hi, l, r + 1, mid);
    CoalescedCut(bs, l, r + 1);
    CoalescedJoin(bs[..l], mid);
    CoalescedJoin(bs[..l] + mid, bs[r + 1..]);
  }

  /** Freeing a block that is already free and coalesced changes nothing. */
  lemma FreeingFreeIsIdle(bs: seq<Block>, lo: nat, hi: nat, i: nat)
    requires WellFormed(bs, lo, hi) && i < |bs| && !bs[i].used
    ensures AfterFree(bs, i) == bs
  {
    assert Leftmost(bs, i) == i && Rightmost(bs, i) == i;
  }

  // ----- the pointers clients hold

  ghost function Live(bs: seq<Block>): set<nat> {
    set b | b in bs && b.used :: b.Payload()
  }

  lemma LiveJoin(a: seq<Block>, b: seq<Block>)
    ensures Live(a + b) == Live(a) + Live(b)
  {
  }

  lemma LiveCut(bs: seq<Block>, l: nat, r: nat)
    requires l <= r <= |bs|
    ensures Live(bs) == Live(bs[..l]) + Live(bs[l..r]) + Live(bs[r..])
  {
    assert bs == bs[..l] + bs[l..] && bs[l..] == bs[l..r] + bs[r..];
    LiveJoin(bs[..l], bs[l..]);
    LiveJoin(bs[l..r], bs[r..]);
  }

  /** The pointers into a tiling of [lo, hi) lie strictly inside it. */
  lemma LiveInside(bs: seq<Block>, lo: nat, hi: nat)
    requires Tiles(bs, lo, hi)
    ensures forall p | p in Live(bs) :: lo < p < hi
  {
    forall b | b in bs ensures lo <= b.at && b.End() <= hi {
      var k :| 0 <= k < |bs| && bs[k] == b;
      Ascending(bs, lo, hi, k, k);
    }
  }

  /** Replacing blocks l..r-1 of a tiling replaces exactly their live pointers. */
  lemma LiveReplace(bs: seq<Block>, lo: nat, hi: nat, l: nat, r: nat, mid: seq<Block>)
    requires Tiles(bs, lo, hi) && l < r <= |bs|
    ensures Live(bs[l..r]) <= Live(bs)
    ensures Live(bs[..l] + mid + bs[r..]) == Live(bs) - Live(bs[l..r]) + Live(mid)
  {
    LiveCut(bs, l, r);
    LiveJoin(bs[..l], mid);
    LiveJoin(bs[..l] + mid, bs[r..]);
    TilesCut(bs, lo, hi, l, r);
    LiveInside(bs[..l], lo, bs[l].at);
    LiveInside(bs[l..r], bs[l].at, bs[r - 1].End());
    LiveInside(bs[r..], bs[r - 1].End(), hi);
  }

  /** A pointer belongs to one block only. */
  lemma LiveExactly(bs: seq<Block>, lo: nat, hi: nat, i: nat)
    requires Tiles(bs, lo, hi) && i < |bs|
    ensures bs[i].Payload() in Live(bs) <==> bs[i].used
  {
    forall k | 0 <= k < |bs| && bs[k].Payload() == bs[i].Payload() ensures k == i {
      if k != i { Ascending(bs, lo, hi, if i < k then i else k, if i < k then k else i); }
    }
  }

  /** An allocation hands out exactly one pointer, and one nobody holds. */
  lemma AllocateAddsPointer(bs: seq<Block>, lo: nat, hi: nat, count: nat)
    requires WellFormed(bs, lo, hi)
    ensures var i := FirstFit(bs, count);
      if i == |bs| then AfterAllocate(bs, count) == bs
      else bs[i].Payload() !in Live(bs) && Live(AfterAllocate(bs, count)) == Live(bs) + {bs[i].Payload()}
  {
    var i := FirstFit(bs, count);
    if i < |bs| {
      var mid := Carve(bs[i], count);
      LiveExactly(bs, lo, hi, i);
      LiveReplace(bs, lo, hi, i, i + 1, mid);
      assert Live(bs[i..i + 1]) == {};
      LiveJoin([mid[0]], mid[1..]);
      assert mid == [mid[0]] + mid[1..];
      assert Live([mid[0]]) == {bs[i].Payload()} && Live(mid[1..]) == {};
    }
  }

  /** Blocks l..r merge when i alone among them may be live. */
  lemma LiveAmongMerged(bs: seq<Block>, i: nat, l: nat, r: nat)
    requires l <= i <= r < |bs| && forall k | l <= k <= r && k != i :: !bs[k].used
    ensures Live(bs[l..r + 1]) == if bs[i].used then {bs[i].Payload()} else {}
  {
    assert bs[l..r + 1] == bs[l..i] + [bs[i]] + bs[i + 1..r + 1];
    LiveJoin(bs[l..i], [bs[i]]);
    LiveJoin(bs[l..i] + [bs[i]], bs[i + 1..r + 1]);
  }

  /** A free gives back exactly its own pointer. */
  lemma FreeDropsPointer(bs: seq<Block>, lo: nat, hi: nat, i: nat)
    requires WellFormed(bs, lo, hi) && i < |bs|
    ensures Live(AfterFree(bs, i)) == Live(bs) - {bs[i].Payload()}
  {
    var l, r := Leftmost(bs, i), Rightmost(bs, i);
    Ascending(bs, lo, hi, l, r);
    var mid := [Merged(bs[l], bs[r])];
    LiveExactly(bs, lo, hi, i);
    LiveAmongMerged(bs, i, l, r);
    LiveReplace(bs, lo, hi, l, r + 1, mid);
    assert Live(mid) == {};
  }

  // ----- whole runs

  datatype Request = Allocate(count: nat) | Free(pointer: nat) | Write(address: nat, value: nat)

  /** The index of the block whose payload begins at p, or |bs|. */
  function BlockAt(bs: seq<Block>, p: nat): (i: nat)
    ensures i <= |bs|
    ensures i < |bs| ==> bs[i].Payload() == p
    ensures i == |bs| ==> forall b | b in bs :: b.Payload() != p
  {
    if bs == [] || bs[0].Payload() == p then 0 else 1 + BlockAt(bs[1..], p)
  }

  ghost predicate InPayload(b: Block, a: nat) {
    b.Payload() <= a < b.Tail()
  }

  /** Clients free pointers they hold and write only inside their own payloads. */
  ghost predicate Legal(bs: seq<Block>, q: Request) {
    match q
    case Allocate(_) => true
    case Free(p) => p in Live(bs)
    case Write(a, v) => v < 256 && exists b | b in bs :: b.used && InPayload(b, a)
  }

  ghost function After(bs: seq<Block>, q: Request): seq<Block>
    requires (exists lo, hi :: Tiles(bs, lo, hi)) && Legal(bs, q)
  {
    match q
    case Allocate(n) => AfterAllocate(bs, n)
    case Free(p) => AfterFree(bs, BlockAt(bs, p))
    case Write(_, _) => bs
  }

  /** trace is what a run of the legal requests qs goes through. */
  ghost predicate Runs(trace: seq<seq<Block>>, qs: seq<Request>, lo: nat, hi: nat) {
    && |trace| == |qs| + 1
    && forall k | 0 <= k < |qs| :: Step(trace[k], qs[k], trace[k + 1], lo, hi)
  }

  ghost predicate Step(bs: seq<Block>, q: Request, cs: seq<Block>, lo: nat, hi: nat) {
    WellFormed(bs, lo, hi) ==> Legal(bs, q) && cs == After(bs, q)
  }

  lemma StepKeeps(bs: seq<Block>, q: Request, cs: seq<Block>, lo: nat, hi: nat)
    requires WellFormed(bs, lo, hi) && Step(bs, q, cs, lo, hi)
    ensures WellFormed(cs, lo, hi)
    ensures q.Free? ==> Live(cs) == Live(bs) - {q.pointer}
  {
    match q
    case Allocate(n) => AllocateKeeps(bs, lo, hi, n);
    case Free(p) =>
      FreeKeeps(bs, lo, hi, BlockAt(bs, p));
      FreeDropsPointer(bs, lo, hi, BlockAt(bs, p));
    case Write(_, _) =>
  }

  /** Every state of every legal run tiles the region with no two free neighbours. */
  lemma {:induction false} RunKeeps(trace: seq<seq<Block>>, qs: seq<Request>, lo: nat, hi: nat)
    requires Runs(trace, qs, lo, hi) && WellFormed(trace[0], lo, hi)
    ensures forall k | 0 <= k < |trace| :: WellFormed(trace[k], lo, hi)
  {
    for n := 0 to |qs|
      invariant forall k | 0 <= k <= n :: WellFormed(trace[k], lo, hi)
    {
      StepKeeps(trace[n], qs[n], trace[n + 1], lo, hi);
    }
  }

  /** A heap with no live pointer is one free block. */
  lemma AllFreeIsOneBlock(bs: seq<Block>, lo: nat, hi: nat)
    requires WellFormed(bs, lo, hi) && Live(bs) == {}
    ensures hi - lo >= TAGS && bs == [Block(lo, hi - lo - TAGS, false)]
  {
    assert |bs| > 1 ==> bs[0].used || bs[1].used;
    assert forall b | b in bs :: b.used ==> b.Payload() in Live(bs);
    Ascending(bs, lo, hi, 0, 0);
  }

  /** The frees of the pointers ps, in that order. */
  function Frees(ps: seq<nat>): seq<Request> {
    seq(|ps|, k requires 0 <= k < |ps| => Free(ps[k]))
  }

  /** Full coalescing: whatever run made them, freeing the live pointers in any order leaves the first heap. */
  lemma {:induction false} FreeAllRestores(trace: seq<seq<Block>>, ps: seq<nat>, lo: nat, hi: nat)
    requires Runs(trace, Frees(ps), lo, hi) && WellFormed(trace[0], lo, hi)
    requires Live(trace[0]) == set p | p in ps
    ensures hi - lo >= TAGS && trace[|ps|] == [Block(lo, hi - lo - TAGS, false)]
  {
    RunKeeps(trace, Frees(ps), lo, hi);
    for n := 0 to |ps|
      invariant Live(trace[n]) == Live(trace[0]) - set p | p in ps[..n]
    {
      StepKeeps(trace[n], Frees(ps)[n], trace[n + 1], lo, hi);
      assert ps[..n + 1] == ps[..n] + [ps[n]];
    }
    assert ps[..|ps|] == ps;
    AllFreeIsOneBlock(trace[|ps|], lo, hi);
  }
}
