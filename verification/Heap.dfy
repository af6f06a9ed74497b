/** The boundary-tag heap over raw bytes: a header and a footer around every block, zeroed words at both ends. */
module Heap {
  import opened Machine
  import opened HeapBlocks
  import Buffers

  const HEADER_MAGIC: u32 := 0x1234_abcd
  const FOOTER_MAGIC: u32 := 0xabcd_1234

  /** The header and the footer of block b are in memory, and the footer points back to the header. */
  ghost predicate Tagged(m: seq<byte>, b: Block) {
    && b.End() <= |m|
    && Word(m, b.at) == HEADER_MAGIC
    && m[b.at + 4] == (if b.used then 1 else 0)
    && Word(m, b.at + 8) == b.size
    && Word(m, b.Tail()) == FOOTER_MAGIC
    && Word(m, b.Tail() + 4) == b.at
  }

  /** The zero words that stop the leftward and the rightward walk. */
  ghost predicate Sentinels(m: seq<byte>, lo: nat, hi: nat)
    requires 8 <= lo && lo <= |m| && hi + 12 <= |m|
  {
    && Word(m, lo - 8) == 0 && Word(m, lo - 4) == 0
    && Word(m, hi) == 0 && Word(m, hi + 4) == 0 && Word(m, hi + 8) == 0
  }

  ghost predicate Represents(m: seq<byte>, bs: seq<Block>, lo: nat, hi: nat) {
    && 8 <= lo <= hi && hi + 12 <= |m| <= TWO32
    && WellFormed(bs, lo, hi)
    && Sentinels(m, lo, hi)
    && forall b | b in bs :: Tagged(m, b)
  }

  /** m and r agree on every byte in [from, to). */
  ghost predicate Agree(m: seq<byte>, r: seq<byte>, from: int, to: int) {
    |m| == |r| && forall k | 0 <= k < |m| && from <= k < to :: r[k] == m[k]
  }

  ghost predicate PayloadsKept(m: seq<byte>, r: seq<byte>, bs: seq<Block>) {
    |m| == |r| && forall b, k | b in bs && b.used && 0 <= k < |m| && InPayload(b, k) :: r[k] == m[k]
  }

  /** From m to r no byte outside [lo, hi) changed, and no byte of a live payload. */
  ghost predicate Contained(m: seq<byte>, r: seq<byte>, bs: seq<Block>, lo: nat, hi: nat) {
    Agree(m, r, 0, lo) && Agree(m, r, hi, |m|) && PayloadsKept(m, r, bs)
  }

  lemma NothingMoved(m: seq<byte>, bs: seq<Block>, lo: nat, hi: nat)
    ensures Contained(m, m, bs, lo, hi)
  {
  }

  lemma TagsStay(m: seq<byte>, r: seq<byte>, b: Block)
    requires Tagged(m, b) && Agree(m, r, b.at, b.Payload()) && Agree(m, r, b.Tail(), b.End())
    ensures Tagged(r, b)
  {
    hide FromBytes;
  }

  /** Clients may write anything inside live payloads, and nothing the allocator knows changes. */
  lemma PayloadWritesAreSafe(m: seq<byte>, r: seq<byte>, bs: seq<Block>, lo: nat, hi: nat)
    requires Represents(m, bs, lo, hi) && |r| == |m|
    requires forall k | 0 <= k < |m| && r[k] != m[k] :: exists b | b in bs :: InPayload(b, k)
    ensures Represents(r, bs, lo, hi)
  {
    forall i, k | 0 <= i < |bs| && 0 <= k < |m| && (bs[i].at <= k < bs[i].Payload() || bs[i].Tail() <= k < bs[i].End())
      ensures r[k] == m[k]
    {
      if r[k] != m[k] {
        var b :| b in bs && InPayload(b, k);
        var j :| 0 <= j < |bs| && bs[j] == b;
        Ascending(bs, lo, hi, if i < j then i else j, if i < j then j else i);
      }
    }
    forall i | 0 <= i < |bs| ensures Tagged(r, bs[i]) {
      TagsStay(m, r, bs[i]);
    }
    forall k | 0 <= k < |m| && !(lo <= k < hi) ensures r[k] == m[k] {
      if r[k] != m[k] {
        var b :| b in bs && InPayload(b, k);
        var j :| 0 <= j < |bs| && bs[j] == b;
        Ascending(bs, lo, hi, j, j);
      }
    }
  }

  /** Memory still represents the heap when blocks l..r-1 give way to others that are properly tagged. */
  lemma RetagReplaced(m: seq<byte>, r: seq<byte>, bs: seq<Block>, lo: nat, hi: nat, l: nat, e: nat, mid: seq<Block>)
    requires Represents(m, bs, lo, hi) && l < e <= |bs|
    requires |m| == |r| && Agree(m, r, 0, bs[l].at) && Agree(m, r, bs[e - 1].End(), |m|)
    requires forall b | b in mid :: Tagged(r, b)
    requires WellFormed(bs[..l] + mid + bs[e..], lo, hi)
    ensures Represents(r, bs[..l] + mid + bs[e..], lo, hi)
  {
    hide Tagged, Agree, Sentinels;
    Ascending(bs, lo, hi, l, e - 1);
    SentinelsStay(m, r, lo, hi, bs[l].at, bs[e - 1].End());
    forall c | c in bs[..l] + mid + bs[e..] ensures Tagged(r, c) {
      if c !in mid {
        var i :| 0 <= i < |bs| && !(l <= i < e) && bs[i] == c;
        TagsApart(m, r, bs, lo, hi, l, e, i);
      }
    }
  }

  lemma SentinelsStay(m: seq<byte>, r: seq<byte>, lo: nat, hi: nat, from: nat, to: nat)
    requires 8 <= lo <= from && to <= hi && lo <= |m| && hi + 12 <= |m| && Sentinels(m, lo, hi)
    requires Agree(m, r, 0, from) && Agree(m, r, to, |m|)
    ensures Sentinels(r, lo, hi)
  {
    hide FromBytes;
  }

  lemma TagsApart(m: seq<byte>, r: seq<byte>, bs: seq<Block>, lo: nat, hi: nat, l: nat, e: nat, i: nat)
    requires Tiles(bs, lo, hi) && l < e <= |bs| && i < |bs| && !(l <= i < e)
    requires Agree(m, r, 0, bs[l].at) && Agree(m, r, bs[e - 1].End(), |m|) && Tagged(m, bs[i])
    ensures Tagged(r, bs[i])
  {
    if i < l { Ascending(bs, lo, hi, i, l); } else { Ascending(bs, lo, hi, e - 1, i); }
    TagsStay(m, r, bs[i]);
  }

  lemma LiveHeader(m: seq<byte>, bs: seq<Block>, lo: nat, hi: nat, p: nat)
    requires Represents(m, bs, lo, hi) && p in Live(bs)
    ensures 12 <= p < |m| <= TWO32 && Word(m, p - 12) == HEADER_MAGIC && exists b | b in bs :: b.Payload() == p
  {
    var b :| b in bs && b.used && b.Payload() == p;
    assert Tagged(m, b);
  }

  lemma WriteInside(m: seq<byte>, bs: seq<Block>, lo: nat, hi: nat, a: nat, v: byte)
    requires Represents(m, bs, lo, hi) && exists b | b in bs :: b.used && InPayload(b, a)
    ensures a < |m| && Represents(m[a := v], bs, lo, hi)
  {
    var b :| b in bs && b.used && InPayload(b, a);
    assert Tagged(m, b);
    PayloadWritesAreSafe(m, m[a := v], bs, lo, hi);
  }

  /** The bytes after block b is cut at count: the writes of the splitting branch, in order. */
  function Carved(m: seq<byte>, b: Block, count: u32): (r: seq<byte>)
    requires Fits(b, count) && b.size > count + TAGS && b.End() <= |m| <= TWO32
    ensures |r| == |m|
  {
    var next := b.at + TAGS + count;
    var m1 := PutWord(m, b.at + 8, count)[b.at + 4 := 1];
    var m2 := PutWord(PutWord(m1, b.Payload() + count, FOOTER_MAGIC), b.Payload() + count + 4, b.at);
    var m3 := PutWord(m2, next, HEADER_MAGIC)[next + 4 := 0];
    PutWord(PutWord(m3, next + 8, b.size - count - TAGS), b.Tail() + 4, next)
  }

  lemma PutByte(m: seq<byte>, p: nat, v: byte)
    requires p < |m|
    ensures forall q: nat {:trigger Word(m[p := v], q)} | q + 4 <= |m| && (q + 4 <= p || p < q) ::
        Word(m[p := v], q) == Word(m, q)
  {
  }

  /** The tags of the block handed out. */
  lemma CarvedLow(m: seq<byte>, b: Block, count: u32)
    requires Tagged(m, b) && |m| <= TWO32 && Fits(b, count) && b.size > count + TAGS
    ensures Tagged(Carved(m, b, count), Carve(b, count)[0])
    ensures Agree(m, Carved(m, b, count), 0, b.at) && Agree(m, Carved(m, b, count), b.End(), |m|)
  {
    hide Load, Word, PutWord;
    var next := b.at + TAGS + count;
    var m1 := PutWord(m, b.at + 8, count)[b.at + 4 := 1];
    PutByte(PutWord(m, b.at + 8, count), b.at + 4, 1);
    var m2 := PutWord(PutWord(m1, b.Payload() + count, FOOTER_MAGIC), b.Payload() + count + 4, b.at);
    PutByte(PutWord(m2, next, HEADER_MAGIC), next + 4, 0);
  }

  /** The tags of what is left of it. */
  lemma CarvedHigh(m: seq<byte>, b: Block, count: u32)
    requires Tagged(m, b) && |m| <= TWO32 && Fits(b, count) && b.size > count + TAGS
    ensures Tagged(Carved(m, b, count), Carve(b, count)[1])
  {
    hide Load, Word, PutWord;
    var next := b.at + TAGS + count;
    var m1 := PutWord(m, b.at + 8, count)[b.at + 4 := 1];
    PutByte(PutWord(m, b.at + 8, count), b.at + 4, 1);
    var m2 := PutWord(PutWord(m1, b.Payload() + count, FOOTER_MAGIC), b.Payload() + count + 4, b.at);
    PutByte(PutWord(m2, next, HEADER_MAGIC), next + 4, 0);
  }

  lemma CarvedIsTagged(m: seq<byte>, b: Block, count: u32)
    requires Tagged(m, b) && |m| <= TWO32 && Fits(b, count) && b.size > count + TAGS
    ensures forall c | c in Carve(b, count) :: Tagged(Carved(m, b, count), c)
    ensures Agree(m, Carved(m, b, count), 0, b.at) && Agree(m, Carved(m, b, count), b.End(), |m|)
  {
    hide Tagged, Carved, Agree;
    CarvedLow(m, b, count);
    CarvedHigh(m, b, count);
  }

  /** The bytes after blocks l to r become one free block: the writes at the end of free, in order. */
  function Joined(m: seq<byte>, l: Block, r: Block): (res: seq<byte>)
    requires l.Payload() <= r.Tail() && r.End() <= |m| <= TWO32
    ensures |res| == |m|
  {
    if l == r then
      m[l.at + 4 := 0]
    else
      PutWord(PutWord(m[l.at + 4 := 0], l.at + 8, r.Tail() - l.Payload()), r.Tail() + 4, l.at)
  }

  lemma JoinedIsTagged(m: seq<byte>, l: Block, r: Block)
    requires Tagged(m, l) && Tagged(m, r) && |m| <= TWO32 && (l == r || l.End() <= r.at)
    ensures Tagged(Joined(m, l, r), Merged(l, r))
    ensures Agree(m, Joined(m, l, r), 0, l.at) && Agree(m, Joined(m, l, r), r.End(), |m|)
    ensures Agree(m, Joined(m, l, r), l.Payload(), r.Tail())
  {
    hide Load, Word, PutWord;
    PutByte(m, l.at + 4, 0);
  }

  /** What the allocator writes for a carve or a join never reaches a payload that stays live. */
  lemma CarveKeepsPayloads(m: seq<byte>, r: seq<byte>, bs: seq<Block>, lo: nat, hi: nat, i: nat)
    requires Tiles(bs, lo, hi) && i < |bs| && !bs[i].used && |r| == |m|
    requires Agree(m, r, 0, bs[i].at) && Agree(m, r, bs[i].End(), |m|)
    ensures PayloadsKept(m, r, bs)
  {
    forall b, k | b in bs && b.used && 0 <= k < |m| && InPayload(b, k) ensures r[k] == m[k] {
      var j :| 0 <= j < |bs| && bs[j] == b;
      if j < i { Ascending(bs, lo, hi, j, i); } else { Ascending(bs, lo, hi, i, j); }
    }
  }

  lemma JoinKeepsPayloads(m: seq<byte>, r: seq<byte>, bs: seq<Block>, lo: nat, hi: nat, l: nat, e: nat)
    requires Tiles(bs, lo, hi) && l <= e < |bs| && |r| == |m|
    requires Agree(m, r, 0, bs[l].at) && Agree(m, r, bs[l].Payload(), bs[e].Tail()) && Agree(m, r, bs[e].End(), |m|)
    ensures PayloadsKept(m, r, bs)
  {
    forall b, k | b in bs && b.used && 0 <= k < |m| && InPayload(b, k) ensures r[k] == m[k] {
      var j :| 0 <= j < |bs| && bs[j] == b;
      if j < l { Ascending(bs, lo, hi, j, l); } else { Ascending(bs, lo, hi, l, j); }
      if j < e { Ascending(bs, lo, hi, j, e); } else { Ascending(bs, lo, hi, e, j); }
    }
  }

  /** Where the header walk stands before block i: at its header, or at the zero word past the last block. */
  ghost function Boundary(bs: seq<Block>, hi: nat, i: nat): nat
    requires i <= |bs|
  {
    if i < |bs| then bs[i].at else hi
  }

  lemma AtBoundary(m: seq<byte>, bs: seq<Block>, lo: nat, hi: nat, i: nat)
    requires Represents(m, bs, lo, hi) && i <= |bs|
    ensures lo <= Boundary(bs, hi, i) <= hi && hi + 12 <= |m| <= TWO32
    ensures i < |bs| ==> Tagged(m, bs[i]) && bs[i].End() == Boundary(bs, hi, i + 1) <= hi
    ensures i == |bs| ==> Word(m, hi) == 0
    ensures i == 0 ==> Boundary(bs, hi, i) == lo && 8 <= lo && Word(m, lo - 8) == 0
    ensures i > 0 ==> Boundary(bs, hi, i) == bs[i - 1].End()
  {
    if i < |bs| {
      Ascending(bs, lo, hi, i, i);
      if i + 1 < |bs| { Ascending(bs, lo, hi, i, i + 1); }
    }
    if i > 0 {
      Ascending(bs, lo, hi, i - 1, i - 1);
      if i < |bs| { Ascending(bs, lo, hi, i - 1, i); }
    }
  }

  /** What lies just left of block l: the footer that leads to the block before, or a zero word. */
  ghost predicate LeftOf(m: seq<byte>, bs: seq<Block>, l: nat) {
    && l < |bs| && 8 <= bs[l].at <= |m| <= TWO32
    && if l == 0 then Word(m, bs[l].at - 8) == 0
       else
         && Word(m, bs[l].at - 8) == FOOTER_MAGIC && Word(m, bs[l].at - 4) == bs[l - 1].at
         && bs[l - 1].at + 8 <= |m| && Word(m, bs[l - 1].at) == HEADER_MAGIC
         && (m[bs[l - 1].at + 4] == 0 <==> !bs[l - 1].used)
  }

  lemma SeesLeft(m: seq<byte>, bs: seq<Block>, lo: nat, hi: nat, l: nat)
    requires Represents(m, bs, lo, hi) && l < |bs|
    ensures LeftOf(m, bs, l)
  {
    hide Word, Represents;
    AtBoundary(m, bs, lo, hi, l);
    if l > 0 { AtBoundary(m, bs, lo, hi, l - 1); }
  }

  /** The bytes an allocation from block b leaves. */
  function Allocated(m: seq<byte>, b: Block, count: u32): seq<byte>
    requires Fits(b, count) && b.End() <= |m| <= TWO32
  {
    if b.size > count + TAGS then Carved(m, b, count) else m[b.at + 4 := 1]
  }

  lemma AllocationRepresents(m: seq<byte>, bs: seq<Block>, lo: nat, hi: nat, count: u32, i: nat)
    requires Represents(m, bs, lo, hi) && i == FirstFit(bs, count) < |bs| && bs[i].End() <= |m| <= TWO32
    ensures Represents(Allocated(m, bs[i], count), AfterAllocate(bs, count), lo, hi)
    ensures Contained(m, Allocated(m, bs[i], count), bs, lo, hi)
  {
    hide Load, Word, PutWord, Tagged, Carved;
    var b, r := bs[i], Allocated(m, bs[i], count);
    assert Agree(m, r, 0, b.at) && Agree(m, r, b.End(), |m|) && forall c | c in Carve(b, count) :: Tagged(r, c) by {
      if b.size > count + TAGS {
        CarvedIsTagged(m, b, count);
      } else {
        UsedIsTagged(m, b);
      }
    }
    AllocateKeeps(bs, lo, hi, count);
    RetagReplaced(m, r, bs, lo, hi, i, i + 1, Carve(b, count));
    CarveKeepsPayloads(m, r, bs, lo, hi, i);
    Ascending(bs, lo, hi, i, i);
  }

  lemma UsedIsTagged(m: seq<byte>, b: Block)
    requires Tagged(m, b)
    ensures Tagged(m[b.at + 4 := 1], b.(used := true))
  {
    hide Word;
    PutByte(m, b.at + 4, 1);
  }

  lemma SameBlock(m: seq<byte>, bs: seq<Block>, lo: nat, hi: nat, l: nat, i: nat, r: nat)
    requires Represents(m, bs, lo, hi) && l <= i <= r < |bs|
    ensures bs[l].at == bs[r].at ==> l == i == r
    ensures Tagged(m, bs[l]) && Tagged(m, bs[r]) && (bs[l] == bs[r] || bs[l].End() <= bs[r].at)
  {
    Ascending(bs, lo, hi, l, r);
  }

  lemma FreeIsDefined(m: seq<byte>, bs: seq<Block>, lo: nat, hi: nat)
    requires Represents(m, bs, lo, hi)
    ensures Tiles(bs, lo, hi)
  {
  }

  lemma JoinRepresents(m: seq<byte>, bs: seq<Block>, lo: nat, hi: nat, i: nat)
    requires Represents(m, bs, lo, hi) && i < |bs|
    ensures var l, r := bs[Leftmost(bs, i)], bs[Rightmost(bs, i)];
      && l.Payload() <= r.Tail() && r.End() <= |m| <= TWO32
      && Represents(Joined(m, l, r), AfterFree(bs, i), lo, hi)
      && Contained(m, Joined(m, l, r), bs, lo, hi)
  {
    hide Load, Word, PutWord, Tagged, Joined;
    var l, e := Leftmost(bs, i), Rightmost(bs, i);
    Ascending(bs, lo, hi, l, e);
    assert bs[e].End() <= |m|;
    assert Tagged(m, bs[l]) && Tagged(m, bs[e]);
    JoinedIsTagged(m, bs[l], bs[e]);
    FreeKeeps(bs, lo, hi, i);
    RetagReplaced(m, Joined(m, bs[l], bs[e]), bs, lo, hi, l, e + 1, [Merged(bs[l], bs[e])]);
    JoinKeepsPayloads(m, Joined(m, bs[l], bs[e]), bs, lo, hi, l, e);
  }

  /** The writes of the constructor that make [lo, hi) one free block. */
  function Formatted(m: seq<byte>, b: Block): (r: seq<byte>)
    requires b.End() <= |m| <= TWO32
    ensures |r| == |m|
  {
    var m1 := PutWord(m, b.at, HEADER_MAGIC)[b.at + 4 := 0];
    PutWord(PutWord(PutWord(m1, b.at + 8, b.size), b.Tail(), FOOTER_MAGIC), b.Tail() + 4, b.at)
  }

  lemma FormattedRepresents(m: seq<byte>, b: Block)
    requires 8 <= b.at && b.End() + 12 <= |m| <= TWO32 && !b.used
    requires Sentinels(m, b.at, b.End())
    ensures Represents(Formatted(m, b), [b], b.at, b.End())
    ensures Agree(m, Formatted(m, b), 0, b.at) && Agree(m, Formatted(m, b), b.End(), |m|)
  {
    hide Load, Word, PutWord;
    PutByte(PutWord(m, b.at, HEADER_MAGIC), b.at + 4, 0);
    assert Tiles([b][1..], b.End(), b.End());
  }

  lemma ZeroWords(m: seq<byte>, p: nat, n: nat)
    requires p + 4 * n <= |m| && forall k | p <= k < p + 4 * n :: m[k] == 0
    ensures forall q: nat {:trigger Word(m, q)} | p <= q && q + 4 <= p + 4 * n :: Word(m, q) == 0
  {
  }

  /** heap::heap, heap::allocate and heap::free over the kernel's memory. */
  class Heap {
    const ram: array<byte>
    var address: u32
    var size: u32
    ghost var blocks: seq<Block>

    ghost predicate Valid()
      reads this, ram
    {
      Represents(ram[..], blocks, address, address + size)
    }

    /** Makes [p, p + n) of the memory a heap with a single free block. */
    constructor (ram: array<byte>, p: u32, n: u32)
      requires 40 <= n && p + n <= ram.Length <= TWO32
      modifies ram
      ensures Valid() && this.ram == ram
      ensures address == p + FOOTER && size == n - TAGS
      ensures blocks == [Block(address, size - TAGS, false)]
      ensures Agree(old(ram[..]), ram[..], 0, p) && Agree(old(ram[..]), ram[..], p + n, ram.Length)
    {
      hide Represents, Agree;
      this.ram := ram;
      address := p + 8;
      size := n - 20;
      blocks := [Block(p + 8, n - 40, false)];
      new;
      Lay(ram, p, n);
    }

    /** The payload of the lowest free block that fits, or 0. */
    method Allocate(count: u32) returns (p: u32)
      requires Valid()
      modifies this`blocks, ram
      ensures Valid()
      ensures blocks == AfterAllocate(old(blocks), count)
      ensures p == (var i := FirstFit(old(blocks), count); if i < |old(blocks)| then old(blocks)[i].Payload() else 0)
      ensures p == 0 ==> ram[..] == old(ram[..])
      ensures p == 0 ==> forall b | b in blocks :: b.used || b.size < count
      ensures p != 0 ==> exists i: nat :: Granted(old(blocks), blocks, count, i, p)
      ensures Contained(old(ram[..]), ram[..], old(blocks), address, address + size)
    {
      hide Load, Word, PutWord, Represents, Carve, Allocated, Contained, Granted;
      AllocateServes(blocks, count);
      ghost var m := ram[..];
      NothingMoved(m, blocks, address, address + size);
      ghost var i := FirstFit(blocks, count);
      var curr := FindFit(count);
      AtBoundary(m, blocks, address, address + size, i);
      p := 0;
      if Load(ram, curr) != HEADER_MAGIC {
        return;
      }
      AllocationRepresents(m, blocks, address, address + size, count, i);
      p := Occupy(ram, curr, count, blocks[i]);
      blocks := AfterAllocate(blocks, count);
    }

    /** The walk of allocate: the header of the first block that fits, or the zero word after the last. */
    method FindFit(count: u32) returns (curr: u32)
      requires Valid()
      ensures curr == Boundary(blocks, address + size, FirstFit(blocks, count))
    {
      hide Load, Word, Represents;
      ghost var hi := address + size;
      curr := address;
      ghost var i := 0;
      AtBoundary(ram[..], blocks, address, hi, i);
      while Load(ram, curr) == HEADER_MAGIC && (Load(ram, curr + 8) < count || ram[curr + 4] != 0)
        invariant i <= |blocks| && curr == Boundary(blocks, hi, i) <= hi && hi + 12 <= ram.Length
        invariant forall j | 0 <= j < i :: !Fits(blocks[j], count)
        decreases |blocks| - i
      {
        AtBoundary(ram[..], blocks, address, hi, i);
        curr := curr + 12 + Load(ram, curr + 8) + 8;
        i := i + 1;
        AtBoundary(ram[..], blocks, address, hi, i);
      }
      AtBoundary(ram[..], blocks, address, hi, i);
    }

    /** Gives a block back and merges it with its free neighbours; an address with no header before it is left alone. */
    method Free(p: u32)
      requires Valid()
      requires 12 <= p <= ram.Length
      requires Load(ram, p - 12) == HEADER_MAGIC ==> exists b | b in blocks :: b.Payload() == p
      modifies this`blocks, ram
      ensures Valid()
      ensures old(Load(ram, p - 12)) != HEADER_MAGIC ==> blocks == old(blocks) && ram[..] == old(ram[..])
      ensures old(Load(ram, p - 12)) == HEADER_MAGIC ==>
        BlockAt(old(blocks), p) < |old(blocks)| && blocks == AfterFree(old(blocks), BlockAt(old(blocks), p))
      ensures Contained(old(ram[..]), ram[..], old(blocks), address, address + size)
    {
      hide Load, Word, PutWord, Represents, Joined, Tagged, Tiles, Contained, Leftmost, Rightmost, AfterFree, BlockAt;
      ghost var m := ram[..];
      NothingMoved(m, blocks, address, address + size);
      var curr: u32 := p - 12;
      if Load(ram, curr) != HEADER_MAGIC {
        return;
      }
      ghost var i := BlockAt(blocks, p);
      FreeIsDefined(m, blocks, address, address + size);
      var left := LeftmostHeader(curr, i);
      var right := RightmostHeader(curr, i);
      JoinRepresents(m, blocks, address, address + size, i);
      AtBoundary(m, blocks, address, address + size, Rightmost(blocks, i));
      SameBlock(m, blocks, address, address + size, Leftmost(blocks, i), i, Rightmost(blocks, i));
      Join(ram, curr, left, right, blocks[Leftmost(blocks, i)], blocks[i], blocks[Rightmost(blocks, i)]);
      blocks := AfterFree(blocks, i);
    }

    /** The first loop of free. */
    method LeftmostHeader(curr: u32, ghost i: nat) returns (left: u32)
      requires Valid() && i < |blocks| && curr == blocks[i].at
      ensures left == blocks[Leftmost(blocks, i)].at
    {
      hide Load, Word, Represents;
      ghost var hi := address + size;
      left := curr;
      ghost var l := i;
      SeesLeft(ram[..], blocks, address, hi, l);
      while Load(ram, left - 8) == FOOTER_MAGIC
        && Load(ram, Load(ram, left - 4)) == HEADER_MAGIC && ram[Load(ram, left - 4) + 4] == 0
        invariant 0 <= l <= i && left == blocks[l].at && Leftmost(blocks, i) == Leftmost(blocks, l)
        invariant LeftOf(ram[..], blocks, l)
        decreases l
      {
        left := Load(ram, left - 4);
        l := l - 1;
        SeesLeft(ram[..], blocks, address, hi, l);
      }
    }

    /** The second loop of free. */
    method RightmostHeader(curr: u32, ghost i: nat) returns (right: u32)
      requires Valid() && i < |blocks| && curr == blocks[i].at
      ensures right == blocks[Rightmost(blocks, i)].at
    {
      hide Load, Word, Represents;
      ghost var hi := address + size;
      right := curr;
      ghost var r := i;
      AtBoundary(ram[..], blocks, address, hi, r);
      while true
        invariant i <= r < |blocks| && right == blocks[r].at && Rightmost(blocks, i) == Rightmost(blocks, r)
        invariant Tagged(ram[..], blocks[r]) && blocks[r].End() <= hi && hi + 12 <= ram.Length <= TWO32
        decreases |blocks| - r
      {
        AtBoundary(ram[..], blocks, address, hi, r);
        AtBoundary(ram[..], blocks, address, hi, r + 1);
        var rightHeader: u32 := right + 12 + Load(ram, right + 8) + 8;
        if Load(ram, rightHeader) == HEADER_MAGIC && ram[rightHeader + 4] == 0 {
          right := rightHeader;
          r := r + 1;
        } else {
          break;
        }
      }
    }

    /** One client request: the bytes follow the block sequence, so a run of requests follows its trace. */
    method Serve(q: Request)
      requires Valid()
      requires Legal(blocks, q)
      requires q.Allocate? ==> q.count < TWO32
      modifies this`blocks, ram
      ensures Valid()
      ensures ByteStep(HeapState(old(ram[..]), old(blocks)), q, HeapState(ram[..], blocks), address, address + size)
    {
      hide Represents, WellFormed, Word, Load, PutWord, InPayload, Contained, AfterAllocate, AfterFree, Tiles;
      ghost var m := ram[..];
      match q
      case Allocate(n) =>
        var _ := Allocate(n);
      case Free(p) =>
        LiveHeader(m, blocks, address, address + size, p);
        Free(p);
      case Write(a, v) =>
        WriteInside(m, blocks, address, address + size, a, v);
        StoreByte(ram, a, v);
    }
  }

  // ----- runs over the bytes

  datatype HeapState = HeapState(memory: seq<byte>, blocks: seq<Block>)

  /** One request: the blocks step, the bytes represent them, and live payloads change by client writes only. */
  ghost predicate ByteStep(s: HeapState, q: Request, t: HeapState, lo: nat, hi: nat) {
    && Step(s.blocks, q, t.blocks, lo, hi) && Represents(t.memory, t.blocks, lo, hi)
    && match q
       case Write(a, v) => a < |s.memory| && v < 256 && t.memory == s.memory[a := v]
       case _ => Contained(s.memory, t.memory, s.blocks, lo, hi)
  }

  ghost predicate ByteRuns(trace: seq<HeapState>, qs: seq<Request>, lo: nat, hi: nat) {
    && |trace| == |qs| + 1
    && forall k | 0 <= k < |qs| :: ByteStep(trace[k], qs[k], trace[k + 1], lo, hi)
  }

  /** A live block stays, and a byte of its payload keeps its value, unless it is freed or the byte is written. */
  lemma ByteKept(s: HeapState, q: Request, t: HeapState, lo: nat, hi: nat, b: Block, a: nat)
    requires Represents(s.memory, s.blocks, lo, hi) && ByteStep(s, q, t, lo, hi)
    requires b in s.blocks && b.used && InPayload(b, a)
    requires q != Request.Free(b.Payload()) && !(q.Write? && q.address == a)
    ensures b in t.blocks && a < |s.memory| && |t.memory| == |s.memory| && t.memory[a] == s.memory[a]
  {
    hide Word, Tiles, Coalesced, Sentinels;
    assert Tagged(s.memory, b);
    hide Tagged;
    match q
    case Allocate(n) => AllocateKeepsBlock(s.blocks, n, b);
    case Free(p) => FreeKeepsBlock(s.blocks, p, b);
    case Write(_, _) =>
  }

  lemma AllocateKeepsBlock(bs: seq<Block>, count: nat, b: Block)
    requires b in bs && b.used
    ensures b in AfterAllocate(bs, count)
  {
    var i := FirstFit(bs, count);
    if i < |bs| {
      var j :| 0 <= j < |bs| && bs[j] == b;
      if j < i { assert b in bs[..i]; } else { assert b in bs[i + 1..]; }
    }
  }

  lemma FreeKeepsBlock(bs: seq<Block>, p: nat, b: Block)
    requires (exists lo, hi :: Tiles(bs, lo, hi)) && p in Live(bs)
    requires b in bs && b.used && b.Payload() != p
    ensures BlockAt(bs, p) < |bs| && b in AfterFree(bs, BlockAt(bs, p))
  {
    var i := BlockAt(bs, p);
    var l, r := Leftmost(bs, i), Rightmost(bs, i);
    var j :| 0 <= j < |bs| && bs[j] == b;
    if j < l {
      assert b in bs[..l];
    } else {
      assert j > r;
      assert b in bs[r + 1..];
    }
  }

  /**
    Clients read back what they wrote: whatever else is allocated, freed and written in between, a byte of a live
    payload has the value last written to it.
   */
  lemma {:induction false} ReadBack(
      trace: seq<HeapState>, qs: seq<Request>, lo: nat, hi: nat, b: Block, a: nat, i: nat, j: nat)
    requires ByteRuns(trace, qs, lo, hi) && Represents(trace[0].memory, trace[0].blocks, lo, hi)
    requires i < j <= |qs| && qs[i].Write? && qs[i].address == a
    requires b in trace[i].blocks && b.used && InPayload(b, a)
    requires forall k | i < k < j :: qs[k] != Request.Free(b.Payload()) && !(qs[k].Write? && qs[k].address == a)
    ensures b in trace[j].blocks && a < |trace[j].memory| && trace[j].memory[a] == qs[i].value
    decreases j
  {
    hide Represents, Step, Contained, InPayload;
    if j == i + 1 {
      assert ByteStep(trace[i], qs[i], trace[j], lo, hi);
      WriteKeepsBlocks(trace, qs, lo, hi, i);
    } else {
      ReadBack(trace, qs, lo, hi, b, a, i, j - 1);
      assert ByteStep(trace[j - 2], qs[j - 2], trace[j - 1], lo, hi);
      assert ByteStep(trace[j - 1], qs[j - 1], trace[j], lo, hi);
      ByteKept(trace[j - 1], qs[j - 1], trace[j], lo, hi, b, a);
    }
  }

  lemma WriteKeepsBlocks(trace: seq<HeapState>, qs: seq<Request>, lo: nat, hi: nat, i: nat)
    requires ByteRuns(trace, qs, lo, hi) && Represents(trace[0].memory, trace[0].blocks, lo, hi)
    requires i < |qs| && qs[i].Write?
    ensures trace[i + 1].blocks == trace[i].blocks
  {
    hide Contained, Tiles, Coalesced, Sentinels, Tagged;
    assert ByteStep(trace[i], qs[i], trace[i + 1], lo, hi);
    if i > 0 { assert ByteStep(trace[i - 1], qs[i - 1], trace[i], lo, hi); }
  }

  // ----- the writes of the three operations

  /** The constructor's writes. */
  method Lay(ram: array<byte>, p: u32, n: u32)
    requires 40 <= n && p + n <= ram.Length <= TWO32
    modifies ram
    ensures Represents(ram[..], [Block(p + 8, n - 40, false)], p + 8, p + n - 12)
    ensures Agree(old(ram[..]), ram[..], 0, p) && Agree(old(ram[..]), ram[..], p + n, ram.Length)
  {
    hide Load, Word, PutWord, Represents, Formatted;
    Pad(ram, p, n);
    FormattedRepresents(ram[..], Block(p + 8, n - 40, false));
    Format(ram, p + 8, n - 20);
  }

  /** The constructor's zero padding. */
  method Pad(ram: array<byte>, p: u32, n: u32)
    requires 20 <= n && p + n <= ram.Length <= TWO32
    modifies ram
    ensures Sentinels(ram[..], p + 8, p + n - 12)
    ensures Agree(old(ram[..]), ram[..], 0, p) && Agree(old(ram[..]), ram[..], p + n, ram.Length)
  {
    hide Word;
    Buffers.MemorySet(ram, p, 0, 8);
    Buffers.MemorySet(ram, p + n - 12, 0, 12);
    ZeroWords(ram[..], p, 2);
    ZeroWords(ram[..], p + n - 12, 3);
  }

  /** The constructor's first header and first footer. */
  method Format(ram: array<byte>, address: u32, size: u32)
    requires 20 <= size && address + size <= ram.Length <= TWO32
    modifies ram
    ensures ram[..] == Formatted(old(ram[..]), Block(address, size - 20, false))
  {
    hide Load, Word, PutWord;
    var firstFooter: u32 := address + size - 8;
    Store(ram, address, HEADER_MAGIC);
    StoreByte(ram, address + 4, 0);
    Store(ram, address + 8, size - 20);
    Store(ram, firstFooter, FOOTER_MAGIC);
    Store(ram, firstFooter + 4, address);
  }

  /** The part of allocate after its walk; the footer of a block that was found is never wrong. */
  method Occupy(ram: array<byte>, curr: u32, count: u32, ghost b: Block) returns (p: u32)
    requires Tagged(ram[..], b) && b.End() < ram.Length <= TWO32 && curr == b.at && Fits(b, count)
    modifies ram
    ensures ram[..] == Allocated(old(ram[..]), b, count) && p == b.Payload()
  {
    hide Load, Word, PutWord, Carved;
    p := 0;
    var currFooter: u32 := curr + 12 + Load(ram, curr + 8);
    if Load(ram, currFooter) != FOOTER_MAGIC || Load(ram, currFooter + 4) != curr {
      assert false;
      return;
    }
    // The walk stopped here, so count is at most the size and this sum cannot wrap.
    var needed: u32 := count + 12 + 8;
    if Load(ram, curr + 8) > needed {
      Split(ram, curr, count, b);
    } else {
      StoreByte(ram, curr + 4, 1);
    }
    p := curr + 12;
  }

  /** The splitting branch of allocate. */
  method Split(ram: array<byte>, curr: u32, count: u32, ghost b: Block)
    requires Tagged(ram[..], b) && ram.Length <= TWO32 && curr == b.at
    requires Fits(b, count) && b.size > count + TAGS
    modifies ram
    ensures ram[..] == Carved(old(ram[..]), b, count)
    ensures forall c | c in Carve(b, count) :: Tagged(ram[..], c)
    ensures Agree(old(ram[..]), ram[..], 0, b.at) && Agree(old(ram[..]), ram[..], b.End(), ram.Length)
  {
    hide Load, Word, PutWord, Carve, Agree;
    CarvedIsTagged(ram[..], b, count);
    var oldSize := Load(ram, curr + 8);
    var currFooter: u32 := curr + 12 + oldSize;
    var newFooter: u32 := curr + 12 + count;
    Store(ram, curr + 8, count);
    StoreByte(ram, curr + 4, 1);
    Store(ram, newFooter, FOOTER_MAGIC);
    Store(ram, newFooter + 4, curr);
    var newHeader: u32 := curr + 12 + count + 8;
    Store(ram, newHeader, HEADER_MAGIC);
    StoreByte(ram, newHeader + 4, 0);
    Store(ram, newHeader + 8, oldSize - count - 12 - 8);
    Store(ram, currFooter + 4, newHeader);
  }

  /** The last branch of free. */
  method Join(ram: array<byte>, curr: u32, left: u32, right: u32, ghost l: Block, ghost b: Block, ghost r: Block)
    requires Tagged(ram[..], l) && Tagged(ram[..], r) && (l == r || l.End() <= r.at) && ram.Length <= TWO32
    requires curr == b.at && left == l.at && right == r.at && (left == right ==> l == b == r)
    modifies ram
    ensures ram[..] == Joined(old(ram[..]), l, r) && Tagged(ram[..], Merged(l, r))
    ensures Agree(old(ram[..]), ram[..], 0, l.at) && Agree(old(ram[..]), ram[..], r.End(), ram.Length)
  {
    hide Load, Word, PutWord, Agree;
    JoinedIsTagged(ram[..], l, r);
    if left == right {
      StoreByte(ram, curr + 4, 0);
    } else {
      var rightFooter: u32 := right + 12 + Load(ram, right + 8);
      StoreByte(ram, left + 4, 0);
      Store(ram, left + 8, rightFooter - left - 12);
      Store(ram, rightFooter + 4, left);
    }
  }
}
