/** map_physical, get_physical and the kernel's table-filling loops over physical memory. */
module Paging {
  import opened Machine
  import opened Bits
  import opened Pages
  import opened PageRuns
  import opened BlockAllocator
  import Blocks

  method Put(ram: array<u32>, g: page, j: nat, e: u32)
    requires ram.Length == 0x4000_0000 && j < 1024
    modifies ram
    ensures ram[..] == PutEntry(old(ram[..]), g, j, e)
  {
    ram[g * 1024 + j] := e;
  }

  function Get(ram: array<u32>, g: page, j: nat): (e: u32)
    requires ram.Length == 0x4000_0000 && j < 1024
    reads ram
    ensures e == Entry(ram[..], g, j)
  {
    ram[g * 1024 + j]
  }

  lemma SameEntries(m: Ram, r: Ram)
    requires forall h: page, k: nat | k < 1024 :: Entry(r, h, k) == Entry(m, h, k)
    ensures r == m
  {
    forall x | 0 <= x < |m| ensures r[x] == m[x] {
      assert Entry(r, x / 1024, x % 1024) == Entry(m, x / 1024, x % 1024);
    }
  }

  /** clone_page_table */
  method ClonePageTable(ram: array<u32>, src: page, dst: page)
    requires ram.Length == 0x4000_0000
    modifies ram
    ensures ram[..] == CopyPage(old(ram[..]), src, dst)
  {
    hide Entry, PutEntry, CopyPage;
    ghost var m := ram[..];
    for j := 0 to 1024
      invariant forall h: page, k: nat | k < 1024 ::
        Entry(ram[..], h, k) == if h == dst && k < j then Entry(m, src, k) else Entry(m, h, k)
    {
      Put(ram, dst, j, Get(ram, src, j));
    }
    SameEntries(CopyPage(m, src, dst), ram[..]);
  }

  /** get_physical: the frame of the page, and the offset kept. */
  function GetPhysical(ram: array<u32>, dir: page, v: u32): (p: u32)
    requires ram.Length == 0x4000_0000
    reads ram
    ensures p == PageOf(ram[..], dir, VPage(v)) * 4096 + Offset(v)
  {
    TranslateByPage(ram[..], dir, v);
    Frame(Get(ram, Frame(Get(ram, dir, v / 0x40_0000)), v % 0x40_0000 / 4096)) * 4096 + v % 4096
  }

  /** Off page d, the page of the block marks, m and r agree. */
  ghost predicate SameBut(m: Ram, r: Ram, d: page) {
    forall h: page, j: nat | h != d && j < 1024 :: Entry(r, h, j) == Entry(m, h, j)
  }

  lemma MarksSameBut(m: Ram, r: Ram, d: page, total: nat)
    requires Elsewhere(m, r, d * 1024, total) && total <= 32768
    ensures SameBut(m, r, d)
  {
  }

  lemma PutSameBut(m: Ram, r: Ram, d: page, g: page, j: nat, e: u32)
    requires SameBut(m, r, d) && j < 1024
    ensures SameBut(PutEntry(m, g, j, e), PutEntry(r, g, j, e), d)
  {
    hide Entry;
  }

  lemma CopySameBut(m: Ram, r: Ram, d: page, src: page, dst: page)
    requires SameBut(m, r, d) && src != d
    ensures SameBut(CopyPage(m, src, dst), CopyPage(r, src, dst), d)
  {
    hide Entry;
  }

  /** A change that spares page d spares the marks on it. */
  lemma MarksStay(mem: Memory, m: Ram, r: Ram)
    requires mem.Valid() && 0 < mem.dataBlockCount <= 32768
    requires forall j: nat | j < 1024 :: Entry(r, mem.dataPage, j) == Entry(m, mem.dataPage, j)
    ensures mem.BitsIn(r) == mem.BitsIn(m)
  {
    BlockZeroInsulates(mem.dataPage, mem.dataBlockCount);
    var d := mem.dataPage;
    assert forall k | d * 1024 <= k < d * 1024 + 1024 :: r[k] == m[k] by {
      forall k | d * 1024 <= k < d * 1024 + 1024 ensures r[k] == m[k] {
        assert Entry(r, d, k - d * 1024) == Entry(m, d, k - d * 1024);
      }
    }
    assert SameBlockZero(m, r, d);
  }

  /** Neither the directories nor the tables at entry i lie on page d. */
  predicate Clear(m: Ram, dir: page, tmpl: page, i: nat, d: nat)
    requires i < 1024
  {
    dir != d && tmpl != d && Frame(Entry(m, dir, i)) != d && Frame(Entry(m, tmpl, i)) != d
  }

  /** The page for a new table, or page 0 when there was none, is not the page of the marks. */
  lemma ClearFrame(mem: Memory, st: Blocks.State, clone: u32, flags: u32)
    requires mem.Valid() && 0 in st.used && Blocks.WellFormed(st, mem.dataBlockCount) && flags < 4096
    requires clone == match Blocks.Outcome(st, mem.dataBlockCount, 1)
      case Some(f) => (mem.dataPage + f) * 4096
      case None => 0
    ensures Frame(clone) != mem.dataPage && Frame(Or32(clone, flags)) != mem.dataPage
  {
    Blocks.RequestMarksItsRun(st, mem.dataBlockCount, 1);
    OrFlags(clone, flags);
  }

  /**
    map_physical: returns the address of the page table it had to create, or 0. With no more data blocks than
    bits in a page, the marks of used blocks change by that table's block only.
   */
  method MapPhysical(dir: page, tmpl: page, v: u32, p: u32, flags: u32, mem: Memory) returns (clone: u32)
    requires mem.Valid() && mem.dataBlockCount <= 32768 && 0 in mem.Used() && flags < 4096
    requires Clear(mem.ram[..], dir, tmpl, DirIndex(VPage(v)), mem.dataPage)
    modifies mem.ram, mem`usedBlocks, mem`cursor
    ensures mem.Valid()
    ensures SameBut(Mapped(old(mem.ram[..]), dir, tmpl, VPage(v), p, flags, clone), mem.ram[..], mem.dataPage)
    ensures old(Shared(mem.ram[..], dir, tmpl, DirIndex(VPage(v)))) ==>
      && mem.Now() == Blocks.AfterRequest(old(mem.Now()), mem.dataBlockCount, 1)
      && clone == (match Blocks.Outcome(old(mem.Now()), mem.dataBlockCount, 1)
         case Some(f) => (mem.dataPage + f) * 4096
         case None => 0)
    ensures !old(Shared(mem.ram[..], dir, tmpl, DirIndex(VPage(v)))) ==> mem.Now() == old(mem.Now()) && clone == 0
    ensures old(mem.Counted()) ==> mem.Counted()
  {
    hide Entry, PutEntry, CopyPage, Or32, Marked, Blocks.Outcome, Blocks.AfterRequest, Frame;
    var directoryFrame := v / 0x40_0000;
    var tableFrame := v % 0x40_0000 / 4096;
    assert directoryFrame == DirIndex(VPage(v)) && tableFrame == TableIndex(VPage(v));
    ghost var m, before, d := mem.ram[..], mem.ram[..], mem.dataPage;
    ghost var st := mem.Now();
    clone := 0;
    if Get(mem.ram, dir, directoryFrame) == Get(mem.ram, tmpl, directoryFrame) {
      clone := mem.AllocateBlocks(1);
      MarksSameBut(m, mem.ram[..], d, mem.dataBlockCount);
      before := mem.ram[..];
      CopySameBut(m, before, d, Frame(Get(mem.ram, tmpl, directoryFrame)), Frame(clone));
      ClonePageTable(mem.ram, Frame(Get(mem.ram, tmpl, directoryFrame)), Frame(clone));
      ClearFrame(mem, st, clone, flags);
      Put(mem.ram, dir, directoryFrame, Or32(clone, flags));
    } else {
      OrFlags(Get(mem.ram, dir, directoryFrame), flags);
      Put(mem.ram, dir, directoryFrame, Or32(Get(mem.ram, dir, directoryFrame), flags));
    }
    Put(mem.ram, Frame(Get(mem.ram, dir, directoryFrame)), tableFrame, Or32(p, flags));
    MarksStay(mem, before, mem.ram[..]);
  }

  // ----- the kernel's own tables

  function Flags(i: nat, low: u32, high: u32): u32 { if i < 2 then low else high }

  /** Table i maps to itself the 4 MB it stands for, and directory entry i leads to it. */
  ghost predicate Filled(m: Ram, dir: page, tables: page, low: u32, high: u32) {
    && tables + 1024 <= 0x10_0000
    && (forall h: page, j: nat | tables <= h < tables + 1024 && j < 1024 ::
         Entry(m, h, j) == Or32(((h - tables) * 1024 + j) * 4096, Flags(h - tables, low, high)))
    && (forall i: nat | i < 1024 :: Entry(m, dir, i) == Or32((tables + i) * 4096, Flags(i, low, high)))
  }

  /** The loops that fill the identity tables (low = high) and the user template (user pages above 8 MB). */
  method FillTables(ram: array<u32>, dir: page, tables: page, low: u32, high: u32)
    requires ram.Length == 0x4000_0000 && tables + 1024 <= 0x10_0000 && !(tables <= dir < tables + 1024)
    modifies ram
    ensures Filled(ram[..], dir, tables, low, high)
    ensures forall h: page, j: nat | j < 1024 && h != dir && !(tables <= h < tables + 1024) ::
      Entry(ram[..], h, j) == Entry(old(ram[..]), h, j)
  {
    hide Entry, PutEntry, Or32;
    ghost var m := ram[..];
    for i := 0 to 1024
      invariant forall h: page, j: nat | tables <= h < tables + i && j < 1024 ::
        Entry(ram[..], h, j) == Or32(((h - tables) * 1024 + j) * 4096, Flags(h - tables, low, high))
      invariant forall k: nat | k < i :: Entry(ram[..], dir, k) == Or32((tables + k) * 4096, Flags(k, low, high))
      invariant forall h: page, j: nat | j < 1024 && h != dir && !(tables <= h < tables + 1024) ::
        Entry(ram[..], h, j) == Entry(m, h, j)
    {
      ghost var before := ram[..];
      for j := 0 to 1024
        invariant forall h: page, k: nat | h == tables + i && k < j ::
          Entry(ram[..], h, k) == Or32((i * 1024 + k) * 4096, Flags(i, low, high))
        invariant forall h: page, k: nat | k < 1024 && h != tables + i :: Entry(ram[..], h, k) == Entry(before, h, k)
      {
        Put(ram, tables + i, j, Or32((i * 1024 + j) * 4096, if i < 2 then low else high));
      }
      Put(ram, dir, i, Or32((tables + i) * 4096, if i < 2 then low else high));
    }
  }

  ghost function TemplateRoles(dir: page, tables: page): map<page, Role> {
    map g: page | g in {dir} + Blocks.Range(tables, 1024) ::
      if g == dir then TemplateDirectory else TemplateTable(g - tables)
  }

  /** The filled template is the identity on all of memory, with every table in its own page. */
  lemma FilledIsIdentity(m: Ram, dir: page, tables: page, low: u32, high: u32)
    requires Filled(m, dir, tables, low, high) && low < 4096 && high < 4096 && !(tables <= dir < tables + 1024)
    ensures Sees(m, dir, map[])
    ensures World(m, dir, {}, TemplateRoles(dir, tables))
  {
    hide Entry, Or32;
    forall i: nat | i < 1024 ensures Frame(Entry(m, dir, i)) == tables + i {
      OrFlags((tables + i) * 4096, Flags(i, low, high));
    }
    forall w: page ensures PageOf(m, dir, w) == w {
      OrFlags(w * 4096, Flags(DirIndex(w), low, high));
      assert w == DirIndex(w) * 1024 + TableIndex(w);
    }
  }
}
