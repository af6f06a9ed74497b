/** The kernel's memory: the block allocator, physical memory and the page tables in it, and who holds what. */
module Kernels {
  import opened Machine
  import opened Bits
  import opened Pages
  import opened PageRuns
  import opened BlockAllocator
  import opened Paging
  import opened Ownership
  import opened Stores
  import Blocks
  import opened Protection

  /** The pages of the used blocks. */
  ghost function UsedPages(first: nat, used: set<nat>, total: nat): (s: set<page>)
    requires first + total <= 0x10_0000 && forall b | b in used :: b < total
    ensures forall g: page :: g in s <==> first <= g && g - first in used
  {
    set b | b in used :: first + b
  }

  /** A request that can be served takes count pages none of which was in use. */
  lemma ServedPages(first: nat, total: nat, st: Blocks.State, count: nat, rest: seq<nat>) returns (f: nat)
    requires first + total <= 0x10_0000 && Blocks.WellFormed(st, total) && 0 in st.used && count > 0
    requires Blocks.CanServe(st, total, [count] + rest)
    ensures Blocks.Outcome(st, total, count) == Some(f) && 0 < f && f + count <= total
    ensures var after := Blocks.AfterRequest(st, total, count);
      && Blocks.WellFormed(after, total) && 0 in after.used && Blocks.CanServe(after, total, rest)
      && UsedPages(first, after.used, total) == UsedPages(first, st.used, total) + PageRange(first + f, count)
    ensures UsedPages(first, st.used, total) !! PageRange(first + f, count)
  {
    assert ([count] + rest)[1..] == rest;
    Blocks.RequestMarksItsRun(st, total, count);
    f := Blocks.Outcome(st, total, count).value;
  }

  /** The bitmap fits into data block 0, and no other writes reach it there. */
  ghost predicate Shielded(memory: Memory)
    reads memory, memory.ram
  {
    memory.Valid() && 0 in memory.Used() && memory.dataBlockCount <= 32768
  }

  lemma ShieldedPage(memory: Memory)
    requires Shielded(memory)
    ensures 0 < memory.dataPage < 0x10_0000 && memory.dataPage in InUse(memory)
  {
  }

  ghost function InUse(memory: Memory): set<page>
    requires memory.Valid()
    reads memory, memory.ram
  {
    UsedPages(memory.dataPage, memory.Used(), memory.dataBlockCount)
  }

  lemma SameButTwice(m: Ram, r: Ram, s: Ram, d: page)
    requires SameBut(m, r, d) && SameBut(r, s, d)
    ensures SameBut(m, s, d)
  {
    hide Entry;
  }

  /** allocate_blocks(count) when it succeeds, by page number; only the marks of blocks change in memory. */
  method AllocatePages(memory: Memory, count: u32, ghost rest: seq<nat>) returns (g: page)
    requires Shielded(memory) && count > 0
    requires Blocks.CanServe(memory.Now(), memory.dataBlockCount, [count] + rest)
    modifies memory`usedBlocks, memory`cursor, memory.ram
    ensures Shielded(memory) && SameBut(old(memory.ram[..]), memory.ram[..], memory.dataPage)
    ensures Blocks.CanServe(memory.Now(), memory.dataBlockCount, rest)
    ensures 0 < g && g + count <= 0x10_0000
    ensures InUse(memory) == old(InUse(memory)) + PageRange(g, count) && old(InUse(memory)) !! PageRange(g, count)
    ensures old(memory.Counted()) ==> memory.Counted()
  {
    hide Marked, Blocks.Outcome, Blocks.AfterRequest, Blocks.CanServe, UsedPages, PageRange, Frame, Elsewhere, SameBut;
    ghost var m := memory.ram[..];
    ShieldedPage(memory);
    ghost var f := ServedPages(memory.dataPage, memory.dataBlockCount, memory.Now(), count, rest);
    var p := memory.AllocateBlocks(count);
    MarksSameBut(m, memory.ram[..], memory.dataPage, memory.dataBlockCount);
    AlignedFrame(memory.dataPage + f);
    g := Frame(p);
  }

  /** The kernel constructor's four allocations for paging. */
  method PagingPages(memory: Memory)
    returns (identityDir: page, identityTables: page, userDir: page, userTables: page)
    requires Shielded(memory)
    requires Blocks.CanServe(memory.Now(), memory.dataBlockCount, [1, 1024, 1, 1024])
    modifies memory`usedBlocks, memory`cursor, memory.ram
    ensures Shielded(memory) && identityTables + 1024 <= 0x10_0000 && userTables + 1024 <= 0x10_0000
    ensures Separate(identityDir, identityTables, userDir, userTables)
    ensures var pages := {identityDir, userDir} + PageRange(identityTables, 1024) + PageRange(userTables, 1024);
      pages <= InUse(memory) && memory.dataPage !in pages
    ensures old(memory.Counted()) ==> memory.Counted()
  {
    hide Blocks.CanServe, UsedPages, Marked, SameBut;
    ShieldedPage(memory);
    ghost var before := InUse(memory);
    ghost var last := [1024] + [];
    ghost var lastTwo := [1] + last;
    ghost var lastThree := [1024] + lastTwo;
    assert [1, 1024, 1, 1024] == [1] + lastThree;
    identityDir := AllocatePages(memory, 1, lastThree);
    assert identityDir in PageRange(identityDir, 1);
    identityTables := AllocatePages(memory, 1024, lastTwo);
    assert identityDir !in PageRange(identityTables, 1024);
    userDir := AllocatePages(memory, 1, last);
    assert userDir in PageRange(userDir, 1);
    userTables := AllocatePages(memory, 1024, []);
    Apart(before, identityDir, identityTables, userDir, userTables);
  }

  /** The four page areas of the kernel overlap nowhere. */
  ghost predicate Separate(identityDir: page, identityTables: page, userDir: page, userTables: page) {
    && identityDir != userDir
    && identityDir !in PageRange(identityTables, 1024) && userDir !in PageRange(identityTables, 1024)
    && identityDir !in PageRange(userTables, 1024) && userDir !in PageRange(userTables, 1024)
    && PageRange(identityTables, 1024) !! PageRange(userTables, 1024)
  }

  lemma Apart(used: set<page>, identityDir: page, identityTables: page, userDir: page, userTables: page)
    requires used !! PageRange(identityDir, 1)
    requires used + PageRange(identityDir, 1) !! PageRange(identityTables, 1024)
    requires used + PageRange(identityDir, 1) + PageRange(identityTables, 1024) !! PageRange(userDir, 1)
    requires used + PageRange(identityDir, 1) + PageRange(identityTables, 1024) + PageRange(userDir, 1) !!
             PageRange(userTables, 1024)
    ensures Separate(identityDir, identityTables, userDir, userTables)
    ensures used !! {identityDir, userDir} + PageRange(identityTables, 1024) + PageRange(userTables, 1024)
  {
    assert identityDir in PageRange(identityDir, 1) && userDir in PageRange(userDir, 1);
  }

  /** The kernel's own directory, the template and their tables, by what they are for. */
  ghost function KernelRoles(
      identityDir: page, identityTables: page, userDir: page, userTables: page): map<page, Role>
  {
    map g: page | g in {identityDir, userDir} + PageRange(identityTables, 1024) + PageRange(userTables, 1024) ::
      if g == userDir then TemplateDirectory
      else if g in PageRange(userTables, 1024) then TemplateTable(g - userTables)
      else if g == identityDir then Directory
      else PrivateTable(identityDir, g - identityTables)
  }

  lemma EntryRoles(m: Ram, identityDir: page, identityTables: page, userDir: page, userTables: page, i: nat)
    requires Separate(identityDir, identityTables, userDir, userTables) && i < 1024
    requires Filled(m, identityDir, identityTables, 3, 3) && Filled(m, userDir, userTables, 3, 4)
    ensures var roles := KernelRoles(identityDir, identityTables, userDir, userTables);
      && HasRole(roles, Frame(Entry(m, identityDir, i)), PrivateTable(identityDir, i))
      && HasRole(roles, Frame(Entry(m, userDir, i)), TemplateTable(i))
  {
    hide Entry, Or32, Frame;
    EntryFrame(identityTables + i, Flags(i, 3, 3));
    EntryFrame(userTables + i, Flags(i, 3, 4));
    assert identityTables + i in PageRange(identityTables, 1024) && userTables + i in PageRange(userTables, 1024);
  }

  lemma FilledWorld(m: Ram, identityDir: page, identityTables: page, userDir: page, userTables: page)
    requires Separate(identityDir, identityTables, userDir, userTables)
    requires Filled(m, identityDir, identityTables, 3, 3) && Filled(m, userDir, userTables, 3, 4)
    ensures World(m, userDir, {identityDir}, KernelRoles(identityDir, identityTables, userDir, userTables))
  {
    hide Entry, Frame, Filled, KernelRoles, Separate;
    DirectoryRoles(identityDir, identityTables, userDir, userTables);
    forall i: nat | i < 1024 {
      EntryRoles(m, identityDir, identityTables, userDir, userTables, i);
    }
  }

  lemma DirectoryRoles(identityDir: page, identityTables: page, userDir: page, userTables: page)
    requires Separate(identityDir, identityTables, userDir, userTables)
    ensures var roles := KernelRoles(identityDir, identityTables, userDir, userTables);
      HasRole(roles, identityDir, Directory) && HasRole(roles, userDir, TemplateDirectory)
  {
  }

  /** The kernel constructor's page tables: an identity directory for itself, and the user template. */
  method PreparePaging(memory: Memory)
    returns (identityDir: page, userDir: page, ghost roles: map<page, Role>)
    requires Shielded(memory)
    requires Blocks.CanServe(memory.Now(), memory.dataBlockCount, [1, 1024, 1, 1024])
    modifies memory`usedBlocks, memory`cursor, memory.ram
    ensures Shielded(memory)
    ensures var m := memory.ram[..];
      && Sees(m, userDir, map[]) && Sees(m, identityDir, map[]) && Closed(m, userDir)
      && World(m, userDir, {identityDir}, roles)
      && KernelOnly(m, userDir) && KernelHasAll(m, identityDir)
    ensures roles.Keys <= InUse(memory) && memory.dataPage !in roles && identityDir in roles
    ensures old(memory.Counted()) ==> memory.Counted()
  {
    hide Blocks.CanServe, UsedPages, Filled, Entry, World, Sees, Closed;
    hide Separate, Marked, TemplateRoles, KernelOnly, KernelHasAll;
    var identityTables, userTables;
    identityDir, identityTables, userDir, userTables := PagingPages(memory);
    ghost var d := memory.dataPage;
    roles := KernelRoles(identityDir, identityTables, userDir, userTables);
    ghost var m := memory.ram[..];
    ShieldedPage(memory);
    InTables(identityDir, identityTables, userDir, userTables, d);
    FillTables(memory.ram, identityDir, identityTables, 3, 3);
    ghost var m1 := memory.ram[..];
    FillTables(memory.ram, userDir, userTables, 3, 4);
    StaysFilled(m1, memory.ram[..], identityDir, identityTables, userDir, userTables);
    assert forall j: nat | j < 1024 :: Entry(memory.ram[..], d, j) == Entry(m1, d, j) == Entry(m, d, j);
    MarksStay(memory, m, memory.ram[..]);
    FilledIsIdentity(memory.ram[..], identityDir, identityTables, 3, 3);
    FilledIsIdentity(memory.ram[..], userDir, userTables, 3, 4);
    TemplateIsClosed(memory.ram[..], userDir, userTables);
    IdentityIsKernels(memory.ram[..], identityDir, identityTables);
    FilledWorld(memory.ram[..], identityDir, identityTables, userDir, userTables);
  }

  /** What the numbers of separate areas say. */
  lemma InTables(identityDir: page, identityTables: page, userDir: page, userTables: page, d: nat)
    requires Separate(identityDir, identityTables, userDir, userTables)
    requires d < 0x10_0000
    requires d !in {identityDir, userDir} + PageRange(identityTables, 1024) + PageRange(userTables, 1024)
    ensures !(identityTables <= identityDir < identityTables + 1024) && !(userTables <= userDir < userTables + 1024)
    ensures d != identityDir && d != userDir
    ensures !(identityTables <= d < identityTables + 1024) && !(userTables <= d < userTables + 1024)
  {
  }

  lemma StaysFilled(
      m: Ram, r: Ram, identityDir: page, identityTables: page, userDir: page, userTables: page)
    requires Separate(identityDir, identityTables, userDir, userTables)
    requires Filled(m, identityDir, identityTables, 3, 3)
    requires forall h: page, j: nat | j < 1024 && h != userDir && !(userTables <= h < userTables + 1024) ::
      Entry(r, h, j) == Entry(m, h, j)
    ensures Filled(r, identityDir, identityTables, 3, 3)
  {
    hide Entry, Or32;
    forall h: page, j: nat | identityTables <= h < identityTables + 1024 && j < 1024
      ensures Entry(r, h, j) == Entry(m, h, j)
    {
      assert h in PageRange(identityTables, 1024) && userDir !in PageRange(identityTables, 1024);
      assert h !in PageRange(userTables, 1024);
    }
    assert identityDir !in PageRange(userTables, 1024);
  }

  /** Neither the directory of a process nor the tables at its entry i lie on page d, which is no page table. */
  lemma ClearOfMarks(k: Kernel, tmpl: page, dir: page, i: nat, d: page, m: Ram)
    requires World(k.m, tmpl, k.dirs, k.roles) && dir in k.dirs && d !in k.roles && SameBut(k.m, m, d) && i < 1024
    ensures Clear(m, dir, tmpl, i, d) && Clear(k.m, dir, tmpl, i, d)
    ensures Shared(m, dir, tmpl, i) == Shared(k.m, dir, tmpl, i)
  {
    hide Entry, Frame;
    assert HasRole(k.roles, dir, Directory) && HasRole(k.roles, tmpl, TemplateDirectory);
    assert HasRole(k.roles, Frame(Entry(k.m, tmpl, i)), TemplateTable(i));
    assert Shared(k.m, dir, tmpl, i) || HasRole(k.roles, Frame(Entry(k.m, dir, i)), PrivateTable(dir, i));
  }

  lemma MappedSameBut(m: Ram, r: Ram, d: page, dir: page, tmpl: page, vp: page, p: u32, flags: u32, clone: u32)
    requires SameBut(m, r, d) && Clear(m, dir, tmpl, DirIndex(vp), d)
    ensures SameBut(Mapped(m, dir, tmpl, vp, p, flags, clone), Mapped(r, dir, tmpl, vp, p, flags, clone), d)
  {
    hide Entry, Frame, PutEntry, CopyPage, Or32, DirIndex, TableIndex, SameBut;
    var i := DirIndex(vp);
    SameEntry(m, r, d, dir, i);
    SameEntry(m, r, d, tmpl, i);
    if Shared(m, dir, tmpl, i) {
      var src, dst := Frame(Entry(m, tmpl, i)), Frame(clone);
      CopySameBut(m, r, d, src, dst);
      PutSameBut(CopyPage(m, src, dst), CopyPage(r, src, dst), d, dir, i, Or32(clone, flags));
      PutTable(PutEntry(CopyPage(m, src, dst), dir, i, Or32(clone, flags)),
               PutEntry(CopyPage(r, src, dst), dir, i, Or32(clone, flags)), d, dir, i, TableIndex(vp), Or32(p, flags));
    } else {
      var e := Or32(Entry(m, dir, i), flags);
      PutSameBut(m, r, d, dir, i, e);
      PutTable(PutEntry(m, dir, i, e), PutEntry(r, dir, i, e), d, dir, i, TableIndex(vp), Or32(p, flags));
    }
  }

  lemma SameEntry(m: Ram, r: Ram, d: page, h: page, j: nat)
    requires SameBut(m, r, d) && h != d && j < 1024
    ensures Entry(r, h, j) == Entry(m, h, j)
  {
  }

  /** Following one directory entry and writing in the table behind it. */
  lemma PutTable(m: Ram, r: Ram, d: page, dir: page, i: nat, j: nat, e: u32)
    requires SameBut(m, r, d) && dir != d && i < 1024 && j < 1024
    ensures SameBut(PutEntry(m, Frame(Entry(m, dir, i)), j, e), PutEntry(r, Frame(Entry(r, dir, i)), j, e), d)
  {
    hide Entry, Frame, PutEntry;
    PutSameBut(m, r, d, Frame(Entry(m, dir, i)), j, e);
  }

  // ----- the books

  /** Some more pages are in use. */
  function WithPages(k: Kernel, gs: set<page>): Kernel {
    k.(used := k.used + gs)
  }

  function Address(g: page): u32 { g * 4096 }

  ghost predicate Distinct(gs: seq<page>) {
    forall i, j | 0 <= i < j < |gs| :: gs[i] != gs[j]
  }

  lemma NoneListed()
    ensures Listed([]) == {}
  {
  }

  lemma Next(gs: seq<page>, i: nat)
    requires i < |gs| && Distinct(gs)
    ensures gs[i] in Listed(gs) && gs[i] !in Listed(gs[..i]) && Listed(gs[..i + 1]) == Listed(gs[..i]) + {gs[i]}
  {
    assert gs[..i + 1] == gs[..i] + [gs[i]];
  }

  /** The address of a page in use stands for its own block. */
  lemma PageOfBlock(memory: Memory, g: page)
    requires memory.Valid() && g in InUse(memory)
    ensures g >= memory.dataPage && memory.BlockOf(Address(g)) == Some(g - memory.dataPage)
    ensures g - memory.dataPage in memory.Used() && g - memory.dataPage < memory.dataBlockCount
    ensures UsedPages(memory.dataPage, memory.Used() - {g - memory.dataPage}, memory.dataBlockCount) ==
        InUse(memory) - {g}
  {
    assert Sub32(g * 4096, memory.dataBlockAddr) == (g - memory.dataPage) * 4096;
  }

  lemma NotInRoles(k: Kernel, tmpl: page, vp: page, dir: page, frame: page, clone: page, h: Holder, d: page)
    requires d !in k.roles && (Shared(k.m, dir, tmpl, DirIndex(vp)) ==> clone != d)
    ensures d !in MapIn(k, tmpl, dir, vp, frame, clone, h).roles
  {
    hide Shared, Entry, DirIndex, Mapped;
    AlignedFrame(clone);
  }

  /** The memory side of the kernel: allocator, physical memory and user template, with the books of who holds what. */
  class KernelMemory {
    const memory: Memory
    const template: page
    ghost var books: Kernel

    /**
      The books show the used blocks as they are, and physical memory but for the page of the block marks,
      which is kept back for good.
     */
    ghost predicate Sound()
      reads this, memory, memory.ram
    {
      && Shielded(memory) && memory.dataPage < 0x10_0000
      && SameBut(books.m, memory.ram[..], memory.dataPage) && memory.dataPage !in books.roles
      && books.used == InUse(memory)
      && Holds(books, memory.dataPage, Reserved)
    }

    ghost predicate Valid()
      reads this, memory, memory.ram
    {
      Sound() && KernelOk(books, template)
    }

    /** The allocator can meet these requests one after the other. */
    ghost predicate CanServe(counts: seq<nat>)
      reads memory, memory.ram
    {
      memory.Valid() && Blocks.CanServe(memory.Now(), memory.dataBlockCount, counts)
    }

    /** The used-block counter is exact. */
    ghost predicate Counted()
      reads memory, memory.ram
    {
      memory.Valid() && memory.Counted()
    }

    /** The kernel constructor's paging part: identity tables, and the user template, which is the identity too. */
    constructor (memory: Memory)
      requires Shielded(memory)
      requires Blocks.CanServe(memory.Now(), memory.dataBlockCount, [1, 1024, 1, 1024])
      modifies memory`usedBlocks, memory`cursor, memory.ram
      ensures Valid() && this.memory == memory
      ensures books.dirs == {books.identity} && books.m == memory.ram[..]
      ensures KernelOnly(memory.ram[..], template) && KernelHasAll(memory.ram[..], books.identity)
      ensures books.holders == map[memory.dataPage as page := Reserved, books.identity := Reserved]
      ensures old(memory.Counted()) ==> Counted()
    {
      hide World, Sees, UsedPages, Blocks.CanServe, Marked, Closed, SameBut, KernelOnly, KernelHasAll;
      ghost var roles;
      var identityDir, userDir;
      identityDir, userDir, roles := PreparePaging(memory);
      this.memory := memory;
      template := userDir;
      ShieldedPage(memory);
      ghost var d: page := memory.dataPage;
      ghost var holders := map[d := Reserved, identityDir := Reserved];
      books := Kernel(memory.ram[..], InUse(memory), {identityDir}, roles, holders, identityDir);
      SameAsSelf(memory.ram[..], d);
    }

    /** allocate_blocks(count) when it succeeds: pages nobody holds. */
    method Allocate(count: u32, ghost rest: seq<nat>) returns (g: page)
      requires Valid() && count > 0 && CanServe([count] + rest)
      modifies this`books, memory`usedBlocks, memory`cursor, memory.ram
      ensures Valid() && CanServe(rest) && 0 < g && g + count <= 0x10_0000
      ensures books == WithPages(old(books), PageRange(g, count))
      ensures forall h: page | g <= h < g + count :: h !in old(books).used && Unheld(books, h) && h in books.used
      ensures old(Counted()) ==> Counted()
    {
      hide Blocks.CanServe, World, Sees, UsedPages, Closed, SameBut, Marked;
      ghost var m := memory.ram[..];
      g := AllocatePages(memory, count, rest);
      assert forall h: page | g <= h < g + count :: h in PageRange(g, count);
      SameButTwice(books.m, m, memory.ram[..], memory.dataPage);
      books := WithPages(books, PageRange(g, count));
    }

    lemma IsReserved()
      requires Sound()
      ensures Holds(books, memory.dataPage, Reserved) && memory.dataPage !in books.roles
    {
    }

    /** free_block on each page of a list; after is what the books then show. */
    method Free(gs: seq<page>, ghost after: Kernel)
      requires Sound() && Distinct(gs) && Listed(gs) <= books.used && memory.dataPage !in Listed(gs)
      requires after.m == books.m && after.used == books.used - Listed(gs)
      requires Holds(after, memory.dataPage, Reserved) && memory.dataPage !in after.roles
      modifies this`books, memory`usedBlocks, memory.ram
      ensures Sound() && books == after
      ensures old(Counted()) ==> Counted() && memory.usedBlocks == old(memory.usedBlocks) - |gs|
    {
      hide UsedPages, Marked, Listed, Distinct, Memory.BlockOf, SameBut, Elsewhere;
      NoneListed();
      assert gs[..0] == [];
      for i := 0 to |gs|
        invariant Shielded(memory) && books == old(books) && SameBut(books.m, memory.ram[..], memory.dataPage)
        invariant InUse(memory) == books.used - Listed(gs[..i])
        invariant old(Counted()) ==> Counted() && memory.usedBlocks == old(memory.usedBlocks) - i
      {
        ghost var m := memory.ram[..];
        Next(gs, i);
        PageOfBlock(memory, gs[i]);
        memory.FreeBlock(Address(gs[i]));
        MarksSameBut(m, memory.ram[..], memory.dataPage, memory.dataBlockCount);
        SameButTwice(books.m, m, memory.ram[..], memory.dataPage);
      }
      assert gs[..|gs|] == gs;
      books := after;
    }

    /** A page already in use goes to holder h. */
    ghost method Assign(g: page, h: Holder)
      requires Valid() && Unheld(books, g) && g in books.used
      modifies this`books
      ensures Valid() && books == Take(old(books), g, h)
    {
      hide KernelOk, SameBut, Marked;
      TakeOk(books, template, g, h, template);
      ExtendsBooks(books, Take(books, g, h), template, template);
      assert books.used + {g} == books.used;
      books := Take(books, g, h);
    }

    /** map_physical in directory dir, with the user flags; a table it creates goes to holder h. */
    method Map(dir: page, vp: page, frame: page, ghost h: Holder, ghost rest: seq<nat>) returns (clone: page)
      requires Valid() && dir in books.dirs && dir != books.identity
      requires CanServe(if Shared(books.m, dir, template, DirIndex(vp)) then [1] + rest else rest)
      modifies this`books, memory`usedBlocks, memory`cursor, memory.ram
      ensures Valid() && CanServe(rest)
      ensures MayMap(old(books), template, dir, vp, clone)
      ensures books == MapIn(old(books), template, dir, vp, frame, clone, h)
      ensures clone != 0 <==> Shared(old(books).m, dir, template, DirIndex(vp))
      ensures clone != 0 ==> clone !in old(books).used
      ensures var m := books.m;
        && Entry(m, Frame(Entry(m, dir, DirIndex(vp))), TableIndex(vp)) == frame * 4096 + 7
        && (clone != 0 ==> Entry(m, dir, DirIndex(vp)) == clone * 4096 + 7)
      ensures old(Counted()) ==> Counted()
    {
      hide Blocks.CanServe, Blocks.Outcome, Blocks.AfterRequest, UsedPages, Mapped, Entry;
      hide Shared, Frame, DirIndex, TableIndex, VPage;
      hide RolesAfter, Marked, SameBut, Sees, Closed;
      ghost var k, d := books, memory.dataPage;
      ghost var shared := Shared(k.m, dir, template, DirIndex(vp));
      ghost var f := 0;
      if shared {
        f := ServedPages(memory.dataPage, memory.dataBlockCount, memory.Now(), 1, rest);
      }
      AlignedVPage(vp);
      ghost var m := memory.ram[..];
      ClearOfMarks(k, template, dir, DirIndex(vp), d, m);
      hide World, KernelOk;
      var tbl := MapPhysical(dir, template, vp * 4096, frame * 4096, USER_FLAGS, memory);
      AlignedFrame(memory.dataPage + f);
      AlignedFrame(0);
      clone := Frame(tbl);
      assert tbl == clone * 4096;
      MappedSameBut(k.m, m, d, dir, template, vp, frame * 4096, USER_FLAGS, tbl);
      SameButTwice(Mapped(k.m, dir, template, vp, frame * 4096, USER_FLAGS, tbl),
                   Mapped(m, dir, template, vp, frame * 4096, USER_FLAGS, tbl), memory.ram[..], d);
      if shared { assert PageRange(clone, 1) == {clone}; }
      NewIsUnheld(k, template, clone);
      books := MapIn(k, template, dir, vp, frame, clone, h);
      MapInOk(k, template, dir, vp, frame, clone, h);
      ExtendsBooks(k, books, template, dir);
      MapInEntry(k, template, dir, vp, frame, clone, h);
      NotInRoles(k, template, vp, dir, frame, clone, h, d);
    }

    /** A byte goes to memory, on a page that is no page table and not that of the block marks. */
    method StoreByte(a: u32, b: byte)
      requires Valid() && Frame(a) !in books.roles && Frame(a) != memory.dataPage
      modifies this`books, memory.ram
      ensures Valid() && books == Stored(old(books), a, [b])
      ensures forall counts :: old(CanServe(counts)) ==> CanServe(counts)
      ensures old(Counted()) ==> Counted()
    {
      hide KernelOk, Entry, Marked, UsedPages, WithByte, SameBut, Frame;
      ghost var m, d := memory.ram[..], memory.dataPage;
      OneByte(books.m, a, b);
      StoreIsSound(books, template, a, b);
      PutByteInBoth(books.m, m, d, a, b);
      memory.ram[a / 4] := WithByte(memory.ram[a / 4], a % 4, b);
      assert memory.ram[..] == PutByte(m, a, b);
      PutByteSameBut(m, a, b);
      MarksBySameBut(memory, m, memory.ram[..], Frame(a));
      books := Stored(books, a, [b]);
    }

    /** What the books say a directory maps is what get_physical finds in memory. */
    function Physical(dir: page, v: u32): (p: u32)
      requires Valid() && dir in books.dirs
      reads this, memory, memory.ram
      ensures p == PageOf(books.m, dir, VPage(v)) * 4096 + Offset(v)
    {
      ClearOfMarks(books, template, dir, DirIndex(VPage(v)), memory.dataPage, memory.ram[..]);
      GetPhysical(memory.ram, dir, v)
    }
  }

  lemma OneByte(m: Ram, a: u32, b: byte)
    ensures StoreBytes(m, a, [b]) == PutByte(m, a, b)
  {
    assert [b][..0] == [];
  }

  lemma StoreIsSound(k: Kernel, tmpl: page, a: u32, b: byte)
    requires KernelOk(k, tmpl) && Frame(a) !in k.roles
    ensures KernelOk(k.(m := PutByte(k.m, a, b)), tmpl)
  {
    hide KernelOk, PutByte, LiveTable, Frame, SameBut;
    if LiveTable(k, tmpl, [], Frame(a)) { TablesHaveRoles(k, tmpl, [], Frame(a)); }
    PutByteSameBut(k.m, a, b);
    KernelSpared(k, tmpl, [], PutByte(k.m, a, b), Frame(a));
  }

  lemma PutByteInBoth(m: Ram, r: Ram, d: page, a: u32, b: byte)
    requires SameBut(m, r, d) && Frame(a) != d
    ensures SameBut(PutByte(m, a, b), PutByte(r, a, b), d)
  {
    hide WithByte;
    var g, j := Frame(a), a / 4 % 1024;
    assert a / 4 / 1024 == g && g * 1024 + j == a / 4;
    assert Entry(r, g, j) == Entry(m, g, j);
    PutSameBut(m, r, d, g, j, WithByte(Entry(m, g, j), a % 4, b));
  }

  lemma MarksBySameBut(memory: Memory, m: Ram, r: Ram, g: page)
    requires memory.Valid() && 0 < memory.dataBlockCount <= 32768 && SameBut(m, r, g) && g != memory.dataPage
    ensures memory.BitsIn(r) == memory.BitsIn(m)
  {
    MarksStay(memory, m, r);
  }

  lemma SameAsSelf(m: Ram, d: page)
    ensures SameBut(m, m, d)
  {
  }

  lemma AlignedVPage(vp: page)
    ensures VPage(vp * 4096) == vp
  {
  }
}
