/** Processes and threads: the code that takes blocks, maps them and gives them back. */
module Processes {
  import opened Machine
  import opened Pages
  import opened PageRuns
  import opened Protection
  import opened Ownership
  import opened Births
  import opened ProcessRuns
  import opened Kernels
  import opened Stores
  import Blocks
  import BlockAllocator
  import Paging

  // ----- where the next stack goes

  /** The j-th stack the search looks at. */
  function Probe(j: nat): int { STACK_PAGE - 2 * j }

  /** Pigeonhole: no more stacks can have been probed and found taken than there are. */
  lemma {:induction false} ProbesFit(stacks: seq<page>, n: nat)
    requires forall j | 0 <= j < n :: Probe(j) in stacks
    ensures n <= |stacks|
  {
    if n > 0 {
      var i :| 0 <= i < |stacks| && stacks[i] == Probe(n - 1);
      var rest := stacks[..i] + stacks[i + 1..];
      forall j | 0 <= j < n - 1 ensures Probe(j) in rest {
        var k :| 0 <= k < |stacks| && stacks[k] == Probe(j);
        assert rest[if k < i then k else k - 1] == Probe(j);
      }
      ProbesFit(rest, n - 1);
    }
  }

  /** Room for one more stack than there are. */
  predicate HasRoom(stacks: seq<page>) {
    2 * (|stacks| + 1) <= STACK_PAGE - HEAP_PAGE
  }

  /** The highest stack that is free. */
  ghost function FreeStack(stacks: seq<page>, j: nat): (s: page)
    requires HasRoom(stacks) && forall i | 0 <= i < j :: Probe(i) in stacks
    ensures IsStack(s) && s !in stacks && STACK_PAGE - 2 * |stacks| <= s
    ensures forall t: page | s < t <= STACK_PAGE && t % 2 == 0 :: t in stacks
    decreases |stacks| + 1 - j
  {
    ProbesFit(stacks, j);
    if Probe(j) in stacks then
      ProbesFit(stacks, j + 1);
      FreeStack(stacks, j + 1)
    else
      assert forall t: page | Probe(j) < t <= STACK_PAGE && t % 2 == 0 :: t as int == Probe((STACK_PAGE - t) / 2);
      Probe(j)
  }

  // ----- how many blocks a heap needs

  function Ones(n: nat): seq<nat> {
    seq(n, _ => 1)
  }

  lemma OnesStep(n: nat)
    requires n > 0
    ensures Ones(n) == [1] + Ones(n - 1)
  {
  }

  ghost function SharedEntries(m: Ram, dir: page, tmpl: page): set<nat> {
    set i: nat | i < 1024 && Shared(m, dir, tmpl, i)
  }

  /** How many of the entries for n pages from h on are among shared, each of which costs a table. */
  function TablesNeeded(shared: set<nat>, h: nat, n: nat): nat
    requires h + n <= 0x10_0000
    decreases n
  {
    if n == 0 then 0
    else (if DirIndex(h) in shared then 1 else 0) + TablesNeeded(shared - {DirIndex(h)}, h + 1, n - 1)
  }

  lemma EntryTaken(k: Kernel, l: Kernel, tmpl: page, dir: page, i: nat)
    requires i < 1024 && !Shared(l.m, dir, tmpl, i)
    requires forall j: nat | j < 1024 && j != i :: Shared(l.m, dir, tmpl, j) == Shared(k.m, dir, tmpl, j)
    ensures SharedEntries(l.m, dir, tmpl) == SharedEntries(k.m, dir, tmpl) - {i}
    ensures i in SharedEntries(k.m, dir, tmpl) <==> Shared(k.m, dir, tmpl, i)
  {
    hide Shared;
  }

  // ----- pages are marked used before they are listed

  lemma TakenAnyway(k: Kernel, id: nat, stack: page, base: page, shared: bool)
    requires base + 1 < 0x10_0000
    ensures WithStack(WithPages(k, PageRange(base, 2)), id, stack, base, shared) ==
        WithStack(k, id, stack, base, shared)
  {
    assert k.used + PageRange(base, 2) + {base} + {base + 1} == k.used + {base} + {base + 1};
  }

  lemma WithPagesExtends(k: Kernel, gs: set<page>, tmpl: page, dir: page)
    requires KernelOk(k, tmpl)
    ensures Extends(k, WithPages(k, gs), tmpl, dir)
  {
    hide World, Entry, PageOf, UserPage, Closed, Sees;
  }

  lemma WithPagesBuilt(k: Kernel, gs: set<page>, tmpl: page, p: Ownership.Process)
    requires KernelOk(k, tmpl) && Built(k, tmpl, p)
    ensures Built(WithPages(k, gs), tmpl, p) && KernelOk(WithPages(k, gs), tmpl)
  {
    hide World, Entry, PageOf, UserPage, Closed, Sees, Views, Spared;
    WithPagesExtends(k, gs, tmpl, p.dir);
    hide KernelOk, Booked, OwnTables;
    ExtendsLists(k, WithPages(k, gs), tmpl, p);
  }

  /** A page of the list is booked and mapped alike whether or not other pages are in use already. */
  lemma PageAnyway(
      k: Kernel, gs: set<page>, tmpl: page, p: Ownership.Process, vp: page, block: page, clone: page, table: page)
    requires Shared(k.m, p.dir, tmpl, DirIndex(vp)) ==> clone == table
    ensures PageKernel(WithPages(k, gs + {block}), tmpl, p, vp, block, clone) ==
            WithPages(PageKernel(k, tmpl, p, vp, block, table), gs)
    ensures PageProcess(WithPages(k, gs + {block}), tmpl, p, vp, block, clone) ==
            PageProcess(k, tmpl, p, vp, block, table)
  {
    hide Shared, Mapped, DirIndex;
    var l := PageKernel(k, tmpl, p, vp, block, table);
    var r := PageKernel(WithPages(k, gs + {block}), tmpl, p, vp, block, clone);
    MappedUnshared(k.m, p.dir, tmpl, vp, block * 4096, clone * 4096, table * 4096);
    assert r.used == l.used + gs;
  }

  /** Without a shared entry no clone is made, so it does not matter which was offered. */
  lemma MappedUnshared(m: Ram, dir: page, tmpl: page, vp: page, p: u32, c: u32, d: u32)
    requires !Shared(m, dir, tmpl, DirIndex(vp)) || c == d
    ensures Mapped(m, dir, tmpl, vp, p, USER_FLAGS, c) == Mapped(m, dir, tmpl, vp, p, USER_FLAGS, d)
  {
    hide Entry, DirIndex, PutEntry, CopyPage;
  }

  // ----- the code

  /** A process and its lists. Addresses of pages are kept as page numbers. */
  class Process {
    const kernel: KernelMemory
    ghost const id: nat
    const directory: page
    var usedBlocks: seq<page>
    var stackBlocks: seq<page>
    var heapAddress: page
    var threads: seq<Thread>
    ghost var vm: map<page, page>

    ghost function View(): Ownership.Process
      reads this
    {
      Ownership.Process.Process(id, directory, usedBlocks, threads, heapAddress, vm)
    }

    /** The kernel's books show k, the process shows p. */
    ghost predicate At(k: Kernel, p: Ownership.Process)
      reads this, kernel, kernel.memory, kernel.memory.ram
    {
      kernel.Valid() && kernel.books == k && View() == p
    }

    ghost predicate Valid()
      reads this, kernel, kernel.memory, kernel.memory.ram
    {
      kernel.Valid() && ProcessOk(kernel.books, kernel.template, View()) && StacksListed()
    }

    /** m_stack_blocks lists the stacks of the threads in order. */
    ghost predicate StacksListed()
      reads this
    {
      |stackBlocks| == |threads| && forall t | 0 <= t < |threads| :: stackBlocks[t] == threads[t].stack
    }

    /** process::process: directory, image, main thread, all on fresh pages. */
    constructor (kernel: KernelMemory, ghost id: nat)
      requires kernel.Valid() && kernel.CanServe([1, 8, 1, 2, 1])
      modifies kernel`books
      modifies kernel.memory`usedBlocks, kernel.memory`cursor, kernel.memory.ram
      ensures Valid() && this.kernel == kernel
      ensures exists b :: BirthStep(old(kernel.books), kernel.template, id, b, kernel.books, View())
      ensures old(kernel.Counted()) ==> kernel.Counted()
    {
      hide KernelMemory.Sound, KernelMemory.CanServe, KernelMemory.Counted, KernelOk, Built, Shared, Unheld, ProcessOk;
      hide PageRange, WithPages, Extends, NewDirectory, WithImage, Spares;
      hide ThreadKernel, IsStack, BirthStep, Table, FreeStack;
      ghost var tmpl, k := kernel.template, kernel.books;
      assert [1] + [8, 1, 2, 1] == [1, 8, 1, 2, 1];
      var d := kernel.Allocate(1, [8, 1, 2, 1]);
      this.kernel := kernel;
      this.id := id;
      directory := d;
      usedBlocks := [];
      stackBlocks := [];
      heapAddress := HEAP_PAGE;
      threads := [];
      vm := map[];
      new;
      ghost var p := Newborn(id, d);
      NewIsUnheld(k, tmpl, d);
      CopyTemplate(k, p, tmpl, [8, 1, 2, 1]);
      ghost var k1 := NewDirectory(k, tmpl, id, d);
      NewDirectorySpares(k, tmpl, id, d);
      ghost var image, table := LoadImage(k1, p, tmpl);
      ghost var s := WithImage(k1, tmpl, p, image, table, IMAGE_PAGES);
      ImageDone(k1, tmpl, p, image, table);
      FirstStack();
      assert [2] + ([1] + []) == [2, 1];
      ghost var base, clone := NewThread(true, s.kernel, s.process, tmpl, []);
      ghost var b := Supply(d, image, table, base, clone);
      BirthDone(k, tmpl, id, b);
    }

    /** Maps vp to a block that is in use and nobody's, and lists the block, then the table if one was made. */
    method AddBlock(
        vp: page, block: page, ghost k: Kernel, ghost p: Ownership.Process, ghost tmpl: page, ghost rest: seq<nat>)
      returns (ghost clone: page)
      requires At(k, p) && tmpl == kernel.template && Built(k, tmpl, p) && Unheld(k, block) && block in k.used
      requires kernel.CanServe(if Shared(k.m, p.dir, tmpl, DirIndex(vp)) then [1] + rest else rest)
      modifies this`usedBlocks, this`vm, kernel`books
      modifies kernel.memory`usedBlocks, kernel.memory`cursor, kernel.memory.ram
      ensures Shared(k.m, p.dir, tmpl, DirIndex(vp)) ==> clone !in k.used && Unheld(k, clone) && clone != block
      ensures At(PageKernel(k, tmpl, p, vp, block, clone), PageProcess(k, tmpl, p, vp, block, clone))
      ensures kernel.CanServe(rest) && (old(kernel.Counted()) ==> kernel.Counted())
    {
      hide KernelMemory.Sound, KernelMemory.CanServe, KernelMemory.Counted, KernelOk, MapIn, Shared, DirIndex, Unheld;
      hide Built, Take, Entry, Frame, TableIndex;
      MayAssign(k, tmpl, p, block, ListOf(p.id, |p.used|));
      kernel.Assign(block, ListOf(id, |usedBlocks|));
      var tbl := kernel.Map(directory, vp, block, ListOf(id, |usedBlocks| + 1), rest);
      usedBlocks := usedBlocks + [block];
      if tbl != 0 { usedBlocks := usedBlocks + [tbl]; }
      vm := vm[vp := block];
      clone := tbl;
    }

    /** The probing loop of the thread constructor; it ends within one probe more than there are stacks. */
    method FindStack() returns (vstack: page)
      requires HasRoom(stackBlocks)
      ensures vstack == FreeStack(stackBlocks, 0)
    {
      vstack := STACK_PAGE;
      ghost var probes := 0;
      while vstack in stackBlocks
        invariant vstack == Probe(probes) && probes <= |stackBlocks|
        invariant forall j | 0 <= j < probes :: Probe(j) in stackBlocks
        invariant FreeStack(stackBlocks, probes) == FreeStack(stackBlocks, 0)
        decreases |stackBlocks| - probes
      {
        ProbesFit(stackBlocks, probes + 1);
        vstack := vstack - 2;
        probes := probes + 1;
      }
    }

    /** thread::thread: two stack blocks, the highest free stack, and the table of that stack if it is not there yet. */
    method NewThread(isMain: bool, ghost k: Kernel, ghost p: Ownership.Process, ghost tmpl: page, ghost rest: seq<nat>)
      returns (ghost base: page, ghost clone: page)
      requires At(k, p) && tmpl == kernel.template && Built(k, tmpl, p) && HasRoom(stackBlocks)
      requires kernel.CanServe(
        [2] + if Shared(k.m, p.dir, tmpl, Table(FreeStack(stackBlocks, 0))) then [1] + rest else rest)
      modifies this`stackBlocks, this`threads, this`vm, kernel`books
      modifies kernel.memory`usedBlocks, kernel.memory`cursor, kernel.memory.ram
      ensures stackBlocks == old(stackBlocks) + [old(FreeStack(stackBlocks, 0))]
      ensures base + 1 < 0x10_0000 && base !in k.used && base + 1 !in k.used
      ensures Shared(k.m, p.dir, tmpl, Table(old(FreeStack(stackBlocks, 0)))) ==>
        clone !in k.used && clone != base && clone != base + 1
      ensures At(ThreadKernel(k, tmpl, p, old(FreeStack(stackBlocks, 0)), base, clone),
                 ThreadProcess(k, tmpl, p, old(FreeStack(stackBlocks, 0)), base, clone, isMain))
      ensures kernel.CanServe(rest) && (old(kernel.Counted()) ==> kernel.Counted())
    {
      hide KernelMemory.Sound, KernelMemory.CanServe, KernelMemory.Counted, KernelOk, Built, Shared, DirIndex, Unheld;
      hide PageRange, MapIn, WithPages, Take, FreeStack, IsStack, Entry, Frame, TableIndex, WithStack;
      hide WithStackPages;
      ghost var stack := FreeStack(stackBlocks, 0);
      ghost var shared := Shared(k.m, p.dir, tmpl, Table(stack));
      var stackBlock := kernel.Allocate(2, if shared then [1] + rest else rest);
      base := stackBlock;
      var vstack := FindStack();
      stackBlocks := stackBlocks + [vstack];
      ghost var k0 := kernel.books;
      StackTaken(k, k0, tmpl, p, stack, base, shared);
      kernel.Assign(stackBlock, ThreadOf(id, vstack, 0));
      kernel.Assign(stackBlock + 1, ThreadOf(id, vstack, if shared then 2 else 1));
      ghost var k1 := kernel.books;
      ghost var h := ThreadOf(id, vstack, 1);
      // The loop over the two stack pages, the upper one first.
      var used := [stackBlock];
      var tbl := kernel.Map(directory, vstack - 1, stackBlock, h, rest);
      clone := tbl;
      if tbl != 0 { used := used + [tbl]; }
      ghost var k2 := kernel.books;
      CloneApart(k, k1, tmpl, p, stack, base, clone, shared);
      SecondPage(k1, tmpl, p.dir, stack, base, clone, h);
      used := used + [stackBlock + 1];
      tbl := kernel.Map(directory, vstack - 2, stackBlock + 1, h, rest);
      MapInUnshared(k2, tmpl, p.dir, stack - 2, base + 1, tbl, clone, h);
      assert tbl == 0 && used == StackBlocks(base, clone, shared);
      if tbl != 0 { used := used + [tbl]; }
      threads := threads + [Thread(vstack, used, isMain)];
      vm := WithStackPages(vm, vstack, stackBlock);
    }

    /** create_thread, for any thread but the main one. */
    method CreateThread()
      requires Valid() && HasRoom(stackBlocks) && heapAddress + 2 * (|threads| + 1) <= STACK_PAGE
      requires kernel.CanServe(
        [2] + if Shared(kernel.books.m, directory, kernel.template, Table(FreeStack(stackBlocks, 0))) then [1] else [])
      modifies this`stackBlocks, this`threads, this`vm, kernel`books
      modifies kernel.memory`usedBlocks, kernel.memory`cursor, kernel.memory.ram
      ensures Valid()
      ensures exists block, table :: SpawnStep(old(kernel.books), kernel.template, old(View()),
        old(FreeStack(stackBlocks, 0)), block, table, kernel.books, View())
      ensures old(kernel.Counted()) ==> kernel.Counted()
    {
      hide KernelMemory.Sound, KernelMemory.CanServe, KernelMemory.Counted, KernelOk, Built, Shared, ProcessOk;
      hide ThreadKernel, IsStack, FreeStack, Table;
      ghost var k, p, tmpl, stack := kernel.books, View(), kernel.template, FreeStack(stackBlocks, 0);
      assert [1] + [] == [1];
      OkIsBuilt(k, tmpl, p);
      ghost var base, clone := NewThread(false, k, p, tmpl, []);
      StacksBelow(k, tmpl, p);
      assert SpawnAsked(k, tmpl, p, stack, base, clone);
      SpawnMoves(k, tmpl, p, stack, base, clone);
      assert SpawnStep(k, tmpl, p, stack, base, clone, kernel.books, View());
    }

    /** One turn of the loop of expand_heap. */
    method GrowHeap(ghost budget: nat)
      requires Valid() && BelowStacks(View(), heapAddress + 1) && heapAddress + 1 < 0x10_0000
      requires kernel.CanServe(Ones(budget))
      requires budget >=
        if Shared(kernel.books.m, directory, kernel.template, DirIndex(heapAddress)) then 2 else 1
      modifies this`usedBlocks, this`heapAddress, this`vm, kernel`books
      modifies kernel.memory`usedBlocks, kernel.memory`cursor, kernel.memory.ram
      ensures Valid()
      ensures kernel.CanServe(Ones(budget -
        if old(Shared(kernel.books.m, directory, kernel.template, DirIndex(heapAddress))) then 2 else 1))
      ensures exists block, table ::
        GrowStep(old(kernel.books), kernel.template, old(View()), block, table, kernel.books, View())
      ensures old(kernel.Counted()) ==> kernel.Counted()
    {
      hide KernelMemory.Sound, KernelMemory.CanServe, KernelMemory.Counted, KernelOk, Built, Shared, Unheld, ProcessOk;
      hide PageRange, WithPages, PageKernel, BelowStacks, DirIndex, Ones;
      ghost var k, p, tmpl := kernel.books, View(), kernel.template;
      ghost var shared := Shared(k.m, p.dir, tmpl, DirIndex(p.heap));
      OnesStep(budget);
      if shared { OnesStep(budget - 1); }
      OkIsBuilt(k, tmpl, p);
      var block := kernel.Allocate(1, Ones(budget - 1));
      OneTaken(k, tmpl, p, block);
      ghost var clone := AddBlock(heapAddress, block, kernel.books, p, tmpl, Ones(budget - if shared then 2 else 1));
      heapAddress := heapAddress + 1;
      PageAnyway(k, {}, tmpl, p, p.heap, block, clone, clone);
      NothingMore(PageKernel(k, tmpl, p, p.heap, block, clone), block);
      assert block !in k.used && (shared ==> clone !in k.used && clone != block);
      GrowMoves(k, tmpl, p, block, clone);
      assert GrowStep(k, tmpl, p, block, clone, kernel.books, View());
    }

    /** expand_heap: n pages from the old end on, each backed by a fresh block; whatever was mapped before still is. */
    method ExpandHeap(n: nat) returns (ret: page)
      requires Valid() && heapAddress + n < 0x10_0000 && BelowStacks(View(), heapAddress + n)
      requires kernel.CanServe(Ones(n + TablesNeeded(
        SharedEntries(kernel.books.m, directory, kernel.template), heapAddress, n)))
      modifies this`usedBlocks, this`heapAddress, this`vm, kernel`books
      modifies kernel.memory`usedBlocks, kernel.memory`cursor, kernel.memory.ram
      ensures Valid() && ret == old(heapAddress) && HeapGrew(old(View()), View(), n)
      ensures GrowSteps(old(kernel.books), kernel.template, old(View()), n, kernel.books, View())
      ensures old(kernel.Counted()) ==> kernel.Counted()
    {
      hide KernelMemory.Sound, KernelMemory.CanServe, KernelMemory.Counted, KernelOk, ProcessOk, Ones, GrowStep;
      hide SharedEntries, HeapGrew;
      ghost var k, p, tmpl := kernel.books, View(), kernel.template;
      ret := heapAddress;
      NothingGrew(p);
      ghost var left := TablesNeeded(SharedEntries(k.m, directory, tmpl), heapAddress, n);
      for i := 0 to n
        invariant Valid() && heapAddress == p.heap + i && threads == p.threads
        invariant GrowSteps(k, tmpl, p, i, kernel.books, View()) && HeapGrew(p, View(), i)
        invariant left == TablesNeeded(SharedEntries(kernel.books.m, directory, tmpl), heapAddress, n - i)
        invariant kernel.CanServe(Ones(n - i + left))
        invariant old(kernel.Counted()) ==> kernel.Counted()
      {
        ghost var k0, p0 := kernel.books, View();
        EntryAsked(k0.m, directory, tmpl, DirIndex(heapAddress));
        StillBelow(p, p0, p.heap + n, heapAddress + 1);
        GrowHeap(n - i + left);
        left := left - if Shared(k0.m, directory, tmpl, DirIndex(p0.heap)) then 1 else 0;
        ghost var block, table :| GrowStep(k0, tmpl, p0, block, table, kernel.books, View());
        Grew(k, k0, tmpl, p, p0, i, block, table, kernel.books, View());
      }
    }

    /** The stores of flush_input_buffer and of sys_alloc: bytes into the data of the process, one by one. */
    method Deliver(a: u32, bs: seq<byte>)
      requires Valid() && Within(DataPages(View()), a, |bs|)
      modifies kernel`books, kernel.memory.ram
      ensures Valid() && kernel.books == Stored(old(kernel.books), a, bs)
      ensures old(kernel.Counted()) ==> kernel.Counted()
      ensures forall x: u32 | a <= x < a + |bs| :: ByteAt(kernel.books.m, x) == bs[x - a]
      ensures forall x: u32 | !(a <= x < a + |bs|) :: ByteAt(kernel.books.m, x) == old(ByteAt(kernel.books.m, x))
    {
      hide KernelMemory.Sound, KernelMemory.Counted, KernelOk, ProcessOk, DataPages, PutByte, ByteAt;
      ghost var k, p, tmpl := kernel.books, View(), kernel.template;
      for i := 0 to |bs|
        invariant Valid() && kernel.books == Stored(k, a, bs[..i])
        invariant old(kernel.Counted()) ==> kernel.Counted()
      {
        assert Frame(a + i) in DataPages(p);
        DataIsNotKept(kernel.books, tmpl, p, Frame(a + i));
        kernel.IsReserved();
        ghost var k0 := kernel.books;
        kernel.StoreByte(a + i, bs[i]);
        StoredNext(k, a, bs, i);
        ByteKeepsProcess(k0, tmpl, p, a + i, bs[i]);
      }
      assert bs[..|bs|] == bs;
      forall x: u32 { StoreIsExact(k.m, a, bs, x); }
    }

    /**
      sys_alloc: the heap grows by n pages, and the old end of the heap is stored at the address of the process
      that the caller gave, which was translated before.
     */
    method SysAlloc(n: nat, v: u32) returns (ret: page)
      requires Valid() && heapAddress + n < 0x10_0000 && BelowStacks(View(), heapAddress + n)
      requires kernel.CanServe(Ones(n + TablesNeeded(
        SharedEntries(kernel.books.m, directory, kernel.template), heapAddress, n)))
      requires GoodBuffer(View(), v, 4)
      modifies this`usedBlocks, this`heapAddress, this`vm, kernel`books
      modifies kernel.memory`usedBlocks, kernel.memory`cursor, kernel.memory.ram
      ensures Valid() && ret == old(heapAddress) && HeapGrew(old(View()), View(), n)
      ensures exists k :: Answered(old(kernel.books), kernel.template, old(View()), n, v, k, kernel.books, View())
      ensures WordIsAt(kernel.books.m, old(vm), v, ret)
      ensures old(kernel.Counted()) ==> kernel.Counted()
    {
      hide KernelMemory.Sound, KernelMemory.CanServe, KernelMemory.Counted, KernelOk, ProcessOk;
      hide Ones, HeapGrew, GrowSteps;
      hide Answered, Within, HasRoom, DataPages, GoodBuffer, BelowStacks, WordBytes, ByteOf, ByteAt;
      ghost var k, p, tmpl := kernel.books, View(), kernel.template;
      var physical := Physical(v);
      SysAllocTarget(k, tmpl, p, v, physical);
      ret := ExpandHeap(n);
      ghost var k1 := kernel.books;
      HeapAbove(k, tmpl, p);
      GrewThreads(p, View(), n);
      StillGood(p, View(), n, v, 4);
      BufferAfterGrowth(k, k1, tmpl, p, View(), v);
      Deliver(physical, WordBytes(ret * 4096));
      WordArrived(kernel.books.m, p.vm, v, physical, ret);
      IsAnswered(k, tmpl, p, n, v, k1, View());
    }

    /** array_list::find */
    method FindStackIndex(stack: page) returns (i: int)
      ensures i == -1 ==> stack !in stackBlocks
      ensures i != -1 ==> 0 <= i < |stackBlocks| && stackBlocks[i] == stack && stack !in stackBlocks[..i]
    {
      for k := 0 to |stackBlocks|
        invariant stack !in stackBlocks[..k]
      {
        if stackBlocks[k] == stack { return k; }
      }
      return -1;
    }

    /**
      terminate_thread with the thread destructor, for any thread but the main one. The kernel stays in order if
      and only if the thread lists no page table.
     */
    method TerminateThread(t: nat)
      requires Valid() && 0 < t < |threads|
      modifies this`stackBlocks, this`threads, kernel`books, kernel.memory`usedBlocks, kernel.memory.ram
      ensures kernel.Sound() && kernel.books == ThreadGone(old(kernel.books), old(View()), t)
      ensures View() == WithoutThread(old(View()), t) && StacksListed()
      ensures Valid() <==> old(|threads[t].used|) == 2
      ensures old(kernel.Counted()) ==>
        kernel.Counted() && kernel.memory.usedBlocks == old(kernel.memory.usedBlocks) - old(|threads[t].used|)
    {
      hide KernelMemory.Sound, KernelMemory.Counted, KernelOk, ProcessOk;
      hide ThreadGone, BlockAllocator.Memory.Counted, Spared;
      ghost var k, p, tmpl := kernel.books, View(), kernel.template;
      ThreadEnds(k, tmpl, p, t);
      kernel.IsReserved();
      var thr := threads[t];
      var i := FindStackIndex(thr.stack);
      stackBlocks := stackBlocks[..i] + stackBlocks[i + 1..];
      kernel.Free(thr.used, ThreadGone(k, p, t));
      threads := threads[..t] + threads[t + 1..];
    }

    /** process::~process: the directory and the process list go back; the blocks of its threads do not. */
    method Destroy()
      requires Valid()
      modifies kernel`books, kernel.memory`usedBlocks, kernel.memory.ram
      ensures kernel.Valid() && kernel.books == ProcessGone(old(kernel.books), View())
      ensures old(kernel.Counted()) ==>
        kernel.Counted() && kernel.memory.usedBlocks == old(kernel.memory.usedBlocks) - (1 + |usedBlocks|)
    {
      hide KernelMemory.Sound, KernelMemory.Counted, KernelOk, ProcessOk, ProcessGone;
      hide BlockAllocator.Memory.Counted, Distinct, Listed;
      ghost var k, p, tmpl := kernel.books, View(), kernel.template;
      ProcessEnds(k, tmpl, p);
      kernel.IsReserved();
      kernel.Free([directory] + usedBlocks, ProcessGone(k, p));
    }

    /** memory_copy of the user directory into the new one, whose page was just marked used. */
    method CopyTemplate(ghost k: Kernel, ghost p: Ownership.Process, ghost tmpl: page, ghost rest: seq<nat>)
      requires At(WithPages(k, PageRange(p.dir, 1)), p) && tmpl == kernel.template && p == Newborn(p.id, p.dir)
      requires Unheld(k, p.dir) && KernelOk(k, tmpl) && kernel.CanServe(rest)
      modifies kernel`books, kernel.memory.ram
      ensures At(NewDirectory(k, tmpl, p.id, p.dir), p)
      ensures kernel.CanServe(rest) && (old(kernel.Counted()) ==> kernel.Counted())
    {
      hide Kernels.UsedPages, Entry, KernelOk, CopyPage, BlockAllocator.Marked, Paging.SameBut, WithPages;
      ghost var m, d := kernel.memory.ram[..], kernel.memory.dataPage;
      MayCopy(k, tmpl, p.id, p.dir, d);
      kernel.IsReserved();
      Paging.ClonePageTable(kernel.memory.ram, kernel.template, directory);
      Paging.MarksStay(kernel.memory, m, kernel.memory.ram[..]);
      Paging.CopySameBut(k.m, m, d, tmpl, p.dir);
      kernel.books := NewDirectory(k, tmpl, p.id, p.dir);
    }

    /** The eight blocks of the program image, mapped from 8 MB on. What is loaded into them is not modelled. */
    method LoadImage(ghost k: Kernel, ghost p: Ownership.Process, ghost tmpl: page)
      returns (ghost image: page, ghost table: page)
      requires At(k, p) && tmpl == kernel.template && Built(k, tmpl, p) && p.used == [] && p.vm == map[]
      requires (forall i: nat | i < 1024 :: Shared(k.m, p.dir, tmpl, i)) && kernel.CanServe([8, 1, 2, 1])
      modifies this`usedBlocks, this`vm, kernel`books
      modifies kernel.memory`usedBlocks, kernel.memory`cursor, kernel.memory.ram
      ensures ImageFresh(k, image, table)
      ensures var s := WithImage(k, tmpl, p, image, table, IMAGE_PAGES); At(s.kernel, s.process)
      ensures kernel.CanServe([2, 1]) && (old(kernel.Counted()) ==> kernel.Counted())
    {
      hide KernelMemory.Sound, KernelMemory.CanServe, KernelMemory.Counted, KernelOk, Built, Shared, DirIndex, Unheld;
      hide PageRange, WithPages, WithImage, ImageOk, PageKernel, PageProcess, NextImagePage, ImageFresh;
      assert [8] + [1, 2, 1] == [8, 1, 2, 1] && [1] + [2, 1] == [1, 2, 1];
      var g := kernel.Allocate(8, [1, 2, 1]);
      image, table := g, 0;
      ImageStarts(k, tmpl, p, image, table);
      for i := 0 to 8
        invariant var s := WithImage(k, tmpl, p, image, table, i);
          At(WithPages(s.kernel, PageRange(image + i, 8 - i)), s.process)
        invariant i > 0 ==> ImageFresh(k, image, table)
        invariant kernel.CanServe(if i == 0 then [1] + [2, 1] else [2, 1])
        invariant old(kernel.Counted()) ==> kernel.Counted()
      {
        ghost var s := WithImage(k, tmpl, p, image, table, i);
        if i == 0 { ImageStarts(k, tmpl, p, image, table); }
        MayAddImage(k, tmpl, p, image, table, i);
        ghost var clone :=
          AddBlock(ENTRY_PAGE + i, g + i, WithPages(s.kernel, PageRange(image + i, 8 - i)), s.process, tmpl, [2, 1]);
        if i == 0 { table := clone; }
        ImageAdded(k, tmpl, p, image, table, i, s, clone);
      }
      ImageLast(k, tmpl, p, image, table);
    }

    /** What get_physical finds for an address of the process: its own mapping, or the identity. */
    function Physical(v: u32): (p: u32)
      requires Valid()
      reads this, kernel, kernel.memory, kernel.memory.ram
      ensures p == Lookup(vm, VPage(v)) * 4096 + Offset(v)
    {
      OkIsBuilt(kernel.books, kernel.template, View());
      kernel.Physical(directory, v)
    }
  }

  lemma MayAssign(k: Kernel, tmpl: page, p: Ownership.Process, g: page, h: Holder)
    requires KernelOk(k, tmpl) && Built(k, tmpl, p) && Unheld(k, g)
    ensures var l := Take(k, g, h);
      && p.dir in l.dirs && p.dir != l.identity && l.m == k.m && k.used <= l.used
      && forall c: page :: Unheld(l, c) <==> Unheld(k, c) && c != g
  {
    hide World, Sees, Closed, OwnTables, Views;
    NotIdentity(k, tmpl, p);
  }

  /** Two pages were marked used for a stack; booking them makes the step that ThreadKernel begins with. */
  lemma StackTaken(
      k: Kernel, k0: Kernel, tmpl: page, p: Ownership.Process, stack: page, base: page, shared: bool)
    requires KernelOk(k, tmpl) && Built(k, tmpl, p) && base + 1 < 0x10_0000 && IsStack(stack)
    requires k0 == WithPages(k, PageRange(base, 2))
    requires forall g: page | base <= g < base + 2 :: g !in k.used && Unheld(k0, g) && g in k0.used
    ensures Unheld(k0, base) && base in k0.used && base !in k.used && base + 1 !in k.used
    ensures var k1 := Take(k0, base, ThreadOf(p.id, stack, 0));
      && Unheld(k1, base + 1) && base + 1 in k1.used
      && Take(k1, base + 1, ThreadOf(p.id, stack, if shared then 2 else 1)) == WithStack(k, p.id, stack, base, shared)
    ensures var k2 := WithStack(k, p.id, stack, base, shared);
      && p.dir in k2.dirs && p.dir != k2.identity && k2.m == k.m
      && DirIndex(stack - 1) == DirIndex(stack - 2) == Table(stack)
  {
    hide World, Sees, Closed, Views, OwnTables, Shared;
    NotIdentity(k, tmpl, p);
    TakenAnyway(k, p.id, stack, base, shared);
    StackTable(stack);
    assert Unheld(k0, base) && Unheld(k0, base + 1);
  }

  lemma CloneApart(
      k: Kernel, k1: Kernel, tmpl: page, p: Ownership.Process, stack: page, base: page, clone: page, shared: bool)
    requires base + 1 < 0x10_0000 && k1 == WithStack(k, p.id, stack, base, shared)
    requires clone != 0 ==> clone !in k1.used
    requires shared ==> clone != 0
    ensures shared ==> clone !in k.used && clone != base && clone != base + 1
  {
  }

  lemma SecondPage(k1: Kernel, tmpl: page, dir: page, stack: page, base: page, clone: page, h: Holder)
    requires IsStack(stack) && MayMap(k1, tmpl, dir, stack - 1, clone)
    ensures var k2 := MapIn(k1, tmpl, dir, stack - 1, base, clone, h);
      dir in k2.dirs && dir != k2.identity && !Shared(k2.m, dir, tmpl, DirIndex(stack - 2))
  {
    hide Shared, Entry, KernelOk, MapIn, DirIndex;
    StackTable(stack);
    MapInOk(k1, tmpl, dir, stack - 1, base, clone, h);
  }

  lemma MapInUnshared(k: Kernel, tmpl: page, dir: page, vp: page, frame: page, c: page, d: page, h: Holder)
    requires !Shared(k.m, dir, tmpl, DirIndex(vp))
    ensures MapIn(k, tmpl, dir, vp, frame, c, h) == MapIn(k, tmpl, dir, vp, frame, d, h)
  {
    hide Shared, DirIndex, Mapped;
    MappedUnshared(k.m, dir, tmpl, vp, frame * 4096, c * 4096, d * 4096);
  }

  lemma StacksBelow(k: Kernel, tmpl: page, p: Ownership.Process)
    requires ProcessOk(k, tmpl, p)
    ensures forall t | 0 <= t < |p.threads| :: IsStack(p.threads[t].stack) && p.heap <= p.threads[t].stack - 2
  {
    hide Booked, OwnTables, Views, HeapBacked, Shared;
    assert forall t | 0 <= t < |p.threads| :: StackBacked(p, p.threads[t]);
  }

  lemma OneTaken(k: Kernel, tmpl: page, p: Ownership.Process, g: page)
    requires KernelOk(k, tmpl) && Built(k, tmpl, p)
    ensures var k0 := WithPages(k, PageRange(g, 1));
      KernelOk(k0, tmpl) && Built(k0, tmpl, p) && k0.m == k.m && k0 == WithPages(k, {} + {g}) && k.used <= k0.used
  {
    hide KernelOk, Built;
    assert PageRange(g, 1) == {} + {g};
    WithPagesBuilt(k, PageRange(g, 1), tmpl, p);
  }

  lemma NothingMore(k: Kernel, g: page)
    ensures WithPages(k, {}) == k
  {
    assert k.used + {} == k.used;
  }

  lemma MayCopy(k: Kernel, tmpl: page, id: nat, g: page, d: page)
    requires KernelOk(k, tmpl) && Unheld(k, g)
    ensures var l := NewDirectory(k, tmpl, id, g);
      && KernelOk(l, tmpl) && l.m == CopyPage(k.m, tmpl, g) && l.used == WithPages(k, PageRange(g, 1)).used
      && WithPages(k, PageRange(g, 1)) == k.(used := l.used)
      && (d !in k.roles ==> tmpl != d)
      && (d in k.holders && d !in k.roles ==> g != d && d !in l.roles)
      && forall h | g != d && Holds(k, d, h) :: Holds(l, d, h)
  {
    hide Entry, CopyPage, Sees, Closed, Built;
    assert HasRole(k.roles, tmpl, TemplateDirectory);
    hide World;
    NewDirectoryOk(k, tmpl, id, g, Newborn(id, g));
    assert PageRange(g, 1) == {g};
  }

  // ----- expand_heap over several pages

  /** n heap pages were added: nothing else moved, and the new pages lie on blocks the process did not list. */
  ghost predicate HeapGrew(p: Ownership.Process, r: Ownership.Process, n: nat) {
    && p.heap + n < 0x10_0000 && r == p.(used := r.used, heap := p.heap + n, vm := r.vm) && p.used <= r.used
    && (forall w: page | !(p.heap <= w < p.heap + n) ::
         (w in r.vm <==> w in p.vm) && (w in r.vm ==> r.vm[w] == p.vm[w]))
    && forall w: page | p.heap <= w < p.heap + n :: w in r.vm && r.vm[w] !in p.used
  }

  lemma NothingGrew(p: Ownership.Process)
    ensures HeapGrew(p, p, 0)
  {
  }

  lemma StillBelow(p: Ownership.Process, r: Ownership.Process, h: nat, i: nat)
    requires BelowStacks(p, h) && i <= h && r.threads == p.threads
    ensures BelowStacks(r, i)
  {
  }

  lemma EntryAsked(m: Ram, dir: page, tmpl: page, i: nat)
    requires i < 1024
    ensures i in SharedEntries(m, dir, tmpl) <==> Shared(m, dir, tmpl, i)
  {
  }

  lemma Grew(
      k: Kernel, k0: Kernel, tmpl: page, p: Ownership.Process, p0: Ownership.Process, i: nat, block: page, table: page,
      l: Kernel, r: Ownership.Process)
    requires GrowSteps(k, tmpl, p, i, k0, p0) && HeapGrew(p, p0, i)
    requires KernelOk(k0, tmpl) && ProcessOk(k0, tmpl, p0) && GrowStep(k0, tmpl, p0, block, table, l, r)
    ensures GrowSteps(k, tmpl, p, i + 1, l, r) && HeapGrew(p, r, i + 1)
    ensures r.heap == p0.heap + 1 && r.threads == p0.threads && r.dir == p0.dir
    ensures SharedEntries(l.m, p0.dir, tmpl) == SharedEntries(k0.m, p0.dir, tmpl) - {DirIndex(p0.heap)}
  {
    hide Shared, KernelOk, PageKernel, DirIndex, BelowStacks, SharedEntries, Built, ProcessOk;
    GrowMoves(k0, tmpl, p0, block, table);
    GrowOk(k0, tmpl, p0, block, table);
    AddPageOk(k0, tmpl, p0, p0.heap, block, table);
    EntryTaken(k0, l, tmpl, p0.dir, DirIndex(p0.heap));
  }

  // ----- stores into the data of a process

  lemma DataIsNotKept(k: Kernel, tmpl: page, p: Ownership.Process, g: page)
    requires ProcessOk(k, tmpl, p) && g in DataPages(p)
    ensures g !in k.roles && !Holds(k, g, Reserved)
  {
    hide ProcessOk, IsDataPage;
    var w :| w in p.vm && IsDataPage(p, w) && p.vm[w] == g;
    DataIsListed(k, tmpl, p, w);
  }

  lemma StoredNext(k: Kernel, a: u32, bs: seq<byte>, i: nat)
    requires i < |bs| && a + |bs| <= TWO32
    ensures Stored(Stored(k, a, bs[..i]), a + i, [bs[i]]) == Stored(k, a, bs[..i + 1])
  {
    hide PutByte;
    assert bs[..i + 1][..i] == bs[..i];
    OneByte(StoreBytes(k.m, a, bs[..i]), a + i, bs[i]);
  }

  lemma ByteKeepsProcess(k: Kernel, tmpl: page, p: Ownership.Process, a: u32, b: byte)
    requires KernelOk(k, tmpl) && ProcessOk(k, tmpl, p) && Frame(a) in DataPages(p)
    ensures ProcessOk(Stored(k, a, [b]), tmpl, p)
  {
    hide KernelOk, ProcessOk, DataPages, PutByte, Frame, Paging.SameBut, LiveTable;
    DataIsNotKept(k, tmpl, p, Frame(a));
    if LiveTable(k, tmpl, [p], Frame(a)) { TablesHaveRoles(k, tmpl, [p], Frame(a)); }
    OneByte(k.m, a, b);
    PutByteSameBut(k.m, a, b);
    SystemSpared(k, tmpl, [p], PutByte(k.m, a, b), Frame(a));
    assert ProcessOk(Stored(k, a, [b]), tmpl, [p][0]);
  }

  lemma SysAllocTarget(k: Kernel, tmpl: page, p: Ownership.Process, v: u32, physical: u32)
    requires ProcessOk(k, tmpl, p) && GoodBuffer(p, v, 4) && physical == Lookup(p.vm, VPage(v)) * 4096 + Offset(v)
    ensures physical == Translate(k.m, p.dir, v) && physical + 4 <= TWO32 && Within(DataPages(p), physical, 4)
  {
    GoodBufferLeadsToData(k, tmpl, p, v, 4);
    hide PageOf, Translate, Entry, UserPage, Booked, OwnTables, Shared, HeapBacked, Stacked, DataOnly, DataPages;
    TranslateByPage(k.m, p.dir, v);
    assert PageOf(k.m, p.dir, VPage(v)) == Lookup(p.vm, VPage(v));
  }

  lemma IsAnswered(
      k: Kernel, tmpl: page, p: Ownership.Process, n: nat, v: u32, k1: Kernel, r: Ownership.Process)
    requires GrowSteps(k, tmpl, p, n, k1, r) && Translate(k.m, p.dir, v) + 4 <= TWO32
    ensures Answered(k, tmpl, p, n, v, k1, Stored(k1, Translate(k.m, p.dir, v), WordBytes(p.heap * 4096)), r)
  {
  }

  lemma GrewThreads(p: Ownership.Process, r: Ownership.Process, n: nat)
    requires HeapGrew(p, r, n)
    ensures r.threads == p.threads && r.dir == p.dir
  {
  }

  /** Growth leaves a good buffer good. */
  lemma StillGood(p: Ownership.Process, r: Ownership.Process, n: nat, v: u32, count: nat)
    requires GoodBuffer(p, v, count) && HeapGrew(p, r, n) && BelowStacks(p, p.heap + n) && r.threads == p.threads
    requires HEAP_PAGE <= p.heap
    ensures GoodBuffer(r, v, count)
    ensures count > 0 ==> VPage(v) in p.vm && VPage(v) in r.vm && r.vm[VPage(v)] == p.vm[VPage(v)]
  {
    if count > 0 {
      forall w: page | VPage(v) <= w <= VPage(v + count - 1)
        ensures IsDataPage(r, w) && w in r.vm && r.vm[w] == p.vm[w]
      {
        assert IsDataPage(p, w);
        OldDataPage(p, r, n, w);
      }
      assert VPage(v) <= VPage(v + count - 1);
    }
  }

  lemma OldDataPage(p: Ownership.Process, r: Ownership.Process, n: nat, w: page)
    requires IsDataPage(p, w) && w in p.vm && HeapGrew(p, r, n) && BelowStacks(p, p.heap + n) && r.threads == p.threads
    requires HEAP_PAGE <= p.heap
    ensures IsDataPage(r, w) && w in r.vm && r.vm[w] == p.vm[w]
  {
    if !IsListPage(p, w) {
      var t :| 0 <= t < |p.threads| && IsStackPage(p.threads[t], w);
      assert IsStackPage(r.threads[t], w);
    }
  }

  lemma BufferAfterGrowth(
      k: Kernel, l: Kernel, tmpl: page, p: Ownership.Process, r: Ownership.Process, v: u32)
    requires ProcessOk(k, tmpl, p) && ProcessOk(l, tmpl, r) && GoodBuffer(p, v, 4) && GoodBuffer(r, v, 4)
    requires r.vm[VPage(v)] == p.vm[VPage(v)]
    ensures Within(DataPages(r), Translate(k.m, p.dir, v), 4)
  {
    hide ProcessOk, DataPages, IsDataPage;
    SameTarget(k, l, tmpl, p, r, v);
    GoodBufferLeadsToData(l, tmpl, r, v, 4);
  }

  lemma SameTarget(
      k: Kernel, l: Kernel, tmpl: page, p: Ownership.Process, r: Ownership.Process, v: u32)
    requires ProcessOk(k, tmpl, p) && ProcessOk(l, tmpl, r) && VPage(v) in p.vm && VPage(v) in r.vm
    requires r.vm[VPage(v)] == p.vm[VPage(v)]
    ensures Translate(l.m, r.dir, v) == Translate(k.m, p.dir, v)
  {
    hide PageOf, Translate, Entry, UserPage, Booked, OwnTables, Shared, HeapBacked, Stacked, DataOnly;
    TranslateByPage(k.m, p.dir, v);
    TranslateByPage(l.m, r.dir, v);
    assert PageOf(k.m, p.dir, VPage(v)) == p.vm[VPage(v)] && PageOf(l.m, r.dir, VPage(v)) == r.vm[VPage(v)];
  }

  // ----- what the destructors free

  lemma ThreadEnds(k: Kernel, tmpl: page, p: Ownership.Process, t: nat)
    requires KernelOk(k, tmpl) && ProcessOk(k, tmpl, p) && 0 < t < |p.threads|
    ensures var l := ThreadGone(k, p, t); var gs := p.threads[t].used;
      && (KernelOk(l, tmpl) <==> |gs| == 2) && (|gs| == 2 ==> ProcessOk(l, tmpl, WithoutThread(p, t)))
      && l.m == k.m && l.roles == k.roles
      && l.used == k.used - Listed(gs) && Listed(gs) <= k.used && Distinct(gs) && gs != []
      && forall g | Holds(k, g, Reserved) :: Holds(l, g, Reserved) && g !in Listed(gs)
    ensures forall u, v | 0 <= u < v < |p.threads| :: p.threads[u].stack != p.threads[v].stack
  {
    hide KernelOk, Shared, HeapBacked, Entry, Spared, PageOf, Views, OwnTables, StackBacked, Booked;
    EndThreadExact(k, tmpl, p, t);
    if |p.threads[t].used| == 2 { EndThreadOk(k, tmpl, p, t, p); }
    EndThreadFrees(k, tmpl, p, t);
    ThreadHeld(k, tmpl, p, t);
  }

  lemma ThreadHeld(k: Kernel, tmpl: page, p: Ownership.Process, t: nat)
    requires ProcessOk(k, tmpl, p) && t < |p.threads|
    ensures Distinct(p.threads[t].used) && p.threads[t].used != []
    ensures forall g | g in Listed(p.threads[t].used) :: g in k.holders && k.holders[g].ThreadOf?
  {
    hide KernelOk, Shared, HeapBacked, Entry, PageOf, Views, OwnTables;
    assert StackBacked(p, p.threads[t]);
    assert forall i | 0 <= i < |p.threads[t].used| ::
      Holds(k, p.threads[t].used[i], ThreadOf(p.id, p.threads[t].stack, i));
  }

  lemma ProcessEnds(k: Kernel, tmpl: page, p: Ownership.Process)
    requires KernelOk(k, tmpl) && ProcessOk(k, tmpl, p)
    ensures var l := ProcessGone(k, p); var gs := [p.dir] + p.used;
      && KernelOk(l, tmpl) && l.roles.Keys <= k.roles.Keys
      && l.m == k.m && l.used == k.used - Listed(gs) && Listed(gs) <= k.used && Distinct(gs)
      && forall g | Holds(k, g, Reserved) :: Holds(l, g, Reserved) && g !in Listed(gs)
  {
    hide KernelOk, Shared, HeapBacked, Entry, PageOf, Views, OwnTables, Stacked;
    SurvivesProcessEnd(k, tmpl, p, p);
    EndProcessFrees(k, tmpl, p);
    assert Listed([p.dir] + p.used) == ProcessPages(p);
    assert Holds(k, p.dir, DirectoryOf(p.id));
    assert forall i | 0 <= i < |p.used| :: Holds(k, p.used[i], ListOf(p.id, i));
  }

  // ----- the program image

  /** The image and its table are on pages that were not in use. */
  ghost predicate ImageFresh(k: Kernel, image: page, table: page) {
    && image + IMAGE_PAGES <= 0x10_0000 && !(image <= table < image + IMAGE_PAGES) && table !in k.used
    && forall g: page | image <= g < image + IMAGE_PAGES :: g !in k.used
  }

  lemma ImageStarts(k: Kernel, tmpl: page, p: Ownership.Process, image: page, table: page)
    requires image + IMAGE_PAGES <= 0x10_0000
    ensures WithImage(k, tmpl, p, image, table, 0) == Stage(k, p)
  {
  }

  /** While the loop runs, the rest of the image is in use and nobody's. */
  lemma MayAddImage(k: Kernel, tmpl: page, p: Ownership.Process, image: page, table: page, i: nat)
    requires i < IMAGE_PAGES && image + IMAGE_PAGES <= 0x10_0000
    requires KernelOk(k, tmpl) && Built(k, tmpl, p) && p.used == [] && p.vm == map[]
    requires forall j: nat | j < 1024 :: Shared(k.m, p.dir, tmpl, j)
    requires forall g: page | image <= g < image + IMAGE_PAGES :: g !in k.used
    requires i > 0 ==> ImageFresh(k, image, table)
    ensures var s := WithImage(k, tmpl, p, image, table, i);
      var k0 := WithPages(s.kernel, PageRange(image + i, 8 - i));
      && KernelOk(k0, tmpl) && Built(k0, tmpl, s.process) && Unheld(k0, image + i) && image + i in k0.used
      && DirIndex(ENTRY_PAGE + i) == 2 && k0.m == s.kernel.m && Shared(s.kernel.m, s.process.dir, tmpl, 2) == (i == 0)
      && ImageOk(k, tmpl, p, image, table, i, s) && k.used <= k0.used
  {
    hide KernelOk, Built, Shared, Extends, WithImage, DirIndex, ImageOk, Unheld, ImageFresh, PageRange, WithPages;
    var s := WithImage(k, tmpl, p, image, table, i);
    if i == 0 {
      ImageStarts(k, tmpl, p, image, table);
      ImageBegins(k, tmpl, p, image, table);
    } else {
      ImageUnheld(k, tmpl, image, table);
      WithImageOk(k, tmpl, p, image, table, i);
    }
    NewIsUnheld(k, tmpl, image + i);
    ImageSoFar(k, tmpl, p, image, table, i, s);
    ExtendsBooks(k, s.kernel, tmpl, p.dir);
    WithPagesBuilt(s.kernel, PageRange(image + i, 8 - i), tmpl, s.process);
    StillUnheld(s.kernel, PageRange(image + i, 8 - i), image + i);
    RangeSplit(image + i, 8 - i);
    ImageTable(i);
  }

  lemma StillUnheld(k: Kernel, gs: set<page>, g: page)
    ensures var l := WithPages(k, gs); l.m == k.m && l.used == k.used + gs && (Unheld(l, g) <==> Unheld(k, g))
  {
  }

  lemma ImageSoFar(k: Kernel, tmpl: page, p: Ownership.Process, image: page, table: page, i: nat, s: Stage)
    requires i < IMAGE_PAGES && image + IMAGE_PAGES <= 0x10_0000 && ImageOk(k, tmpl, p, image, table, i, s)
    requires Unheld(k, image + i) && (i > 0 ==> ImageFresh(k, image, table))
    ensures Extends(k, s.kernel, tmpl, p.dir) && Built(s.kernel, tmpl, s.process) && s.process.dir == p.dir
    ensures Shared(s.kernel.m, s.process.dir, tmpl, 2) == (i == 0)
    ensures Unheld(s.kernel, image + i) && k.used <= s.kernel.used
  {
    hide KernelOk, Built, Shared, Extends, PageRange, ImageList, ImageMap;
  }

  lemma ImageUnheld(k: Kernel, tmpl: page, image: page, table: page)
    requires KernelOk(k, tmpl) && ImageFresh(k, image, table)
    ensures Unheld(k, table) && forall g: page | image <= g < image + IMAGE_PAGES :: Unheld(k, g)
    ensures image + IMAGE_PAGES <= 0x10_0000 && !(image <= table < image + IMAGE_PAGES)
  {
    hide KernelOk, Unheld;
    NewIsUnheld(k, tmpl, table);
    forall g: page | image <= g < image + IMAGE_PAGES ensures Unheld(k, g) { NewIsUnheld(k, tmpl, g); }
  }

  lemma ImageAdded(
      k: Kernel, tmpl: page, p: Ownership.Process, image: page, table: page, i: nat, s: Stage, clone: page)
    requires i < IMAGE_PAGES && image + IMAGE_PAGES <= 0x10_0000
    requires forall g: page | image <= g < image + IMAGE_PAGES :: g !in k.used
    requires i == 0 ==> s == Stage(k, p)
    requires i > 0 ==> s == WithImage(k, tmpl, p, image, table, i) && ImageFresh(k, image, table)
    requires DirIndex(ENTRY_PAGE + i) == 2 && Shared(s.kernel.m, s.process.dir, tmpl, 2) == (i == 0)
    requires var k0 := WithPages(s.kernel, PageRange(image + i, 8 - i));
      i == 0 ==> clone == table && clone !in k0.used
    ensures ImageFresh(k, image, table)
    ensures var k0 := WithPages(s.kernel, PageRange(image + i, 8 - i));
      var t := WithImage(k, tmpl, p, image, table, i + 1);
      && PageKernel(k0, tmpl, s.process, ENTRY_PAGE + i, image + i, clone) ==
         WithPages(t.kernel, PageRange(image + (i + 1), 8 - (i + 1)))
      && PageProcess(k0, tmpl, s.process, ENTRY_PAGE + i, image + i, clone) == t.process
  {
    hide Shared, DirIndex, PageKernel, PageProcess, WithImage, PageRange;
    var rest := PageRange(image + (i + 1), 8 - (i + 1));
    RangeSplit(image + i, 8 - i);
    PageAnyway(s.kernel, rest, tmpl, s.process, ENTRY_PAGE + i, image + i, clone, table);
    if i == 0 { ImageStarts(k, tmpl, p, image, table); }
    WithImageNext(k, tmpl, p, image, table, i);
  }

  lemma RangeSplit(g: nat, count: nat)
    requires 0 < count && g + count <= 0x10_0000
    ensures PageRange(g, count) == PageRange(g + 1, count - 1) + {g} && g in PageRange(g, count)
  {
  }

  lemma WithImageNext(k: Kernel, tmpl: page, p: Ownership.Process, image: page, table: page, i: nat)
    requires i < IMAGE_PAGES && image + IMAGE_PAGES <= 0x10_0000
    ensures WithImage(k, tmpl, p, image, table, i + 1) ==
            NextImagePage(WithImage(k, tmpl, p, image, table, i), tmpl, image + i, table, i)
  {
  }

  lemma ImageLast(k: Kernel, tmpl: page, p: Ownership.Process, image: page, table: page)
    requires image + IMAGE_PAGES <= 0x10_0000
    ensures var s := WithImage(k, tmpl, p, image, table, IMAGE_PAGES);
      WithPages(s.kernel, PageRange(image + 8, 0)) == s.kernel
  {
    hide WithImage;
    NothingMore(WithImage(k, tmpl, p, image, table, IMAGE_PAGES).kernel, image);
    assert PageRange(image + 8, 0) == {};
  }

  /** With the image in place the process is built and has no stack yet. */
  lemma ImageDone(k: Kernel, tmpl: page, p: Ownership.Process, image: page, table: page)
    requires KernelOk(k, tmpl) && Built(k, tmpl, p) && p.used == [] && p.vm == map[]
    requires forall j: nat | j < 1024 :: Shared(k.m, p.dir, tmpl, j)
    requires ImageFresh(k, image, table)
    ensures var s := WithImage(k, tmpl, p, image, table, IMAGE_PAGES);
      && Built(s.kernel, tmpl, s.process) && Shared(s.kernel.m, s.process.dir, tmpl, 255)
      && s.process.dir == p.dir && s.process.threads == p.threads && s.process.heap == p.heap && s.process.id == p.id
      && s.kernel.used == k.used + PageRange(image, 8) + {table}
  {
    hide KernelOk, Built, Shared, Extends, WithImage;
    ImageUnheld(k, tmpl, image, table);
    WithImageOk(k, tmpl, p, image, table, IMAGE_PAGES);
  }

  lemma FirstStack()
    ensures HasRoom([]) && FreeStack([], 0) == STACK_PAGE && Table(STACK_PAGE) == 255
  {
    assert Probe(0) !in [];
  }

  lemma BirthDone(k: Kernel, tmpl: page, id: nat, b: Supply)
    requires KernelOk(k, tmpl) && b.dir !in k.used
    requires var k1 := NewDirectory(k, tmpl, id, b.dir);
      ImageFresh(k1, b.image, b.imageTable) && b.stack + 1 < 0x10_0000 &&
      var used := k1.used + PageRange(b.image, 8) + {b.imageTable};
      && b.stack !in used && b.stack + 1 !in used
      && b.stackTable !in used && b.stackTable != b.stack && b.stackTable != b.stack + 1
    ensures b.Distinct()
    ensures var s := Born(k, tmpl, id, b);
      BirthStep(k, tmpl, id, b, s.kernel, s.process) && KernelOk(s.kernel, tmpl) && ProcessOk(s.kernel, tmpl, s.process)
  {
    hide KernelOk, ProcessOk, Born, Firstborn, Spares, SupplyPages;
    assert BirthAsked(k, b);
    BirthMoves(k, tmpl, id, b);
  }
}
