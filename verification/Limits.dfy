/** What the kernel's bookkeeping does not give: thread blocks, stacks beyond the first table, stale mappings. */
module Limits {
  import opened Machine
  import opened Pages
  import opened PageRuns
  import opened Protection
  import opened Ownership
  import opened Births
  import opened ProcessRuns
  import opened Stores

  // ----- a process that ends

  /** Every block of every thread is still in use after its process has ended, and there is always one. */
  lemma ThreadBlocksStayUsed(k: Kernel, tmpl: page, p: Process)
    requires KernelOk(k, tmpl) && ProcessOk(k, tmpl, p)
    ensures ThreadPages(p.threads) <= ProcessGone(k, p).used
    ensures p.threads != [] && p.threads[0].used != [] && p.threads[0].used[0] in ThreadPages(p.threads)
  {
    hide World, Sees, Closed, ProcessPages;
    PagesHeld(k, tmpl, p);
    hide Views, Shared, HeapBacked, Booked, OwnTables;
    assert StackBacked(p, p.threads[0]);
  }

  // ----- buffers on a stack

  /**
    The system calls translate a buffer's first address only. On a stack that is right if and only if the buffer
    stays in one page, because the upper stack page lies on the lower block.
   */
  lemma StackBuffer(k: Kernel, tmpl: page, p: Process, t: nat, v: u32, count: nat)
    requires ProcessOk(k, tmpl, p) && t < |p.threads| && count > 0
    requires (p.threads[t].stack - 2) * 4096 <= v && v + count <= p.threads[t].stack * 4096
    ensures (forall a: u32 | v <= a < v + count :: Translate(k.m, p.dir, a) == Translate(k.m, p.dir, v) + a - v) <==>
            VPage(v) == VPage(v + count - 1)
  {
    hide PageOf, Translate, Entry, UserPage, Booked, OwnTables, Shared, HeapBacked;
    var s := p.threads[t].stack;
    assert StackBacked(p, p.threads[t]);
    assert PageOf(k.m, p.dir, s - 1) == p.vm[s - 1] && PageOf(k.m, p.dir, s - 2) == p.vm[s - 2];
    BufferIsContiguous(k.m, p.dir, v, count);
    assert s - 2 <= VPage(v) <= VPage(v + count - 1) <= s - 1;
  }

  // ----- frames of different processes

  /** All that p has mapped is in its lists. */
  ghost predicate Current(p: Process) {
    forall w | w in p.vm :: p.vm[w] in PagesOf(p)
  }

  /** Processes whose mappings are current have no frame in common, so user mode cannot reach another's memory. */
  lemma FramesApart(k: Kernel, tmpl: page, p: Process, q: Process, v: page, w: page)
    requires ProcessOk(k, tmpl, p) && ProcessOk(k, tmpl, q) && p.id != q.id && Current(p) && Current(q)
    requires UserPage(k.m, p.dir, v) && UserPage(k.m, q.dir, w)
    ensures PageOf(k.m, p.dir, v) != PageOf(k.m, q.dir, w)
  {
    hide PageOf, Entry, UserPage, Booked, OwnTables, Shared, HeapBacked, Stacked, PagesOf;
    PagesApart(k, tmpl, p, q);
  }

  lemma GrowStaysCurrent(k: Kernel, tmpl: page, p: Process, block: page, table: page)
    requires Current(p) && p.heap + 1 < 0x10_0000
    ensures Current(Grown(k, tmpl, p, block, table))
  {
    hide PagesOf, Shared;
    GrowPages(k, tmpl, p, block, table);
  }

  lemma SpawnStaysCurrent(k: Kernel, tmpl: page, p: Process, stack: page, block: page, table: page)
    requires Current(p) && IsStack(stack) && block + 1 < 0x10_0000
    ensures Current(ThreadProcess(k, tmpl, p, stack, block, table, false))
  {
    hide PagesOf, Shared, Table;
    SpawnPages(k, tmpl, p, stack, block, table);
  }

  lemma {:induction false} ImageIsCurrent(image: page, table: page, i: nat, w: page)
    requires image + i <= 0x10_0000 && i <= IMAGE_PAGES && w in ImageMap(image, i)
    ensures image <= ImageMap(image, i)[w] < image + i
  {
    if w in ImageMap(image, i - 1) { ImageIsCurrent(image, table, i - 1, w); }
  }

  lemma BirthIsCurrent(id: nat, b: Supply)
    requires b.Distinct()
    ensures Current(Firstborn(id, b))
  {
    hide PagesOf, ImageMap;
    FirstbornPages(id, b);
    var p := Firstborn(id, b);
    forall w | w in p.vm ensures p.vm[w] in PagesOf(p) {
      if w in ImageMap(b.image, IMAGE_PAGES) { ImageIsCurrent(b.image, b.imageTable, IMAGE_PAGES, w); }
    }
  }

  /** A thread that ends leaves its stack mapped to blocks its process no longer has. */
  lemma EndThreadLeavesStale(k: Kernel, tmpl: page, p: Process, t: nat)
    requires ProcessOk(k, tmpl, p) && 0 < t < |p.threads|
    ensures !Current(WithoutThread(p, t))
  {
    hide PagesOf, Booked, OwnTables, Views, HeapBacked, Shared;
    EndThreadPages(k, tmpl, p, t);
    var thread := p.threads[t];
    assert StackBacked(p, thread);
    assert thread.used[0] in Listed(thread.used);
    assert p.vm[thread.stack - 1] !in PagesOf(WithoutThread(p, t));
  }

  /**
    A read buffer on the stack of a thread that ends lies in blocks that are free at once: bytes that are typed
    later are stored where nobody expects them.
   */
  lemma BufferOnEndedStack(k: Kernel, tmpl: page, p: Process, t: nat, x: u32)
    requires KernelOk(k, tmpl) && ProcessOk(k, tmpl, p) && 0 < t < |p.threads|
    requires IsStackPage(p.threads[t], VPage(x))
    ensures var g := Frame(Translate(k.m, p.dir, x));
      g in DataPages(p) && g !in ThreadGone(k, p, t).used && g !in PagesOf(WithoutThread(p, t))
  {
    hide ProcessOk, KernelOk, PageOf, Translate, PagesOf, UserPage, DataPages, ThreadPages, Frame;
    assert IsDataPage(p, VPage(x));
    DataIsListed(k, tmpl, p, VPage(x));
    Touches(k, tmpl, p, VPage(x));
    TranslateByPage(k.m, p.dir, x);
    FrameAt(p.vm[VPage(x)], x);
    EndThreadPages(k, tmpl, p, t);
    OnThatStack(k, tmpl, p, t, VPage(x));
  }

  lemma FrameAt(g: page, v: u32)
    ensures g * 4096 + Offset(v) < TWO32 && Frame(g * 4096 + Offset(v)) == g
  {
  }

  lemma OnThatStack(k: Kernel, tmpl: page, p: Process, t: nat, w: page)
    requires ProcessOk(k, tmpl, p) && t < |p.threads| && IsStackPage(p.threads[t], w)
    ensures w in p.vm && p.vm[w] in Listed(p.threads[t].used)
  {
    hide Views, HeapBacked, Booked, DataOnly, Shared;
    StackIsListed(k, p, t, w);
  }

  /** Page v of one directory and page w of the other lie on one frame, and user mode can touch both. */
  ghost predicate SharedFrame(m: Ram, d: page, v: page, e: page, w: page) {
    UserPage(m, d, v) && UserPage(m, e, w) && PageOf(m, d, v) == PageOf(m, e, w)
  }

  /**
    The block then goes to whoever asks next. If another process grows by it, both can touch it in user mode.
   */
  lemma StaleFrameIsShared(s: System, tmpl: page, n: nat, t: nat, m: nat, table: page, s1: System, s2: System)
    requires SystemOk(s.kernel, tmpl, s.processes) && n < |s.processes| && m < |s.processes| && n != m
    requires 0 < t < |s.processes[n].threads| && s.processes[n].threads[t].used != []
    requires Moves(s, EndThread(n, t), s1, tmpl)
    requires Moves(s1, Grow(m, s.processes[n].threads[t].used[0], table), s2, tmpl)
    ensures n < |s2.processes| && m < |s2.processes|
    ensures exists v, w :: SharedFrame(s2.kernel.m, s2.processes[n].dir, v, s2.processes[m].dir, w)
  {
    hide KernelOk, ProcessOk, ThreadGone, PageKernel, GrowAsked, PageOf, UserPage, Shared, DirIndex, ThreadPages;
    var p0, q0 := s.processes[n], s.processes[m];
    var v := UpperPage(s.kernel, tmpl, p0, t);
    MovesOk(s, EndThread(n, t), s1, tmpl);
    MovesOk(s1, Grow(m, p0.threads[t].used[0], table), s2, tmpl);
    Touches(s2.kernel, tmpl, s2.processes[n], v);
    Touches(s2.kernel, tmpl, s2.processes[m], q0.heap);
    assert SharedFrame(s2.kernel.m, s2.processes[n].dir, v, s2.processes[m].dir, q0.heap);
  }

  lemma UpperPage(k: Kernel, tmpl: page, p: Process, t: nat) returns (v: page)
    requires ProcessOk(k, tmpl, p) && t < |p.threads|
    ensures v in p.vm && p.threads[t].used != [] && p.vm[v] == p.threads[t].used[0]
  {
    hide Booked, OwnTables, Views, HeapBacked, Shared;
    assert StackBacked(p, p.threads[t]);
    v := p.threads[t].stack - 1;
  }

  lemma Touches(k: Kernel, tmpl: page, p: Process, v: page)
    requires ProcessOk(k, tmpl, p) && v in p.vm
    ensures UserPage(k.m, p.dir, v) && UserWrites(k.m, p.dir, v) && PageOf(k.m, p.dir, v) == p.vm[v]
  {
    hide Booked, OwnTables, Stacked, HeapBacked, Shared, UserPage, UserWrites, PageOf;
  }

  /** Or the block becomes a page table of a process that grows, and the other can write it. */
  lemma StaleFrameBecomesTable(
      s: System, tmpl: page, n: nat, t: nat, m: nat, block: page, s1: System, s2: System)
    requires SystemOk(s.kernel, tmpl, s.processes) && n < |s.processes| && m < |s.processes| && n != m
    requires 0 < t < |s.processes[n].threads| && s.processes[n].threads[t].used != []
    requires Moves(s, EndThread(n, t), s1, tmpl)
    requires Moves(s1, Grow(m, block, s.processes[n].threads[t].used[0]), s2, tmpl)
    requires Shared(s1.kernel.m, s1.processes[m].dir, tmpl, DirIndex(s1.processes[m].heap))
    ensures SystemOk(s2.kernel, tmpl, s2.processes) && n < |s2.processes|
    ensures exists v :: WritesTable(s2.kernel, tmpl, s2.processes, n, v)
  {
    hide KernelOk, ProcessOk, ThreadGone, PageKernel, PageOf, UserWrites, Shared, DirIndex, ThreadPages, LiveTable;
    var p, q, table := s.processes[n], s.processes[m], s.processes[n].threads[t].used[0];
    var v := UpperPage(s.kernel, tmpl, p, t);
    MovesOk(s, EndThread(n, t), s1, tmpl);
    MovesOk(s1, Grow(m, block, table), s2, tmpl);
    GrowMoves(s1.kernel, tmpl, q, block, table);
    NewTable(s1.kernel, tmpl, q, block, table);
    Touches(s2.kernel, tmpl, s2.processes[n], v);
    TableIsLive(s2.kernel, tmpl, s2.processes, m, table);
    assert WritesTable(s2.kernel, tmpl, s2.processes, n, v);
  }

  /** User mode of process n can write a page table in use through its page v. */
  ghost predicate WritesTable(k: Kernel, tmpl: page, ps: seq<Process>, n: nat, v: page)
    requires n < |ps|
  {
    UserWrites(k.m, ps[n].dir, v) && LiveTable(k, tmpl, ps, PageOf(k.m, ps[n].dir, v))
  }

  lemma NewTable(k: Kernel, tmpl: page, p: Process, block: page, table: page)
    requires MayAdd(k, tmpl, p, p.heap, block, table) && Shared(k.m, p.dir, tmpl, DirIndex(p.heap))
    ensures Reached(PageKernel(k, tmpl, p, p.heap, block, table).m, p.dir, table)
  {
    hide Entry, Frame, Built, KernelOk, DirIndex, MapIn;
    AddPageStages(k, tmpl, p, p.heap, block, table);
    var k1 := Take(k, block, ListOf(p.id, |p.used|));
    MapInLinks(k1, tmpl, p.dir, p.heap, block, table, ListOf(p.id, |p.used| + 1));
  }

  lemma TableIsLive(k: Kernel, tmpl: page, ps: seq<Process>, m: nat, g: page)
    requires m < |ps| && Reached(k.m, ps[m].dir, g)
    ensures LiveTable(k, tmpl, ps, g)
  {
    hide Reached;
  }

  // ----- runs in which no thread ends

  ghost predicate AllCurrent(ps: seq<Process>) {
    forall n | 0 <= n < |ps| :: Current(ps[n])
  }

  /** All that p has mapped is its image, its heap and the stacks of its threads. */
  ghost predicate Tidy(p: Process) {
    forall w | w in p.vm :: IsDataPage(p, w)
  }

  lemma TidyIsCurrent(k: Kernel, tmpl: page, p: Process)
    requires ProcessOk(k, tmpl, p) && Tidy(p)
    ensures Current(p)
  {
    hide ProcessOk, IsDataPage, PagesOf;
    forall w | w in p.vm ensures p.vm[w] in PagesOf(p) { DataIsListed(k, tmpl, p, w); }
  }

  /** A process is tidy if and only if user mode reaches nothing but its own data. */
  lemma UserReach(k: Kernel, tmpl: page, p: Process)
    requires ProcessOk(k, tmpl, p)
    ensures Tidy(p) <==> forall w: page | UserPage(k.m, p.dir, w) :: IsDataPage(p, w)
    ensures forall w: page | UserPage(k.m, p.dir, w) && IsDataPage(p, w) :: PageOf(k.m, p.dir, w) in DataPages(p)
  {
    hide Booked, OwnTables, Stacked, HeapBacked, DataOnly, Shared, UserPage, PageOf, IsDataPage, DataPages;
    forall w: page | UserPage(k.m, p.dir, w) && IsDataPage(p, w) ensures PageOf(k.m, p.dir, w) in DataPages(p) {
      Touches(k, tmpl, p, w);
      DataIsListed(k, tmpl, p, w);
    }
  }

  /** From processes whose mappings are all current, a change keeps them so if and only if it ends no thread. */
  lemma ChangesKeepCurrent(s: System, c: Change, e: System, tmpl: page)
    requires SystemOk(s.kernel, tmpl, s.processes) && AllCurrent(s.processes) && Moves(s, c, e, tmpl)
    ensures AllCurrent(e.processes) <==> !c.EndThread?
  {
    hide KernelOk, ProcessOk, Current, Born, Firstborn, Grown, ThreadProcess, WithoutThread, BelowStacks;
    hide PageKernel, ThreadKernel, ThreadGone, ProcessGone;
    var ps := s.processes;
    match c
    case Birth(id, b) =>
      BirthMoves(s.kernel, tmpl, id, b);
      BirthIsCurrent(id, b);
    case Grow(n, block, table) => GrowStaysCurrent(s.kernel, tmpl, ps[n], block, table);
    case Spawn(n, stack, block, table) => SpawnStaysCurrent(s.kernel, tmpl, ps[n], stack, block, table);
    case EndThread(n, t) =>
      EndThreadLeavesStale(s.kernel, tmpl, ps[n], t);
      assert !Current(e.processes[n]);
    case EndProcess(n) =>
  }

  /** As long as no thread ends, no two live processes ever share a frame that user mode can touch. */
  lemma {:induction false} NoFrameIsShared(trace: seq<System>, cs: seq<Change>, tmpl: page, i: nat)
    requires ProcessRuns.Runs(trace, cs, tmpl) && i < |trace|
    requires SystemOk(trace[0].kernel, tmpl, trace[0].processes) && AllCurrent(trace[0].processes)
    requires forall c | c in cs :: !c.EndThread?
    ensures SystemOk(trace[i].kernel, tmpl, trace[i].processes) && AllCurrent(trace[i].processes)
    ensures var k, ps := trace[i].kernel, trace[i].processes;
      forall n, m, v, w | 0 <= n < |ps| && 0 <= m < |ps| && n != m :: !SharedFrame(k.m, ps[n].dir, v, ps[m].dir, w)
  {
    hide SystemOk, Moves, AllCurrent, SharedFrame;
    if i > 0 {
      NoFrameIsShared(trace, cs, tmpl, i - 1);
      MovesOk(trace[i - 1], cs[i - 1], trace[i], tmpl);
      ChangesKeepCurrent(trace[i - 1], cs[i - 1], trace[i], tmpl);
    }
    var k, ps := trace[i].kernel, trace[i].processes;
    forall n, m, v, w | 0 <= n < |ps| && 0 <= m < |ps| && n != m
      ensures !SharedFrame(k.m, ps[n].dir, v, ps[m].dir, w)
    {
      NotShared(k, tmpl, ps, n, m, v, w);
    }
  }

  lemma NotShared(k: Kernel, tmpl: page, ps: seq<Process>, n: nat, m: nat, v: page, w: page)
    requires SystemOk(k, tmpl, ps) && AllCurrent(ps) && n < |ps| && m < |ps| && n != m
    ensures !SharedFrame(k.m, ps[n].dir, v, ps[m].dir, w)
  {
    hide KernelOk, ProcessOk, Current, UserPage, PageOf;
    assert ps[n].id != ps[m].id by { if n < m { assert ps[n].id != ps[m].id; } else { assert ps[m].id != ps[n].id; } }
    if SharedFrame(k.m, ps[n].dir, v, ps[m].dir, w) { FramesApart(k, tmpl, ps[n], ps[m], v, w); }
  }

  /** From processes that are all tidy, a change keeps them so if and only if it ends no thread. */
  lemma ChangesKeepTidy(s: System, c: Change, e: System, tmpl: page)
    requires SystemOk(s.kernel, tmpl, s.processes) && Moves(s, c, e, tmpl)
    requires forall n | 0 <= n < |s.processes| :: Tidy(s.processes[n])
    ensures (forall n | 0 <= n < |e.processes| :: Tidy(e.processes[n])) <==> !c.EndThread?
  {
    hide KernelOk, ProcessOk, Tidy, Born, Firstborn, Grown, ThreadProcess, WithoutThread;
    hide PageKernel, ThreadKernel, ThreadGone, ProcessGone, BelowStacks;
    var ps := s.processes;
    match c
    case Birth(id, b) =>
      BirthMoves(s.kernel, tmpl, id, b);
      BirthIsTidy(id, b);
    case Grow(n, block, table) =>
      HeapAbove(s.kernel, tmpl, ps[n]);
      GrowStaysTidy(s.kernel, tmpl, ps[n], block, table);
    case Spawn(n, stack, block, table) => SpawnStaysTidy(s.kernel, tmpl, ps[n], stack, block, table);
    case EndThread(n, t) =>
      EndThreadUntidy(s.kernel, tmpl, ps[n], t);
      assert !Tidy(e.processes[n]);
    case EndProcess(n) =>
  }

  lemma BirthIsTidy(id: nat, b: Supply)
    requires b.Distinct()
    ensures Tidy(Firstborn(id, b))
  {
    hide ImageMap, ImageList;
    var p := Firstborn(id, b);
    forall w | w in p.vm ensures IsDataPage(p, w) {
      if w in ImageMap(b.image, IMAGE_PAGES) {
        ImageMapKeys(b.image, IMAGE_PAGES, w);
      } else {
        assert IsStackPage(p.threads[0], w);
      }
    }
  }

  lemma {:induction false} ImageMapKeys(image: page, i: nat, w: page)
    requires image + i <= 0x10_0000 && i <= IMAGE_PAGES && w in ImageMap(image, i)
    ensures ENTRY_PAGE <= w < ENTRY_PAGE + i
  {
    if w in ImageMap(image, i - 1) { ImageMapKeys(image, i - 1, w); }
  }

  lemma GrowStaysTidy(k: Kernel, tmpl: page, p: Process, block: page, table: page)
    requires Tidy(p) && HEAP_PAGE <= p.heap && p.heap + 1 < 0x10_0000
    ensures Tidy(Grown(k, tmpl, p, block, table))
  {
    hide Shared;
    var r := Grown(k, tmpl, p, block, table);
    forall w | w in r.vm ensures IsDataPage(r, w) {
      if w != p.heap { assert IsDataPage(p, w); }
    }
  }

  lemma SpawnStaysTidy(k: Kernel, tmpl: page, p: Process, stack: page, block: page, table: page)
    requires Tidy(p) && IsStack(stack) && block + 1 < 0x10_0000
    ensures Tidy(ThreadProcess(k, tmpl, p, stack, block, table, false))
  {
    hide Shared, Table;
    var r := ThreadProcess(k, tmpl, p, stack, block, table, false);
    forall w | w in r.vm ensures IsDataPage(r, w) {
      if w == stack - 1 || w == stack - 2 {
        assert IsStackPage(r.threads[|p.threads|], w);
      } else {
        assert IsDataPage(p, w);
        StillData(p, r, w);
      }
    }
  }

  lemma StillData(p: Process, r: Process, w: page)
    requires IsDataPage(p, w) && r.heap == p.heap && p.threads <= r.threads
    ensures IsDataPage(r, w)
  {
    if !IsListPage(p, w) {
      var t :| 0 <= t < |p.threads| && IsStackPage(p.threads[t], w);
      assert IsStackPage(r.threads[t], w);
    }
  }

  lemma EndThreadUntidy(k: Kernel, tmpl: page, p: Process, t: nat)
    requires ProcessOk(k, tmpl, p) && 0 < t < |p.threads|
    ensures !Tidy(WithoutThread(p, t))
  {
    hide Booked, OwnTables, Views, HeapBacked, DataOnly, Shared;
    StaleUpperPage(p, WithoutThread(p, t), t);
  }

  /** Without a thread on its stack the upper stack page is no data page. */
  lemma StaleUpperPage(p: Process, r: Process, t: nat)
    requires Stacked(p) && t < |p.threads| && r.heap == p.heap
    requires forall u | 0 <= u < |r.threads| :: IsStack(r.threads[u].stack) && r.threads[u].stack != p.threads[t].stack
    ensures p.threads[t].stack - 1 in p.vm && !IsDataPage(r, p.threads[t].stack - 1)
  {
    assert StackBacked(p, p.threads[t]);
  }

  /**
    When a thread of a tidy process has ended, a new thread makes the process tidy again if and only if it is on
    the stack that was freed.
   */
  lemma SpawnRestoresTidy(
      k: Kernel, tmpl: page, p: Process, t: nat, l: Kernel, stack: page, block: page, table: page)
    requires ProcessOk(k, tmpl, p) && Tidy(p) && 0 < t < |p.threads|
    requires SpawnAsked(l, tmpl, WithoutThread(p, t), stack, block, table)
    ensures Tidy(ThreadProcess(l, tmpl, WithoutThread(p, t), stack, block, table, false)) <==>
            stack == p.threads[t].stack
  {
    hide ProcessOk, ThreadProcess, Table, IsDataPage, Tidy;
    var r := WithoutThread(p, t);
    var q := ThreadProcess(l, tmpl, r, stack, block, table, false);
    StacksApart(k, tmpl, p, t);
    ThreadAdded(l, tmpl, r, stack, block, table);
    if stack == p.threads[t].stack {
      TidyAgain(p, q, t, stack, block);
    } else {
      StillUntidy(p, q, t, stack, block);
    }
  }

  lemma StacksApart(k: Kernel, tmpl: page, p: Process, t: nat)
    requires ProcessOk(k, tmpl, p) && t < |p.threads|
    ensures Stacked(p) && IsStack(p.threads[t].stack)
    ensures forall u | 0 <= u < |WithoutThread(p, t).threads| ::
      IsStack(WithoutThread(p, t).threads[u].stack) && WithoutThread(p, t).threads[u].stack != p.threads[t].stack
  {
    hide Booked, OwnTables, Views, HeapBacked, DataOnly, Shared;
    assert forall u | 0 <= u < |p.threads| :: StackBacked(p, p.threads[u]);
    var r := WithoutThread(p, t);
    assert forall u | 0 <= u < |r.threads| :: r.threads[u] == p.threads[if u < t then u else u + 1];
  }

  lemma ThreadAdded(l: Kernel, tmpl: page, r: Process, stack: page, block: page, table: page)
    requires IsStack(stack) && block + 1 < 0x10_0000
    ensures var q := ThreadProcess(l, tmpl, r, stack, block, table, false);
      && |q.threads| == |r.threads| + 1 && r.threads <= q.threads && q.threads[|r.threads|].stack == stack
      && q.heap == r.heap && q.vm == WithStackPages(r.vm, stack, block)
  {
    hide Shared, Table;
  }

  lemma TidyAgain(p: Process, q: Process, t: nat, stack: page, block: page)
    requires Tidy(p) && t < |p.threads| && stack == p.threads[t].stack && IsStack(stack) && block + 1 < 0x10_0000
    requires q.heap == p.heap && q.vm == WithStackPages(p.vm, stack, block)
    requires p.threads[..t] + p.threads[t + 1..] <= q.threads && |q.threads| == |p.threads|
    requires q.threads[|p.threads| - 1].stack == stack
    ensures Tidy(q)
  {
    hide IsDataPage;
    forall w | w in q.vm ensures IsDataPage(q, w) {
      if w == stack - 1 || w == stack - 2 {
        StackIsData(q, |p.threads| - 1, w);
      } else {
        assert IsDataPage(p, w);
        MovedData(p, q, t, w);
      }
    }
  }

  lemma StackIsData(p: Process, t: nat, w: page)
    requires t < |p.threads| && IsStackPage(p.threads[t], w)
    ensures IsDataPage(p, w)
  {
  }

  lemma StillUntidy(p: Process, q: Process, t: nat, stack: page, block: page)
    requires Stacked(p) && t < |p.threads| && IsStack(p.threads[t].stack) && stack != p.threads[t].stack
    requires IsStack(stack) && block + 1 < 0x10_0000
    requires q.heap == p.heap && q.vm == WithStackPages(p.vm, stack, block)
    requires forall u | 0 <= u < |q.threads| - 1 ::
      IsStack(q.threads[u].stack) && q.threads[u].stack != p.threads[t].stack
    requires q.threads != [] && q.threads[|q.threads| - 1].stack == stack
    ensures !Tidy(q)
  {
    hide StackBacked, IsStack, IsDataPage;
    StaleUpperPage(p, q, t);
    assert p.threads[t].stack - 1 in q.vm by { OddEven(p.threads[t].stack, stack); }
  }

  lemma MovedData(p: Process, q: Process, t: nat, w: page)
    requires t < |p.threads| && IsDataPage(p, w) && !IsStackPage(p.threads[t], w) && q.heap == p.heap
    requires p.threads[..t] + p.threads[t + 1..] <= q.threads
    ensures IsDataPage(q, w)
  {
    if !IsListPage(p, w) {
      var u :| 0 <= u < |p.threads| && IsStackPage(p.threads[u], w);
      var rest := p.threads[..t] + p.threads[t + 1..];
      assert rest[if u < t then u else u - 1] == p.threads[u];
      assert IsStackPage(q.threads[if u < t then u else u - 1], w);
    }
  }

  // ----- addresses a process has not mapped

  /**
    get_physical does not ask whether an address is mapped: one that is not leads to the same physical address.
    A system call that stores its answer there can overwrite a page table of the template.
   */
  lemma StoreThroughIdentity(k: Kernel, tmpl: page, p: Process, v: u32)
    requires KernelOk(k, tmpl) && ProcessOk(k, tmpl, p)
    requires v == Frame(Entry(k.m, tmpl, 5)) * 4096 + 28 && VPage(v) !in p.vm
    ensures Translate(k.m, p.dir, v) == v && v + 4 <= TWO32
    ensures !KernelOk(Stored(k, v, WordBytes(HEAP_PAGE * 4096)), tmpl)
  {
    hide Entry, World, Closed, Booked, OwnTables, Stacked, HeapBacked;
    hide DataOnly, Shared, UserPage, WordBytes, StoreBytes;
    TranslateByPage(k.m, p.dir, v);
    assert PageOf(k.m, p.dir, VPage(v)) == VPage(v);
    var g := Frame(Entry(k.m, tmpl, 5));
    StoreWord(k.m, g, 7, HEAP_PAGE * 4096);
    TemplateRole(k, tmpl);
    var r := PutEntry(k.m, g, 7, HEAP_PAGE * 4096);
    assert Entry(r, tmpl, 5) == Entry(k.m, tmpl, 5);
    assert PageOf(r, tmpl, 5 * 1024 + 7) == HEAP_PAGE;
  }

  lemma TemplateRole(k: Kernel, tmpl: page)
    requires KernelOk(k, tmpl)
    ensures Frame(Entry(k.m, tmpl, 5)) != tmpl
  {
    hide Entry, Frame, Sees, Closed;
    assert HasRole(k.roles, Frame(Entry(k.m, tmpl, 5)), TemplateTable(5));
  }

  // ----- threads beyond the first table of stacks

  /** The threads of p are on the first stacks, one behind the other. */
  predicate InOrder(p: Process) {
    forall t | 0 <= t < |p.threads| :: p.threads[t].stack as int == STACK_PAGE - 2 * t
  }

  /** A process alone spawns threads until the first table is full, on the pages from lo on. */
  lemma {:induction false} FillFirstTable(k: Kernel, tmpl: page, p: Process, lo: page)
    returns (trace: seq<System>, cs: seq<Change>)
    requires SystemOk(k, tmpl, [p]) && InOrder(p) && 0 < |p.threads| <= STACKS_PER_TABLE
    requires p.heap <= STACK_PAGE - 2 * STACKS_PER_TABLE - 2
    requires lo + 2 * (STACKS_PER_TABLE - |p.threads|) < 0x10_0000
    requires forall g: page | lo <= g < lo + 2 * (STACKS_PER_TABLE - |p.threads|) :: g !in k.used
    ensures ProcessRuns.Runs(trace, cs, tmpl) && trace[0] == System(k, [p], {})
    ensures var e := trace[|cs|];
      && |e.processes| == 1 && e.left == {} && SystemOk(e.kernel, tmpl, e.processes)
      && e.kernel.used == k.used + PageRange(lo, 2 * (STACKS_PER_TABLE - |p.threads|))
      && var r := e.processes[0];
         && |r.threads| == STACKS_PER_TABLE && InOrder(r) && r.heap == p.heap && r.dir == p.dir
         && (Shared(k.m, p.dir, tmpl, 254) ==> Shared(e.kernel.m, r.dir, tmpl, 254))
    decreases STACKS_PER_TABLE - |p.threads|
  {
    hide SystemOk, Shared, PageRange, ThreadKernel, Moves;
    var n := |p.threads|;
    if n == STACKS_PER_TABLE {
      trace, cs := [System(k, [p], {})], [];
      assert PageRange(lo, 0) == {} by { NothingListed(lo); }
    } else {
      var c, s1 := NextThread(k, tmpl, p, lo);
      assert s1.processes == [s1.processes[0]];
      var later, cs' := FillFirstTable(s1.kernel, tmpl, s1.processes[0], lo + 2);
      trace, cs := [System(k, [p], {})] + later, [c] + cs';
      assert s1 == later[0];
      forall i | 0 <= i < |cs| ensures Moves(trace[i], cs[i], trace[i + 1], tmpl) {
        if i > 0 { assert Moves(later[i - 1], cs'[i - 1], later[i], tmpl); }
      }
      RangeByTwo(lo, 2 * (STACKS_PER_TABLE - n));
    }
  }

  lemma RangeByTwo(g: page, count: nat)
    requires count >= 2 && g + count < 0x10_0000
    ensures PageRange(g, count) == {g, g + 1} + PageRange(g + 2, count - 2)
  {
  }

  lemma NextThread(k: Kernel, tmpl: page, p: Process, lo: page) returns (c: Change, e: System)
    requires SystemOk(k, tmpl, [p]) && InOrder(p) && 0 < |p.threads| < STACKS_PER_TABLE
    requires p.heap <= STACK_PAGE - 2 * STACKS_PER_TABLE - 2
    requires lo + 2 < 0x10_0000 && lo !in k.used && lo + 1 !in k.used
    ensures Moves(System(k, [p], {}), c, e, tmpl) && SystemOk(e.kernel, tmpl, e.processes)
    ensures |e.processes| == 1 && e.left == {} && e.kernel.used == k.used + {lo, lo + 1}
    ensures var r := e.processes[0];
      && |r.threads| == |p.threads| + 1 && InOrder(r) && r.heap == p.heap && r.dir == p.dir
      && (Shared(k.m, p.dir, tmpl, 254) ==> Shared(e.kernel.m, r.dir, tmpl, 254))
  {
    hide KernelOk, Built, Shared, Stacked, HeapBacked, ThreadKernel, DirIndex, MayThread;
    var stack: page := STACK_PAGE - 2 * |p.threads|;
    var s := System(k, [p], {});
    assert ProcessOk(k, tmpl, [p][0]);
    StackTable(stack);
    c := Spawn(0, stack, lo, lo);
    e := ProcessRuns.After(s, c, tmpl);
    SpawnMoves(k, tmpl, p, stack, lo, lo);
    ThreadOk(k, tmpl, p, stack, lo, lo, false);
    ThreadKernelUses(k, tmpl, p, stack, lo, lo);
    MovesOk(s, c, e, tmpl);
  }

  /**
    A process is born and gains threads until the 513th, which lists the page table made for it. If that thread
    ends, a directory entry of its live process leads to a page that is not in use.
   */
  lemma ThreadBeyondFirstTable(k: Kernel, tmpl: page, id: nat, b: Supply, lo: page)
    returns (trace: seq<System>, cs: seq<Change>)
    requires KernelOk(k, tmpl) && BirthAsked(k, b)
    requires lo + 1025 < 0x10_0000 && forall g: page | lo <= g < lo + 1025 :: g !in k.used && !b.Among(g)
    ensures ProcessRuns.Runs(trace, cs, tmpl) && trace[0] == System(k, [], {}) && |trace[|cs|].processes| == 1
    ensures var e := trace[|cs|]; var r := e.processes[0];
      && |r.threads| == STACKS_PER_TABLE + 1 && SystemOk(e.kernel, tmpl, [r])
      && !KernelOk(ThreadGone(e.kernel, r, STACKS_PER_TABLE), tmpl)
      && Frame(Entry(e.kernel.m, r.dir, 254)) !in ThreadGone(e.kernel, r, STACKS_PER_TABLE).used
  {
    hide SystemOk, Shared, PageRange, ThreadKernel, Moves, KernelOk, ThreadGone, Entry, Frame;
    var first := Alone(k, tmpl, id, b, lo);
    var k1, p := first.kernel, first.processes[0];
    assert first.processes == [p];
    trace, cs := FillFirstTable(k1, tmpl, p, lo);
    var c, e := OneTooMany(trace[|cs|], tmpl, lo + 1022);
    trace, cs := [System(k, [], {})] + trace + [e], [Birth(id, b)] + cs + [c];
  }

  lemma Alone(k: Kernel, tmpl: page, id: nat, b: Supply, lo: page) returns (e: System)
    requires KernelOk(k, tmpl) && BirthAsked(k, b)
    requires lo + 1025 < 0x10_0000 && forall g: page | lo <= g < lo + 1025 :: g !in k.used && !b.Among(g)
    ensures Moves(System(k, [], {}), Birth(id, b), e, tmpl) && |e.processes| == 1 && e.left == {}
    ensures SystemOk(e.kernel, tmpl, e.processes)
    ensures forall g: page | lo <= g < lo + 1025 :: g !in e.kernel.used
    ensures var p := e.processes[0];
      InOrder(p) && |p.threads| == 1 && p.heap == HEAP_PAGE && Shared(e.kernel.m, p.dir, tmpl, 254)
  {
    hide KernelOk, ProcessOk, Shared, Born, ImageList, ImageMap, WithStackPages;
    var s := System(k, [], {});
    e := ProcessRuns.After(s, Birth(id, b), tmpl);
    MovesOk(s, Birth(id, b), e, tmpl);
    BirthMoves(k, tmpl, id, b);
    forall g: page | b.Among(g) ensures Unheld(k, g) { NewIsUnheld(k, tmpl, g); }
    BornOk(k, tmpl, id, b);
    assert forall g | g in SupplyPages(b) :: b.Among(g);
  }

  lemma OneTooMany(s: System, tmpl: page, g: page) returns (c: Change, e: System)
    requires SystemOk(s.kernel, tmpl, s.processes) && |s.processes| == 1 && InOrder(s.processes[0])
    requires |s.processes[0].threads| == STACKS_PER_TABLE
    requires s.processes[0].heap <= STACK_PAGE - 2 * STACKS_PER_TABLE - 2
    requires Shared(s.kernel.m, s.processes[0].dir, tmpl, 254)
    requires g + 2 < 0x10_0000 && g !in s.kernel.used && g + 1 !in s.kernel.used && g + 2 !in s.kernel.used
    ensures Moves(s, c, e, tmpl) && |e.processes| == 1
    ensures var r := e.processes[0];
      && |r.threads| == STACKS_PER_TABLE + 1 && SystemOk(e.kernel, tmpl, [r])
      && !KernelOk(ThreadGone(e.kernel, r, STACKS_PER_TABLE), tmpl)
      && Frame(Entry(e.kernel.m, r.dir, 254)) !in ThreadGone(e.kernel, r, STACKS_PER_TABLE).used
  {
    hide KernelOk, Built, Shared, Stacked, HeapBacked, ThreadKernel, DirIndex, MayThread, Entry, Frame;
    var p := s.processes[0];
    var stack: page := STACK_PAGE - 2 * STACKS_PER_TABLE;
    assert Table(stack) == 254 by { TableOfNext(); }
    c := Spawn(0, stack, g, g + 2);
    e := ProcessRuns.After(s, c, tmpl);
    MovesOk(s, c, e, tmpl);
    assert e.processes == [e.processes[0]];
    EndThreadExact(e.kernel, tmpl, e.processes[0], STACKS_PER_TABLE);
  }

  lemma TableOfNext()
    ensures IsStack(STACK_PAGE - 2 * STACKS_PER_TABLE) && Table(STACK_PAGE - 2 * STACKS_PER_TABLE) == 254
  {
  }
}
