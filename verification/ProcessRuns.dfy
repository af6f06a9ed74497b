/** Whole runs: processes are born and end, grow their heaps, gain and lose threads. */
module ProcessRuns {
  import opened Machine
  import opened Pages
  import opened PageRuns
  import opened Protection
  import opened Ownership
  import opened Births

  /**
    The live processes, and the pages left behind by the threads of processes that have ended: in use, but in
    nobody's list.
   */
  datatype System = System(kernel: Kernel, processes: seq<Process>, left: set<page>)

  /** Each change names the pages the allocator handed out for it; n and t are positions in the lists. */
  datatype Change =
    | Birth(id: nat, supply: Supply)
    | Grow(n: nat, block: page, table: page)
    | Spawn(n: nat, stack: page, block: page, table: page)
    | EndThread(n: nat, t: nat)
    | EndProcess(n: nat)

  // ----- what a change asks: pages not in use, room in the address space, an unused id

  ghost predicate GrowAsked(k: Kernel, tmpl: page, p: Process, block: page, table: page) {
    && block !in k.used
    && (Shared(k.m, p.dir, tmpl, DirIndex(p.heap)) ==> table !in k.used && table != block)
    && p.heap + 1 < 0x10_0000 && BelowStacks(p, p.heap + 1)
  }

  ghost predicate SpawnAsked(k: Kernel, tmpl: page, p: Process, stack: page, block: page, table: page) {
    && IsStack(stack) && p.heap <= stack - 2 && (forall t | 0 <= t < |p.threads| :: p.threads[t].stack != stack)
    && block + 1 < 0x10_0000 && block !in k.used && block + 1 !in k.used
    && (Shared(k.m, p.dir, tmpl, Table(stack)) ==> table !in k.used && table != block && table != block + 1)
  }

  ghost predicate BirthAsked(k: Kernel, b: Supply) {
    b.Distinct() && forall g: page | b.Among(g) :: g !in k.used
  }

  /** A thread that ends is not the main one and lists no page table, as holds of the first 512 stacks. */
  ghost predicate Possible(s: System, c: Change, tmpl: page) {
    match c
    case Birth(id, b) => BirthAsked(s.kernel, b) && forall p | p in s.processes :: p.id != id
    case Grow(n, block, table) => n < |s.processes| && GrowAsked(s.kernel, tmpl, s.processes[n], block, table)
    case Spawn(n, stack, block, table) =>
      n < |s.processes| && SpawnAsked(s.kernel, tmpl, s.processes[n], stack, block, table)
    case EndThread(n, t) =>
      n < |s.processes| && 0 < t < |s.processes[n].threads| && |s.processes[n].threads[t].used| == 2
    case EndProcess(n) => n < |s.processes|
  }

  ghost function After(s: System, c: Change, tmpl: page): System
    requires Possible(s, c, tmpl)
  {
    var k, ps := s.kernel, s.processes;
    match c
    case Birth(id, b) => var r := Born(k, tmpl, id, b); System(r.kernel, ps + [r.process], s.left)
    case Grow(n, block, table) =>
      System(PageKernel(k, tmpl, ps[n], ps[n].heap, block, table), ps[n := Grown(k, tmpl, ps[n], block, table)], s.left)
    case Spawn(n, stack, block, table) =>
      System(ThreadKernel(k, tmpl, ps[n], stack, block, table),
             ps[n := ThreadProcess(k, tmpl, ps[n], stack, block, table, false)], s.left)
    case EndThread(n, t) => System(ThreadGone(k, ps[n], t), ps[n := WithoutThread(ps[n], t)], s.left)
    case EndProcess(n) => System(ProcessGone(k, ps[n]), ps[..n] + ps[n + 1..], s.left + ThreadPages(ps[n].threads))
  }

  // ----- what one process does, as its code promises it

  ghost predicate GrowStep(
      k: Kernel, tmpl: page, p: Process, block: page, table: page, l: Kernel, r: Process)
  {
    && GrowAsked(k, tmpl, p, block, table)
    && l == PageKernel(k, tmpl, p, p.heap, block, table) && r == Grown(k, tmpl, p, block, table)
  }

  /** n turns of expand_heap. */
  ghost predicate GrowSteps(k: Kernel, tmpl: page, p: Process, n: nat, l: Kernel, r: Process) {
    if n == 0 then l == k && r == p
    else exists l0, r0, block, table ::
      GrowSteps(k, tmpl, p, n - 1, l0, r0) && GrowStep(l0, tmpl, r0, block, table, l, r)
  }

  ghost predicate SpawnStep(
      k: Kernel, tmpl: page, p: Process, stack: page, block: page, table: page, l: Kernel, r: Process)
  {
    && SpawnAsked(k, tmpl, p, stack, block, table)
    && l == ThreadKernel(k, tmpl, p, stack, block, table)
    && r == ThreadProcess(k, tmpl, p, stack, block, table, false)
  }

  ghost predicate BirthStep(k: Kernel, tmpl: page, id: nat, b: Supply, l: Kernel, r: Process) {
    BirthAsked(k, b) && Born(k, tmpl, id, b) == Stage(l, r) && r == Firstborn(id, b)
  }

  ghost predicate Moves(s: System, c: Change, e: System, tmpl: page) {
    Possible(s, c, tmpl) && e == After(s, c, tmpl)
  }

  /** These, and the ends of threads and processes, are the changes of a system. */
  lemma StepsAreMoves(s: System, tmpl: page, n: nat, l: Kernel, r: Process)
    ensures forall b, id | BirthStep(s.kernel, tmpl, id, b, l, r) && forall p | p in s.processes :: p.id != id ::
      Moves(s, Birth(id, b), System(l, s.processes + [r], s.left), tmpl)
    ensures forall block, table | n < |s.processes| && GrowStep(s.kernel, tmpl, s.processes[n], block, table, l, r) ::
      Moves(s, Grow(n, block, table), System(l, s.processes[n := r], s.left), tmpl)
    ensures forall stack, block, table |
      n < |s.processes| && SpawnStep(s.kernel, tmpl, s.processes[n], stack, block, table, l, r) ::
      Moves(s, Spawn(n, stack, block, table), System(l, s.processes[n := r], s.left), tmpl)
    ensures forall t | n < |s.processes| && 0 < t < |s.processes[n].threads| && |s.processes[n].threads[t].used| == 2 ::
      l == ThreadGone(s.kernel, s.processes[n], t) && r == WithoutThread(s.processes[n], t) ==>
      Moves(s, EndThread(n, t), System(l, s.processes[n := r], s.left), tmpl)
    ensures n < |s.processes| && l == ProcessGone(s.kernel, s.processes[n]) ==>
      Moves(s, EndProcess(n),
            System(l, s.processes[..n] + s.processes[n + 1..], s.left + ThreadPages(s.processes[n].threads)), tmpl)
  {
    hide GrowAsked, SpawnAsked, PageKernel, ThreadKernel, Born, Firstborn;
    hide Grown, ThreadProcess, ThreadGone, ProcessGone;
    hide WithoutThread, ThreadPages;
  }

  /** The turns of expand_heap are a run of as many changes. */
  lemma {:induction false} GrowStepsRun(s: System, tmpl: page, n: nat, count: nat, l: Kernel, r: Process)
    returns (trace: seq<System>, cs: seq<Change>)
    requires n < |s.processes| && GrowSteps(s.kernel, tmpl, s.processes[n], count, l, r)
    ensures Runs(trace, cs, tmpl) && |cs| == count && trace[0] == s
    ensures trace[count] == System(l, s.processes[n := r], s.left)
    ensures forall c | c in cs :: c.Grow? && c.n == n
  {
    hide GrowStep, Moves;
    if count == 0 {
      trace, cs := [s], [];
    } else {
      var l0, r0, block, table :| GrowSteps(s.kernel, tmpl, s.processes[n], count - 1, l0, r0) &&
        GrowStep(l0, tmpl, r0, block, table, l, r);
      var before, cs0 := GrowStepsRun(s, tmpl, n, count - 1, l0, r0);
      var mid := before[count - 1];
      StepsAreMoves(mid, tmpl, n, l, r);
      assert mid.processes[n := r] == s.processes[n := r];
      trace, cs := before + [System(l, s.processes[n := r], s.left)], cs0 + [Grow(n, block, table)];
    }
  }

  // ----- every change keeps every process and the kernel in order

  lemma GrowMoves(k: Kernel, tmpl: page, p: Process, block: page, table: page)
    requires KernelOk(k, tmpl) && ProcessOk(k, tmpl, p) && GrowAsked(k, tmpl, p, block, table)
    ensures MayAdd(k, tmpl, p, p.heap, block, table)
    ensures var l, r := PageKernel(k, tmpl, p, p.heap, block, table), Grown(k, tmpl, p, block, table);
      Extends(k, l, tmpl, p.dir) && ProcessOk(l, tmpl, r)
  {
    hide KernelOk, Built, Extends, Shared, Stacked, HeapBacked, BelowStacks, PageKernel, DirIndex;
    NewIsUnheld(k, tmpl, block);
    NewIsUnheld(k, tmpl, table);
    GrowOk(k, tmpl, p, block, table);
  }

  lemma SpawnMoves(k: Kernel, tmpl: page, p: Process, stack: page, block: page, table: page)
    requires KernelOk(k, tmpl) && ProcessOk(k, tmpl, p) && SpawnAsked(k, tmpl, p, stack, block, table)
    ensures MayThread(k, tmpl, p, stack, block, table)
    ensures var l := ThreadKernel(k, tmpl, p, stack, block, table);
      Extends(k, l, tmpl, p.dir) && ProcessOk(l, tmpl, ThreadProcess(k, tmpl, p, stack, block, table, false))
  {
    hide KernelOk, Built, Extends, Shared, Stacked, HeapBacked, ThreadKernel, ThreadProcess;
    NewIsUnheld(k, tmpl, block);
    NewIsUnheld(k, tmpl, block + 1);
    NewIsUnheld(k, tmpl, table);
    CreateThreadOk(k, tmpl, p, stack, block, table);
  }

  lemma BirthMoves(k: Kernel, tmpl: page, id: nat, b: Supply)
    requires KernelOk(k, tmpl) && BirthAsked(k, b)
    ensures var s := Born(k, tmpl, id, b);
      && KernelOk(s.kernel, tmpl) && ProcessOk(s.kernel, tmpl, s.process) && Spares(k, s.kernel, tmpl)
      && s.process == Firstborn(id, b) && s.process.id == id && s.kernel.used == k.used + SupplyPages(b)
  {
    hide KernelOk, ProcessOk, Spares, Unheld, Born, SupplyPages, ImageList, ImageMap, WithStackPages;
    forall g: page | b.Among(g) ensures Unheld(k, g) { NewIsUnheld(k, tmpl, g); }
    BornOk(k, tmpl, id, b);
  }

  /** A process that grows or gains or loses a thread leaves the system in order. */
  lemma OneProcessMoves(k: Kernel, l: Kernel, tmpl: page, ps: seq<Process>, n: nat, r: Process)
    requires SystemOk(k, tmpl, ps) && n < |ps| && r.id == ps[n].id
    requires KernelOk(l, tmpl) && ProcessOk(l, tmpl, r)
    requires forall q: Process | ProcessOk(k, tmpl, q) && q.id != r.id :: Spared(k, l, tmpl, q)
    ensures SystemOk(l, tmpl, ps[n := r])
  {
    hide KernelOk, ProcessOk, Spared;
    forall i | 0 <= i < |ps| && i != n ensures ProcessOk(l, tmpl, ps[i]) {
      assert ps[i].id != ps[n].id;
      SparedOk(k, l, tmpl, ps[i]);
    }
  }

  lemma ExtendsMoves(k: Kernel, l: Kernel, tmpl: page, ps: seq<Process>, n: nat, r: Process)
    requires SystemOk(k, tmpl, ps) && n < |ps| && r.id == ps[n].id
    requires Extends(k, l, tmpl, ps[n].dir) && ProcessOk(l, tmpl, r)
    ensures SystemOk(l, tmpl, ps[n := r])
  {
    hide KernelOk, ProcessOk, Spared, BooksKept, LinksKept;
    assert ProcessOk(k, tmpl, ps[n]);
    forall q: Process | ProcessOk(k, tmpl, q) && q.id != r.id ensures Spared(k, l, tmpl, q) {
      OkIsBuilt(k, tmpl, q);
      DistinctDirs(k, tmpl, ps[n], q);
    }
    OneProcessMoves(k, l, tmpl, ps, n, r);
  }

  lemma EndThreadMoves(k: Kernel, tmpl: page, ps: seq<Process>, n: nat, t: nat)
    requires SystemOk(k, tmpl, ps) && n < |ps| && 0 < t < |ps[n].threads| && |ps[n].threads[t].used| == 2
    ensures SystemOk(ThreadGone(k, ps[n], t), tmpl, ps[n := WithoutThread(ps[n], t)])
  {
    hide KernelOk, ProcessOk, Spared, ThreadGone;
    var l, r := ThreadGone(k, ps[n], t), WithoutThread(ps[n], t);
    EndThreadOk(k, tmpl, ps[n], t, ps[n]);
    forall q: Process | ProcessOk(k, tmpl, q) && q.id != r.id ensures Spared(k, l, tmpl, q) {
      EndThreadOk(k, tmpl, ps[n], t, q);
    }
    OneProcessMoves(k, l, tmpl, ps, n, r);
  }

  lemma OkIsBuilt(k: Kernel, tmpl: page, p: Process)
    requires ProcessOk(k, tmpl, p)
    ensures Built(k, tmpl, p) && Booked(k, p) && OwnTables(k, p) && p.dir in k.dirs && !Shared(k.m, p.dir, tmpl, 255)
  {
  }

  lemma SurvivesProcessEnd(k: Kernel, tmpl: page, p: Process, q: Process)
    requires KernelOk(k, tmpl) && ProcessOk(k, tmpl, p)
    ensures KernelOk(ProcessGone(k, p), tmpl)
    ensures ProcessOk(k, tmpl, q) && p.id != q.id ==> ProcessOk(ProcessGone(k, p), tmpl, q)
  {
    hide KernelOk, Spared, ProcessOk, ProcessGone;
    OkIsBuilt(k, tmpl, p);
    EndProcessOk(k, tmpl, p, q);
    if ProcessOk(k, tmpl, q) && p.id != q.id {
      DistinctDirs(k, tmpl, p, q);
      SparedOk(k, ProcessGone(k, p), tmpl, q);
    }
  }

  lemma EndProcessMoves(k: Kernel, tmpl: page, ps: seq<Process>, n: nat)
    requires SystemOk(k, tmpl, ps) && n < |ps|
    ensures SystemOk(ProcessGone(k, ps[n]), tmpl, ps[..n] + ps[n + 1..])
  {
    hide KernelOk, ProcessOk, ProcessGone, Spared;
    var qs := ps[..n] + ps[n + 1..];
    SurvivesProcessEnd(k, tmpl, ps[n], ps[n]);
    forall i | 0 <= i < |qs|
      ensures qs[i] == ps[if i < n then i else i + 1] && ProcessOk(ProcessGone(k, ps[n]), tmpl, qs[i])
    {
      var j := if i < n then i else i + 1;
      assert qs[i] == ps[j] && ps[j].id != ps[n].id;
      SurvivesProcessEnd(k, tmpl, ps[n], ps[j]);
    }
  }

  lemma JoinMoves(k: Kernel, l: Kernel, tmpl: page, ps: seq<Process>, r: Process)
    requires SystemOk(k, tmpl, ps) && KernelOk(l, tmpl) && ProcessOk(l, tmpl, r) && Spares(k, l, tmpl)
    requires forall p | p in ps :: p.id != r.id
    ensures SystemOk(l, tmpl, ps + [r])
  {
    hide KernelOk, ProcessOk, Spared;
    forall i | 0 <= i < |ps| ensures ProcessOk(l, tmpl, ps[i]) {
      OkIsBuilt(k, tmpl, ps[i]);
      SparedOk(k, l, tmpl, ps[i]);
    }
  }

  lemma MovesOk(s: System, c: Change, e: System, tmpl: page)
    requires SystemOk(s.kernel, tmpl, s.processes) && Moves(s, c, e, tmpl)
    ensures SystemOk(e.kernel, tmpl, e.processes)
  {
    hide Extends, KernelOk, ProcessOk, Spared, ThreadGone, ProcessGone;
    hide Born, Firstborn, SupplyPages, PageKernel, ThreadKernel;
    hide GrowAsked, SpawnAsked, ThreadPages, Spares, Supply.Distinct, Supply.Among;
    var k, ps := s.kernel, s.processes;
    match c
    case Birth(id, b) =>
      BirthMoves(k, tmpl, id, b);
      JoinMoves(k, e.kernel, tmpl, ps, Born(k, tmpl, id, b).process);
    case Grow(n, block, table) =>
      GrowMoves(k, tmpl, ps[n], block, table);
      ExtendsMoves(k, e.kernel, tmpl, ps, n, e.processes[n]);
    case Spawn(n, stack, block, table) =>
      SpawnMoves(k, tmpl, ps[n], stack, block, table);
      ExtendsMoves(k, e.kernel, tmpl, ps, n, e.processes[n]);
    case EndThread(n, t) => EndThreadMoves(k, tmpl, ps, n, t);
    case EndProcess(n) => EndProcessMoves(k, tmpl, ps, n);
  }

  ghost predicate Runs(trace: seq<System>, cs: seq<Change>, tmpl: page) {
    |trace| == |cs| + 1 && forall k | 0 <= k < |cs| :: Moves(trace[k], cs[k], trace[k + 1], tmpl)
  }

  // ----- where every page is

  /** The pages that the lists of p and of its threads name. */
  function PagesOf(p: Process): set<page> {
    ProcessPages(p) + ThreadPages(p.threads)
  }

  function ThreadPages(ts: seq<Thread>): set<page> {
    set t, i | 0 <= t < |ts| && 0 <= i < |ts[t].used| :: ts[t].used[i]
  }

  function NamedPages(ps: seq<Process>): set<page> {
    set n, g | 0 <= n < |ps| && g in PagesOf(ps[n]) :: g
  }

  /** Every page in use is the kernel's own, named by one live process, or left behind; and no page is two of these. */
  ghost predicate Accounted(s: System, own: set<page>) {
    && s.kernel.used == own + s.left + NamedPages(s.processes)
    && own !! s.left && own !! NamedPages(s.processes) && s.left !! NamedPages(s.processes)
  }

  lemma PagesHeld(k: Kernel, tmpl: page, p: Process)
    requires ProcessOk(k, tmpl, p)
    ensures forall g | g in PagesOf(p) :: g in k.holders && HeldBy(k.holders[g], p.id)
    ensures ThreadPages(p.threads) !! ProcessPages(p)
    ensures forall t | 0 <= t < |p.threads| ::
      forall u, i | 0 <= u < |p.threads| && u != t && 0 <= i < |p.threads[u].used| ::
        p.threads[u].used[i] !in Listed(p.threads[t].used)
  {
    hide Views, Shared, HeapBacked, OwnTables, StackBacked;
    assert Holds(k, p.dir, DirectoryOf(p.id));
    assert forall i | 0 <= i < |p.used| :: Holds(k, p.used[i], ListOf(p.id, i));
    forall t, i | 0 <= t < |p.threads| && 0 <= i < |p.threads[t].used|
      ensures Holds(k, p.threads[t].used[i], ThreadOf(p.id, p.threads[t].stack, i)) {}
    forall t, u, i | 0 <= t < |p.threads| && 0 <= u < |p.threads| && u != t && 0 <= i < |p.threads[u].used|
      ensures p.threads[u].used[i] !in Listed(p.threads[t].used)
    {
      assert p.threads[t].stack != p.threads[u].stack;
      assert Holds(k, p.threads[u].used[i], ThreadOf(p.id, p.threads[u].stack, i));
    }
  }

  /** Processes have no page in common. */
  lemma PagesApart(k: Kernel, tmpl: page, p: Process, q: Process)
    requires ProcessOk(k, tmpl, p) && ProcessOk(k, tmpl, q) && p.id != q.id
    ensures PagesOf(p) !! PagesOf(q)
  {
    hide ProcessOk, PagesOf;
    PagesHeld(k, tmpl, p);
    PagesHeld(k, tmpl, q);
  }

  /** One process of the list gains the pages more. */
  lemma NamedGrows(ps: seq<Process>, n: nat, r: Process, more: set<page>)
    requires n < |ps| && PagesOf(r) == PagesOf(ps[n]) + more
    ensures NamedPages(ps[n := r]) == NamedPages(ps) + more
  {
    hide PagesOf;
    var qs := ps[n := r];
    forall g | g in NamedPages(ps) + more ensures g in NamedPages(qs) {
      if g in more {
        assert g in PagesOf(qs[n]);
      } else {
        var m :| 0 <= m < |ps| && g in PagesOf(ps[m]);
        assert g in PagesOf(qs[m]);
      }
    }
    forall g | g in NamedPages(qs) ensures g in NamedPages(ps) + more {
      var m :| 0 <= m < |qs| && g in PagesOf(qs[m]);
      if g in PagesOf(ps[m]) { assert g in NamedPages(ps); }
    }
  }

  /** One process of the list loses the pages less, which no other names. */
  lemma NamedShrinks(k: Kernel, tmpl: page, ps: seq<Process>, n: nat, r: Process, less: set<page>)
    requires SystemOk(k, tmpl, ps) && n < |ps| && PagesOf(r) == PagesOf(ps[n]) - less && less <= PagesOf(ps[n])
    ensures NamedPages(ps[n := r]) == NamedPages(ps) - less
  {
    hide PagesOf, ProcessOk, KernelOk;
    var qs := ps[n := r];
    forall m | 0 <= m < |ps| && m != n ensures PagesOf(ps[n]) !! PagesOf(ps[m]) {
      assert ps[m].id != ps[n].id;
      PagesApart(k, tmpl, ps[n], ps[m]);
    }
    forall g | g in NamedPages(ps) - less ensures g in NamedPages(qs) {
      var m :| 0 <= m < |ps| && g in PagesOf(ps[m]);
      assert g in PagesOf(qs[m]);
    }
    forall g | g in NamedPages(qs) ensures g in NamedPages(ps) - less {
      var m :| 0 <= m < |qs| && g in PagesOf(qs[m]);
      assert g in PagesOf(ps[m]);
    }
  }

  lemma NamedWithout(k: Kernel, tmpl: page, ps: seq<Process>, n: nat)
    requires SystemOk(k, tmpl, ps) && n < |ps|
    ensures PagesOf(ps[n]) <= NamedPages(ps)
    ensures NamedPages(ps[..n] + ps[n + 1..]) == NamedPages(ps) - PagesOf(ps[n])
  {
    hide PagesOf, ProcessOk, KernelOk;
    var qs := ps[..n] + ps[n + 1..];
    forall m | 0 <= m < |ps| && m != n ensures PagesOf(ps[n]) !! PagesOf(ps[m]) {
      assert ps[m].id != ps[n].id;
      PagesApart(k, tmpl, ps[n], ps[m]);
    }
    forall g | g in NamedPages(ps) - PagesOf(ps[n]) ensures g in NamedPages(qs) {
      var m :| 0 <= m < |ps| && g in PagesOf(ps[m]);
      assert qs[if m < n then m else m - 1] == ps[m];
      assert g in PagesOf(qs[if m < n then m else m - 1]);
    }
    forall g | g in NamedPages(qs) ensures g in NamedPages(ps) - PagesOf(ps[n]) {
      var m :| 0 <= m < |qs| && g in PagesOf(qs[m]);
      assert qs[m] == ps[if m < n then m else m + 1];
    }
  }

  lemma NamedJoins(ps: seq<Process>, r: Process)
    ensures NamedPages(ps + [r]) == NamedPages(ps) + PagesOf(r)
  {
    hide PagesOf;
    var qs := ps + [r];
    forall g | g in NamedPages(ps) + PagesOf(r) ensures g in NamedPages(qs) {
      if g in PagesOf(r) {
        assert g in PagesOf(qs[|ps|]);
      } else {
        var m :| 0 <= m < |ps| && g in PagesOf(ps[m]);
        assert g in PagesOf(qs[m]);
      }
    }
  }

  lemma GrowPages(k: Kernel, tmpl: page, p: Process, block: page, table: page)
    requires p.heap + 1 < 0x10_0000
    ensures var shared := Shared(k.m, p.dir, tmpl, DirIndex(p.heap));
      PagesOf(Grown(k, tmpl, p, block, table)) == PagesOf(p) + ({block} + if shared then {table} else {})
  {
    hide Shared, DirIndex;
  }

  lemma SpawnPages(k: Kernel, tmpl: page, p: Process, stack: page, block: page, table: page)
    requires IsStack(stack) && block + 1 < 0x10_0000
    ensures var shared := Shared(k.m, p.dir, tmpl, Table(stack));
      PagesOf(ThreadProcess(k, tmpl, p, stack, block, table, false)) ==
      PagesOf(p) + ({block, block + 1} + if shared then {table} else {})
  {
    hide Shared, Table, WithStackPages;
    var r := ThreadProcess(k, tmpl, p, stack, block, table, false);
    ThreadPagesGrow(p.threads, r.threads[|p.threads|]);
  }

  lemma ThreadPagesGrow(ts: seq<Thread>, t: Thread)
    ensures ThreadPages(ts + [t]) == ThreadPages(ts) + Listed(t.used)
  {
    var us := ts + [t];
    forall g | g in ThreadPages(ts) + Listed(t.used) ensures g in ThreadPages(us) {
      if g in Listed(t.used) {
        var i :| 0 <= i < |t.used| && t.used[i] == g;
        assert us[|ts|].used[i] == g;
      } else {
        var u, i :| 0 <= u < |ts| && 0 <= i < |ts[u].used| && ts[u].used[i] == g;
        assert us[u].used[i] == g;
      }
    }
  }

  lemma ThreadPagesShrink(ts: seq<Thread>, t: nat)
    requires t < |ts|
    requires forall u, i | 0 <= u < |ts| && u != t && 0 <= i < |ts[u].used| :: ts[u].used[i] !in Listed(ts[t].used)
    ensures Listed(ts[t].used) <= ThreadPages(ts)
    ensures ThreadPages(ts[..t] + ts[t + 1..]) == ThreadPages(ts) - Listed(ts[t].used)
  {
    var us, gone := ts[..t] + ts[t + 1..], Listed(ts[t].used);
    forall g | g in gone ensures g in ThreadPages(ts) {
      var i :| 0 <= i < |ts[t].used| && ts[t].used[i] == g;
    }
    forall g | g in ThreadPages(ts) - gone ensures g in ThreadPages(us) {
      var u, i :| 0 <= u < |ts| && 0 <= i < |ts[u].used| && ts[u].used[i] == g;
      assert u != t && us[if u < t then u else u - 1].used[i] == g;
    }
    forall g | g in ThreadPages(us) ensures g in ThreadPages(ts) - gone {
      var v, i :| 0 <= v < |us| && 0 <= i < |us[v].used| && us[v].used[i] == g;
      assert ts[if v < t then v else v + 1].used[i] == g;
    }
  }

  lemma EndThreadPages(k: Kernel, tmpl: page, p: Process, t: nat)
    requires ProcessOk(k, tmpl, p) && t < |p.threads|
    ensures Listed(p.threads[t].used) <= PagesOf(p)
    ensures PagesOf(WithoutThread(p, t)) == PagesOf(p) - Listed(p.threads[t].used)
  {
    hide ProcessOk, ThreadPages, ProcessPages, Listed;
    PagesHeld(k, tmpl, p);
    ThreadPagesShrink(p.threads, t);
    SamePages(p, t);
  }

  lemma SamePages(p: Process, t: nat)
    requires t < |p.threads|
    ensures ProcessPages(WithoutThread(p, t)) == ProcessPages(p)
  {
  }

  lemma FirstbornPages(id: nat, b: Supply)
    requires b.Distinct()
    ensures PagesOf(Firstborn(id, b)) == SupplyPages(b)
  {
    hide ImageList, PageRange, WithStackPages, ImageMap;
    ImageListPages(b.image, b.imageTable, IMAGE_PAGES);
    var main := Firstborn(id, b).threads[0];
    ThreadPagesGrow([], main);
    assert ThreadPages([]) == {} && [] + [main] == [main];
    assert Listed(main.used) == {b.stack, b.stackTable, b.stack + 1};
  }

  lemma TakenOnce(u: set<page>, own: set<page>, left: set<page>, named: set<page>, more: set<page>)
    requires u == own + left + named && own !! left && own !! named && left !! named && u !! more
    ensures u + more == own + left + (named + more) && own !! named + more && left !! named + more
  {
  }

  lemma AccountGrow(s: System, n: nat, block: page, table: page, e: System, tmpl: page, own: set<page>)
    requires SystemOk(s.kernel, tmpl, s.processes) && Accounted(s, own) && Moves(s, Grow(n, block, table), e, tmpl)
    ensures Accounted(e, own)
  {
    hide KernelOk, ProcessOk, PageKernel, Shared, NamedPages, PagesOf, DirIndex;
    var p := s.processes[n];
    var more := {block} + if Shared(s.kernel.m, p.dir, tmpl, DirIndex(p.heap)) then {table} else {};
    PageKernelHolds(s.kernel, tmpl, p, p.heap, block, table);
    GrowPages(s.kernel, tmpl, p, block, table);
    NamedGrows(s.processes, n, e.processes[n], more);
    TakenOnce(s.kernel.used, own, s.left, NamedPages(s.processes), more);
    assert e.kernel.used == s.kernel.used + more;
  }

  lemma AccountSpawn(
      s: System, n: nat, stack: page, block: page, table: page, e: System, tmpl: page, own: set<page>)
    requires SystemOk(s.kernel, tmpl, s.processes) && Accounted(s, own)
    requires Moves(s, Spawn(n, stack, block, table), e, tmpl)
    ensures Accounted(e, own)
  {
    hide KernelOk, ProcessOk, ThreadKernel, Shared, NamedPages, PagesOf, Table, MayThread;
    var p := s.processes[n];
    var more := {block, block + 1} + if Shared(s.kernel.m, p.dir, tmpl, Table(stack)) then {table} else {};
    SpawnMoves(s.kernel, tmpl, p, stack, block, table);
    ThreadKernelUses(s.kernel, tmpl, p, stack, block, table);
    SpawnPages(s.kernel, tmpl, p, stack, block, table);
    NamedGrows(s.processes, n, e.processes[n], more);
    TakenOnce(s.kernel.used, own, s.left, NamedPages(s.processes), more);
    assert e.kernel.used == s.kernel.used + more;
  }

  lemma AccountBirth(s: System, id: nat, b: Supply, e: System, tmpl: page, own: set<page>)
    requires SystemOk(s.kernel, tmpl, s.processes) && Accounted(s, own) && Moves(s, Birth(id, b), e, tmpl)
    ensures Accounted(e, own)
  {
    hide KernelOk, ProcessOk, Born, Firstborn, NamedPages, PagesOf, SupplyPages;
    BirthMoves(s.kernel, tmpl, id, b);
    FirstbornPages(id, b);
    SupplyFresh(s.kernel, b);
    NamedJoins(s.processes, Firstborn(id, b));
    TakenOnce(s.kernel.used, own, s.left, NamedPages(s.processes), SupplyPages(b));
  }

  lemma SupplyFresh(k: Kernel, b: Supply)
    requires BirthAsked(k, b)
    ensures k.used !! SupplyPages(b)
  {
    assert forall g | g in SupplyPages(b) :: b.Among(g);
  }

  lemma AccountEnds(s: System, c: Change, e: System, tmpl: page, own: set<page>)
    requires SystemOk(s.kernel, tmpl, s.processes) && Accounted(s, own) && Moves(s, c, e, tmpl)
    requires c.EndThread? || c.EndProcess?
    ensures Accounted(e, own)
  {
    hide KernelOk, ProcessOk, NamedPages, ThreadPages, ProcessPages;
    var p := s.processes[c.n];
    NamedWithout(s.kernel, tmpl, s.processes, c.n);
    PagesHeld(s.kernel, tmpl, p);
    if c.EndThread? {
      EndThreadPages(s.kernel, tmpl, p, c.t);
      NamedShrinks(s.kernel, tmpl, s.processes, c.n, WithoutThread(p, c.t), Listed(p.threads[c.t].used));
    }
  }

  lemma MovesAccount(s: System, c: Change, e: System, tmpl: page, own: set<page>)
    requires SystemOk(s.kernel, tmpl, s.processes) && Accounted(s, own) && Moves(s, c, e, tmpl)
    ensures Accounted(e, own)
  {
    hide Moves, SystemOk, Accounted;
    match c
    case Birth(id, b) => AccountBirth(s, id, b, e, tmpl, own);
    case Grow(n, block, table) => AccountGrow(s, n, block, table, e, tmpl, own);
    case Spawn(n, stack, block, table) => AccountSpawn(s, n, stack, block, table, e, tmpl, own);
    case EndThread(_, _) => AccountEnds(s, c, e, tmpl, own);
    case EndProcess(_) => AccountEnds(s, c, e, tmpl, own);
  }

  /** A sound kernel without processes is where runs start: all its pages are its own. */
  lemma StartOk(k: Kernel, tmpl: page)
    requires KernelOk(k, tmpl)
    ensures SystemOk(k, tmpl, []) && Accounted(System(k, [], {}), k.used)
  {
    hide KernelOk;
  }

  /**
    Whatever processes and threads come, grow and go: every live process translates by its own mappings and can
    touch and write just those pages, the kernel's own directory stays the identity, and every page in use is
    accounted for exactly once: it is the kernel's own, or in one list of one live process, or was left by ended ones.
   */
  lemma {:induction false} RunsOk(trace: seq<System>, cs: seq<Change>, tmpl: page, own: set<page>, i: nat)
    requires Runs(trace, cs, tmpl) && i < |trace|
    requires SystemOk(trace[0].kernel, tmpl, trace[0].processes) && Accounted(trace[0], own)
    ensures SystemOk(trace[i].kernel, tmpl, trace[i].processes) && Accounted(trace[i], own)
  {
    hide SystemOk, Moves, Accounted;
    if i > 0 {
      RunsOk(trace, cs, tmpl, own, i - 1);
      MovesOk(trace[i - 1], cs[i - 1], trace[i], tmpl);
      MovesAccount(trace[i - 1], cs[i - 1], trace[i], tmpl, own);
    }
  }

  /** Page w as a live process has it: to touch and write if it has mapped it, the kernel's alone below 8 MB. */
  ghost predicate Protects(k: Kernel, p: Process, w: page) {
    && (UserPage(k.m, p.dir, w) <==> w in p.vm) && (UserWrites(k.m, p.dir, w) <==> w in p.vm)
    && PageOf(k.m, p.dir, w) == Lookup(p.vm, w)
    && (w < KERNEL_PAGES ==> KernelPage(k.m, p.dir, w) && w !in p.vm)
  }

  /** So it is throughout a run, for every page of every live process; and the kernel's own directory has all pages. */
  lemma RunsProtect(trace: seq<System>, cs: seq<Change>, tmpl: page, own: set<page>, i: nat, n: nat, w: page)
    requires Runs(trace, cs, tmpl) && i < |trace| && n < |trace[i].processes|
    requires SystemOk(trace[0].kernel, tmpl, trace[0].processes) && Accounted(trace[0], own)
    ensures Protects(trace[i].kernel, trace[i].processes[n], w)
    ensures KernelPage(trace[i].kernel.m, trace[i].kernel.identity, w)
  {
    hide Moves, Accounted, KernelOk, ProcessOk, KernelPage, PageOf, UserPage, UserWrites;
    RunsOk(trace, cs, tmpl, own, i);
    OkProtects(trace[i].kernel, tmpl, trace[i].processes[n], w);
  }

  lemma OkProtects(k: Kernel, tmpl: page, p: Process, w: page)
    requires KernelOk(k, tmpl) && ProcessOk(k, tmpl, p)
    ensures Protects(k, p, w) && KernelPage(k.m, k.identity, w)
  {
    if w < KERNEL_PAGES { KernelIsThere(k, tmpl, p, w); }
    hide World, Sees, Closed, KernelOnly, Booked, OwnTables, Stacked, HeapBacked, DataOnly, Shared, Opened, KernelPage;
    hide PageOf, UserPage, UserWrites;
  }
}
