/** The scheduler, the memory of processes and threads, and what is stored into it: one run of the kernel moves all. */
module WholeKernel {
  import opened Machine
  import opened Pages
  import opened Ownership
  import opened ProcessRuns
  import opened Stores
  import Births
  import Console
  import Limits
  import Protection
  import Scheduling

  /**
    What happens: an event the scheduler sees; a sys_alloc of n pages whose answer goes to address v; or the running
    thread stores a byte at address v in user mode.
   */
  datatype Event = Scheduled(event: Scheduling.Event) | SysAlloc(n: nat, v: u32) | UserStore(v: u32, b: byte)

  /** For a new thread its stack and the pages the allocator hands out; for a read the address of its buffer. */
  datatype Given = Given(stack: page, block: page, table: page, buffer: u32)

  /** targets are the physical addresses the read buffers of the processes point to. */
  datatype State = State(scheduler: Scheduling.State, system: System, targets: seq<nat>)

  /** Both sides know the same processes with the same threads. */
  ghost predicate Linked(s: State) {
    SameLists(s.scheduler.processes, s.system.processes) && |s.targets| == |s.system.processes|
  }

  ghost predicate SameLists(ps: seq<Scheduling.Task>, qs: seq<Process>) {
    |ps| == |qs| && forall i | 0 <= i < |ps| :: SameThreads(ps[i].threads, qs[i].threads)
  }

  ghost predicate SameThreads(ts: seq<Scheduling.Thread>, us: seq<Ownership.Thread>) {
    |ts| == |us| && forall t | 0 <= t < |ts| :: ts[t].isMain == us[t].isMain
  }

  /** Which change of the system an event of the scheduler brings, if any. */
  function ChangeOf(s: Scheduling.State, e: Scheduling.Event, g: Given): Option<Change>
    requires Scheduling.InRange(s)
  {
    var n, t := s.current, s.thread;
    match e
    case Spawn(_) => Some(Spawn(n, g.stack, g.block, g.table))
    case Fault => Some(EndProcess(n))
    case Exit => Some(if s.processes[n].threads[t].isMain then EndProcess(n) else EndThread(n, t))
    case _ => None
  }

  /** Which process an event gives input to, or asks it for, and what that is to its console. */
  datatype Heard = Heard(process: nat, event: Console.Event)

  function HeardBy(s: Scheduling.State, e: Scheduling.Event): Option<Heard> {
    match e
    case Read(n) => Some(Heard(s.current, Console.Read(n)))
    case Press(i, k) => Some(Heard(i, Console.Press(k)))
    case _ => None
  }

  // ----- what is asked of the programs

  /** The bytes that process p still wants go to its own data. */
  ghost predicate TargetOk(p: Process, c: Console.State, target: nat) {
    c.count > 0 ==> Within(DataPages(p), target, c.count)
  }

  /**
    New pages are not in use; a buffer is on data of its process and in consecutive frames; user mode stores to its
    own image, heap and live stacks; and a thread that ends is on a stack of the first table, with no read waiting
    for bytes into it. The idle program only loops.
   */
  ghost predicate Asked(s: State, e: Event, g: Given, tmpl: page) {
    && Scheduling.InRange(s.scheduler) && s.scheduler.current < |s.system.processes| == |s.targets|
    && var k, p := s.system.kernel, s.system.processes[s.scheduler.current];
       match e
       case SysAlloc(_, v) => GoodBuffer(p, v, 4)
       case UserStore(v, _) => IsDataPage(p, VPage(v))
       case Scheduled(ev) =>
         && Scheduling.Legal(s.scheduler, ev)
         && match ev
            case Spawn(_) => SpawnAsked(k, tmpl, p, g.stack, g.block, g.table)
            case Read(n) => GoodBuffer(p, g.buffer, n)
            case Exit => s.scheduler.thread < |p.threads| ==>
              MayEnd(p, s.scheduler.thread, s.scheduler.processes[s.scheduler.current].console,
                     s.targets[s.scheduler.current])
            case _ => true
  }

  ghost predicate MayEnd(p: Process, t: nat, c: Console.State, target: nat)
    requires t < |p.threads|
  {
    p.threads[t].isMain ||
    (STACK_PAGE - 2 * STACKS_PER_TABLE < p.threads[t].stack &&
     (c.count > 0 ==> Within(DataPages(p) - Listed(p.threads[t].used), target, c.count)))
  }

  // ----- the steps

  /** The bytes bs are stored at address a. */
  ghost predicate StoredTo(k: Kernel, a: nat, bs: seq<byte>, l: Kernel) {
    if bs == [] then l == k else a + |bs| <= TWO32 ==> l == Stored(k, a, bs)
  }

  /** Where the bytes of an event go: to the buffer of the read, translated, or where the one before left off. */
  ghost function TargetOf(s: State, h: Heard, g: Given): nat
    requires h.process < |s.system.processes| == |s.targets|
  {
    if h.event.Read? then Translate(s.system.kernel.m, s.system.processes[h.process].dir, g.buffer)
    else s.targets[h.process]
  }

  /** Input is delivered: its bytes are stored, and the read pointer moves on. */
  ghost predicate Delivers(s: State, h: Heard, g: Given, r: State)
    requires h.process < |s.system.processes| == |s.targets| && h.process < |s.scheduler.processes|
  {
    var bs := Console.Delivered(s.scheduler.processes[h.process].console, h.event);
    var target := TargetOf(s, h, g);
    && r.system == s.system.(kernel := r.system.kernel)
    && StoredTo(s.system.kernel, target, bs, r.system.kernel)
    && r.targets == s.targets[h.process := target + |bs|]
  }

  /** The system makes its change, which has to be possible for that. */
  ghost predicate Changes(s: State, c: Change, r: State, tmpl: page) {
    && (Possible(s.system, c, tmpl) ==> r.system == ProcessRuns.After(s.system, c, tmpl))
    && r.targets == if c.EndProcess? && c.n < |s.targets| then Scheduling.Without(s.targets, c.n) else s.targets
  }

  ghost predicate SysAllocs(s: State, n: nat, v: u32, r: State, tmpl: page)
    requires s.scheduler.current < |s.system.processes|
  {
    var i := s.scheduler.current;
    && r.scheduler == s.scheduler && r.targets == s.targets
    && exists k1, q ::
         && Answered(s.system.kernel, tmpl, s.system.processes[i], n, v, k1, r.system.kernel, q)
         && r.system == System(r.system.kernel, s.system.processes[i := q], s.system.left)
  }

  ghost predicate UserStores(s: State, v: u32, b: byte, r: State)
    requires s.scheduler.current < |s.system.processes|
  {
    var p := s.system.processes[s.scheduler.current];
    r == s.(system := s.system.(kernel := Stored(s.system.kernel, Translate(s.system.kernel.m, p.dir, v), [b])))
  }

  ghost predicate SchedulerSteps(s: State, e: Scheduling.Event, g: Given, r: State, tmpl: page)
    requires Scheduling.InRange(s.scheduler) && Scheduling.Legal(s.scheduler, e)
  {
    && r.scheduler == Scheduling.Step(s.scheduler, e)
    && match (ChangeOf(s.scheduler, e, g), HeardBy(s.scheduler, e))
       case (Some(c), _) => Changes(s, c, r, tmpl)
       case (None, Some(h)) =>
         h.process < |s.system.processes| == |s.targets| && h.process < |s.scheduler.processes| ==> Delivers(s, h, g, r)
       case (None, None) => r.system == s.system && r.targets == s.targets
  }

  ghost predicate Steps(s: State, e: Event, g: Given, r: State, tmpl: page) {
    && Asked(s, e, g, tmpl)
    && match e
       case SysAlloc(n, v) => SysAllocs(s, n, v, r, tmpl)
       case UserStore(v, b) => UserStores(s, v, b, r)
       case Scheduled(ev) => SchedulerSteps(s, ev, g, r, tmpl)
  }

  /** The scheduler, the page tables, the account of all pages and the read buffers are in order. */
  ghost predicate Ok(s: State, tmpl: page, own: set<page>) {
    && Scheduling.Ok(s.scheduler) && Linked(s) && InOrder(s.system, tmpl, own) && TargetsOk(s)
  }

  ghost predicate InOrder(s: System, tmpl: page, own: set<page>) {
    SystemOk(s.kernel, tmpl, s.processes) && Accounted(s, own)
  }

  ghost predicate TargetsOk(s: State)
    requires Linked(s)
  {
    forall i | 0 <= i < |s.targets| ::
      TargetOk(s.system.processes[i], s.scheduler.processes[i].console, s.targets[i])
  }

  // ----- where runs start

  /** The scheduler starts on four newborn processes. */
  lemma BootLinked(system: System)
    requires |system.processes| == 4
    requires forall i | 0 <= i < 4 :: IsNewborn(system.processes[i])
    ensures Linked(State(Scheduling.BOOT, system, [0, 0, 0, 0]))
    ensures TargetsOk(State(Scheduling.BOOT, system, [0, 0, 0, 0]))
  {
    hide Births.ImageList, Births.ImageMap, WithStackPages;
  }

  ghost predicate IsNewborn(p: Process) {
    exists id, b: Births.Supply | b.Distinct() :: p == Births.Firstborn(id, b)
  }

  /** From any sound kernel without processes, four births make the state the scheduler starts in. */
  lemma BootOk(k: Kernel, tmpl: page, trace: seq<System>, cs: seq<Change>)
    requires KernelOk(k, tmpl) && |cs| == 4 && ProcessRuns.Runs(trace, cs, tmpl) && trace[0] == System(k, [], {})
    requires forall i | 0 <= i < 4 :: cs[i].Birth?
    ensures Ok(State(Scheduling.BOOT, trace[4], [0, 0, 0, 0]), tmpl, k.used)
  {
    hide Scheduling.Ok, Linked, TargetsOk, SystemOk, Accounted, Moves, IsNewborn;
    StartOk(k, tmpl);
    forall i | 0 <= i < 5 ensures SystemOk(trace[i].kernel, tmpl, trace[i].processes) && Accounted(trace[i], k.used) {
      RunsOk(trace, cs, tmpl, k.used, i);
    }
    for i := 0 to 4
      invariant |trace[i].processes| == i && forall j | 0 <= j < i :: IsNewborn(trace[i].processes[j])
    {
      BirthAdds(trace[i], cs[i], trace[i + 1], tmpl);
    }
    BootLinked(trace[4]);
    Scheduling.BootOk();
  }

  /** User mode can run on page w, which lies on a block of the process's list. */
  ghost predicate RunsOn(k: Kernel, p: Process, w: page) {
    && w in p.vm && p.vm[w] in p.used && Protection.UserPage(k.m, p.dir, w)
    && PageOf(k.m, p.dir, w) == p.vm[w]
  }

  /** The address a main thread starts at is that of the program's image, and leads to its first block. */
  lemma MainStartsOnImage(k: Kernel, tmpl: page, p: Process, program: nat)
    requires ProcessOk(k, tmpl, p)
    ensures var main := Scheduling.Created(program).threads[0]; main.isMain && main.entry == ENTRY_PAGE * 4096
    ensures RunsOn(k, p, ENTRY_PAGE)
  {
    hide PageOf, Protection.UserPage, ProcessOk;
    ImageIsListed(k, tmpl, p, ENTRY_PAGE);
    Limits.Touches(k, tmpl, p, ENTRY_PAGE);
  }

  lemma ImageIsListed(k: Kernel, tmpl: page, p: Process, w: page)
    requires ProcessOk(k, tmpl, p) && ENTRY_PAGE <= w < ENTRY_PAGE + IMAGE_PAGES
    ensures w in p.vm && p.vm[w] in p.used
  {
    hide Built, HasKernel, Shared, Stacked, HeapBacked;
    assert IsListPage(p, w);
  }

  lemma BirthAdds(s: System, c: Change, e: System, tmpl: page)
    requires Moves(s, c, e, tmpl) && c.Birth? && SystemOk(s.kernel, tmpl, s.processes)
    ensures |e.processes| == |s.processes| + 1 && s.processes <= e.processes
    ensures IsNewborn(e.processes[|s.processes|])
  {
    hide KernelOk, ProcessOk, Births.Firstborn, Births.Born;
    BirthMoves(s.kernel, tmpl, c.id, c.supply);
  }

  // ----- the changes an event brings are possible

  /** A thread of the first table that is not the main one lists no page table. */
  lemma ListsNoTable(k: Kernel, tmpl: page, p: Process, t: nat)
    requires ProcessOk(k, tmpl, p) && 0 < t < |p.threads|
    requires STACK_PAGE - 2 * STACKS_PER_TABLE < p.threads[t].stack
    ensures |p.threads[t].used| == 2 && !p.threads[t].isMain
  {
    hide Booked, OwnTables, Views, HeapBacked, Shared, DataOnly;
    assert StackBacked(p, p.threads[t]);
    StackTable(p.threads[t].stack);
  }

  /**
    Whatever ends is there to end: the scheduler's indices name a live process and thread, and a thread it ends
    alone is never the main one.
   */
  lemma ChangeIsPossible(s: State, e: Scheduling.Event, g: Given, tmpl: page, own: set<page>)
    requires Ok(s, tmpl, own) && Asked(s, Scheduled(e), g, tmpl)
    ensures match ChangeOf(s.scheduler, e, g)
      case None => true
      case Some(c) =>
        && Possible(s.system, c, tmpl) && (!c.Birth? ==> c.n == s.scheduler.current)
        && (c.EndThread? ==> c.t == s.scheduler.thread)
  {
    hide KernelOk, ProcessOk, Accounted, GrowAsked, SpawnAsked, TargetsOk, GoodBuffer, Within;
    var n, t := s.scheduler.current, s.scheduler.thread;
    assert SameThreads(s.scheduler.processes[n].threads, s.system.processes[n].threads);
    assert Scheduling.OneMainThread(s.scheduler.processes[n]);
    if e == Scheduling.Exit && !s.scheduler.processes[n].threads[t].isMain {
      ListsNoTable(s.system.kernel, tmpl, s.system.processes[n], t);
    }
  }

  lemma OneChanges(ps: seq<Scheduling.Task>, qs: seq<Process>, n: nat, p: Scheduling.Task, q: Process)
    requires SameLists(ps, qs) && n < |ps| && SameThreads(p.threads, q.threads)
    ensures SameLists(ps[n := p], qs[n := q])
  {
    hide SameThreads;
  }

  lemma OneGoes(ps: seq<Scheduling.Task>, qs: seq<Process>, n: nat)
    requires SameLists(ps, qs) && n < |ps|
    ensures SameLists(Scheduling.Without(ps, n), qs[..n] + qs[n + 1..])
  {
    hide SameThreads;
    var rs := qs[..n] + qs[n + 1..];
    assert forall i | 0 <= i < |rs| :: rs[i] == qs[if i < n then i else i + 1];
  }

  lemma ThreadGoes(ts: seq<Scheduling.Thread>, us: seq<Ownership.Thread>, t: nat)
    requires SameThreads(ts, us) && t < |ts|
    ensures SameThreads(Scheduling.Without(ts, t), us[..t] + us[t + 1..])
  {
    var vs := us[..t] + us[t + 1..];
    assert forall i | 0 <= i < |vs| :: vs[i] == us[if i < t then i else i + 1];
  }

  /** The lists of the scheduler after an event, before and after its switch. */
  lemma SwitchKeepsLists(s: Scheduling.State, e: Scheduling.Event)
    requires Scheduling.Legal(s, e) && Scheduling.InRange(s)
    ensures Scheduling.Step(s, e).processes == Scheduling.Handled(s, e).processes
  {
  }

  /** The lists stay the same on both sides. */
  lemma StaysLinked(s: State, e: Scheduling.Event, g: Given, r: State, tmpl: page, own: set<page>)
    requires Ok(s, tmpl, own) && Steps(s, Scheduled(e), g, r, tmpl)
    ensures Linked(r)
  {
    hide InOrder, TargetsOk, GrowAsked, SpawnAsked, Scheduling.Ok, PageKernel, ThreadKernel, Births.Born, SameLists;
    hide Scheduling.Step, ThreadGone, ProcessGone, SameThreads, BirthAsked, BelowStacks, GoodBuffer, MayEnd, StoredTo;
    ChangeIsPossible(s, e, g, tmpl, own);
    var ps, qs, n := s.scheduler.processes, s.system.processes, s.scheduler.current;
    SwitchKeepsLists(s.scheduler, e);
    LinkedAt(ps, qs, n);
    var p, q := ps[n], qs[n];
    match e
    case Tick =>
    case Read(_) => OneChanges(ps, qs, n, r.scheduler.processes[n], q);
    case Press(i, _) =>
      LinkedAt(ps, qs, i);
      OneChanges(ps, qs, i, r.scheduler.processes[i], qs[i]);
    case Fault => OneGoes(ps, qs, n);
    case Spawn(_) =>
      ThreadComes(p.threads, q.threads, r.scheduler.processes[n].threads, r.system.processes[n].threads);
      OneChanges(ps, qs, n, r.scheduler.processes[n], r.system.processes[n]);
    case Exit =>
      if p.threads[s.scheduler.thread].isMain {
        OneGoes(ps, qs, n);
      } else {
        ThreadGoes(p.threads, q.threads, s.scheduler.thread);
        OneChanges(ps, qs, n, r.scheduler.processes[n], r.system.processes[n]);
      }
  }

  lemma LinkedAt(ps: seq<Scheduling.Task>, qs: seq<Process>, n: nat)
    requires SameLists(ps, qs) && n < |ps|
    ensures n < |qs| == |ps| && SameThreads(ps[n].threads, qs[n].threads) && qs[n := qs[n]] == qs
    ensures ps[n := ps[n]] == ps
  {
  }

  lemma ThreadComes(
      ts: seq<Scheduling.Thread>, us: seq<Ownership.Thread>, ts': seq<Scheduling.Thread>, us': seq<Ownership.Thread>)
    requires SameThreads(ts, us) && |ts'| == |ts| + 1 && |us'| == |us| + 1 && ts <= ts' && us <= us'
    requires ts'[|ts|].isMain == us'[|us|].isMain
    ensures SameThreads(ts', us')
  {
  }

  // ----- stores

  lemma WithinLess(gs: set<page>, hs: set<page>, a: nat, count: nat, b: nat, less: nat)
    requires Within(gs, a, count) && gs <= hs && a <= b && b + less <= a + count
    ensures Within(hs, b, less)
  {
    hide Frame;
  }

  /** What is stored is found again byte by byte, and no other byte of memory changes. */
  ghost predicate Arrives(m: Ram, a: nat, bs: seq<byte>, r: Ram) {
    forall x: u32 :: ByteAt(r, x) == if a <= x < a + |bs| then bs[x - a] else ByteAt(m, x)
  }

  lemma BytesArrive(k: Kernel, a: nat, bs: seq<byte>, l: Kernel)
    requires StoredTo(k, a, bs, l) && (bs != [] ==> a + |bs| <= TWO32)
    ensures Arrives(k.m, a, bs, l.m)
  {
    hide ByteAt, StoreBytes;
    if bs != [] {
      forall x: u32 { StoreIsExact(k.m, a, bs, x); }
    }
  }

  /** Where the next byte for process i goes, and the end of what it waits for. */
  ghost function Ahead(s: State, h: Heard, g: Given): (nat, nat)
    requires h.process < |s.system.processes| == |s.targets| && h.process < |s.scheduler.processes|
  {
    if h.event.Read? then
      var a := Translate(s.system.kernel.m, s.system.processes[h.process].dir, g.buffer);
      (a, a + h.event.n)
    else
      (s.targets[h.process], s.targets[h.process] + s.scheduler.processes[h.process].console.count)
  }

  /**
    Bytes delivered to a process go to its data, one behind the other and nowhere else, from the buffer's first
    address or from where the last ones ended; and so will those still to come, up to the end of the buffer.
   */
  lemma DeliveryKeeps(
      s: State, h: Heard, g: Given, r: State, tmpl: page, own: set<page>, p: Process, c: Console.State)
    requires InOrder(s.system, tmpl, own)
    requires h.process < |s.system.processes| == |s.targets| && h.process < |s.scheduler.processes|
    requires p == s.system.processes[h.process] && c == s.scheduler.processes[h.process].console
    requires TargetOk(p, c, s.targets[h.process]) && Delivers(s, h, g, r)
    requires h.event.Read? ==> GoodBuffer(p, g.buffer, h.event.n)
    ensures InOrder(r.system, tmpl, own) && TargetOk(p, Console.After(c, h.event), r.targets[h.process])
    ensures var (from, to) := Ahead(s, h, g);
      && Arrives(s.system.kernel.m, from, Console.Delivered(c, h.event), r.system.kernel.m)
      && r.targets[h.process] + Console.After(c, h.event).count == to
      && forall i | 0 <= i < |s.targets| && i != h.process :: r.targets[i] == s.targets[i]
  {
    hide DataPages, Translate, GoodBuffer, ProcessOk, KernelOk, Console.After, Console.Delivered, StoreBytes, Accounted;
    hide Arrives;
    Console.DeliveredNext(c, h.event);
    var bs, a := Console.Delivered(c, h.event), TargetOf(s, h, g);
    var wanted := if h.event.Read? then h.event.n else c.count;
    if h.event.Read? { GoodBufferLeadsToData(s.system.kernel, tmpl, p, g.buffer, h.event.n); }
    if wanted > 0 {
      WithinLess(DataPages(p), DataPages(p), a, wanted, a, |bs|);
      WithinLess(DataPages(p), DataPages(p), a, wanted, a + |bs|, wanted - |bs|);
    }
    if bs != [] { StoreKeepsSystem(s.system, tmpl, own, h.process, a, bs); }
    BytesArrive(s.system.kernel, a, bs, r.system.kernel);
  }

  /** The heap ends n pages higher, and the caller finds its old end where it asked for it. */
  ghost predicate HeapAnswered(p: Process, n: nat, v: u32, m: Ram, q: Process) {
    q.heap as int == p.heap + n && WordIsAt(m, p.vm, v, p.heap)
  }

  lemma SysAllocKeeps(s: State, n: nat, v: u32, g: Given, r: State, tmpl: page, own: set<page>)
    requires Ok(s, tmpl, own) && Steps(s, SysAlloc(n, v), g, r, tmpl)
    ensures Ok(r, tmpl, own)
    ensures var i := s.scheduler.current;
      && i < |s.system.processes| == |r.system.processes|
      && HeapAnswered(s.system.processes[i], n, v, r.system.kernel.m, r.system.processes[i])
  {
    hide Scheduling.Ok, KernelOk, ProcessOk, Accounted, DataPages, Translate;
    hide GoodBuffer, WordBytes, GrowSteps, StoreBytes;
    hide SameThreads;
    var i := s.scheduler.current;
    var p := s.system.processes[i];
    var k1, q :| Answered(s.system.kernel, tmpl, p, n, v, k1, r.system.kernel, q) &&
      r.system == System(r.system.kernel, s.system.processes[i := q], s.system.left);
    var trace, cs := GrowStepsRun(s.system, tmpl, i, n, k1, q);
    RunsOk(trace, cs, tmpl, own, n);
    GrowStepsKeepData(s.system.kernel, tmpl, p, n, k1, q);
    GoodBufferLeadsToData(s.system.kernel, tmpl, p, v, 4);
    var a := Translate(s.system.kernel.m, p.dir, v);
    AnswerArrives(s.system.kernel, tmpl, p, v, k1.m);
    WithinLess(DataPages(p), DataPages(q), a, 4, a, 4);
    StoreKeepsSystem(trace[n], tmpl, own, i, a, WordBytes(p.heap * 4096));
    LinkedAt(s.scheduler.processes, s.system.processes, i);
    SameForGrown(s.scheduler.processes[i].threads, p.threads, q.threads);
    OneChanges(s.scheduler.processes, s.system.processes, i, s.scheduler.processes[i], q);
    assert TargetOk(p, s.scheduler.processes[i].console, s.targets[i]);
    TargetStays(p, q, s.scheduler.processes[i].console, s.targets[i]);
  }

  lemma AnswerArrives(k: Kernel, tmpl: page, p: Process, v: u32, m: Ram)
    requires ProcessOk(k, tmpl, p) && GoodBuffer(p, v, 4) && Translate(k.m, p.dir, v) + 4 <= TWO32
    ensures WordIsAt(StoreBytes(m, Translate(k.m, p.dir, v), WordBytes(p.heap * 4096)), p.vm, v, p.heap)
  {
    hide ProcessOk, Translate, PageOf, IsDataPage, ByteAt, StoreBytes, WordBytes;
    var a := Translate(k.m, p.dir, v);
    TranslateByPage(k.m, p.dir, v);
    Limits.Touches(k, tmpl, p, VPage(v));
    var r := StoreBytes(m, a, WordBytes(p.heap * 4096));
    forall x: u32 | a <= x < a + 4 ensures ByteAt(r, x) == WordBytes(p.heap * 4096)[x - a] {
      StoreIsExact(m, a, WordBytes(p.heap * 4096), x);
    }
    WordArrived(r, p.vm, v, a, p.heap);
  }

  lemma SameForGrown(ts: seq<Scheduling.Thread>, us: seq<Ownership.Thread>, vs: seq<Ownership.Thread>)
    requires SameThreads(ts, us) && vs == us
    ensures SameThreads(ts, vs)
  {
  }

  lemma TargetStays(p: Process, q: Process, c: Console.State, target: nat)
    requires TargetOk(p, c, target) && DataPages(p) <= DataPages(q)
    ensures TargetOk(q, c, target)
  {
    hide Frame, DataPages;
  }

  lemma UserStoreKeeps(s: State, v: u32, b: byte, g: Given, r: State, tmpl: page, own: set<page>)
    requires Ok(s, tmpl, own) && Steps(s, UserStore(v, b), g, r, tmpl)
    ensures Ok(r, tmpl, own)
    ensures var k, i := s.system.kernel, s.scheduler.current;
      && r.scheduler == s.scheduler && r.targets == s.targets && i < |s.system.processes|
      && Arrives(k.m, Translate(k.m, s.system.processes[i].dir, v), [b], r.system.kernel.m)
  {
    hide Scheduling.Ok, KernelOk, ProcessOk, Accounted, DataPages, Translate, IsDataPage, StoreBytes, SameLists;
    hide Arrives;
    var i := s.scheduler.current;
    var p := s.system.processes[i];
    LinkedAt(s.scheduler.processes, s.system.processes, i);
    StoreTarget(s.system.kernel, tmpl, p, v);
    StoreKeepsSystem(s.system, tmpl, own, i, Translate(s.system.kernel.m, p.dir, v), [b]);
    BytesArrive(s.system.kernel, Translate(s.system.kernel.m, p.dir, v), [b], r.system.kernel);
  }

  /** User mode may write there, and what it stores arrives in data of the process. */
  lemma StoreTarget(k: Kernel, tmpl: page, p: Process, v: u32)
    requires ProcessOk(k, tmpl, p) && IsDataPage(p, VPage(v))
    ensures Protection.UserWrites(k.m, p.dir, VPage(v)) && Within(DataPages(p), Translate(k.m, p.dir, v), 1)
  {
    hide ProcessOk, PageOf, Translate, Protection.UserWrites, IsDataPage, DataPages, Frame;
    DataIsListed(k, tmpl, p, VPage(v));
    Limits.Touches(k, tmpl, p, VPage(v));
    TranslateByPage(k.m, p.dir, v);
    Limits.FrameAt(p.vm[VPage(v)], v);
  }

  // ----- every event keeps everything in order

  lemma ChangeKeeps(s: State, e: Scheduling.Event, c: Change, g: Given, r: State, tmpl: page, own: set<page>)
    requires Ok(s, tmpl, own) && Steps(s, Scheduled(e), g, r, tmpl) && ChangeOf(s.scheduler, e, g) == Some(c)
    ensures InOrder(r.system, tmpl, own)
  {
    hide Scheduling.Ok, SystemOk, Accounted, Linked, TargetsOk, Possible, ProcessRuns.After, Asked, Scheduling.Step;
    ChangeIsPossible(s, e, g, tmpl, own);
    MovesOk(s.system, c, r.system, tmpl);
    MovesAccount(s.system, c, r.system, tmpl, own);
  }

  /** The scheduler's list of processes, after an event, with their consoles. */
  lemma ConsolesAfter(s: Scheduling.State, e: Scheduling.Event)
    requires Scheduling.InRange(s) && Scheduling.Legal(s, e)
    ensures var ps, qs := s.processes, Scheduling.Step(s, e).processes;
      match HeardBy(s, e)
      case Some(h) =>
        && h.process < |ps| == |qs| && qs[h.process].console == Console.After(ps[h.process].console, h.event)
        && forall i | 0 <= i < |ps| && i != h.process :: qs[i].console == ps[i].console
      case None =>
        if e.Fault? || (e.Exit? && ps[s.current].threads[s.thread].isMain)
        then qs == Scheduling.Without(ps, s.current)
        else |qs| == |ps| && forall i | 0 <= i < |ps| :: qs[i].console == ps[i].console
  {
    hide Console.AfterRead, Console.AfterKey, Scheduling.FirstUnblocked;
    SwitchKeepsLists(s, e);
  }

  lemma TargetsAfterSpawn(s: State, entry: nat, g: Given, r: State, tmpl: page, own: set<page>)
    requires Ok(s, tmpl, own) && Steps(s, Scheduled(Scheduling.Spawn(entry)), g, r, tmpl) && Linked(r)
    ensures TargetsOk(r)
  {
    hide Scheduling.Ok, KernelOk, ProcessOk, Accounted, TargetOk, Scheduling.Step, DataPages;
    hide ThreadKernel, ThreadProcess, SpawnAsked, SameLists;
    ChangeIsPossible(s, Scheduling.Spawn(entry), g, tmpl, own);
    ConsolesAfter(s.scheduler, Scheduling.Spawn(entry));
    var i := s.scheduler.current;
    LinkedAt(s.scheduler.processes, s.system.processes, i);
    var p, c := s.system.processes[i], s.scheduler.processes[i].console;
    SpawnKeepsData(s.system.kernel, tmpl, p, g.stack, g.block, g.table);
    TargetStays(p, r.system.processes[i], c, s.targets[i]);
  }

  lemma TargetsAfterExit(s: State, g: Given, r: State, tmpl: page, own: set<page>)
    requires Ok(s, tmpl, own) && Steps(s, Scheduled(Scheduling.Exit), g, r, tmpl) && Linked(r)
    requires !s.scheduler.processes[s.scheduler.current].threads[s.scheduler.thread].isMain
    ensures TargetsOk(r)
  {
    hide Scheduling.Ok, KernelOk, ProcessOk, Accounted, TargetOk, Scheduling.Step, DataPages;
    hide ThreadGone, WithoutThread, SameLists, MayEnd;
    ChangeIsPossible(s, Scheduling.Exit, g, tmpl, own);
    ConsolesAfter(s.scheduler, Scheduling.Exit);
    var i := s.scheduler.current;
    LinkedAt(s.scheduler.processes, s.system.processes, i);
    var p, c := s.system.processes[i], s.scheduler.processes[i].console;
    TargetAfterEnd(s.system.kernel, tmpl, p, s.scheduler.thread, c, s.targets[i]);
  }

  /** The read buffers stay in order through an event that delivers nothing. */
  lemma TargetsAfterChange(
      s: State, e: Scheduling.Event, g: Given, r: State, tmpl: page, own: set<page>)
    requires Ok(s, tmpl, own) && Steps(s, Scheduled(e), g, r, tmpl) && Linked(r) && HeardBy(s.scheduler, e).None?
    ensures TargetsOk(r)
  {
    hide Scheduling.Ok, SystemOk, Accounted, TargetOk, Scheduling.Step, SameLists, ThreadGone, ProcessGone, MayEnd;
    ConsolesAfter(s.scheduler, e);
    LinkedAt(s.scheduler.processes, s.system.processes, s.scheduler.current);
    if e.Spawn? {
      TargetsAfterSpawn(s, e.entry, g, r, tmpl, own);
    } else if e.Exit? && !s.scheduler.processes[s.scheduler.current].threads[s.scheduler.thread].isMain {
      TargetsAfterExit(s, g, r, tmpl, own);
    } else if !e.Tick? {
      ChangeIsPossible(s, e, g, tmpl, own);
      TargetsWithout(s, s.scheduler.current);
    }
  }

  lemma TargetsWithout(s: State, i: nat)
    requires Linked(s) && TargetsOk(s) && i < |s.targets|
    ensures var ps, ts := Scheduling.Without(s.scheduler.processes, i), Scheduling.Without(s.targets, i);
      var qs := s.system.processes[..i] + s.system.processes[i + 1..];
      |ps| == |qs| == |ts| && forall j | 0 <= j < |ts| :: TargetOk(qs[j], ps[j].console, ts[j])
  {
    hide TargetOk, SameThreads;
    var qs := s.system.processes[..i] + s.system.processes[i + 1..];
    assert forall j | 0 <= j < |qs| :: qs[j] == s.system.processes[if j < i then j else j + 1];
  }

  lemma TargetAfterEnd(k: Kernel, tmpl: page, p: Process, t: nat, c: Console.State, target: nat)
    requires ProcessOk(k, tmpl, p) && t < |p.threads| && MayEnd(p, t, c, target) && !p.threads[t].isMain
    ensures TargetOk(WithoutThread(p, t), c, target)
  {
    hide Built, HeapBacked, DataOnly, Shared, StackBacked, DataPages, Frame;
    EndThreadKeepsData(p, t);
    if c.count > 0 {
      WithinLess(DataPages(p) - Listed(p.threads[t].used), DataPages(WithoutThread(p, t)), target, c.count,
        target, c.count);
    }
  }

  lemma HearKeeps(s: State, e: Scheduling.Event, h: Heard, g: Given, r: State, tmpl: page, own: set<page>)
    requires Ok(s, tmpl, own) && Steps(s, Scheduled(e), g, r, tmpl) && Linked(r)
    requires HeardBy(s.scheduler, e) == Some(h)
    ensures InOrder(r.system, tmpl, own) && TargetsOk(r)
  {
    hide Scheduling.Ok, InOrder, TargetOk, Scheduling.Step, DataPages, SameThreads, GoodBuffer, StoredTo;
    ConsolesAfter(s.scheduler, e);
    var p, c := s.system.processes[h.process], s.scheduler.processes[h.process].console;
    DeliveryKeeps(s, h, g, r, tmpl, own, p, c);
  }

  lemma StepOk(s: State, e: Event, g: Given, r: State, tmpl: page, own: set<page>)
    requires Ok(s, tmpl, own) && Steps(s, e, g, r, tmpl)
    ensures Ok(r, tmpl, own)
  {
    hide InOrder, TargetsOk, Scheduling.Ok, Scheduling.Step, Linked, Delivers, Changes, SpawnAsked, GoodBuffer;
    match e
    case SysAlloc(n, v) => SysAllocKeeps(s, n, v, g, r, tmpl, own);
    case UserStore(v, b) => UserStoreKeeps(s, v, b, g, r, tmpl, own);
    case Scheduled(ev) =>
      Scheduling.StepOk(s.scheduler, ev);
      StaysLinked(s, ev, g, r, tmpl, own);
      var c, h := ChangeOf(s.scheduler, ev, g), HeardBy(s.scheduler, ev);
      if h.Some? {
        HearKeeps(s, ev, h.value, g, r, tmpl, own);
      } else {
        TargetsAfterChange(s, ev, g, r, tmpl, own);
        if c.Some? { ChangeKeeps(s, ev, c.value, g, r, tmpl, own); }
      }
  }

  /**
    Over every run of the kernel, with all that system calls and user programs store into memory, the scheduler's
    invariant, the page tables of all live processes and the account of all pages hold together; both sides list
    the same processes and threads; and the bytes a process still waits for will go to its own data.
   */
  lemma {:induction false} RunOk(trace: seq<State>, es: seq<Event>, gs: seq<Given>, tmpl: page, own: set<page>, i: nat)
    requires |trace| == |es| + 1 && |gs| == |es| && i < |trace| && Ok(trace[0], tmpl, own)
    requires forall k | 0 <= k < |es| :: Steps(trace[k], es[k], gs[k], trace[k + 1], tmpl)
    ensures Ok(trace[i], tmpl, own)
  {
    hide Ok, Steps;
    if i > 0 {
      RunOk(trace, es, gs, tmpl, own, i - 1);
      StepOk(trace[i - 1], es[i - 1], gs[i - 1], trace[i], tmpl, own);
    }
  }
}
