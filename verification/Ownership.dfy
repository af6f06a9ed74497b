/** Which physical pages live processes and threads hold, and what each process sees through its page tables. */
module Ownership {
  import opened Machine
  import opened Bits
  import opened Pages
  import opened PageRuns
  import opened Protection
  import Blocks

  /** 8 MB, 512 MB and 1 GB as page numbers. */
  const ENTRY_PAGE: page := 0x800
  const HEAP_PAGE: page := 0x2_0000
  const STACK_PAGE: page := 0x4_0000

  /** The pages of a program's image. */
  const IMAGE_PAGES: nat := 8

  /** How many stacks lie under the page table that the main thread lists. */
  const STACKS_PER_TABLE: nat := 512

  /** Who frees a page: a position in the lists of a process or of one of its threads. Some are kept back for good. */
  datatype Holder = DirectoryOf(id: nat) | ListOf(id: nat, k: nat) | ThreadOf(id: nat, stack: page, k: nat) | Reserved

  predicate HeldBy(h: Holder, id: nat) {
    !h.Reserved? && h.id == id
  }

  /** stack is the page just above the stack, used the blocks the thread frees when it ends. */
  datatype Thread = Thread(stack: page, used: seq<page>, isMain: bool)

  datatype Process = Process(id: nat, dir: page, used: seq<page>, threads: seq<Thread>, heap: page, vm: map<page, page>)

  /** identity is the directory the kernel itself runs on; dirs are it and those of the processes. */
  datatype Kernel = Kernel(
    m: Ram, used: set<page>, dirs: set<page>, roles: map<page, Role>, holders: map<page, Holder>, identity: page)

  /**
    The page tables do not alias; the template and the kernel's own directory are the identity; the template has
    the kernel's 8 MB for the kernel, nothing else present and nothing for users, and the kernel's own directory
    has all of memory; and whatever is listed or a page table is in use.
   */
  ghost predicate KernelOk(k: Kernel, tmpl: page) {
    && World(k.m, tmpl, k.dirs, k.roles)
    && Sees(k.m, tmpl, map[]) && Closed(k.m, tmpl) && KernelOnly(k.m, tmpl)
    && k.roles.Keys <= k.used
    && k.holders.Keys <= k.used
    && k.identity in k.dirs && Holds(k, k.identity, Reserved) && Sees(k.m, k.identity, map[])
    && KernelHasAll(k.m, k.identity)
  }

  /** count pages from g on */
  ghost function PageRange(g: nat, count: nat): (s: set<page>)
    ensures forall h: page :: h in s <==> g <= h < g + count
  {
    set h: page | h in Blocks.Range(g, count)
  }

  ghost predicate Holds(k: Kernel, g: page, h: Holder) {
    g in k.holders && k.holders[g] == h
  }

  /** The lists of p are in the books, each page under its own position. */
  ghost predicate Booked(k: Kernel, p: Process) {
    && p.dir in k.dirs && Holds(k, p.dir, DirectoryOf(p.id))
    && (forall i | 0 <= i < |p.used| :: Holds(k, p.used[i], ListOf(p.id, i)))
    && forall t, i | 0 <= t < |p.threads| && 0 <= i < |p.threads[t].used| ::
         Holds(k, p.threads[t].used[i], ThreadOf(p.id, p.threads[t].stack, i))
  }

  /** The number of the page table that maps stack s. */
  function Table(s: page): (i: nat)
    requires IsStack(s)
    ensures i < 1024
  {
    DirIndex(s - 1)
  }

  /** The lists name no page table but tables of p's own; a thread of three blocks lists the table of its stack. */
  ghost predicate OwnTables(k: Kernel, p: Process) {
    && (forall i | 0 <= i < |p.used| && p.used[i] in k.roles ::
         k.roles[p.used[i]].PrivateTable? && k.roles[p.used[i]].dir == p.dir)
    && forall t | 0 <= t < |p.threads| :: OwnTable(k, p, p.threads[t])
  }

  ghost predicate OwnTable(k: Kernel, p: Process, t: Thread) {
    && IsStack(t.stack) && 2 <= |t.used| <= 3
    && t.used[0] !in k.roles && t.used[|t.used| - 1] !in k.roles
    && (|t.used| == 3 ==>
         && HasRole(k.roles, t.used[1], PrivateTable(p.dir, Table(t.stack)))
         && Frame(Entry(k.m, p.dir, Table(t.stack))) == t.used[1])
  }

  predicate IsStack(s: page) {
    HEAP_PAGE + 2 <= s <= STACK_PAGE && s % 2 == 0
  }

  /**
    The main thread first, on the first stack; no two threads on one stack; every stack page backed by its
    thread's blocks. Only the main thread and those beyond the first table list a page table.
   */
  ghost predicate Stacked(p: Process) {
    && p.threads != [] && p.threads[0].isMain && p.threads[0].stack == STACK_PAGE
    && (forall t, u | 0 <= t < u < |p.threads| :: p.threads[t].stack != p.threads[u].stack)
    && (forall t | 0 <= t < |p.threads| :: StackBacked(p, p.threads[t]))
    && forall t | 0 < t < |p.threads| ::
         !p.threads[t].isMain && (|p.threads[t].used| == 3 ==> Table(p.threads[t].stack) != 255)
  }

  /** The upper stack page lies on the lower of two neighbouring blocks, the lower page on the upper. */
  ghost predicate StackBacked(p: Process, t: Thread) {
    && IsStack(t.stack) && 2 <= |t.used| <= 3 && p.heap <= t.stack - 2
    && t.stack - 1 in p.vm && p.vm[t.stack - 1] == t.used[0]
    && t.stack - 2 in p.vm && p.vm[t.stack - 2] == t.used[|t.used| - 1]
    && t.used[|t.used| - 1] as int == t.used[0] as int + 1
  }

  /** Every heap page is backed by a block of the process, different pages by different blocks. */
  ghost predicate HeapBacked(p: Process) {
    && HEAP_PAGE <= p.heap
    && (forall w: page | HEAP_PAGE <= w < p.heap :: w in p.vm && p.vm[w] in p.used)
    && forall v: page, w: page | HEAP_PAGE <= v < w < p.heap :: p.vm[v] != p.vm[w]
  }

  /** The process translates by pm alone, and its user mode can touch and write exactly the pages pm maps. */
  ghost predicate Views(m: Ram, tmpl: page, dir: page, pm: map<page, page>) {
    && Sees(m, dir, pm) && Opened(m, dir, tmpl, true)
    && (forall w: page :: UserPage(m, dir, w) <==> w in pm)
    && forall w: page :: UserWrites(m, dir, w) <==> w in pm
  }

  /** The entries of the kernel's 8 MB are the template's. */
  ghost predicate HasKernel(m: Ram, tmpl: page, dir: page) {
    Shared(m, dir, tmpl, 0) && Shared(m, dir, tmpl, 1)
  }

  /** What holds of a process from its first page on. */
  ghost predicate Built(k: Kernel, tmpl: page, p: Process) {
    Booked(k, p) && OwnTables(k, p) && Views(k.m, tmpl, p.dir, p.vm)
  }

  /** The kernel's part is shared, the table of the first stacks private: the main thread made it. */
  ghost predicate ProcessOk(k: Kernel, tmpl: page, p: Process) {
    && Built(k, tmpl, p) && HasKernel(k.m, tmpl, p.dir) && !Shared(k.m, p.dir, tmpl, 255)
    && Stacked(p) && HeapBacked(p) && DataOnly(k, p)
  }

  /** The pages of the image and of the heap. */
  predicate IsListPage(p: Process, w: page) {
    ENTRY_PAGE <= w < ENTRY_PAGE + IMAGE_PAGES || HEAP_PAGE <= w < p.heap
  }

  /** The image and the heap lie on blocks of the process list that are no page tables. */
  ghost predicate DataOnly(k: Kernel, p: Process) {
    forall w: page | IsListPage(p, w) :: w in p.vm && p.vm[w] in p.used && p.vm[w] !in k.roles
  }

  ghost predicate SystemOk(k: Kernel, tmpl: page, ps: seq<Process>) {
    && KernelOk(k, tmpl)
    && (forall i | 0 <= i < |ps| :: ProcessOk(k, tmpl, ps[i]))
    && forall i, j | 0 <= i < j < |ps| :: ps[i].id != ps[j].id
  }

  // ----- what a step leaves alone

  lemma SameViews(m: Ram, r: Ram, tmpl: page, dir: page, pm: map<page, page>)
    requires SameTables(m, r, dir) && SameTables(m, r, tmpl)
    ensures Views(m, tmpl, dir, pm) ==> Views(r, tmpl, dir, pm)
    ensures HasKernel(m, tmpl, dir) ==> HasKernel(r, tmpl, dir)
    ensures !Shared(m, dir, tmpl, 255) ==> !Shared(r, dir, tmpl, 255)
  {
    hide SameTables, Shared, PageOf, Reaches, Opened;
    TablesDecide(m, r, tmpl, dir);
  }

  lemma SameTablesSelf(m: Ram, dir: page)
    ensures SameTables(m, m, dir)
  {
    hide Entry;
    assert forall i: nat | i < 1024 :: SameTable(m, m, dir, i);
  }

  lemma SameTablesTwice(m: Ram, r: Ram, s: Ram, dir: page)
    requires SameTables(m, r, dir) && SameTables(r, s, dir)
    ensures SameTables(m, s, dir)
  {
    hide Entry, Frame;
    forall i: nat | i < 1024 ensures SameTable(m, s, dir, i) {
      assert SameTable(m, r, dir, i) && SameTable(r, s, dir, i);
    }
  }

  /** From k to l nothing that concerns process q changed. */
  ghost predicate Spared(k: Kernel, l: Kernel, tmpl: page, q: Process) {
    && (q.dir in k.dirs ==> q.dir in l.dirs)
    && (forall g: page | g in k.holders && HeldBy(k.holders[g], q.id) ::
         Holds(l, g, k.holders[g]) && (g in l.roles <==> g in k.roles) && (g in k.roles ==> l.roles[g] == k.roles[g]))
    && SameTables(k.m, l.m, q.dir) && SameTables(k.m, l.m, tmpl)
  }

  /** From k to l every page that was listed is still listed at its place, with the role it had. */
  ghost predicate BooksKept(k: Kernel, l: Kernel) {
    && k.dirs <= l.dirs
    && forall g: page | g in k.holders ::
         Holds(l, g, k.holders[g]) && (g in l.roles <==> g in k.roles) && (g in k.roles ==> l.roles[g] == k.roles[g])
  }

  /** From m to r no private table of dir was given up for another. */
  ghost predicate LinksKept(m: Ram, r: Ram, dir: page, tmpl: page) {
    forall i: nat | i < 1024 && !Shared(m, dir, tmpl, i) ::
      !Shared(r, dir, tmpl, i) && Frame(Entry(r, dir, i)) == Frame(Entry(m, dir, i))
  }

  lemma TablesArePrivate(k: Kernel, tmpl: page, p: Process, t: nat)
    requires KernelOk(k, tmpl) && OwnTables(k, p) && t < |p.threads| && |p.threads[t].used| == 3
    ensures !Shared(k.m, p.dir, tmpl, Table(p.threads[t].stack))
  {
    hide Entry, IsStack, Sees, Closed;
    assert OwnTable(k, p, p.threads[t]);
    var i := Table(p.threads[t].stack);
    assert HasRole(k.roles, Frame(Entry(k.m, tmpl, i)), TemplateTable(i));
  }

  lemma BooksKeptOk(k: Kernel, l: Kernel, tmpl: page, p: Process)
    requires KernelOk(k, tmpl) && BooksKept(k, l) && Booked(k, p) && OwnTables(k, p)
    requires LinksKept(k.m, l.m, p.dir, tmpl)
    ensures Booked(l, p) && OwnTables(l, p)
  {
    hide Entry, DirIndex, IsStack, KernelOk, Shared, Frame;
    assert forall i | 0 <= i < |p.used| :: Holds(k, p.used[i], ListOf(p.id, i));
    assert forall t, i | 0 <= t < |p.threads| && 0 <= i < |p.threads[t].used| ::
      Holds(k, p.threads[t].used[i], ThreadOf(p.id, p.threads[t].stack, i));
    forall t | 0 <= t < |p.threads| ensures OwnTable(l, p, p.threads[t]) {
      assert OwnTable(k, p, p.threads[t]);
      var gs := p.threads[t].used;
      assert Holds(k, gs[0], ThreadOf(p.id, p.threads[t].stack, 0)) &&
        Holds(k, gs[1], ThreadOf(p.id, p.threads[t].stack, 1));
      assert Holds(k, gs[|gs| - 1], ThreadOf(p.id, p.threads[t].stack, |gs| - 1));
      if |gs| == 3 { TablesArePrivate(k, tmpl, p, t); }
    }
  }

  lemma DataKept(k: Kernel, l: Kernel, p: Process)
    requires Booked(k, p) && DataOnly(k, p)
    requires forall i | 0 <= i < |p.used| && Holds(k, p.used[i], ListOf(p.id, i)) ::
      p.used[i] in l.roles <==> p.used[i] in k.roles
    ensures DataOnly(l, p)
  {
    forall w: page | IsListPage(p, w) ensures w in p.vm && p.vm[w] in p.used && p.vm[w] !in l.roles {
      var i :| 0 <= i < |p.used| && p.used[i] == p.vm[w];
      assert Holds(k, p.used[i], ListOf(p.id, i));
    }
  }

  lemma ExtendsData(k: Kernel, l: Kernel, tmpl: page, p: Process)
    requires Extends(k, l, tmpl, p.dir) && Booked(k, p) && DataOnly(k, p)
    ensures DataOnly(l, p)
  {
    hide KernelOk, LinksKept, Spared;
    DataKept(k, l, p);
  }

  lemma SparedOk(k: Kernel, l: Kernel, tmpl: page, q: Process)
    requires KernelOk(k, tmpl) && ProcessOk(k, tmpl, q) && Spared(k, l, tmpl, q)
    ensures ProcessOk(l, tmpl, q)
  {
    hide Entry, SameTables, Shared, HasKernel, Stacked, HeapBacked, KernelOk, DirIndex, IsStack, Views;
    assert Booked(l, q) && OwnTables(l, q) && DataOnly(l, q) by {
      SparedLists(k, l, tmpl, q);
      DataKept(k, l, q);
    }
    SameViews(k.m, l.m, tmpl, q.dir, q.vm);
  }

  lemma SparedLists(k: Kernel, l: Kernel, tmpl: page, q: Process)
    requires Booked(k, q) && OwnTables(k, q) && Spared(k, l, tmpl, q)
    ensures Booked(l, q) && OwnTables(l, q)
  {
    hide Entry, Frame, DirIndex, IsStack;
    assert forall i | 0 <= i < |q.used| :: Holds(k, q.used[i], ListOf(q.id, i));
    assert forall t, i | 0 <= t < |q.threads| && 0 <= i < |q.threads[t].used| ::
      Holds(k, q.threads[t].used[i], ThreadOf(q.id, q.threads[t].stack, i));
    forall t | 0 <= t < |q.threads| ensures OwnTable(l, q, q.threads[t]) {
      assert OwnTable(k, q, q.threads[t]);
      assert SameTable(k.m, l.m, q.dir, Table(q.threads[t].stack));
      var gs := q.threads[t].used;
      assert Holds(k, gs[0], ThreadOf(q.id, q.threads[t].stack, 0)) &&
        Holds(k, gs[1], ThreadOf(q.id, q.threads[t].stack, 1));
      assert Holds(k, gs[|gs| - 1], ThreadOf(q.id, q.threads[t].stack, |gs| - 1));
    }
  }

  lemma SparedTwice(k: Kernel, l: Kernel, n: Kernel, tmpl: page, q: Process)
    requires Spared(k, l, tmpl, q) && Spared(l, n, tmpl, q)
    ensures Spared(k, n, tmpl, q)
  {
    hide SameTables;
    SameTablesTwice(k.m, l.m, n.m, q.dir);
    SameTablesTwice(k.m, l.m, n.m, tmpl);
  }

  /** From k to l the process with directory dir may have taken pages and mapped them; nobody else notices. */
  ghost predicate Extends(k: Kernel, l: Kernel, tmpl: page, dir: page) {
    && KernelOk(l, tmpl) && l.dirs == k.dirs && l.identity == k.identity
    && BooksKept(k, l) && LinksKept(k.m, l.m, dir, tmpl)
    && forall q: Process | q.dir in k.dirs && q.dir != dir :: Spared(k, l, tmpl, q)
  }

  lemma ExtendsTwice(k: Kernel, l: Kernel, n: Kernel, tmpl: page, dir: page)
    requires Extends(k, l, tmpl, dir) && Extends(l, n, tmpl, dir)
    ensures Extends(k, n, tmpl, dir)
  {
    hide KernelOk, Spared, Shared, Entry, Frame;
    forall q: Process | q.dir in k.dirs && q.dir != dir ensures Spared(k, n, tmpl, q) {
      SparedTwice(k, l, n, tmpl, q);
    }
  }

  lemma ExtendsBooks(k: Kernel, l: Kernel, tmpl: page, dir: page)
    requires Extends(k, l, tmpl, dir)
    ensures BooksKept(k, l) && KernelOk(l, tmpl) && l.dirs == k.dirs && LinksKept(k.m, l.m, dir, tmpl)
  {
  }

  lemma ExtendsLists(k: Kernel, l: Kernel, tmpl: page, p: Process)
    requires KernelOk(k, tmpl) && Extends(k, l, tmpl, p.dir) && Booked(k, p) && OwnTables(k, p)
    ensures Booked(l, p) && OwnTables(l, p)
  {
    hide KernelOk, Spared, Booked, OwnTables, LinksKept, BooksKept;
    ExtendsBooks(k, l, tmpl, p.dir);
    BooksKeptOk(k, l, tmpl, p);
  }

  // ----- the two elementary steps

  /** Nobody lists the page and it is no page table. */
  ghost predicate Unheld(k: Kernel, g: page) {
    g !in k.holders && g !in k.roles
  }

  lemma NewIsUnheld(k: Kernel, tmpl: page, g: page)
    requires KernelOk(k, tmpl)
    ensures g !in k.used ==> Unheld(k, g)
  {
    hide World, Sees, Closed;
  }

  /** A free page goes to holder h. */
  function Take(k: Kernel, g: page, h: Holder): Kernel {
    k.(used := k.used + {g}, holders := k.holders[g := h])
  }

  lemma TakeOk(k: Kernel, tmpl: page, g: page, h: Holder, dir: page)
    requires KernelOk(k, tmpl) && Unheld(k, g)
    ensures Extends(k, Take(k, g, h), tmpl, dir)
  {
    hide Entry, PageOf, World, Closed, SameTables;
    forall d: page { SameTablesSelf(k.m, d); }
  }

  const USER_FLAGS: u32 := 7

  /** map_physical for process directory dir; a table it creates goes to holder h. */
  ghost function MapIn(k: Kernel, tmpl: page, dir: page, vp: page, frame: page, clone: page, h: Holder): Kernel
  {
    var m := Mapped(k.m, dir, tmpl, vp, frame * 4096, USER_FLAGS, clone * 4096);
    if Shared(k.m, dir, tmpl, DirIndex(vp)) then
      Take(k, clone, h).(m := m, roles := RolesAfter(k.m, dir, tmpl, vp, clone * 4096, k.roles))
    else
      k.(m := m)
  }

  ghost predicate MayMap(k: Kernel, tmpl: page, dir: page, vp: page, clone: page) {
    && KernelOk(k, tmpl) && dir in k.dirs && dir != k.identity
    && (Shared(k.m, dir, tmpl, DirIndex(vp)) ==> Unheld(k, clone))
  }

  lemma AlignedFrame(g: page)
    ensures Frame(g * 4096) == g && g * 4096 % 4096 == 0
  {
  }

  lemma MapInIsLegal(k: Kernel, tmpl: page, dir: page, vp: page, frame: page, clone: page)
    requires MayMap(k, tmpl, dir, vp, clone)
    ensures CanMap(k.m, dir, tmpl, k.dirs, k.roles, vp, frame * 4096, USER_FLAGS, clone * 4096)
  {
    AlignedFrame(frame);
    AlignedFrame(clone);
    hide Entry, World;
  }

  /** A mapping keeps the page tables in order and makes the directory entry private. */
  lemma MapInKernel(k: Kernel, tmpl: page, dir: page, vp: page, frame: page, clone: page, h: Holder)
    requires MayMap(k, tmpl, dir, vp, clone)
    ensures var l := MapIn(k, tmpl, dir, vp, frame, clone, h);
      && KernelOk(l, tmpl)
      && !Shared(l.m, dir, tmpl, DirIndex(vp))
      && (forall i: nat | i < 1024 && i != DirIndex(vp) :: Shared(l.m, dir, tmpl, i) == Shared(k.m, dir, tmpl, i))
  {
    var p, c := frame * 4096, clone * 4096;
    MapInIsLegal(k, tmpl, dir, vp, frame, clone);
    AlignedFrame(clone);
    MapKeepsWorld(k.m, dir, tmpl, k.dirs, k.roles, vp, p, USER_FLAGS, c);
    MapTouches(k.m, dir, tmpl, k.dirs, k.roles, vp, p, USER_FLAGS, c);
    MapIsolates(k.m, dir, tmpl, k.dirs, k.roles, vp, p, USER_FLAGS, c, tmpl);
    MapIsolates(k.m, dir, tmpl, k.dirs, k.roles, vp, p, USER_FLAGS, c, k.identity);
    MapKeepsGuards(k, tmpl, dir, vp, p, c);
    hide Mapped, Entry, PageOf, CanMap, DirIndex, Frame, Closed, KernelOnly, KernelHasAll;
  }

  lemma MapKeepsGuards(k: Kernel, tmpl: page, dir: page, vp: page, p: u32, clone: u32)
    requires KernelOk(k, tmpl) && dir != k.identity
    requires CanMap(k.m, dir, tmpl, k.dirs, k.roles, vp, p, USER_FLAGS, clone)
    ensures var r := Mapped(k.m, dir, tmpl, vp, p, USER_FLAGS, clone);
      Closed(r, tmpl) && KernelOnly(r, tmpl) && KernelHasAll(r, k.identity)
  {
    hide Mapped, CanMap, SameTables, World, Closed, KernelOnly, KernelHasAll, Sees;
    var r := Mapped(k.m, dir, tmpl, vp, p, USER_FLAGS, clone);
    MapSparesTables(k.m, dir, tmpl, k.dirs, k.roles, vp, p, USER_FLAGS, clone, tmpl);
    MapSparesTables(k.m, dir, tmpl, k.dirs, k.roles, vp, p, USER_FLAGS, clone, k.identity);
    TablesDecide(k.m, r, tmpl, tmpl);
    TablesDecide(k.m, r, tmpl, k.identity);
  }

  lemma MapInBooks(k: Kernel, tmpl: page, dir: page, vp: page, frame: page, clone: page, h: Holder)
    requires MayMap(k, tmpl, dir, vp, clone)
    ensures BooksKept(k, MapIn(k, tmpl, dir, vp, frame, clone, h))
  {
    AlignedFrame(clone);
    hide Mapped, Entry, World, Shared, DirIndex, Frame, Closed;
  }

  lemma MapInLinks(k: Kernel, tmpl: page, dir: page, vp: page, frame: page, clone: page, h: Holder)
    requires MayMap(k, tmpl, dir, vp, clone)
    ensures LinksKept(k.m, MapIn(k, tmpl, dir, vp, frame, clone, h).m, dir, tmpl)
    ensures var i := DirIndex(vp);
      Shared(k.m, dir, tmpl, i) ==> Frame(Entry(MapIn(k, tmpl, dir, vp, frame, clone, h).m, dir, i)) == clone
  {
    hide Mapped, Entry, PageOf, DirIndex, Frame, Closed;
    assert HasRole(k.roles, dir, Directory);
    MapInIsLegal(k, tmpl, dir, vp, frame, clone);
    AlignedFrame(clone);
    MapInKernel(k, tmpl, dir, vp, frame, clone, h);
    MapTouches(k.m, dir, tmpl, k.dirs, k.roles, vp, frame * 4096, USER_FLAGS, clone * 4096);
  }

  lemma OpenedToTouch(m: Ram, dir: page, tmpl: page)
    requires Opened(m, dir, tmpl, true)
    ensures Opened(m, dir, tmpl, false)
  {
    hide Entry;
  }

  /** The process that maps sees the new page, can touch and write it, and nothing else changes. */
  lemma MapInViews(k: Kernel, tmpl: page, dir: page, vp: page, frame: page, clone: page, h: Holder, pm: map<page, page>)
    requires MayMap(k, tmpl, dir, vp, clone) && Views(k.m, tmpl, dir, pm)
    ensures Views(MapIn(k, tmpl, dir, vp, frame, clone, h).m, tmpl, dir, pm[vp := frame])
  {
    hide Mapped, PageOf, Reaches, Opened, MayMap;
    var r := MapIn(k, tmpl, dir, vp, frame, clone, h).m;
    OpenedToTouch(k.m, dir, tmpl);
    MapInOpens(k, tmpl, dir, vp, frame, clone, h, vp, true);
    forall w: page
      ensures PageOf(r, dir, w) == Lookup(pm[vp := frame], w)
      ensures UserPage(r, dir, w) <==> w in pm[vp := frame]
      ensures UserWrites(r, dir, w) <==> w in pm[vp := frame]
    {
      MapInOpens(k, tmpl, dir, vp, frame, clone, h, w, false);
      MapInOpens(k, tmpl, dir, vp, frame, clone, h, w, true);
    }
  }

  lemma MapInOpens(
      k: Kernel, tmpl: page, dir: page, vp: page, frame: page, clone: page, h: Holder, w: page, write: bool)
    requires MayMap(k, tmpl, dir, vp, clone) && Opened(k.m, dir, tmpl, write)
    ensures var r := MapIn(k, tmpl, dir, vp, frame, clone, h).m;
      && PageOf(r, dir, w) == (if w == vp then frame else PageOf(k.m, dir, w))
      && (Reaches(r, dir, w, write) <==> w == vp || Reaches(k.m, dir, w, write))
      && Opened(r, dir, tmpl, write)
  {
    hide Mapped, PageOf, CanMap, Reaches, Allows, Closed, Opened, World, Sees, Frame, Entry, DirIndex;
    var p, c := frame * 4096, clone * 4096;
    MapInIsLegal(k, tmpl, dir, vp, frame, clone);
    AlignedFrame(frame);
    KernelFlags();
    MapIsOnePoint(k.m, dir, tmpl, k.dirs, k.roles, vp, p, USER_FLAGS, c, w);
    MapOpensOnePage(k.m, dir, tmpl, k.dirs, k.roles, vp, p, USER_FLAGS, c, w, write);
  }

  /**
    What the hardware finds at the page: its frame and the table that leads there, present, writable and for users,
    and no other bit; an entry that was so stays so.
   */
  lemma MapInEntry(k: Kernel, tmpl: page, dir: page, vp: page, frame: page, clone: page, h: Holder)
    requires MayMap(k, tmpl, dir, vp, clone)
    ensures var r := MapIn(k, tmpl, dir, vp, frame, clone, h).m;
      && Entry(r, Frame(Entry(r, dir, DirIndex(vp))), TableIndex(vp)) == frame * 4096 + 7
      && (Shared(k.m, dir, tmpl, DirIndex(vp)) ==> Entry(r, dir, DirIndex(vp)) == clone * 4096 + 7)
      && forall g: page | !Shared(k.m, dir, tmpl, DirIndex(vp)) && Entry(k.m, dir, DirIndex(vp)) == g * 4096 + 7 ::
           Entry(r, dir, DirIndex(vp)) == g * 4096 + 7
  {
    hide Mapped, CanMap, World, Sees, Closed, Frame, Entry, DirIndex, TableIndex, Or32, Shared;
    AlignedFrame(clone);
    forall g: page { UserEntry(g); }
    MapInIsLegal(k, tmpl, dir, vp, frame, clone);
    MapWrites(k.m, dir, tmpl, k.dirs, k.roles, vp, frame, clone * 4096);
  }

  /** Nothing changes for a process with another directory. */
  lemma MapInSpares(k: Kernel, tmpl: page, dir: page, vp: page, frame: page, clone: page, h: Holder, q: Process)
    requires MayMap(k, tmpl, dir, vp, clone) && q.dir in k.dirs && q.dir != dir
    ensures Spared(k, MapIn(k, tmpl, dir, vp, frame, clone, h), tmpl, q)
  {
    var p, c := frame * 4096, clone * 4096;
    MapInIsLegal(k, tmpl, dir, vp, frame, clone);
    AlignedFrame(clone);
    MapSparesTables(k.m, dir, tmpl, k.dirs, k.roles, vp, p, USER_FLAGS, c, q.dir);
    MapSparesTables(k.m, dir, tmpl, k.dirs, k.roles, vp, p, USER_FLAGS, c, tmpl);
    hide Mapped, Entry, CanMap, DirIndex, Frame, World, Closed, SameTables;
  }

  lemma MapInOk(k: Kernel, tmpl: page, dir: page, vp: page, frame: page, clone: page, h: Holder)
    requires MayMap(k, tmpl, dir, vp, clone)
    ensures var l := MapIn(k, tmpl, dir, vp, frame, clone, h);
      && Extends(k, l, tmpl, dir)
      && !Shared(l.m, dir, tmpl, DirIndex(vp))
      && (forall i: nat | i < 1024 && i != DirIndex(vp) :: Shared(l.m, dir, tmpl, i) == Shared(k.m, dir, tmpl, i))
  {
    MapInKernel(k, tmpl, dir, vp, frame, clone, h);
    MapInBooks(k, tmpl, dir, vp, frame, clone, h);
    MapInLinks(k, tmpl, dir, vp, frame, clone, h);
    hide KernelOk, Shared, Spared, BooksKept, LinksKept, Mapped, RolesAfter, DirIndex, Entry, Frame;
    forall q: Process | q.dir in k.dirs && q.dir != dir {
      MapInSpares(k, tmpl, dir, vp, frame, clone, h, q);
    }
  }

  // ----- adding a page, a thread

  lemma NotIdentity(k: Kernel, tmpl: page, p: Process)
    requires KernelOk(k, tmpl) && Booked(k, p)
    ensures p.dir != k.identity && p.dir in k.dirs
  {
    hide World, Sees, Closed;
    assert Holds(k, p.dir, DirectoryOf(p.id));
  }

  lemma ListGrows(k: Kernel, p: Process, g: page)
    requires Booked(k, p) && OwnTables(k, p) && Holds(k, g, ListOf(p.id, |p.used|))
    requires g in k.roles ==> k.roles[g].PrivateTable? && k.roles[g].dir == p.dir
    ensures Booked(k, p.(used := p.used + [g])) && OwnTables(k, p.(used := p.used + [g]))
  {
    hide Entry, IsStack, Frame;
    var r := p.(used := p.used + [g]);
    assert forall t | 0 <= t < |p.threads| :: OwnTable(k, p, p.threads[t]) && OwnTable(k, r, p.threads[t]);
  }

  lemma ThreadsGrow(k: Kernel, p: Process, t: Thread)
    requires Booked(k, p) && OwnTables(k, p) && OwnTable(k, p, t)
    requires forall i | 0 <= i < |t.used| :: Holds(k, t.used[i], ThreadOf(p.id, t.stack, i))
    ensures Booked(k, p.(threads := p.threads + [t])) && OwnTables(k, p.(threads := p.threads + [t]))
  {
    hide Entry, IsStack, Frame;
    var r := p.(threads := p.threads + [t]);
    assert OwnTable(k, r, t);
    assert forall u | 0 <= u < |p.threads| :: OwnTable(k, p, p.threads[u]) && OwnTable(k, r, p.threads[u]);
  }

  /** A page for the process list, mapped at vp; the table it may need goes to the list too. */
  ghost function PageKernel(k: Kernel, tmpl: page, p: Process, vp: page, block: page, clone: page): Kernel
  {
    MapIn(Take(k, block, ListOf(p.id, |p.used|)), tmpl, p.dir, vp, block, clone, ListOf(p.id, |p.used| + 1))
  }

  ghost function PageProcess(k: Kernel, tmpl: page, p: Process, vp: page, block: page, clone: page): Process
  {
    p.(used := p.used + [block] + (if Shared(k.m, p.dir, tmpl, DirIndex(vp)) then [clone] else []),
       vm := p.vm[vp := block])
  }

  ghost predicate MayAdd(k: Kernel, tmpl: page, p: Process, vp: page, block: page, clone: page) {
    && KernelOk(k, tmpl) && Built(k, tmpl, p) && Unheld(k, block)
    && (Shared(k.m, p.dir, tmpl, DirIndex(vp)) ==> Unheld(k, clone) && clone != block)
  }

  lemma SameLists(k: Kernel, p: Process, q: Process)
    requires Booked(k, p) && OwnTables(k, p)
    requires q.id == p.id && q.dir == p.dir && q.used == p.used && q.threads == p.threads
    ensures Booked(k, q) && OwnTables(k, q)
  {
    hide Entry, IsStack, Frame;
    assert forall t | 0 <= t < |p.threads| :: OwnTable(k, p, p.threads[t]) && OwnTable(k, q, p.threads[t]);
  }

  lemma AddPageStages(k: Kernel, tmpl: page, p: Process, vp: page, block: page, clone: page)
    requires MayAdd(k, tmpl, p, vp, block, clone)
    ensures var k1 := Take(k, block, ListOf(p.id, |p.used|));
      && Extends(k, k1, tmpl, p.dir) && k1.m == k.m
      && MayMap(k1, tmpl, p.dir, vp, clone)
  {
    TakeOk(k, tmpl, block, ListOf(p.id, |p.used|), p.dir);
    NotIdentity(k, tmpl, p);
    hide Entry, PageOf, World, Sees, DirIndex, Closed, OwnTables, LinksKept, SameTables;
  }

  lemma AddPageLists(k: Kernel, tmpl: page, p: Process, vp: page, block: page, clone: page)
    requires MayAdd(k, tmpl, p, vp, block, clone)
    ensures var l, r := PageKernel(k, tmpl, p, vp, block, clone), PageProcess(k, tmpl, p, vp, block, clone);
      Booked(l, r) && OwnTables(l, r)
  {
    hide Mapped, Entry, PageOf, DirIndex, Frame, KernelOk, Views, Shared, Booked, OwnTables, Extends;
    var n := |p.used|;
    var k1 := Take(k, block, ListOf(p.id, n));
    var r := PageProcess(k, tmpl, p, vp, block, clone);
    var l := PageKernel(k, tmpl, p, vp, block, clone);
    var p1 := p.(used := p.used + [block]);
    AddPageStages(k, tmpl, p, vp, block, clone);
    ExtendsBooks(k, k1, tmpl, p.dir);
    ExtendsLists(k, k1, tmpl, p);
    ListGrows(k1, p, block);
    MapInOk(k1, tmpl, p.dir, vp, block, clone, ListOf(p.id, n + 1));
    ExtendsLists(k1, l, tmpl, p1);
    AlignedFrame(clone);
    if Shared(k.m, p.dir, tmpl, DirIndex(vp)) {
      ListGrows(l, p1, clone);
      assert r.used == p1.used + [clone];
    } else {
      assert r.used == p1.used;
    }
    SameLists(l, p1.(used := r.used), r);
  }

  lemma AddPageOk(k: Kernel, tmpl: page, p: Process, vp: page, block: page, clone: page)
    requires MayAdd(k, tmpl, p, vp, block, clone)
    ensures var l, r := PageKernel(k, tmpl, p, vp, block, clone), PageProcess(k, tmpl, p, vp, block, clone);
      && Extends(k, l, tmpl, p.dir) && Built(l, tmpl, r)
      && !Shared(l.m, p.dir, tmpl, DirIndex(vp)) && block !in l.roles
      && (forall i: nat | i < 1024 && i != DirIndex(vp) :: Shared(l.m, p.dir, tmpl, i) == Shared(k.m, p.dir, tmpl, i))
  {
    hide Mapped, Entry, PageOf, DirIndex, Frame, KernelOk, Views, Shared, Booked, OwnTables, Extends;
    var n := |p.used|;
    var k1 := Take(k, block, ListOf(p.id, n));
    AddPageStages(k, tmpl, p, vp, block, clone);
    AddPageLists(k, tmpl, p, vp, block, clone);
    MapInOk(k1, tmpl, p.dir, vp, block, clone, ListOf(p.id, n + 1));
    MapInViews(k1, tmpl, p.dir, vp, block, clone, ListOf(p.id, n + 1), p.vm);
    ExtendsBooks(k1, PageKernel(k, tmpl, p, vp, block, clone), tmpl, p.dir);
    assert Holds(k1, block, ListOf(p.id, n));
    ExtendsTwice(k, k1, PageKernel(k, tmpl, p, vp, block, clone), tmpl, p.dir);
  }

  // ----- expand_heap

  /** One turn of expand_heap: the next heap page. */
  ghost function Grown(k: Kernel, tmpl: page, p: Process, block: page, clone: page): Process
    requires p.heap + 1 < 0x10_0000
  {
    PageProcess(k, tmpl, p, p.heap, block, clone).(heap := p.heap + 1)
  }

  ghost predicate BelowStacks(p: Process, h: nat) {
    forall t | 0 <= t < |p.threads| :: h <= p.threads[t].stack - 2
  }

  lemma UnheldIsNew(k: Kernel, p: Process, g: page)
    requires Booked(k, p) && Unheld(k, g)
    ensures g !in p.used
  {
    assert forall i | 0 <= i < |p.used| :: Holds(k, p.used[i], ListOf(p.id, i));
  }

  lemma GrownBacked(p: Process, r: Process, block: page)
    requires Stacked(p) && HeapBacked(p) && block !in p.used
    requires p.heap + 1 < 0x10_0000 && BelowStacks(p, p.heap + 1)
    requires r.threads == p.threads && r.heap == p.heap + 1 && r.vm == p.vm[p.heap := block]
    requires block in r.used && forall g | g in p.used :: g in r.used
    ensures Stacked(r) && HeapBacked(r)
  {
    hide DirIndex;
    forall t | 0 <= t < |r.threads| ensures StackBacked(r, r.threads[t]) {
      assert StackBacked(p, p.threads[t]);
    }
  }

  lemma GrownData(l: Kernel, p: Process, r: Process, block: page)
    requires DataOnly(l, p) && block !in l.roles
    requires p.heap + 1 < 0x10_0000 && r.heap == p.heap + 1 && r.vm == p.vm[p.heap := block]
    requires block in r.used && forall g | g in p.used :: g in r.used
    ensures DataOnly(l, r)
  {
    assert forall w: page | IsListPage(r, w) && w != p.heap :: IsListPage(p, w);
  }

  lemma ThreadedData(l: Kernel, p: Process, r: Process, stack: page, base: page)
    requires DataOnly(l, p) && IsStack(stack) && p.heap <= stack - 2 && base + 1 < 0x10_0000
    requires r.heap == p.heap && r.used == p.used && r.vm == WithStackPages(p.vm, stack, base)
    ensures DataOnly(l, r)
  {
    assert forall w: page | IsListPage(r, w) :: IsListPage(p, w) && w < stack - 2;
  }

  lemma HeapAbove(k: Kernel, tmpl: page, p: Process)
    requires ProcessOk(k, tmpl, p)
    ensures HEAP_PAGE <= p.heap
  {
  }

  /** A mapping above the kernel's part leaves it alone. */
  lemma KernelStays(m: Ram, r: Ram, tmpl: page, dir: page, vp: page)
    requires HasKernel(m, tmpl, dir) && vp >= KERNEL_PAGES
    requires forall i: nat | i < 1024 && i != DirIndex(vp) :: Shared(r, dir, tmpl, i) == Shared(m, dir, tmpl, i)
    ensures HasKernel(r, tmpl, dir)
  {
    hide Shared;
  }

  lemma UnsharedStays(k: Kernel, l: Kernel, tmpl: page, dir: page, i: nat)
    requires Extends(k, l, tmpl, dir) && i < 1024 && !Shared(k.m, dir, tmpl, i)
    ensures !Shared(l.m, dir, tmpl, i)
  {
  }

  /** The heap grows by a page backed by a fresh block; all earlier heap and stack pages stay as they were. */
  lemma GrowOk(k: Kernel, tmpl: page, p: Process, block: page, clone: page)
    requires MayAdd(k, tmpl, p, p.heap, block, clone) && ProcessOk(k, tmpl, p)
    requires p.heap + 1 < 0x10_0000 && BelowStacks(p, p.heap + 1)
    ensures var l, r := PageKernel(k, tmpl, p, p.heap, block, clone), Grown(k, tmpl, p, block, clone);
      && Extends(k, l, tmpl, p.dir) && ProcessOk(l, tmpl, r)
      && r.vm == p.vm[p.heap := block]
      && block !in p.used
  {
    hide Mapped, MapIn, Entry, PageOf, Frame, KernelOk, OwnTables, Booked;
    hide Extends, Stacked, HeapBacked, DirIndex, BelowStacks, Shared;
    hide Views, HasKernel;
    var l, r := PageKernel(k, tmpl, p, p.heap, block, clone), Grown(k, tmpl, p, block, clone);
    AddPageOk(k, tmpl, p, p.heap, block, clone);
    UnheldIsNew(k, p, block);
    SameLists(l, PageProcess(k, tmpl, p, p.heap, block, clone), r);
    GrownBacked(p, r, block);
    ExtendsData(k, l, tmpl, p);
    GrownData(l, p, r, block);
    UnsharedStays(k, l, tmpl, p.dir, 255);
    HeapAbove(k, tmpl, p);
    KernelStays(k.m, l.m, tmpl, p.dir, p.heap);
  }

  // ----- create_thread

  /** Both pages of a stack lie under one table, and under the first one for the first 512 stacks. */
  lemma StackTable(s: page)
    requires IsStack(s)
    ensures DirIndex(s - 1) == DirIndex(s - 2) == Table(s)
    ensures Table(s) == 255 <==> STACK_PAGE - 2 * STACKS_PER_TABLE < s
  {
  }

  lemma StackAboveKernel(s: page)
    requires IsStack(s)
    ensures s - 1 >= KERNEL_PAGES
  {
  }

  /** The blocks a thread lists: its stack, and between them the table of the stack if it had to be made. */
  function StackBlocks(base: page, clone: page, shared: bool): seq<page>
    requires base + 1 < 0x10_0000
  {
    if shared then [base, clone, base + 1] else [base, base + 1]
  }

  ghost function WithStack(k: Kernel, id: nat, stack: page, base: page, shared: bool): Kernel
    requires base + 1 < 0x10_0000
  {
    Take(Take(k, base, ThreadOf(id, stack, 0)), base + 1, ThreadOf(id, stack, if shared then 2 else 1))
  }

  ghost function MapBoth(k: Kernel, tmpl: page, dir: page, stack: page, base: page, clone: page, h: Holder): Kernel
    requires IsStack(stack) && base + 1 < 0x10_0000
  {
    MapIn(MapIn(k, tmpl, dir, stack - 1, base, clone, h), tmpl, dir, stack - 2, base + 1, clone, h)
  }

  function WithStackPages(vm: map<page, page>, stack: page, base: page): map<page, page>
    requires IsStack(stack) && base + 1 < 0x10_0000
  {
    vm[stack - 1 := base][stack - 2 := base + 1]
  }

  ghost function ThreadKernel(k: Kernel, tmpl: page, p: Process, stack: page, base: page, clone: page): Kernel
    requires IsStack(stack) && base + 1 < 0x10_0000
  {
    var k1 := WithStack(k, p.id, stack, base, Shared(k.m, p.dir, tmpl, Table(stack)));
    MapBoth(k1, tmpl, p.dir, stack, base, clone, ThreadOf(p.id, stack, 1))
  }

  ghost function ThreadProcess(
      k: Kernel, tmpl: page, p: Process, stack: page, base: page, clone: page, isMain: bool): Process
    requires IsStack(stack) && base + 1 < 0x10_0000
  {
    var t := Thread(stack, StackBlocks(base, clone, Shared(k.m, p.dir, tmpl, Table(stack))), isMain);
    p.(threads := p.threads + [t], vm := WithStackPages(p.vm, stack, base))
  }

  ghost predicate MayThread(k: Kernel, tmpl: page, p: Process, stack: page, base: page, clone: page) {
    && KernelOk(k, tmpl) && Built(k, tmpl, p) && IsStack(stack) && base + 1 < 0x10_0000
    && Unheld(k, base) && Unheld(k, base + 1)
    && (Shared(k.m, p.dir, tmpl, Table(stack)) ==> Unheld(k, clone) && clone != base && clone != base + 1)
  }

  lemma WithStackOk(k: Kernel, tmpl: page, p: Process, stack: page, base: page, clone: page)
    requires MayThread(k, tmpl, p, stack, base, clone)
    ensures var shared := Shared(k.m, p.dir, tmpl, Table(stack)); var k1 := WithStack(k, p.id, stack, base, shared);
      && Extends(k, k1, tmpl, p.dir) && k1.m == k.m
      && MayMap(k1, tmpl, p.dir, stack - 1, clone)
      && Booked(k1, p) && OwnTables(k1, p)
  {
    var n := if Shared(k.m, p.dir, tmpl, Table(stack)) then 2 else 1;
    var k0 := Take(k, base, ThreadOf(p.id, stack, 0));
    TakeOk(k, tmpl, base, ThreadOf(p.id, stack, 0), p.dir);
    TakeOk(k0, tmpl, base + 1, ThreadOf(p.id, stack, n), p.dir);
    StackTable(stack);
    NotIdentity(k, tmpl, p);
    hide Entry, PageOf, World, Sees, DirIndex, Spared, Booked, OwnTables;
    hide Closed, Views, LinksKept, BooksKept, IsStack, SameTables;
    ExtendsTwice(k, k0, Take(k0, base + 1, ThreadOf(p.id, stack, n)), tmpl, p.dir);
    ExtendsLists(k, WithStack(k, p.id, stack, base, n == 2), tmpl, p);
  }

  /** Both stack pages are mapped; at most one table is made. */
  lemma MapStack(
      k: Kernel, tmpl: page, dir: page, stack: page, base: page, clone: page, h: Holder, pm: map<page, page>)
    requires IsStack(stack) && base + 1 < 0x10_0000
    requires MayMap(k, tmpl, dir, stack - 1, clone) && Views(k.m, tmpl, dir, pm)
    ensures var l, shared := MapBoth(k, tmpl, dir, stack, base, clone, h), Shared(k.m, dir, tmpl, Table(stack));
      && Extends(k, l, tmpl, dir) && Views(l.m, tmpl, dir, WithStackPages(pm, stack, base))
      && !Shared(l.m, dir, tmpl, Table(stack))
      && (forall i: nat | i < 1024 && i != Table(stack) :: Shared(l.m, dir, tmpl, i) == Shared(k.m, dir, tmpl, i))
      && l.holders == (if shared then k.holders[clone := h] else k.holders)
      && l.roles == (if shared then k.roles[clone := PrivateTable(dir, Table(stack))] else k.roles)
      && (shared ==> Frame(Entry(l.m, dir, Table(stack))) == clone)
  {
    hide Mapped, Entry, PageOf, Frame, KernelOk, Views, Extends, DirIndex, Shared;
    StackTable(stack);
    AlignedFrame(clone);
    var k1 := MapIn(k, tmpl, dir, stack - 1, base, clone, h);
    var l := MapIn(k1, tmpl, dir, stack - 2, base + 1, clone, h);
    MapInOk(k, tmpl, dir, stack - 1, base, clone, h);
    MapInLinks(k, tmpl, dir, stack - 1, base, clone, h);
    MapInViews(k, tmpl, dir, stack - 1, base, clone, h, pm);
    ExtendsBooks(k, k1, tmpl, dir);
    MapInOk(k1, tmpl, dir, stack - 2, base + 1, clone, h);
    ExtendsBooks(k1, l, tmpl, dir);
    MapInViews(k1, tmpl, dir, stack - 2, base + 1, clone, h, pm[stack - 1 := base]);
    ExtendsTwice(k, k1, l, tmpl, dir);
  }

  lemma ThreadOk(k: Kernel, tmpl: page, p: Process, stack: page, base: page, clone: page, isMain: bool)
    requires MayThread(k, tmpl, p, stack, base, clone)
    ensures var l := ThreadKernel(k, tmpl, p, stack, base, clone);
      var r := ThreadProcess(k, tmpl, p, stack, base, clone, isMain);
      && Extends(k, l, tmpl, p.dir) && Built(l, tmpl, r) && !Shared(l.m, p.dir, tmpl, Table(stack))
      && (forall i: nat | i < 1024 && i != Table(stack) :: Shared(l.m, p.dir, tmpl, i) == Shared(k.m, p.dir, tmpl, i))
  {
    hide Mapped, MapBoth, Entry, PageOf, Frame, KernelOk, Views, Booked;
    hide OwnTables, Extends, DirIndex, Shared, IsStack, WithStackPages, Table;
    var shared := Shared(k.m, p.dir, tmpl, Table(stack));
    var k1 := WithStack(k, p.id, stack, base, shared);
    WithStackOk(k, tmpl, p, stack, base, clone);
    MapStack(k1, tmpl, p.dir, stack, base, clone, ThreadOf(p.id, stack, 1), p.vm);
    var l := ThreadKernel(k, tmpl, p, stack, base, clone);
    var t := Thread(stack, StackBlocks(base, clone, shared), isMain);
    ExtendsBooks(k, k1, tmpl, p.dir);
    ExtendsLists(k1, l, tmpl, p);
    ThreadsGrow(l, p, t);
    SameLists(l, p.(threads := p.threads + [t]), ThreadProcess(k, tmpl, p, stack, base, clone, isMain));
    ExtendsTwice(k, k1, l, tmpl, p.dir);
  }

  lemma OddEven(a: page, b: page)
    requires IsStack(a) && IsStack(b) && a != b
    ensures a - 1 != b - 2 && a - 2 != b - 1
  {
  }

  lemma StaysBacked(p: Process, r: Process, t: Thread, stack: page, base: page)
    requires StackBacked(p, t) && IsStack(stack) && t.stack != stack && base + 1 < 0x10_0000
    requires r.heap == p.heap && r.vm == WithStackPages(p.vm, stack, base)
    ensures StackBacked(r, t)
  {
    OddEven(t.stack, stack);
  }

  lemma ThreadBacked(p: Process, r: Process, t: Thread, base: page, clone: page, shared: bool)
    requires Stacked(p) && HeapBacked(p) && IsStack(t.stack) && base + 1 < 0x10_0000
    requires p.heap <= t.stack - 2 && !t.isMain && t.used == StackBlocks(base, clone, shared)
    requires Table(t.stack) == 255 ==> !shared
    requires forall u | 0 <= u < |p.threads| :: p.threads[u].stack != t.stack
    requires r == p.(threads := p.threads + [t], vm := WithStackPages(p.vm, t.stack, base))
    ensures Stacked(r) && HeapBacked(r)
  {
    assert HeapBacked(r);
    assert StackBacked(r, t);
    hide StackBacked, HeapBacked, IsStack;
    forall u | 0 <= u < |p.threads| ensures StackBacked(r, p.threads[u]) {
      StaysBacked(p, r, p.threads[u], t.stack, base);
    }
  }

  /**
    Another thread on a stack of its own; heap and earlier stacks stay as they were. It lists a page table if
    and only if the directory entry of its stack was still the template's, which the first 512 never find.
   */
  lemma CreateThreadOk(k: Kernel, tmpl: page, p: Process, stack: page, base: page, clone: page)
    requires MayThread(k, tmpl, p, stack, base, clone) && ProcessOk(k, tmpl, p)
    requires p.heap <= stack - 2 && forall t | 0 <= t < |p.threads| :: p.threads[t].stack != stack
    ensures var l := ThreadKernel(k, tmpl, p, stack, base, clone);
      var r := ThreadProcess(k, tmpl, p, stack, base, clone, false);
      var t := r.threads[|p.threads|];
      && Extends(k, l, tmpl, p.dir) && ProcessOk(l, tmpl, r)
      && (|t.used| == 3 <==> Shared(k.m, p.dir, tmpl, Table(stack)))
      && (STACK_PAGE - 2 * STACKS_PER_TABLE < stack ==> |t.used| == 2)
  {
    hide Mapped, MapIn, Entry, PageOf, Frame, KernelOk, Views, Booked;
    hide OwnTables, Extends, DirIndex, Shared, Table, IsStack;
    hide Stacked, HeapBacked, StackBacked, HasKernel;
    var l := ThreadKernel(k, tmpl, p, stack, base, clone);
    var r := ThreadProcess(k, tmpl, p, stack, base, clone, false);
    ThreadOk(k, tmpl, p, stack, base, clone, false);
    StackTable(stack);
    UnsharedStays(k, l, tmpl, p.dir, 255);
    StackAboveKernel(stack);
    KernelStays(k.m, l.m, tmpl, p.dir, stack - 1);
    ExtendsData(k, l, tmpl, p);
    ThreadedData(l, p, r, stack, base);
    ThreadBacked(p, r, r.threads[|p.threads|], base, clone, Shared(k.m, p.dir, tmpl, Table(stack)));
  }

  /** The main thread completes a process under construction. */
  lemma MainThreadOk(k: Kernel, tmpl: page, p: Process, base: page, clone: page)
    requires MayThread(k, tmpl, p, STACK_PAGE, base, clone) && p.threads == [] && p.heap == HEAP_PAGE
    requires DataOnly(k, p) && HasKernel(k.m, tmpl, p.dir)
    ensures var l := ThreadKernel(k, tmpl, p, STACK_PAGE, base, clone);
      var r := ThreadProcess(k, tmpl, p, STACK_PAGE, base, clone, true);
      Extends(k, l, tmpl, p.dir) && ProcessOk(l, tmpl, r)
  {
    hide Mapped, MapIn, Entry, PageOf, Frame, KernelOk, Views, Booked, OwnTables, Extends, Shared, HasKernel;
    ThreadOk(k, tmpl, p, STACK_PAGE, base, clone, true);
    var l := ThreadKernel(k, tmpl, p, STACK_PAGE, base, clone);
    KernelStays(k.m, l.m, tmpl, p.dir, STACK_PAGE - 1);
    ExtendsData(k, l, tmpl, p);
    ThreadedData(l, p, ThreadProcess(k, tmpl, p, STACK_PAGE, base, clone, true), STACK_PAGE, base);
  }

  /**
    While a live process runs, the kernel's 8 MB are there, present and writable, each page on the frame of the
    same number, and user mode can neither touch them nor any page the process has not mapped.
   */
  lemma KernelIsThere(k: Kernel, tmpl: page, p: Process, w: page)
    requires KernelOk(k, tmpl) && ProcessOk(k, tmpl, p) && w < KERNEL_PAGES
    ensures KernelPage(k.m, p.dir, w) && PageOf(k.m, p.dir, w) == w && !UserPage(k.m, p.dir, w) && w !in p.vm
  {
    hide Booked, OwnTables, Stacked, HeapBacked, DataOnly, Sees, World, Shared, KernelOnly, KernelPage, PageOf, Opened;
    SharesKernelPages(k.m, tmpl, p.dir, w);
    KernelIsClosed(k.m, p.dir, w);
    assert PageOf(k.m, tmpl, w) == w by { TemplateIsIdentity(k, tmpl, w); }
  }

  lemma KernelIsClosed(m: Ram, dir: page, w: page)
    requires KernelPage(m, dir, w)
    ensures !UserPage(m, dir, w)
  {
    hide Entry, Frame, Bit;
  }

  lemma TemplateIsIdentity(k: Kernel, tmpl: page, w: page)
    requires KernelOk(k, tmpl)
    ensures PageOf(k.m, tmpl, w) == w
  {
    hide World, Closed, PageOf;
  }

  // ----- the end of a thread, the end of a process

  function Listed(gs: seq<page>): set<page> {
    set g | g in gs
  }

  function WithoutThread(p: Process, t: nat): Process
    requires t < |p.threads|
  {
    p.(threads := p.threads[..t] + p.threads[t + 1..])
  }

  /** The thread's blocks go back; what they were mapped to stays in the tables. */
  function ThreadGone(k: Kernel, p: Process, t: nat): Kernel
    requires t < |p.threads|
  {
    var freed := Listed(p.threads[t].used);
    k.(used := k.used - freed, holders := k.holders - freed)
  }

  lemma EndThreadBooks(k: Kernel, p: Process, t: nat)
    requires Booked(k, p) && OwnTables(k, p) && Stacked(p) && 0 < t < |p.threads|
    ensures var l, r := ThreadGone(k, p, t), WithoutThread(p, t); Booked(l, r) && OwnTables(l, r)
  {
    hide StackBacked, Entry, DirIndex, IsStack, Frame;
    var l, r := ThreadGone(k, p, t), WithoutThread(p, t);
    forall i | 0 <= i < |p.used| ensures Holds(l, p.used[i], ListOf(p.id, i)) {
      assert Holds(k, p.used[i], ListOf(p.id, i));
    }
    forall u, i | 0 <= u < |p.threads| && u != t && 0 <= i < |p.threads[u].used|
      ensures Holds(l, p.threads[u].used[i], ThreadOf(p.id, p.threads[u].stack, i))
    {
      assert Holds(k, p.threads[u].used[i], ThreadOf(p.id, p.threads[u].stack, i));
      assert p.threads[u].stack != p.threads[t].stack;
    }
    forall u | 0 <= u < |r.threads|
      ensures r.threads[u] == p.threads[if u < t then u else u + 1] && OwnTable(l, r, r.threads[u])
    {
      assert OwnTable(k, p, p.threads[if u < t then u else u + 1]);
    }
    assert Holds(k, p.dir, DirectoryOf(p.id));
  }

  lemma EndThreadStacked(p: Process, t: nat)
    requires Stacked(p) && HeapBacked(p) && 0 < t < |p.threads|
    ensures Stacked(WithoutThread(p, t)) && HeapBacked(WithoutThread(p, t))
  {
    hide DirIndex, IsStack;
    var r := WithoutThread(p, t);
    forall u | 0 <= u < |r.threads|
      ensures r.threads[u] == p.threads[if u < t then u else u + 1] && StackBacked(r, r.threads[u])
    {
      assert StackBacked(p, p.threads[if u < t then u else u + 1]);
    }
  }

  /** Ending a thread that is not the main one and lists no table frees its two blocks and disturbs nobody. */
  lemma EndThreadOk(k: Kernel, tmpl: page, p: Process, t: nat, q: Process)
    requires KernelOk(k, tmpl) && ProcessOk(k, tmpl, p) && 0 < t < |p.threads| && |p.threads[t].used| == 2
    ensures var l, r := ThreadGone(k, p, t), WithoutThread(p, t);
      && KernelOk(l, tmpl) && ProcessOk(l, tmpl, r)
      && (q.id != p.id ==> Spared(k, l, tmpl, q))
  {
    hide Entry, Frame, World, Views, Shared, HasKernel, Stacked, HeapBacked, Sees, Closed, IsStack, DirIndex;
    hide SameTables;
    SameTablesSelf(k.m, q.dir);
    SameTablesSelf(k.m, tmpl);
    EndThreadBooks(k, p, t);
    EndThreadStacked(p, t);
    assert OwnTable(k, p, p.threads[t]);
    EndThreadHeld(k, p, t);
    hide Booked, OwnTables;
  }

  lemma EndThreadHeld(k: Kernel, p: Process, t: nat)
    requires Booked(k, p) && t < |p.threads|
    ensures forall g | g in Listed(p.threads[t].used) :: g in k.holders && HeldBy(k.holders[g], p.id)
    ensures |Listed(p.threads[t].used)| == |p.threads[t].used|
  {
    var gs := p.threads[t].used;
    forall i | 0 <= i < |gs| ensures Holds(k, gs[i], ThreadOf(p.id, p.threads[t].stack, i)) {}
    SizeOfDistinct(gs);
  }

  lemma {:induction false} SizeOfDistinct(gs: seq<page>)
    requires forall i, j | 0 <= i < j < |gs| :: gs[i] != gs[j]
    ensures |Listed(gs)| == |gs|
  {
    if gs != [] {
      var n := |gs| - 1;
      SizeOfDistinct(gs[..n]);
      assert gs == gs[..n] + [gs[n]];
      assert Listed(gs) == Listed(gs[..n]) + {gs[n]};
    }
  }

  /**
    The end of a thread leaves the page tables in order if and only if it lists no table, which means that its
    directory entry was already private when it was made. Otherwise that entry leads to a page not in use.
   */
  lemma EndThreadExact(k: Kernel, tmpl: page, p: Process, t: nat)
    requires KernelOk(k, tmpl) && ProcessOk(k, tmpl, p) && 0 < t < |p.threads|
    ensures var l := ThreadGone(k, p, t);
      && (KernelOk(l, tmpl) <==> |p.threads[t].used| == 2)
      && (|p.threads[t].used| == 3 ==> Frame(Entry(l.m, p.dir, Table(p.threads[t].stack))) !in l.used)
      && (|p.threads[t].used| == 3 ==> p.threads[t].stack <= STACK_PAGE - 2 * STACKS_PER_TABLE)
  {
    hide Entry, PageOf, Frame, World, Sees, Closed, Views, HeapBacked, Shared, StackBacked, IsStack, Table;
    var thread := p.threads[t];
    assert OwnTable(k, p, thread);
    StackTable(thread.stack);
    if |thread.used| == 2 {
      EndThreadOk(k, tmpl, p, t, p);
    } else {
      assert thread.used[1] in Listed(thread.used);
    }
  }

  /** A thread's blocks are all different and in use, so the counter falls by one for each. */
  lemma EndThreadFrees(k: Kernel, tmpl: page, p: Process, t: nat)
    requires KernelOk(k, tmpl) && ProcessOk(k, tmpl, p) && t < |p.threads|
    ensures Listed(p.threads[t].used) <= k.used && |Listed(p.threads[t].used)| == |p.threads[t].used|
  {
    hide World, Sees, Closed, Views, HeapBacked, Shared, Stacked, OwnTables;
    EndThreadHeld(k, p, t);
  }

  /** What the process destructor frees: the directory and the process list, not the blocks of its threads. */
  function ProcessPages(p: Process): set<page> {
    {p.dir} + Listed(p.used)
  }

  function ProcessGone(k: Kernel, p: Process): Kernel {
    var freed := ProcessPages(p);
    k.(used := k.used - freed, holders := k.holders - freed, roles := k.roles - freed, dirs := k.dirs - {p.dir})
  }

  lemma ProcessPagesHeld(k: Kernel, p: Process)
    requires Booked(k, p) && OwnTables(k, p)
    ensures forall g | g in ProcessPages(p) :: g in k.holders && HeldBy(k.holders[g], p.id)
    ensures Releasable(k.roles, p.dir, ProcessPages(p))
  {
    hide OwnTable;
    assert Holds(k, p.dir, DirectoryOf(p.id));
    assert forall i | 0 <= i < |p.used| :: Holds(k, p.used[i], ListOf(p.id, i));
  }

  lemma EndProcessOk(k: Kernel, tmpl: page, p: Process, q: Process)
    requires KernelOk(k, tmpl) && Built(k, tmpl, p)
    ensures var l := ProcessGone(k, p);
      && KernelOk(l, tmpl)
      && (q.id != p.id && q.dir != p.dir ==> Spared(k, l, tmpl, q))
  {
    hide Entry, Frame, Booked, OwnTables, Sees, Shared, Closed, Views, ProcessPages, Releasable, SameTables;
    SameTablesSelf(k.m, q.dir);
    SameTablesSelf(k.m, tmpl);
    ProcessPagesHeld(k, p);
    NotIdentity(k, tmpl, p);
    DropKeepsWorld(PageRuns.State(k.m, k.dirs, k.roles), tmpl, p.dir, ProcessPages(p));
  }

  /** The destructor's frees are all of different blocks in use, so the counter falls by one for each. */
  lemma EndProcessFrees(k: Kernel, tmpl: page, p: Process)
    requires KernelOk(k, tmpl) && Booked(k, p)
    ensures ProcessPages(p) <= k.used && |ProcessPages(p)| == 1 + |p.used|
  {
    hide World, Sees, Closed;
    assert Holds(k, p.dir, DirectoryOf(p.id));
    assert forall i | 0 <= i < |p.used| :: Holds(k, p.used[i], ListOf(p.id, i));
    SizeOfDistinct(p.used);
  }

  // ----- a new process

  function NewDirectory(k: Kernel, tmpl: page, id: nat, d: page): Kernel {
    Take(k, d, DirectoryOf(id)).(m := CopyPage(k.m, tmpl, d), dirs := k.dirs + {d}, roles := k.roles[d := Directory])
  }

  function Newborn(id: nat, d: page): Process {
    Process(id, d, [], [], HEAP_PAGE, map[])
  }

  lemma NewDirectoryOk(k: Kernel, tmpl: page, id: nat, d: page, q: Process)
    requires KernelOk(k, tmpl) && Unheld(k, d)
    ensures var l := NewDirectory(k, tmpl, id, d);
      && KernelOk(l, tmpl) && Built(l, tmpl, Newborn(id, d))
      && (forall i: nat | i < 1024 :: Shared(l.m, d, tmpl, i))
      && (q.dir in k.dirs ==> Spared(k, l, tmpl, q))
  {
    hide Entry, PageOf, CopyPage, DirIndex, Reaches, Closed, Opened, Frame, SameTables, KernelOnly, KernelHasAll, World;
    var s := PageRuns.State(k.m, k.dirs, k.roles);
    assert Legal(s, tmpl, Create(d));
    CreateStep(s, tmpl, d);
    CreateClosed(s, tmpl, d, false);
    CreateClosed(s, tmpl, d, true);
    CreateSparesTables(s, tmpl, d, tmpl);
    CreateKeepsGuards(k, tmpl, d);
    if q.dir in k.dirs { CreateSparesTables(s, tmpl, d, q.dir); }
    NoDirYet(k, tmpl, d);
    TemplateElsewhere(k, tmpl, d);
  }

  lemma TemplateElsewhere(k: Kernel, tmpl: page, d: page)
    requires KernelOk(k, tmpl) && Unheld(k, d)
    ensures tmpl != d
  {
    hide Sees, Closed;
    assert HasRole(k.roles, tmpl, TemplateDirectory);
  }

  lemma CreateKeepsGuards(k: Kernel, tmpl: page, d: page)
    requires KernelOk(k, tmpl) && Unheld(k, d)
    ensures var r := CopyPage(k.m, tmpl, d); KernelOnly(r, tmpl) && KernelHasAll(r, k.identity)
  {
    hide CopyPage, SameTables, World, Closed, KernelOnly, KernelHasAll, Sees;
    var s := PageRuns.State(k.m, k.dirs, k.roles);
    assert Legal(s, tmpl, Create(d));
    CreateSparesTables(s, tmpl, d, tmpl);
    CreateSparesTables(s, tmpl, d, k.identity);
    TablesDecide(k.m, CopyPage(k.m, tmpl, d), tmpl, tmpl);
    TablesDecide(k.m, CopyPage(k.m, tmpl, d), tmpl, k.identity);
  }

  lemma NoDirYet(k: Kernel, tmpl: page, d: page)
    requires KernelOk(k, tmpl) && Unheld(k, d)
    ensures d !in k.dirs
  {
    hide Sees, Closed;
    assert forall e | e in k.dirs :: DirectoryOk(k.m, e, tmpl, k.roles) && HasRole(k.roles, e, Directory);
  }

  // ----- the system

  /** Position h of some live process names page g. */
  ghost predicate Names(ps: seq<Process>, g: page, h: Holder) {
    exists n | 0 <= n < |ps| :: NamesIn(ps[n], g, h)
  }

  ghost predicate NamesIn(p: Process, g: page, h: Holder) {
    match h
    case DirectoryOf(id) => id == p.id && g == p.dir
    case ListOf(id, i) => id == p.id && i < |p.used| && p.used[i] == g
    case Reserved => false
    case ThreadOf(id, s, i) =>
      id == p.id &&
      exists t | 0 <= t < |p.threads| ::
        p.threads[t].stack == s && i < |p.threads[t].used| && p.threads[t].used[i] == g
  }

  /** No block is named twice by the lists of all live processes and threads, and every block named is in use. */
  lemma NamedOnce(k: Kernel, tmpl: page, ps: seq<Process>, g: page, h: Holder, j: Holder)
    requires SystemOk(k, tmpl, ps) && Names(ps, g, h) && Names(ps, g, j)
    ensures g in k.used && h == j
  {
    NamedIsHeld(k, tmpl, ps, g, h);
    NamedIsHeld(k, tmpl, ps, g, j);
  }

  lemma NamedIsHeld(k: Kernel, tmpl: page, ps: seq<Process>, g: page, h: Holder)
    requires SystemOk(k, tmpl, ps) && Names(ps, g, h)
    ensures Holds(k, g, h) && g in k.used
  {
    hide World, Sees, Closed, Views, OwnTables, Stacked, HeapBacked, Shared;
    var n :| 0 <= n < |ps| && NamesIn(ps[n], g, h);
    assert ProcessOk(k, tmpl, ps[n]);
  }

  lemma DistinctDirs(k: Kernel, tmpl: page, p: Process, q: Process)
    requires ProcessOk(k, tmpl, p) && ProcessOk(k, tmpl, q) && p.id != q.id
    ensures p.dir != q.dir
  {
    assert Holds(k, p.dir, DirectoryOf(p.id)) && Holds(k, q.dir, DirectoryOf(q.id));
  }
}
