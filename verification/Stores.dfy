/** Bytes that system calls and user programs store into physical memory, and what such a store may hit. */
module Stores {
  import opened Machine
  import opened Pages
  import opened PageRuns
  import opened Protection
  import opened Paging
  import opened Ownership
  import opened ProcessRuns
  import BlockAllocator
  import Blocks

  // ----- bytes in words

  /** Byte k of word w, the least significant first. */
  function ByteOf(w: u32, k: nat): byte
    requires k < 4
  {
    if k == 0 then w % 0x100
    else if k == 1 then w / 0x100 % 0x100
    else if k == 2 then w / 0x1_0000 % 0x100
    else w / 0x100_0000 % 0x100
  }

  function WithByte(w: u32, k: nat, b: byte): u32
    requires k < 4
  {
    FromBytes(if k == 0 then b else ByteOf(w, 0), if k == 1 then b else ByteOf(w, 1),
              if k == 2 then b else ByteOf(w, 2), if k == 3 then b else ByteOf(w, 3))
  }

  lemma BytesOf(b0: byte, b1: byte, b2: byte, b3: byte)
    ensures var w := FromBytes(b0, b1, b2, b3);
      0 <= w < TWO32 && ByteOf(w, 0) == b0 && ByteOf(w, 1) == b1 && ByteOf(w, 2) == b2 && ByteOf(w, 3) == b3
  {
    var w := FromBytes(b0, b1, b2, b3);
    assert w / 0x100 == b1 + 0x100 * b2 + 0x1_0000 * b3;
    assert w / 0x1_0000 == b2 + 0x100 * b3;
    assert w / 0x100_0000 == b3;
  }

  lemma WithByteOf(w: u32, k: nat, b: byte, j: nat)
    requires k < 4 && j < 4
    ensures ByteOf(WithByte(w, k, b), j) == if j == k then b else ByteOf(w, j)
  {
    hide ByteOf, FromBytes;
    BytesOf(if k == 0 then b else ByteOf(w, 0), if k == 1 then b else ByteOf(w, 1),
            if k == 2 then b else ByteOf(w, 2), if k == 3 then b else ByteOf(w, 3));
  }

  function ByteAt(m: Ram, a: u32): byte { ByteOf(m[a / 4], a % 4) }

  /** *(char_t *)a = b */
  function PutByte(m: Ram, a: u32, b: byte): Ram {
    m[a / 4 := WithByte(m[a / 4], a % 4, b)]
  }

  /** The bytes bs, one after the other from address a on. */
  function StoreBytes(m: Ram, a: u32, bs: seq<byte>): Ram
    requires a + |bs| <= TWO32
  {
    if bs == [] then m
    else PutByte(StoreBytes(m, a, bs[..|bs| - 1]), a + |bs| - 1, bs[|bs| - 1])
  }

  /** The bytes arrive, in order, and nothing else in memory changes. */
  lemma {:induction false} StoreIsExact(m: Ram, a: u32, bs: seq<byte>, x: u32)
    requires a + |bs| <= TWO32
    ensures ByteAt(StoreBytes(m, a, bs), x) == if a <= x < a + |bs| then bs[x - a] else ByteAt(m, x)
  {
    hide ByteOf, WithByte;
    if bs != [] {
      var n := |bs| - 1;
      StoreIsExact(m, a, bs[..n], x);
      var before := StoreBytes(m, a, bs[..n]);
      WithByteOf(before[(a + n) / 4], (a + n) % 4, bs[n], x % 4);
      if (a + n) / 4 == x / 4 && (a + n) % 4 == x % 4 { assert x == a + n; }
    }
  }

  /** A u32_t as it lies in memory. */
  function WordBytes(v: u32): (bs: seq<byte>)
    ensures |bs| == 4
  {
    [ByteOf(v, 0), ByteOf(v, 1), ByteOf(v, 2), ByteOf(v, 3)]
  }

  /** A word stored where words begin replaces that word. */
  lemma StoreWord(m: Ram, g: page, j: nat, v: u32)
    requires j < 1024
    ensures g * 4096 + 4 * j + 4 <= TWO32
    ensures StoreBytes(m, g * 4096 + 4 * j, WordBytes(v)) == PutEntry(m, g, j, v)
  {
    hide WithByte, ByteOf, StoreBytes;
    var x := g * 1024 + j;
    var a: u32 := 4 * x;
    var b0, b1, b2, b3 := ByteOf(v, 0), ByteOf(v, 1), ByteOf(v, 2), ByteOf(v, 3);
    StoreFour(m, a, b0, b1, b2, b3);
    PutInWord(m, x, 0, b0);
    var m1 := m[x := WithByte(m[x], 0, b0)];
    PutInWord(m1, x, 1, b1);
    var m2 := m1[x := WithByte(m1[x], 1, b1)];
    PutInWord(m2, x, 2, b2);
    var m3 := m2[x := WithByte(m2[x], 2, b2)];
    PutInWord(m3, x, 3, b3);
    FourBytes(m[x], v);
    assert m3[x := v] == m[x := v];
  }

  lemma PutInWord(m: Ram, x: nat, k: nat, b: byte)
    requires x < 0x4000_0000 && k < 4
    ensures PutByte(m, 4 * x + k, b) == m[x := WithByte(m[x], k, b)]
  {
    hide WithByte;
    assert (4 * x + k) / 4 == x && (4 * x + k) % 4 == k;
  }

  lemma StoreFour(m: Ram, a: u32, b0: byte, b1: byte, b2: byte, b3: byte)
    requires a + 4 <= TWO32
    ensures StoreBytes(m, a, [b0, b1, b2, b3]) ==
            PutByte(PutByte(PutByte(PutByte(m, a, b0), a + 1, b1), a + 2, b2), a + 3, b3)
  {
    hide PutByte;
    assert [b0, b1, b2, b3][..3] == [b0, b1, b2] && [b0, b1, b2][..2] == [b0, b1];
    assert [b0, b1][..1] == [b0] && [b0][..0] == [];
    assert StoreBytes(m, a, [b0]) == PutByte(m, a, b0);
    assert StoreBytes(m, a, [b0, b1]) == PutByte(PutByte(m, a, b0), a + 1, b1);
    assert StoreBytes(m, a, [b0, b1, b2]) == PutByte(PutByte(PutByte(m, a, b0), a + 1, b1), a + 2, b2);
  }

  lemma FourBytes(w: u32, v: u32)
    ensures WithByte(WithByte(WithByte(WithByte(w, 0, ByteOf(v, 0)), 1, ByteOf(v, 1)), 2, ByteOf(v, 2)), 3,
        ByteOf(v, 3)) == v
  {
    hide ByteOf, WithByte;
    var w1 := WithByte(w, 0, ByteOf(v, 0));
    var w2 := WithByte(w1, 1, ByteOf(v, 1));
    var w3 := WithByte(w2, 2, ByteOf(v, 2));
    var w4 := WithByte(w3, 3, ByteOf(v, 3));
    forall j | 0 <= j < 4 ensures ByteOf(w4, j) == ByteOf(v, j) {
      WithByteOf(w, 0, ByteOf(v, 0), j);
      WithByteOf(w1, 1, ByteOf(v, 1), j);
      WithByteOf(w2, 2, ByteOf(v, 2), j);
      WithByteOf(w3, 3, ByteOf(v, 3), j);
    }
    SameBytes(w4, v);
  }

  lemma SameBytes(w: u32, v: u32)
    requires forall j | 0 <= j < 4 :: ByteOf(w, j) == ByteOf(v, j)
    ensures w == v
  {
    hide ByteOf, FromBytes;
    FromItsBytes(w);
    FromItsBytes(v);
    assert ByteOf(w, 0) == ByteOf(v, 0) && ByteOf(w, 1) == ByteOf(v, 1);
    assert ByteOf(w, 2) == ByteOf(v, 2) && ByteOf(w, 3) == ByteOf(v, 3);
  }

  lemma FromItsBytes(w: u32)
    ensures w == FromBytes(ByteOf(w, 0), ByteOf(w, 1), ByteOf(w, 2), ByteOf(w, 3))
  {
    WordOfBytes(w);
    assert w / 0x100_0000 % 0x100 == w / 0x100_0000;
  }

  lemma PutByteSameBut(m: Ram, a: u32, b: byte)
    ensures SameBut(m, PutByte(m, a, b), Frame(a))
  {
    hide WithByte;
  }

  // ----- which pages a store may hit

  /** Page g holds a directory or a page table that the kernel or a live process runs on, or the template. */
  ghost predicate LiveTable(k: Kernel, tmpl: page, ps: seq<Process>, g: page) {
    || g == tmpl || g in k.dirs
    || Reached(k.m, tmpl, g) || Reached(k.m, k.identity, g)
    || exists n | 0 <= n < |ps| :: Reached(k.m, ps[n].dir, g)
  }

  /** An entry of directory d leads to page g. */
  ghost predicate Reached(m: Ram, d: page, g: page) {
    exists i: nat | i < 1024 :: Frame(Entry(m, d, i)) == g
  }

  lemma TablesHaveRoles(k: Kernel, tmpl: page, ps: seq<Process>, g: page)
    requires SystemOk(k, tmpl, ps) && LiveTable(k, tmpl, ps, g)
    ensures g in k.roles
  {
    hide ProcessOk, Entry, Frame, Sees, Closed, Reached;
    assert HasRole(k.roles, tmpl, TemplateDirectory);
    if g in k.dirs {
      assert HasRole(k.roles, g, Directory);
    } else if Reached(k.m, tmpl, g) {
      ReachedHasRole(k, tmpl, tmpl, g);
    } else if Reached(k.m, k.identity, g) {
      ReachedHasRole(k, tmpl, k.identity, g);
    } else if g != tmpl {
      var n :| 0 <= n < |ps| && Reached(k.m, ps[n].dir, g);
      OkIsBuilt(k, tmpl, ps[n]);
      ReachedHasRole(k, tmpl, ps[n].dir, g);
    }
  }

  lemma ReachedHasRole(k: Kernel, tmpl: page, d: page, g: page)
    requires World(k.m, tmpl, k.dirs, k.roles) && (d == tmpl || d in k.dirs) && Reached(k.m, d, g)
    ensures g in k.roles
  {
    hide Entry, Frame;
    var i: nat :| i < 1024 && Frame(Entry(k.m, d, i)) == g;
    assert HasRole(k.roles, Frame(Entry(k.m, tmpl, i)), TemplateTable(i));
    if d != tmpl {
      assert DirectoryOk(k.m, d, tmpl, k.roles);
      assert Shared(k.m, d, tmpl, i) || HasRole(k.roles, Frame(Entry(k.m, d, i)), PrivateTable(d, i));
    }
  }

  /** The directory and everything behind it is spared by changes on page g. */
  lemma ViewSpared(m: Ram, r: Ram, g: page, d: page)
    requires SameBut(m, r, g) && d != g && !Reached(m, d, g)
    ensures SameTables(m, r, d)
  {
    hide Entry, Frame;
    forall i: nat | i < 1024 ensures SameTable(m, r, d, i) {
      assert Frame(Entry(m, d, i)) != g;
    }
  }

  lemma WorldSpared(k: Kernel, tmpl: page, r: Ram, g: page)
    requires World(k.m, tmpl, k.dirs, k.roles) && SameBut(k.m, r, g) && g != tmpl && g !in k.dirs
    ensures World(r, tmpl, k.dirs, k.roles)
  {
    hide Entry, Frame;
    forall d | d in k.dirs ensures DirectoryOk(r, d, tmpl, k.roles) {
      assert DirectoryOk(k.m, d, tmpl, k.roles);
    }
  }

  lemma KernelSpared(k: Kernel, tmpl: page, ps: seq<Process>, r: Ram, g: page)
    requires KernelOk(k, tmpl) && SameBut(k.m, r, g) && !LiveTable(k, tmpl, ps, g)
    ensures KernelOk(k.(m := r), tmpl) && SameTables(k.m, r, tmpl)
  {
    hide World, Closed, Reached, SameBut, SameTables, PageOf, KernelOnly, KernelHasAll;
    WorldSpared(k, tmpl, r, g);
    ViewSpared(k.m, r, g, tmpl);
    ViewSpared(k.m, r, g, k.identity);
    TablesDecide(k.m, r, tmpl, tmpl);
    TablesDecide(k.m, r, tmpl, k.identity);
  }

  lemma ProcessSpared(k: Kernel, tmpl: page, p: Process, r: Ram)
    requires KernelOk(k, tmpl) && ProcessOk(k, tmpl, p) && SameTables(k.m, r, p.dir) && SameTables(k.m, r, tmpl)
    ensures ProcessOk(k.(m := r), tmpl, p)
  {
    hide KernelOk, ProcessOk, SameTables;
    SparedOk(k, k.(m := r), tmpl, p);
  }

  lemma SystemSpared(k: Kernel, tmpl: page, ps: seq<Process>, r: Ram, g: page)
    requires SystemOk(k, tmpl, ps) && SameBut(k.m, r, g) && !LiveTable(k, tmpl, ps, g)
    ensures SystemOk(k.(m := r), tmpl, ps)
  {
    hide KernelOk, ProcessOk, SameBut, Reached, SameTables;
    KernelSpared(k, tmpl, ps, r, g);
    forall n | 0 <= n < |ps| ensures ProcessOk(k.(m := r), tmpl, ps[n]) {
      OkIsBuilt(k, tmpl, ps[n]);
      ViewSpared(k.m, r, g, ps[n].dir);
      ProcessSpared(k, tmpl, ps[n], r);
    }
  }

  // ----- stores that do harm

  lemma TemplateBreaks(k: Kernel, tmpl: page)
    requires KernelOk(k, tmpl)
    ensures exists r: Ram :: SameBut(k.m, r, tmpl) && !KernelOk(k.(m := r), tmpl)
  {
    hide Entry, PutEntry, Frame, Sees, Closed;
    var e := Entry(k.m, tmpl, 1);
    var r := PutEntry(k.m, tmpl, 0, e);
    assert HasRole(k.roles, Frame(e), TemplateTable(1));
    assert Entry(r, tmpl, 0) == e && !HasRole(k.roles, Frame(Entry(r, tmpl, 0)), TemplateTable(0));
    assert SameBut(k.m, r, tmpl);
  }

  lemma DirectoryBreaks(k: Kernel, tmpl: page, d: page)
    requires KernelOk(k, tmpl) && d in k.dirs
    ensures exists r: Ram :: SameBut(k.m, r, d) && !KernelOk(k.(m := r), tmpl)
  {
    hide Entry, PutEntry, Frame, Sees, Closed;
    var e := Entry(k.m, tmpl, 1);
    var r := PutEntry(k.m, d, 0, e);
    assert HasRole(k.roles, d, Directory) && HasRole(k.roles, tmpl, TemplateDirectory);
    assert HasRole(k.roles, Frame(e), TemplateTable(1));
    assert HasRole(k.roles, Frame(Entry(k.m, tmpl, 0)), TemplateTable(0));
    assert Entry(r, d, 0) == e && Entry(r, tmpl, 0) == Entry(k.m, tmpl, 0);
    assert !DirectoryOk(r, d, tmpl, k.roles) by {
      assert !Shared(r, d, tmpl, 0) && !HasRole(k.roles, Frame(Entry(r, d, 0)), PrivateTable(d, 0));
    }
    assert SameBut(k.m, r, d);
  }

  /** A change in a table moves a page of the directory that leads to it. */
  lemma TableBreaks(m: Ram, d: page, g: page, pm: map<page, page>)
    requires Reached(m, d, g) && d != g && Sees(m, d, pm)
    ensures exists r: Ram :: SameBut(m, r, g) && !Sees(r, d, pm)
  {
    hide Entry, PutEntry;
    var i: nat :| i < 1024 && Frame(Entry(m, d, i)) == g;
    var w: page := i * 1024;
    var other: page := if PageOf(m, d, w) == 0 then 1 else 0;
    var r := PutEntry(m, g, 0, other * 4096);
    assert Entry(r, d, i) == Entry(m, d, i) && PageOf(r, d, w) == other != Lookup(pm, w);
    assert SameBut(m, r, g);
  }

  lemma TableHarms(k: Kernel, tmpl: page, ps: seq<Process>, g: page)
    requires SystemOk(k, tmpl, ps) && LiveTable(k, tmpl, ps, g)
    ensures exists r: Ram :: SameBut(k.m, r, g) && !SystemOk(k.(m := r), tmpl, ps)
  {
    hide Entry, SameBut, Reached, World, Closed, Frame;
    if g == tmpl {
      TemplateBreaks(k, tmpl);
    } else if g in k.dirs {
      DirectoryBreaks(k, tmpl, g);
    } else if Reached(k.m, tmpl, g) {
      TableBreaks(k.m, tmpl, g, map[]);
    } else if Reached(k.m, k.identity, g) {
      TableBreaks(k.m, k.identity, g, map[]);
    } else {
      var n :| 0 <= n < |ps| && Reached(k.m, ps[n].dir, g);
      hide KernelOk;
      OkIsBuilt(k, tmpl, ps[n]);
      TableBreaks(k.m, ps[n].dir, g, ps[n].vm);
    }
  }

  /**
    Whatever is stored on page g, the kernel and all its processes stay in order if and only if g is no directory
    and no page table in use.
   */
  lemma StoresKeepSystem(k: Kernel, tmpl: page, ps: seq<Process>, g: page)
    requires SystemOk(k, tmpl, ps)
    ensures (forall r: Ram | SameBut(k.m, r, g) :: SystemOk(k.(m := r), tmpl, ps)) <==> !LiveTable(k, tmpl, ps, g)
  {
    hide SystemOk, LiveTable, SameBut;
    if LiveTable(k, tmpl, ps, g) {
      TableHarms(k, tmpl, ps, g);
    } else {
      forall r: Ram | SameBut(k.m, r, g) ensures SystemOk(k.(m := r), tmpl, ps) {
        SystemSpared(k, tmpl, ps, r, g);
      }
    }
  }

  /** Whatever is stored on page g, the marks of used blocks stay if and only if g is not their page. */
  lemma StoresKeepMarks(memory: BlockAllocator.Memory, m: Ram, g: page)
    requires memory.Valid() && 0 < memory.dataBlockCount <= 32768
    ensures (forall r: Ram | SameBut(m, r, g) :: memory.BitsIn(r) == memory.BitsIn(m)) <==> g != memory.dataPage
  {
    hide BlockAllocator.Marked;
    var d: page := memory.dataPage;
    if g == d {
      var r, s := PutEntry(m, d, 0, 0), PutEntry(m, d, 0, 1);
      FirstMark(memory, r);
      FirstMark(memory, s);
      assert SameBut(m, r, g) && SameBut(m, s, g);
    } else {
      forall r: Ram | SameBut(m, r, g) ensures memory.BitsIn(r) == memory.BitsIn(m) {
        MarksStay(memory, m, r);
      }
    }
  }

  lemma FirstMark(memory: BlockAllocator.Memory, m: Ram)
    requires memory.Valid() && 0 < memory.dataBlockCount <= 32768 && Entry(m, memory.dataPage, 0) < 2
    ensures 0 in memory.BitsIn(m) <==> Entry(m, memory.dataPage, 0) == 1
  {
    assert m[memory.dataPage * 1024..][0] == m[memory.dataPage * 1024];
  }

  // ----- stores that do none: the image, the heap and the stacks of live threads

  /** A page of p's image or heap, or of the stack of one of its threads. */
  predicate IsDataPage(p: Process, w: page) {
    IsListPage(p, w) || exists t | 0 <= t < |p.threads| :: IsStackPage(p.threads[t], w)
  }

  predicate IsStackPage(t: Thread, w: page) {
    w + 1 == t.stack || w + 2 == t.stack
  }

  /** The frames they lie on. */
  function DataPages(p: Process): set<page> {
    set w | w in p.vm && IsDataPage(p, w) :: p.vm[w]
  }

  /** They are blocks that p or its threads list, and no page tables. */
  lemma DataIsListed(k: Kernel, tmpl: page, p: Process, w: page)
    requires ProcessOk(k, tmpl, p) && IsDataPage(p, w)
    ensures w in p.vm && p.vm[w] in DataPages(p) && p.vm[w] in PagesOf(p) && p.vm[w] !in k.roles
    ensures p.vm[w] in k.holders && HeldBy(k.holders[p.vm[w]], p.id)
  {
    PagesHeld(k, tmpl, p);
    hide Views, Shared, HeapBacked, Booked, OwnTable;
    if !IsListPage(p, w) {
      var t :| 0 <= t < |p.threads| && IsStackPage(p.threads[t], w);
      StackIsListed(k, p, t, w);
    }
  }

  lemma StackIsListed(k: Kernel, p: Process, t: nat, w: page)
    requires OwnTables(k, p) && Stacked(p) && t < |p.threads| && IsStackPage(p.threads[t], w)
    ensures w in p.vm && p.vm[w] in p.threads[t].used && p.vm[w] !in k.roles
    ensures p.vm[w] in ThreadPages(p.threads)
  {
    hide Frame, Entry, Table;
    var thread := p.threads[t];
    assert StackBacked(p, thread) && OwnTable(k, p, thread);
    var i :| 0 <= i < |thread.used| && thread.used[i] == p.vm[w];
    assert p.threads[t].used[i] in ThreadPages(p.threads);
  }

  /** A frame of data is no page table in use, not kept back, in no other process's lists and not the kernel's own. */
  lemma DataIsHarmless(s: System, tmpl: page, own: set<page>, n: nat, g: page)
    requires SystemOk(s.kernel, tmpl, s.processes) && Accounted(s, own) && n < |s.processes|
    requires g in DataPages(s.processes[n])
    ensures g !in s.kernel.roles && !LiveTable(s.kernel, tmpl, s.processes, g) && !Holds(s.kernel, g, Reserved)
    ensures g !in own && g !in s.left && g in PagesOf(s.processes[n])
    ensures forall m | 0 <= m < |s.processes| && m != n :: g !in PagesOf(s.processes[m])
  {
    hide KernelOk, ProcessOk, IsDataPage, PagesOf, LiveTable;
    var p := s.processes[n];
    var w :| w in p.vm && IsDataPage(p, w) && p.vm[w] == g;
    DataIsListed(s.kernel, tmpl, p, w);
    if LiveTable(s.kernel, tmpl, s.processes, g) { TablesHaveRoles(s.kernel, tmpl, s.processes, g); }
    assert g in NamedPages(s.processes);
    forall m | 0 <= m < |s.processes| && m != n ensures g !in PagesOf(s.processes[m]) {
      assert s.processes[n].id != s.processes[m].id;
      PagesApart(s.kernel, tmpl, p, s.processes[m]);
    }
  }

  /** All bytes from a on, count of them, lie in the given frames. */
  ghost predicate Within(gs: set<page>, a: nat, count: nat) {
    a + count <= TWO32 && forall x: u32 | a <= x < a + count :: Frame(x) in gs
  }

  ghost function Stored(k: Kernel, a: u32, bs: seq<byte>): Kernel
    requires a + |bs| <= TWO32
  {
    k.(m := StoreBytes(k.m, a, bs))
  }

  /** A store into the data of process n keeps the whole system in order. */
  lemma {:induction false} StoreKeepsSystem(
      s: System, tmpl: page, own: set<page>, n: nat, a: u32, bs: seq<byte>)
    requires SystemOk(s.kernel, tmpl, s.processes) && Accounted(s, own) && n < |s.processes|
    requires Within(DataPages(s.processes[n]), a, |bs|)
    ensures SystemOk(Stored(s.kernel, a, bs), tmpl, s.processes)
    ensures Accounted(s.(kernel := Stored(s.kernel, a, bs)), own)
    decreases |bs|
  {
    hide SystemOk, DataPages, PutByte, NamedPages, LiveTable, SameBut, Frame;
    if bs == [] {
      assert Stored(s.kernel, a, bs) == s.kernel;
    } else {
      var i := |bs| - 1;
      StoreKeepsSystem(s, tmpl, own, n, a, bs[..i]);
      var t := s.(kernel := Stored(s.kernel, a, bs[..i]));
      assert Frame(a + i) in DataPages(s.processes[n]);
      DataIsHarmless(t, tmpl, own, n, Frame(a + i));
      PutByteSameBut(t.kernel.m, a + i, bs[i]);
      SystemSpared(t.kernel, tmpl, t.processes, PutByte(t.kernel.m, a + i, bs[i]), Frame(a + i));
    }
  }

  // ----- what a caller can check of a buffer

  /** The buffer's pages are data of p, and lie in consecutive frames. */
  ghost predicate GoodBuffer(p: Process, v: u32, count: nat) {
    && v + count <= TWO32
    && (count > 0 ==> VPage(v) in p.vm && forall w: page | VPage(v) <= w <= VPage(v + count - 1) ::
         IsDataPage(p, w) && w in p.vm && p.vm[w] == p.vm[VPage(v)] + w - VPage(v))
  }

  /** Then the first address, translated, leads to all of the buffer, and to nothing but data of p. */
  lemma GoodBufferLeadsToData(k: Kernel, tmpl: page, p: Process, v: u32, count: nat)
    requires ProcessOk(k, tmpl, p) && GoodBuffer(p, v, count)
    ensures Within(DataPages(p), Translate(k.m, p.dir, v), count) || count == 0
    ensures forall x: u32 | v <= x < v + count :: Translate(k.m, p.dir, x) == Translate(k.m, p.dir, v) + x - v
  {
    hide PageOf, Translate, Entry, UserPage, Booked, OwnTables, Shared, HeapBacked, Stacked, IsDataPage;
    if count > 0 {
      BufferIsContiguous(k.m, p.dir, v, count);
      var a := Translate(k.m, p.dir, v);
      LastByte(k, tmpl, p, v, count);
      forall x: u32 | a <= x < a + count ensures Frame(x) in DataPages(p) {
        var y: u32 := v + (x - a);
        assert Translate(k.m, p.dir, y) == x;
        TranslateByPage(k.m, p.dir, y);
        assert PageOf(k.m, p.dir, VPage(y)) == p.vm[VPage(y)];
      }
    }
  }

  lemma LastByte(k: Kernel, tmpl: page, p: Process, v: u32, count: nat)
    requires ProcessOk(k, tmpl, p) && GoodBuffer(p, v, count) && count > 0
    requires forall x: u32 | v <= x < v + count :: Translate(k.m, p.dir, x) == Translate(k.m, p.dir, v) + x - v
    ensures Translate(k.m, p.dir, v) + count <= TWO32
  {
    hide Translate;
    assert Translate(k.m, p.dir, v + count - 1) == Translate(k.m, p.dir, v) + count - 1;
  }

  /** sys_alloc: n heap pages lead from k and p to k1 and r, and the old end of the heap is stored at address v of p. */
  ghost predicate Answered(
      k: Kernel, tmpl: page, p: Process, n: nat, v: u32, k1: Kernel, l: Kernel, r: Process)
  {
    && GrowSteps(k, tmpl, p, n, k1, r) && Translate(k.m, p.dir, v) + 4 <= TWO32
    && l == Stored(k1, Translate(k.m, p.dir, v), WordBytes(p.heap * 4096))
  }

  /** Where vm leads from address v lies, in four bytes, the address of page g. */
  ghost predicate WordIsAt(m: Ram, vm: map<page, page>, v: u32, g: page) {
    var a: int := Lookup(vm, VPage(v)) * 4096 + Offset(v);
    a + 4 <= TWO32 && forall j | 0 <= j < 4 :: ByteAt(m, a + j) == ByteOf(g * 4096, j)
  }

  lemma WordArrived(m: Ram, vm: map<page, page>, v: u32, a: u32, g: page)
    requires a == Lookup(vm, VPage(v)) * 4096 + Offset(v) && a + 4 <= TWO32
    requires forall x: u32 | a <= x < a + 4 :: ByteAt(m, x) == WordBytes(g * 4096)[x - a]
    ensures WordIsAt(m, vm, v, g)
  {
    hide ByteAt, ByteOf;
    forall j | 0 <= j < 4 ensures ByteAt(m, a + j) == ByteOf(g * 4096, j) {
      assert ByteAt(m, a + j) == WordBytes(g * 4096)[a + j - a];
    }
  }

  // ----- what changes of a process leave of its data

  lemma DataStays(p: Process, r: Process)
    requires forall w | w in p.vm && IsDataPage(p, w) :: w in r.vm && r.vm[w] == p.vm[w] && IsDataPage(r, w)
    ensures DataPages(p) <= DataPages(r)
  {
    hide IsDataPage;
    forall g | g in DataPages(p) ensures g in DataPages(r) {
      var w :| w in p.vm && IsDataPage(p, w) && p.vm[w] == g;
      assert r.vm[w] == g;
    }
  }

  lemma GrowKeepsData(k: Kernel, tmpl: page, p: Process, block: page, table: page)
    requires HEAP_PAGE <= p.heap && p.heap + 1 < 0x10_0000 && BelowStacks(p, p.heap + 1)
    ensures DataPages(p) <= DataPages(Grown(k, tmpl, p, block, table))
  {
    hide DataPages, Shared;
    DataStays(p, Grown(k, tmpl, p, block, table));
  }

  lemma SpawnKeepsData(k: Kernel, tmpl: page, p: Process, stack: page, block: page, table: page)
    requires ProcessOk(k, tmpl, p) && SpawnAsked(k, tmpl, p, stack, block, table)
    ensures DataPages(p) <= DataPages(ThreadProcess(k, tmpl, p, stack, block, table, false))
  {
    hide DataPages, Shared, Table, Built, HeapBacked, DataOnly, IsDataPage;
    var r := ThreadProcess(k, tmpl, p, stack, block, table, false);
    HeapAbove(k, tmpl, p);
    forall w | w in p.vm && IsDataPage(p, w) ensures w in r.vm && r.vm[w] == p.vm[w] && IsDataPage(r, w) {
      DataOffNewStack(p, r, stack, w);
    }
    DataStays(p, r);
  }

  lemma DataOffNewStack(p: Process, r: Process, stack: page, w: page)
    requires Stacked(p) && HEAP_PAGE <= p.heap && IsStack(stack) && p.heap <= stack - 2 && IsDataPage(p, w)
    requires (forall t | 0 <= t < |p.threads| :: p.threads[t].stack != stack) && p.threads <= r.threads
    requires r.heap == p.heap
    ensures w + 1 != stack && w + 2 != stack && IsDataPage(r, w)
  {
    if !IsListPage(p, w) {
      var t :| 0 <= t < |p.threads| && IsStackPage(p.threads[t], w);
      assert StackBacked(p, p.threads[t]);
      OddEven(p.threads[t].stack, stack);
      assert IsStackPage(r.threads[t], w);
    }
  }

  /** When a thread ends all data but its stack stays data. */
  lemma EndThreadKeepsData(p: Process, t: nat)
    requires Stacked(p) && t < |p.threads|
    ensures DataPages(p) - Listed(p.threads[t].used) <= DataPages(WithoutThread(p, t))
  {
    hide IsDataPage, StackBacked;
    var r := WithoutThread(p, t);
    forall g | g in DataPages(p) - Listed(p.threads[t].used) ensures g in DataPages(r) {
      var w :| w in p.vm && IsDataPage(p, w) && p.vm[w] == g;
      DataOffOldStack(p, t, w);
      assert r.vm[w] == g;
    }
  }

  lemma DataOffOldStack(p: Process, t: nat, w: page)
    requires Stacked(p) && t < |p.threads| && IsDataPage(p, w) && w in p.vm && p.vm[w] !in Listed(p.threads[t].used)
    ensures IsDataPage(WithoutThread(p, t), w)
  {
    hide Stacked, StackBacked, Listed, IsStackPage;
    if !IsListPage(p, w) {
      var u :| 0 <= u < |p.threads| && IsStackPage(p.threads[u], w);
      StackIsThreads(p, u, w);
      var r := WithoutThread(p, t);
      assert r.threads[if u < t then u else u - 1] == p.threads[u];
      assert IsStackPage(r.threads[if u < t then u else u - 1], w);
    }
  }

  lemma StackIsThreads(p: Process, t: nat, w: page)
    requires Stacked(p) && t < |p.threads| && IsStackPage(p.threads[t], w)
    ensures w in p.vm && p.vm[w] in Listed(p.threads[t].used)
  {
    assert StackBacked(p, p.threads[t]);
  }

  lemma {:induction false} GrowStepsKeepData(k: Kernel, tmpl: page, p: Process, n: nat, l: Kernel, r: Process)
    requires KernelOk(k, tmpl) && ProcessOk(k, tmpl, p) && GrowSteps(k, tmpl, p, n, l, r)
    ensures KernelOk(l, tmpl) && ProcessOk(l, tmpl, r) && DataPages(p) <= DataPages(r)
    ensures r.threads == p.threads && r.id == p.id && r.dir == p.dir && r.heap as int == p.heap + n
  {
    hide KernelOk, ProcessOk, DataPages, PageKernel, Shared, DirIndex, Extends;
    if n > 0 {
      var l0, r0, block, table :| GrowSteps(k, tmpl, p, n - 1, l0, r0) && GrowStep(l0, tmpl, r0, block, table, l, r);
      GrowStepsKeepData(k, tmpl, p, n - 1, l0, r0);
      GrowMoves(l0, tmpl, r0, block, table);
      ExtendsBooks(l0, l, tmpl, r0.dir);
      HeapAbove(l0, tmpl, r0);
      GrowKeepsData(l0, tmpl, r0, block, table);
    }
  }
}
