/** Which pages a process can touch in user mode: those it mapped itself, and no others. */
module Protection {
  import opened Machine
  import opened Bits
  import opened Pages
  import opened PageRuns
  import Paging

  /** The present bit and the user bit are set, for writing the writable bit too. */
  predicate Allows(e: u32, write: bool) {
    Bit(e, 0) && Bit(e, 2) && (write ==> Bit(e, 1))
  }

  /** Both the directory entry and the table entry let user mode through (section 4.6 of the Intel SDM, volume 3A). */
  predicate Reaches(m: Ram, dir: page, w: page, write: bool) {
    && Allows(Entry(m, dir, DirIndex(w)), write)
    && Allows(Entry(m, Frame(Entry(m, dir, DirIndex(w))), TableIndex(w)), write)
  }

  /** User mode can touch page w. */
  predicate UserPage(m: Ram, dir: page, w: page) { Reaches(m, dir, w, false) }

  /** User mode can write page w. */
  predicate UserWrites(m: Ram, dir: page, w: page) { Reaches(m, dir, w, true) }

  /** No entry of the template lets user mode through. */
  ghost predicate Closed(m: Ram, tmpl: page) {
    forall i: nat | i < 1024 :: ClosedAt(m, tmpl, i)
  }

  ghost predicate ClosedAt(m: Ram, tmpl: page, i: nat)
    requires i < 1024
  {
    && !Allows(Entry(m, tmpl, i), false)
    && forall j: nat | j < 1024 :: !Allows(Entry(m, Frame(Entry(m, tmpl, i)), j), false)
  }

  /** Directory entries that are not the template's let user mode through. */
  ghost predicate Opened(m: Ram, dir: page, tmpl: page, write: bool) {
    forall i: nat | i < 1024 :: Shared(m, dir, tmpl, i) || Allows(Entry(m, dir, i), write)
  }

  /** Of the flags the kernel uses only those of process mappings let user mode through, and to write. */
  lemma KernelFlags()
    ensures (forall write: bool :: Allows(7, write)) && !Allows(3, false) && !Allows(4, false)
  {
    assert Bit(7, 2) == Bit(3, 1) == Bit(1, 0) && Bit(7, 1) == Bit(3, 0);
    assert Bit(4, 0) == false && Bit(3, 2) == Bit(1, 1) == Bit(0, 0);
  }

  lemma OrAllows(e: u32, flags: u32, write: bool)
    requires Allows(flags, write)
    ensures Allows(Or32(e, flags), write)
  {
    OrBit(e, flags, 0);
    OrBit(e, flags, 1);
    OrBit(e, flags, 2);
  }

  lemma WriteIsTouch(e: u32, write: bool)
    requires Allows(e, write)
    ensures Allows(e, false)
  {
  }

  /** The entries a mapping writes let user mode through. */
  lemma MapAllows(
      m: Ram, dir: page, tmpl: page, dirs: set<page>, roles: map<page, Role>, vp: page, p: u32, flags: u32, clone: u32,
      write: bool)
    requires CanMap(m, dir, tmpl, dirs, roles, vp, p, flags, clone) && Allows(flags, write)
    ensures var r, i := Mapped(m, dir, tmpl, vp, p, flags, clone), DirIndex(vp);
      Allows(Entry(r, dir, i), write) && Allows(Entry(r, Frame(Entry(r, dir, i)), TableIndex(vp)), write)
  {
    hide Entry, PutEntry, CopyPage, Frame, Or32, TableIndex, DirIndex, Allows;
    var i := DirIndex(vp);
    OrFlags(clone, flags);
    OrFlags(Entry(m, dir, i), flags);
    OrAllows(clone, flags, write);
    OrAllows(Entry(m, dir, i), flags, write);
    OrAllows(p, flags, write);
  }

  lemma ClosedIsClosed(m: Ram, tmpl: page, i: nat, write: bool)
    requires Closed(m, tmpl) && i < 1024
    ensures !Allows(Entry(m, tmpl, i), write)
    ensures forall j: nat | j < 1024 :: !Allows(Entry(m, Frame(Entry(m, tmpl, i)), j), write)
  {
    hide Entry, Frame;
    assert ClosedAt(m, tmpl, i);
  }

  /** A mapping with the user flags makes exactly its own page one that user mode can touch, or write. */
  lemma MapOpensOnePage(
      m: Ram, dir: page, tmpl: page, dirs: set<page>, roles: map<page, Role>, vp: page, p: u32, flags: u32,
      clone: u32, w: page, write: bool)
    requires CanMap(m, dir, tmpl, dirs, roles, vp, p, flags, clone) && Allows(flags, write)
    requires Closed(m, tmpl) && Opened(m, dir, tmpl, write)
    ensures var r := Mapped(m, dir, tmpl, vp, p, flags, clone);
      && (Reaches(r, dir, w, write) <==> w == vp || Reaches(m, dir, w, write))
      && Opened(r, dir, tmpl, write)
  {
    hide Entry, Frame, Mapped, TableIndex, DirIndex, Allows, Closed;
    var r := Mapped(m, dir, tmpl, vp, p, flags, clone);
    MapTouches(m, dir, tmpl, dirs, roles, vp, p, flags, clone);
    MapAllows(m, dir, tmpl, dirs, roles, vp, p, flags, clone, write);
    MapIsolates(m, dir, tmpl, dirs, roles, vp, p, flags, clone, tmpl);
    MapKeepsWorld(m, dir, tmpl, dirs, roles, vp, p, flags, clone);
    IndexPair(vp, w);
    ClosedIsClosed(m, tmpl, DirIndex(w), write);
  }

  /** What other processes and the template have does not change. */
  lemma MapOpensNoOther(
      m: Ram, dir: page, tmpl: page, dirs: set<page>, roles: map<page, Role>, vp: page, p: u32, flags: u32,
      clone: u32, other: page, write: bool)
    requires CanMap(m, dir, tmpl, dirs, roles, vp, p, flags, clone)
    requires other == tmpl || (other in dirs && other != dir)
    ensures var r := Mapped(m, dir, tmpl, vp, p, flags, clone);
      && (forall w: page :: Reaches(r, other, w, write) == Reaches(m, other, w, write))
      && (Opened(m, other, tmpl, write) ==> Opened(r, other, tmpl, write))
  {
    hide Mapped, CanMap, Reaches, Opened;
    MapSparesTables(m, dir, tmpl, dirs, roles, vp, p, flags, clone, other);
    MapSparesTables(m, dir, tmpl, dirs, roles, vp, p, flags, clone, tmpl);
    TablesDecide(m, Mapped(m, dir, tmpl, vp, p, flags, clone), tmpl, other);
  }

  /** The template stays closed. */
  lemma MapKeepsClosed(
      m: Ram, dir: page, tmpl: page, dirs: set<page>, roles: map<page, Role>, vp: page, p: u32, flags: u32, clone: u32)
    requires CanMap(m, dir, tmpl, dirs, roles, vp, p, flags, clone) && Closed(m, tmpl)
    ensures Closed(Mapped(m, dir, tmpl, vp, p, flags, clone), tmpl)
  {
    hide Mapped, CanMap, Closed;
    MapSparesTables(m, dir, tmpl, dirs, roles, vp, p, flags, clone, tmpl);
    TablesDecide(m, Mapped(m, dir, tmpl, vp, p, flags, clone), tmpl, tmpl);
  }

  // ----- the kernel's own pages

  /** Present and writable, but not for user mode. */
  predicate Supervisor(e: u32) {
    Bit(e, 0) && Bit(e, 1) && !Bit(e, 2)
  }

  /** Both entries of page w are the kernel's. */
  predicate KernelPage(m: Ram, dir: page, w: page) {
    && Supervisor(Entry(m, dir, DirIndex(w)))
    && Supervisor(Entry(m, Frame(Entry(m, dir, DirIndex(w))), TableIndex(w)))
  }

  /** Neither entry of page w is present. */
  predicate Absent(m: Ram, dir: page, w: page) {
    && !Bit(Entry(m, dir, DirIndex(w)), 0)
    && !Bit(Entry(m, Frame(Entry(m, dir, DirIndex(w))), TableIndex(w)), 0)
  }

  /** The first 2048 pages, the kernel's 8 MB. */
  const KERNEL_PAGES: nat := 2048

  /** The template maps the kernel's 8 MB for the kernel, and nothing else is present. */
  ghost predicate KernelOnly(m: Ram, tmpl: page) {
    forall w: page :: if w < KERNEL_PAGES then KernelPage(m, tmpl, w) else Absent(m, tmpl, w)
  }

  /** The kernel has all of memory. */
  ghost predicate KernelHasAll(m: Ram, dir: page) {
    forall w: page :: KernelPage(m, dir, w)
  }

  /** Whatever is decided by the entries of a directory and of its tables stays with them. */
  lemma TablesDecide(m: Ram, r: Ram, tmpl: page, d: page)
    requires SameTables(m, r, d) && SameTables(m, r, tmpl)
    ensures forall w: page :: PageOf(r, d, w) == PageOf(m, d, w)
    ensures forall w: page, write: bool :: Reaches(r, d, w, write) == Reaches(m, d, w, write)
    ensures forall w: page :: KernelPage(r, d, w) == KernelPage(m, d, w) && Absent(r, d, w) == Absent(m, d, w)
    ensures forall i: nat | i < 1024 :: Shared(r, d, tmpl, i) == Shared(m, d, tmpl, i)
    ensures forall write: bool :: Opened(m, d, tmpl, write) ==> Opened(r, d, tmpl, write)
    ensures Closed(m, d) ==> Closed(r, d)
    ensures KernelOnly(m, d) ==> KernelOnly(r, d)
    ensures KernelHasAll(m, d) ==> KernelHasAll(r, d)
  {
    hide Entry, Frame, Allows, Supervisor, DirIndex, TableIndex, Bit;
    forall w: page
      ensures Entry(r, d, DirIndex(w)) == Entry(m, d, DirIndex(w))
      ensures var t := Frame(Entry(m, d, DirIndex(w))); Entry(r, t, TableIndex(w)) == Entry(m, t, TableIndex(w))
    {
      assert SameTable(m, r, d, DirIndex(w));
    }
    forall i: nat | i < 1024
      ensures Shared(r, d, tmpl, i) == Shared(m, d, tmpl, i) && Entry(r, d, i) == Entry(m, d, i)
    {
      assert SameTable(m, r, d, i) && SameTable(m, r, tmpl, i);
    }
    if Closed(m, d) {
      forall i: nat | i < 1024 ensures ClosedAt(r, d, i) {
        assert ClosedAt(m, d, i) && SameTable(m, r, d, i);
      }
    }
  }

  /** A directory that shares the first two entries with the template has the kernel's 8 MB where the template has. */
  lemma SharesKernelPages(m: Ram, tmpl: page, dir: page, w: page)
    requires KernelOnly(m, tmpl) && Shared(m, dir, tmpl, 0) && Shared(m, dir, tmpl, 1) && w < KERNEL_PAGES
    ensures KernelPage(m, dir, w) && PageOf(m, dir, w) == PageOf(m, tmpl, w)
  {
    hide Entry, Frame, Supervisor, TableIndex;
    assert KernelPage(m, tmpl, w);
    assert DirIndex(w) == 0 || DirIndex(w) == 1;
  }

  /**
    The two entries a mapping with the user flags leaves: the address of the frame and that of a new table, or the
    one that was there, with the three low bits and no more.
   */
  lemma MapWrites(
      m: Ram, dir: page, tmpl: page, dirs: set<page>, roles: map<page, Role>, vp: page, frame: page, clone: u32)
    requires CanMap(m, dir, tmpl, dirs, roles, vp, frame * 4096, 7, clone)
    ensures var r := Mapped(m, dir, tmpl, vp, frame * 4096, 7, clone);
      && Entry(r, Frame(Entry(r, dir, DirIndex(vp))), TableIndex(vp)) == frame * 4096 + 7
      && Entry(r, dir, DirIndex(vp)) ==
           if Shared(m, dir, tmpl, DirIndex(vp)) then Frame(clone) * 4096 + 7 else Or32(Entry(m, dir, DirIndex(vp)), 7)
  {
    hide Entry, PutEntry, CopyPage, Frame, Or32, TableIndex, DirIndex;
    MapTouches(m, dir, tmpl, dirs, roles, vp, frame * 4096, 7, clone);
    UserEntry(frame);
    UserEntry(Frame(clone));
    if Shared(m, dir, tmpl, DirIndex(vp)) { AlignedIs(clone); }
    OrFlags(clone, 7);
    OrFlags(Entry(m, dir, DirIndex(vp)), 7);
    assert HasRole(roles, dir, Directory);
  }

  lemma AlignedIs(p: u32)
    requires p % 4096 == 0
    ensures Frame(p) * 4096 == p
  {
  }

  /** Over whole runs the kernel's 8 MB stay where the template has them, in every directory, for the kernel alone. */
  ghost predicate HaveKernel(s: State, tmpl: page) {
    && Ok(s, tmpl) && KernelOnly(s.m, tmpl) && KernelShared(s, tmpl)
    && forall d, w: page | d in s.dirs && w < KERNEL_PAGES ::
         KernelPage(s.m, d, w) && PageOf(s.m, d, w) == PageOf(s.m, tmpl, w)
  }

  lemma SharedHaveKernel(s: State, tmpl: page)
    requires Ok(s, tmpl) && KernelOnly(s.m, tmpl) && KernelShared(s, tmpl)
    ensures HaveKernel(s, tmpl)
  {
    hide Shared, KernelPage, PageOf, KernelOnly, Ok;
    forall d, w: page | d in s.dirs && w < KERNEL_PAGES
      ensures KernelPage(s.m, d, w) && PageOf(s.m, d, w) == PageOf(s.m, tmpl, w)
    {
      SharesKernelPages(s.m, tmpl, d, w);
    }
  }

  lemma StepHasKernel(s: State, tmpl: page, op: Op, t: State)
    requires HaveKernel(s, tmpl) && AboveKernel(op) && Step(s, tmpl, op, t)
    ensures HaveKernel(t, tmpl)
  {
    hide Shared, KernelPage, PageOf, KernelOnly, Ok, SameTables, World, Mapped, Legal, CopyPage;
    KernelStep(s, tmpl, op);
    TemplateStays(s, tmpl, op);
    TablesDecide(s.m, t.m, tmpl, tmpl);
    SharedHaveKernel(t, tmpl);
  }

  lemma TemplateStays(s: State, tmpl: page, op: Op)
    requires Ok(s, tmpl) && Legal(s, tmpl, op)
    ensures SameTables(s.m, After(s, tmpl, op).m, tmpl)
  {
    hide SameTables, World, Mapped, CopyPage, Asked;
    match op
    case Create(d) => CreateSparesTables(s, tmpl, d, tmpl);
    case Map(d, vp, p, flags, clone) => MapSparesTables(s.m, d, tmpl, s.dirs, s.roles, vp, p, flags, clone, tmpl);
  }

  lemma {:induction false} RunHasKernel(trace: seq<State>, tmpl: page, ops: seq<Op>, k: nat)
    requires Runs(trace, tmpl, ops) && k < |trace| && forall op | op in ops :: AboveKernel(op)
    requires HaveKernel(trace[0], tmpl)
    ensures HaveKernel(trace[k], tmpl)
  {
    hide HaveKernel, Step, AboveKernel;
    if k > 0 {
      RunHasKernel(trace, tmpl, ops, k - 1);
      StepHasKernel(trace[k - 1], tmpl, ops[k - 1], trace[k]);
    }
  }

  // ----- whole runs

  ghost predicate Guarded(s: State, tmpl: page, ops: seq<Op>, write: bool) {
    && Ok(s, tmpl) && Closed(s.m, tmpl)
    && forall d | d in s.dirs ::
         Opened(s.m, d, tmpl, write) && forall w: page :: Reaches(s.m, d, w, write) <==> w in Maps(ops, d)
  }

  predicate UserFlags(op: Op, write: bool) {
    op.Map? ==> Allows(op.flags, write)
  }

  lemma CreateGuarded(s: State, tmpl: page, ops: seq<Op>, d: page, write: bool)
    requires Guarded(s, tmpl, ops, write) && Legal(s, tmpl, Create(d))
    ensures Guarded(After(s, tmpl, Create(d)), tmpl, ops + [Create(d)], write)
  {
    hide Entry, Frame, TableIndex, DirIndex, Allows, CopyPage, Maps, Reaches, Closed, Opened;
    CreateStep(s, tmpl, d);
    LastMaps(ops, Create(d));
    CreateClosed(s, tmpl, d, write);
    forall e | e in s.dirs { CreateOpens(s, tmpl, d, e, write); }
  }

  lemma CreateClosed(s: State, tmpl: page, d: page, write: bool)
    requires Ok(s, tmpl) && Closed(s.m, tmpl) && Legal(s, tmpl, Create(d))
    ensures var m := After(s, tmpl, Create(d)).m;
      Closed(m, tmpl) && Opened(m, d, tmpl, write) && forall w: page :: !Reaches(m, d, w, write)
  {
    hide Entry, Frame, TableIndex, DirIndex, Allows, CopyPage, Closed;
    CreateStep(s, tmpl, d);
    CreateSparesTables(s, tmpl, d, tmpl);
    var m := After(s, tmpl, Create(d)).m;
    TablesDecide(s.m, m, tmpl, tmpl);
    forall w: page ensures !Reaches(m, d, w, write) { ClosedIsClosed(m, tmpl, DirIndex(w), write); }
  }

  lemma CreateOpens(s: State, tmpl: page, d: page, e: page, write: bool)
    requires Ok(s, tmpl) && Legal(s, tmpl, Create(d)) && (e == tmpl || e in s.dirs)
    ensures var m := After(s, tmpl, Create(d)).m;
      && (Opened(s.m, e, tmpl, write) ==> Opened(m, e, tmpl, write))
      && forall w: page :: Reaches(m, e, w, write) == Reaches(s.m, e, w, write)
  {
    hide Ok, Legal, After, Opened, Reaches;
    CreateSparesTables(s, tmpl, d, e);
    CreateSparesTables(s, tmpl, d, tmpl);
    TablesDecide(s.m, After(s, tmpl, Create(d)).m, tmpl, e);
  }

  lemma LastMaps(ops: seq<Op>, op: Op)
    ensures forall d :: Maps(ops + [op], d) == match op
      case Create(e) => if e == d then map[] else Maps(ops, d)
      case Map(e, vp, p, _, _) => if e == d then Maps(ops, d)[vp := Frame(p)] else Maps(ops, d)
  {
    assert (ops + [op])[..|ops|] == ops;
  }

  lemma MapGuarded(s: State, tmpl: page, ops: seq<Op>, op: Op, write: bool)
    requires Guarded(s, tmpl, ops, write) && Legal(s, tmpl, op) && op.Map? && UserFlags(op, write)
    ensures Guarded(After(s, tmpl, op), tmpl, ops + [op], write)
  {
    hide Entry, Frame, PageOf, Mapped, World, Asked, Closed, Opened, Reaches, Allows, Maps;
    var d, vp, p, flags, clone := op.dir, op.vp, op.p, op.flags, op.clone;
    LastMaps(ops, op);
    MapKeepsWorld(s.m, d, tmpl, s.dirs, s.roles, vp, p, flags, clone);
    MapKeepsClosed(s.m, d, tmpl, s.dirs, s.roles, vp, p, flags, clone);
    var t := After(s, tmpl, op);
    forall e | e in t.dirs
      ensures Opened(t.m, e, tmpl, write)
      ensures forall w: page :: Reaches(t.m, e, w, write) <==> w in Maps(ops + [op], e)
    {
      if e == d {
        MapOpensOnePage(s.m, d, tmpl, s.dirs, s.roles, vp, p, flags, clone, vp, write);
        forall w: page { MapOpensOnePage(s.m, d, tmpl, s.dirs, s.roles, vp, p, flags, clone, w, write); }
      } else {
        MapOpensNoOther(s.m, d, tmpl, s.dirs, s.roles, vp, p, flags, clone, e, write);
      }
    }
  }

  /**
    Protection over whole runs: from a closed template, user mode can touch exactly the pages its process has
    mapped, and write exactly those when they were mapped to be written, through every sequence of directory
    creations and user mappings.
   */
  lemma {:induction false} RunGuarded(trace: seq<State>, tmpl: page, ops: seq<Op>, write: bool)
    requires Runs(trace, tmpl, ops) && forall op | op in ops :: UserFlags(op, write)
    requires Ok(trace[0], tmpl) && trace[0].dirs == {} && Closed(trace[0].m, tmpl)
    ensures forall k | 0 <= k < |trace| :: Guarded(trace[k], tmpl, ops[..k], write)
  {
    hide Guarded, Step, UserFlags, Ok, Closed;
    FirstGuarded(trace[0], tmpl, write);
    assert ops[..0] == [];
    for n := 0 to |ops|
      invariant forall k | 0 <= k <= n :: Guarded(trace[k], tmpl, ops[..k], write)
    {
      StepGuarded(trace[n], tmpl, ops[..n], ops[n], trace[n + 1], write);
      assert ops[..n + 1] == ops[..n] + [ops[n]];
    }
  }

  lemma FirstGuarded(s: State, tmpl: page, write: bool)
    requires Ok(s, tmpl) && s.dirs == {} && Closed(s.m, tmpl)
    ensures Guarded(s, tmpl, [], write)
  {
  }

  lemma StepGuarded(s: State, tmpl: page, ops: seq<Op>, op: Op, t: State, write: bool)
    requires Guarded(s, tmpl, ops, write) && UserFlags(op, write) && Step(s, tmpl, op, t)
    ensures Guarded(t, tmpl, ops + [op], write)
  {
    hide Guarded, Legal, After, UserFlags;
    if op.Create? { CreateGuarded(s, tmpl, ops, op.dir, write); } else { MapGuarded(s, tmpl, ops, op, write); }
  }

  /** The low bits of an entry for an aligned address are those of its flags. */
  lemma LowBits(x: nat, flags: u32, k: nat)
    requires x * 4096 < TWO32 && k < 3
    ensures Bit(Or32(x * 4096, flags), k) == Bit(flags, k)
  {
    OrBit(x * 4096, flags, k);
    assert x * 4096 % 2 == 0 && x * 4096 / 2 % 2 == 0 && x * 4096 / 2 / 2 % 2 == 0;
    assert Bit(x * 4096, 0) == (x * 4096 % 2 == 1);
    assert Bit(x * 4096, 1) == Bit(x * 4096 / 2, 0);
    assert Bit(x * 4096, 2) == Bit(x * 4096 / 2, 1) == Bit(x * 4096 / 2 / 2, 0);
  }

  lemma FlagBits(x: nat)
    requires x * 4096 < TWO32
    ensures Supervisor(Or32(x * 4096, 3)) && !Bit(Or32(x * 4096, 4), 0)
    ensures !Allows(Or32(x * 4096, 3), false) && !Allows(Or32(x * 4096, 4), false)
  {
    LowBits(x, 3, 0);
    LowBits(x, 3, 1);
    LowBits(x, 3, 2);
    LowBits(x, 4, 0);
    assert Bit(3, 1) == Bit(1, 0) && Bit(3, 2) == Bit(1, 1) == Bit(0, 0) && Bit(3, 0) && !Bit(4, 0);
  }

  /** The two entries of page w in tables filled by the kernel. */
  lemma FilledAt(m: Ram, dir: page, tables: page, low: u32, high: u32, w: page)
    requires Paging.Filled(m, dir, tables, low, high) && low < 4096 && high < 4096
    requires !(tables <= dir < tables + 1024)
    ensures var i := DirIndex(w); var flags := if w < KERNEL_PAGES then low else high;
      && Entry(m, dir, i) == Or32((tables + i) * 4096, flags)
      && Entry(m, Frame(Entry(m, dir, i)), TableIndex(w)) == Or32(w * 4096, flags)
  {
    hide Entry, Or32, Frame;
    var i := DirIndex(w);
    var flags := Paging.Flags(i, low, high);
    EntryFrame(tables + i, flags);
    assert w == i * 1024 + TableIndex(w);
    assert Entry(m, tables + i, TableIndex(w)) == Or32((i * 1024 + TableIndex(w)) * 4096, flags);
  }

  /**
    The kernel's template has exactly the kernel's 8 MB, present and writable but not for users; of the rest
    nothing is present. No entry lets user mode through.
   */
  lemma TemplateIsClosed(m: Ram, dir: page, tables: page)
    requires Paging.Filled(m, dir, tables, 3, 4) && !(tables <= dir < tables + 1024)
    ensures KernelOnly(m, dir) && Closed(m, dir)
  {
    hide Entry, Or32, Allows, Frame, Supervisor, Bit, DirIndex, TableIndex;
    forall w: page ensures if w < KERNEL_PAGES then KernelPage(m, dir, w) else Absent(m, dir, w) {
      FilledAt(m, dir, tables, 3, 4, w);
      FlagBits(tables + DirIndex(w));
      FlagBits(w);
    }
    forall i: nat | i < 1024 ensures ClosedAt(m, dir, i) {
      ClosedFilled(m, dir, tables, i);
    }
  }

  lemma ClosedFilled(m: Ram, dir: page, tables: page, i: nat)
    requires Paging.Filled(m, dir, tables, 3, 4) && !(tables <= dir < tables + 1024) && i < 1024
    ensures ClosedAt(m, dir, i)
  {
    hide Entry, Or32, Allows, Frame, Supervisor, Bit;
    FilledAt(m, dir, tables, 3, 4, i * 1024);
    FlagBits(tables + i);
    forall j: nat | j < 1024 ensures !Allows(Entry(m, Frame(Entry(m, dir, i)), j), false) {
      FilledAt(m, dir, tables, 3, 4, i * 1024 + j);
      FlagBits(i * 1024 + j);
    }
  }

  /** The kernel's own directory has all of memory, present and writable but not for users. */
  lemma IdentityIsKernels(m: Ram, dir: page, tables: page)
    requires Paging.Filled(m, dir, tables, 3, 3) && !(tables <= dir < tables + 1024)
    ensures KernelHasAll(m, dir)
  {
    hide Entry, Or32, Frame, Supervisor, Bit, DirIndex, TableIndex;
    forall w: page ensures KernelPage(m, dir, w) {
      FilledAt(m, dir, tables, 3, 3, w);
      FlagBits(tables + DirIndex(w));
      FlagBits(w);
    }
  }

  lemma EntryFrame(g: page, flags: u32)
    requires flags < 4096
    ensures Frame(Or32(g * 4096, flags)) == g
  {
    hide Or32;
    OrFlags(g * 4096, flags);
  }

  /** An entry for a page with the user flags is its address and the three low bits, and no more. */
  lemma UserEntry(g: page)
    ensures Or32(g * 4096, 7) == g * 4096 + 7 && Or32(g * 4096 + 7, 7) == g * 4096 + 7
  {
    Pow2Values();
    assert Pow2(3) == 8;
    OrLow(g, 0, 7, 12);
    OrLow(g, 7, 7, 12);
    assert Or(0, 7) == 7 by { assert Or(0, 3) == 3 && Or(0, 1) == 1; }
    assert Or(7, 7) == 7 by { assert Or(3, 3) == 3 && Or(1, 1) == 1; }
  }
}
