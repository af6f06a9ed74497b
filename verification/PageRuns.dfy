/** Whole runs of directory creations and mappings over one template. */
module PageRuns {
  import opened Machine
  import opened Pages

  datatype Op = Create(dir: page) | Map(dir: page, vp: page, p: u32, flags: u32, clone: u32)

  datatype State = State(m: Ram, dirs: set<page>, roles: map<page, Role>)

  ghost predicate Ok(s: State, tmpl: page) {
    World(s.m, tmpl, s.dirs, s.roles)
  }

  ghost predicate Legal(s: State, tmpl: page, op: Op) {
    match op
    case Create(d) => d !in s.roles
    case Map(d, vp, p, flags, clone) => Asked(s.m, d, tmpl, s.dirs, s.roles, vp, p, flags, clone)
  }

  ghost function After(s: State, tmpl: page, op: Op): State
    requires Legal(s, tmpl, op)
  {
    match op
    case Create(d) => State(CopyPage(s.m, tmpl, d), s.dirs + {d}, s.roles[d := Directory])
    case Map(d, vp, p, flags, clone) =>
      State(Mapped(s.m, d, tmpl, vp, p, flags, clone), s.dirs, RolesAfter(s.m, d, tmpl, vp, clone, s.roles))
  }

  ghost predicate Runs(trace: seq<State>, tmpl: page, ops: seq<Op>) {
    && |trace| == |ops| + 1
    && forall k | 0 <= k < |ops| :: Step(trace[k], tmpl, ops[k], trace[k + 1])
  }

  ghost predicate Step(s: State, tmpl: page, op: Op, t: State) {
    Legal(s, tmpl, op) && t == After(s, tmpl, op)
  }

  /** A new directory is a copy of the template; nobody else notices. */
  lemma CreateStep(s: State, tmpl: page, d: page)
    requires Ok(s, tmpl) && Legal(s, tmpl, Create(d))
    ensures Ok(After(s, tmpl, Create(d)), tmpl)
    ensures forall g: page, j: nat {:trigger Entry(After(s, tmpl, Create(d)).m, g, j)} | j < 1024 ::
      Entry(After(s, tmpl, Create(d)).m, g, j) == Entry(s.m, if g == d then tmpl else g, j)
    ensures forall o, w: page | o == tmpl || o in s.dirs + {d} ::
      PageOf(After(s, tmpl, Create(d)).m, o, w) == PageOf(s.m, if o == d then tmpl else o, w)
  {
    hide Entry, Frame, CopyPage, TableIndex, DirIndex;
  }

  lemma CreateSparesTables(s: State, tmpl: page, d: page, e: page)
    requires Ok(s, tmpl) && Legal(s, tmpl, Create(d)) && (e == tmpl || e in s.dirs)
    ensures SameTables(s.m, After(s, tmpl, Create(d)).m, e)
  {
    hide Entry, Frame, CopyPage;
    CreateStep(s, tmpl, d);
    var m := After(s, tmpl, Create(d)).m;
    assert HasRole(s.roles, tmpl, TemplateDirectory) && (e != tmpl ==> HasRole(s.roles, e, Directory));
    forall i: nat | i < 1024 ensures SameTable(s.m, m, e, i) {
      assert HasRole(s.roles, Frame(Entry(s.m, tmpl, i)), TemplateTable(i));
      assert Shared(s.m, e, tmpl, i) || HasRole(s.roles, Frame(Entry(s.m, e, i)), PrivateTable(e, i));
    }
  }

  /** The pages a process may give back when it ends: its directory and tables of its own. */
  ghost predicate Releasable(roles: map<page, Role>, d: page, freed: set<page>) {
    forall g | g in freed && g in roles :: g == d || (roles[g].PrivateTable? && roles[g].dir == d)
  }

  /** The page tables of the other processes survive the end of one. */
  lemma DropKeepsWorld(s: State, tmpl: page, d: page, freed: set<page>)
    requires Ok(s, tmpl) && d in s.dirs && Releasable(s.roles, d, freed)
    ensures Ok(State(s.m, s.dirs - {d}, s.roles - freed), tmpl)
  {
    hide Entry, Frame;
    assert HasRole(s.roles, d, Directory);
    assert HasRole(s.roles, tmpl, TemplateDirectory);
    forall e | e in s.dirs - {d} ensures DirectoryOk(s.m, e, tmpl, s.roles - freed) {
      assert DirectoryOk(s.m, e, tmpl, s.roles);
    }
  }

  // ----- what each process sees

  /** The total page map of a process: identity but for its own mappings, the latest first. */
  function Maps(ops: seq<Op>, d: page): map<page, page> {
    if ops == [] then map[]
    else
      var before := Maps(ops[..|ops| - 1], d);
      match ops[|ops| - 1]
      case Create(e) => if e == d then map[] else before
      case Map(e, vp, p, _, _) => if e == d then before[vp := Frame(p)] else before
  }

  function Lookup(pm: map<page, page>, w: page): page {
    if w in pm then pm[w] else w
  }

  ghost predicate Sees(m: Ram, d: page, pm: map<page, page>)
  {
    forall w: page :: PageOf(m, d, w) == Lookup(pm, w)
  }

  ghost predicate AllSee(s: State, tmpl: page, ops: seq<Op>) {
    && Ok(s, tmpl) && Sees(s.m, tmpl, map[])
    && forall d | d in s.dirs :: Sees(s.m, d, Maps(ops, d))
  }

  lemma StepSees(s: State, tmpl: page, ops: seq<Op>, op: Op)
    requires AllSee(s, tmpl, ops) && Legal(s, tmpl, op)
    ensures AllSee(After(s, tmpl, op), tmpl, ops + [op])
  {
    hide Entry, Frame, PageOf, Mapped, World, Asked;
    var t := After(s, tmpl, op);
    assert (ops + [op])[..|ops|] == ops;
    match op
    case Create(d) => CreateStep(s, tmpl, d);
    case Map(d, vp, p, flags, clone) =>
      MapKeepsWorld(s.m, d, tmpl, s.dirs, s.roles, vp, p, flags, clone);
      MapIsolates(s.m, d, tmpl, s.dirs, s.roles, vp, p, flags, clone, tmpl);
      forall e | e in t.dirs ensures Sees(t.m, e, Maps(ops + [op], e)) {
        if e == d {
          forall w: page { MapIsOnePoint(s.m, d, tmpl, s.dirs, s.roles, vp, p, flags, clone, w); }
        } else {
          MapIsolates(s.m, d, tmpl, s.dirs, s.roles, vp, p, flags, clone, e);
        }
      }
  }

  /**
    Copy-on-write over whole runs: from an identity template, every process translates by its own mappings
    alone, and the template stays the identity.
   */
  lemma {:induction false} RunSees(trace: seq<State>, tmpl: page, ops: seq<Op>)
    requires Runs(trace, tmpl, ops)
    requires Ok(trace[0], tmpl) && trace[0].dirs == {} && Sees(trace[0].m, tmpl, map[])
    ensures forall k | 0 <= k < |trace| :: AllSee(trace[k], tmpl, ops[..k])
  {
    assert AllSee(trace[0], tmpl, ops[..0]);
    hide AllSee;
    for n := 0 to |ops|
      invariant forall k | 0 <= k <= n :: AllSee(trace[k], tmpl, ops[..k])
    {
      assert Step(trace[n], tmpl, ops[n], trace[n + 1]);
      StepSees(trace[n], tmpl, ops[..n], ops[n]);
      assert ops[..n + 1] == ops[..n] + [ops[n]];
    }
  }

  // ----- the kernel's 8 MB

  /** The first two directory entries, those of the kernel's 8 MB, are the template's. */
  ghost predicate KernelShared(s: State, tmpl: page) {
    forall d | d in s.dirs :: Shared(s.m, d, tmpl, 0) && Shared(s.m, d, tmpl, 1)
  }

  predicate AboveKernel(op: Op) {
    op.Map? ==> op.vp >= 2048
  }

  /** Mappings at or above 8 MB leave the kernel part of every directory shared with the template. */
  lemma {:induction false} KernelStaysShared(trace: seq<State>, tmpl: page, ops: seq<Op>)
    requires Runs(trace, tmpl, ops) && forall op | op in ops :: AboveKernel(op)
    requires Ok(trace[0], tmpl) && KernelShared(trace[0], tmpl)
    ensures forall k | 0 <= k < |trace| :: KernelShared(trace[k], tmpl)
  {
    for n := 0 to |ops|
      invariant Ok(trace[n], tmpl)
      invariant forall k | 0 <= k <= n :: KernelShared(trace[k], tmpl)
    {
      assert Step(trace[n], tmpl, ops[n], trace[n + 1]);
      KernelStep(trace[n], tmpl, ops[n]);
    }
  }

  lemma KernelStep(s: State, tmpl: page, op: Op)
    requires Ok(s, tmpl) && Legal(s, tmpl, op) && AboveKernel(op) && KernelShared(s, tmpl)
    ensures Ok(After(s, tmpl, op), tmpl) && KernelShared(After(s, tmpl, op), tmpl)
  {
    match op
    case Create(d) =>
      CreateStep(s, tmpl, d);
      hide Entry, Frame, CopyPage;
    case Map(d, vp, p, flags, clone) =>
      MapKeepsWorld(s.m, d, tmpl, s.dirs, s.roles, vp, p, flags, clone);
      MapTouches(s.m, d, tmpl, s.dirs, s.roles, vp, p, flags, clone);
      hide Entry, Frame, Mapped;
  }
}
