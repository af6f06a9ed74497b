/** Round-robin scheduling of processes and their threads, and what holds over every run of the system. */
module Scheduling {
  import Console

  const IDLE := 0

  /** Where a thread starts, and whether it is its process's main thread. */
  datatype Thread = Thread(entry: nat, isMain: bool)

  const USER_ENTRY_ADDRESS := 0x80_0000

  /** A process; program is the first sector of its image, 0 for the idle process. */
  datatype Task = Task(program: nat, threads: seq<Thread>, console: Console.State)
  {
    predicate Blocked() { console.blocked }
  }

  /** current and thread are the kernel's m_process_index and m_thread_index. */
  datatype State = State(processes: seq<Task>, current: nat, thread: nat)

  predicate InRange(s: State) {
    s.current < |s.processes| && s.thread < |s.processes[s.current].threads|
  }

  // ----- choosing what runs next

  /** The first unblocked process at or after i, |ps| when there is none. */
  function FirstUnblocked(ps: seq<Task>, i: nat): (q: nat)
    ensures i <= |ps| ==> i <= q <= |ps|
    ensures forall j :: i <= j < q && j < |ps| ==> ps[j].Blocked()
    ensures q < |ps| ==> !ps[q].Blocked()
    decreases |ps| - i
  {
    if i < |ps| && ps[i].Blocked() then FirstUnblocked(ps, i + 1) else i
  }

  /** The first unblocked process after p, going round. */
  function NextProcess(ps: seq<Task>, p: nat): nat {
    var q := FirstUnblocked(ps, p + 1);
    if q < |ps| then q else FirstUnblocked(ps, 0)
  }

  /** Process q is not blocked, and all that lie strictly between p and q, going round, are. */
  predicate IsNext(ps: seq<Task>, p: nat, q: nat) {
    && q < |ps| && !ps[q].Blocked()
    && forall j | 0 <= j < |ps| && (if p < q then p < j < q else p < j || j < q) :: ps[j].Blocked()
  }

  /** Whether p itself is blocked or not, there is exactly one such process, and it is the one taken. */
  lemma NextIsNearest(ps: seq<Task>, p: nat)
    requires p < |ps| && SomeUnblocked(ps)
    ensures forall q: nat :: IsNext(ps, p, q) <==> q == NextProcess(ps, p)
  {
    SomeIsFound(ps);
    assert IsNext(ps, p, NextProcess(ps, p));
  }

  /**
    From thread t of process p to thread u of process q: the next thread in line of the same process, or else the
    first one of the next process that is not blocked.
   */
  predicate Dispatches(ps: seq<Task>, p: nat, t: nat, q: nat, u: nat)
    requires p < |ps|
  {
    if t + 1 < |ps[p].threads| then q == p && u == t + 1 else IsNext(ps, p, q) && u == 0
  }

  lemma SwitchDispatches(s: State)
    requires s.current < |s.processes| && SomeUnblocked(s.processes)
    ensures var r := Switched(s);
      r.processes == s.processes && Dispatches(s.processes, s.current, s.thread, r.current, r.thread)
  {
    hide NextProcess, SomeUnblocked, IsNext;
    NextIsNearest(s.processes, s.current);
  }

  function Switched(s: State): State
    requires s.current < |s.processes|
  {
    if s.thread + 1 < |s.processes[s.current].threads| then s.(thread := s.thread + 1)
    else s.(current := NextProcess(s.processes, s.current), thread := 0)
  }

  predicate SomeUnblocked(ps: seq<Task>) {
    exists i :: 0 <= i < |ps| && !ps[i].Blocked()
  }

  /** Some process is found whenever one is runnable, and what is dispatched exists. */
  lemma SwitchedInRange(s: State)
    requires s.current < |s.processes| && SomeUnblocked(s.processes)
    requires forall q | q in s.processes :: q.threads != []
    ensures InRange(Switched(s))
    ensures Switched(s).current < |s.processes|
  {
    var i :| 0 <= i < |s.processes| && !s.processes[i].Blocked();
    var q := FirstUnblocked(s.processes, 0);
    assert q <= i;
  }

  /**
    A switch dispatches a blocked process exactly when the current process is blocked and has threads left in
    this round: the state is only looked at when another process is taken.
   */
  lemma DispatchesBlocked(s: State)
    requires s.current < |s.processes| && SomeUnblocked(s.processes)
    requires forall q | q in s.processes :: q.threads != []
    ensures InRange(Switched(s))
    ensures Switched(s).processes[Switched(s).current].Blocked() <==>
            s.thread + 1 < |s.processes[s.current].threads| && s.processes[s.current].Blocked()
  {
    SwitchedInRange(s);
  }

  // ----- the steps of the system

  datatype Event =
    | Tick
    | Exit
    | Fault
    | Read(n: nat)
    | Spawn(entry: nat)
    | Press(process: nat, key: Console.Key)

  function Without<T>(s: seq<T>, i: nat): (r: seq<T>)
    requires i < |s|
    ensures |r| == |s| - 1
    ensures forall j :: 0 <= j < |r| ==> r[j] == s[if j < i then j else j + 1]
  {
    s[..i] + s[i + 1..]
  }

  function Ended(s: State): State
    requires s.current < |s.processes|
  {
    s.(processes := Without(s.processes, s.current))
  }

  function ThreadEnded(s: State): State
    requires InRange(s)
  {
    var p := s.processes[s.current];
    s.(processes := s.processes[s.current := p.(threads := Without(p.threads, s.thread))])
  }

  /** The state that an event leaves to task_switch, or to the process that was interrupted. */
  function Handled(s: State, e: Event): State
    requires InRange(s)
    requires e.Press? ==> e.process < |s.processes|
  {
    var p := s.processes[s.current];
    match e
    case Tick => s
    case Exit => if p.threads[s.thread].isMain then Ended(s) else ThreadEnded(s)
    case Fault => Ended(s)
    case Read(n) => s.(processes := s.processes[s.current := p.(console := Console.AfterRead(p.console, n))])
    case Spawn(entry) => s.(processes := s.processes[s.current := p.(threads := p.threads + [Thread(entry, false)])])
    case Press(i, k) =>
      var q := s.processes[i];
      s.(processes := s.processes[i := q.(console := Console.AfterKey(q.console, k))])
  }

  predicate Switches(e: Event) { !e.Spawn? && !e.Press? }

  /** What the environment does: the idle program only loops, and keys go to a process that exists. */
  predicate Legal(s: State, e: Event) {
    && (InRange(s) && s.processes[s.current].program == IDLE ==> e.Tick? || e.Press?)
    && (e.Press? ==> e.process < |s.processes|)
  }

  /** The first thread of every process is its main thread, and the only one. */
  predicate OneMainThread(p: Task) {
    && p.threads != []
    && forall i :: 0 <= i < |p.threads| ==> (p.threads[i].isMain <==> i == 0)
  }

  /** The indices are in range and the idle process is the last one, not blocked, and the only one of its kind. */
  ghost predicate Ok(s: State) {
    && InRange(s)
    && (forall i :: 0 <= i < |s.processes| ==>
          && OneMainThread(s.processes[i])
          && Console.Ok(s.processes[i].console)
          && (s.processes[i].program == IDLE <==> i == |s.processes| - 1))
    && !s.processes[|s.processes| - 1].Blocked()
  }

  lemma OkUnblocked(s: State)
    requires s.processes != [] && !s.processes[|s.processes| - 1].Blocked()
    ensures SomeUnblocked(s.processes)
  {
    var i := |s.processes| - 1;
    assert !s.processes[i].Blocked();
  }

  /** Before the switch everything but the thread index is already in order. */
  ghost predicate Switchable(s: State) {
    s.current < |s.processes| && Ok(s.(thread := 0))
  }

  lemma HandledOk(s: State, e: Event)
    requires Ok(s) && Legal(s, e)
    ensures Switchable(Handled(s, e))
    ensures !Switches(e) ==> Ok(Handled(s, e))
  {
    hide Console.AfterKey, Console.AfterRead, Console.Ok;
    match e
    case Tick =>
    case Exit =>
    case Fault =>
    case Read(n) => ReadOk(s.processes[s.current].console, n);
    case Spawn(_) =>
    case Press(i, k) => KeyOk(s.processes[i].console, k);
  }

  lemma ReadOk(c: Console.State, n: nat)
    requires Console.Ok(c)
    ensures Console.Ok(Console.AfterRead(c, n))
  {
  }

  /** A key never blocks a process. */
  lemma KeyOk(c: Console.State, k: Console.Key)
    requires Console.Ok(c)
    ensures Console.Ok(Console.AfterKey(c, k))
    ensures Console.AfterKey(c, k).blocked ==> c.blocked
  {
  }

  /** One event; where the code would index outside its lists, the state stays as it is, out of range. */
  function Step(s: State, e: Event): State
    requires Legal(s, e)
  {
    if !InRange(s) then s
    else
      var h := Handled(s, e);
      if Switches(e) && h.current < |h.processes| then Switched(h) else h
  }

  lemma StepOk(s: State, e: Event)
    requires Ok(s) && Legal(s, e)
    ensures Ok(Step(s, e))
  {
    HandledOk(s, e);
    if Switches(e) {
      var h := Handled(s, e);
      OkUnblocked(h);
      SwitchedInRange(h);
    }
  }

  /** create_process, which the kernel's constructor calls for three programs and then for the idle process. */
  function Created(program: nat): Task { Task(program, [Thread(USER_ENTRY_ADDRESS, true)], Console.INITIAL) }

  const BOOT := State([Created(1), Created(9), Created(17), Created(IDLE)], 0, 0)

  ghost predicate Runs(s: State, es: seq<Event>)
    decreases |es|
  {
    es != [] ==> Legal(s, es[0]) && Runs(Step(s, es[0]), es[1..])
  }

  ghost function Run(s: State, es: seq<Event>): State
    requires Runs(s, es)
    decreases |es|
  {
    if es == [] then s else Run(Step(s, es[0]), es[1..])
  }

  /**
    Over every run the indices stay in range, the idle process stays last and runnable, every process keeps its
    main thread in front, and a process is blocked exactly while it waits for input.
   */
  lemma {:induction false} RunOk(s: State, es: seq<Event>)
    requires Ok(s) && Runs(s, es)
    ensures Ok(Run(s, es))
    decreases |es|
  {
    if es != [] {
      StepOk(s, es[0]);
      RunOk(Step(s, es[0]), es[1..]);
    }
  }

  lemma BootOk()
    ensures Ok(BOOT)
  {
    assert forall i :: 0 <= i < 4 ==> OneMainThread(BOOT.processes[i]) && Console.Ok(BOOT.processes[i].console);
  }

  // ----- what each process receives, over a run of the whole system

  type Log = seq<Console.Event>

  /** The reads a process issued and the keys sent to its terminal; a process that ends takes its log along. */
  function Logged(s: State, logs: seq<Log>, e: Event): seq<Log>
    requires InRange(s) && |logs| == |s.processes|
    requires e.Press? ==> e.process < |s.processes|
  {
    match e
    case Tick => logs
    case Exit => if s.processes[s.current].threads[s.thread].isMain then Without(logs, s.current) else logs
    case Fault => Without(logs, s.current)
    case Read(n) => logs[s.current := logs[s.current] + [Console.Read(n)]]
    case Spawn(_) => logs
    case Press(i, k) => logs[i := logs[i] + [Console.Press(k)]]
  }

  ghost predicate Follow(s: State, logs: seq<Log>) {
    && |logs| == |s.processes|
    && forall i :: 0 <= i < |logs| ==> s.processes[i].console == Console.Run(logs[i])
  }

  lemma Extended(log: Log, e: Console.Event)
    ensures Console.Run(log + [e]) == Console.After(Console.Run(log), e)
  {
    assert (log + [e])[..|log + [e]| - 1] == log;
  }

  lemma StepFollow(s: State, logs: seq<Log>, e: Event)
    requires Ok(s) && Legal(s, e) && Follow(s, logs)
    ensures Follow(Step(s, e), Logged(s, logs, e))
  {
    hide Console.AfterKey, Console.AfterRead, Console.Ok, Console.Run;
    match e
    case Tick =>
    case Exit =>
    case Fault =>
    case Read(n) => Extended(logs[s.current], Console.Read(n));
    case Spawn(_) =>
    case Press(i, k) => Extended(logs[i], Console.Press(k));
  }

  ghost function Logs(s: State, logs: seq<Log>, es: seq<Event>): seq<Log>
    requires Ok(s) && Runs(s, es) && |logs| == |s.processes|
    decreases |es|
  {
    if es == [] then logs
    else
      StepOk(s, es[0]);
      Logs(Step(s, es[0]), Logged(s, logs, es[0]), es[1..])
  }

  ghost predicate AllPossible(logs: seq<Log>) {
    forall i :: 0 <= i < |logs| ==> forall e | e in logs[i] && e.Press? :: Console.Possible(e.key)
  }

  lemma StepPossible(s: State, logs: seq<Log>, e: Event)
    requires InRange(s) && |logs| == |s.processes| && AllPossible(logs)
    requires e.Press? ==> e.process < |s.processes| && Console.Possible(e.key)
    ensures AllPossible(Logged(s, logs, e))
  {
  }

  /**
    However processes are switched, blocked, started and ended: what each living process has been given,
    followed by its pending input, is what was submitted on its terminal while it was reading.
   */
  lemma {:induction false} EveryProcessGetsItsInput(s: State, logs: seq<Log>, es: seq<Event>)
    requires Ok(s) && Runs(s, es) && Follow(s, logs) && AllPossible(logs)
    requires forall e | e in es && e.Press? :: Console.Possible(e.key)
    ensures Follow(Run(s, es), Logs(s, logs, es))
    ensures var end, log := Run(s, es), Logs(s, logs, es);
            forall i :: 0 <= i < |end.processes| ==>
              end.processes[i].console.delivered + end.processes[i].console.pending ==
              Console.Typed(Console.Accepted(log[i])).submitted
    decreases |es|
  {
    hide Console.Accepted, Console.Typed, Console.Run, Console.Ok, Logged, Step;
    if es == [] {
      forall i | 0 <= i < |logs|
        ensures s.processes[i].console.delivered + s.processes[i].console.pending ==
                Console.Typed(Console.Accepted(logs[i])).submitted
      {
        Console.NothingLost(logs[i]);
      }
    } else {
      StepOk(s, es[0]);
      StepFollow(s, logs, es[0]);
      StepPossible(s, logs, es[0]);
      EveryProcessGetsItsInput(Step(s, es[0]), Logged(s, logs, es[0]), es[1..]);
    }
  }

  // ----- fairness: lists and states fixed

  /** How many threads the unblocked processes below i have. */
  function Offset(ps: seq<Task>, i: nat): nat
    requires i <= |ps|
  {
    if i == 0 then 0 else Offset(ps, i - 1) + if ps[i - 1].Blocked() then 0 else |ps[i - 1].threads|
  }

  function Round(ps: seq<Task>): nat { Offset(ps, |ps|) }

  lemma {:induction false} OffsetGrows(ps: seq<Task>, i: nat, j: nat)
    requires i <= j <= |ps|
    ensures Offset(ps, i) <= Offset(ps, j)
    ensures (forall k :: i <= k < j ==> ps[k].Blocked()) ==> Offset(ps, i) == Offset(ps, j)
  {
    if i < j { OffsetGrows(ps, i, j - 1); }
  }

  /** The threads that take part in the round: those of unblocked processes. */
  predicate Runnable(s: State) {
    InRange(s) && !s.processes[s.current].Blocked()
  }

  function Position(s: State): nat
    requires InRange(s)
  {
    Offset(s.processes, s.current) + s.thread
  }

  lemma PositionsDiffer(a: State, b: State)
    requires Runnable(a) && Runnable(b) && a.processes == b.processes
    ensures Position(a) < Round(a.processes)
    ensures Position(a) == Position(b) <==> a == b
  {
    var ps := a.processes;
    OffsetGrows(ps, a.current + 1, |ps|);
    if a.current < b.current { OffsetGrows(ps, a.current + 1, b.current); }
    if b.current < a.current { OffsetGrows(ps, b.current + 1, a.current); }
  }

  predicate AllThreaded(ps: seq<Task>) {
    forall q | q in ps :: q.threads != []
  }

  /** A tick moves to the next position of the round, and from the last one to the first. */
  lemma TickMoves(s: State)
    requires Runnable(s) && AllThreaded(s.processes)
    ensures Runnable(Switched(s)) && Switched(s).processes == s.processes
    ensures Position(Switched(s)) == if Position(s) + 1 < Round(s.processes) then Position(s) + 1 else 0
  {
    var ps, p := s.processes, s.current;
    if s.thread + 1 == |ps[p].threads| {
      var q := FirstUnblocked(ps, p + 1);
      OffsetGrows(ps, p + 1, q);
      if q == |ps| { OffsetGrows(ps, 0, FirstUnblocked(ps, 0)); }
    }
    PositionsDiffer(Switched(s), s);
  }

  function Ticks(s: State, n: nat): (r: State)
    requires InRange(s) && AllThreaded(s.processes) && SomeUnblocked(s.processes)
    ensures InRange(r) && r.processes == s.processes
  {
    if n == 0 then s
    else
      var r := Ticks(s, n - 1);
      SwitchedInRange(r);
      Switched(r)
  }

  lemma {:induction false} TicksMove(s: State, n: nat)
    requires Runnable(s) && AllThreaded(s.processes) && n <= Round(s.processes)
    requires SomeUnblocked(s.processes)
    ensures Runnable(Ticks(s, n))
    ensures Position(Ticks(s, n)) ==
            if Position(s) + n < Round(s.processes) then Position(s) + n else Position(s) + n - Round(s.processes)
  {
    PositionsDiffer(s, s);
    if n > 0 {
      TicksMove(s, n - 1);
      TickMoves(Ticks(s, n - 1));
    }
  }

  /** How many ticks it takes from thread a's turn to thread b's. */
  function Distance(a: State, b: State): int
    requires InRange(a) && InRange(b)
  {
    if Position(a) <= Position(b) then Position(b) - Position(a)
    else Position(b) - Position(a) + Round(a.processes)
  }

  /**
    After as many ticks as the unblocked processes have threads it is the same thread's turn again, and in
    between every one of those threads has had its turn exactly once.
   */
  lemma RoundRobin(s: State, other: State)
    requires Runnable(s) && AllThreaded(s.processes) && SomeUnblocked(s.processes)
    requires Runnable(other) && other.processes == s.processes
    ensures Ticks(s, Round(s.processes)) == s
    ensures 0 <= Distance(s, other) < Round(s.processes)
    ensures forall n :: 0 <= n < Round(s.processes) ==> (Ticks(s, n) == other <==> n == Distance(s, other))
  {
    hide Ticks, Position, Switched, Offset;
    var total := Round(s.processes);
    PositionsDiffer(s, other);
    PositionsDiffer(other, s);
    TicksMove(s, total);
    PositionsDiffer(Ticks(s, total), s);
    forall n | 0 <= n < total
      ensures Ticks(s, n) == other <==> n == Distance(s, other)
    {
      TicksMove(s, n);
      PositionsDiffer(Ticks(s, n), other);
    }
  }

  /**
    A blocked current process still runs its remaining threads, one a tick; then comes a process that is not
    blocked.
   */
  lemma {:induction false} BlockedRunsOut(s: State, n: nat)
    requires InRange(s) && s.processes[s.current].Blocked()
    requires AllThreaded(s.processes) && SomeUnblocked(s.processes)
    requires s.thread + n <= |s.processes[s.current].threads|
    ensures s.thread + n < |s.processes[s.current].threads| ==> Ticks(s, n) == s.(thread := s.thread + n)
    ensures s.thread + n == |s.processes[s.current].threads| ==> Runnable(Ticks(s, n))
  {
    if n > 0 {
      BlockedRunsOut(s, n - 1);
      SwitchedInRange(Ticks(s, n - 1));
    }
  }

  /**
    When a process ends, the one behind it takes its index and is not asked whether it is blocked: it runs on
    from the thread after the one that ended, if it has that many.
   */
  lemma SuccessorMayRunBlocked(s: State, e: Event)
    requires Ok(s) && Legal(s, e)
    requires e.Fault? || (e.Exit? && s.processes[s.current].threads[s.thread].isMain)
    ensures s.current + 1 < |s.processes| && Ok(Step(s, e))
    ensures var next, after := s.processes[s.current + 1], Step(s, e);
            after.processes[after.current].Blocked() <==> s.thread + 1 < |next.threads| && next.Blocked()
  {
    StepOk(s, e);
    HandledOk(s, e);
    OkUnblocked(Handled(s, e));
    DispatchesBlocked(Handled(s, e));
  }

  /**
    When a thread ends, all others stay and in order, but the one behind it moves up to the old index and is
    passed over: the switch takes the thread two places behind, or leaves the process.
   */
  lemma ThreadEndSkipsNext(s: State)
    requires Ok(s) && Legal(s, Exit) && !s.processes[s.current].threads[s.thread].isMain
    ensures Ok(Step(s, Exit))
    ensures var a, before := Step(s, Exit), s.processes[s.current].threads; var after := a.processes[s.current].threads;
            && after == before[..s.thread] + before[s.thread + 1..]
            && (forall i :: 0 <= i < |s.processes| && i != s.current ==> a.processes[i] == s.processes[i])
            && (if s.thread + 2 < |before|
                then a.current == s.current && after[a.thread] == before[s.thread + 2]
                else IsNext(a.processes, s.current, a.current) && a.thread == 0)
    ensures s.thread + 1 < |s.processes[s.current].threads| ==>
              !(Step(s, Exit).current == s.current && Step(s, Exit).thread == s.thread)
  {
    hide NextProcess, FirstUnblocked, IsNext, SomeUnblocked, Console.Ok;
    StepOk(s, Exit);
    HandledOk(s, Exit);
    OkUnblocked(Handled(s, Exit));
    NextIsNearest(Handled(s, Exit).processes, s.current);
  }

  // ----- inputs on which a blocked process runs, or a thread is passed over

  lemma RunNext(s: State, e: Event, es: seq<Event>)
    requires Legal(s, e) && Runs(Step(s, e), es)
    ensures Runs(s, [e] + es) && Run(s, [e] + es) == Run(Step(s, e), es)
  {
    assert ([e] + es)[0] == e && ([e] + es)[1..] == es;
  }

  /** The state in which the second process has a second thread and waits for input. */
  function OneWaits(): State {
    var waiting := Task(9, [Thread(USER_ENTRY_ADDRESS, true), Thread(0, false)], Console.State([], [], 5, true, []));
    State([Created(1), waiting, Created(17), Created(IDLE)], 1, 1)
  }

  /** Its main thread starts another and reads: the other one is dispatched though the process is blocked. */
  lemma BlockedProcessRuns()
    ensures Runs(BOOT, [Tick, Spawn(0), Read(5)]) && Run(BOOT, [Tick, Spawn(0), Read(5)]) == OneWaits()
    ensures OneWaits().processes[OneWaits().current].Blocked()
  {
    hide Runs, Run;
    var s1 := BOOT.(current := 1);
    assert Step(BOOT, Tick) == s1;
    var started := Task(9, [Thread(USER_ENTRY_ADDRESS, true), Thread(0, false)], Console.INITIAL);
    var s2 := s1.(processes := s1.processes[1 := started]);
    assert Created(9).threads + [Thread(0, false)] == started.threads;
    assert Step(s1, Spawn(0)) == s2;
    assert Console.AfterRead(Console.INITIAL, 5) == Console.State([], [], 5, true, []);
    assert Step(s2, Read(5)) == OneWaits();
    NoEvents(OneWaits());
    RunNext(s2, Read(5), []);
    RunNext(s1, Spawn(0), [Read(5)] + []);
    RunNext(BOOT, Tick, [Spawn(0)] + ([Read(5)] + []));
    assert [Tick] + ([Spawn(0)] + ([Read(5)] + [])) == [Tick, Spawn(0), Read(5)];
  }

  lemma NoEvents(s: State)
    ensures Runs(s, []) && Run(s, []) == s
  {
  }

  /** From there, after a round, the first process ends: the second takes its place and runs though it is blocked. */
  lemma SuccessorRunsBlocked()
    ensures Runs(OneWaits(), [Tick, Tick, Tick, Exit])
    ensures var e := Run(OneWaits(), [Tick, Tick, Tick, Exit]);
      |e.processes| == 3 && e.current == 0 && e.thread == 1 && e.processes[0].Blocked()
  {
    hide Runs, Run;
    var s := OneWaits();
    var s1, s2, s3 := s.(current := 2, thread := 0), s.(current := 3, thread := 0), s.(current := 0, thread := 0);
    assert FirstUnblocked(s.processes, 2) == 2 && FirstUnblocked(s.processes, 3) == 3;
    assert FirstUnblocked(s.processes, 4) == 4 && FirstUnblocked(s.processes, 0) == 0;
    assert Step(s, Tick) == s1 && Step(s1, Tick) == s2 && Step(s2, Tick) == s3;
    var e := Step(s3, Exit);
    NoEvents(e);
    RunNext(s3, Exit, []);
    RunNext(s2, Tick, [Exit] + []);
    RunNext(s1, Tick, [Tick] + ([Exit] + []));
    RunNext(s, Tick, [Tick] + ([Tick] + ([Exit] + [])));
    assert [Tick] + ([Tick] + ([Tick] + ([Exit] + []))) == [Tick, Tick, Tick, Exit];
  }

  /**
    A process with threads 7 and 8 behind its main one: thread 7 ends in its turn, and thread 8 does not get
    its own.
   */
  lemma ThreadIsPassedOver()
    ensures Runs(BOOT, [Tick, Spawn(7), Spawn(8), Tick, Exit])
    ensures var e := Run(BOOT, [Tick, Spawn(7), Spawn(8), Tick, Exit]);
      e.current == 2 && e.processes[1].threads == [Thread(USER_ENTRY_ADDRESS, true), Thread(8, false)]
  {
    hide Runs, Run;
    var main := Thread(USER_ENTRY_ADDRESS, true);
    var s1 := BOOT.(current := 1);
    assert Step(BOOT, Tick) == s1;
    var s2 := s1.(processes := s1.processes[1 := Task(9, [main, Thread(7, false)], Console.INITIAL)]);
    assert [main] + [Thread(7, false)] == [main, Thread(7, false)];
    assert Step(s1, Spawn(7)) == s2;
    var s3 := s1.(processes := s1.processes[1 := Task(9, [main, Thread(7, false), Thread(8, false)], Console.INITIAL)]);
    assert [main, Thread(7, false)] + [Thread(8, false)] == [main, Thread(7, false), Thread(8, false)];
    assert Step(s2, Spawn(8)) == s3;
    var s4 := s3.(thread := 1);
    assert Step(s3, Tick) == s4;
    var e := Step(s4, Exit);
    assert Without(s4.processes[1].threads, 1) == [main, Thread(8, false)];
    NoEvents(e);
    RunNext(s4, Exit, []);
    RunNext(s3, Tick, [Exit] + []);
    RunNext(s2, Spawn(8), [Tick] + ([Exit] + []));
    RunNext(s1, Spawn(7), [Spawn(8)] + ([Tick] + ([Exit] + [])));
    RunNext(BOOT, Tick, [Spawn(7)] + ([Spawn(8)] + ([Tick] + ([Exit] + []))));
    assert [Tick] + ([Spawn(7)] + ([Spawn(8)] + ([Tick] + ([Exit] + [])))) == [Tick, Spawn(7), Spawn(8), Tick, Exit];
  }

  // ----- the code

  /** After an event's own work task_switch can make the step's switch. */
  lemma Ready(s: State, e: Event)
    requires Ok(s) && Legal(s, e) && Switches(e)
    ensures InRange(s)
    ensures var h := Handled(s, e);
      && h.current < |h.processes| && SomeUnblocked(h.processes)
      && Step(s, e) == Switched(h) && Ok(Step(s, e))
  {
    HandledOk(s, e);
    StepOk(s, e);
    OkUnblocked(Handled(s, e));
  }

  class Scheduler {
    var processes: seq<Task>
    var processIndex: nat
    var threadIndex: nat
    /** Whether a thread is running, rather than the kernel's start. */
    var userland: bool

    ghost function View(): State
      reads this
    {
      State(processes, processIndex, threadIndex)
    }

    constructor ()
      ensures View() == BOOT && Ok(View()) && !userland
      ensures |processes| == 4 && processes[3].program == IDLE
      ensures forall i | 0 <= i < 3 :: processes[i].program == 8 * i + 1
      ensures forall p | p in processes ::
        !p.Blocked() && |p.threads| == 1 && p.threads[0].isMain && p.threads[0].entry == 0x80_0000
    {
      new;
      processes, processIndex, threadIndex, userland := [], 0, 0, false;
      CreateProcess(1);
      CreateProcess(9);
      CreateProcess(17);
      CreateProcess(IDLE);
      BootOk();
    }

    method CreateProcess(program: nat)
      modifies this`processes
      ensures processes == old(processes) + [Created(program)]
    {
      processes := processes + [Created(program)];
    }

    /** Panics when there is no process; goes round the list until one is not blocked. */
    method TaskSwitch() returns (panicked: bool)
      requires processes != [] ==> processIndex < |processes| && SomeUnblocked(processes)
      modifies this`processIndex, this`threadIndex, this`userland
      ensures panicked <==> processes == []
      ensures !panicked ==> View() == Switched(old(View())) && userland
      ensures !panicked ==> Dispatches(processes, old(processIndex), old(threadIndex), processIndex, threadIndex)
    {
      hide NextProcess, SomeUnblocked, IsNext;
      panicked := |processes| == 0;
      if panicked { return; }
      threadIndex := threadIndex + 1;
      if threadIndex >= |processes[processIndex].threads| {
        threadIndex := 0;
        Advance();
      }
      userland := true;
    }

    /** The do-while of task_switch. */
    method Advance()
      requires processIndex < |processes| && SomeUnblocked(processes)
      modifies this`processIndex
      ensures processIndex == NextProcess(processes, old(processIndex))
      ensures IsNext(processes, old(processIndex), processIndex)
    {
      hide SomeUnblocked, IsNext;
      SomeIsFound(processes);
      NextIsNearest(processes, processIndex);
      ghost var wrapped := processIndex + 1 >= |processes|;
      processIndex := if processIndex + 1 >= |processes| then 0 else processIndex + 1;
      while processes[processIndex].Blocked()
        invariant processIndex < |processes|
        invariant FirstUnblocked(processes, processIndex) ==
                  FirstUnblocked(processes, if wrapped then 0 else old(processIndex) + 1)
        invariant wrapped ==> FirstUnblocked(processes, old(processIndex) + 1) == |processes|
        decreases !wrapped, |processes| - processIndex
      {
        processIndex := processIndex + 1;
        if processIndex >= |processes| {
          processIndex, wrapped := 0, true;
        }
      }
    }

    method TimerHandler() returns (panicked: bool)
      requires Ok(View())
      modifies this
      ensures !panicked && View() == Step(old(View()), Tick) && Ok(View())
      ensures processes == old(processes) && userland
      ensures Dispatches(processes, old(processIndex), old(threadIndex), processIndex, threadIndex)
    {
      hide Ok, Step, Switched, Dispatches;
      ghost var s := View();
      Ready(s, Tick);
      panicked := TaskSwitch();
    }

    method TerminateProcess(i: nat)
      requires i < |processes|
      modifies this`processes
      ensures processes == Without(old(processes), i)
    {
      processes := processes[..i] + processes[i + 1..];
    }

    /** A page fault of a thread ends its process; one of the kernel itself is a panic. */
    method PageFaultHandler() returns (panicked: bool)
      requires Ok(View()) && (userland ==> Legal(View(), Fault))
      modifies this
      ensures panicked <==> !old(userland)
      ensures View() == (if panicked then old(View()) else Step(old(View()), Fault)) && Ok(View())
      ensures !panicked ==>
        && processes == Without(old(processes), old(processIndex)) && old(processIndex) < |processes|
        && Dispatches(processes, old(processIndex), old(threadIndex), processIndex, threadIndex)
    {
      hide Ok, Step, Switched, Dispatches;
      if !userland { return true; }
      ghost var s := View();
      Ready(s, Fault);
      TerminateProcess(processIndex);
      panicked := TaskSwitch();
    }

    /** The main thread takes its process along; any other thread leaves the other threads and processes as they are. */
    method SysExit() returns (panicked: bool)
      requires Ok(View()) && Legal(View(), Exit)
      modifies this
      ensures !panicked && View() == Step(old(View()), Exit) && Ok(View())
      ensures var p := old(processes[processIndex]);
        processes == if p.threads[old(threadIndex)].isMain then Without(old(processes), old(processIndex))
                     else old(processes)[old(processIndex) := p.(threads := Without(p.threads, old(threadIndex)))]
      ensures old(processIndex) < |processes|
      ensures Dispatches(processes, old(processIndex), old(threadIndex), processIndex, threadIndex)
    {
      hide Ok, Step, Switched, Dispatches;
      ghost var s := View();
      Ready(s, Exit);
      var proc := processes[processIndex];
      if proc.threads[threadIndex].isMain {
        TerminateProcess(processIndex);
      } else {
        processes := processes[processIndex := proc.(threads := Without(proc.threads, threadIndex))];
      }
      panicked := TaskSwitch();
    }

    method SysRead(count: nat) returns (panicked: bool)
      requires Ok(View()) && Legal(View(), Read(count))
      modifies this
      ensures !panicked && View() == Step(old(View()), Read(count)) && Ok(View())
      ensures var p := old(processes[processIndex]);
        processes == old(processes)[old(processIndex) := p.(console := Console.AfterRead(p.console, count))]
      ensures Dispatches(processes, old(processIndex), old(threadIndex), processIndex, threadIndex)
    {
      hide Ok, Step, Switched, Dispatches;
      ghost var s := View();
      Ready(s, Read(count));
      var proc := processes[processIndex];
      processes := processes[processIndex := proc.(console := Console.AfterRead(proc.console, count))];
      panicked := TaskSwitch();
    }

    method SysThread(entry: nat)
      requires Ok(View()) && Legal(View(), Spawn(entry))
      modifies this
      ensures View() == Step(old(View()), Spawn(entry)) && Ok(View())
      ensures processIndex == old(processIndex) && threadIndex == old(threadIndex)
      ensures var p := old(processes[processIndex]);
        processes == old(processes)[processIndex := p.(threads := p.threads + [Thread(entry, false)])]
    {
      StepOk(View(), Spawn(entry));
      var proc := processes[processIndex];
      processes := processes[processIndex := proc.(threads := proc.threads + [Thread(entry, false)])];
    }

    /** A key goes to the process i whose terminal is the active one, once there is one. */
    method KeyboardHandler(i: nat, k: Console.Key)
      requires Ok(View()) && (userland ==> Legal(View(), Press(i, k)))
      modifies this`processes
      ensures View() == (if userland then Step(old(View()), Press(i, k)) else old(View())) && Ok(View())
      ensures |processes| == |old(processes)|
      ensures forall j | 0 <= j < |processes| && j != i :: processes[j] == old(processes)[j]
      ensures userland ==>
        var p := old(processes)[i];
        processes[i] == p.(console := Console.AfterKey(p.console, k))
    {
      if userland {
        StepOk(View(), Press(i, k));
        processes := processes[i := processes[i].(console := Console.AfterKey(processes[i].console, k))];
      }
    }
  }

  lemma SomeIsFound(ps: seq<Task>)
    requires SomeUnblocked(ps)
    ensures FirstUnblocked(ps, 0) < |ps|
  {
    var i :| 0 <= i < |ps| && !ps[i].Blocked();
    assert FirstUnblocked(ps, 0) <= i;
  }
}
