/** The path of a key from the keyboard to the buffer of a process that reads. */
module Console {
  import opened Machine
  import Buffers
  import Terminals

  const NEWLINE: byte := Terminals.NEWLINE
  const KEY_BACKSPACE: byte := 0x0E
  const KEY_ENTER: byte := 0x1C

  /** A key event: ch is what to_char gives for the scancode and the shift state, 0 for none. */
  datatype Key = Key(scancode: byte, up: bool, ch: byte)

  /** to_char has no character for Enter and Backspace. */
  predicate Possible(k: Key) {
    k.scancode == KEY_BACKSPACE || k.scancode == KEY_ENTER ==> k.ch == 0
  }

  /**
    line is the terminal's input buffer, pending the process's; count bytes of the current read are still
    wanted; delivered is everything the process has been given so far.
   */
  datatype State = State(line: seq<byte>, pending: seq<byte>, count: nat, blocked: bool, delivered: seq<byte>)

  const INITIAL := State([], [], 0, false, [])

  function Min(a: nat, b: nat): nat { if a < b then a else b }

  /** flush_input_buffer */
  function Flushed(s: State): State {
    var n := Min(|s.pending|, s.count);
    State(s.line, s.pending[n..], s.count - n, s.blocked && s.count != n, s.delivered + s.pending[..n])
  }

  /** sys_read, up to the task switch */
  function AfterRead(s: State, n: nat): State {
    Flushed(s.(count := n, blocked := true))
  }

  /** keyboard_event */
  function AfterKey(s: State, k: Key): State {
    if s.count == 0 || k.up then s
    else
      var t :=
        if k.scancode == KEY_BACKSPACE then
          if s.line != [] then s.(line := s.line[..|s.line| - 1]) else s
        else if k.scancode == KEY_ENTER then
          Flushed(s.(line := [], pending := s.pending + s.line + [NEWLINE]))
        else s;
      if k.ch != 0 then t.(line := t.line + [k.ch]) else t
  }

  datatype Event = Read(n: nat) | Press(key: Key)

  function After(s: State, e: Event): State {
    match e
    case Read(n) => AfterRead(s, n)
    case Press(k) => AfterKey(s, k)
  }

  function Run(es: seq<Event>): State {
    if es == [] then INITIAL else After(Run(es[..|es| - 1]), es[|es| - 1])
  }

  // ----- what a user sees: a line editor

  /** The keys pressed while the process was waiting; the terminal ignores all others. */
  function Accepted(es: seq<Event>): seq<Key> {
    if es == [] then []
    else
      var before, e := es[..|es| - 1], es[|es| - 1];
      Accepted(before) + if e.Press? && !e.key.up && Run(before).count > 0 then [e.key] else []
  }

  datatype Text = Text(submitted: seq<byte>, line: seq<byte>)

  /** Enter submits the line with a newline, Backspace takes its last character away. */
  function Edited(t: Text, k: Key): Text {
    if k.scancode == KEY_ENTER then Text(t.submitted + t.line + [NEWLINE], [])
    else if k.scancode == KEY_BACKSPACE then
      Text(t.submitted, if t.line == [] then [] else t.line[..|t.line| - 1])
    else Text(t.submitted, if k.ch == 0 then t.line else t.line + [k.ch])
  }

  function Typed(ks: seq<Key>): Text {
    if ks == [] then Text([], []) else Edited(Typed(ks[..|ks| - 1]), ks[|ks| - 1])
  }

  /** Blocked exactly while bytes are wanted, and then nothing lies in the buffer: no wakeup is lost. */
  ghost predicate Ok(s: State) {
    && (s.blocked <==> s.count > 0)
    && (s.count > 0 ==> s.pending == [])
  }

  lemma StepOk(s: State, e: Event)
    requires Ok(s)
    ensures Ok(After(s, e))
  {
  }

  /** Received and pending bytes are the submitted ones, and the unfinished lines agree. */
  ghost predicate Same(s: State, t: Text) {
    s.delivered + s.pending == t.submitted && s.line == t.line
  }

  lemma StepSame(s: State, t: Text, e: Event)
    requires Ok(s) && Same(s, t)
    requires e.Press? ==> Possible(e.key)
    ensures Ok(After(s, e))
    ensures Same(After(s, e), if e.Press? && !e.key.up && s.count > 0 then Edited(t, e.key) else t)
  {
    hide Flushed;
    StepOk(s, e);
    match e
    case Read(n) => FlushKeeps(s.(count := n, blocked := true));
    case Press(k) =>
      FlushKeeps(s.(line := [], pending := s.pending + s.line + [NEWLINE]));
      assert s.delivered + (s.pending + s.line + [NEWLINE]) == s.delivered + s.pending + s.line + [NEWLINE];
  }

  /**
    Over any interleaving of reads and key events, what was delivered followed by what is pending is what was
    submitted: every line in order, nothing lost, nothing twice.
   */
  lemma {:induction false} NothingLost(es: seq<Event>)
    requires forall e | e in es && e.Press? :: Possible(e.key)
    ensures Ok(Run(es))
    ensures Run(es).delivered + Run(es).pending == Typed(Accepted(es)).submitted
    ensures Run(es).line == Typed(Accepted(es)).line
  {
    hide After, Edited, Ok;
    InitialOk();
    if es != [] {
      var before, e := es[..|es| - 1], es[|es| - 1];
      NothingLost(before);
      StepSame(Run(before), Typed(Accepted(before)), e);
      if e.Press? && !e.key.up && Run(before).count > 0 {
        assert Accepted(es) == Accepted(before) + [e.key];
        assert Accepted(es)[..|Accepted(es)| - 1] == Accepted(before);
      } else {
        assert Accepted(es) == Accepted(before);
      }
    }
  }

  lemma InitialOk()
    ensures Ok(INITIAL)
  {
  }

  /** A flush moves bytes from the buffer to the process without losing or reordering any. */
  lemma FlushKeeps(s: State)
    ensures Flushed(s).delivered + Flushed(s).pending == s.delivered + s.pending
    ensures |Flushed(s).delivered| + Flushed(s).count == |s.delivered| + s.count
    ensures Flushed(s).line == s.line
  {
    var n := Min(|s.pending|, s.count);
    assert s.pending == s.pending[..n] + s.pending[n..];
  }

  /** The bytes an event hands to the process, to be stored where its read buffer points. */
  function Delivered(s: State, e: Event): seq<byte> {
    match e
    case Read(n) => s.pending[..Min(|s.pending|, n)]
    case Press(k) =>
      if s.count > 0 && !k.up && k.scancode == KEY_ENTER then
        var all := s.pending + s.line + [NEWLINE];
        all[..Min(|all|, s.count)]
      else []
  }

  lemma DeliveredNext(s: State, e: Event)
    ensures After(s, e).delivered == s.delivered + Delivered(s, e)
    ensures After(s, e).count + |Delivered(s, e)| == if e.Read? then e.n else s.count
  {
  }

  // ----- how much is delivered

  function Requested(es: seq<Event>): nat {
    if es == [] then 0
    else Requested(es[..|es| - 1]) + if es[|es| - 1].Read? then es[|es| - 1].n else 0
  }

  /** What was still wanted when another thread of the process issued the next read. */
  function Overwritten(es: seq<Event>): nat {
    if es == [] then 0
    else Overwritten(es[..|es| - 1]) + if es[|es| - 1].Read? then Run(es[..|es| - 1]).count else 0
  }

  /** Each read found the process with no other read waiting. */
  predicate OneReadAtATime(es: seq<Event>) {
    es == [] ||
    var before := es[..|es| - 1];
    OneReadAtATime(before) && (es[|es| - 1].Read? ==> Run(before).count == 0)
  }

  /**
    Every byte asked for is delivered or still wanted, except what a second read overwrote: the books
    balance exactly when no read was issued while another was waiting.
   */
  lemma {:induction false} DeliveredCount(es: seq<Event>)
    ensures |Run(es).delivered| + Run(es).count + Overwritten(es) == Requested(es)
    ensures |Run(es).delivered| + Run(es).count == Requested(es) <==> OneReadAtATime(es)
  {
    if es != [] {
      var before, e := es[..|es| - 1], es[|es| - 1];
      DeliveredCount(before);
      var s := Run(before);
      match e
      case Read(n) => FlushKeeps(s.(count := n, blocked := true));
      case Press(k) => FlushKeeps(s.(line := [], pending := s.pending + s.line + [NEWLINE]));
    }
  }

  /** Two threads of one process read 5 bytes each: the first five are never delivered. */
  lemma SecondReadOverwrites()
    ensures Requested([Read(5), Read(5)]) == 10
    ensures Run([Read(5), Read(5)]).count == 5 && Overwritten([Read(5), Read(5)]) == 5
  {
    assert [Read(5), Read(5)][..1] == [Read(5)];
    assert [Read(5)][..0] == [];
    assert Run([Read(5)]) == AfterRead(INITIAL, 5);
  }

  // ----- the echo

  /** The key is a Backspace that takes a character off the screen. */
  predicate Erases(s: State, k: Key) {
    s.count > 0 && !k.up && k.scancode == KEY_BACKSPACE && s.line != []
  }

  /** What a key event does to the page of the terminal; a character can be erased only where one is shown. */
  function Echoed(page: Terminals.Page, s: State, k: Key): Terminals.Page
    requires Erases(s, k) ==> page.CanErase()
  {
    if s.count == 0 || k.up then page
    else
      var t :=
        if k.scancode == KEY_BACKSPACE then
          if s.line != [] then page.Erased() else page
        else if k.scancode == KEY_ENTER then page.Typed(NEWLINE)
        else page;
      if k.ch != 0 then t.Typed(k.ch) else t
  }

  /** The terminal ignores released keys, and all keys while nobody reads. */
  predicate Ignores(s: State, k: Key) { s.count == 0 || k.up }

  /** The page moves to position to, with ch in cell at and every other cell as it was. */
  ghost predicate OneCellMoves(page: Terminals.Page, after: Terminals.Page, at: nat, ch: byte, to: nat) {
    && after.pos == to && after.depth == (if page.depth < to / 80 then to / 80 else page.depth)
    && forall c: nat :: after.Cell(c) == if c == at then ch else page.Cell(c)
  }

  /** What the user sees a key do: from page to after. */
  ghost predicate KeySeen(page: Terminals.Page, s: State, k: Key, after: Terminals.Page) {
    if Ignores(s, k) then
      after == page
    else if k.scancode == KEY_ENTER then
      OneCellMoves(page, after, page.pos, page.Cell(page.pos), 80 * (page.pos / 80 + 1))
    else if k.scancode == KEY_BACKSPACE && s.line != [] then
      && after.pos + 1 == page.pos && after.depth == page.depth
      && forall c: nat :: after.Cell(c) == if c == after.pos then Terminals.BLANK else page.Cell(c)
    else if k.ch != 0 then
      OneCellMoves(page, after, page.pos, k.ch, page.pos + 1)
    else
      after == page
  }

  /**
    Enter leaves every cell and goes to the start of the next row; a Backspace blanks the last cell, but does
    nothing when the line is empty; a letter changes the one cell it is typed into; a released key, a key without
    a character and a key nobody waits for do nothing.
   */
  lemma KeyIsSeen(page: Terminals.Page, s: State, k: Key)
    requires Possible(k) && k.ch != NEWLINE && (Erases(s, k) ==> page.CanErase())
    ensures KeySeen(page, s, k, Echoed(page, s, k))
  {
  }

  /** The page after the events, or None when a Backspace met the upper left corner and the code left the screen. */
  function Echo(page: Terminals.Page, es: seq<Event>): Option<Terminals.Page> {
    if es == [] then Some(page)
    else EchoedNext(Echo(page, es[..|es| - 1]), Run(es[..|es| - 1]), es[|es| - 1])
  }

  function EchoedNext(page: Option<Terminals.Page>, s: State, e: Event): Option<Terminals.Page> {
    match page
    case None => None
    case Some(q) =>
      match e
      case Read(_) => page
      case Press(k) => if Erases(s, k) && !q.CanErase() then None else Some(Echoed(q, s, k))
  }

  lemma EchoEnd(page: Terminals.Page, es: seq<Event>, e: Event)
    ensures Run(es + [e]) == After(Run(es), e)
    ensures Echo(page, es + [e]) == EchoedNext(Echo(page, es), Run(es), e)
  {
    assert (es + [e])[..|es + [e]| - 1] == es;
  }

  /** The unfinished line stands right before the cursor. */
  ghost predicate LineShown(page: Terminals.Page, line: seq<byte>) {
    |line| <= page.pos && forall k :: 0 <= k < |line| ==> page.Cell(page.pos - |line| + k) == line[k]
  }

  /**
    As long as nothing else writes to the terminal and no Backspace has met the corner, the user sees the line
    that Enter will submit.
   */
  lemma {:induction false} UserSeesLine(page: Terminals.Page, es: seq<Event>)
    requires forall e | e in es && e.Press? :: Possible(e.key) && e.key.ch != NEWLINE
    ensures Echo(page, es).Some? ==> LineShown(Echo(page, es).value, Run(es).line)
  {
    hide Terminals.Page.MovedTo, Echoed, LineShown, After;
    if es == [] {
      NothingShown(page);
    } else {
      var before, e := es[..|es| - 1], es[|es| - 1];
      UserSeesLine(page, before);
      if Echo(page, before).Some? {
        var q, s := Echo(page, before).value, Run(before);
        if e.Read? {
          ReadKeepsLine(s, e.n);
        } else if Erases(s, e.key) ==> q.CanErase() {
          EchoStep(q, s, e.key);
        }
      }
    }
  }

  lemma NothingShown(page: Terminals.Page)
    ensures LineShown(page, INITIAL.line)
  {
  }

  lemma ReadKeepsLine(s: State, n: nat)
    ensures After(s, Read(n)).line == s.line
  {
  }

  lemma EchoStep(page: Terminals.Page, s: State, k: Key)
    requires LineShown(page, s.line) && Possible(k) && k.ch != NEWLINE && (Erases(s, k) ==> page.CanErase())
    ensures LineShown(Echoed(page, s, k), After(s, Press(k)).line)
  {
  }

  // ----- when a line can be typed and taken back

  function Letter(ch: byte): Event { Press(Key(0x1E, false, ch)) }

  const BACKSPACE_KEY := Press(Key(KEY_BACKSPACE, false, 0))

  /** A read is waiting; the line is typed. */
  function Typing(line: seq<byte>): seq<Event> {
    if line == [] then [Read(1)] else Typing(line[..|line| - 1]) + [Letter(line[|line| - 1])]
  }

  /** Then Backspace is pressed n times. */
  function TakingBack(line: seq<byte>, n: nat): seq<Event> {
    if n == 0 then Typing(line) else TakingBack(line, n - 1) + [BACKSPACE_KEY]
  }

  /** The state of a process that waits for one byte while its line is being typed. */
  function Waiting(line: seq<byte>): State { State(line, [], 1, true, []) }

  lemma LetterStep(page: Terminals.Page, line: seq<byte>, ch: byte)
    requires ch != 0
    ensures After(Waiting(line), Letter(ch)) == Waiting(line + [ch])
    ensures EchoedNext(Some(page), Waiting(line), Letter(ch)) == Some(page.Typed(ch))
  {
    hide Terminals.Page.Typed;
  }

  lemma BackspaceStep(page: Terminals.Page, line: seq<byte>)
    requires line != []
    ensures After(Waiting(line), BACKSPACE_KEY) == Waiting(line[..|line| - 1])
    ensures EchoedNext(Some(page), Waiting(line), BACKSPACE_KEY) ==
            if page.CanErase() then Some(page.Erased()) else None
  {
    hide Terminals.Page.Typed;
  }

  lemma FirstRead(page: Terminals.Page)
    ensures Run([Read(1)]) == Waiting([]) && Echo(page, [Read(1)]) == Some(page)
  {
    EchoEnd(page, [], Read(1));
    assert [] + [Read(1)] == [Read(1)];
  }

  lemma {:induction false} TypingShows(page: Terminals.Page, line: seq<byte>)
    requires 0 !in line
    ensures Run(Typing(line)) == Waiting(line)
    ensures Echo(page, Typing(line)) == Some(page.Written(line))
  {
    hide After, EchoedNext, Run, Echo, Terminals.Page.Typed, Letter, Waiting;
    if line == [] {
      FirstRead(page);
    } else {
      var before, ch := line[..|line| - 1], line[|line| - 1];
      TypingShows(page, before);
      EchoEnd(page, Typing(before), Letter(ch));
      assert ch in line && before + [ch] == line;
      LetterStep(page.Written(before), before, ch);
      Terminals.WrittenEnd(page, before, ch);
    }
  }

  lemma {:induction false} TakingBackShows(page: Terminals.Page, line: seq<byte>, n: nat)
    requires 0 !in line && n <= |line| && |line| <= page.Written(line).pos
    ensures Run(TakingBack(line, n)) == Waiting(line[..|line| - n])
    ensures Echo(page, TakingBack(line, n)) ==
            if Terminals.CanEraseMany(page.Written(line), n) then Some(Terminals.ErasedMany(page.Written(line), n))
            else None
  {
    hide After, EchoedNext, Run, Echo, Waiting, Typing, Terminals.CanEraseMany, Terminals.ErasedMany;
    hide Terminals.Page.CanErase, Terminals.Page.Written, Terminals.Page.Erased;
    var full := page.Written(line);
    if n == 0 {
      TypingShows(page, line);
      assert line[..|line| - n] == line;
      NothingErased(full);
    } else {
      TakingBackShows(page, line, n - 1);
      EchoEnd(page, TakingBack(line, n - 1), BACKSPACE_KEY);
      var left := line[..|line| - (n - 1)];
      assert left[..|left| - 1] == line[..|line| - n];
      BackspaceStep(Terminals.ErasedMany(full, n - 1), left);
      Terminals.EraseEnd(full, n - 1);
      OnceLost(Run(TakingBack(line, n - 1)), BACKSPACE_KEY);
    }
  }

  lemma NothingErased(page: Terminals.Page)
    ensures Terminals.CanEraseMany(page, 0) && Terminals.ErasedMany(page, 0) == page
  {
  }

  lemma OnceLost(s: State, e: Event)
    ensures EchoedNext(None, s, e) == None
  {
  }

  /**
    A line typed from a visible position can be taken back with the keyboard if and only if it ends no more than
    23 rows below the row it began in.
   */
  lemma KeysTakeLineBack(page: Terminals.Page, line: seq<byte>)
    requires page.Ok() && page.pos >= 80 * page.Top() && NEWLINE !in line && 0 !in line
    ensures Echo(page, TakingBack(line, |line|)).Some? <==> (page.pos + |line|) / 80 <= page.pos / 80 + 23
  {
    Terminals.LineAdvances(page, line);
    TakingBackShows(page, line, |line|);
    Terminals.TypedLineCanBeErased(page, line);
  }

  /** On a new terminal a line of 1920 characters fills the screen; taken back, it leaves it. */
  lemma FullScreenIsLost()
    ensures Echo(Terminals.NEW_PAGE, TakingBack(seq(1920, _ => 97), 1920)).None?
    ensures Echo(Terminals.NEW_PAGE, TakingBack(seq(1919, _ => 97), 1919)).Some?
  {
    hide Echo, TakingBack;
    KeysTakeLineBack(Terminals.NEW_PAGE, seq(1920, _ => 97));
    KeysTakeLineBack(Terminals.NEW_PAGE, seq(1919, _ => 97));
  }

  // ----- the code

  /** The fields of process and terminal that take part, and the memory the process reads into. */
  class Channel {
    var lineBuffer: seq<byte>
    var inputBuffer: seq<byte>
    var sysReadBuffer: nat
    var sysReadCount: nat
    var blocked: bool
    const ram: array<byte>
    const terminal: Terminals.Terminal
    ghost var delivered: seq<byte>

    ghost function View(): State
      reads this
    {
      State(lineBuffer, inputBuffer, sysReadCount, blocked, delivered)
    }

    /** The read buffer has room for what is still wanted. */
    ghost predicate Valid()
      reads this
    {
      sysReadBuffer + sysReadCount <= ram.Length
    }

    constructor (ram: array<byte>, terminal: Terminals.Terminal)
      ensures Valid() && View() == INITIAL && this.ram == ram && this.terminal == terminal
    {
      this.ram, this.terminal := ram, terminal;
      lineBuffer, inputBuffer := [], [];
      sysReadBuffer, sysReadCount, blocked := 0, 0, false;
      delivered := [];
    }

    /** The bytes land one after the other where the read buffer points, and nowhere else. */
    method FlushInputBuffer()
      requires Valid()
      modifies this`inputBuffer, this`sysReadBuffer, this`sysReadCount, this`blocked, this`delivered, ram
      ensures Valid() && View() == Flushed(old(View()))
      ensures sysReadBuffer == old(sysReadBuffer) + |delivered| - |old(delivered)|
      ensures old(delivered) <= delivered
      ensures ram[..] == old(ram[..sysReadBuffer]) + delivered[|old(delivered)|..] + old(ram[..])[sysReadBuffer..]
    {
      ghost var n := 0;
      ghost var was := inputBuffer;
      ghost var m := ram[..];
      while |inputBuffer| > 0 && sysReadCount > 0
        invariant Valid() && n <= |was| && n <= old(sysReadCount) && n <= Min(|was|, old(sysReadCount))
        invariant inputBuffer == was[n..] && sysReadCount == old(sysReadCount) - n &&
            sysReadBuffer == old(sysReadBuffer) + n
        invariant delivered == old(delivered) + was[..n] && blocked == old(blocked)
        invariant ram[..] == m[..old(sysReadBuffer)] + was[..n] + m[sysReadBuffer..]
        decreases |inputBuffer|
      {
        // *m_sys_read_buffer = m_input_buffer.peek_char()
        ram[sysReadBuffer] := inputBuffer[0];
        delivered := delivered + [inputBuffer[0]];
        inputBuffer := inputBuffer[1..];
        sysReadBuffer := sysReadBuffer + 1;
        sysReadCount := sysReadCount - 1;
        n := n + 1;
        assert was[..n] == was[..n - 1] + [was[n - 1]];
      }
      if sysReadCount == 0 { blocked := false; }
      assert n == Min(|was|, old(sysReadCount));
    }

    /** sys_read, up to the task switch; buffer is the physical address of the caller's buffer. */
    method SysRead(buffer: nat, count: nat)
      requires buffer + count <= ram.Length
      modifies this`inputBuffer, this`sysReadBuffer, this`sysReadCount, this`blocked, this`delivered, ram
      ensures Valid() && View() == AfterRead(old(View()), count)
      ensures old(delivered) <= delivered && sysReadBuffer == buffer + |delivered| - |old(delivered)|
      ensures ram[..] == old(ram[..buffer]) + delivered[|old(delivered)|..] + old(ram[..])[sysReadBuffer..]
    {
      hide Flushed;
      sysReadBuffer := buffer;
      sysReadCount := count;
      blocked := true;
      assert View() == old(View()).(count := count, blocked := true);
      FlushInputBuffer();
    }

    /** The memory a process reads into is not the terminal's. */
    ghost predicate Apart()
      reads this
    {
      ram != terminal.text && ram != terminal.colors && ram != terminal.screen.video
    }

    /** keyboard_event; a character that is taken back has to be on the screen still. */
    method KeyboardEvent(k: Key)
      requires Valid() && Apart() && terminal.Valid()
      requires Erases(View(), k) ==> terminal.page.CanErase()
      modifies this`lineBuffer, this`inputBuffer, this`sysReadBuffer, this`sysReadCount, this`blocked,
          this`delivered, ram
      modifies terminal`cursorX, terminal`cursorY, terminal`page
      modifies terminal.text, terminal.colors, terminal.screen, terminal.screen.video
      ensures Valid() && View() == AfterKey(old(View()), k)
      ensures terminal.Valid() && terminal.page == Echoed(old(terminal.page), old(View()), k)
      ensures Possible(k) && k.ch != NEWLINE ==> KeySeen(old(terminal.page), old(View()), k, terminal.page)
      ensures Ignores(old(View()), k) ==> View() == old(View()) && terminal.text[..] == old(terminal.text[..])
      ensures sysReadBuffer == old(sysReadBuffer) + |delivered| - |old(delivered)|
      ensures old(delivered) <= delivered
      ensures ram[..] == old(ram[..sysReadBuffer]) + delivered[|old(delivered)|..] + old(ram[..])[sysReadBuffer..]
    {
      hide Flushed, Terminals.Shows, Terminals.Mirrors, KeySeen;
      if Possible(k) && k.ch != NEWLINE { KeyIsSeen(terminal.page, View(), k); }
      if sysReadCount == 0 { return; }
      if !k.up {
        if k.scancode == KEY_BACKSPACE {
          if |lineBuffer| > 0 {
            lineBuffer := lineBuffer[..|lineBuffer| - 1];
            terminal.Backspace();
          }
        } else if k.scancode == KEY_ENTER {
          Print(NEWLINE);
          Submit();
        }
        if k.ch != 0 {
          lineBuffer := lineBuffer + [k.ch];
          Print(k.ch);
        }
      }
    }

    /** write for a string of one character */
    method Print(ch: byte)
      requires terminal.Valid() && Apart() && ch != 0
      modifies terminal`cursorX, terminal`cursorY, terminal`page
      modifies terminal.text, terminal.colors, terminal.screen, terminal.screen.video
      ensures terminal.Valid() && terminal.page == old(terminal.page).Typed(ch)
    {
      terminal.Write([ch, 0]);
      assert Buffers.CString([ch, 0]) == [ch];
    }

    /** Enter moves the line to the process's buffer, character by character, and adds a newline. */
    method Submit()
      requires Valid()
      modifies this`lineBuffer, this`inputBuffer, this`sysReadBuffer, this`sysReadCount, this`blocked,
          this`delivered, ram
      ensures Valid()
      ensures View() == Flushed(old(View()).(line := [], pending := old(inputBuffer) + old(lineBuffer) + [NEWLINE]))
      ensures sysReadBuffer == old(sysReadBuffer) + |delivered| - |old(delivered)|
      ensures old(delivered) <= delivered
      ensures ram[..] == old(ram[..sysReadBuffer]) + delivered[|old(delivered)|..] + old(ram[..])[sysReadBuffer..]
    {
      hide Flushed;
      ghost var line := lineBuffer;
      while |lineBuffer| > 0
        invariant inputBuffer + lineBuffer == old(inputBuffer) + line
        invariant sysReadCount == old(sysReadCount) && sysReadBuffer == old(sysReadBuffer) && blocked == old(blocked)
        invariant delivered == old(delivered) && ram[..] == old(ram[..])
        decreases |lineBuffer|
      {
        inputBuffer := inputBuffer + [lineBuffer[0]];
        lineBuffer := lineBuffer[1..];
      }
      inputBuffer := inputBuffer + [NEWLINE];
      assert inputBuffer == old(inputBuffer) + line + [NEWLINE];
      assert View() == old(View()).(line := [], pending := inputBuffer);
      FlushInputBuffer();
    }
  }
}
