/** The scrolling terminal, its mirror in video memory, and the unbounded page it shows a window of. */
module Terminals {
  import opened Machine
  import opened Buffers
  import Digits

  const BLANK: byte := 32
  const NEWLINE: byte := 10
  const WHITE_ON_BLACK: byte := 0x0f

  // ----- an unbounded page, 80 columns wide, that never scrolls

  /** The cells written, numbered row by row; the next one to write; the lowest row reached so far. */
  datatype Page = Page(cells: map<nat, byte>, pos: nat, depth: nat)
  {
    function Cell(k: nat): byte { if k in cells then cells[k] else BLANK }

    /** The window shows the lowest row reached and the 23 above it. */
    function Top(): nat { if depth < 24 then 0 else depth - 23 }

    function MovedTo(p: nat): Page {
      Page(cells, p, if depth < p / 80 then p / 80 else depth)
    }

    function Typed(ch: byte): Page {
      if ch == NEWLINE then MovedTo(80 * (pos / 80 + 1))
      else Page(cells[pos := ch], pos, depth).MovedTo(pos + 1)
    }

    function Written(s: seq<byte>): Page
      decreases |s|
    {
      if s == [] then this else Typed(s[0]).Written(s[1..])
    }

    /** Can be taken back: the cell before the next one to write is in the window. */
    predicate CanErase() { pos > 80 * Top() }

    function Erased(): Page
      requires pos > 0
    {
      Page(cells[pos - 1 := BLANK], pos - 1, depth)
    }

    function Cleared(): Page { Page(map[], pos, depth) }

    /** Nothing is written below the lowest row reached. */
    ghost predicate Ok() {
      && pos < 80 * (depth + 1)
      && forall k :: k in cells ==> k < 80 * (depth + 1)
    }
  }

  const NEW_PAGE := Page(map[], 0, 0)

  /** The 25 rows of text and the cursor are the window of the page; the last row is never used. */
  ghost predicate Shows(page: Page, text: seq<byte>, x: int, y: int) {
    && page.Ok()
    && |text| == 2000
    && 0 <= x < 80 && 0 <= y <= 23
    && page.pos == 80 * (page.Top() + y) + x
    && (forall k :: 0 <= k < 1920 ==> text[k] == page.Cell(80 * page.Top() + k))
    && forall k :: 1920 <= k < 2000 ==> text[k] == BLANK
  }

  lemma Bounds(page: Page, text: seq<byte>, x: int, y: int)
    requires Shows(page, text, x, y)
    ensures 0 <= x < 80 && 0 <= y <= 23 && |text| == 2000
  {
  }

  /** Taking the last character back is exactly what is impossible with the cursor in the upper left corner. */
  lemma CornerStopsBackspace(page: Page, text: seq<byte>, x: int, y: int)
    requires Shows(page, text, x, y)
    ensures page.CanErase() <==> (x, y) != (0, 0)
  {
  }

  // ----- one character on the screen: write_char_at, the cursor, and perhaps a scroll

  /** Where the cursor goes before scrolling. */
  function Column(x: nat, ch: byte): nat { if ch == NEWLINE || x == 79 then 0 else x + 1 }
  function Row(x: nat, y: nat, ch: byte): nat { if ch == NEWLINE || x == 79 then y + 1 else y }

  lemma TypedShows(page: Page, text: seq<byte>, x: nat, y: nat, ch: byte)
    requires Shows(page, text, x, y) && Row(x, y, ch) < 24
    ensures Shows(page.Typed(ch), if ch == NEWLINE then text else text[80 * y + x := ch], Column(x, ch), Row(x, y, ch))
  {
    TypedMoves(page, text, x, y, ch);
    TypedCells(page, ch);
    hide Page.Typed, Page.MovedTo, Page.Cell, Column, Row;
    var t, after := if ch == NEWLINE then text else text[80 * y + x := ch], page.Typed(ch);
    forall k | 0 <= k < 1920 ensures t[k] == after.Cell(80 * after.Top() + k) {
      assert text[k] == page.Cell(80 * page.Top() + k);
    }
  }

  /** Only the cell written differs. */
  lemma TypedCells(page: Page, ch: byte)
    ensures forall k: nat :: page.Typed(ch).Cell(k) == if ch != NEWLINE && k == page.pos then ch else page.Cell(k)
  {
  }

  lemma TypedMoves(page: Page, text: seq<byte>, x: nat, y: nat, ch: byte)
    requires Shows(page, text, x, y) && Row(x, y, ch) < 24
    ensures var after := page.Typed(ch);
      && after.Ok() && after.Top() == page.Top()
      && 0 <= Column(x, ch) < 80 && after.pos == 80 * (after.Top() + Row(x, y, ch)) + Column(x, ch)
  {
  }

  function Scrolled(s: seq<byte>): (r: seq<byte>)
    requires |s| == 2000
    ensures |r| == 2000
  {
    s[80..] + s[1920..]
  }

  lemma ScrolledShows(page: Page, text: seq<byte>, x: nat, y: nat, ch: byte)
    requires Shows(page, text, x, y) && Row(x, y, ch) == 24
    ensures Shows(page.Typed(ch), Scrolled(if ch == NEWLINE then text else text[80 * y + x := ch]), 0, 23)
  {
    var t := if ch == NEWLINE then text else text[80 * y + x := ch];
    var after := page.Typed(ch);
    assert after.Top() == page.Top() + 1;
    forall k | 0 <= k < 1920
      ensures Scrolled(t)[k] == after.Cell(80 * after.Top() + k)
    {
      assert Scrolled(t)[k] == t[k + 80];
    }
  }

  lemma ErasedShows(page: Page, text: seq<byte>, x: nat, y: nat)
    requires Shows(page, text, x, y) && (x, y) != (0, 0)
    ensures x == 0 ==> Shows(page.Erased(), text[80 * (y - 1) + 79 := BLANK], 79, y - 1)
    ensures x > 0 ==> Shows(page.Erased(), text[80 * y + x - 1 := BLANK], x - 1, y)
  {
  }

  // ----- a line that is typed and taken back

  /** n characters can be taken back one after the other. */
  predicate CanEraseMany(page: Page, n: nat)
    decreases n
  {
    n == 0 || (page.CanErase() && CanEraseMany(page.Erased(), n - 1))
  }

  lemma {:induction false} EraseWithinWindow(page: Page, n: nat)
    requires page.pos >= 80 * page.Top()
    ensures CanEraseMany(page, n) <==> page.pos - n >= 80 * page.Top()
    decreases n
  {
    if n > 0 && page.CanErase() { EraseWithinWindow(page.Erased(), n - 1); }
  }

  lemma {:induction false} LineAdvances(page: Page, line: seq<byte>)
    requires NEWLINE !in line && page.Ok()
    ensures var after := page.Written(line);
            && after.Ok()
            && after.pos == page.pos + |line|
            && after.depth == if page.depth < after.pos / 80 then after.pos / 80 else page.depth
    decreases |line|
  {
    if line != [] {
      assert line[0] in line;
      LineAdvances(page.Typed(line[0]), line[1..]);
    }
  }

  /**
    A line typed from a visible position can be taken back to its start exactly when the start has not
    scrolled out of the window, which its length decides.
   */
  lemma TypedLineCanBeErased(page: Page, line: seq<byte>)
    requires page.Ok() && page.pos >= 80 * page.Top() && NEWLINE !in line
    ensures CanEraseMany(page.Written(line), |line|) <==> (page.pos + |line|) / 80 <= page.pos / 80 + 23
  {
    LineAdvances(page, line);
    EraseWithinWindow(page.Written(line), |line|);
  }

  function ErasedMany(page: Page, n: nat): Page
    requires n <= page.pos
    decreases n
  {
    if n == 0 then page else ErasedMany(page.Erased(), n - 1)
  }

  lemma {:induction false} WrittenEnd(page: Page, s: seq<byte>, ch: byte)
    ensures page.Written(s + [ch]) == page.Written(s).Typed(ch)
    decreases |s|
  {
    hide Page.Typed;
    if s == [] {
      assert [] + [ch] == [ch] && [ch][1..] == [];
    } else {
      assert (s + [ch])[0] == s[0] && (s + [ch])[1..] == s[1..] + [ch];
      WrittenEnd(page.Typed(s[0]), s[1..], ch);
    }
  }

  lemma {:induction false} EraseEnd(page: Page, n: nat)
    requires n < page.pos
    ensures CanEraseMany(page, n + 1) <==> CanEraseMany(page, n) && ErasedMany(page, n).CanErase()
    ensures ErasedMany(page, n).pos == page.pos - n
    ensures ErasedMany(page, n + 1) == ErasedMany(page, n).Erased()
    decreases n
  {
    if n > 0 { EraseEnd(page.Erased(), n - 1); }
  }

  lemma {:induction false} ErasedCells(page: Page, n: nat)
    requires n <= page.pos
    ensures var after := ErasedMany(page, n);
            && after.pos == page.pos - n
            && forall k: nat :: after.Cell(k) == if page.pos - n <= k < page.pos then BLANK else page.Cell(k)
    decreases n
  {
    if n > 0 { ErasedCells(page.Erased(), n - 1); }
  }

  lemma {:induction false} LineCells(page: Page, line: seq<byte>)
    requires NEWLINE !in line
    ensures var after := page.Written(line);
            && after.pos == page.pos + |line|
            && forall k: nat :: after.Cell(k) ==
                 if page.pos <= k < page.pos + |line| then line[k - page.pos] else page.Cell(k)
    decreases |line|
  {
    if line != [] {
      assert line[0] in line;
      LineCells(page.Typed(line[0]), line[1..]);
    }
  }

  /** A line typed and taken back leaves blanks where it stood and the cursor where it began. */
  lemma TypedAndErased(page: Page, line: seq<byte>)
    requires NEWLINE !in line
    ensures page.Written(line).pos >= |line|
    ensures var after := ErasedMany(page.Written(line), |line|);
            && after.pos == page.pos
            && forall k: nat :: after.Cell(k) ==
                 if page.pos <= k < page.pos + |line| then BLANK else page.Cell(k)
  {
    LineCells(page, line);
    ErasedCells(page.Written(line), |line|);
  }

  // ----- the code

  /** Text-mode video memory, a character and a colour for each cell, and the cursor registers. */
  class Screen {
    const video: array<byte>
    var cursorHigh: byte
    var cursorLow: byte

    constructor (video: array<byte>)
      ensures this.video == video
    {
      this.video := video;
    }

    ghost function Cursor(): int
      reads this
    {
      256 * cursorHigh + cursorLow
    }

    method SetCharAt(x: nat, y: nat, ch: byte)
      requires video.Length == 4000
      modifies video
      ensures video[..] == if y < 25 && x < 80 then old(video[..])[2 * (y * 80 + x) := ch] else old(video[..])
    {
      if y < 25 && x < 80 { video[2 * (y * 80 + x)] := ch; }
    }

    method SetColorAt(x: nat, y: nat, color: byte)
      requires video.Length == 4000
      modifies video
      ensures video[..] == if y < 25 && x < 80 then old(video[..])[2 * (y * 80 + x) + 1 := color] else old(video[..])
    {
      if y < 25 && x < 80 { video[2 * (y * 80 + x) + 1] := color; }
    }

    /** Two port writes, the high byte of the offset and its low byte. */
    method SetCursorAt(x: nat, y: nat)
      requires y * 80 + x < 0x1_0000
      modifies this
      ensures Cursor() == y * 80 + x
    {
      var offset := y * 80 + x;
      cursorHigh := offset / 256 % 256;
      cursorLow := offset % 256;
    }
  }

  /** Video memory holds the text and the colors, and the cursor stands at (x, y). */
  ghost predicate Mirrors(video: seq<byte>, text: seq<byte>, colors: seq<byte>) {
    && |video| == 4000 && |text| == |colors| == 2000
    && forall k :: 0 <= k < 2000 ==> video[2 * k] == text[k] && video[2 * k + 1] == colors[k]
  }

  lemma MirrorsCell(video: seq<byte>, text: seq<byte>, colors: seq<byte>, k: nat, ch: byte)
    requires Mirrors(video, text, colors) && k < 2000
    ensures Mirrors(video[2 * k := ch], text[k := ch], colors)
  {
  }

  class Terminal {
    const screen: Screen
    const text: array<byte>
    const colors: array<byte>
    var active: bool
    var cursorX: nat
    var cursorY: nat
    ghost var page: Page

    ghost predicate Valid()
      reads this, text, colors, screen, screen.video
    {
      && text != colors && text != screen.video && colors != screen.video
      && Shows(page, text[..], cursorX, cursorY)
      && screen.video.Length == 4000 && colors.Length == 2000
      && (forall k :: 0 <= k < 2000 ==> colors[k] == WHITE_ON_BLACK)
      && (active ==> Shown())
    }

    /** The hardware shows this terminal. */
    ghost predicate Shown()
      reads this, text, colors, screen, screen.video
    {
      Mirrors(screen.video[..], text[..], colors[..]) && screen.Cursor() == 80 * cursorY + cursorX
    }

    constructor (screen: Screen)
      requires screen.video.Length == 4000
      ensures Valid() && fresh(text) && fresh(colors) && this.screen == screen
      ensures !active && page == NEW_PAGE
    {
      this.screen := screen;
      active := false;
      text, colors := new byte[2000], new byte[2000];
      cursorX, cursorY := 0, 0;
      page := NEW_PAGE;
      new;
      MemorySet(text, 0, BLANK, 2000);
      MemorySet(colors, 0, WHITE_ON_BLACK, 2000);
    }

    method Refresh()
      requires text.Length == colors.Length == 2000 && screen.video.Length == 4000
      requires text != screen.video && colors != screen.video
      requires cursorX < 80 && cursorY < 25
      modifies screen, screen.video
      ensures active ==> Shown()
      ensures !active ==> screen.video[..] == old(screen.video[..]) && screen.Cursor() == old(screen.Cursor())
    {
      if active {
        for i := 0 to 25
          invariant forall k | 0 <= k < 80 * i ::
            screen.video[2 * k] == text[k] && screen.video[2 * k + 1] == colors[k]
        {
          for j := 0 to 80
            invariant forall k | 0 <= k < 80 * i + j ::
              screen.video[2 * k] == text[k] && screen.video[2 * k + 1] == colors[k]
          {
            screen.SetCharAt(j, i, text[i * 80 + j]);
            screen.SetColorAt(j, i, colors[i * 80 + j]);
          }
        }
        screen.SetCursorAt(cursorX, cursorY);
      }
    }

    /** The character goes to (x, y) in the text and to the cursor on the screen; the callers pass the cursor. */
    method WriteCharAt(x: nat, y: nat, ch: byte)
      requires text.Length == 2000 && screen.video.Length == 4000 && text != screen.video
      requires x < 80 && y < 25
      modifies text, screen.video
      ensures text[..] == old(text[..])[y * 80 + x := ch]
      ensures screen.video[..] == if active && cursorY < 25 && cursorX < 80
                                  then old(screen.video[..])[2 * (cursorY * 80 + cursorX) := ch]
                                  else old(screen.video[..])
    {
      text[y * 80 + x] := ch;
      if active { screen.SetCharAt(cursorX, cursorY, ch); }
    }

    /** The part of write that moves rows 1 to 24 up by one. */
    method Scroll()
      requires text.Length == colors.Length == 2000 && screen.video.Length == 4000
      requires text != colors && text != screen.video && colors != screen.video
      requires cursorX < 80 && cursorY == 24
      requires forall k :: 0 <= k < 2000 ==> colors[k] == WHITE_ON_BLACK
      modifies this`cursorY, text, colors, screen, screen.video
      ensures text[..] == Scrolled(old(text[..])) && cursorY == 23
      ensures forall k :: 0 <= k < 2000 ==> colors[k] == WHITE_ON_BLACK
      ensures active ==> Shown()
      ensures !active ==> screen.video[..] == old(screen.video[..]) && screen.Cursor() == old(screen.Cursor())
    {
      MemoryCopy(text, 80, text, 0, 80 * 24);
      MemoryCopy(colors, 80, colors, 0, 80 * 24);
      assert text[..] == Scrolled(old(text[..]));
      cursorY := cursorY - 1;
      Refresh();
    }

    /** One round of the loop in write. */
    method WriteChar(ch: byte)
      requires Valid()
      modifies this`cursorX, this`cursorY, this`page, text, colors, screen, screen.video
      ensures Valid() && page == old(page).Typed(ch)
      ensures if ch == NEWLINE || old(cursorX) == 79 then cursorX == 0 else cursorX == old(cursorX) + 1
      ensures cursorY == if ch != NEWLINE && old(cursorX) != 79 then old(cursorY)
                         else if old(cursorY) == 23 then 23 else old(cursorY) + 1
      ensures !active ==> screen.video[..] == old(screen.video[..]) && screen.Cursor() == old(screen.Cursor())
    {
      hide Shows, Mirrors, Scrolled, Page.Typed;
      ghost var x, y, was := cursorX, cursorY, text[..];
      Bounds(page, was, x, y);
      if active { MirrorsCell(screen.video[..], was, colors[..], y * 80 + x, ch); }
      if ch == NEWLINE {
        cursorY := cursorY + 1;
        cursorX := 0;
      } else {
        WriteCharAt(cursorX, cursorY, ch);
        cursorX := cursorX + 1;
        if cursorX == 80 {
          cursorX := 0;
          cursorY := cursorY + 1;
        }
      }
      if cursorY == 24 {
        ScrolledShows(page, was, x, y, ch);
        Scroll();
      } else {
        TypedShows(page, was, x, y, ch);
      }
      if active { screen.SetCursorAt(cursorX, cursorY); }
      page := page.Typed(ch);
    }

    /** write: the characters of s up to its terminator */
    method Write(s: seq<byte>)
      requires Valid() && 0 in s
      modifies this`cursorX, this`cursorY, this`page, text, colors, screen, screen.video
      ensures Valid() && page == old(page).Written(CString(s))
      ensures !active ==> screen.video[..] == old(screen.video[..]) && screen.Cursor() == old(screen.Cursor())
    {
      ghost var all := CString(s);
      var i := 0;
      while s[i] != 0
        invariant i <= |all| && Valid()
        invariant page.Written(all[i..]) == old(page).Written(all)
        invariant !active ==> screen.video[..] == old(screen.video[..]) && screen.Cursor() == old(screen.Cursor())
        decreases |s| - i
      {
        WriteChar(s[i]);
        i := i + 1;
      }
    }

    /** write for numbers, which takes them as signed */
    method WriteInteger(n: u32)
      requires Valid()
      modifies this`cursorX, this`cursorY, this`page, text, colors, screen, screen.video
      ensures Valid()
      ensures page == old(page).Written(Digits.Printed(if n < 0x8000_0000 then n else n - 0x1_0000_0000))
    {
      var buff := new byte[16];
      Digits.IntToAscii(if n < 0x8000_0000 then n else n - 0x1_0000_0000, buff);
      Write(buff[..]);
    }

    /** Blanks the text; the cursor stays where it is. */
    method Clear()
      requires Valid()
      modifies this`page, text, colors, screen, screen.video
      ensures Valid() && page == old(page).Cleared()
      ensures forall k | 0 <= k < 2000 :: text[k] == BLANK
      ensures page.pos == old(page.pos) && forall k: nat :: page.Cell(k) == BLANK
      ensures !active ==> screen.video[..] == old(screen.video[..]) && screen.Cursor() == old(screen.Cursor())
    {
      MemorySet(text, 0, BLANK, 2000);
      MemorySet(colors, 0, WHITE_ON_BLACK, 2000);
      if active { Refresh(); }
      page := page.Cleared();
    }

    method SetActive()
      requires Valid()
      modifies this`active, screen, screen.video
      ensures Valid() && active && Shown()
    {
      active := true;
      Refresh();
    }

    method SetInactive()
      requires Valid()
      modifies this`active
      ensures Valid() && !active
    {
      active := false;
    }

    /** The hardware cursor moves even when the terminal is not active. */
    method Backspace()
      requires Valid() && page.CanErase()
      modifies this`cursorX, this`cursorY, this`page, text, screen, screen.video
      ensures Valid() && page == old(page).Erased()
      ensures screen.Cursor() == 80 * cursorY + cursorX
      ensures !active ==> screen.video[..] == old(screen.video[..])
    {
      hide Shows, Mirrors;
      Bounds(page, text[..], cursorX, cursorY);
      CornerStopsBackspace(page, text[..], cursorX, cursorY);
      ErasedShows(page, text[..], cursorX, cursorY);
      if active { MirrorsCell(screen.video[..], text[..], colors[..], cursorY * 80 + cursorX - 1, BLANK); }
      if cursorX == 0 {
        cursorY := cursorY - 1;
        cursorX := 79;
      } else {
        cursorX := cursorX - 1;
      }
      WriteCharAt(cursorX, cursorY, BLANK);
      screen.SetCursorAt(cursorX, cursorY);
      page := page.Erased();
    }
  }

  // ----- switching between terminals

  ghost predicate Separate(a: Terminal, b: Terminal) {
    a.text != b.text && a.text != b.colors && a.colors != b.text && a.colors != b.colors
  }

  /** The terminals of the processes, one of them on the screen; no process ends. */
  class TerminalList {
    const screen: Screen
    const terminals: seq<Terminal>
    var activeIndex: nat

    ghost predicate Valid()
      reads this, terminals, screen, screen.video,
            set i | 0 <= i < |terminals| :: terminals[i].text, set i | 0 <= i < |terminals| :: terminals[i].colors
    {
      && activeIndex < |terminals|
      && (forall i :: 0 <= i < |terminals| ==>
            && terminals[i].screen == screen && terminals[i].Valid()
            && (terminals[i].active <==> i == activeIndex))
      && (forall i, j :: 0 <= i < j < |terminals| ==>
            terminals[i] != terminals[j] && Separate(terminals[i], terminals[j]))
    }

    constructor (screen: Screen, terminals: seq<Terminal>)
      requires terminals != []
      requires forall i :: 0 <= i < |terminals| ==>
                 terminals[i].screen == screen && terminals[i].Valid() && !terminals[i].active
      requires forall i, j :: 0 <= i < j < |terminals| ==>
                 terminals[i] != terminals[j] && Separate(terminals[i], terminals[j])
      modifies terminals[0], screen, screen.video
      ensures Valid() && activeIndex == 0 && this.terminals == terminals
    {
      this.screen, this.terminals, activeIndex := screen, terminals, 0;
      new;
      terminals[0].SetActive();
    }

    /** Shift and Tab: exactly one terminal is active, and the screen shows it, its text as it was left. */
    method Next()
      requires Valid()
      modifies this`activeIndex, terminals, screen, screen.video
      ensures Valid() && terminals[activeIndex].Shown()
      ensures activeIndex == if old(activeIndex) + 1 == |terminals| then 0 else old(activeIndex) + 1
      ensures forall i :: 0 <= i < |terminals| ==> terminals[i].page == old(terminals[i].page)
    {
      terminals[activeIndex].SetInactive();
      activeIndex := activeIndex + 1;
      if activeIndex == |terminals| { activeIndex := 0; }
      terminals[activeIndex].SetActive();
    }

    /** A process writes to its own terminal: no other page changes, and the screen only if it is the active one. */
    method WriteTo(i: nat, s: seq<byte>)
      requires Valid() && i < |terminals| && 0 in s
      modifies terminals[i], terminals[i].text, terminals[i].colors, screen, screen.video
      ensures Valid() && activeIndex == old(activeIndex)
      ensures terminals[i].page == old(terminals[i].page).Written(CString(s))
      ensures i != activeIndex ==> screen.video[..] == old(screen.video[..]) && screen.Cursor() == old(screen.Cursor())
    {
      terminals[i].Write(s);
    }
  }
}
