/** Decimal output of numbers: int_to_ascii with the helpers it uses. */
module Digits {
  import opened Machine
  import opened Buffers

  const ZERO: byte := 48
  const MINUS: byte := 45

  function Reversed<T>(s: seq<T>): (r: seq<T>)
    ensures |r| == |s| && forall k :: 0 <= k < |s| ==> r[k] == s[|s| - 1 - k]
  {
    if s == [] then [] else Reversed(s[1..]) + [s[0]]
  }

  function Digit(n: nat): byte
    requires n < 10
  {
    ZERO + n as byte
  }

  function Decimal(n: nat): (r: seq<byte>)
    ensures r != [] && forall d | d in r :: ZERO <= d <= ZERO + 9
  {
    if n < 10 then [Digit(n)] else Decimal(n / 10) + [Digit(n % 10)]
  }

  function Signed(n: int): (r: seq<byte>)
    ensures 0 !in r
  {
    if n < 0 then [MINUS] + Decimal(-n) else Decimal(n)
  }

  /** Reading a numeral back, the usual way. */
  function Number(s: seq<byte>): int {
    if s == [] then 0 else 10 * Number(s[..|s| - 1]) + s[|s| - 1] as int - 48
  }

  function Value(s: seq<byte>): int {
    if s != [] && s[0] == MINUS then -Number(s[1..]) else Number(s)
  }

  lemma {:induction false} DecimalReadsBack(n: nat)
    ensures Number(Decimal(n)) == n
  {
    if n >= 10 {
      DecimalReadsBack(n / 10);
      assert Decimal(n)[..|Decimal(n)| - 1] == Decimal(n / 10);
    }
  }

  /** What is printed reads back as the number, has no leading zero, and different numbers print differently. */
  lemma SignedReadsBack(n: int)
    ensures Value(Signed(n)) == n
    ensures Signed(n)[0] == ZERO <==> n == 0
  {
    DecimalReadsBack(if n < 0 then -n else n);
    NoLeadingZero(if n < 0 then -n else n);
    if n < 0 {
      assert Signed(n)[1..] == Decimal(-n);
    } else {
      assert Signed(n)[0] in Decimal(n);
    }
  }

  lemma {:induction false} NoLeadingZero(n: nat)
    ensures Decimal(n)[0] == ZERO <==> n == 0
  {
    if n >= 10 { NoLeadingZero(n / 10); }
  }

  function Power(k: nat): nat { if k == 0 then 1 else 10 * Power(k - 1) }

  lemma {:induction false} DecimalLength(n: nat, k: nat)
    requires k > 0
    ensures |Decimal(n)| <= k <==> n < Power(k)
  {
    if n >= 10 && k > 1 {
      DecimalLength(n / 10, k - 1);
    } else if n >= 10 {
      assert Power(1) == 10 * Power(0);
    } else {
      PowerGrows(k);
    }
  }

  lemma {:induction false} PowerGrows(k: nat)
    requires k > 0
    ensures Power(k) >= 10
  {
    if k > 1 { PowerGrows(k - 1); }
  }

  /** Twelve bytes hold every 32-bit number with its sign and terminator, and eleven do not. */
  lemma TwelveBytes(n: int)
    requires -0x8000_0000 < n < 0x8000_0000
    ensures |Signed(n)| + 1 <= 12
    ensures |Signed(-0x7fff_ffff)| + 1 == 12
  {
    assert Power(5) == 100000;
    assert Power(10) == 100000 * Power(5);
    assert Power(9) == 10000 * Power(5);
    DecimalLength(if n < 0 then -n else n, 10);
    DecimalLength(0x7fff_ffff, 10);
    DecimalLength(0x7fff_ffff, 9);
  }

  method StrLen(s: array<byte>) returns (n: nat)
    requires 0 in s[..]
    ensures n == |CString(s[..])|
  {
    n := 0;
    while s[n] != 0
      invariant n <= |CString(s[..])|
      decreases s.Length - n
    {
      n := n + 1;
    }
  }

  /** Reverses the string in place; its terminator and what lies behind stay. */
  method Reverse(s: array<byte>)
    requires 0 in s[..]
    modifies s
    ensures s[..] == Reversed(CString(old(s[..]))) + old(s[..])[|CString(old(s[..]))|..]
  {
    hide CString, Reversed;
    ghost var was, text := s[..], CString(s[..]);
    var n := StrLen(s);
    var i: int, j: int := 0, n - 1;
    while i < j
      invariant 0 <= i <= n && j == n - 1 - i && s[n..] == was[n..]
      invariant forall k :: 0 <= k < i || j < k < n ==> s[k] == text[n - 1 - k]
      invariant forall k :: i <= k <= j ==> s[k] == text[k]
    {
      var c := s[i];
      s[i] := s[j];
      s[j] := c;
      i, j := i + 1, j - 1;
    }
    assert s[..n] == Reversed(text);
    assert s[..] == s[..n] + s[n..];
  }

  lemma {:induction false} CStringIs(s: seq<byte>, text: seq<byte>)
    requires text + [0] <= s && 0 !in text
    ensures 0 in s && CString(s) == text
  {
    assert s[|text|] == (text + [0])[|text|] == 0;
    if text != [] {
      assert s[0] == text[0];
      assert (text + [0])[1..] == text[1..] + [0];
      CStringIs(s[1..], text[1..]);
    }
  }

  /** The digits of n still to be put out. */
  function Rest(n: nat): seq<byte> { if n > 0 then Decimal(n) else [] }

  lemma RestStep(n: nat, done: seq<byte>)
    requires n > 0
    ensures Rest(n) + Reversed(done) == Rest(n / 10) + Reversed(done + [Digit(n % 10)])
    ensures |Rest(n)| == |Rest(n / 10)| + 1
  {
    ReversedEnd(done, Digit(n % 10));
  }

  lemma ReversedEnd<T>(s: seq<T>, x: T)
    ensures Reversed(s + [x]) == [x] + Reversed(s)
  {
  }

  function Magnitude(n: int): nat { if n < 0 then -n else n }

  lemma FirstDigit(number: int)
    requires -0x8000_0000 < number < 0x8000_0000
    ensures var m := Magnitude(number);
            && |Decimal(m)| + (if number < 0 then 1 else 0) <= 11
            && Decimal(m) == Rest(m / 10) + Reversed([Digit(m % 10)])
            && 1 + |Rest(m / 10)| == |Decimal(m)|
  {
    hide Decimal, Reversed;
    TwelveBytes(number);
    LastDigit(Magnitude(number));
    ReversedEnd([], Digit(Magnitude(number) % 10));
    assert [] + [Digit(Magnitude(number) % 10)] == [Digit(Magnitude(number) % 10)];
    assert Reversed<byte>([]) == [];
  }

  lemma LastDigit(n: nat)
    ensures Decimal(n) == Rest(n / 10) + [Digit(n % 10)]
  {
  }

  lemma Finished(number: int, done: seq<byte>)
    requires Decimal(Magnitude(number)) == Rest(0) + Reversed(done)
    ensures var text := if number < 0 then done + [MINUS] else done;
            0 !in text && Reversed(text) == Signed(number) && |text| == |Signed(number)|
  {
    ReversedEnd(done, MINUS);
    assert Rest(0) == [];
    forall k | 0 <= k < |done|
      ensures done[k] != 0
    {
      assert done[k] == Reversed(done)[|done| - 1 - k];
      assert done[k] in Decimal(Magnitude(number));
    }
  }

  const MOST_NEGATIVE: int := -0x8000_0000

  /** What int_to_ascii prints: the numeral, but for the most negative number a bracket behind the sign. */
  function Printed(number: int): seq<byte> {
    if number == MOST_NEGATIVE then [MINUS, 40] else Signed(number)
  }

  /** The output reads back as the number if and only if it is not the most negative one. */
  lemma PrintedReadsBack(number: int)
    requires MOST_NEGATIVE <= number < 0x8000_0000
    ensures Value(Printed(number)) == number <==> number != MOST_NEGATIVE
  {
    SignedReadsBack(number);
    assert [MINUS, 40][1..] == [40] && [40][..0] == [];
  }

  /** Remainder and quotient of int, which go toward zero. */
  function Remainder(n: int): int { if n >= 0 then n % 10 else -(-n % 10) }
  function Quotient(n: int): int { if n >= 0 then n / 10 else -(-n / 10) }

  /** -n on int, which for the most negative number wraps to itself. */
  function Negated(n: int): int { if n == MOST_NEGATIVE then n else -n }

  /** What the loop has left to print and has printed. */
  ghost predicate Printing(number: int, n: int, done: seq<byte>) {
    if number == MOST_NEGATIVE then n <= 0 && done == [40]
    else
      && n >= 0 && done != []
      && |done| + |Rest(n)| == |Decimal(Magnitude(number))|
      && Decimal(Magnitude(number)) == Rest(n) + Reversed(done)
  }

  /** int_to_ascii */
  method IntToAscii(number: int, str: array<byte>)
    requires MOST_NEGATIVE <= number < 0x8000_0000
    requires str.Length >= 12
    modifies str
    ensures 0 in str[..] && CString(str[..]) == Printed(number)
  {
    hide CString, Reversed, Printing, Printed;
    var n := if number < 0 then Negated(number) else number;
    PrintingBegins(number, n);
    str[0] := Remainder(n) + 48;
    n := Quotient(n);
    var i := 1;
    assert str[..1] == [str[0]];
    while n > 0
      invariant 1 <= i <= 10 && Printing(number, n, str[..i])
      decreases n
    {
      PrintingStep(number, n, str[..i]);
      str[i] := Remainder(n) + 48;
      assert str[..i + 1] == str[..i] + [str[i]];
      n := Quotient(n);
      i := i + 1;
    }
    PrintingEnds(number, n, str[..i]);
    if number < 0 {
      str[i] := MINUS;
      assert str[..i + 1] == str[..i] + [MINUS];
      i := i + 1;
    }
    ghost var text := str[..i];
    str[i] := 0;
    assert text + [0] <= str[..];
    CStringIs(str[..], text);
    Reverse(str);
    assert Printed(number) + [0] <= str[..];
    CStringIs(str[..], Printed(number));
  }

  lemma PrintingBegins(number: int, n: int)
    requires MOST_NEGATIVE <= number < 0x8000_0000 && n == if number < 0 then Negated(number) else number
    ensures 0 <= Remainder(n) + 48 < 256
    ensures Printing(number, Quotient(n), [Remainder(n) + 48])
  {
    hide Decimal, Reversed, Rest;
    if number != MOST_NEGATIVE { FirstDigit(number); }
  }

  lemma PrintingStep(number: int, n: int, done: seq<byte>)
    requires MOST_NEGATIVE <= number < 0x8000_0000 && n > 0 && Printing(number, n, done)
    ensures 0 <= Remainder(n) + 48 < 256 && |done| < 10
    ensures Printing(number, Quotient(n), done + [Remainder(n) + 48])
  {
    hide Decimal, Reversed;
    RestStep(n, done);
    DigitsFit(number);
  }

  lemma DigitsFit(number: int)
    requires MOST_NEGATIVE < number < 0x8000_0000
    ensures |Decimal(Magnitude(number))| <= 10
  {
    assert Power(5) == 100000;
    assert Power(10) == 100000 * Power(5);
    DecimalLength(Magnitude(number), 10);
  }

  lemma PrintingEnds(number: int, n: int, done: seq<byte>)
    requires MOST_NEGATIVE <= number < 0x8000_0000 && n <= 0 && Printing(number, n, done)
    ensures var text := if number < 0 then done + [MINUS] else done;
            0 !in text && Reversed(text) == Printed(number) && |text| == |Printed(number)|
  {
    if number == MOST_NEGATIVE {
      assert Reversed([40] + [MINUS]) == [MINUS, 40];
    } else {
      Finished(number, done);
    }
  }
}
