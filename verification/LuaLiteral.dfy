/** Quoting a path as a Lua short literal string, against a reader of such literals as section 3.1 of the
    Lua 5.4 Reference Manual describes them. Strings are bytes: the quoter escapes ASCII characters only,
    and UTF-8 uses no ASCII byte inside a longer character. */
module LuaLiteral {
  import opened Prelude

  type Byte = b: nat | b < 256

  type Bytes = seq<Byte>

  const NUL: Byte := 0
  const LF: Byte := 10
  const CR: Byte := 13
  const QUOTE: Byte := 34
  const APOSTROPHE: Byte := 39
  const BACKSLASH: Byte := 92

  // ---- the quoter ----

  function Escape(c: Byte): Bytes {
    if c == BACKSLASH then [BACKSLASH, BACKSLASH]
    else if c == QUOTE then [BACKSLASH, QUOTE]
    else if c == LF then [BACKSLASH, 'n' as Byte]
    else if c == CR then [BACKSLASH, 'r' as Byte]
    else if c == NUL then [BACKSLASH, '0' as Byte]
    else [c]
  }

  function Escaped(s: Bytes): Bytes {
    if s == [] then [] else Escape(s[0]) + Escaped(s[1..])
  }

  function Literal(s: Bytes): Bytes {
    [QUOTE] + Escaped(s) + [QUOTE]
  }

  lemma {:induction false} EscapedSnoc(s: Bytes, c: Byte)
    ensures Escaped(s + [c]) == Escaped(s) + Escape(c)
  {
    if s == [] {
      assert (s + [c])[1..] == [];
    } else {
      assert (s + [c])[1..] == s[1..] + [c];
      EscapedSnoc(s[1..], c);
    }
  }

  /** The quoter as it runs, one character at a time. */
  method LuaStringLiteral(s: Bytes) returns (out: Bytes)
    ensures out == Literal(s)
  {
    assert s[..0] == [] && Escaped([]) == [];
    hide Escaped;
    out := [QUOTE];
    for k := 0 to |s|
      invariant out == [QUOTE] + Escaped(s[..k])
    {
      var c := s[k];
      ghost var before := out;
      if c == BACKSLASH {
        out := out + [BACKSLASH, BACKSLASH];
      } else if c == QUOTE {
        out := out + [BACKSLASH, QUOTE];
      } else if c == LF {
        out := out + [BACKSLASH, 'n' as Byte];
      } else if c == CR {
        out := out + [BACKSLASH, 'r' as Byte];
      } else if c == NUL {
        out := out + [BACKSLASH, '0' as Byte];
      } else {
        out := out + [c];
      }
      assert out == before + Escape(c);
      assert out == [QUOTE] + Escaped(s[..k + 1]) by {
        hide Escape;
        assert s[..k + 1] == s[..k] + [c];
        EscapedSnoc(s[..k], c);
      }
    }
    assert s[..|s|] == s;
    out := out + [QUOTE];
  }

  // ---- the reader ----

  predicate IsDigit(b: Byte) {
    48 <= b <= 57
  }

  /** How many of the first `limit` bytes are digits in a row. */
  function DigitRun(t: Bytes, limit: nat): (n: nat)
    ensures n <= limit && n <= |t|
    ensures forall k | 0 <= k < n :: IsDigit(t[k])
  {
    if limit == 0 || t == [] || !IsDigit(t[0]) then 0 else 1 + DigitRun(t[1..], limit - 1)
  }

  function DecimalValue(t: Bytes): nat
    requires forall k | 0 <= k < |t| :: IsDigit(t[k])
  {
    if t == [] then 0
    else
      var last := t[|t| - 1];
      assert IsDigit(last);
      DecimalValue(t[..|t| - 1]) * 10 + (last as int - 48)
  }

  function HexDigit(b: Byte): (r: Option<nat>)
    ensures r.Some? ==> r.value < 16
  {
    if IsDigit(b) then Some(b - 48)
    else if 65 <= b <= 70 then Some(b - 55)
    else if 97 <= b <= 102 then Some(b - 87)
    else None
  }

  function SkipWhite(t: Bytes): (r: Bytes)
    ensures |r| <= |t|
  {
    if t != [] && (t[0] == 32 || 9 <= t[0] <= 13) then SkipWhite(t[1..]) else t
  }

  /** The hex digits of a `\u{...}` up to its brace, and what follows it. */
  function Braced(t: Bytes, sofar: nat, seen: bool): (r: Option<(nat, Bytes)>)
    ensures r.Some? ==> |r.value.1| < |t| && r.value.0 < 0x8000_0000
    decreases |t|
  {
    if t == [] then None
    else if t[0] == '}' as Byte then
      if seen && sofar < 0x8000_0000 then Some((sofar, t[1..])) else None
    else
      match HexDigit(t[0])
      case None => None
      case Some(d) => if sofar < 0x8000_0000 then Braced(t[1..], sofar * 16 + d, true) else None
  }

  function Continuation(n: nat, count: nat): Bytes {
    if count == 0 then [] else Continuation(n / 64, count - 1) + [128 + n % 64]
  }

  /** The extended UTF-8 of a code point below 2^31. */
  function Utf8(n: nat): Bytes
    requires n < 0x8000_0000
  {
    if n < 0x80 then [n]
    else if n < 0x800 then [0xC0 + n / 0x40] + Continuation(n, 1)
    else if n < 0x1_0000 then [0xE0 + n / 0x1000] + Continuation(n, 2)
    else if n < 0x20_0000 then [0xF0 + n / 0x4_0000] + Continuation(n, 3)
    else if n < 0x400_0000 then [0xF8 + n / 0x100_0000] + Continuation(n, 4)
    else [0xFC + n / 0x4000_0000] + Continuation(n, 5)
  }

  function NamedEscape(b: Byte): Option<Byte> {
    if b == 'a' as Byte then Some(7)
    else if b == 'b' as Byte then Some(8)
    else if b == 'f' as Byte then Some(12)
    else if b == 'n' as Byte then Some(LF)
    else if b == 'r' as Byte then Some(CR)
    else if b == 't' as Byte then Some(9)
    else if b == 'v' as Byte then Some(11)
    else if b == BACKSLASH || b == QUOTE || b == APOSTROPHE then Some(b)
    else None
  }

  /** What follows a backslash: the bytes it stands for, and the text after it. */
  function ReadEscape(t: Bytes): (r: Option<(Bytes, Bytes)>)
    ensures r.Some? ==> |r.value.1| < |t|
  {
    if t == [] then None
    else if NamedEscape(t[0]).Some? then Some(([NamedEscape(t[0]).value], t[1..]))
    else if t[0] == LF || t[0] == CR then
      var pair := |t| >= 2 && (t[1] == LF || t[1] == CR) && t[1] != t[0];
      Some(([LF], if pair then t[2..] else t[1..]))
    else if t[0] == 'z' as Byte then Some(([], SkipWhite(t[1..])))
    else if t[0] == 'x' as Byte then
      if |t| >= 3 && HexDigit(t[1]).Some? && HexDigit(t[2]).Some?
      then Some(([HexDigit(t[1]).value * 16 + HexDigit(t[2]).value], t[3..]))
      else None
    else if t[0] == 'u' as Byte then
      if |t| >= 2 && t[1] == '{' as Byte then
        match Braced(t[2..], 0, false)
        case None => None
        case Some(r) => Some((Utf8(r.0), r.1))
      else None
    else if IsDigit(t[0]) then
      var n := DigitRun(t, 3);
      var v := DecimalValue(t[..n]);
      if v < 256 then Some(([v], t[n..])) else None
    else None
  }

  /** The rest of a literal after its opening quote: its value, and the text after the closing one. */
  function ReadBody(t: Bytes): Option<(Bytes, Bytes)>
    decreases |t|
  {
    if t == [] then None
    else if t[0] == QUOTE then Some(([], t[1..]))
    else if t[0] == LF || t[0] == CR then None
    else if t[0] == BACKSLASH then
      match ReadEscape(t[1..])
      case None => None
      case Some(e) =>
        match ReadBody(e.1)
        case None => None
        case Some(r) => Some((e.0 + r.0, r.1))
    else
      match ReadBody(t[1..])
      case None => None
      case Some(r) => Some(([t[0]] + r.0, r.1))
  }

  function ReadLiteral(t: Bytes): Option<(Bytes, Bytes)> {
    if t != [] && t[0] == QUOTE then ReadBody(t[1..]) else None
  }

  // ---- what the quoter's text reads as ----

  /** A NUL takes up to two digits after it into its own escape. */
  function Swallowed(s: Bytes): (n: nat)
    requires s != []
    ensures n <= 2 && n < |s|
  {
    if s[0] == NUL then DigitRun(s[1..], 2) else 0
  }

  function SwallowedByte(s: Bytes): (b: Byte)
    requires s != [] && s[0] == NUL
  {
    var n := DigitRun(s[1..], 2);
    var digits := s[1..][..n];
    TwoDigits(digits);
    DecimalValue(digits)
  }

  lemma TwoDigits(digits: Bytes)
    requires |digits| <= 2 && forall k | 0 <= k < |digits| :: IsDigit(digits[k])
    ensures DecimalValue(digits) < 100
  {
    if |digits| > 0 {
      assert DecimalValue(digits[..|digits| - 1]) < 10 by {
        if |digits| == 2 { assert digits[..1][..0] == []; }
      }
    }
  }

  function ReadsAs(s: Bytes): Bytes
    decreases |s|
  {
    if s == [] then []
    else [if s[0] == NUL then SwallowedByte(s) else s[0]] + ReadsAs(s[1 + Swallowed(s)..])
  }

  predicate NulBeforeDigit(s: Bytes) {
    exists k :: 0 <= k < |s| - 1 && s[k] == NUL && IsDigit(s[k + 1])
  }

  lemma EscapeOpens(c: Byte)
    ensures Escape(c) != [] && (IsDigit(Escape(c)[0]) <==> IsDigit(c))
    ensures IsDigit(c) ==> Escape(c) == [c]
  {
  }

  lemma OtherParts(s: Bytes, tail: Bytes)
    requires s != []
    ensures (Escaped(s) + [QUOTE] + tail)[1..] == Escape(s[0])[1..] + (Escaped(s[1..]) + [QUOTE] + tail)
    ensures (Escaped(s) + [QUOTE] + tail)[0] == Escape(s[0])[0]
  {
    EscapeOpens(s[0]);
    DropFirst(Escape(s[0]), Escaped(s[1..]), [QUOTE], tail);
  }

  lemma DropFirst(e: Bytes, a: Bytes, b: Bytes, c: Bytes)
    requires e != []
    ensures var t := e + a + b + c;
      t[0] == e[0] && t[1..] == e[1..] + (a + b + c)
  {
  }

  /** The digits a NUL's escape meets are the string's own: escapes and the closing quote are none. */
  lemma {:induction false} SameDigitRun(s: Bytes, tail: Bytes, limit: nat)
    ensures DigitRun(Escaped(s) + [QUOTE] + tail, limit) == DigitRun(s, limit)
    decreases limit
  {
    hide Escape;
    var t := Escaped(s) + [QUOTE] + tail;
    if s == [] {
      assert t[0] == QUOTE;
    } else {
      EscapeOpens(s[0]);
      OtherParts(s, tail);
      if limit > 0 && IsDigit(s[0]) {
        assert t[1..] == Escaped(s[1..]) + [QUOTE] + tail;
        SameDigitRun(s[1..], tail, limit - 1);
      }
    }
  }

  lemma {:induction false} DigitsStandForThemselves(s: Bytes, limit: nat)
    ensures Escaped(s) == s[..DigitRun(s, limit)] + Escaped(s[DigitRun(s, limit)..])
    decreases limit
  {
    hide Escape;
    if limit > 0 && s != [] && IsDigit(s[0]) {
      var n := DigitRun(s[1..], limit - 1);
      EscapeOpens(s[0]);
      DigitsStandForThemselves(s[1..], limit - 1);
      assert s[1..][n..] == s[n + 1..] && s[..n + 1] == [s[0]] + s[1..][..n];
    }
  }

  lemma ZeroInFront(digits: Bytes)
    requires |digits| <= 2 && forall k | 0 <= k < |digits| :: IsDigit(digits[k])
    ensures forall k | 0 <= k < |digits| + 1 :: IsDigit(([48] + digits)[k])
    ensures DecimalValue([48] + digits) == DecimalValue(digits)
  {
    var all := [48] + digits;
    assert forall k | 0 <= k < |all| :: IsDigit(all[k]);
    if digits == [] {
      hide IsDigit;
      assert all == [48] && all[..0] == [];
    } else {
      var n := |digits| - 1;
      ZeroInFront(digits[..n]);
      assert all[..n + 1] == [48] + digits[..n];
    }
  }

  lemma DecimalReads(t: Bytes, n: nat)
    requires t != [] && IsDigit(t[0]) && DigitRun(t, 3) == n && DecimalValue(t[..n]) < 256
    ensures ReadEscape(t) == Some(([DecimalValue(t[..n])], t[n..]))
  {
    hide DigitRun, DecimalValue, Braced, Utf8, SkipWhite;
  }

  lemma NamedReads(t: Bytes)
    requires t != [] && NamedEscape(t[0]).Some?
    ensures ReadEscape(t) == Some(([NamedEscape(t[0]).value], t[1..]))
  {
  }

  lemma NulParts(s: Bytes, tail: Bytes)
    requires s != [] && s[0] == NUL
    ensures var n := Swallowed(s);
      var t := [48] + (Escaped(s[1..]) + [QUOTE] + tail);
      && DigitRun(t, 3) == 1 + n
      && t[..1 + n] == [48] + s[1..][..n]
      && t[1 + n..] == Escaped(s[1 + n..]) + [QUOTE] + tail
  {
    var n := Swallowed(s);
    var more := Escaped(s[1..]) + [QUOTE] + tail;
    SameDigitRun(s[1..], tail, 2);
    DigitsStandForThemselves(s[1..], 2);
    assert ([48] + more)[1..] == more;
    NulTail(s, tail, n, s[1..][..n]);
  }

  /** A NUL's escape reads as the byte its digits make, and leaves the rest of the literal. */
  lemma NulReads(s: Bytes, t: Bytes, rest: Bytes)
    requires s != [] && s[0] == NUL && t != [] && t[0] == 48
    requires DigitRun(t, 3) == 1 + Swallowed(s)
    requires t[..1 + Swallowed(s)] == [48] + s[1..][..Swallowed(s)] && t[1 + Swallowed(s)..] == rest
    ensures ReadEscape(t) == Some(([SwallowedByte(s)], rest))
  {
    var digits := s[1..][..Swallowed(s)];
    TwoDigits(digits);
    ZeroInFront(digits);
    DecimalReads(t, 1 + Swallowed(s));
  }

  lemma NulTail(s: Bytes, tail: Bytes, n: nat, digits: Bytes)
    requires s != [] && n < |s| && digits == s[1..][..n]
    requires Escaped(s[1..]) == digits + Escaped(s[1..][n..])
    ensures var t := [48] + (Escaped(s[1..]) + [QUOTE] + tail);
      t[..1 + n] == [48] + digits && t[1 + n..] == Escaped(s[1 + n..]) + [QUOTE] + tail
  {
    assert s[1..][n..] == s[1 + n..];
    var after := Escaped(s[1 + n..]) + [QUOTE] + tail;
    assert [48] + (Escaped(s[1..]) + [QUOTE] + tail) == ([48] + digits) + after;
  }

  lemma OtherReads(c: Byte, more: Bytes)
    requires c != NUL && Escape(c) != [c]
    ensures ReadEscape(Escape(c)[1..] + more) == Some(([c], more))
  {
    var t := Escape(c)[1..] + more;
    assert t[1..] == more;
    NamedReads(t);
  }

  /** The literal of every string closes where the quoter closed it and nowhere before: nothing in a path
      can end the argument early. What it reads as is the string, but for digits that follow a NUL. */
  lemma {:induction false} LiteralReads(s: Bytes, tail: Bytes)
    ensures ReadBody(Escaped(s) + [QUOTE] + tail) == Some((ReadsAs(s), tail))
    decreases |s|
  {
    var t := Escaped(s) + [QUOTE] + tail;
    if s == [] {
      assert t[0] == QUOTE && t[1..] == tail;
    } else {
      var rest := s[1 + Swallowed(s)..];
      LiteralReads(rest, tail);
      OtherParts(s, tail);
      if s[0] == NUL {
        assert Escape(s[0])[1..] == [48];
        NulParts(s, tail);
        NulReads(s, t[1..], Escaped(rest) + [QUOTE] + tail);
      } else if Escape(s[0]) != [s[0]] {
        OtherReads(s[0], Escaped(s[1..]) + [QUOTE] + tail);
      } else {
        assert t[1..] == Escaped(s[1..]) + [QUOTE] + tail;
      }
    }
  }

  lemma {:induction false} ReadsAsShorter(s: Bytes)
    ensures |ReadsAs(s)| <= |s|
    ensures NulBeforeDigit(s) <==> |ReadsAs(s)| < |s|
    ensures !NulBeforeDigit(s) ==> ReadsAs(s) == s
    decreases |s|
  {
    hide SwallowedByte, Swallowed, NulBeforeDigit;
    if s == [] {
      assert !NulBeforeDigit(s) by { FewBytes(s); }
    } else {
      var n := Swallowed(s);
      var rest := s[1 + n..];
      ReadsAsShorter(rest);
      if n == 0 {
        FirstIsHarmless(s);
        SwallowsNothing(s);
        assert s == [s[0]] + rest;
      } else {
        SwallowsDigits(s);
      }
    }
  }

  lemma FewBytes(s: Bytes)
    requires |s| < 2
    ensures !NulBeforeDigit(s)
  {
  }

  lemma SwallowsNothing(s: Bytes)
    requires s != [] && Swallowed(s) == 0
    ensures s[0] == NUL ==> SwallowedByte(s) == NUL
  {
  }

  lemma SwallowsDigits(s: Bytes)
    requires s != [] && Swallowed(s) > 0
    ensures NulBeforeDigit(s)
  {
    assert s[1..][0] == s[1];
    assert s[0] == NUL && IsDigit(s[0 + 1]);
  }

  lemma FirstIsHarmless(s: Bytes)
    requires s != [] && Swallowed(s) == 0
    ensures NulBeforeDigit(s) <==> NulBeforeDigit(s[1..])
  {
    if k :| 0 <= k < |s| - 1 && s[k] == NUL && IsDigit(s[k + 1]) {
      assert k > 0 by {
        assert |s| > 1 ==> s[1..][0] == s[1];
      }
      assert s[1..][k - 1] == NUL && IsDigit(s[1..][k - 1 + 1]);
    }
    if k :| 0 <= k < |s[1..]| - 1 && s[1..][k] == NUL && IsDigit(s[1..][k + 1]) {
      assert s[k + 1] == NUL && IsDigit(s[k + 1 + 1]);
    }
  }

  /** Reading the literal back, whatever text follows it, consumes exactly the literal; it yields the
      string exactly when no NUL stands before a digit. */
  lemma QuoteRoundTrip(s: Bytes, tail: Bytes)
    ensures ReadLiteral(Literal(s) + tail) == Some((ReadsAs(s), tail))
    ensures ReadsAs(s) == s <==> !NulBeforeDigit(s)
  {
    assert (Literal(s) + tail)[1..] == Escaped(s) + [QUOTE] + tail;
    LiteralReads(s, tail);
    ReadsAsShorter(s);
  }

  /** Five bytes are escaped, each by a backslash and one more; every other byte stands for itself. */
  lemma EscapesExactlyFive(s: Bytes, k: nat)
    requires k < |s|
    ensures var c := s[k];
      Escape(c) == (
        if c == 92 then [92, 92]
        else if c == 34 then [92, 34]
        else if c == 10 then [92, 110]
        else if c == 13 then [92, 114]
        else if c == 0 then [92, 48]
        else [c])
    ensures Escaped(s) == Escaped(s[..k]) + Escape(s[k]) + Escaped(s[k + 1..])
  {
    EscapeTable(s[k]);
    EscapedSplits(s, k);
    hide Escape, Escaped;
  }

  lemma {:induction false} EscapedSplits(s: Bytes, k: nat)
    requires k < |s|
    ensures Escaped(s) == Escaped(s[..k]) + Escape(s[k]) + Escaped(s[k + 1..])
  {
    hide Escape;
    if k == 0 {
      assert s[..0] == [] && s[0 + 1..] == s[1..];
    } else {
      var t := s[1..];
      EscapedSplits(t, k - 1);
      assert s[..k][1..] == t[..k - 1] && t[k..] == s[k + 1..];
      Regroup(Escape(s[0]), Escaped(t[..k - 1]), Escape(s[k]), Escaped(s[k + 1..]));
    }
  }

  lemma Regroup(a: Bytes, b: Bytes, c: Bytes, d: Bytes)
    ensures a + (b + c + d) == (a + b) + c + d
  {
  }

  lemma EscapeTable(c: Byte)
    ensures Escape(c) == (
      if c == 92 then [92, 92]
      else if c == 34 then [92, 34]
      else if c == 10 then [92, 110]
      else if c == 13 then [92, 114]
      else if c == 0 then [92, 48]
      else [c])
  {
  }

  /** A NUL before a digit is misread: the quoter writes no third digit, so NUL and "5" come back as the
      one byte 5. */
  lemma NulBeforeDigitIsMisread(s: Bytes, tail: Bytes)
    requires s == [NUL, 53]
    ensures ReadLiteral(Literal(s) + tail) == Some(([5], tail))
  {
    QuoteRoundTrip(s, tail);
    assert s[1..] == [53] && [53][1..] == [] && DigitRun([53], 2) == 1;
    assert [53][..1] == [53] && [53][..0] == [] && DecimalValue([53]) == 5;
    assert Swallowed(s) == 1 && SwallowedByte(s) == 5 && s[2..] == [];
    assert ReadsAs(s) == [5] + ReadsAs(s[2..]) == [5];
  }
}
