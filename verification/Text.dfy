/** The string operations the parsers and renderers rest on. */
module Text {
  import opened Prelude

  /** The Unicode White_Space property. */
  predicate IsWhite(c: char) {
    var n := c as int;
    (9 <= n <= 13) || n == 0x20 || n == 0x85 || n == 0xA0 || n == 0x1680 || (0x2000 <= n <= 0x200A)
    || n == 0x2028 || n == 0x2029 || n == 0x202F || n == 0x205F || n == 0x3000
  }

  function TrimStart(s: string): (r: string)
    ensures r == [] || !IsWhite(r[0])
    ensures s != [] && !IsWhite(s[0]) ==> r == s
  {
    if s != [] && IsWhite(s[0]) then TrimStart(s[1..]) else s
  }

  function TrimEnd(s: string): (r: string)
    ensures r <= s
    ensures r == [] || !IsWhite(r[|r| - 1])
    ensures s == [] || !IsWhite(s[|s| - 1]) ==> r == s
  {
    if s != [] && IsWhite(s[|s| - 1]) then TrimEnd(s[..|s| - 1]) else s
  }

  function Trim(s: string): string {
    TrimEnd(TrimStart(s))
  }

  function Find(s: string, c: char): (r: Option<nat>)
    ensures r.Some? ==> r.value < |s| && s[r.value] == c && forall j | 0 <= j < r.value :: s[j] != c
    ensures r.None? <==> c !in s
  {
    if s == [] then None
    else if s[0] == c then Some(0)
    else
      match Find(s[1..], c)
      case None => None
      case Some(k) => Some(k + 1)
  }

  lemma {:induction false} FindsFirst(before: string, c: char, after: string)
    requires c !in before
    ensures Find(before + [c] + after, c) == Some(|before|)
  {
    var s := before + [c] + after;
    if before != [] {
      assert s[1..] == before[1..] + [c] + after;
      FindsFirst(before[1..], c, after);
    }
  }

  function StripPrefix(s: string, prefix: string): Option<string> {
    if prefix <= s then Some(s[|prefix|..]) else None
  }

  function StripCr(s: string): string {
    if s != [] && s[|s| - 1] == '\r' then s[..|s| - 1] else s
  }

  /** Lines end in a newline, which may follow a carriage return; the last may go without. */
  function Lines(text: string): seq<string>
    decreases |text|
  {
    if text == [] then []
    else
      match Find(text, '\n')
      case None => [text]
      case Some(k) => [StripCr(text[..k])] + Lines(text[k + 1..])
  }

  lemma FirstLine(line: string, rest: string)
    requires '\n' !in line
    ensures Lines(line + "\n" + rest) == [StripCr(line)] + Lines(rest)
  {
    var text := line + "\n" + rest;
    FindsFirst(line, '\n', rest);
    assert text[..|line|] == line && text[|line| + 1..] == rest;
  }

  /** A line is what stands before either line ending. */
  lemma EitherEnding(line: string, rest: string)
    requires '\n' !in line && (line == [] || line[|line| - 1] != '\r')
    ensures Lines(line + "\n" + rest) == [line] + Lines(rest)
    ensures Lines(line + "\r\n" + rest) == [line] + Lines(rest)
  {
    hide Lines, StripCr;
    FirstLine(line, rest);
    FirstLine(line + "\r", rest);
    CrBeforeNewline(line, rest);
  }

  lemma CrBeforeNewline(line: string, rest: string)
    ensures line + "\r\n" + rest == (line + "\r") + "\n" + rest
    ensures StripCr(line + "\r") == line
    ensures line == [] || line[|line| - 1] != '\r' ==> StripCr(line) == line
  {
  }

  lemma TrimEndForgetsCr(s: string)
    ensures TrimEnd(StripCr(s)) == TrimEnd(s)
  {
  }

  // ---- decimal integers ----

  const I64_MIN: int := -0x8000_0000_0000_0000
  const I64_MAX: int := 0x7fff_ffff_ffff_ffff

  function Digit(d: nat): (c: char)
    requires d < 10
    ensures IsDigit(c) && DigitValue(c) == d
  {
    "0123456789"[d]
  }

  predicate IsDigit(c: char) {
    '0' <= c <= '9'
  }

  function DigitValue(c: char): (d: nat)
    requires IsDigit(c)
    ensures d < 10
  {
    c as int - '0' as int
  }

  function Decimal(n: nat): (s: string)
    ensures s != [] && forall k | 0 <= k < |s| :: IsDigit(s[k])
  {
    if n < 10 then [Digit(n)] else Decimal(n / 10) + [Digit(n % 10)]
  }

  function IntText(i: int): string {
    if i < 0 then "-" + Decimal(-i) else Decimal(i)
  }

  predicate AllDigits(s: string) {
    forall k | 0 <= k < |s| :: IsDigit(s[k])
  }

  function Value(s: string): nat
    requires AllDigits(s)
  {
    if s == [] then 0 else Value(s[..|s| - 1]) * 10 + DigitValue(s[|s| - 1])
  }

  /** An optional sign, then digits; nothing else, and nothing beyond 64 bits. */
  function ParseI64(s: string): Option<int> {
    if s == [] then None
    else
      var signed := s[0] == '-' || s[0] == '+';
      var digits := if signed then s[1..] else s;
      if digits == [] || !AllDigits(digits) then None
      else
        var magnitude: int := Value(digits);
        var v := if s[0] == '-' then -magnitude else magnitude;
        if I64_MIN <= v <= I64_MAX then Some(v) else None
  }

  lemma {:induction false} DecimalValue(n: nat)
    ensures Value(Decimal(n)) == n
  {
    if n >= 10 {
      DecimalValue(n / 10);
      assert Decimal(n)[..|Decimal(n)| - 1] == Decimal(n / 10);
    }
  }

  /** Every 64-bit integer reads back from its own text. */
  lemma IntRoundTrip(i: int)
    requires I64_MIN <= i <= I64_MAX
    ensures ParseI64(IntText(i)) == Some(i)
  {
    hide Decimal, Value;
    if i < 0 {
      DecimalValue(-i);
      SignedReads(i);
    } else {
      DecimalValue(i);
      assert IntText(i) == Decimal(i) && IsDigit(IntText(i)[0]);
    }
  }

  lemma SignedReads(i: int)
    requires I64_MIN <= i < 0 && Value(Decimal(-i)) == -i
    ensures ParseI64(IntText(i)) == Some(i)
  {
    hide Decimal, Value;
    var s := "-" + Decimal(-i);
    assert IntText(i) == s && s[0] == '-' && s[1..] == Decimal(-i);
  }

  lemma IntTextIsPlain(i: int)
    ensures IntText(i) != [] && !IsWhite(IntText(i)[0]) && !IsWhite(IntText(i)[|IntText(i)| - 1])
    ensures '\n' !in IntText(i)
  {
  }

  predicate Numeral(s: string, sign: string, digits: string, v: int) {
    && (sign == "" || sign == "+" || sign == "-")
    && digits != [] && AllDigits(digits) && s == sign + digits
    && (if sign == "-" then v + Value(digits) == 0 else v == Value(digits))
    && -0x8000_0000_0000_0000 <= v <= 0x7fff_ffff_ffff_ffff
  }

  /** A text parses as a number exactly when it is an optional sign and digits, and the number has 64 bits. */
  lemma ParsesExactlyWhen(s: string, v: int)
    ensures ParseI64(s) == Some(v) <==> exists sign, digits :: Numeral(s, sign, digits, v)
  {
    hide Value;
    if ParseI64(s) == Some(v) {
      if s[0] == '-' || s[0] == '+' {
        assert Numeral(s, [s[0]], s[1..], v);
      } else {
        assert Numeral(s, "", s, v);
      }
    }
    if sign, digits :| Numeral(s, sign, digits, v) {
      if sign == "" {
        assert s == digits && IsDigit(s[0]);
      } else {
        assert s[0] == sign[0] && s[1..] == digits;
      }
    }
  }
}
