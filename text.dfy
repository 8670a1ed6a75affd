/**
 * The JavaScript string built-ins the application relies on, over `string`:
 * `String(n)` for integers, `padStart(2, '0')`, `parseInt(s)`, the numeric
 * conversion behind loose equality `n == s`, and `trim()`.
 */
module Text {
  import opened Wrappers

  predicate IsDigit(c: char) { '0' <= c <= '9' }

  predicate AllDigits(s: string) { forall i :: 0 <= i < |s| ==> IsDigit(s[i]) }

  function DigitChar(d: nat): (c: char)
    requires d < 10
    ensures IsDigit(c) && c as int - '0' as int == d
  {
    ('0' as int + d) as char
  }

  function DigitValue(c: char): nat
    requires IsDigit(c)
  {
    c as int - '0' as int
  }

  /** The number a string of decimal digits denotes (most significant first). */
  function DigitsValue(s: string): nat
    requires AllDigits(s)
  {
    if s == [] then 0 else DigitsValue(s[..|s| - 1]) * 10 + DigitValue(s[|s| - 1])
  }

  /** `String(n)` for a non-negative integer: its decimal digits, without leading zeros. */
  function NatToString(n: nat): (s: string)
    ensures |s| >= 1 && AllDigits(s)
    ensures (|s| == 1) == (n < 10)
    ensures |s| > 1 ==> s[0] != '0'
    decreases n
  {
    if n < 10 then [DigitChar(n)] else NatToString(n / 10) + [DigitChar(n % 10)]
  }

  /** `String(i)` for any integer. */
  function IntToString(i: int): string
  {
    if i < 0 then "-" + NatToString(-i) else NatToString(i)
  }

  /** `String(n).padStart(2, '0')`. */
  function Pad2(n: int): string
  {
    var s := IntToString(n);
    if |s| < 2 then "0" + s else s
  }

  /** Reading the digits of `String(n)` gives back `n`. */
  lemma {:induction false} NatToStringValue(n: nat)
    ensures DigitsValue(NatToString(n)) == n
    decreases n
  {
    if n >= 10 {
      var s := NatToString(n);
      NatToStringValue(n / 10);
      assert s[..|s| - 1] == NatToString(n / 10);
    }
  }

  /** Two-digit padding of a value below 100 is exactly two digits that read back as the value. */
  lemma Pad2Digits(n: int)
    requires 0 <= n < 100
    ensures |Pad2(n)| == 2 && AllDigits(Pad2(n)) && DigitsValue(Pad2(n)) == n
  {
    NatToStringValue(n);
    if n < 10 {
      var s := Pad2(n);
      assert s[..1] == "0";
      assert s[1..] == NatToString(n);
      assert DigitsValue(s[..1]) == 0;
    } else {
      assert NatToString(n) == NatToString(n / 10) + [DigitChar(n % 10)];
    }
  }

  /** Padding is injective below 100: different values never print the same. */
  lemma Pad2Injective(a: int, b: int)
    requires 0 <= a < 100 && 0 <= b < 100
    ensures Pad2(a) == Pad2(b) <==> a == b
  {
    Pad2Digits(a);
    Pad2Digits(b);
  }

  // ---------------------------------------------------------------- whitespace

  /** The characters `trim()` removes: WhiteSpace and LineTerminator of ECMAScript. */
  predicate IsWhitespace(c: char)
  {
    c == ' ' || c == '\t' || c == '\n' || c == '\r' || c == '\U{000B}' || c == '\U{000C}'
    || c == '\U{00A0}' || c == '\U{1680}' || ('\U{2000}' <= c <= '\U{200A}')
    || c == '\U{2028}' || c == '\U{2029}' || c == '\U{202F}' || c == '\U{205F}'
    || c == '\U{3000}' || c == '\U{FEFF}'
  }

  predicate AllWhitespace(s: string) { forall i :: 0 <= i < |s| ==> IsWhitespace(s[i]) }

  /** No decimal digit is whitespace. */
  lemma DigitNotWhitespace(c: char)
    ensures IsDigit(c) ==> !IsWhitespace(c)
  {
  }

  lemma AllWhitespaceCons(c: char, t: string)
    requires IsWhitespace(c) && AllWhitespace(t)
    ensures AllWhitespace([c] + t)
  {
  }

  lemma AllWhitespaceSnoc(t: string, c: char)
    requires AllWhitespace(t) && IsWhitespace(c)
    ensures AllWhitespace(t + [c])
  {
  }

  /** `s` with its leading whitespace removed. */
  function TrimStart(s: string): string
  {
    if s != [] && IsWhitespace(s[0]) then TrimStart(s[1..]) else s
  }

  /** `s` with its trailing whitespace removed. */
  function TrimEnd(s: string): string
  {
    if s != [] && IsWhitespace(s[|s| - 1]) then TrimEnd(s[..|s| - 1]) else s
  }

  /** One more whitespace character at the front of a whitespace prefix. */
  lemma SkipStep(s: string, k: nat)
    requires 0 < k <= |s| && IsWhitespace(s[0]) && AllWhitespace(s[1..][..k - 1])
    ensures s[1..][k - 1..] == s[k..]
    ensures AllWhitespace(s[..k])
  {
    assert s[..k] == [s[0]] + s[1..][..k - 1];
    AllWhitespaceCons(s[0], s[1..][..k - 1]);
  }

  /** One more whitespace character at the back of a whitespace suffix. */
  lemma DropStep(s: string, k: nat)
    requires k < |s| && IsWhitespace(s[|s| - 1]) && AllWhitespace(s[..|s| - 1][k..])
    ensures s[..|s| - 1][..k] == s[..k]
    ensures AllWhitespace(s[k..])
  {
    assert s[k..] == s[..|s| - 1][k..] + [s[|s| - 1]];
    AllWhitespaceSnoc(s[..|s| - 1][k..], s[|s| - 1]);
  }

  /** `TrimStart` drops a whitespace prefix and stops at the first other character. */
  lemma {:induction false} TrimStartShape(s: string)
    ensures var r := TrimStart(s);
      |r| <= |s| && r == s[|s| - |r|..] && AllWhitespace(s[..|s| - |r|])
      && (r != [] ==> !IsWhitespace(r[0]))
    decreases |s|
  {
    if s != [] && IsWhitespace(s[0]) {
      var r := TrimStart(s[1..]);
      TrimStartShape(s[1..]);
      SkipStep(s, |s| - |r|);
    }
  }

  /** `TrimEnd` drops a whitespace suffix and stops at the last other character. */
  lemma {:induction false} TrimEndShape(s: string)
    ensures var r := TrimEnd(s);
      |r| <= |s| && r == s[..|r|] && AllWhitespace(s[|r|..])
      && (r != [] ==> !IsWhitespace(r[|r| - 1]))
    decreases |s|
  {
    if s != [] && IsWhitespace(s[|s| - 1]) {
      var r := TrimEnd(s[..|s| - 1]);
      TrimEndShape(s[..|s| - 1]);
      DropStep(s, |r|);
    }
  }

  /** `s.trim()`. */
  function Trim(s: string): string
  {
    TrimEnd(TrimStart(s))
  }

  /**
   * What `trim()` promises: the result is a factor of `s` with whitespace
   * only around it, and it neither starts nor ends with whitespace.
   */
  lemma TrimShape(s: string)
    ensures exists i, j ::
      (0 <= i <= j <= |s| && Trim(s) == s[i..j] && AllWhitespace(s[..i]) && AllWhitespace(s[j..]))
    ensures Trim(s) != [] ==> !IsWhitespace(Trim(s)[0]) && !IsWhitespace(Trim(s)[|Trim(s)| - 1])
  {
    var t := TrimStart(s);
    var u := TrimEnd(t);
    TrimStartShape(s);
    TrimEndShape(t);
    var i := |s| - |t|;
    var j := i + |u|;
    assert u == s[i..j];
    assert AllWhitespace(s[..i]);
    assert s[j..] == t[|u|..];
    assert AllWhitespace(s[j..]);
    assert u != [] ==> u[0] == t[0];
  }

  /** Trimming twice is trimming once. */
  lemma TrimIdempotent(s: string)
    ensures Trim(Trim(s)) == Trim(s)
  {
    var t := Trim(s);
    TrimShape(s);
    if t != [] {
      assert TrimStart(t) == t;
      assert TrimEnd(t) == t;
    }
  }

  /** A string trims to nothing exactly when it is all whitespace. */
  lemma {:induction false} TrimEmptyIffBlank(s: string)
    ensures Trim(s) == [] <==> AllWhitespace(s)
  {
    var t := TrimStart(s);
    TrimShape(s);
    if AllWhitespace(s) {
      TrimStartShape(s);
      assert AllWhitespace(t);
      TrimEndBlank(t);
    } else {
      var i :| 0 <= i < |s| && !IsWhitespace(s[i]);
      assert Trim(s) != [];
    }
  }

  lemma {:induction false} TrimEndBlank(s: string)
    requires AllWhitespace(s)
    ensures TrimEnd(s) == []
    decreases |s|
  {
    if s != [] {
      TrimEndBlank(s[..|s| - 1]);
    }
  }

  // ---------------------------------------------------------------- numbers

  /** The longest prefix of `s` made of decimal digits. */
  function LeadingDigits(s: string): (p: string)
    ensures |p| <= |s| && p == s[..|p|] && AllDigits(p)
    ensures |p| < |s| ==> !IsDigit(s[|p|])
  {
    if s == [] || !IsDigit(s[0]) then [] else [s[0]] + LeadingDigits(s[1..])
  }

  /** After an optional `+` or `-`, the rest of the string. */
  function Unsigned(t: string): string
  {
    if |t| > 0 && (t[0] == '-' || t[0] == '+') then t[1..] else t
  }

  function Signed(t: string, v: nat): int
  {
    if |t| > 0 && t[0] == '-' then -(v as int) else v
  }

  /**
   * `parseInt(s)` (radix 10): skip leading whitespace, read an optional sign
   * and then as many digits as there are; `None` is `NaN` (no digit at all).
   */
  function ParseInt(s: string): Option<int>
  {
    var t := TrimStart(s);
    var ds := LeadingDigits(Unsigned(t));
    if ds == [] then None else Some(Signed(t, DigitsValue(ds)))
  }

  /**
   * `Number(s)` as loose equality `n == s` uses it, for integer literals: the
   * trimmed string must be an optional sign followed by one or more digits.
   * `None` stands for `NaN`, which equals no number.
   */
  function LooseNumber(s: string): Option<int>
  {
    var t := Trim(s);
    var body := Unsigned(t);
    if body != [] && AllDigits(body) then Some(Signed(t, DigitsValue(body))) else None
  }

  /** Loose equality `n == s` between a number and a string. */
  predicate LooseEquals(n: int, s: string)
  {
    LooseNumber(s) == Some(n)
  }

  lemma {:induction false} LeadingDigitsOfDigits(d: string, rest: string)
    requires AllDigits(d)
    requires rest == [] || !IsDigit(rest[0])
    ensures LeadingDigits(d + rest) == d
    decreases |d|
  {
    if d != [] {
      assert (d + rest)[1..] == d[1..] + rest;
      LeadingDigitsOfDigits(d[1..], rest);
    }
  }

  lemma UnsignedAppend(t: string, rest: string, v: nat)
    requires t != []
    ensures Unsigned(t + rest) == Unsigned(t) + rest
    ensures Signed(t + rest, v) == Signed(t, v)
  {
    assert (t + rest)[0] == t[0];
    if t[0] == '-' || t[0] == '+' {
      assert (t + rest)[1..] == t[1..] + rest;
    }
  }

  /** Whenever `Number(s)` accepts a string, `parseInt(s)` reads the same integer from it. */
  lemma LooseNumberParses(s: string)
    requires LooseNumber(s).Some?
    ensures ParseInt(s) == LooseNumber(s)
  {
    var t0 := TrimStart(s);
    var t := TrimEnd(t0);
    TrimEndShape(t0);
    var rest := t0[|t|..];
    assert t0 == t + rest;
    var body := Unsigned(t);
    UnsignedAppend(t, rest, DigitsValue(body));
    if rest != [] {
      assert IsWhitespace(rest[0]);
      DigitNotWhitespace(rest[0]);
    }
    LeadingDigitsOfDigits(body, rest);
  }

  /** `String(i)` starts with a sign or a digit and has digits after the sign. */
  lemma IntToStringShape(i: int)
    ensures var s := IntToString(i);
      s != [] && !IsWhitespace(s[0]) && AllDigits(Unsigned(s)) && Unsigned(s) != []
      && DigitsValue(Unsigned(s)) == (if i < 0 then -i else i)
      && Signed(s, DigitsValue(Unsigned(s))) == i
  {
    var n: nat := if i < 0 then -i else i;
    NatToStringValue(n);
    var s := IntToString(i);
    if i < 0 {
      assert s[0] == '-';
      assert Unsigned(s) == NatToString(n);
    } else {
      assert IsDigit(s[0]);
      assert Unsigned(s) == NatToString(n);
    }
  }

  /** `parseInt(String(i)) == i`. */
  lemma ParseIntOfIntToString(i: int)
    ensures ParseInt(IntToString(i)) == Some(i)
  {
    var s := IntToString(i);
    IntToStringShape(i);
    assert TrimStart(s) == s;
    var ds := Unsigned(s);
    LeadingDigitsOfDigits(ds, []);
    assert ds + [] == ds;
  }

  /** A number loosely equals the text of a number exactly when they are the same number. */
  lemma LooseEqualsIntToString(n: int, i: int)
    ensures LooseEquals(n, IntToString(i)) <==> n == i
  {
    var s := IntToString(i);
    IntToStringShape(i);
    assert TrimStart(s) == s;
    assert IsDigit(s[|s| - 1]);
    DigitNotWhitespace(s[|s| - 1]);
    assert TrimEnd(s) == s;
    assert Trim(s) == s;
  }

  /** `String` is injective on integers. */
  lemma IntToStringInjective(a: int, b: int)
    ensures IntToString(a) == IntToString(b) <==> a == b
  {
    ParseIntOfIntToString(a);
    ParseIntOfIntToString(b);
  }
}
