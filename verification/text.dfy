/** Text primitives of the pipeline: Python's `strip`, `lower`, `upper`,
    `' '.join`, `split(' ')`, `str(int)`, `int(text)`, `float(text)`,
    `int(x)` on a float (truncation) and `round(x)` (half to even).
    Characters are ASCII-only where Python would consult Unicode tables. */
module Text {
  import opened Wrappers

  // ---------------------------------------------------------------------
  // Characters

  /** ASCII characters for which Python's `str.isspace` holds. */
  predicate IsSpace(c: char) {
    c == ' ' || (9 <= c as int <= 13) || (28 <= c as int <= 31)
  }

  predicate IsDigit(c: char) {
    '0' <= c <= '9'
  }

  predicate AllDigits(s: string) {
    forall i :: 0 <= i < |s| ==> IsDigit(s[i])
  }

  function DigitValue(c: char): (d: nat)
    requires IsDigit(c)
    ensures d < 10
  {
    c as int - '0' as int
  }

  function DigitChar(d: nat): (c: char)
    requires d < 10
    ensures IsDigit(c) && DigitValue(c) == d
  {
    ('0' as int + d) as char
  }

  function LowerChar(c: char): char {
    if 'A' <= c <= 'Z' then (c as int + 32) as char else c
  }

  function UpperChar(c: char): char {
    if 'a' <= c <= 'z' then (c as int - 32) as char else c
  }

  /** `s.lower()` for ASCII letters. */
  function Lower(s: string): (r: string)
    ensures |r| == |s|
    ensures forall i :: 0 <= i < |s| ==> r[i] == LowerChar(s[i])
  {
    seq(|s|, i requires 0 <= i < |s| => LowerChar(s[i]))
  }

  /** `lower` works character by character, so it distributes over
      concatenation. */
  lemma LowerAppend(a: string, b: string)
    ensures Lower(a + b) == Lower(a) + Lower(b)
  {
    assert forall i :: 0 <= i < |a| ==> (a + b)[i] == a[i];
    assert forall i :: |a| <= i < |a| + |b| ==> (a + b)[i] == b[i - |a|];
  }

  /** A text with no upper-case ASCII letter is its own lower case. */
  lemma LowerNoUpper(s: string)
    requires forall i :: 0 <= i < |s| ==> !('A' <= s[i] <= 'Z')
    ensures Lower(s) == s
  {
  }

  /** Lowering neither adds nor removes a space. */
  lemma LowerKeepsSpaces(s: string)
    ensures ' ' in Lower(s) <==> ' ' in s
  {
    if ' ' in s {
      var i :| 0 <= i < |s| && s[i] == ' ';
      assert Lower(s)[i] == ' ';
    }
    if ' ' in Lower(s) {
      var i :| 0 <= i < |s| && Lower(s)[i] == ' ';
      assert s[i] == ' ';
    }
  }

  /** `s.upper()` for ASCII letters. */
  function Upper(s: string): (r: string)
    ensures |r| == |s|
    ensures forall i :: 0 <= i < |s| ==> r[i] == UpperChar(s[i])
  {
    seq(|s|, i requires 0 <= i < |s| => UpperChar(s[i]))
  }

  // ---------------------------------------------------------------------
  // strip()

  /** How many whitespace characters `s` starts with. */
  function LeadingSpaces(s: string): (n: nat)
    ensures n <= |s|
    ensures forall i :: 0 <= i < n ==> IsSpace(s[i])
    ensures n < |s| ==> !IsSpace(s[n])
  {
    if |s| > 0 && IsSpace(s[0]) then
      assert forall i :: 1 <= i < |s| ==> s[1..][i - 1] == s[i];
      1 + LeadingSpaces(s[1..])
    else 0
  }

  /** Where the whitespace `s` ends with begins. */
  function TrailingStart(s: string): (n: nat)
    ensures n <= |s|
    ensures forall i :: n <= i < |s| ==> IsSpace(s[i])
    ensures n > 0 ==> !IsSpace(s[n - 1])
  {
    if |s| > 0 && IsSpace(s[|s| - 1]) then TrailingStart(s[..|s| - 1]) else |s|
  }

  /** `s.strip()`: what lies between the leading and the trailing
      whitespace; nothing when `s` is all whitespace. */
  function Strip(s: string): string {
    var start := LeadingSpaces(s);
    var end := TrailingStart(s);
    if start < end then s[start..end] else ""
  }

  /** Stripping never adds a character: a character absent from `s` is
      absent from `Strip(s)`. */
  lemma StripKeepsAbsence(s: string, c: char)
    requires c !in s
    ensures c !in Strip(s)
  {
    var start := LeadingSpaces(s);
    var end := TrailingStart(s);
    if start < end {
      assert forall i :: 0 <= i < end - start ==> s[start..end][i] == s[start + i];
    }
  }

  /** `strip` leaves no whitespace at either end. */
  lemma StripEnds(s: string)
    ensures |Strip(s)| > 0 ==> !IsSpace(Strip(s)[0]) && !IsSpace(Strip(s)[|Strip(s)| - 1])
  {
    var start := LeadingSpaces(s);
    var end := TrailingStart(s);
    if start < end {
      assert Strip(s)[0] == s[start];
      assert Strip(s)[|Strip(s)| - 1] == s[end - 1];
    }
  }

  /** A text with no whitespace at either end is left alone by `strip`. */
  lemma StripNoOp(s: string)
    requires |s| > 0 ==> !IsSpace(s[0]) && !IsSpace(s[|s| - 1])
    ensures Strip(s) == s
  {
    if |s| > 0 {
      assert LeadingSpaces(s) == 0;
      assert TrailingStart(s) == |s|;
    }
  }

  // ---------------------------------------------------------------------
  // Decimal digits and str(int)

  /** The number a string of decimal digits denotes. */
  function DigitsValue(ds: string): nat
    requires AllDigits(ds)
  {
    if |ds| == 0 then 0 else DigitsValue(ds[..|ds| - 1]) * 10 + DigitValue(ds[|ds| - 1])
  }

  /** `str(n)` for a natural number: canonical decimal digits (no leading
      zero) that denote `n`. */
  function NatToString(n: nat): (s: string)
    ensures |s| > 0
  {
    if n < 10 then [DigitChar(n)] else NatToString(n / 10) + [DigitChar(n % 10)]
  }

  /** `str(n)` is canonical: decimal digits, no leading zero, denoting
      `n`. */
  lemma {:induction false} NatToStringDigits(n: nat)
    ensures AllDigits(NatToString(n))
    ensures DigitsValue(NatToString(n)) == n
    ensures NatToString(n)[0] == '0' ==> n == 0
  {
    if n >= 10 {
      NatToStringDigits(n / 10);
      var s := NatToString(n);
      assert s[..|s| - 1] == NatToString(n / 10);
    }
  }

  /** `str(n)` for an integer. */
  function IntToString(n: int): (s: string)
    ensures |s| > 0
  {
    if n < 0 then "-" + NatToString(-n) else NatToString(n)
  }

  /** `str(n)` is the canonical digits of `n`, after a minus sign when `n`
      is negative. */
  lemma IntToStringDigits(n: int)
    ensures n >= 0 ==> AllDigits(IntToString(n)) && DigitsValue(IntToString(n)) == n
    ensures n < 0 ==>
      var s := IntToString(n);
      s[0] == '-' && |s| > 1 && s[1..] == NatToString(-n) && AllDigits(s[1..]) && DigitsValue(s[1..]) == -n
  {
    if n < 0 {
      NatToStringDigits(-n);
      var s := IntToString(n);
      assert s[1..] == NatToString(-n);
    } else {
      NatToStringDigits(n);
    }
  }

  /** `str(n)` is made of digits and possibly a leading minus sign. */
  lemma IntToStringPlain(n: int)
    ensures forall i :: 0 <= i < |IntToString(n)| ==> IntToString(n)[i] == '-' || IsDigit(IntToString(n)[i])
    ensures IsDigit(IntToString(n)[|IntToString(n)| - 1])
  {
    var s := IntToString(n);
    IntToStringDigits(n);
    if n < 0 {
      assert forall i :: 1 <= i < |s| ==> s[1..][i - 1] == s[i];
    }
  }

  lemma IntToStringHasNoSpace(n: int)
    ensures ' ' !in IntToString(n)
  {
    IntToStringPlain(n);
  }

  // ---------------------------------------------------------------------
  // int(text) and float(text)

  /** `int(text)` with base 10: optional surrounding whitespace, an
      optional sign, then at least one decimal digit. */
  function ParseInt(text: string): (r: Option<int>)
    ensures r.Some? ==> |Strip(text)| > 0
    ensures AllDigits(Strip(text)) && |Strip(text)| > 0 ==> r == Some(DigitsValue(Strip(text)))
  {
    var t := Strip(text);
    if |t| > 0 && (t[0] == '-' || t[0] == '+') then
      var body := t[1..];
      if |body| > 0 && AllDigits(body) then
        var v: int := DigitsValue(body);
        Some(if t[0] == '-' then -v else v)
      else None
    else if |t| > 0 && AllDigits(t) then Some(DigitsValue(t))
    else None
  }

  /** Index of the first `c` in `s`, or `|s|` when there is none. */
  function IndexOf(s: string, c: char): (k: nat)
    ensures k <= |s|
    ensures k < |s| ==> s[k] == c
    ensures forall i :: 0 <= i < k ==> s[i] != c
  {
    if |s| == 0 then 0
    else if s[0] == c then 0
    else 1 + IndexOf(s[1..], c)
  }

  function Pow10(n: nat): (p: nat)
    ensures p > 0
  {
    if n == 0 then 1 else 10 * Pow10(n - 1)
  }

  /** An unsigned decimal numeral: digits with at most one '.', and at
      least one digit on one side of it ("12", "12.", ".5", "12.5"). */
  function ParseUnsignedDecimal(m: string): (r: Option<real>)
    ensures AllDigits(m) && |m| > 0 ==> r == Some(DigitsValue(m) as real)
    ensures r.Some? ==> r.value >= 0.0
  {
    var dot := IndexOf(m, '.');
    if dot == |m| then
      if |m| > 0 && AllDigits(m) then Some(DigitsValue(m) as real) else None
    else
      var whole := m[..dot];
      var fraction := m[dot + 1..];
      if AllDigits(whole) && AllDigits(fraction) && |whole| + |fraction| > 0 then
        Some(DigitsValue(whole) as real + DigitsValue(fraction) as real / Pow10(|fraction|) as real)
      else None
  }

  /** `float(text)` for decimal numerals: optional surrounding whitespace,
      an optional sign, then an unsigned decimal numeral. */
  function ParseFloat(text: string): (r: Option<real>)
  {
    var t := Strip(text);
    if |t| > 0 && (t[0] == '-' || t[0] == '+') then
      match ParseUnsignedDecimal(t[1..])
      case Some(v) => Some(if t[0] == '-' then -v else v)
      case None => None
    else ParseUnsignedDecimal(t)
  }

  /** `int(str(n)) == n`: the decimal rendering of an integer parses back
      to it. */
  lemma ParseIntOfIntToString(n: int)
    ensures ParseInt(IntToString(n)) == Some(n)
  {
    var s := IntToString(n);
    IntToStringDigits(n);
    IntToStringPlain(n);
    StripNoOp(s);
  }

  /** `float(str(n)) == n` for an integer `n`. */
  lemma ParseFloatOfIntToString(n: int)
    ensures ParseFloat(IntToString(n)) == Some(n as real)
  {
    var s := IntToString(n);
    IntToStringDigits(n);
    IntToStringPlain(n);
    StripNoOp(s);
    if n < 0 {
      assert ParseUnsignedDecimal(s[1..]) == Some((-n) as real);
    }
  }

  // ---------------------------------------------------------------------
  // int(x) and round(x) on numbers

  /** `int(x)` on a float: truncation toward zero. */
  function Trunc(x: real): (r: int)
    ensures 0.0 <= x ==> 0 <= r && r as real <= x < r as real + 1.0
    ensures x < 0.0 ==> r <= 0 && r as real - 1.0 < x <= r as real
  {
    if x >= 0.0 then x.Floor else -((-x).Floor)
  }

  /** `round(x)`: the nearest integer, ties going to the even one. */
  function RoundHalfEven(x: real): (r: int)
    ensures r as real - 0.5 <= x <= r as real + 0.5
    ensures (x == r as real - 0.5 || x == r as real + 0.5) ==> r % 2 == 0
  {
    var f := x.Floor;
    var d := x - f as real;
    if d < 0.5 then f
    else if d > 0.5 then f + 1
    else if f % 2 == 0 then f
    else f + 1
  }

  /** The two clauses of `RoundHalfEven`'s contract pin the result down:
      no other integer satisfies them. */
  lemma RoundHalfEvenUnique(x: real, n: int)
    requires n as real - 0.5 <= x <= n as real + 0.5
    requires (x == n as real - 0.5 || x == n as real + 0.5) ==> n % 2 == 0
    ensures n == RoundHalfEven(x)
  {
  }

  // ---------------------------------------------------------------------
  // ' '.join and split(' ')

  /** `n` copies of `x`. */
  function Repeat<T>(n: nat, x: T): (r: seq<T>)
    ensures |r| == n
    ensures forall i :: 0 <= i < n ==> r[i] == x
  {
    if n == 0 then [] else Repeat(n - 1, x) + [x]
  }

  /** `sep.join(xs)`. */
  function Join(xs: seq<string>, sep: char): string {
    if |xs| == 0 then ""
    else if |xs| == 1 then xs[0]
    else xs[0] + [sep] + Join(xs[1..], sep)
  }

  /** `s.split(sep)` with an explicit one-character separator: the fields
      between separators, empty ones included. */
  function Split(s: string, sep: char): (r: seq<string>)
    ensures |r| > 0
    decreases |s|
  {
    var k := IndexOf(s, sep);
    if k == |s| then [s] else [s[..k]] + Split(s[k + 1..], sep)
  }

  /** Joining one more field appends the separator and that field. */
  lemma {:induction false} JoinSnoc(xs: seq<string>, y: string, sep: char)
    requires |xs| > 0
    ensures Join(xs + [y], sep) == Join(xs, sep) + [sep] + y
    decreases |xs|
  {
    if |xs| > 1 {
      assert (xs + [y])[1..] == xs[1..] + [y];
      JoinSnoc(xs[1..], y, sep);
    }
  }

  /** Splitting a joined list gives the list back, empty fields included,
      provided no field contains the separator. */
  lemma {:induction false} SplitJoin(xs: seq<string>, sep: char)
    requires |xs| > 0
    requires forall i :: 0 <= i < |xs| ==> sep !in xs[i]
    ensures Split(Join(xs, sep), sep) == xs
    decreases |xs|
  {
    if |xs| == 1 {
      assert IndexOf(xs[0], sep) == |xs[0]|;
      assert Split(Join(xs, sep), sep) == [xs[0]];
    } else {
      var rest := Join(xs[1..], sep);
      var s := xs[0] + [sep] + rest;
      assert Join(xs, sep) == s;
      assert forall i :: 0 <= i < |xs[0]| ==> s[i] == xs[0][i];
      assert IndexOf(s, sep) == |xs[0]| by {
        IndexOfFirst(s, sep, |xs[0]|);
      }
      assert s[..|xs[0]|] == xs[0];
      assert s[|xs[0]| + 1..] == rest;
      assert Split(s, sep) == [xs[0]] + Split(rest, sep);
      SplitJoin(xs[1..], sep);
      assert xs == [xs[0]] + xs[1..];
    }
  }

  lemma {:induction false} IndexOfFirst(s: string, c: char, k: nat)
    requires k < |s| && s[k] == c
    requires forall i :: 0 <= i < k ==> s[i] != c
    ensures IndexOf(s, c) == k
    decreases k
  {
    if k > 0 {
      IndexOfFirst(s[1..], c, k - 1);
    }
  }
}
