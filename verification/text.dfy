/** The few pieces of Python string handling the application relies on:
    decimal numerals and the `02d` format, the `H:MM:SS` and `MM:SS` clock
    strings, splitting at the last separator, whitespace splitting,
    ASCII lower-casing and `int()` on a single token. */
module Text {
  import opened Common

  predicate IsDigit(c: char) { '0' <= c <= '9' }

  predicate AllDigits(s: string) { forall i :: 0 <= i < |s| ==> IsDigit(s[i]) }

  function DigitValue(c: char): nat
    requires IsDigit(c)
  {
    (c as int) - ('0' as int)
  }

  function DigitChar(d: nat): (c: char)
    requires d < 10
    ensures IsDigit(c) && DigitValue(c) == d
  {
    (d + '0' as int) as char
  }

  /** The number a string of decimal digits denotes (leading zeros allowed). */
  function DigitsValue(s: string): nat
    requires AllDigits(s)
  {
    if s == [] then 0 else DigitsValue(s[..|s| - 1]) * 10 + DigitValue(s[|s| - 1])
  }

  /** Python's `str(n)` for a natural number: shortest decimal numeral. */
  function Decimal(n: nat): (s: string)
    ensures AllDigits(s)
    ensures |s| >= 1
    ensures n < 10 <==> |s| == 1
    ensures n < 100 ==> |s| <= 2
    ensures |s| > 1 ==> s[0] != '0'
  {
    if n < 10 then [DigitChar(n)] else Decimal(n / 10) + [DigitChar(n % 10)]
  }

  /** Reading a numeral back gives the number it was written from. */
  lemma {:induction false} DecimalRoundTrip(n: nat)
    ensures DigitsValue(Decimal(n)) == n
  {
    if n >= 10 {
      var s := Decimal(n);
      assert s[..|s| - 1] == Decimal(n / 10);
      DecimalRoundTrip(n / 10);
    }
  }

  /** A leading zero does not change the value of a numeral. */
  lemma {:induction false} LeadingZero(s: string)
    requires AllDigits(s)
    ensures DigitsValue(['0'] + s) == DigitsValue(s)
  {
    if s != [] {
      assert (['0'] + s)[..|s|] == ['0'] + s[..|s| - 1];
      LeadingZero(s[..|s| - 1]);
    }
  }

  /** Python's `format(n, '02d')`: at least two characters, zero-padded after the sign. */
  function Format02(n: int): (s: string)
    ensures n >= 0 ==> AllDigits(s) && |s| >= 2 && DigitsValue(s) == n
    ensures 0 <= n < 100 ==> |s| == 2
    ensures n < 0 ==> |s| >= 2 && s[0] == '-' && AllDigits(s[1..]) && DigitsValue(s[1..]) == -n
  {
    if n < 0 then
      DecimalRoundTrip(-n);
      assert (['-'] + Decimal(-n))[1..] == Decimal(-n);
      ['-'] + Decimal(-n)
    else if n < 10 then
      DecimalRoundTrip(n);
      LeadingZero(Decimal(n));
      ['0'] + Decimal(n)
    else
      DecimalRoundTrip(n);
      Decimal(n)
  }

  /** The `HH:MM:SS` display built from three fields. */
  function Clock3(h: int, m: int, sec: int): string
  {
    Format02(h) + ":" + Format02(m) + ":" + Format02(sec)
  }

  /** Reads an `H…H:MM:SS` display (hours of any width, two-digit minutes and seconds) back into its fields. */
  function ReadClock3(s: string): Option<(nat, nat, nat)>
  {
    if |s| >= 8 && s[|s| - 3] == ':' && s[|s| - 6] == ':'
       && AllDigits(s[..|s| - 6]) && AllDigits(s[|s| - 5..|s| - 3]) && AllDigits(s[|s| - 2..])
    then Some((DigitsValue(s[..|s| - 6]), DigitsValue(s[|s| - 5..|s| - 3]), DigitsValue(s[|s| - 2..])))
    else None
  }

  /** Reading an `HH:MM:SS` display gives back the fields it was written from. */
  lemma Clock3RoundTrip(h: int, m: int, sec: int)
    requires h >= 0 && 0 <= m < 100 && 0 <= sec < 100
    ensures ReadClock3(Clock3(h, m, sec)) == Some((h, m, sec))
  {
    var a, b, c := Format02(h), Format02(m), Format02(sec);
    var s := Clock3(h, m, sec);
    assert s == a + ":" + b + ":" + c;
    assert s[..|s| - 6] == a;
    assert s[|s| - 5..|s| - 3] == b;
    assert s[|s| - 2..] == c;
  }

  /** The hour, minute and second fields of a non-negative count of seconds
      are in range and add back up to the count. */
  lemma HmsFields(n: int)
    requires n >= 0
    ensures 0 <= (n % 3600) / 60 < 60 && 0 <= n % 60 < 60
    ensures (n / 3600) * 3600 + ((n % 3600) / 60) * 60 + n % 60 == n
  {
    var h, r := n / 3600, n % 3600;
    var m, s := r / 60, r % 60;
    assert n == h * 3600 + r;
    assert r == m * 60 + s;
    assert n == (h * 60 + m) * 60 + s;
  }

  /** The `HH:MM:SS` display of a non-negative count of seconds reads back
      as fields below 60 that add up to the count. */
  lemma HmsReadsBack(n: int)
    requires n >= 0
    ensures var c := ReadClock3(Clock3(n / 3600, (n % 3600) / 60, n % 60));
      && c.Some?
      && c.value.1 < 60 && c.value.2 < 60
      && c.value.0 * 3600 + c.value.1 * 60 + c.value.2 == n
  {
    var h, m, s := n / 3600, (n % 3600) / 60, n % 60;
    HmsFields(n);
    Clock3RoundTrip(h, m, s);
  }

  /** The `MM:SS` display of a non-negative count of seconds reads back as
      seconds below 60 and unbounded minutes that add up to the count. */
  lemma MsReadsBack(n: int)
    requires n >= 0
    ensures var c := ReadClock2(Clock2(n / 60, n % 60));
      && c.Some?
      && c.value.1 < 60
      && c.value.0 * 60 + c.value.1 == n
  {
    Clock2RoundTrip(n / 60, n % 60);
  }

  /** The `MM:SS` display built from two fields. */
  function Clock2(m: int, sec: int): string
  {
    Format02(m) + ":" + Format02(sec)
  }

  /** Reads an `M…M:SS` display (minutes of any width, two-digit seconds) back into its fields. */
  function ReadClock2(s: string): Option<(nat, nat)>
  {
    if |s| >= 5 && s[|s| - 3] == ':' && AllDigits(s[..|s| - 3]) && AllDigits(s[|s| - 2..])
    then Some((DigitsValue(s[..|s| - 3]), DigitsValue(s[|s| - 2..])))
    else None
  }

  /** Reading an `MM:SS` display gives back the fields it was written from. */
  lemma Clock2RoundTrip(m: int, sec: int)
    requires m >= 0 && 0 <= sec < 100
    ensures ReadClock2(Clock2(m, sec)) == Some((m, sec))
  {
    var a, c := Format02(m), Format02(sec);
    var s := Clock2(m, sec);
    assert s == a + ":" + c;
    assert s[..|s| - 3] == a;
    assert s[|s| - 2..] == c;
  }

  /** Python's `s.split(c)[-1]`, which is also `s.rsplit(c, 1)[1]` when `c` occurs:
      the text after the last `c`, or all of `s` when there is none. */
  function AfterLast(s: string, c: char): (r: string)
    ensures c !in r
    ensures |r| <= |s| && r == s[|s| - |r|..]
    ensures |r| < |s| ==> s[|s| - |r| - 1] == c
  {
    if s == [] then []
    else if s[|s| - 1] == c then []
    else
      var r := AfterLast(s[..|s| - 1], c);
      assert s[..|s| - 1][|s| - 1 - |r|..] + [s[|s| - 1]] == s[|s| - |r| - 1..];
      r + [s[|s| - 1]]
  }

  /** When `s[k]` is the last occurrence of `c`, the text after it is what `AfterLast` returns. */
  lemma AfterLastAt(s: string, c: char, k: nat)
    requires k < |s| && s[k] == c && c !in s[k + 1..]
    ensures AfterLast(s, c) == s[k + 1..]
  {
  }

  /** The text after a separator that does not occur again is what `AfterLast` returns. */
  lemma AfterLastAppended(x: string, c: char, tail: string)
    requires c !in tail
    ensures AfterLast(x + [c] + tail, c) == tail
  {
    var s := x + [c] + tail;
    assert s[|x|] == c && s[|x| + 1..] == tail;
    AfterLastAt(s, c, |x|);
  }

  /** Without any `c`, `AfterLast` keeps the whole string. */
  lemma AfterLastNone(s: string, c: char)
    requires c !in s
    ensures AfterLast(s, c) == s
  {
  }

  /** Lower-cases the ASCII letters; every other character is left alone. */
  function LowerChar(c: char): char
  {
    if 'A' <= c <= 'Z' then (c as int + 32) as char else c
  }

  function Lower(s: string): (r: string)
    ensures |r| == |s|
  {
    seq(|s|, i requires 0 <= i < |s| => LowerChar(s[i]))
  }

  /** Python's `str.isspace` for one character: the separators `str.split()` splits on. */
  predicate IsSpace(c: char)
  {
    var k := c as int;
    (9 <= k <= 13) || (28 <= k <= 32) || k == 0x85 || k == 0xA0 || k == 0x1680
    || (0x2000 <= k <= 0x200A) || k == 0x2028 || k == 0x2029 || k == 0x202F
    || k == 0x205F || k == 0x3000
  }

  /** Drops the leading whitespace of `s`. */
  function DropSpaces(s: string): (r: string)
    ensures |r| <= |s| && r == s[|s| - |r|..]
    ensures forall i :: 0 <= i < |s| - |r| ==> IsSpace(s[i])
    ensures r != [] ==> !IsSpace(r[0])
  {
    if s != [] && IsSpace(s[0]) then
      var r := DropSpaces(s[1..]);
      assert s[1..][|s| - 1 - |r|..] == s[|s| - |r|..];
      assert forall i :: 1 <= i < |s| - |r| ==> s[i] == s[1..][i - 1];
      r
    else s
  }

  /** The longest prefix of `s` without whitespace. */
  function TakeWord(s: string): (r: string)
    ensures |r| <= |s| && r == s[..|r|]
    ensures forall i :: 0 <= i < |r| ==> !IsSpace(r[i])
    ensures |r| < |s| ==> IsSpace(s[|r|])
  {
    if s != [] && !IsSpace(s[0]) then [s[0]] + TakeWord(s[1..]) else []
  }

  /** `w` is a whole word of `s` starting at `k` with only whitespace before it. */
  predicate FirstWordAt(s: string, k: nat, w: string)
  {
    && k + |w| <= |s|
    && (forall i :: 0 <= i < k ==> IsSpace(s[i]))
    && s[k..k + |w|] == w
    && (k + |w| < |s| ==> IsSpace(s[k + |w|]))
  }

  /** Python's `s.split()[0]`, or None where that indexing raises (no word at all). */
  function FirstWord(s: string): (r: Option<string>)
    ensures r.None? <==> forall i :: 0 <= i < |s| ==> IsSpace(s[i])
    ensures r.Some? ==> |r.value| > 0 && forall i :: 0 <= i < |r.value| ==> !IsSpace(r.value[i])
    ensures r.Some? ==> FirstWordAt(s, |s| - |DropSpaces(s)|, r.value)
  {
    var t := DropSpaces(s);
    if t == [] then None
    else
      WordAfterSpaces(s);
      Some(TakeWord(t))
  }

  /** Slicing a suffix is slicing the whole. */
  lemma SliceOfSuffix<X>(s: seq<X>, k: nat, n: nat)
    requires k + n <= |s|
    ensures s[k..][..n] == s[k..k + n]
  {
  }

  /** The word `TakeWord` finds after the leading whitespace is a whole word of `s`. */
  lemma WordAfterSpaces(s: string)
    requires DropSpaces(s) != []
    ensures FirstWordAt(s, |s| - |DropSpaces(s)|, TakeWord(DropSpaces(s)))
    ensures |TakeWord(DropSpaces(s))| > 0
  {
    var t := DropSpaces(s);
    var k := |s| - |t|;
    var w := TakeWord(t);
    SliceOfSuffix(s, k, |w|);
    if k + |w| < |s| {
      assert s[k + |w|] == t[|w|];
    }
  }

  /** A word followed by whitespace (or by nothing) is what `TakeWord` returns. */
  lemma {:induction false} TakeWordUntilSpace(x: string, y: string)
    requires forall i :: 0 <= i < |x| ==> !IsSpace(x[i])
    requires y != [] ==> IsSpace(y[0])
    ensures TakeWord(x + y) == x
  {
    if x != [] {
      assert (x + y)[1..] == x[1..] + y;
      TakeWordUntilSpace(x[1..], y);
    } else {
      assert x + y == y;
    }
  }

  /** `(x + y).split()[0] == x` for a word `x` followed by whitespace or nothing. */
  lemma FirstWordOf(x: string, y: string)
    requires x != [] && forall i :: 0 <= i < |x| ==> !IsSpace(x[i])
    requires y != [] ==> IsSpace(y[0])
    ensures FirstWord(x + y) == Some(x)
  {
    assert (x + y)[0] == x[0];
    assert DropSpaces(x + y) == x + y;
    TakeWordUntilSpace(x, y);
  }

  predicate NotUnderscore(c: char) { c != '_' }

  /** The digit groups Python's `int()` accepts: digits, single underscores only between digits. */
  predicate GroupedDigits(u: string)
  {
    && |u| > 0
    && IsDigit(u[0])
    && IsDigit(u[|u| - 1])
    && (forall i :: 0 <= i < |u| ==> IsDigit(u[i]) || u[i] == '_')
    && (forall i :: 0 <= i < |u| - 1 ==> u[i] == '_' ==> u[i + 1] != '_')
  }

  /** Python's `int(t)` for a token `t` that holds no whitespace and no '-':
      an optional '+' and ASCII digit groups; None where `int` raises. */
  function ParsePyInt(t: string): (r: Option<nat>)
    ensures r.Some? ==> |t| > 0 && (IsDigit(t[0]) || t[0] == '+')
  {
    var u := if t != [] && t[0] == '+' then t[1..] else t;
    if GroupedDigits(u) then
      var digits := Filter(u, NotUnderscore);
      assert AllDigits(digits) by {
        forall i | 0 <= i < |digits| ensures IsDigit(digits[i]) {
          assert digits[i] in digits;
        }
      }
      Some(DigitsValue(digits))
    else None
  }

  /** `int(str(n)) == n`. */
  lemma ParsePyIntDecimal(n: nat)
    ensures ParsePyInt(Decimal(n)) == Some(n)
  {
    ParsePlainDigits(Decimal(n));
    DecimalRoundTrip(n);
  }

  /** A plain run of digits parses to the number it denotes. */
  lemma ParsePlainDigits(s: string)
    requires |s| > 0 && AllDigits(s)
    ensures ParsePyInt(s) == Some(DigitsValue(s))
  {
    assert IsDigit(s[0]) && s[0] != '+';
    assert forall i :: 0 <= i < |s| ==> NotUnderscore(s[i]);
    assert GroupedDigits(s);
    FilterAll(s, NotUnderscore);
  }
}
