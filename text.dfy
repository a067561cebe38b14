/**
 * Character and text helpers shared by the C++ and Python parts of the model:
 * ASCII case folding and white space, comma splitting and joining, decimal
 * rendering of integers, C `atoi`, and fixed-point rendering of reals.
 */
module Text {

  // ---------------------------------------------------------------- characters

  predicate IsAsciiUpper(c: char) { 'A' <= c <= 'Z' }

  /** `tolower` in the "C" locale (and `str.lower` on ASCII text). */
  function AsciiLower(c: char): (r: char)
    ensures IsAsciiUpper(c) ==> r as int == c as int + 32
    ensures !IsAsciiUpper(c) ==> r == c
    ensures !IsAsciiUpper(r)
  {
    if IsAsciiUpper(c) then (c as int + 32) as char else c
  }

  function Lower(s: string): (r: string)
    ensures |r| == |s|
    ensures forall i :: 0 <= i < |s| ==> r[i] == AsciiLower(s[i])
  {
    if s == [] then [] else [AsciiLower(s[0])] + Lower(s[1..])
  }

  /** Lower-casing twice is lower-casing once. */
  lemma LowerIdempotent(s: string)
    ensures Lower(Lower(s)) == Lower(s)
  {
  }

  predicate IsDigit(c: char) { '0' <= c <= '9' }

  /** Python's `str.isspace` restricted to ASCII (used by `str.strip`). */
  predicate IsPySpace(c: char) { c as int in {9, 10, 11, 12, 13, 28, 29, 30, 31, 32} }

  /** C's `isspace` in the "C" locale (skipped by `atoi`). */
  predicate IsCSpace(c: char) { c as int in {9, 10, 11, 12, 13, 32} }

  function Count(s: string, c: char): (n: nat)
    ensures n <= |s|
    ensures n == 0 <==> c !in s
  {
    if s == [] then 0 else (if s[0] == c then 1 else 0) + Count(s[1..], c)
  }

  lemma {:induction false} CountAppend(a: string, b: string, c: char)
    ensures Count(a + b, c) == Count(a, c) + Count(b, c)
  {
    if a != [] {
      assert (a + b)[0] == a[0];
      assert (a + b)[1..] == a[1..] + b;
      CountAppend(a[1..], b, c);
    } else {
      assert a + b == b;
    }
  }

  // ---------------------------------------------------------------- strip

  function TrimStart(s: string): (r: string)
    ensures |r| <= |s| && r == s[|s| - |r|..]
    ensures r == [] || !IsPySpace(r[0])
    ensures forall i :: 0 <= i < |s| - |r| ==> IsPySpace(s[i])
  {
    if s != [] && IsPySpace(s[0]) then TrimStart(s[1..]) else s
  }

  function TrimEnd(s: string): (r: string)
    ensures |r| <= |s| && r == s[..|r|]
    ensures r == [] || !IsPySpace(r[|r| - 1])
    ensures forall i :: |r| <= i < |s| ==> IsPySpace(s[i])
  {
    if s != [] && IsPySpace(s[|s| - 1]) then TrimEnd(s[..|s| - 1]) else s
  }

  /** Python's `str.strip()` (ASCII white space): the longest infix that neither starts nor ends with a space. */
  function Strip(s: string): (r: string)
    ensures |r| <= |s|
    ensures r == [] || (!IsPySpace(r[0]) && !IsPySpace(r[|r| - 1]))
    ensures r == [] ==> forall i :: 0 <= i < |s| ==> IsPySpace(s[i])
    ensures exists i, j :: 0 <= i <= j <= |s| && r == s[i..j]
                           && (forall k :: 0 <= k < i ==> IsPySpace(s[k]))
                           && (forall k :: j <= k < |s| ==> IsPySpace(s[k]))
  {
    var t := TrimStart(s);
    var u := TrimEnd(t);
    StripInfix(s, t, u);
    u
  }

  /** The trimmed text is an infix of `s` whose surroundings are white space. */
  lemma StripInfix(s: string, t: string, u: string)
    requires |t| <= |s| && t == s[|s| - |t|..]
    requires forall i :: 0 <= i < |s| - |t| ==> IsPySpace(s[i])
    requires |u| <= |t| && u == t[..|u|]
    requires forall i :: |u| <= i < |t| ==> IsPySpace(t[i])
    ensures exists i, j :: 0 <= i <= j <= |s| && u == s[i..j]
                           && (forall k :: 0 <= k < i ==> IsPySpace(s[k]))
                           && (forall k :: j <= k < |s| ==> IsPySpace(s[k]))
  {
    var i := |s| - |t|;
    var j := i + |u|;
    assert u == s[i..j];
    forall k | j <= k < |s| ensures IsPySpace(s[k]) {
      assert s[k] == t[k - i];
    }
  }

  // ---------------------------------------------------------------- split / join

  /** Python's `s.split(sep)` with a one-character separator: never empty, pieces free of `sep`. */
  function Split(s: string, sep: char): (parts: seq<string>)
    ensures |parts| == Count(s, sep) + 1
    ensures forall k :: 0 <= k < |parts| ==> sep !in parts[k]
  {
    if s == [] then [[]]
    else
      var rest := Split(s[1..], sep);
      if s[0] == sep then [[]] + rest else [[s[0]] + rest[0]] + rest[1..]
  }

  /** `sep.join(parts)`; also how `<<` writes separated fields one after another. */
  function Join(parts: seq<string>, sep: char): string
  {
    if |parts| == 0 then []
    else if |parts| == 1 then parts[0]
    else parts[0] + [sep] + Join(parts[1..], sep)
  }

  lemma {:induction false} JoinSplit(s: string, sep: char)
    ensures Join(Split(s, sep), sep) == s
  {
    if s != [] {
      var rest := Split(s[1..], sep);
      JoinSplit(s[1..], sep);
      if s[0] == sep {
        assert Split(s, sep) == [[]] + rest;
        assert ([[]] + rest)[1..] == rest;
      } else {
        var parts := [[s[0]] + rest[0]] + rest[1..];
        assert Split(s, sep) == parts;
        if |rest| == 1 {
          assert Join(rest, sep) == rest[0];
        } else {
          assert parts[1..] == rest[1..];
          assert Join(rest, sep) == rest[0] + [sep] + Join(rest[1..], sep);
        }
      }
    }
  }

  lemma {:induction false} SplitJoin(parts: seq<string>, sep: char)
    requires |parts| >= 1
    requires forall k :: 0 <= k < |parts| ==> sep !in parts[k]
    ensures Split(Join(parts, sep), sep) == parts
  {
    if |parts| == 1 {
      SplitNoSep(parts[0], sep);
    } else {
      SplitJoin(parts[1..], sep);
      SplitPrefix(parts[0], Join(parts[1..], sep), sep);
      assert [parts[0]] + parts[1..] == parts;
    }
  }

  lemma {:induction false} SplitNoSep(s: string, sep: char)
    requires sep !in s
    ensures Split(s, sep) == [s]
  {
    if s != [] {
      SplitNoSep(s[1..], sep);
      assert s[0] != sep;
      assert [s[0]] + s[1..] == s;
    }
  }

  lemma {:induction false} SplitPrefix(a: string, b: string, sep: char)
    requires sep !in a
    ensures Split(a + [sep] + b, sep) == [a] + Split(b, sep)
  {
    if a == [] {
      assert [] + [sep] + b == [sep] + b;
      assert ([sep] + b)[1..] == b;
    } else {
      assert (a + [sep] + b)[1..] == a[1..] + [sep] + b;
      SplitPrefix(a[1..], b, sep);
      assert [a[0]] + a[1..] == a;
    }
  }

  /** Fields free of the separator are recovered exactly: a joined record has one more field than separators. */
  lemma JoinFieldCount(parts: seq<string>, sep: char)
    requires |parts| >= 1
    requires forall k :: 0 <= k < |parts| ==> sep !in parts[k]
    ensures |Split(Join(parts, sep), sep)| == |parts|
    ensures Count(Join(parts, sep), sep) == |parts| - 1
  {
    SplitJoin(parts, sep);
  }

  // ---------------------------------------------------------------- decimal numbers

  function DigitChar(d: nat): (c: char)
    requires d < 10
    ensures IsDigit(c) && c as int - '0' as int == d
  {
    ('0' as int + d) as char
  }

  predicate AllDigits(s: string) { forall i :: 0 <= i < |s| ==> IsDigit(s[i]) }

  /** `operator<<` on an unsigned integer. */
  function NatText(n: nat): (r: string)
    ensures r != [] && AllDigits(r)
  {
    if n < 10 then [DigitChar(n)] else NatText(n / 10) + [DigitChar(n % 10)]
  }

  /** `operator<<` on a signed integer. */
  function IntText(i: int): (r: string)
    ensures r != [] && ',' !in r && '\n' !in r
  {
    if i < 0 then "-" + NatText(-i) else NatText(i)
  }

  /** The value of a string of decimal digits. */
  function DigitsValue(ds: string): nat
    requires AllDigits(ds)
  {
    if ds == [] then 0 else DigitsValue(ds[..|ds| - 1]) * 10 + (ds[|ds| - 1] as int - '0' as int)
  }

  lemma {:induction false} DigitsValueNatText(n: nat)
    ensures DigitsValue(NatText(n)) == n
  {
    if n >= 10 {
      var t := NatText(n / 10) + [DigitChar(n % 10)];
      assert t[..|t| - 1] == NatText(n / 10);
      DigitsValueNatText(n / 10);
    }
  }

  /** The longest prefix of `s` made of digits. */
  function LeadingDigits(s: string): (r: string)
    ensures AllDigits(r) && r <= s
    ensures |r| < |s| ==> !IsDigit(s[|r|])
  {
    if s != [] && IsDigit(s[0]) then [s[0]] + LeadingDigits(s[1..]) else []
  }

  function SkipCSpace(s: string): (r: string)
    ensures |r| <= |s| && r == s[|s| - |r|..] && (r == [] || !IsCSpace(r[0]))
  {
    if s != [] && IsCSpace(s[0]) then SkipCSpace(s[1..]) else s
  }

  /**
   * C's `atoi`: leading white space, an optional sign, then the longest run of
   * digits; anything after it is ignored and no digits at all give 0.
   */
  function Atoi(s: string): int
  {
    var t := SkipCSpace(s);
    if t != [] && t[0] == '-' then -(DigitsValue(LeadingDigits(t[1..])) as int)
    else if t != [] && t[0] == '+' then DigitsValue(LeadingDigits(t[1..]))
    else DigitsValue(LeadingDigits(t))
  }

  lemma {:induction false} LeadingDigitsAll(s: string)
    requires AllDigits(s)
    ensures LeadingDigits(s) == s
  {
    if s != [] {
      LeadingDigitsAll(s[1..]);
    }
  }

  lemma AtoiDigits(t: string)
    requires t != [] && AllDigits(t)
    ensures Atoi(t) == DigitsValue(t)
  {
    assert IsDigit(t[0]);
    assert SkipCSpace(t) == t;
    LeadingDigitsAll(t);
  }

  lemma AtoiNegDigits(t: string)
    requires t != [] && AllDigits(t)
    ensures Atoi(['-'] + t) == -(DigitsValue(t) as int)
  {
    var u := ['-'] + t;
    assert SkipCSpace(u) == u;
    assert u[1..] == t;
    LeadingDigitsAll(t);
  }

  /** `atoi` reads back what `operator<<` writes for an integer. */
  lemma AtoiIntText(i: int)
    ensures Atoi(IntText(i)) == i
  {
    var n: nat := if i < 0 then -i else i;
    DigitsValueNatText(n);
    if i < 0 {
      assert IntText(i) == ['-'] + NatText(n);
      AtoiNegDigits(NatText(n));
    } else {
      AtoiDigits(NatText(n));
    }
  }

  lemma AtoiNoDigits(s: string)
    requires s == [] || !(IsCSpace(s[0]) || IsDigit(s[0]) || s[0] == '-' || s[0] == '+')
    ensures Atoi(s) == 0
  {
  }

  // ---------------------------------------------------------------- fixed point

  function Pow10(n: nat): (p: nat)
    ensures p >= 1
  {
    if n == 0 then 1 else 10 * Pow10(n - 1)
  }

  function PadLeft(s: string, width: nat): (r: string)
    requires AllDigits(s)
    ensures AllDigits(r) && |r| >= width && |r| >= |s|
    decreases width - |s|
  {
    if |s| >= width then s else PadLeft("0" + s, width)
  }

  predicate IsFixedChar(c: char) { IsDigit(c) || c == '-' || c == '.' }

  predicate FixedChars(s: string) { forall k :: 0 <= k < |s| ==> IsFixedChar(s[k]) }

  lemma FixedCharsConcat(a: string, b: string)
    requires FixedChars(a) && FixedChars(b)
    ensures FixedChars(a + b)
  {
    assert forall k :: 0 <= k < |b| ==> (a + b)[|a| + k] == b[k];
  }

  /** The point and the `places` fraction digits, zero-padded on the left. */
  function FractionText(units: nat, places: nat): (t: string)
    ensures FixedChars(t)
  {
    if places == 0 then []
    else
      var digits := PadLeft(NatText(units % Pow10(places)), places);
      FixedCharsConcat(".", digits);
      "." + digits
  }

  /** |r| scaled by 10^places and rounded half up: the digits `std::fixed` prints, without the point. */
  function ScaledUnits(r: real, places: nat): nat
  {
    var magnitude := if r < 0.0 then -r else r;
    var scaled: int := (magnitude * Pow10(places) as real + 0.5).Floor;
    if scaled < 0 then 0 else scaled
  }

  /**
   * `std::fixed` output with `places` digits after the point, rounding the
   * last digit half up. The text holds only digits, a sign and a point.
   */
  function FixedText(r: real, places: nat): (t: string)
    ensures t != []
    ensures FixedChars(t)
  {
    var units := ScaledUnits(r, places);
    var sign := if r < 0.0 then "-" else "";
    var ip := NatText(units / Pow10(places));
    var fp := FractionText(units, places);
    FixedCharsConcat(sign, ip);
    FixedCharsConcat(sign + ip, fp);
    sign + ip + fp
  }

  lemma FixedTextPlain(r: real, places: nat)
    ensures ',' !in FixedText(r, places) && '\n' !in FixedText(r, places)
  {
  }
}
