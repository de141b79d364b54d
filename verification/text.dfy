/** The few pieces of Rust's `str`/`char` behaviour the bot relies on:
    `trim`, `split(c).last()`, `split('\n')`, and `u32`/`f64` parsing. */
module Text {
  import opened Wrappers

  /** Rust's `char::is_whitespace`: the Unicode `White_Space` property. */
  predicate IsWhitespace(c: char) {
    c == ' ' || ('\t' <= c <= '\r') || c == '\U{0085}' || c == '\U{00A0}' || c == '\U{1680}'
    || ('\U{2000}' <= c <= '\U{200A}') || c == '\U{2028}' || c == '\U{2029}'
    || c == '\U{202F}' || c == '\U{205F}' || c == '\U{3000}'
  }

  /** `str::trim_start`: drops the leading whitespace and nothing else. */
  function TrimStart(s: string): (r: string)
    ensures |r| <= |s| && r == s[|s| - |r|..]
    ensures forall k :: 0 <= k < |s| - |r| ==> IsWhitespace(s[k])
    ensures r == [] || !IsWhitespace(r[0])
  {
    if s != [] && IsWhitespace(s[0]) then TrimStart(s[1..]) else s
  }

  /** `str::trim_end`: drops the trailing whitespace and nothing else. */
  function TrimEnd(s: string): (r: string)
    ensures |r| <= |s| && r == s[..|r|]
    ensures forall k :: |r| <= k < |s| ==> IsWhitespace(s[k])
    ensures r == [] || !IsWhitespace(r[|r| - 1])
  {
    if s != [] && IsWhitespace(s[|s| - 1]) then TrimEnd(s[..|s| - 1]) else s
  }

  /** `str::trim`: the part of `s` between its leading and its trailing whitespace. */
  function Trim(s: string): (r: string)
    ensures |r| <= |s|
    ensures r == [] || (!IsWhitespace(r[0]) && !IsWhitespace(r[|r| - 1]))
    ensures exists i, j ::
              && 0 <= i <= j <= |s| && r == s[i..j]
              && (forall k :: 0 <= k < i ==> IsWhitespace(s[k]))
              && (forall k :: j <= k < |s| ==> IsWhitespace(s[k]))
  {
    var start := TrimStart(s);
    var i := |s| - |start|;
    var r := TrimEnd(start);
    TrimSlice(s, start, r);
    r
  }

  /** What trim_start and then trim_end drop is whitespace on either side. */
  lemma TrimSlice(s: string, start: string, r: string)
    requires |start| <= |s| && start == s[|s| - |start|..]
    requires forall k :: 0 <= k < |s| - |start| ==> IsWhitespace(s[k])
    requires |r| <= |start| && r == start[..|r|]
    requires forall k :: |r| <= k < |start| ==> IsWhitespace(start[k])
    ensures var i := |s| - |start|;
      && i + |r| <= |s| && r == s[i..i + |r|]
      && (forall k :: 0 <= k < i ==> IsWhitespace(s[k]))
      && (forall k :: i + |r| <= k < |s| ==> IsWhitespace(s[k]))
  {
    var i := |s| - |start|;
    PrefixOfSuffix(s, i, start, r);
    forall k | i + |r| <= k < |s|
      ensures IsWhitespace(s[k])
    {
      assert s[k] == start[k - i];
    }
  }

  lemma PrefixOfSuffix(s: string, i: nat, start: string, r: string)
    requires i <= |s| && start == s[i..] && |r| <= |start| && r == start[..|r|]
    ensures r == s[i..i + |r|]
  {
  }

  /** Trimming yields the empty string exactly when the input is all whitespace. */
  lemma TrimEmptyIff(s: string)
    ensures Trim(s) == [] <==> forall k :: 0 <= k < |s| ==> IsWhitespace(s[k])
  {
    if forall k :: 0 <= k < |s| ==> IsWhitespace(s[k]) {
      TrimStartAllWhitespace(s);
    }
  }

  lemma {:induction false} TrimStartAllWhitespace(s: string)
    requires forall k :: 0 <= k < |s| ==> IsWhitespace(s[k])
    ensures TrimStart(s) == []
  {
    if s != [] {
      assert forall k :: 0 <= k < |s[1..]| ==> s[1..][k] == s[k + 1];
      TrimStartAllWhitespace(s[1..]);
    }
  }

  /** `s.split(sep).last().unwrap()`: the text after the last `sep`, or all of `s`
      when it holds none (`split` always yields at least one piece). */
  function AfterLast(s: string, sep: char): (r: string)
    ensures |r| <= |s| && r == s[|s| - |r|..]
    ensures sep !in r
    ensures r == s || s[|s| - |r| - 1] == sep
  {
    if s == [] then []
    else if s[|s| - 1] == sep then []
    else AfterLast(s[..|s| - 1], sep) + [s[|s| - 1]]
  }

  /** A character absent from `s` is absent from each of its suffixes. */
  lemma NotInSuffix(s: string, n: nat, c: char)
    requires c !in s && n <= |s|
    ensures c !in s[n..]
  {
  }

  lemma {:induction false} AfterLastNoSep(s: string, sep: char)
    requires sep !in s
    ensures AfterLast(s, sep) == s
  {
    if s != [] {
      AfterLastNoSep(s[..|s| - 1], sep);
    }
  }

  /** Whatever precedes the last separator plays no part in the result. */
  lemma {:induction false} AfterLastOfJoin(a: string, sep: char, b: string)
    requires sep !in b
    ensures AfterLast(a + [sep] + b, sep) == b
  {
    if b != [] {
      var s := a + [sep] + b;
      assert s[..|s| - 1] == a + [sep] + b[..|b| - 1];
      AfterLastOfJoin(a, sep, b[..|b| - 1]);
    }
  }

  /** `s.split(sep)` collected: the pieces between separators, at least one. */
  function Split(s: string, sep: char): (parts: seq<string>)
    ensures |parts| >= 1
    ensures forall i :: 0 <= i < |parts| ==> sep !in parts[i]
    ensures forall i, c :: 0 <= i < |parts| && c in parts[i] ==> c in s
  {
    if s == [] then [[]]
    else
      var rest := Split(s[1..], sep);
      assert forall c :: c in s[1..] ==> c in s;
      if s[0] == sep then [[]] + rest
      else [[s[0]] + rest[0]] + rest[1..]
  }

  /** `parts.join(sep)`: the parts with one separator between neighbours. */
  function JoinWith(parts: seq<string>, sep: char): (s: string)
    ensures |parts| == 1 ==> s == parts[0]
  {
    if |parts| == 0 then []
    else if |parts| == 1 then parts[0]
    else parts[0] + [sep] + JoinWith(parts[1..], sep)
  }

  /** Joining the pieces of a split gives back the text. */
  lemma {:induction false} SplitJoin(s: string, sep: char)
    ensures JoinWith(Split(s, sep), sep) == s
  {
    if s != [] {
      var rest := Split(s[1..], sep);
      SplitJoin(s[1..], sep);
      if s[0] == sep {
        assert ([[]] + rest)[1..] == rest;
      } else if |rest| == 1 {
        assert [s[0]] + rest[0] == s;
      } else {
        var parts := [[s[0]] + rest[0]] + rest[1..];
        assert parts[1..] == rest[1..];
        assert JoinWith(rest, sep) == rest[0] + [sep] + JoinWith(rest[1..], sep);
      }
    }
  }

  /** Text without the separator is one piece. */
  lemma {:induction false} SplitNoSep(a: string, sep: char)
    requires sep !in a
    ensures Split(a, sep) == [a]
  {
    if a != [] {
      SplitNoSep(a[1..], sep);
      assert [a[0]] + a[1..] == a;
    }
  }

  /** Text up to the first separator is the first piece. */
  lemma {:induction false} SplitFirst(a: string, sep: char, b: string)
    requires sep !in a
    ensures Split(a + [sep] + b, sep) == [a] + Split(b, sep)
  {
    var s := a + [sep] + b;
    if a == [] {
      assert s[0] == sep && s[1..] == b;
    } else {
      assert s[0] == a[0] && s[1..] == a[1..] + [sep] + b;
      SplitFirst(a[1..], sep, b);
      assert [a[0]] + a[1..] == a;
    }
  }

  /** Splitting a join of separator-free parts gives back the parts. */
  lemma {:induction false} SplitOfJoin(parts: seq<string>, sep: char)
    requires |parts| >= 1 && forall i :: 0 <= i < |parts| ==> sep !in parts[i]
    ensures Split(JoinWith(parts, sep), sep) == parts
  {
    if |parts| == 1 {
      SplitNoSep(parts[0], sep);
    } else {
      SplitOfJoin(parts[1..], sep);
      SplitFirst(parts[0], sep, JoinWith(parts[1..], sep));
      assert [parts[0]] + parts[1..] == parts;
    }
  }

  lemma JoinTwo(a: string, sep: char, b: string)
    ensures JoinWith([a, b], sep) == a + [sep] + b
  {
    assert [a, b][1..] == [b];
  }

  /** Appending a part appends a separator and the part. */
  lemma {:induction false} JoinWithSnoc(parts: seq<string>, sep: char, last: string)
    requires |parts| >= 1
    ensures JoinWith(parts + [last], sep) == JoinWith(parts, sep) + [sep] + last
  {
    if |parts| > 1 {
      assert (parts + [last])[1..] == parts[1..] + [last];
      JoinWithSnoc(parts[1..], sep, last);
    }
  }

  predicate IsDigit(c: char) {
    '0' <= c <= '9'
  }

  predicate AllDigits(s: string) {
    forall k :: 0 <= k < |s| ==> IsDigit(s[k])
  }

  /** The value of a string of decimal digits, most significant first. */
  function DigitsValue(s: string): nat
    requires AllDigits(s)
  {
    if s == [] then 0 else DigitsValue(s[..|s| - 1]) * 10 + (s[|s| - 1] as int - '0' as int)
  }

  function DigitChar(d: nat): (c: char)
    requires d < 10
    ensures IsDigit(c) && c as int - '0' as int == d
  {
    (d + '0' as int) as char
  }

  /** The shortest decimal spelling of `n` (Rust's `Display` for unsigned integers). */
  function Decimal(n: nat): (r: string)
    ensures r != [] && AllDigits(r)
  {
    if n < 10 then [DigitChar(n)] else Decimal(n / 10) + [DigitChar(n % 10)]
  }

  lemma {:induction false} DecimalValue(n: nat)
    ensures DigitsValue(Decimal(n)) == n
  {
    if n >= 10 {
      DecimalValue(n / 10);
      var r := Decimal(n);
      assert r[..|r| - 1] == Decimal(n / 10);
    }
  }

  /** `Decimal(n)` needs no more than `w` digits when `n < 10^w`. */
  lemma {:induction false} DecimalLength(n: nat, w: nat)
    requires n < Pow10(w)
    ensures |Decimal(n)| <= if w == 0 then 1 else w
  {
    if n >= 10 {
      DecimalLength(n / 10, w - 1);
    }
  }

  function Pow10(w: nat): (p: nat)
    ensures p >= 1
  {
    if w == 0 then 1 else 10 * Pow10(w - 1)
  }

  function Pow(b: nat, e: nat): (p: nat)
    ensures b >= 1 ==> p >= 1
  {
    if e == 0 then 1 else b * Pow(b, e - 1)
  }

  const U32_LIMIT: nat := 0x1_0000_0000

  /** Rust's `str::parse::<u32>()`: an optional `+` followed by one or more
      decimal digits whose value fits in 32 bits; anything else is an error. */
  function ParseU32(s: string): (r: Option<nat>)
    ensures r.Some? <==>
      || (s != [] && AllDigits(s) && DigitsValue(s) < U32_LIMIT)
      || (|s| >= 2 && s[0] == '+' && AllDigits(s[1..]) && DigitsValue(s[1..]) < U32_LIMIT)
    ensures r.Some? && s[0] == '+' ==> r.value == DigitsValue(s[1..])
    ensures r.Some? && s[0] != '+' ==> r.value == DigitsValue(s)
    ensures r.Some? ==> r.value < U32_LIMIT
    ensures r.Some? ==> s != [] && IsDigit(s[|s| - 1])
  {
    var digits := if s != [] && s[0] == '+' then s[1..] else s;
    if digits != [] && AllDigits(digits) && DigitsValue(digits) < U32_LIMIT
    then Some(DigitsValue(digits))
    else None
  }

  /** Every `u32` survives printing and parsing back. */
  lemma ParseU32Decimal(n: nat)
    requires n < U32_LIMIT
    ensures ParseU32(Decimal(n)) == Some(n)
  {
    DecimalValue(n);
  }

  function AsciiLower(c: char): char {
    if 'A' <= c <= 'Z' then (c as int + 32) as char else c
  }

  function AsciiLowercase(s: string): (r: string)
    ensures |r| == |s|
    ensures forall k :: 0 <= k < |s| ==> r[k] == AsciiLower(s[k])
  {
    if s == [] then [] else [AsciiLower(s[0])] + AsciiLowercase(s[1..])
  }

  /** Length of the run of decimal digits at the start of `s`. */
  function DigitRun(s: string): (n: nat)
    ensures n <= |s| && AllDigits(s[..n])
    ensures n == |s| || !IsDigit(s[n])
  {
    if s != [] && IsDigit(s[0]) then 1 + DigitRun(s[1..]) else 0
  }

  /** An exponent part: `e` or `E`, an optional sign, then at least one digit. */
  predicate IsExponent(s: string) {
    |s| >= 2 && (s[0] == 'e' || s[0] == 'E') &&
    var t := if s[1] == '+' || s[1] == '-' then s[2..] else s[1..];
    t != [] && AllDigits(t)
  }

  /** A literal cut into its leading digits, the digits after a `.` (if
      there is one), and what follows them. */
  function DecimalSplit(s: string): (r: (string, string, string))
    ensures AllDigits(r.0) && AllDigits(r.1)
  {
    var whole := DigitRun(s);
    var afterWhole := s[whole..];
    var hasDot := afterWhole != [] && afterWhole[0] == '.';
    var afterDot := if hasDot then afterWhole[1..] else afterWhole;
    var frac := if hasDot then DigitRun(afterDot) else 0;
    (s[..whole], afterDot[..frac], afterDot[frac..])
  }

  /** Digits, an optional `.` with more digits, at least one digit in all,
      and an optional exponent. */
  predicate IsDecimalFloat(s: string) {
    var parts := DecimalSplit(s);
    |parts.0| + |parts.1| > 0 && (parts.2 == [] || IsExponent(parts.2))
  }

  /** The strings Rust's `str::parse::<f64>()` accepts: an optional sign, then
      `inf`, `infinity` or `nan` in any ASCII case, or a decimal literal. */
  predicate IsF64Literal(s: string) {
    IsNonFiniteF64Literal(s) || IsDecimalFloat(UnsignedPart(s))
  }

  function UnsignedPart(s: string): string {
    if s != [] && (s[0] == '+' || s[0] == '-') then s[1..] else s
  }

  /** The spellings of infinity and NaN that `str::parse::<f64>()` accepts. */
  predicate IsNonFiniteF64Literal(s: string) {
    var lower := AsciiLowercase(UnsignedPart(s));
    lower == "inf" || lower == "infinity" || lower == "nan"
  }

  /** The signed value of an exponent part; 0 when there is none. */
  function ExponentValue(e: string): int {
    if !IsExponent(e) then 0
    else if e[1] == '-' then 0 - DigitsValue(e[2..]) as int
    else if e[1] == '+' then DigitsValue(e[2..])
    else DigitsValue(e[1..])
  }

  /** A decimal literal as digits × 10^scale: the digits before and after the
      point read as one integer, and the exponent less the number of digits
      after the point. */
  function DecimalFloatParts(s: string): (r: (nat, int))
    requires IsDecimalFloat(s)
  {
    var parts := DecimalSplit(s);
    var digits := parts.0 + parts.1;
    assert AllDigits(digits) by {
      assert forall k :: 0 <= k < |parts.0| ==> digits[k] == parts.0[k];
      assert forall k :: |parts.0| <= k < |digits| ==> digits[k] == parts.1[k - |parts.0|];
    }
    (DigitsValue(digits), ExponentValue(parts.2) - |parts.1|)
  }

  /** The least magnitude `str::parse::<f64>()` rounds to infinity: halfway
      between the largest finite `f64`, 2^1024 - 2^971, and 2^1024 (the tie
      goes to the even neighbour, which is infinity). */
  const F64_OVERFLOW: int := Pow(2, 1024) - Pow(2, 970)

  /** digits × 10^scale is at least the overflow threshold. */
  predicate RoundsToInfinity(digits: nat, scale: int) {
    if scale >= 0 then digits * Pow10(scale) >= F64_OVERFLOW
    else digits >= F64_OVERFLOW * Pow10(-scale)
  }

  /** The literals `str::parse::<f64>()` reads as an infinity or NaN: the
      spelled-out ones, and decimal literals too large for an `f64`. */
  predicate IsNonFiniteF64(s: string) {
    IsNonFiniteF64Literal(s)
    || (IsDecimalFloat(UnsignedPart(s))
        && var parts := DecimalFloatParts(UnsignedPart(s)); RoundsToInfinity(parts.0, parts.1))
  }

  lemma MulAssoc(x: int, y: int, z: int)
    ensures x * (y * z) == (x * y) * z
  {
  }

  lemma MulLe(x: nat, y: nat, z: nat)
    requires x <= y
    ensures x * z <= y * z
  {
  }

  lemma {:induction false} PowAdd(b: nat, m: nat, n: nat)
    ensures Pow(b, m + n) == Pow(b, m) * Pow(b, n)
  {
    if m > 0 {
      PowAdd(b, m - 1, n);
      assert Pow(b, m + n) == b * Pow(b, m - 1 + n);
      MulAssoc(b, Pow(b, m - 1), Pow(b, n));
    }
  }

  lemma {:induction false} PowMul(b: nat, m: nat, n: nat)
    ensures Pow(b, m * n) == Pow(Pow(b, m), n)
  {
    if n > 0 {
      PowMul(b, m, n - 1);
      assert m * n == m + m * (n - 1);
      PowAdd(b, m, m * (n - 1));
    }
  }

  lemma {:induction false} PowBase(a: nat, b: nat, n: nat)
    requires a <= b
    ensures Pow(a, n) <= Pow(b, n)
  {
    if n > 0 {
      PowBase(a, b, n - 1);
      MulLe(a, b, Pow(a, n - 1));
      MulLe(Pow(a, n - 1), Pow(b, n - 1), b);
    }
  }

  lemma PowExp(b: nat, m: nat, n: nat)
    requires b >= 1 && m <= n
    ensures Pow(b, m) <= Pow(b, n)
  {
    PowAdd(b, m, n - m);
    assert n == m + (n - m);
    MulLe(1, Pow(b, n - m), Pow(b, m));
  }

  lemma {:induction false} Pow10IsPow(n: nat)
    ensures Pow10(n) == Pow(10, n)
  {
    if n > 0 {
      Pow10IsPow(n - 1);
    }
  }

  /** b^q >= c^p carries over to b^(q k) >= c^(p k). */
  lemma PowRatio(b: nat, c: nat, q: nat, p: nat, k: nat)
    requires Pow(b, q) >= Pow(c, p)
    ensures Pow(b, q * k) >= Pow(c, p * k)
  {
    PowMul(b, q, k);
    PowMul(c, p, k);
    PowBase(Pow(c, p), Pow(b, q), k);
  }

  /** 10^n reaches the overflow threshold once n is 316 or more (10^4 >= 2^13,
      so 10^316 >= 2^1027). */
  lemma TenPowOverflows(n: nat)
    requires n >= 316
    ensures Pow10(n) >= F64_OVERFLOW
  {
    Pow10IsPow(n);
    PowExp(10, 316, n);
    Ten316();
    PowExp(2, 1024, 1027);
  }

  lemma Ten316()
    ensures Pow(10, 316) >= Pow(2, 1027)
  {
    Ten4();
    PowRatio(10, 2, 4, 13, 79);
  }

  lemma Ten4()
    ensures Pow(10, 4) >= Pow(2, 13)
  {
  }

  /** 10^w stays below the overflow threshold while w <= 300 (10^3 <= 2^10,
      so 10^300 <= 2^1000 < 2^1024 - 2^970). */
  lemma TenPowFinite(w: nat)
    requires w <= 300
    ensures Pow10(w) < F64_OVERFLOW
  {
    Pow10IsPow(w);
    PowExp(10, w, 300);
    Ten300();
    Pow2Gap();
  }

  lemma Ten300()
    ensures Pow(2, 1000) >= Pow(10, 300)
  {
    assert Pow(2, 10) >= Pow(10, 3);
    PowRatio(2, 10, 10, 3, 100);
  }

  /** 2^1000 < 2^1024 - 2^970. */
  lemma Pow2Gap()
    ensures Pow(2, 1000) < Pow(2, 1024) - Pow(2, 970)
  {
    var p := Pow(2, 970);
    PowAdd(2, 970, 30);
    PowAdd(2, 970, 54);
    PowAdd(2, 30, 24);
    PowExp(2, 1, 24);
    PowExp(2, 1, 30);
    PowExp(2, 0, 970);
    GapStep(p, Pow(2, 30), Pow(2, 24));
  }

  lemma GapStep(p: nat, x: nat, y: nat)
    requires p >= 1 && x >= 2 && y >= 2
    ensures p * x < p * (x * y) - p
  {
    MulLe(2, y, x);
    MulLe(2 * x, x * y, p);
    assert p * (2 * x) == 2 * (p * x);
    MulLe(2, x, p);
  }

  /** The digit run of digits followed by a non-digit is those digits. */
  lemma {:induction false} DigitRunOfJoin(a: string, b: string)
    requires AllDigits(a) && (b == [] || !IsDigit(b[0]))
    ensures DigitRun(a + b) == |a|
  {
    if a != [] {
      assert (a + b)[1..] == a[1..] + b;
      DigitRunOfJoin(a[1..], b);
    }
  }

  /** "1e" and digits split into the digit 1 and an exponent part. */
  lemma ExponentLiteralSplit(d: string)
    requires d != [] && AllDigits(d)
    ensures DecimalSplit("1e" + d) == ("1", [], "e" + d)
  {
    var s := "1e" + d;
    var e := "e" + d;
    assert s == "1" + e;
    DigitRunOfJoin("1", e);
    assert s[1..] == e && s[..1] == "1";
  }

  lemma OneValue()
    ensures AllDigits("1") && DigitsValue("1") == 1
  {
    assert "1"[..0] == [];
  }

  lemma ExponentOfDigits(d: string)
    requires d != [] && AllDigits(d)
    ensures IsExponent("e" + d) && ExponentValue("e" + d) == DigitsValue(d)
  {
    assert ("e" + d)[1..] == d;
  }

  /** The split of a literal determines its digits and scale. */
  lemma PartsOfSplit(s: string, w: string, f: string, e: string)
    requires IsDecimalFloat(s) && DecimalSplit(s) == (w, f, e)
    requires AllDigits(w + f)
    ensures DecimalFloatParts(s) == (DigitsValue(w + f), ExponentValue(e) - |f|)
  {
  }

  lemma ExponentLiteralDigits(d: string)
    requires d != [] && AllDigits(d) && IsDecimalFloat("1e" + d)
    ensures DecimalFloatParts("1e" + d).0 == 1
  {
    ExponentLiteralSplit(d);
    OneValue();
    var one: string := "1";
    assert one + [] == one;
    PartsOfSplit("1e" + d, one, [], "e" + d);
  }

  lemma ExponentLiteralScale(d: string)
    requires d != [] && AllDigits(d) && IsDecimalFloat("1e" + d)
    ensures DecimalFloatParts("1e" + d).1 == DigitsValue(d)
  {
    ExponentLiteralSplit(d);
    ExponentOfDigits(d);
  }

  /** "1e" and digits: the digit 1 scaled by the exponent the digits spell. */
  lemma ExponentLiteralParts(d: string)
    requires d != [] && AllDigits(d)
    ensures IsDecimalFloat("1e" + d) && UnsignedPart("1e" + d) == "1e" + d
    ensures DecimalFloatParts("1e" + d) == (1, DigitsValue(d))
  {
    ExponentLiteralSplit(d);
    ExponentOfDigits(d);
    ExponentLiteralDigits(d);
    ExponentLiteralScale(d);
  }

  /** Digits, a point and digits split at the point, with nothing after. */
  lemma PointLiteralSplit(whole: string, frac: string)
    requires AllDigits(whole) && AllDigits(frac)
    ensures DecimalSplit(whole + "." + frac) == (whole, frac, [])
  {
    var s := whole + "." + frac;
    assert s == whole + ("." + frac);
    DigitRunOfJoin(whole, "." + frac);
    assert s[|whole|..] == "." + frac && ("." + frac)[1..] == frac;
    assert s[..|whole|] == whole;
    DigitRunOfJoin(frac, []);
    assert frac + [] == frac;
  }

  /** A literal starting with a digit has no sign and is not spelled out. */
  lemma DigitFirstLiteral(s: string)
    requires s != [] && IsDigit(s[0])
    ensures UnsignedPart(s) == s && !IsNonFiniteF64Literal(s)
  {
    assert AsciiLowercase(s)[0] == s[0];
  }

  lemma AllDigitsJoin(a: string, b: string)
    requires AllDigits(a) && AllDigits(b)
    ensures AllDigits(a + b)
  {
    assert forall k :: 0 <= k < |a| ==> (a + b)[k] == a[k];
    assert forall k :: |a| <= k < |a + b| ==> (a + b)[k] == b[k - |a|];
  }

  /** Digits, a point and digits: all the digits read as one integer, scaled
      down by the number after the point. */
  lemma PointLiteralParts(whole: string, frac: string)
    requires whole != [] && AllDigits(whole) && AllDigits(frac)
    ensures var s := whole + "." + frac;
      && IsDecimalFloat(s) && UnsignedPart(s) == s && !IsNonFiniteF64Literal(s)
      && AllDigits(whole + frac) && DecimalFloatParts(s) == (DigitsValue(whole + frac), 0 - |frac|)
  {
    var s := whole + "." + frac;
    PointLiteralSplit(whole, frac);
    SplitIsDecimal(s, whole, frac);
    assert s[0] == whole[0];
    DigitFirstLiteral(s);
    AllDigitsJoin(whole, frac);
    PointParts(s, whole, frac);
  }

  lemma SplitIsDecimal(s: string, w: string, f: string)
    requires DecimalSplit(s) == (w, f, []) && w != []
    ensures IsDecimalFloat(s)
  {
  }

  /** Without an exponent, the scale is minus the number of digits after the point. */
  lemma PointParts(s: string, w: string, f: string)
    requires IsDecimalFloat(s) && DecimalSplit(s) == (w, f, [])
    requires AllDigits(w + f)
    ensures DecimalFloatParts(s) == (DigitsValue(w + f), 0 - |f|)
  {
    PartsOfSplit(s, w, f, []);
    assert ExponentValue([]) == 0;
  }

  /** A number of n digits is below 10^n. */
  lemma {:induction false} DigitsValueBound(s: string)
    requires AllDigits(s)
    ensures DigitsValue(s) < Pow10(|s|)
  {
    if s != [] {
      DigitsValueBound(s[..|s| - 1]);
    }
  }

  /** No character of `s` is one of `cs`. */
  predicate NoneOf(s: string, cs: set<char>) {
    forall k :: 0 <= k < |s| ==> s[k] !in cs
  }

  /** The index of the first character of `s` that is in `stops`, or `|s|`. */
  function FirstOf(s: string, stops: set<char>): (i: nat)
    ensures i <= |s| && NoneOf(s[..i], stops)
    ensures i < |s| ==> s[i] in stops
  {
    if s == [] || s[0] in stops then 0 else 1 + FirstOf(s[1..], stops)
  }

  /** A prefix free of stop characters is skipped over. */
  lemma {:induction false} FirstOfJoin(a: string, b: string, stops: set<char>)
    requires NoneOf(a, stops)
    ensures FirstOf(a + b, stops) == |a| + FirstOf(b, stops)
  {
    if a == [] {
      assert a + b == b;
    } else {
      assert (a + b)[0] == a[0];
      assert (a + b)[1..] == a[1..] + b;
      FirstOfJoin(a[1..], b, stops);
    }
  }

  /** `s` cut before its first character from `stops`. */
  function SplitAt(s: string, stops: set<char>): (r: (string, string))
    ensures r.0 + r.1 == s && NoneOf(r.0, stops)
    ensures r.1 == [] || r.1[0] in stops
  {
    var i := FirstOf(s, stops);
    assert s[..i] + s[i..] == s;
    (s[..i], s[i..])
  }

  lemma SplitAtJoin(a: string, b: string, stops: set<char>)
    requires NoneOf(a, stops) && (b == [] || b[0] in stops)
    ensures SplitAt(a + b, stops) == (a, b)
  {
    FirstOfJoin(a, b, stops);
    assert (a + b)[..|a|] == a && (a + b)[|a|..] == b;
  }

  /** `s` without its leading characters from `cs`. */
  function DropLeading(s: string, cs: set<char>): (r: string)
    ensures |r| <= |s| && r == s[|s| - |r|..]
    ensures r == [] || r[0] !in cs
  {
    if s != [] && s[0] in cs then DropLeading(s[1..], cs) else s
  }

  predicate EndsWith(s: string, suffix: string) {
    |suffix| <= |s| && s[|s| - |suffix|..] == suffix
  }

  predicate IsAsciiUpper(c: char) {
    'A' <= c <= 'Z'
  }

  lemma {:induction false} AsciiLowercaseOfLower(s: string)
    requires forall k :: 0 <= k < |s| ==> !IsAsciiUpper(s[k])
    ensures AsciiLowercase(s) == s
  {
    if s != [] {
      AsciiLowercaseOfLower(s[1..]);
    }
  }
}
