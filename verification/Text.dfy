/** Byte strings, their lexical order, and the decimal numerals used as length
    prefixes by the speaker keys and by the canonical value encoding. */
module Text {

  /** One byte of a Go string. */
  type byte = x: int | 0 <= x < 256

  type Str = seq<byte>

  const ZERO: byte := 48 // '0'
  const NUL: byte := 0
  const COLON: byte := 58 // ':'
  const MINUS: byte := 45 // '-'
  const PLUS: byte := 43 // '+'

  /** The bytes of an ASCII literal. */
  function Ascii(s: string): Str {
    seq(|s|, i requires 0 <= i < |s| => if s[i] as int < 128 then s[i] as int else 63)
  }

  predicate IsDigit(c: byte) {
    ZERO <= c < ZERO + 10
  }

  ghost predicate AllDigits(s: Str) {
    forall i :: 0 <= i < |s| ==> IsDigit(s[i])
  }

  /** strconv.Itoa on a non-negative number. */
  function Itoa(n: nat): (s: Str)
    ensures |s| > 0 && AllDigits(s)
  {
    if n < 10 then [ZERO + n] else Itoa(n / 10) + [ZERO + n % 10]
  }

  /** strconv.Itoa and strconv.FormatInt on any integer. */
  function FormatInt(n: int): (s: Str) {
    if n < 0 then [MINUS] + Itoa(-n) else Itoa(n)
  }

  datatype Parsed = Number(n: int) | NotANumber

  /** The value of a run of digits, or NotANumber. */
  function ParseDigits(s: Str): (r: Parsed)
    ensures r.Number? ==> r.n >= 0
  {
    if s == [] || !IsDigit(s[|s| - 1]) then NotANumber
    else if |s| == 1 then Number(s[0] - ZERO)
    else
      match ParseDigits(s[..|s| - 1])
      case NotANumber => NotANumber
      case Number(m) => Number(10 * m + (s[|s| - 1] - ZERO))
  }

  /** strconv.Atoi. Go reports a value outside int64 as an error; every use below
      compares the number with the length of a string, where both outcomes agree. */
  function Atoi(s: Str): Parsed {
    if s != [] && s[0] == MINUS then
      match ParseDigits(s[1..])
      case NotANumber => NotANumber
      case Number(m) => Number(-m)
    else if s != [] && s[0] == PLUS then ParseDigits(s[1..])
    else ParseDigits(s)
  }

  lemma {:induction false} ParseItoa(n: nat)
    ensures ParseDigits(Itoa(n)) == Number(n)
  {
    if n >= 10 {
      ParseItoa(n / 10);
      assert Itoa(n)[..|Itoa(n)| - 1] == Itoa(n / 10);
    }
  }

  lemma AtoiItoa(n: nat)
    ensures Atoi(Itoa(n)) == Number(n)
  {
    ParseItoa(n);
    assert IsDigit(Itoa(n)[0]);
  }

  lemma ItoaInjective(m: nat, n: nat)
    requires Itoa(m) == Itoa(n)
    ensures m == n
  {
    ParseItoa(m);
    ParseItoa(n);
  }

  lemma FormatIntInjective(m: int, n: int)
    requires FormatInt(m) == FormatInt(n)
    ensures m == n
  {
    assert forall k: nat :: IsDigit(Itoa(k)[0]);
    if m < 0 && n < 0 {
      assert FormatInt(m)[1..] == Itoa(-m) && FormatInt(n)[1..] == Itoa(-n);
      ItoaInjective(-m, -n);
    } else if m >= 0 && n >= 0 {
      ItoaInjective(m, n);
    }
  }

  /** A digit run ends where the first non-digit stands, so what precedes a separator
      is determined by the whole string. */
  lemma DigitsBeforeSeparator(a: Str, b: Str, sep: byte, x: Str, y: Str)
    requires AllDigits(a) && AllDigits(b) && !IsDigit(sep)
    requires a + [sep] + x == b + [sep] + y
    ensures a == b && x == y
  {
    var s, t := a + [sep] + x, b + [sep] + y;
    assert forall i :: 0 <= i < |a| ==> s[i] == a[i] && IsDigit(s[i]);
    assert forall i :: 0 <= i < |b| ==> t[i] == b[i] && IsDigit(t[i]);
    assert s[|a|] == sep && t[|b|] == sep;
    assert a == s[..|a|] && b == t[..|b|];
    assert x == s[|a| + 1..] && y == t[|b| + 1..];
  }

  // ---------------------------------------------------------------- lexical order

  /** Go's string comparison: a < b. */
  predicate Less(a: Str, b: Str) {
    b != [] && (a == [] || a[0] < b[0] || (a[0] == b[0] && Less(a[1..], b[1..])))
  }

  lemma LessIrreflexive(a: Str)
    ensures !Less(a, a)
  {
    if a != [] {
      LessIrreflexive(a[1..]);
    }
  }

  lemma {:induction false} LessTransitive(a: Str, b: Str, c: Str)
    requires Less(a, b) && Less(b, c)
    ensures Less(a, c)
  {
    if a != [] && a[0] == b[0] == c[0] {
      LessTransitive(a[1..], b[1..], c[1..]);
    }
  }

  lemma {:induction false} LessTotal(a: Str, b: Str)
    ensures Less(a, b) || a == b || Less(b, a)
  {
    if a != [] && b != [] && a[0] == b[0] {
      LessTotal(a[1..], b[1..]);
      assert a == [a[0]] + a[1..] && b == [b[0]] + b[1..];
    }
  }

  /** Strictly increasing, hence free of duplicates. */
  ghost predicate Increasing(s: seq<Str>) {
    forall i, j :: 0 <= i < j < |s| ==> Less(s[i], s[j])
  }

  /** A strictly increasing sequence is determined by its elements. */
  lemma {:induction false} IncreasingUnique(s: seq<Str>, t: seq<Str>)
    requires Increasing(s) && Increasing(t)
    requires forall x :: x in s <==> x in t
    ensures s == t
  {
    assert forall i :: 0 <= i < |s| ==> s[i] in t;
    assert forall i :: 0 <= i < |t| ==> t[i] in s;
    if s != [] {
      var i :| 0 <= i < |t| && t[i] == s[0];
      var j :| 0 <= j < |s| && s[j] == t[0];
      LessIrreflexive(t[0]);
      if i != 0 && j != 0 {
        LessTransitive(t[0], s[0], t[0]);
        assert false;
      }
      assert s[0] == t[0];
      forall x
        ensures x in s[1..] <==> x in t[1..]
      {
        LessIrreflexive(s[0]);
        if x in s[1..] {
          assert x in s && x != s[0];
        }
        if x in t[1..] {
          assert x in t && x != t[0];
        }
      }
      IncreasingUnique(s[1..], t[1..]);
    }
  }
}
