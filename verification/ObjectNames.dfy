/** How log segments and annotation rows are named in the shared object store. */
module ObjectNames {
  import opened Text
  import opened Model

  const SLASH: byte := 47
  const DASH: byte := 45
  const SEG_EXT: Str := Ascii(".seg")
  const ANN_EXT: Str := Ascii(".ann")

  // ------------------------------------------------------------ hexadecimal digits

  function HexDigit(d: int): (c: byte)
    requires 0 <= d < 16
    ensures HexValue(c) == Some(d) && c != SLASH && c != DASH && c != 46
  {
    if d < 10 then 48 + d else 87 + d
  }

  /** Decoding accepts both cases; encoding writes lower case. */
  function HexValue(c: byte): (r: Option<int>)
    ensures r.Some? ==> 0 <= r.value < 16
  {
    if 48 <= c <= 57 then Some(c - 48)
    else if 97 <= c <= 102 then Some(c - 87)
    else if 65 <= c <= 70 then Some(c - 55)
    else None
  }

  /** hex.EncodeToString. */
  function HexEncode(s: Str): Str {
    if s == [] then [] else [HexDigit(s[0] / 16), HexDigit(s[0] % 16)] + HexEncode(s[1..])
  }

  /** hex.DecodeString. */
  function HexDecode(s: Str): Option<Str> {
    if s == [] then Some([])
    else if |s| == 1 then None
    else
      match (HexValue(s[0]), HexValue(s[1]), HexDecode(s[2..]))
      case (Some(hi), Some(lo), Some(rest)) => Some([16 * hi + lo] + rest)
      case _ => None
  }

  lemma {:induction false} HexRoundTrip(s: Str)
    ensures HexDecode(HexEncode(s)) == Some(s)
    ensures SLASH !in HexEncode(s) && 46 !in HexEncode(s)
  {
    if s != [] {
      var rest := HexEncode(s[1..]);
      var hi, lo := HexDigit(s[0] / 16), HexDigit(s[0] % 16);
      HexRoundTrip(s[1..]);
      assert HexEncode(s) == [hi, lo] + rest;
      DecodePair(hi, lo, rest);
      assert 16 * (s[0] / 16) + s[0] % 16 == s[0];
      assert s == [s[0]] + s[1..];
    }
  }

  lemma DecodePair(hi: byte, lo: byte, rest: Str)
    requires HexValue(hi).Some? && HexValue(lo).Some? && HexDecode(rest).Some?
    ensures HexDecode([hi, lo] + rest) == Some([16 * HexValue(hi).value + HexValue(lo).value] + HexDecode(rest).value)
  {
    assert ([hi, lo] + rest)[2..] == rest;
  }

  // ------------------------------------------------------------ prefixes and suffixes

  /** strings.TrimPrefix. */
  function TrimPrefix(s: Str, prefix: Str): Str {
    if |prefix| <= |s| && s[..|prefix|] == prefix then s[|prefix|..] else s
  }

  /** strings.TrimSuffix. */
  function TrimSuffix(s: Str, suffix: Str): Str {
    if |suffix| <= |s| && s[|s| - |suffix|..] == suffix then s[..|s| - |suffix|] else s
  }

  lemma Trimmed(a: Str, b: Str)
    ensures TrimPrefix(a + b, a) == b && TrimSuffix(a + b, b) == a
  {
  }

  // ------------------------------------------------------------ annotation rows

  function NameFor(prefix: Str, key: Str): Str {
    prefix + [SLASH] + HexEncode(key) + ANN_EXT
  }

  function KeyFromName(prefix: Str, name: Str): Option<Str> {
    var rest := TrimSuffix(TrimPrefix(name, prefix + [SLASH]), ANN_EXT);
    if rest == name || SLASH in rest then None else HexDecode(rest)
  }

  /** Any key, whatever its bytes, comes back from its object's name. */
  lemma NameRoundTrip(prefix: Str, key: Str)
    ensures KeyFromName(prefix, NameFor(prefix, key)) == Some(key)
  {
    hide HexEncode, HexDecode, TrimPrefix, TrimSuffix;
    var name, hex := NameFor(prefix, key), HexEncode(key);
    NameParts(prefix, hex);
    Trimmed(prefix + [SLASH], hex + ANN_EXT);
    Trimmed(hex, ANN_EXT);
    HexRoundTrip(key);
  }

  lemma NameParts(prefix: Str, hex: Str)
    ensures prefix + [SLASH] + hex + ANN_EXT == (prefix + [SLASH]) + (hex + ANN_EXT)
    ensures |hex| < |prefix + [SLASH] + hex + ANN_EXT|
  {
  }

  lemma DistinctKeysDistinctNames(prefix: Str, a: Str, b: Str)
    ensures NameFor(prefix, a) == NameFor(prefix, b) <==> a == b
  {
    NameRoundTrip(prefix, a);
    NameRoundTrip(prefix, b);
  }

  // ------------------------------------------------------------ log segments

  const SEQ_LIMIT: nat := 0x1_0000_0000_0000_0000

  function Pow16(w: nat): (p: nat)
    ensures p > 0
  {
    if w == 0 then 1 else 16 * Pow16(w - 1)
  }

  /** The last w hexadecimal digits of n, zero-padded. */
  function HexPad(n: nat, w: nat): (s: Str)
    ensures |s| == w
    ensures forall i :: 0 <= i < |s| ==> HexValue(s[i]).Some? && s[i] != SLASH && s[i] != DASH
  {
    if w == 0 then [] else HexPad(n / 16, w - 1) + [HexDigit(n % 16)]
  }

  /** The number a run of hexadecimal digits writes. */
  function ParseHex(s: Str): Option<nat> {
    if s == [] then Some(0)
    else
      match (ParseHex(s[..|s| - 1]), HexValue(s[|s| - 1]))
      case (Some(n), Some(d)) => Some(16 * n + d)
      case _ => None
  }

  /** strconv.ParseUint in base 16 and 64 bits. */
  function ParseUint(s: Str): Option<nat> {
    if s == [] then None
    else
      match ParseHex(s)
      case Some(n) => if n < SEQ_LIMIT then Some(n) else None
      case None => None
  }

  lemma {:induction false} HexPadValue(n: nat, w: nat)
    requires n < Pow16(w)
    ensures ParseHex(HexPad(n, w)) == Some(n)
  {
    if w > 0 {
      HexPadValue(n / 16, w - 1);
      assert HexPad(n, w)[..w - 1] == HexPad(n / 16, w - 1);
    }
  }

  lemma SixteenDigits()
    ensures Pow16(16) == SEQ_LIMIT
  {
    assert Pow16(4) == 0x1_0000;
    assert Pow16(8) == 0x1_0000_0000;
    assert Pow16(12) == 0x1_0000_0000_0000;
  }

  function SegmentName(tenant: Str, lo: nat, hi: nat): Str {
    tenant + [SLASH] + (HexPad(lo, 16) + [DASH] + HexPad(hi, 16)) + SEG_EXT
  }

  /** What follows the last slash, or the whole string. */
  function BaseName(s: Str): Str {
    if SLASH !in s then s
    else if s[|s| - 1] == SLASH then []
    else BaseName(s[..|s| - 1]) + [s[|s| - 1]]
  }

  /** The parts around the first dash. */
  function SplitDash(s: Str): Option<(Str, Str)> {
    if s == [] then None
    else if s[0] == DASH then Some(([], s[1..]))
    else
      match SplitDash(s[1..])
      case Some((a, b)) => Some(([s[0]] + a, b))
      case None => None
  }

  function ParseSegmentName(name: Str): Option<(nat, nat)> {
    match SplitDash(TrimSuffix(BaseName(name), SEG_EXT))
    case None => None
    case Some((a, b)) =>
      match (ParseUint(a), ParseUint(b))
      case (Some(lo), Some(hi)) => Some((lo, hi))
      case _ => None
  }

  lemma {:induction false} BaseNameOf(a: Str, b: Str)
    requires SLASH !in b
    ensures BaseName(a + [SLASH] + b) == b
  {
    var s := a + [SLASH] + b;
    assert s[|a|] == SLASH;
    if b != [] {
      var n := |b| - 1;
      assert s[..|s| - 1] == a + [SLASH] + b[..n];
      BaseNameOf(a, b[..n]);
      assert b == b[..n] + [b[n]];
      assert s[|s| - 1] == b[n];
    }
  }

  lemma {:induction false} SplitDashOf(a: Str, b: Str)
    requires DASH !in a
    ensures SplitDash(a + [DASH] + b) == Some((a, b))
  {
    var s := a + [DASH] + b;
    if a == [] {
      assert s[1..] == b;
    } else {
      assert s[1..] == a[1..] + [DASH] + b;
      SplitDashOf(a[1..], b);
      assert a == [a[0]] + a[1..];
    }
  }

  /** A segment's range comes back from its name, whatever the tenant's bytes. */
  lemma SegmentRoundTrip(tenant: Str, lo: nat, hi: nat)
    requires lo < SEQ_LIMIT && hi < SEQ_LIMIT
    ensures ParseSegmentName(SegmentName(tenant, lo, hi)) == Some((lo, hi))
  {
    var body := HexPad(lo, 16) + [DASH] + HexPad(hi, 16);
    var name := SegmentName(tenant, lo, hi);
    assert SLASH !in body;
    assert SLASH !in SEG_EXT;
    assert name == tenant + [SLASH] + (body + SEG_EXT);
    BaseNameOf(tenant, body + SEG_EXT);
    Trimmed(body, SEG_EXT);
    assert DASH !in HexPad(lo, 16);
    SplitDashOf(HexPad(lo, 16), HexPad(hi, 16));
    SixteenDigits();
    HexPadValue(lo, 16);
    HexPadValue(hi, 16);
  }

  // ------------------------------------------------------------ order of names

  lemma DigitsOrdered(a: int, b: int)
    requires 0 <= a < b < 16
    ensures HexDigit(a) < HexDigit(b)
  {
  }

  lemma {:induction false} LessWithCommonStart(p: Str, a: Str, b: Str)
    requires Less(a, b)
    ensures Less(p + a, p + b)
  {
    if p == [] {
      assert p + a == a && p + b == b;
    } else {
      LessWithCommonStart(p[1..], a, b);
      assert (p + a)[1..] == p[1..] + a && (p + b)[1..] == p[1..] + b;
    }
  }

  lemma {:induction false} LessExtends(a: Str, b: Str, x: Str, y: Str)
    requires Less(a, b) && |a| == |b|
    ensures Less(a + x, b + y)
  {
    if a[0] == b[0] {
      LessExtends(a[1..], b[1..], x, y);
      assert (a + x)[1..] == a[1..] + x && (b + y)[1..] == b[1..] + y;
    }
  }

  lemma {:induction false} PaddedOrder(m: nat, n: nat, w: nat)
    requires m < n < Pow16(w)
    ensures Less(HexPad(m, w), HexPad(n, w))
  {
    if w > 0 {
      if m / 16 < n / 16 {
        PaddedOrder(m / 16, n / 16, w - 1);
        LessExtends(HexPad(m / 16, w - 1), HexPad(n / 16, w - 1), [HexDigit(m % 16)], [HexDigit(n % 16)]);
      } else {
        DigitsOrdered(m % 16, n % 16);
        LessWithCommonStart(HexPad(m / 16, w - 1), [HexDigit(m % 16)], [HexDigit(n % 16)]);
      }
    }
  }

  /** The lexical order of a tenant's segment names is the order of their ranges. */
  lemma NameOrderIsSequenceOrder(tenant: Str, lo: nat, hi: nat, lo': nat, hi': nat)
    requires lo < lo' < SEQ_LIMIT
    ensures Less(SegmentName(tenant, lo, hi), SegmentName(tenant, lo', hi'))
  {
    hide HexPad, Less, SegmentName, AfterLow, Pow16;
    SixteenDigits();
    PaddedOrder(lo, lo', 16);
    LessExtends(HexPad(lo, 16), HexPad(lo', 16), AfterLow(hi), AfterLow(hi'));
    LessWithCommonStart(tenant + [SLASH], HexPad(lo, 16) + AfterLow(hi), HexPad(lo', 16) + AfterLow(hi'));
    NameAfterTenant(tenant, lo, hi);
    NameAfterTenant(tenant, lo', hi');
  }

  /** What follows the low end of the range in a segment's name. */
  function AfterLow(hi: nat): Str {
    [DASH] + HexPad(hi, 16) + SEG_EXT
  }

  lemma NameAfterTenant(tenant: Str, lo: nat, hi: nat)
    ensures SegmentName(tenant, lo, hi) == (tenant + [SLASH]) + (HexPad(lo, 16) + AfterLow(hi))
  {
  }
}
