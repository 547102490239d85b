/** The length-delimited framing of a segment: a four-byte big-endian length before each
    record. */
module SegmentFraming {
  import opened Text
  import opened Model

  const U32_LIMIT: nat := 0x1_0000_0000

  /** The four bytes of a length, which is first truncated to 32 bits. */
  function PutUint32(len: nat): (s: Str)
    ensures |s| == 4
  {
    var n := len % U32_LIMIT;
    [n / 0x100_0000, n / 0x1_0000 % 256, n / 256 % 256, n % 256]
  }

  function Uint32(s: Str): (n: nat)
    requires |s| == 4
    ensures n < U32_LIMIT
  {
    s[0] as int * 0x100_0000 + s[1] as int * 0x1_0000 + s[2] as int * 256 + s[3]
  }

  lemma LengthRoundTrip(len: nat)
    ensures Uint32(PutUint32(len)) == len % U32_LIMIT
  {
    var n := len % U32_LIMIT;
    var a, b := n / 256, n / 0x1_0000;
    assert n == 256 * a + n % 256;
    assert a / 256 == b && a == 256 * b + a % 256;
    assert b / 256 == n / 0x100_0000 && b == 256 * (n / 0x100_0000) + b % 256;
  }

  lemma BytesRoundTrip(s: Str)
    requires |s| == 4
    ensures PutUint32(Uint32(s)) == s
  {
    var a, b, c, d := s[0] as int, s[1] as int, s[2] as int, s[3] as int;
    var n := Uint32(s);
    FourBytes(n, a, b, c, d);
    assert s == [s[0], s[1], s[2], s[3]];
  }

  lemma FourBytes(n: nat, a: int, b: int, c: int, d: int)
    requires n == a * 0x100_0000 + b * 0x1_0000 + c * 256 + d
    requires 0 <= a < 256 && 0 <= b < 256 && 0 <= c < 256 && 0 <= d < 256
    ensures n / 0x100_0000 == a && n / 0x1_0000 % 256 == b && n / 256 % 256 == c && n % 256 == d
  {
    var x, y := a * 256 + b, (a * 256 + b) * 256 + c;
    LastByte(n, y, d);
    LastByte(y, x, c);
    LastByte(x, a, b);
    assert n / 256 == y && y / 256 == x && x / 256 == a;
    assert n / 0x1_0000 == n / 256 / 256 && n / 0x100_0000 == n / 256 / 256 / 256;
  }

  lemma LastByte(n: nat, rest: int, d: int)
    requires n == rest * 256 + d && 0 <= d < 256
    ensures n / 256 == rest && n % 256 == d
  {
  }

  function Frame(records: seq<Str>): Str {
    if records == [] then [] else PutUint32(|records[0]|) + records[0] + Frame(records[1..])
  }

  /** The records of a segment, or None when it is cut short. */
  function Unframe(data: Str): Option<seq<Str>>
    decreases |data|
  {
    if data == [] then Some([])
    else if |data| < 4 then None
    else
      var n := Uint32(data[..4]);
      if |data| - 4 < n then None
      else
        match Unframe(data[4 + n..])
        case Some(rest) => Some([data[4..4 + n]] + rest)
        case None => None
  }

  ghost predicate Fit(records: seq<Str>) {
    forall i :: 0 <= i < |records| ==> |records[i]| < U32_LIMIT
  }

  lemma FrameHead(r: Str, rest: Str)
    ensures var data := PutUint32(|r|) + r + rest;
            && |data| >= 4 && Uint32(data[..4]) == |r| % U32_LIMIT && |r| % U32_LIMIT <= |r|
            && data[4..4 + |r| % U32_LIMIT] == r[..|r| % U32_LIMIT]
            && (|r| < U32_LIMIT ==> data[4 + |r|..] == rest)
  {
    var data := PutUint32(|r|) + r + rest;
    assert data[..4] == PutUint32(|r|);
    LengthRoundTrip(|r|);
  }

  lemma UnframeFirst(r: Str, rest: Str)
    ensures var u := Unframe(PutUint32(|r|) + r + rest);
            && (|r| < U32_LIMIT ==> u == Prepended([r], Unframe(rest)))
            && (u.Some? ==> u.value != [] && |u.value[0]| < U32_LIMIT)
  {
    hide PutUint32, Uint32;
    FrameHead(r, rest);
    assert r[..|r|] == r;
  }

  /** A segment decodes to what was encoded exactly when every record's length fits its
      four bytes. */
  lemma {:induction false} FramingRoundTrip(records: seq<Str>)
    ensures Unframe(Frame(records)) == Some(records) <==> Fit(records)
  {
    hide PutUint32, Unframe, Fit;
    if records == [] {
      NoRecords();
    } else {
      var r, rest := records[0], records[1..];
      assert records == [r] + rest;
      FramingRoundTrip(rest);
      FrameCons(r, rest);
      UnframeFirst(r, Frame(rest));
      if |r| < U32_LIMIT && Unframe(Frame(rest)).Some? {
        assert ([r] + Unframe(Frame(rest)).value)[1..] == Unframe(Frame(rest)).value;
      }
    }
  }

  lemma NoRecords()
    ensures Unframe([]) == Some([]) && Fit([]) && Frame([]) == []
  {
  }

  /** Whatever decodes is the encoding of what it decodes to: no two byte strings hold the
      same records, and a cut-short or padded segment never passes for another. */
  lemma {:induction false} DecodedIsEncoding(data: Str)
    requires Unframe(data).Some?
    ensures Frame(Unframe(data).value) == data && Fit(Unframe(data).value)
    decreases |data|
  {
    if data == [] {
      NoRecords();
    } else {
      hide PutUint32, Uint32, Fit, Frame, Unframe;
      var rec, rest := FirstRecord(data);
      DecodedIsEncoding(rest);
      BytesRoundTrip(data[..4]);
      FrameCons(rec, Unframe(rest).value);
    }
  }

  lemma FirstRecord(data: Str) returns (rec: Str, rest: Str)
    requires Unframe(data).Some? && data != []
    ensures |data| >= 4 && |rest| < |data| && data == data[..4] + rec + rest && Uint32(data[..4]) == |rec|
    ensures Unframe(rest).Some? && Unframe(data).value == [rec] + Unframe(rest).value
  {
    hide Uint32;
    var n := Uint32(data[..4]);
    rec, rest := data[4..4 + n], data[4 + n..];
  }

  lemma FrameCons(rec: Str, records: seq<Str>)
    ensures Frame([rec] + records) == PutUint32(|rec|) + rec + Frame(records)
    ensures Fit([rec] + records) <==> |rec| < U32_LIMIT && Fit(records)
  {
    var all := [rec] + records;
    assert all[0] == rec && all[1..] == records;
    assert forall i :: 0 <= i < |records| ==> records[i] == all[i + 1];
  }

  lemma {:induction false} FrameConcat(a: seq<Str>, b: seq<Str>)
    ensures Frame(a + b) == Frame(a) + Frame(b)
  {
    if a == [] {
      assert a + b == b;
    } else {
      assert (a + b)[1..] == a[1..] + b;
      FrameConcat(a[1..], b);
    }
  }

  method EncodeSegment(records: seq<Str>) returns (buf: Str)
    ensures buf == Frame(records)
    ensures Fit(records) ==> Unframe(buf) == Some(records)
  {
    buf := [];
    for i := 0 to |records|
      invariant buf == Frame(records[..i])
    {
      assert records[..i + 1] == records[..i] + [records[i]];
      FrameConcat(records[..i], [records[i]]);
      assert Frame([records[i]]) == PutUint32(|records[i]|) + records[i];
      buf := buf + PutUint32(|records[i]|) + records[i];
    }
    assert records[..|records|] == records;
    FramingRoundTrip(records);
  }

  function Prepended(acc: seq<Str>, rest: Option<seq<Str>>): Option<seq<Str>> {
    match rest
    case Some(t) => Some(acc + t)
    case None => None
  }

  method DecodeSegment(segment: Str) returns (r: Option<seq<Str>>)
    ensures r == Unframe(segment)
    ensures r.Some? ==> Frame(r.value) == segment
  {
    var data, acc := segment, [];
    if Unframe(segment).Some? {
      assert [] + Unframe(segment).value == Unframe(segment).value;
    }
    while |data| > 0
      invariant Prepended(acc, Unframe(data)) == Unframe(segment)
      decreases |data|
    {
      if |data| < 4 {
        return None;
      }
      var n := Uint32(data[..4]);
      if |data| - 4 < n {
        return None;
      }
      var rec, rest := data[4..4 + n], data[4 + n..];
      if Unframe(rest).Some? {
        assert acc + ([rec] + Unframe(rest).value) == acc + [rec] + Unframe(rest).value;
      }
      acc, data := acc + [rec], rest;
    }
    assert acc + [] == acc;
    DecodedIsEncoding(segment);
    return Some(acc);
  }
}
