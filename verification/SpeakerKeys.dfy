/** The key naming a speaker -- a producer and the collection method it spoke
    through -- in the liveness reference maps. */
module SpeakerKeys {
  import opened Text

  /** A scopeless producer keys on its own bytes unless they begin with the marker;
      anything else carries the marker, the producer's length, the marker, and both
      halves. */
  function RefKey(producer: Str, scope: Str): Str {
    if scope == [] && (producer == [] || producer[0] != NUL) then producer
    else [NUL] + Itoa(|producer|) + [NUL] + producer + scope
  }

  datatype Speaker = Speaker(producer: Str, scope: Str)

  /** strings.IndexByte: the first position of b, or -1. */
  function IndexByte(s: Str, b: byte): (i: int)
    ensures -1 <= i < |s|
    ensures i == -1 ==> forall k :: 0 <= k < |s| ==> s[k] != b
    ensures i >= 0 ==> s[i] == b && forall k :: 0 <= k < i ==> s[k] != b
  {
    if s == [] then -1
    else if s[0] == b then 0
    else
      var j := IndexByte(s[1..], b);
      if j < 0 then -1 else j + 1
  }

  function SplitRefKey(key: Str): Speaker {
    if key == [] || key[0] != NUL then Speaker(key, []) else
    var end := IndexByte(key[1..], NUL);
    if end < 0 then Speaker(key, []) else
    match Atoi(key[1..1 + end])
    case NotANumber => Speaker(key, [])
    case Number(n) =>
      if n < 0 || 1 + end + 1 + n > |key| then Speaker(key, []) else
      var body := key[1 + end + 1..];
      Speaker(body[..n], body[n..])
  }

  /** The marker cannot occur among the digits of the length. */
  lemma MarkerAfterDigits(digits: Str, rest: Str)
    requires AllDigits(digits)
    ensures IndexByte(digits + [NUL] + rest, NUL) == |digits|
  {
    var s := digits + [NUL] + rest;
    assert s[|digits|] == NUL;
    assert forall k :: 0 <= k < |digits| ==> s[k] == digits[k] && IsDigit(s[k]);
  }

  /** The encoded form decodes to its parts, whatever bytes they hold. */
  lemma SplitEncoded(digits: Str, producer: Str, scope: Str)
    requires AllDigits(digits) && Atoi(digits) == Number(|producer|)
    ensures SplitRefKey([NUL] + digits + [NUL] + producer + scope) == Speaker(producer, scope)
  {
    var body := producer + scope;
    var key := [NUL] + digits + [NUL] + producer + scope;
    assert key[1..] == digits + [NUL] + body;
    MarkerAfterDigits(digits, body);
    assert key[1..1 + |digits|] == digits;
    assert key[1 + |digits| + 1..] == body;
    assert body[..|producer|] == producer && body[|producer|..] == scope;
  }

  /** Speaker keys round-trip for every pair of byte strings, including a producer id
      that is itself a well-formed encoded key. */
  lemma SpeakerRoundTrip(producer: Str, scope: Str)
    ensures SplitRefKey(RefKey(producer, scope)) == Speaker(producer, scope)
  {
    AtoiItoa(|producer|);
    SplitEncoded(Itoa(|producer|), producer, scope);
  }

  /** Two speakers share a reference slot exactly when they are the same speaker. */
  lemma DistinctSpeakersDistinctKeys(p: Str, s: Str, q: Str, t: Str)
    ensures RefKey(p, s) == RefKey(q, t) <==> p == q && s == t
  {
    SpeakerRoundTrip(p, s);
    SpeakerRoundTrip(q, t);
  }

  /** Re-encoding a decoded key is the identity exactly on the keys the engine writes. */
  lemma ReencodeIffWritten(key: Str)
    ensures var d := SplitRefKey(key);
            RefKey(d.producer, d.scope) == key <==> exists p, s :: RefKey(p, s) == key
  {
    if p, s :| RefKey(p, s) == key {
      SpeakerRoundTrip(p, s);
    }
  }
}
