/** The identity alias index: speaker-asserted equivalences between identity values, and
    the references that keep assertions alive. */
module Aliases {
  import opened Text
  import opened Model

  /** When an assertion lapses; Never means it promised no refresh. */
  datatype Deadline = Never | By(t: Time)

  datatype Ref = Ref(deadline: Deadline, interval: int)

  /** References by speaker key. */
  type Refs = map<Str, Ref>

  /** a lapses no earlier than b. */
  predicate Outlasts(a: Deadline, b: Deadline) {
    match (a, b)
    case (Never, _) => true
    case (By(_), Never) => false
    case (By(x), By(y)) => y <= x
  }

  predicate Lapsed(r: Ref, now: Time) {
    r.deadline.By? && now > r.deadline.t
  }

  function Unlapsed(refs: Refs, now: Time): (r: Refs)
    ensures forall k :: k in r <==> k in refs && !Lapsed(refs[k], now)
    ensures forall k :: k in r ==> r[k] == refs[k]
  {
    map k | k in refs && !Lapsed(refs[k], now) :: refs[k]
  }

  /** One value of one identifying attribute. */
  datatype AliasKey = AliasKey(attr: Str, value: Str)

  /** This alias value is another name for this canonical value. */
  datatype Claim = Claim(alias: AliasKey, canonical: Str)

  datatype AliasIndex = AliasIndex(speakers: map<Claim, Refs>, byAlias: map<AliasKey, set<Str>>)

  const NO_ALIASES := AliasIndex(map[], map[])

  function Candidates(idx: AliasIndex, k: AliasKey): set<Str> {
    if k in idx.byAlias then idx.byAlias[k] else {}
  }

  function Record(idx: AliasIndex, claim: Claim, speaker: Str, ref: Ref): AliasIndex {
    var held := if claim in idx.speakers then idx.speakers[claim] else map[];
    AliasIndex(idx.speakers[claim := held[speaker := ref]],
               idx.byAlias[claim.alias := Candidates(idx, claim.alias) + {claim.canonical}])
  }

  lemma SingletonUnique(s: set<Str>, a: Str, b: Str)
    requires |s| == 1 && a in s && b in s
    ensures a == b
  {
    assert |s - {a}| == 0;
  }

  /** The unambiguous canonical value: any number of candidates but one resolves nothing. */
  function Resolve(idx: AliasIndex, k: AliasKey): (r: Option<Str>)
    ensures r.Some? <==> |Candidates(idx, k)| == 1
    ensures r.Some? ==> r.value in Candidates(idx, k)
  {
    var c := Candidates(idx, k);
    if |c| != 1 then None
    else
      assert forall a, b :: a in c && b in c ==> a == b by {
        forall a, b | a in c && b in c
          ensures a == b
        {
          SingletonUnique(c, a, b);
        }
      }
      var v :| v in c;
      Some(v)
  }

  /** The claims with no speaker left at now. */
  function Vanished(idx: AliasIndex, now: Time): set<Claim> {
    set c | c in idx.speakers && Unlapsed(idx.speakers[c], now) == map[]
  }

  function Sweep(idx: AliasIndex, now: Time): AliasIndex {
    var gone := Vanished(idx, now);
    AliasIndex(
      map c | c in idx.speakers && c !in gone :: Unlapsed(idx.speakers[c], now),
      map k | k in idx.byAlias && Left(idx.byAlias[k], k, gone) != {} :: Left(idx.byAlias[k], k, gone))
  }

  function Left(vals: set<Str>, k: AliasKey, gone: set<Claim>): set<Str> {
    set v | v in vals && Claim(k, v) !in gone
  }

  /** The alias of a Plain value, if it has an unambiguous one. */
  function Canonical(idx: AliasIndex, attr: Str, v: IdValue): Option<Str> {
    if v.Plain? then Resolve(idx, AliasKey(attr, v.text)) else None
  }

  /** Replace every unambiguously aliased value, or report that nothing changed. */
  function Substitute(idx: AliasIndex, ident: Identity): Option<Identity> {
    if forall k :: k in ident.keys ==> Canonical(idx, k, ident.keys[k]).None? then None
    else Some(Identity(ident.typ, map k | k in ident.keys :: Replaced(idx, k, ident.keys[k])))
  }

  function Replaced(idx: AliasIndex, attr: Str, v: IdValue): IdValue {
    match Canonical(idx, attr, v)
    case Some(c) => Plain(c)
    case None => v
  }

  /** The value of attr has c as its only canonical candidate. */
  ghost predicate SoleCandidate(idx: AliasIndex, attr: Str, v: IdValue, c: Str) {
    v.Plain? && Candidates(idx, AliasKey(attr, v.text)) == {c}
  }

  lemma CanonicalExact(idx: AliasIndex, attr: Str, v: IdValue)
    ensures forall c :: Canonical(idx, attr, v) == Some(c) <==> SoleCandidate(idx, attr, v, c)
  {
    if v.Plain? {
      var cs := Candidates(idx, AliasKey(attr, v.text));
      var r := Resolve(idx, AliasKey(attr, v.text));
      if r.Some? {
        assert cs == {r.value} by {
          forall x | x in cs
            ensures x == r.value
          {
            SingletonUnique(cs, x, r.value);
          }
        }
      }
    }
  }

  /** An identity is substituted exactly when one of its values has a single canonical candidate;
      then each such value is replaced by its candidate, and the others stay. */
  lemma SubstituteExact(idx: AliasIndex, ident: Identity)
    ensures Substitute(idx, ident).Some? <==> exists k, c :: k in ident.keys && SoleCandidate(idx, k, ident.keys[k], c)
    ensures Substitute(idx, ident).Some? ==>
              var sub := Substitute(idx, ident).value;
              && sub.typ == ident.typ && sub.keys.Keys == ident.keys.Keys
              && (forall k, c :: k in ident.keys && SoleCandidate(idx, k, ident.keys[k], c) ==> sub.keys[k] == Plain(c))
              && (forall k :: k in ident.keys && (forall c :: !SoleCandidate(idx, k, ident.keys[k], c)) ==>
                    sub.keys[k] == ident.keys[k])
  {
    hide SoleCandidate, Canonical;
    forall k | k in ident.keys
      ensures forall c :: Canonical(idx, k, ident.keys[k]) == Some(c) <==> SoleCandidate(idx, k, ident.keys[k], c)
    {
      CanonicalExact(idx, k, ident.keys[k]);
    }
    if Substitute(idx, ident).Some? {
      var k :| k in ident.keys && Canonical(idx, k, ident.keys[k]).Some?;
      assert SoleCandidate(idx, k, ident.keys[k], Canonical(idx, k, ident.keys[k]).value);
    }
  }

  /** What the index says of every alias, and all that resolution depends on. */
  ghost predicate SameMeaning(a: AliasIndex, b: AliasIndex) {
    forall k :: Candidates(a, k) == Candidates(b, k)
  }

  lemma SameSubstitutes(a: AliasIndex, b: AliasIndex, ident: Identity)
    requires SameMeaning(a, b)
    ensures Substitute(a, ident) == Substitute(b, ident)
  {
    forall k | k in ident.keys
      ensures Canonical(a, k, ident.keys[k]) == Canonical(b, k, ident.keys[k])
    {
      if ident.keys[k].Plain? {
        var key := AliasKey(k, ident.keys[k].text);
        assert Candidates(a, key) == Candidates(b, key);
        var x, y := Resolve(a, key), Resolve(b, key);
        if x.Some? {
          SingletonUnique(Candidates(a, key), x.value, y.value);
        }
      }
    }
    var m, n := Substitute(a, ident), Substitute(b, ident);
    if m.Some? {
      assert m.value.keys == n.value.keys;
    }
  }

  /** A sweep at which no claim loses its last speaker changes no answer. */
  lemma SweepKeepsMeaning(idx: AliasIndex, now: Time)
    requires Vanished(idx, now) == {}
    ensures SameMeaning(idx, Sweep(idx, now))
  {
    forall k
      ensures Candidates(idx, k) == Candidates(Sweep(idx, now), k)
    {
      if k in idx.byAlias {
        assert Left(idx.byAlias[k], k, {}) == idx.byAlias[k];
      }
    }
  }

  /** The candidates of an alias are exactly the claims someone speaks for. */
  ghost predicate Exact(idx: AliasIndex) {
    && (forall c :: c in idx.speakers <==> c.canonical in Candidates(idx, c.alias))
    && (forall k :: k in idx.byAlias ==> idx.byAlias[k] != {})
  }

  lemma RecordKeepsExact(idx: AliasIndex, claim: Claim, speaker: Str, ref: Ref)
    requires Exact(idx)
    ensures Exact(Record(idx, claim, speaker, ref))
  {
    var n := Record(idx, claim, speaker, ref);
    forall c
      ensures c in n.speakers <==> c.canonical in Candidates(n, c.alias)
    {
      assert c == claim <==> c.alias == claim.alias && c.canonical == claim.canonical;
    }
  }

  lemma SweepKeepsExact(idx: AliasIndex, now: Time)
    requires Exact(idx)
    ensures Exact(Sweep(idx, now))
    ensures forall c :: c in Sweep(idx, now).speakers ==> Sweep(idx, now).speakers[c] != map[]
  {
    var n := Sweep(idx, now);
    forall c
      ensures c in n.speakers <==> c.canonical in Candidates(n, c.alias)
    {
      assert Claim(c.alias, c.canonical) == c;
      assert c in idx.speakers <==> c.canonical in Candidates(idx, c.alias);
    }
  }
}
