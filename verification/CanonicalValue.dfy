/** Typed attribute values and their canonical, length-prefixed encoding, which the
    engine compares to decide whether an observation changed anything. */
module CanonicalValue {
  import opened Text

  /** A double is identified with its shortest decimal rendering, so all NaNs are one. */
  datatype Value =
    | Invalid
    | Text(s: Str)
    | Int(i: int)
    | Double(rendering: Str)
    | Bool(b: bool)
    | Array(elems: seq<Value>)
    | Kvlist(entries: seq<KeyValue>)

  datatype KeyValue = KeyValue(key: Str, value: Value)

  /** A kvlist entry whose value is already encoded. */
  datatype Entry = Entry(key: Str, code: Str)

  const TRUE_TEXT: Str := [116, 114, 117, 101]
  const FALSE_TEXT: Str := [102, 97, 108, 115, 101]

  function Tagged(tag: byte, body: Str): Str {
    [tag, COLON] + body
  }

  /** A string preceded by its length. */
  function Framed(c: Str): Str {
    Itoa(|c|) + [COLON] + c
  }

  function Frames(cs: seq<Str>): Str {
    if cs == [] then [] else Framed(cs[0]) + Frames(cs[1..])
  }

  /** Element count, then the framed parts. */
  function Counted(n: nat, cs: seq<Str>): Str {
    Itoa(n) + [COLON] + Frames(cs)
  }

  function Canonical(v: Value): Str
    decreases v, 1
  {
    match v
    case Invalid => Tagged(110, [])
    case Text(s) => Tagged(115, s)
    case Int(i) => Tagged(105, FormatInt(i))
    case Double(r) => Tagged(100, r)
    case Bool(b) => Tagged(98, if b then TRUE_TEXT else FALSE_TEXT)
    case Array(vs) => Tagged(97, Counted(|vs|, CanonicalAll(vs)))
    case Kvlist(kvs) => Tagged(107, Counted(|kvs|, Flatten(SortEntries(EncodeEntries(kvs)))))
  }

  function CanonicalAll(vs: seq<Value>): (cs: seq<Str>)
    ensures |cs| == |vs|
    ensures forall i :: 0 <= i < |vs| ==> cs[i] == Canonical(vs[i])
    decreases vs, 0
  {
    if vs == [] then [] else [Canonical(vs[0])] + CanonicalAll(vs[1..])
  }

  function EncodeEntries(kvs: seq<KeyValue>): (es: seq<Entry>)
    ensures |es| == |kvs|
    ensures forall i :: 0 <= i < |kvs| ==> es[i] == Entry(kvs[i].key, Canonical(kvs[i].value))
    decreases kvs, 0
  {
    if kvs == [] then [] else [Entry(kvs[0].key, Canonical(kvs[0].value))] + EncodeEntries(kvs[1..])
  }

  function Flatten(es: seq<Entry>): (cs: seq<Str>)
    ensures |cs| == 2 * |es|
    ensures forall i :: 0 <= i < |es| ==> cs[2 * i] == es[i].key && cs[2 * i + 1] == es[i].code
  {
    if es == [] then [] else [es[0].key, es[0].code] + Flatten(es[1..])
  }

  function InsertEntry(e: Entry, es: seq<Entry>): seq<Entry> {
    if es == [] || !Less(es[0].key, e.key) then [e] + es
    else [es[0]] + InsertEntry(e, es[1..])
  }

  function SortEntries(es: seq<Entry>): seq<Entry> {
    if es == [] then [] else InsertEntry(es[0], SortEntries(es[1..]))
  }

  // ------------------------------------------------------------ what a value denotes

  ghost predicate DistinctKeys(kvs: seq<KeyValue>) {
    forall i, j :: 0 <= i < j < |kvs| ==> kvs[i].key != kvs[j].key
  }

  /** No kvlist anywhere inside repeats a key, as event validation demands. */
  ghost predicate Wellformed(v: Value) {
    match v
    case Array(vs) => forall i :: 0 <= i < |vs| ==> Wellformed(vs[i])
    case Kvlist(kvs) => DistinctKeys(kvs) && forall i :: 0 <= i < |kvs| ==> Wellformed(kvs[i].value)
    case _ => true
  }

  /** Every entry of a has an entry of b with the same key and the same value. */
  ghost predicate Covered(a: seq<KeyValue>, b: seq<KeyValue>)
    decreases a, 0
  {
    forall i :: 0 <= i < |a| ==>
      exists j :: 0 <= j < |b| && a[i].key == b[j].key && Same(a[i].value, b[j].value)
  }

  /** Equality of values, reading a kvlist as a map: its order carries no meaning. */
  ghost predicate Same(v: Value, w: Value)
    decreases v, 1
  {
    match v
    case Array(vs) =>
      w.Array? && |vs| == |w.elems| && forall i :: 0 <= i < |vs| ==> Same(vs[i], w.elems[i])
    case Kvlist(kvs) =>
      w.Kvlist? && |kvs| == |w.entries| && Covered(kvs, w.entries)
    case _ => v == w
  }

  // ------------------------------------------------------------ framing is prefix-free

  lemma FramedSplit(c: Str, d: Str, x: Str, y: Str)
    requires Framed(c) + x == Framed(d) + y
    ensures c == d && x == y
  {
    assert Framed(c) + x == Itoa(|c|) + [COLON] + (c + x);
    assert Framed(d) + y == Itoa(|d|) + [COLON] + (d + y);
    DigitsBeforeSeparator(Itoa(|c|), Itoa(|d|), COLON, c + x, d + y);
    ItoaInjective(|c|, |d|);
    assert c == (c + x)[..|c|] && d == (d + y)[..|d|];
    assert x == (c + x)[|c|..] && y == (d + y)[|d|..];
  }

  lemma {:induction false} FramesInjective(cs: seq<Str>, ds: seq<Str>)
    requires |cs| == |ds| && Frames(cs) == Frames(ds)
    ensures cs == ds
  {
    if cs != [] {
      FramedSplit(cs[0], ds[0], Frames(cs[1..]), Frames(ds[1..]));
      FramesInjective(cs[1..], ds[1..]);
      assert cs == [cs[0]] + cs[1..] && ds == [ds[0]] + ds[1..];
    }
  }

  lemma CountedInjective(m: nat, cs: seq<Str>, n: nat, ds: seq<Str>)
    requires Counted(m, cs) == Counted(n, ds)
    requires m == n ==> |cs| == |ds|
    ensures m == n && cs == ds
  {
    DigitsBeforeSeparator(Itoa(m), Itoa(n), COLON, Frames(cs), Frames(ds));
    ItoaInjective(m, n);
    FramesInjective(cs, ds);
  }

  lemma TaggedInjective(t: byte, a: Str, u: byte, b: Str)
    requires Tagged(t, a) == Tagged(u, b)
    ensures t == u && a == b
  {
    assert Tagged(t, a)[0] == t && Tagged(u, b)[0] == u;
    assert a == Tagged(t, a)[2..] && b == Tagged(u, b)[2..];
  }

  lemma FlattenInjective(es: seq<Entry>, fs: seq<Entry>)
    requires Flatten(es) == Flatten(fs)
    ensures es == fs
  {
    assert |es| == |fs|;
    forall i | 0 <= i < |es|
      ensures es[i] == fs[i]
    {
      assert Flatten(es)[2 * i] == Flatten(fs)[2 * i];
      assert Flatten(es)[2 * i + 1] == Flatten(fs)[2 * i + 1];
    }
  }

  // ------------------------------------------------------------ sorting by key

  ghost predicate DistinctEntries(es: seq<Entry>) {
    forall i, j :: 0 <= i < j < |es| ==> es[i].key != es[j].key
  }

  ghost predicate SortedEntries(es: seq<Entry>) {
    forall i, j :: 0 <= i < j < |es| ==> Less(es[i].key, es[j].key)
  }

  lemma {:induction false} InsertEntrySorted(e: Entry, es: seq<Entry>)
    ensures |InsertEntry(e, es)| == |es| + 1
    ensures forall x :: x in InsertEntry(e, es) <==> x == e || x in es
    ensures SortedEntries(es) && (forall x :: x in es ==> x.key != e.key) ==> SortedEntries(InsertEntry(e, es))
  {
    if es == [] || !Less(es[0].key, e.key) {
      if SortedEntries(es) && (forall x :: x in es ==> x.key != e.key) {
        var r := [e] + es;
        forall i | 0 <= i < |es|
          ensures Less(e.key, es[i].key)
        {
          assert es[0] in es;
          LessTotal(es[0].key, e.key);
          if i > 0 {
            LessTransitive(e.key, es[0].key, es[i].key);
          }
        }
      }
    } else {
      InsertEntrySorted(e, es[1..]);
      var t := InsertEntry(e, es[1..]);
      assert InsertEntry(e, es) == [es[0]] + t;
      assert es == [es[0]] + es[1..];
      if SortedEntries(es) && (forall x :: x in es ==> x.key != e.key) {
        assert forall x :: x in es[1..] ==> x in es;
        assert SortedEntries(t);
        forall j | 0 <= j < |t|
          ensures Less(es[0].key, t[j].key)
        {
          assert t[j] in t;
        }
      }
    }
  }

  lemma {:induction false} SortEntriesCorrect(es: seq<Entry>)
    ensures |SortEntries(es)| == |es|
    ensures forall x :: x in SortEntries(es) <==> x in es
    ensures DistinctEntries(es) ==> SortedEntries(SortEntries(es))
  {
    if es != [] {
      SortEntriesCorrect(es[1..]);
      InsertEntrySorted(es[0], SortEntries(es[1..]));
      assert es == [es[0]] + es[1..];
      if DistinctEntries(es) {
        forall x | x in SortEntries(es[1..])
          ensures x.key != es[0].key
        {
          assert x in es[1..];
        }
      }
    }
  }

  /** Two sorted entry lists with the same entries are equal. */
  lemma {:induction false} SortedEntriesUnique(es: seq<Entry>, fs: seq<Entry>)
    requires SortedEntries(es) && SortedEntries(fs)
    requires forall x :: x in es <==> x in fs
    ensures es == fs
  {
    hide SortedEntries;
    if es == [] {
      SomeEntry(es);
      SomeEntry(fs);
    } else {
      assert es[0] in fs;
      SameFirstEntry(es, fs);
      TailEntries(es);
      TailEntries(fs);
      SortedEntriesUnique(es[1..], fs[1..]);
    }
  }

  lemma SomeEntry(es: seq<Entry>)
    ensures es != [] <==> exists x :: x in es
  {
    if es != [] {
      assert es[0] in es;
    }
  }

  /** The least entry leads both lists. */
  lemma SameFirstEntry(es: seq<Entry>, fs: seq<Entry>)
    requires SortedEntries(es) && SortedEntries(fs) && es != [] && fs != []
    requires forall x :: x in es <==> x in fs
    ensures es[0] == fs[0]
  {
    assert es[0] in fs && fs[0] in es;
    var i :| 0 <= i < |fs| && fs[i] == es[0];
    var j :| 0 <= j < |es| && es[j] == fs[0];
    LessIrreflexive(fs[0].key);
    if i != 0 && j != 0 {
      LessTransitive(fs[0].key, es[0].key, fs[0].key);
    }
  }

  lemma TailEntries(es: seq<Entry>)
    requires SortedEntries(es) && es != []
    ensures SortedEntries(es[1..]) && es == [es[0]] + es[1..]
    ensures forall x :: x in es[1..] <==> x in es && x != es[0]
  {
    LessIrreflexive(es[0].key);
    assert es == [es[0]] + es[1..];
  }

  // ------------------------------------------------------------ the main theorem

  /** On well-formed values, two encodings are equal exactly when the values are, where a
      kvlist counts as a map. */
  lemma {:induction false} CanonicalInjective(v: Value, w: Value)
    requires Wellformed(v) && Wellformed(w)
    ensures Canonical(v) == Canonical(w) <==> Same(v, w)
    decreases v, 1
  {
    if Canonical(v) == Canonical(w) {
      EqualCodesSame(v, w);
    }
    if Same(v, w) {
      SameEqualCodes(v, w);
    }
  }

  lemma {:induction false} EqualCodesSame(v: Value, w: Value)
    requires Wellformed(v) && Wellformed(w)
    requires Canonical(v) == Canonical(w)
    ensures Same(v, w)
    decreases v, 0
  {
    SameTag(v, w);
    match v
    case Array(vs) =>
      var ws := w.elems;
      TaggedInjective(97, Counted(|vs|, CanonicalAll(vs)), 97, Counted(|ws|, CanonicalAll(ws)));
      CountedInjective(|vs|, CanonicalAll(vs), |ws|, CanonicalAll(ws));
      forall i | 0 <= i < |vs|
        ensures Same(vs[i], ws[i])
      {
        assert CanonicalAll(vs)[i] == CanonicalAll(ws)[i];
        EqualCodesSame(vs[i], ws[i]);
      }
    case Kvlist(kvs) =>
      var kws := w.entries;
      SortEntriesCorrect(EncodeEntries(kvs));
      SortEntriesCorrect(EncodeEntries(kws));
      var fs, gs := Flatten(SortEntries(EncodeEntries(kvs))), Flatten(SortEntries(EncodeEntries(kws)));
      TaggedInjective(107, Counted(|kvs|, fs), 107, Counted(|kws|, gs));
      CountedInjective(|kvs|, fs, |kws|, gs);
      FlattenInjective(SortEntries(EncodeEntries(kvs)), SortEntries(EncodeEntries(kws)));
      forall i | 0 <= i < |kvs|
        ensures exists j :: 0 <= j < |kws| && kvs[i].key == kws[j].key && Same(kvs[i].value, kws[j].value)
      {
        assert EncodeEntries(kvs)[i] in EncodeEntries(kvs);
        assert EncodeEntries(kvs)[i] in EncodeEntries(kws);
        var j :| 0 <= j < |kws| && EncodeEntries(kws)[j] == EncodeEntries(kvs)[i];
        EqualCodesSame(kvs[i].value, kws[j].value);
      }
    case _ =>
      ScalarInjective(v, w);
  }

  function Tag(v: Value): byte {
    match v
    case Invalid => 110
    case Text(_) => 115
    case Int(_) => 105
    case Double(_) => 100
    case Bool(_) => 98
    case Array(_) => 97
    case Kvlist(_) => 107
  }

  lemma SameTag(v: Value, w: Value)
    requires Canonical(v) == Canonical(w)
    ensures Tag(v) == Tag(w)
  {
    assert Canonical(v)[0] == Tag(v) && Canonical(w)[0] == Tag(w);
  }

  lemma ScalarInjective(v: Value, w: Value)
    requires Canonical(v) == Canonical(w) && Tag(v) == Tag(w)
    requires !v.Array? && !v.Kvlist?
    ensures v == w
  {
    match v
    case Invalid =>
    case Text(s) => TaggedInjective(115, s, 115, w.s);
    case Int(i) =>
      TaggedInjective(105, FormatInt(i), 105, FormatInt(w.i));
      FormatIntInjective(i, w.i);
    case Double(r) => TaggedInjective(100, r, 100, w.rendering);
    case Bool(b) =>
      TaggedInjective(98, if b then TRUE_TEXT else FALSE_TEXT, 98, if w.b then TRUE_TEXT else FALSE_TEXT);
  }

  lemma {:induction false} SameEqualCodes(v: Value, w: Value)
    requires Wellformed(v) && Wellformed(w)
    requires Same(v, w)
    ensures Canonical(v) == Canonical(w)
    decreases v, 0
  {
    match v
    case Array(vs) =>
      forall i | 0 <= i < |vs|
        ensures Canonical(vs[i]) == Canonical(w.elems[i])
      {
        SameEqualCodes(vs[i], w.elems[i]);
      }
      assert CanonicalAll(vs) == CanonicalAll(w.elems);
    case Kvlist(kvs) =>
      var kws := w.entries;
      var es, fs := EncodeEntries(kvs), EncodeEntries(kws);
      forall i | 0 <= i < |kvs|
        ensures es[i] in fs
      {
        var j :| 0 <= j < |kws| && kvs[i].key == kws[j].key && Same(kvs[i].value, kws[j].value);
        SameEqualCodes(kvs[i].value, kws[j].value);
        assert es[i] == fs[j];
      }
      EqualLengthCover(es, fs);
      SortEntriesCorrect(es);
      SortEntriesCorrect(fs);
      SortedEntriesUnique(SortEntries(es), SortEntries(fs));
    case _ =>
  }

  /** Distinct entries covered by equally many distinct entries cover them in turn. */
  lemma EqualLengthCover(es: seq<Entry>, fs: seq<Entry>)
    requires |es| == |fs| && DistinctEntries(es) && DistinctEntries(fs)
    requires forall i :: 0 <= i < |es| ==> es[i] in fs
    ensures forall x :: x in es <==> x in fs
  {
    var a, b := set x | x in es, set x | x in fs;
    DistinctSize(es);
    DistinctSize(fs);
    assert a <= b;
    SubsetOfEqualSize(a, b);
    forall x
      ensures x in es <==> x in fs
    {
      assert x in es <==> x in a;
      assert x in fs <==> x in b;
    }
  }

  lemma {:induction false} DistinctSize(es: seq<Entry>)
    requires DistinctEntries(es)
    ensures |set x | x in es| == |es|
  {
    if es != [] {
      DistinctSize(es[1..]);
      var tail := set x | x in es[1..];
      assert es[0] !in tail;
      assert (set x | x in es) == tail + {es[0]};
    }
  }

  lemma SubsetOfEqualSize<T>(a: set<T>, b: set<T>)
    requires a <= b && |a| == |b|
    ensures a == b
  {
    assert |b - a| == |b| - |a|;
  }

  // ------------------------------------------------------------ attribute comparison

  /** The last value listed for each key, encoded: what two attribute lists are compared by. */
  function CanonMap(kvs: seq<KeyValue>): (m: map<Str, Str>)
    ensures forall k :: k in m <==> exists i :: 0 <= i < |kvs| && kvs[i].key == k
  {
    if kvs == [] then map[]
    else
      var init := kvs[..|kvs| - 1];
      var last := kvs[|kvs| - 1];
      assert forall i :: 0 <= i < |init| ==> init[i] == kvs[i];
      CanonMap(init)[last.key := Canonical(last.value)]
  }

  lemma {:induction false} CanonMapAt(kvs: seq<KeyValue>, i: nat)
    requires i < |kvs| && DistinctKeys(kvs)
    ensures CanonMap(kvs)[kvs[i].key] == Canonical(kvs[i].value)
  {
    var n := |kvs| - 1;
    if i < n {
      CanonMapAt(kvs[..n], i);
      assert kvs[i].key != kvs[n].key;
    }
  }

  /** Two attribute lists denote the same map. */
  ghost predicate SameAttributes(a: seq<KeyValue>, b: seq<KeyValue>) {
    Covered(a, b) && Covered(b, a)
  }

  ghost predicate WellformedList(kvs: seq<KeyValue>) {
    DistinctKeys(kvs) && forall i :: 0 <= i < |kvs| ==> Wellformed(kvs[i].value)
  }

  /** m agrees with n wherever it is defined. */
  predicate Within(m: map<Str, Str>, n: map<Str, Str>) {
    forall k :: k in m ==> k in n && m[k] == n[k]
  }

  lemma CoveredWithin(a: seq<KeyValue>, b: seq<KeyValue>)
    requires WellformedList(a) && WellformedList(b) && Covered(a, b)
    ensures Within(CanonMap(a), CanonMap(b))
  {
    forall k | k in CanonMap(a)
      ensures k in CanonMap(b) && CanonMap(a)[k] == CanonMap(b)[k]
    {
      var i :| 0 <= i < |a| && a[i].key == k;
      var j :| 0 <= j < |b| && a[i].key == b[j].key && Same(a[i].value, b[j].value);
      CanonMapAt(a, i);
      CanonMapAt(b, j);
      CanonicalInjective(a[i].value, b[j].value);
    }
  }

  lemma WithinCovered(a: seq<KeyValue>, b: seq<KeyValue>)
    requires WellformedList(a) && WellformedList(b) && Within(CanonMap(a), CanonMap(b))
    ensures Covered(a, b)
  {
    forall i | 0 <= i < |a|
      ensures exists j :: 0 <= j < |b| && a[i].key == b[j].key && Same(a[i].value, b[j].value)
    {
      assert a[i].key in CanonMap(a);
      var j :| 0 <= j < |b| && b[j].key == a[i].key;
      CanonMapAt(a, i);
      CanonMapAt(b, j);
      CanonicalInjective(a[i].value, b[j].value);
    }
  }

  /** The keys whose encoded value differs, in either direction. */
  function ChangedKeys(before: map<Str, Str>, after: map<Str, Str>): set<Str> {
    (set k | k in after && (k !in before || before[k] != after[k])) + (before.Keys - after.Keys)
  }

  lemma UnchangedIffWithin(before: map<Str, Str>, after: map<Str, Str>)
    ensures ChangedKeys(before, after) == {} <==> Within(before, after) && Within(after, before)
    ensures ChangedKeys(before, after) == {} <==> before == after
  {
    var d := ChangedKeys(before, after);
    assert forall k :: k in after && (k !in before || before[k] != after[k]) ==> k in d;
    assert forall k :: k in before && k !in after ==> k in d;
    if before == after {
      assert forall k :: k !in d;
    }
  }

  /** diffAttributes reports no change exactly when the two lists denote the same map. */
  lemma NoChangeIffSameMap(a: seq<KeyValue>, b: seq<KeyValue>)
    requires WellformedList(a) && WellformedList(b)
    ensures ChangedKeys(CanonMap(a), CanonMap(b)) == {} <==> SameAttributes(a, b)
  {
    UnchangedIffWithin(CanonMap(a), CanonMap(b));
    if SameAttributes(a, b) {
      CoveredWithin(a, b);
      CoveredWithin(b, a);
    } else if Within(CanonMap(a), CanonMap(b)) && Within(CanonMap(b), CanonMap(a)) {
      WithinCovered(a, b);
      WithinCovered(b, a);
      assert false;
    }
  }

  /** The operational keys whose change makes a state change. */
  method DiffAttributes(before: seq<KeyValue>, after: seq<KeyValue>, stateKeys: set<Str>)
    returns (changed: seq<Str>, stateChanged: bool)
    ensures (set k | k in changed) == ChangedKeys(CanonMap(before), CanonMap(after))
    ensures stateChanged <==> ChangedKeys(CanonMap(before), CanonMap(after)) * stateKeys != {}
  {
    var om := BuildCanonMap(before);
    var nm := BuildCanonMap(after);
    changed := [];
    var todo := nm.Keys;
    while todo != {}
      invariant todo <= nm.Keys
      invariant forall k :: k in changed <==> k in nm && k !in todo && (k !in om || om[k] != nm[k])
      decreases todo
    {
      var k :| k in todo;
      if k !in om || om[k] != nm[k] {
        changed := changed + [k];
      }
      todo := todo - {k};
    }
    todo := om.Keys;
    while todo != {}
      invariant todo <= om.Keys
      invariant forall k :: k in changed <==>
                  (k in nm && (k !in om || om[k] != nm[k])) || (k in om && k !in nm && k !in todo)
      decreases todo
    {
      var k :| k in todo;
      if k !in nm {
        changed := changed + [k];
      }
      todo := todo - {k};
    }
    assert forall k :: k in changed <==> k in ChangedKeys(om, nm);
    stateChanged := AnyAmong(changed, stateKeys);
    assert (set k | k in changed) == ChangedKeys(om, nm);
  }

  method AnyAmong(keys: seq<Str>, wanted: set<Str>) returns (any: bool)
    ensures any <==> (set k | k in keys) * wanted != {}
  {
    for i := 0 to |keys|
      invariant forall j :: 0 <= j < i ==> keys[j] !in wanted
    {
      if keys[i] in wanted {
        assert keys[i] in (set k | k in keys) * wanted;
        return true;
      }
    }
    any := false;
  }

  method BuildCanonMap(kvs: seq<KeyValue>) returns (m: map<Str, Str>)
    ensures m == CanonMap(kvs)
  {
    m := map[];
    for i := 0 to |kvs|
      invariant m == CanonMap(kvs[..i])
    {
      var c := EncodeCanonical(kvs[i].value);
      assert kvs[..i + 1][..i] == kvs[..i];
      m := m[kvs[i].key := c];
    }
    assert kvs[..|kvs|] == kvs;
  }

  // ------------------------------------------------------------ the encoders themselves

  lemma {:induction false} FramesAppend(cs: seq<Str>, c: Str)
    ensures Frames(cs + [c]) == Frames(cs) + Framed(c)
  {
    if cs == [] {
      assert [c][1..] == [];
      assert Frames([c]) == Framed(c) + Frames([]);
    } else {
      FramesAppend(cs[1..], c);
      assert (cs + [c])[1..] == cs[1..] + [c];
    }
  }

  /** Value.canonical: the composite cases append framed parts to a builder. */
  method EncodeCanonical(v: Value) returns (out: Str)
    ensures out == Canonical(v)
    decreases v, 1
  {
    match v
    case Array(vs) => out := EncodeArray(vs);
    case Kvlist(kvs) => out := EncodeKvlist(kvs);
    case Invalid => out := [110, COLON];
    case Text(s) => out := [115, COLON] + s;
    case Int(i) => out := [105, COLON] + FormatInt(i);
    case Double(r) => out := [100, COLON] + r;
    case Bool(b) => out := [98, COLON] + if b then TRUE_TEXT else FALSE_TEXT;
  }

  method EncodeArray(vs: seq<Value>) returns (out: Str)
    ensures out == Tagged(97, Counted(|vs|, CanonicalAll(vs)))
    decreases vs, 0
  {
    ghost var cs := CanonicalAll(vs);
    var body: Str := [];
    for i := 0 to |vs|
      invariant body == Frames(cs[..i])
    {
      var c := EncodeCanonical(vs[i]);
      assert cs[..i + 1] == cs[..i] + [c];
      FramesAppend(cs[..i], c);
      body := body + (Itoa(|c|) + [COLON] + c);
    }
    assert cs[..|vs|] == cs;
    out := [97, COLON] + (Itoa(|vs|) + [COLON] + body);
  }

  method EncodeKvlist(kvs: seq<KeyValue>) returns (out: Str)
    ensures out == Tagged(107, Counted(|kvs|, Flatten(SortEntries(EncodeEntries(kvs)))))
    decreases kvs, 0
  {
    var encoded: seq<Entry> := [];
    for i := 0 to |kvs|
      invariant encoded == EncodeEntries(kvs)[..i]
    {
      var c := EncodeCanonical(kvs[i].value);
      encoded := encoded + [Entry(kvs[i].key, c)];
    }
    assert encoded == EncodeEntries(kvs);
    var sorted := SortEntries(encoded);
    var body := FrameEntries(sorted);
    out := [107, COLON] + (Itoa(|kvs|) + [COLON] + body);
  }

  method FrameEntries(es: seq<Entry>) returns (out: Str)
    ensures out == Frames(Flatten(es))
  {
    ghost var flat := Flatten(es);
    out := [];
    for i := 0 to |es|
      invariant out == Frames(flat[..2 * i])
    {
      var e := es[i];
      assert flat[..2 * i + 1] == flat[..2 * i] + [e.key];
      assert flat[..2 * (i + 1)] == flat[..2 * i + 1] + [e.code];
      FramesAppend(flat[..2 * i], e.key);
      FramesAppend(flat[..2 * i + 1], e.code);
      out := out + (Itoa(|e.key|) + [COLON] + e.key) + (Itoa(|e.code|) + [COLON] + e.code);
    }
    assert flat[..2 * |es|] == flat;
  }

  /** Value.appendCanonical writes the same bytes after a given prefix. */
  method AppendCanonical(v: Value, dst: Str) returns (out: Str)
    ensures out == dst + Canonical(v)
  {
    match v
    case Text(s) => out := dst + [115, COLON] + s;
    case Int(i) => out := dst + [105, COLON] + FormatInt(i);
    case Double(r) => out := dst + [100, COLON] + r;
    case Bool(b) => out := dst + [98, COLON] + if b then TRUE_TEXT else FALSE_TEXT;
    case _ =>
      var c := EncodeCanonical(v);
      out := dst + c;
  }
}
