/** Cursor paging over a graph that changes between pages: the cursor is the last key
    returned, and a page resumes after it. */
module Paging {
  import opened Text
  import opened Model
  import P = Projection

  const DEFAULT_LIMIT: int := 50
  const MAX_LIMIT: int := 200

  function ClampLimit(limit: int): (r: int)
    ensures 1 <= r <= MAX_LIMIT
    ensures 1 <= limit <= MAX_LIMIT ==> r == limit
    ensures limit < 1 ==> r == 50
    ensures limit > 200 ==> r == 200
  {
    if limit <= 0 then DEFAULT_LIMIT else if limit > MAX_LIMIT then MAX_LIMIT else limit
  }

  // ------------------------------------------------------------ one page of keys

  /** Whether a key comes after the cursor; the empty cursor stands for the start. */
  predicate Beyond(after: Str, k: Str) {
    after == [] || Less(after, k)
  }

  /** The keys after the cursor. */
  function Rest(keys: seq<Str>, after: Str): seq<Str> {
    if keys == [] || Beyond(after, keys[0]) then keys else Rest(keys[1..], after)
  }

  /** One page, and the cursor for the next: empty when this is the last. */
  datatype Page = Page(keys: seq<Str>, next: Str)

  function PageOf(keys: seq<Str>, after: Str, limit: nat): Page
    requires limit > 0
  {
    var rest := Rest(keys, after);
    if |rest| <= limit then Page(rest, []) else Page(rest[..limit], rest[limit - 1])
  }

  lemma {:induction false} RestExact(keys: seq<Str>, after: Str)
    requires Increasing(keys)
    ensures Increasing(Rest(keys, after))
    ensures forall k :: k in Rest(keys, after) <==> k in keys && Beyond(after, k)
  {
    if keys != [] {
      if Beyond(after, keys[0]) {
        forall k | k in keys
          ensures Beyond(after, k)
        {
          var i :| 0 <= i < |keys| && keys[i] == k;
          if i > 0 && after != [] {
            LessTransitive(after, keys[0], k);
          }
        }
      } else {
        RestExact(keys[1..], after);
        assert keys == [keys[0]] + keys[1..];
      }
    }
  }

  /** The suffix from the first key beyond the cursor. */
  lemma {:induction false} RestIsSuffix(keys: seq<Str>, after: Str, i: nat)
    requires i <= |keys| && (forall j :: 0 <= j < i ==> !Beyond(after, keys[j])) &&
      (i < |keys| ==> Beyond(after, keys[i]))
    ensures Rest(keys, after) == keys[i..]
  {
    if i > 0 {
      RestIsSuffix(keys[1..], after, i - 1);
      assert keys[1..][i - 1..] == keys[i..];
    }
  }

  // ------------------------------------------------------------ following cursors

  /** Pages fetched one after the other, each from the keys of its moment. */
  ghost predicate Follows(snapshots: seq<seq<Str>>, pages: seq<Page>, limit: nat) {
    && limit > 0 && |pages| == |snapshots|
    && (forall t :: 0 <= t < |snapshots| ==> Increasing(snapshots[t]) && [] !in snapshots[t])
    && (forall t :: 0 <= t < |pages| ==> pages[t] == PageOf(snapshots[t], CursorAt(pages, t), limit))
    && (forall t :: 0 <= t < |pages| - 1 ==> pages[t].next != [])
  }

  function CursorAt(pages: seq<Page>, t: int): Str
    requires 0 <= t <= |pages|
  {
    if t == 0 then [] else pages[t - 1].next
  }

  lemma PageExact(keys: seq<Str>, after: Str, limit: nat)
    requires limit > 0 && Increasing(keys) && [] !in keys
    ensures var p := PageOf(keys, after, limit);
            && Increasing(p.keys) && |p.keys| <= limit
            && (forall k :: k in p.keys ==> k in keys && Beyond(after, k))
            && (p.next == [] ==> forall k :: k in keys && Beyond(after, k) ==> k in p.keys)
            && (p.next != [] ==> p.keys != [] && p.next == p.keys[|p.keys| - 1])
            && (p.next != [] ==> forall k :: k in keys && Beyond(after, k) ==> (k in p.keys <==> !Less(p.next, k)))
  {
    RestExact(keys, after);
    var rest := Rest(keys, after);
    assert forall i :: 0 <= i < |rest| ==> rest[i] in rest;
    var p := PageOf(keys, after, limit);
    if |rest| > limit {
      assert p.next in rest && p.next in keys;
      forall k | k in keys && Beyond(after, k)
        ensures k in p.keys <==> !Less(p.next, k)
      {
        var i :| 0 <= i < |rest| && rest[i] == k;
        LessIrreflexive(k);
        if i < limit - 1 && Less(p.next, k) {
          LessTransitive(k, p.next, k);
        }
        if i < limit {
          assert p.keys[i] == k;
        }
      }
    }
  }

  lemma NextPageBeyond(snapshots: seq<seq<Str>>, pages: seq<Page>, limit: nat, u: nat, b: Str) returns (c: Str)
    requires Follows(snapshots, pages, limit) && 0 < u < |pages| && b in pages[u].keys
    ensures c == pages[u - 1].next && c in pages[u - 1].keys && Less(c, b)
  {
    hide PageOf, Increasing;
    PageExact(snapshots[u], CursorAt(pages, u), limit);
    PageExact(snapshots[u - 1], CursorAt(pages, u - 1), limit);
    c := pages[u - 1].next;
  }

  lemma LastOnPage(snapshots: seq<seq<Str>>, pages: seq<Page>, limit: nat, t: nat, a: Str)
    requires Follows(snapshots, pages, limit) && t < |pages| - 1 && a in pages[t].keys && !Less(a, pages[t].next)
    ensures a == pages[t].next
  {
    hide PageOf;
    PageExact(snapshots[t], CursorAt(pages, t), limit);
    var i :| 0 <= i < |pages[t].keys| && pages[t].keys[i] == a;
  }

  /** Everything on a page is beyond everything on the pages before it. */
  lemma {:induction false} PagesIncrease(snapshots: seq<seq<Str>>, pages: seq<Page>, limit: nat, t: nat, u: nat,
                                         a: Str, b: Str)
    requires Follows(snapshots, pages, limit) && t < u < |pages| && a in pages[t].keys && b in pages[u].keys
    ensures Less(a, b)
    decreases u
  {
    hide Follows;
    var c := NextPageBeyond(snapshots, pages, limit, u, b);
    if t == u - 1 {
      if !Less(a, c) {
        LastOnPage(snapshots, pages, limit, t, a);
      } else {
        LessTransitive(a, c, b);
      }
    } else {
      PagesIncrease(snapshots, pages, limit, t, u - 1, a, c);
      LessTransitive(a, c, b);
    }
  }

  /** Up to page t, a key present all along has been returned exactly when the cursor has
      reached it. */
  lemma {:induction false} ReturnedByThen(snapshots: seq<seq<Str>>, pages: seq<Page>, limit: nat, t: nat, k: Str)
    requires Follows(snapshots, pages, limit) && t < |pages|
    requires forall u :: 0 <= u < |snapshots| ==> k in snapshots[u]
    requires !Beyond(CursorAt(pages, t), k)
    ensures exists u :: 0 <= u < t && k in pages[u].keys
  {
    hide Follows, Less;
    FollowsSizes(snapshots, pages, limit);
    if t > 0 {
      if Beyond(CursorAt(pages, t - 1), k) {
        PassedIsReturned(snapshots, pages, limit, t - 1, k);
      } else {
        ReturnedByThen(snapshots, pages, limit, t - 1, k);
      }
    }
  }

  lemma PassedIsReturned(snapshots: seq<seq<Str>>, pages: seq<Page>, limit: nat, t: nat, k: Str)
    requires Follows(snapshots, pages, limit) && t < |pages| - 1 && k in snapshots[t]
    requires Beyond(CursorAt(pages, t), k) && !Beyond(pages[t].next, k)
    ensures k in pages[t].keys
  {
    hide PageOf, Increasing, Less;
    PageExact(snapshots[t], CursorAt(pages, t), limit);
  }

  /** Following cursors to the end, whatever happens to the keys between pages, returns
      every key that was there all along exactly once, and keys in order. */
  lemma EveryStayerOnce(snapshots: seq<seq<Str>>, pages: seq<Page>, limit: nat, k: Str)
    requires Follows(snapshots, pages, limit) && pages != [] && pages[|pages| - 1].next == []
    requires forall u :: 0 <= u < |snapshots| ==> k in snapshots[u]
    ensures exists t :: 0 <= t < |pages| && k in pages[t].keys
    ensures forall t, u :: 0 <= t < u < |pages| && k in pages[t].keys ==> k !in pages[u].keys
  {
    var last := |pages| - 1;
    PageExact(snapshots[last], CursorAt(pages, last), limit);
    if !Beyond(CursorAt(pages, last), k) {
      ReturnedByThen(snapshots, pages, limit, last, k);
    }
    forall t, u | 0 <= t < u < |pages| && k in pages[t].keys
      ensures k !in pages[u].keys
    {
      if k in pages[u].keys {
        PagesIncrease(snapshots, pages, limit, t, u, k, k);
        LessIrreflexive(k);
      }
    }
  }

  // ------------------------------------------------------------ paging the projection

  /** A fingerprint is a non-empty digest of an identity, taken to be collision-free. */
  ghost predicate Fingerprint(fp: Identity -> Str) {
    (forall i :: fp(i) != []) && forall i, j :: fp(i) == fp(j) ==> i == j
  }

  /** The live entities of a type; the empty type stands for all. */
  function Matching(g: P.Graph, typ: Str): set<EntityId> {
    set id | id in P.Live(g) && (typ == [] || P.Live(g)[id].ident.typ == typ)
  }

  /** keys are the fingerprints of the matching entities, in order. */
  ghost predicate KeysOf(g: P.Graph, typ: Str, fp: Identity -> Str, keys: seq<Str>) {
    && Increasing(keys)
    && (forall k :: k in keys <==> exists id :: id in Matching(g, typ) && fp(P.Live(g)[id].ident) == k)
  }

  function Insert(keys: seq<Str>, k: Str): (r: seq<Str>)
    requires Increasing(keys) && k !in keys
    ensures Increasing(r) && (forall x :: x in r <==> x == k || x in keys)
  {
    if keys == [] then [k]
    else if Less(k, keys[0]) then
      assert Increasing([k] + keys) by {
        forall i | 0 <= i < |keys|
          ensures Less(k, keys[i])
        {
          if i > 0 {
            LessTransitive(k, keys[0], keys[i]);
          }
        }
      }
      [k] + keys
    else
      LessTotal(k, keys[0]);
      assert keys == [keys[0]] + keys[1..];
      var rest := Insert(keys[1..], k);
      assert forall i :: 0 <= i < |rest| ==> rest[i] in rest && Less(keys[0], rest[i]);
      [keys[0]] + rest
  }

  /** An index entry of a live entity of the type. */
  predicate Counts(g: P.Graph, typ: Str, i: Identity) {
    i in g.byHash && g.byHash[i] !in g.deleted && g.byHash[i] in g.entities
    && (typ == [] || g.entities[g.byHash[i]].ident.typ == typ)
  }

  /** What a scan of some index entries has collected. */
  ghost predicate Collected(g: P.Graph, typ: Str, after: Str, fp: Identity -> Str, done: set<Identity>,
                            keys: map<Str, EntityId>, order: seq<Str>) {
    && Increasing(order) && (forall k :: k in order <==> k in keys)
    && (forall i :: i in done && Counts(g, typ, i) && Beyond(after, fp(i)) ==>
          fp(i) in keys && keys[fp(i)] == g.byHash[i])
    && (forall k :: k in keys ==> exists i :: i in done && Counts(g, typ, i) && Beyond(after, k) && fp(i) == k)
  }

  lemma CollectOne(g: P.Graph, typ: Str, after: Str, fp: Identity -> Str, done: set<Identity>,
                   keys: map<Str, EntityId>, order: seq<Str>, i: Identity)
    requires Fingerprint(fp) && Collected(g, typ, after, fp, done, keys, order) && i !in done
    ensures if Counts(g, typ, i) && Beyond(after, fp(i))
            then fp(i) !in order && Increasing(order) &&
              Collected(g, typ, after, fp, done + {i}, keys[fp(i) := g.byHash[i]], Insert(order, fp(i)))
            else Collected(g, typ, after, fp, done + {i}, keys, order)
  {
    hide Beyond, Increasing;
    if Counts(g, typ, i) && Beyond(after, fp(i)) {
      assert fp(i) !in keys;
      var keys' := keys[fp(i) := g.byHash[i]];
      forall k | k in keys'
        ensures exists j :: j in done + {i} && Counts(g, typ, j) && Beyond(after, k) && fp(j) == k
      {
        if k == fp(i) {
          assert i in done + {i};
        } else {
          var j :| j in done && Counts(g, typ, j) && Beyond(after, k) && fp(j) == k;
          assert j in done + {i};
        }
      }
    } else {
      forall k | k in keys
        ensures exists j :: j in done + {i} && Counts(g, typ, j) && Beyond(after, k) && fp(j) == k
      {
        var j :| j in done && Counts(g, typ, j) && Beyond(after, k) && fp(j) == k;
        assert j in done + {i};
      }
    }
  }

  /** The hash index holds exactly one entry per live entity, so counting entries counts
      entities. */
  lemma IndexIsLive(g: P.Graph, typ: Str, i: Identity)
    requires P.Indexed(g)
    ensures Counts(g, typ, i) ==> g.byHash[i] in Matching(g, typ) && P.Live(g)[g.byHash[i]].ident == i
    ensures forall id :: id in Matching(g, typ) && P.Live(g)[id].ident == i ==> Counts(g, typ, i) && g.byHash[i] == id
  {
  }

  /** The collected keys are the snapshot's keys after the cursor. */
  lemma CollectedRest(g: P.Graph, typ: Str, after: Str, fp: Identity -> Str, keys: map<Str, EntityId>, order: seq<Str>,
                      all: seq<Str>)
    requires P.Indexed(g) && Collected(g, typ, after, fp, g.byHash.Keys, keys, order) && KeysOf(g, typ, fp, all)
    ensures order == Rest(all, after)
  {
    RestExact(all, after);
    forall k
      ensures k in order <==> k in Rest(all, after)
    {
      if k in order {
        var i :| i in g.byHash.Keys && Counts(g, typ, i) && Beyond(after, k) && fp(i) == k;
        IndexIsLive(g, typ, i);
        assert g.byHash[i] in Matching(g, typ) && fp(P.Live(g)[g.byHash[i]].ident) == k;
      }
      if k in Rest(all, after) {
        var id :| id in Matching(g, typ) && fp(P.Live(g)[id].ident) == k;
        IndexIsLive(g, typ, P.Live(g)[id].ident);
      }
    }
    IncreasingUnique(order, Rest(all, after));
  }

  /** The page's entities, in the order of the keys. */
  ghost predicate Presents(g: P.Graph, typ: Str, fp: Identity -> Str, keys: seq<Str>, page: seq<Entity>) {
    |page| == |keys| && forall j :: 0 <= j < |page| ==>
      page[j].id in Matching(g, typ) && P.Live(g)[page[j].id] == page[j] && fp(page[j].ident) == keys[j]
  }

  /** One fingerprint-ordered page of the live entities of a type, and how many there are in
      all. */
  method PageEntitiesByFingerprint(g: P.Graph, typ: Str, after: Str, limit: nat, fp: Identity -> Str)
    returns (page: seq<Entity>, next: Str, total: nat)
    requires limit > 0 && P.Indexed(g) && Fingerprint(fp)
    ensures total == |Matching(g, typ)|
    ensures forall all :: KeysOf(g, typ, fp, all) ==>
              Presents(g, typ, fp, PageOf(all, after, limit).keys, page) && next == PageOf(all, after, limit).next
  {
    var keys, order, count := CollectKeys(g, typ, after, fp);
    total := count;
    next := [];
    var shownKeys := order;
    if |order| > limit {
      shownKeys := order[..limit];
      next := order[limit - 1];
    }
    page := Resolve(g, typ, after, fp, keys, order, shownKeys);
    forall all | KeysOf(g, typ, fp, all)
      ensures Presents(g, typ, fp, PageOf(all, after, limit).keys, page) && next == PageOf(all, after, limit).next
    {
      hide P.Indexed, Collected, Presents, KeysOf;
      CollectedRest(g, typ, after, fp, keys, order, all);
    }
  }

  /** The scan of the hash index, keeping the keys beyond the cursor in order. */
  method CollectKeys(g: P.Graph, typ: Str, after: Str, fp: Identity -> Str)
    returns (keys: map<Str, EntityId>, order: seq<Str>, total: nat)
    requires P.Indexed(g) && Fingerprint(fp)
    ensures Collected(g, typ, after, fp, g.byHash.Keys, keys, order) && total == |Matching(g, typ)|
  {
    hide P.Indexed, Fingerprint, Seen, Collected, Counts, Matching;
    keys, order, total := map[], [], 0;
    var todo := g.byHash.Keys;
    ghost var done: set<Identity>, seen: set<EntityId> := {}, {};
    CollectNone(g, typ, after, fp);
    while todo != {}
      invariant Partition(g.byHash.Keys, done, todo)
      invariant Collected(g, typ, after, fp, done, keys, order) && Increasing(order)
      invariant Seen(g, typ, done, seen) && total == |seen|
      decreases |todo|
    {
      hide Partition, Beyond, Increasing;
      var i :| i in todo;
      PartitionOne(g.byHash.Keys, done, todo, i);
      todo := todo - {i};
      CollectOne(g, typ, after, fp, done, keys, order, i);
      SeeOne(g, typ, done, seen, i);
      if Counts(g, typ, i) {
        CountsHash(g, typ, i);
        total, seen := total + 1, seen + {g.byHash[i]};
        if Beyond(after, fp(i)) {
          order := Insert(order, fp(i));
          keys := keys[fp(i) := g.byHash[i]];
        }
      }
      done := done + {i};
    }
    PartitionEnd(g.byHash.Keys, done);
    SeenAll(g, typ, seen);
  }

  /** The ordered keys of a graph exist, and are determined. */
  lemma KeysExist(g: P.Graph, typ: Str, fp: Identity -> Str) returns (all: seq<Str>)
    requires P.Indexed(g) && Fingerprint(fp)
    ensures KeysOf(g, typ, fp, all)
    ensures forall other :: KeysOf(g, typ, fp, other) ==> other == all
  {
    hide P.Indexed, Fingerprint, Collected, Counts, Matching, Partition, Beyond, Increasing, KeysOf;
    var keys: map<Str, EntityId> := map[];
    var todo, done: set<Identity> := g.byHash.Keys, {};
    all := [];
    CollectNone(g, typ, [], fp);
    PartitionStart(g.byHash.Keys);
    while todo != {}
      invariant Partition(g.byHash.Keys, done, todo) && Collected(g, typ, [], fp, done, keys, all)
      decreases |todo|
    {
      var i :| i in todo;
      PartitionOne(g.byHash.Keys, done, todo, i);
      CollectOne(g, typ, [], fp, done, keys, all, i);
      if Counts(g, typ, i) && Beyond([], fp(i)) {
        CountsHash(g, typ, i);
        all, keys := Insert(all, fp(i)), keys[fp(i) := g.byHash[i]];
      }
      todo, done := todo - {i}, done + {i};
    }
    PartitionEnd(g.byHash.Keys, done);
    CollectedKeys(g, typ, fp, keys, all);
    forall other | KeysOf(g, typ, fp, other)
      ensures other == all
    {
      CollectedRest(g, typ, [], fp, keys, all, other);
      RestIsSuffix(other, [], 0) by {
        EverythingBeyond(other);
      }
    }
  }

  lemma EverythingBeyond(keys: seq<Str>)
    ensures forall i :: 0 <= i < |keys| ==> Beyond([], keys[i])
  {
  }

  lemma CollectedKeys(g: P.Graph, typ: Str, fp: Identity -> Str, keys: map<Str, EntityId>, order: seq<Str>)
    requires P.Indexed(g) && Collected(g, typ, [], fp, g.byHash.Keys, keys, order)
    ensures KeysOf(g, typ, fp, order)
  {
    hide Increasing;
    forall k
      ensures k in order <==> exists id :: id in Matching(g, typ) && fp(P.Live(g)[id].ident) == k
    {
      if k in order {
        var i :| i in g.byHash.Keys && Counts(g, typ, i) && Beyond([], k) && fp(i) == k;
        IndexIsLive(g, typ, i);
        assert g.byHash[i] in Matching(g, typ) && fp(P.Live(g)[g.byHash[i]].ident) == k;
      }
      if id :| id in Matching(g, typ) && fp(P.Live(g)[id].ident) == k {
        IndexIsLive(g, typ, P.Live(g)[id].ident);
      }
    }
  }

  lemma PartitionStart(all: set<Identity>)
    ensures Partition(all, {}, all)
  {
  }

  ghost predicate Partition(all: set<Identity>, done: set<Identity>, todo: set<Identity>) {
    done !! todo && forall i :: i in all <==> i in done || i in todo
  }

  lemma PartitionOne(all: set<Identity>, done: set<Identity>, todo: set<Identity>, i: Identity)
    requires Partition(all, done, todo) && i in todo
    ensures Partition(all, done + {i}, todo - {i}) && i !in done
  {
  }

  lemma PartitionEnd(all: set<Identity>, done: set<Identity>)
    requires Partition(all, done, {})
    ensures done == all
  {
  }

  lemma CountsHash(g: P.Graph, typ: Str, i: Identity)
    requires Counts(g, typ, i)
    ensures i in g.byHash
  {
  }

  lemma CollectNone(g: P.Graph, typ: Str, after: Str, fp: Identity -> Str)
    ensures Collected(g, typ, after, fp, {}, map[], []) && Seen(g, typ, {}, {}) && Increasing([])
  {
  }

  /** The entities counted so far. */
  ghost predicate Seen(g: P.Graph, typ: Str, done: set<Identity>, seen: set<EntityId>) {
    && (forall i :: i in done && Counts(g, typ, i) ==> g.byHash[i] in seen)
    && (forall id :: id in seen ==>
          && id in g.entities && g.entities[id].ident in done && Counts(g, typ, g.entities[id].ident)
          && g.byHash[g.entities[id].ident] == id)
  }

  lemma SeeOne(g: P.Graph, typ: Str, done: set<Identity>, seen: set<EntityId>, i: Identity)
    requires Seen(g, typ, done, seen) && i !in done && P.Indexed(g)
    ensures if Counts(g, typ, i) then g.byHash[i] !in seen && Seen(g, typ, done + {i}, seen + {g.byHash[i]})
            else Seen(g, typ, done + {i}, seen)
  {
    IndexIsLive(g, typ, i);
  }

  lemma SeenAll(g: P.Graph, typ: Str, seen: set<EntityId>)
    requires P.Indexed(g) && Seen(g, typ, g.byHash.Keys, seen)
    ensures seen == Matching(g, typ)
  {
    forall id
      ensures id in seen <==> id in Matching(g, typ)
    {
      if id in seen {
        IndexIsLive(g, typ, g.entities[id].ident);
      }
      if id in Matching(g, typ) {
        IndexIsLive(g, typ, P.Live(g)[id].ident);
      }
    }
  }

  /** Look up the entities of a page's keys. */
  method Resolve(g: P.Graph, typ: Str, after: Str, fp: Identity -> Str, keys: map<Str, EntityId>,
                 ghost whole: seq<Str>, order: seq<Str>)
    returns (page: seq<Entity>)
    requires P.Indexed(g) && Collected(g, typ, after, fp, g.byHash.Keys, keys, whole)
    requires |order| <= |whole| && order == whole[..|order|]
    ensures Presents(g, typ, fp, order, page)
  {
    hide P.Indexed, Collected, Presents;
    page := [];
    PresentNone(g, typ, fp);
    for j := 0 to |order|
      invariant Presents(g, typ, fp, order[..j], page)
    {
      PresentOne(g, typ, after, fp, keys, whole, order[..j], page);
      assert order[..j + 1] == order[..j] + [whole[j]];
      page := page + [g.entities[keys[order[j]]]];
    }
    assert order[..|order|] == order;
  }

  lemma PresentNone(g: P.Graph, typ: Str, fp: Identity -> Str)
    ensures Presents(g, typ, fp, [], [])
  {
  }

  lemma PresentOne(g: P.Graph, typ: Str, after: Str, fp: Identity -> Str, keys: map<Str, EntityId>, whole: seq<Str>,
                   shownKeys: seq<Str>, page: seq<Entity>)
    requires P.Indexed(g) && Collected(g, typ, after, fp, g.byHash.Keys, keys, whole)
    requires |shownKeys| < |whole| && shownKeys == whole[..|shownKeys|] && Presents(g, typ, fp, shownKeys, page)
    ensures var k := whole[|shownKeys|];
            k in keys && keys[k] in g.entities && Presents(g, typ, fp, shownKeys + [k], page + [g.entities[keys[k]]])
  {
    var k := whole[|shownKeys|];
    assert k in whole;
    hide P.Indexed, Increasing, Beyond, Collected, Presents;
    var e := CollectedEntity(g, typ, after, fp, keys, whole, k);
    PresentsMore(g, typ, fp, shownKeys, page, k, e);
  }

  lemma CollectedEntity(g: P.Graph, typ: Str, after: Str, fp: Identity -> Str, keys: map<Str, EntityId>,
                        whole: seq<Str>, k: Str)
    returns (e: Entity)
    requires P.Indexed(g) && Collected(g, typ, after, fp, g.byHash.Keys, keys, whole) && k in whole
    ensures k in keys && keys[k] in g.entities && e == g.entities[keys[k]]
    ensures e.id in Matching(g, typ) && P.Live(g)[e.id] == e && fp(e.ident) == k
  {
    hide Increasing, Beyond;
    var i :| i in g.byHash.Keys && Counts(g, typ, i) && Beyond(after, k) && fp(i) == k;
    IndexIsLive(g, typ, i);
    e := g.entities[keys[k]];
  }

  lemma PresentsMore(g: P.Graph, typ: Str, fp: Identity -> Str, keys: seq<Str>, page: seq<Entity>, k: Str, e: Entity)
    requires Presents(g, typ, fp, keys, page)
    requires e.id in Matching(g, typ) && P.Live(g)[e.id] == e && fp(e.ident) == k
    ensures Presents(g, typ, fp, keys + [k], page + [e])
  {
    hide Matching;
  }

  // ------------------------------------------------------------ paging a sorted list

  /** sort.Search over an ordered list: the first position beyond the cursor. */
  method SearchAfter(keys: seq<Str>, fp: Str) returns (i: nat)
    requires Increasing(keys) && fp != []
    ensures i <= |keys|
    ensures forall j :: 0 <= j < i ==> !Beyond(fp, keys[j])
    ensures forall j :: i <= j < |keys| ==> Beyond(fp, keys[j])
  {
    i := 0;
    var k := |keys|;
    while i < k
      invariant 0 <= i <= k <= |keys|
      invariant forall j :: 0 <= j < i ==> !Less(fp, keys[j])
      invariant forall j :: k <= j < |keys| ==> Less(fp, keys[j])
    {
      var h := (i + k) / 2;
      if !Less(fp, keys[h]) {
        forall j | i <= j <= h
          ensures !Less(fp, keys[j])
        {
          if j < h && Less(fp, keys[j]) {
            LessTransitive(fp, keys[j], keys[h]);
          }
        }
        i := h + 1;
      } else {
        forall j | h <= j < k
          ensures Less(fp, keys[j])
        {
          if h < j {
            LessTransitive(fp, keys[h], keys[j]);
          }
        }
        k := h;
      }
    }
  }

  /** The paging of an already ordered list, after binary search. */
  method PageByFingerprint(keys: seq<Str>, after: Str, limit: nat) returns (p: Page)
    requires limit > 0 && Increasing(keys)
    ensures p == PageOf(keys, after, limit)
  {
    var all := keys;
    if after != [] {
      var i := SearchAfter(keys, after);
      all := keys[i..];
      RestIsSuffix(keys, after, i);
    } else {
      RestIsSuffix(keys, after, 0);
    }
    if |all| <= limit {
      return Page(all, []);
    }
    return Page(all[..limit], all[limit - 1]);
  }

  /** The same paging by a linear walk, as for neighbours ordered by depth and fingerprint. */
  method PageNeighbors(keys: seq<Str>, after: Str, limit: nat) returns (p: Page)
    requires limit > 0
    ensures p == PageOf(keys, after, limit)
  {
    var i := 0;
    if after != [] {
      while i < |keys| && !Less(after, keys[i])
        invariant 0 <= i <= |keys| && forall j :: 0 <= j < i ==> !Beyond(after, keys[j])
      {
        i := i + 1;
      }
    }
    RestIsSuffix(keys, after, i);
    var all := keys[i..];
    if |all| <= limit {
      return Page(all, []);
    }
    return Page(all[..limit], all[limit - 1]);
  }

  // ------------------------------------------------------------ a changing graph

  /** Pages of entities fetched from a graph that changes arbitrarily in between. */
  ghost predicate FollowsGraph(graphs: seq<P.Graph>, typ: Str, fp: Identity -> Str, limit: nat,
                               snapshots: seq<seq<Str>>, pages: seq<Page>, shown: seq<seq<Entity>>)
  {
    && |graphs| == |snapshots| == |shown| && Follows(snapshots, pages, limit)
    && (forall t :: 0 <= t < |graphs| ==> P.Indexed(graphs[t]) && KeysOf(graphs[t], typ, fp, snapshots[t]))
    && (forall t :: 0 <= t < |graphs| ==> Presents(graphs[t], typ, fp, pages[t].keys, shown[t]))
  }

  ghost predicate ShownAt(shown: seq<seq<Entity>>, t: int, j: int, id: EntityId) {
    0 <= t < |shown| && 0 <= j < |shown[t]| && shown[t][j].id == id
  }

  /** An entity that stays live, matching and of one identity while a caller follows the
      cursors to the end is returned exactly once. */
  lemma StayerReturnedOnce(graphs: seq<P.Graph>, typ: Str, fp: Identity -> Str, limit: nat,
                           snapshots: seq<seq<Str>>, pages: seq<Page>, shown: seq<seq<Entity>>, id: EntityId,
                             i: Identity)
    requires FollowsGraph(graphs, typ, fp, limit, snapshots, pages, shown) && Fingerprint(fp)
    requires pages != [] && pages[|pages| - 1].next == []
    requires forall t :: 0 <= t < |graphs| ==> id in Matching(graphs[t], typ) && P.Live(graphs[t])[id].ident == i
    ensures exists t, j :: ShownAt(shown, t, j, id)
    ensures forall t, j, u, l :: ShownAt(shown, t, j, id) && ShownAt(shown, u, l, id) ==> t == u && j == l
  {
    hide P.Indexed, Increasing, Beyond;
    forall u | 0 <= u < |snapshots|
      ensures fp(i) in snapshots[u]
    {
      assert id in Matching(graphs[u], typ);
    }
    EveryStayerOnce(snapshots, pages, limit, fp(i));
    var t :| 0 <= t < |pages| && fp(i) in pages[t].keys;
    var j :| 0 <= j < |pages[t].keys| && pages[t].keys[j] == fp(i);
    PresentedId(graphs[t], typ, fp, pages[t].keys, shown[t], j, id, i);
    assert ShownAt(shown, t, j, id);
    forall t, j, u, l | ShownAt(shown, t, j, id) && ShownAt(shown, u, l, id)
      ensures t == u && j == l
    {
      ShownKey(graphs, typ, fp, limit, snapshots, pages, shown, id, i, t, j);
      ShownKey(graphs, typ, fp, limit, snapshots, pages, shown, id, i, u, l);
      if t == u {
        DistinctOnPage(snapshots, pages, limit, t, j, l);
      }
    }
  }

  lemma PresentedId(g: P.Graph, typ: Str, fp: Identity -> Str, keys: seq<Str>, page: seq<Entity>, j: int, id: EntityId,
                    i: Identity)
    requires P.Indexed(g) && Fingerprint(fp) && Presents(g, typ, fp, keys, page) && 0 <= j < |keys| && keys[j] == fp(i)
    requires id in Matching(g, typ) && P.Live(g)[id].ident == i
    ensures page[j].id == id
  {
    IndexIsLive(g, typ, i);
    assert page[j].ident == i;
  }

  lemma ShownKey(graphs: seq<P.Graph>, typ: Str, fp: Identity -> Str, limit: nat, snapshots: seq<seq<Str>>,
                 pages: seq<Page>, shown: seq<seq<Entity>>, id: EntityId, i: Identity, t: int, j: int)
    requires FollowsGraph(graphs, typ, fp, limit, snapshots, pages, shown) && ShownAt(shown, t, j, id)
    requires id in Matching(graphs[t], typ) && P.Live(graphs[t])[id].ident == i
    ensures 0 <= t < |pages| && 0 <= j < |pages[t].keys| && pages[t].keys[j] == fp(i) && fp(i) in pages[t].keys
  {
    hide P.Indexed, Increasing, Follows, KeysOf;
    FollowsSizes(snapshots, pages, limit);
    assert Presents(graphs[t], typ, fp, pages[t].keys, shown[t]);
  }

  lemma FollowsSizes(snapshots: seq<seq<Str>>, pages: seq<Page>, limit: nat)
    requires Follows(snapshots, pages, limit)
    ensures |pages| == |snapshots|
  {
  }

  lemma DistinctOnPage(snapshots: seq<seq<Str>>, pages: seq<Page>, limit: nat, t: int, j: int, l: int)
    requires Follows(snapshots, pages, limit) && 0 <= t < |pages|
    requires 0 <= j < |pages[t].keys| && 0 <= l < |pages[t].keys| && pages[t].keys[j] == pages[t].keys[l]
    ensures j == l
  {
    PageExact(snapshots[t], CursorAt(pages, t), limit);
    LessIrreflexive(pages[t].keys[j]);
  }
}
