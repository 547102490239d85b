/** Last-writer-wins synchronisation of operator annotations: nodes never talk to each
    other, they meet at a shared object store. */
module AnnotationSync {
  import opened Text
  import opened Model
  import opened ObjectNames

  /** A removed annotation is a row without values: a tombstone that travels like any row. */
  datatype Row = Row(values: map<Str, Str>, author: Str, at: Time)

  type Rows = map<Str, Row>

  // ------------------------------------------------------------ local reads and writes

  /** What a reader sees: tombstones read as absence. */
  function Get(rows: Rows, k: Str): Option<Row> {
    if k in rows && rows[k].values != map[] then Some(rows[k]) else None
  }

  /** The values after an edit: an empty value removes its key. */
  function Edited(was: map<Str, Str>, edit: map<Str, Str>): map<Str, Str> {
    map x | x in was.Keys + edit.Keys && (x in edit ==> edit[x] != []) :: if x in edit then edit[x] else was[x]
  }

  function Set(rows: Rows, k: Str, edit: map<Str, Str>, author: Str, now: Time): Rows {
    var was := match Get(rows, k) case Some(r) => r.values case None => map[];
    rows[k := Row(Edited(was, edit), author, now)]
  }

  /** An edit touches one row, stamps it, and changes in it exactly the values it names: an
      empty one goes. What a reader did not see does not come back. */
  lemma EditExact(rows: Rows, k: Str, edit: map<Str, Str>, author: Str, now: Time, x: Str)
    ensures var after := Set(rows, k, edit, author, now);
            && k in after && after[k].at == now && after[k].author == author
            && (forall j :: j != k ==> (j in after <==> j in rows) && (j in rows ==> after[j] == rows[j]))
            && (x in edit && edit[x] == [] ==> x !in after[k].values)
            && (x in edit && edit[x] != [] ==> x in after[k].values && after[k].values[x] == edit[x])
            && (x !in edit ==>
                  (x in after[k].values <==> Get(rows, k).Some? && x in Get(rows, k).value.values) &&
                  (x in after[k].values ==> after[k].values[x] == Get(rows, k).value.values[x]))
  {
  }

  /** Removing every value leaves a tombstone that hides the annotation but keeps its time. */
  lemma RemovalLeavesTombstone(rows: Rows, k: Str, edit: map<Str, Str>, author: Str, now: Time)
    requires forall x :: x in edit ==> edit[x] == []
    requires forall r, x :: Get(rows, k) == Some(r) && x in r.values ==> x in edit
    ensures var after := Set(rows, k, edit, author, now);
            Get(after, k) == None && k in after && after[k].at == now
  {
    var was := match Get(rows, k) case Some(r) => r.values case None => map[];
    assert Edited(was, edit) == map[];
  }

  // ------------------------------------------------------------ one undisturbed pass

  /** The remote row is absent locally or newer. */
  predicate Wins(local: Rows, remote: Rows, k: Str) {
    k in remote && (k !in local || remote[k].at > local[k].at)
  }

  function Merge(local: Rows, remote: Rows): Rows {
    map k | k in local.Keys + remote.Keys :: if Wins(local, remote, k) then remote[k] else local[k]
  }

  function Pulls(local: Rows, remote: Rows): set<Str> {
    set k | k in remote && Wins(local, remote, k)
  }

  /** The local rows the store lacks, or holds older. */
  function Pushes(local: Rows, remote: Rows): set<Str> {
    set k | k in local && Wins(remote, local, k)
  }

  /** Equal timestamps mean equal rows. */
  ghost predicate Agree(a: Rows, b: Rows) {
    forall k :: k in a && k in b && a[k].at == b[k].at ==> a[k] == b[k]
  }

  function Pushed(local: Rows, remote: Rows): Rows {
    map k | k in local.Keys + remote.Keys :: if Wins(remote, local, k) then local[k] else remote[k]
  }

  /** After an undisturbed pass the node and the store hold the same rows. */
  lemma PassEqualises(local: Rows, remote: Rows)
    requires Agree(local, remote)
    ensures Pushed(Merge(local, remote), remote) == Merge(local, remote)
  {
    var m := Merge(local, remote);
    assert m.Keys + remote.Keys == m.Keys;
    forall k | k in m
      ensures Pushed(m, remote)[k] == m[k]
    {
    }
  }

  // ------------------------------------------------------------ rounds

  /** A fleet of nodes and the store they share. */
  datatype Fleet = Fleet(nodes: seq<Rows>, remote: Rows)

  function SyncNode(f: Fleet, i: nat): Fleet
    requires i < |f.nodes|
  {
    var m := Merge(f.nodes[i], f.remote);
    Fleet(f.nodes[i := m], Pushed(m, f.remote))
  }

  predicate Within(order: seq<nat>, n: nat) {
    forall k :: 0 <= k < |order| ==> order[k] < n
  }

  /** Nodes sync one after the other, in some order. */
  function SyncEach(f: Fleet, order: seq<nat>): (g: Fleet)
    requires Within(order, |f.nodes|)
    ensures |g.nodes| == |f.nodes|
  {
    if order == [] then f
    else
      var n := |order| - 1;
      SyncNode(SyncEach(f, order[..n]), order[n])
  }

  /** No row beats newest's, and one as recent is the same row. */
  ghost predicate Below(rows: Rows, newest: Rows) {
    forall k :: k in rows ==> k in newest && (rows[k].at < newest[k].at || rows[k] == newest[k])
  }

  ghost predicate Has(rows: Rows, newest: Rows, k: Str) {
    k in rows && k in newest && rows[k] == newest[k]
  }

  ghost predicate AllBelow(f: Fleet, newest: Rows) {
    Below(f.remote, newest) && forall i :: 0 <= i < |f.nodes| ==> Below(f.nodes[i], newest)
  }

  /** newest holds, for every key anyone has, the most recent row anyone has. */
  ghost predicate IsNewest(f: Fleet, newest: Rows) {
    && AllBelow(f, newest)
    && forall k :: k in newest ==>
         Has(f.remote, newest, k) || exists i :: 0 <= i < |f.nodes| && Has(f.nodes[i], newest, k)
  }

  lemma MergeBelow(a: Rows, b: Rows, newest: Rows)
    requires Below(a, newest) && Below(b, newest)
    ensures Below(Merge(a, b), newest) && Below(Pushed(Merge(a, b), b), newest)
    ensures forall k :: Has(a, newest, k) || Has(b, newest, k) ==>
              Has(Merge(a, b), newest, k) && Has(Pushed(Merge(a, b), b), newest, k)
  {
  }

  lemma SyncNodeBelow(f: Fleet, i: nat, newest: Rows)
    requires i < |f.nodes| && AllBelow(f, newest)
    ensures AllBelow(SyncNode(f, i), newest)
    ensures forall k :: Has(f.remote, newest, k) || Has(f.nodes[i], newest, k) ==>
              Has(SyncNode(f, i).remote, newest, k) && Has(SyncNode(f, i).nodes[i], newest, k)
    ensures forall j, k :: 0 <= j < |f.nodes| && Has(f.nodes[j], newest, k) ==> Has(SyncNode(f, i).nodes[j], newest, k)
  {
    MergeBelow(f.nodes[i], f.remote, newest);
  }

  /** What the store holds is kept, and what a synced node held reaches it. */
  lemma {:induction false} SyncEachReaches(f: Fleet, order: seq<nat>, newest: Rows)
    requires Within(order, |f.nodes|) && AllBelow(f, newest)
    ensures var g := SyncEach(f, order);
            && AllBelow(g, newest)
            && (forall k :: Has(f.remote, newest, k) ==> Has(g.remote, newest, k))
            && (forall i, k :: 0 <= i < |f.nodes| && Has(f.nodes[i], newest, k) ==> Has(g.nodes[i], newest, k))
            && (forall j, k :: 0 <= j < |order| && Has(f.nodes[order[j]], newest, k) ==> Has(g.remote, newest, k))
            && (forall j, k :: 0 <= j < |order| && Has(f.remote, newest, k) ==> Has(g.nodes[order[j]], newest, k))
  {
    hide Below, Has;
    if order != [] {
      var n := |order| - 1;
      SyncEachReaches(f, order[..n], newest);
      SyncNodeBelow(SyncEach(f, order[..n]), order[n], newest);
      assert forall j :: 0 <= j < n ==> order[..n][j] == order[j];
    }
  }

  lemma BelowAndHasAll(rows: Rows, newest: Rows)
    requires Below(rows, newest) && forall k :: k in newest ==> Has(rows, newest, k)
    ensures rows == newest
  {
    assert rows.Keys == newest.Keys;
  }

  ghost predicate Covers(order: seq<nat>, n: nat) {
    Within(order, n) && forall i :: 0 <= i < n ==> i in order
  }

  /** Once writes stop, two sequential rounds -- each in any order -- leave every node and
      the store with exactly the newest row of every key, tombstones included. */
  lemma TwoRoundsConverge(f: Fleet, newest: Rows, first: seq<nat>, second: seq<nat>)
    requires Covers(first, |f.nodes|) && Covers(second, |f.nodes|) && IsNewest(f, newest)
    ensures var g := SyncEach(SyncEach(f, first), second);
            g.remote == newest && forall i :: 0 <= i < |f.nodes| ==> g.nodes[i] == newest
  {
    hide Below, Has;
    var h := SyncEach(f, first);
    SyncEachReaches(f, first, newest);
    forall k | k in newest
      ensures Has(h.remote, newest, k)
    {
      if !Has(f.remote, newest, k) {
        var i :| 0 <= i < |f.nodes| && Has(f.nodes[i], newest, k);
        assert i in first;
        var j :| 0 <= j < |first| && first[j] == i;
      }
    }
    var g := SyncEach(h, second);
    SyncEachReaches(h, second, newest);
    BelowAndHasAll(g.remote, newest);
    forall i | 0 <= i < |f.nodes|
      ensures g.nodes[i] == newest
    {
      assert i in second;
      var j :| 0 <= j < |second| && second[j] == i;
      BelowAndHasAll(g.nodes[i], newest);
    }
  }

  /** The per-key newest rows of a fleet whose equal timestamps mean equal rows. */
  function NewestOf(nodes: seq<Rows>, remote: Rows): Rows {
    if nodes == [] then remote else Merge(nodes[|nodes| - 1], NewestOf(nodes[..|nodes| - 1], remote))
  }

  /** A timestamp identifies a row: stamps gives the only row of a key with that time. */
  ghost predicate Legit(rows: Rows, stamps: map<(Str, Time), Row>) {
    forall k :: k in rows ==> (k, rows[k].at) in stamps && stamps[(k, rows[k].at)] == rows[k]
  }

  lemma MergeIsUpper(a: Rows, b: Rows, stamps: map<(Str, Time), Row>)
    requires Legit(a, stamps) && Legit(b, stamps)
    ensures Legit(Merge(a, b), stamps) && Below(a, Merge(a, b)) && Below(b, Merge(a, b))
    ensures forall k :: k in Merge(a, b) ==> Has(a, Merge(a, b), k) || Has(b, Merge(a, b), k)
  {
  }

  lemma BelowTransitive(a: Rows, b: Rows, c: Rows)
    requires Below(a, b) && Below(b, c)
    ensures Below(a, c)
  {
  }

  lemma OnlyRemote(f: Fleet)
    requires f.nodes == []
    ensures IsNewest(f, f.remote)
  {
  }

  /** Every such fleet has its newest rows, so two rounds always converge. */
  lemma {:induction false} NewestExists(f: Fleet, stamps: map<(Str, Time), Row>)
    requires Legit(f.remote, stamps) && forall i :: 0 <= i < |f.nodes| ==> Legit(f.nodes[i], stamps)
    ensures Legit(NewestOf(f.nodes, f.remote), stamps) && IsNewest(f, NewestOf(f.nodes, f.remote))
    decreases |f.nodes|
  {
    var n := |f.nodes| - 1;
    if n < 0 {
      OnlyRemote(f);
    } else {
      hide Merge, Legit, IsNewest;
      var rest := f.(nodes := f.nodes[..n]);
      NewestExists(rest, stamps);
      var part := NewestOf(rest.nodes, f.remote);
      MergeIsUpper(f.nodes[n], part, stamps);
      NewestStep(f, part, Merge(f.nodes[n], part));
    }
  }

  /** One more node: what is above the newest of the others and above it, and held by one of them
      or by it, is the newest of all. */
  lemma NewestStep(f: Fleet, part: Rows, all: Rows)
    requires f.nodes != [] && IsNewest(f.(nodes := f.nodes[..|f.nodes| - 1]), part)
    requires Below(f.nodes[|f.nodes| - 1], all) && Below(part, all)
    requires forall k :: k in all ==> Has(f.nodes[|f.nodes| - 1], all, k) || Has(part, all, k)
    ensures IsNewest(f, all)
  {
    hide Below, Has;
    var n := |f.nodes| - 1;
    var rest := f.(nodes := f.nodes[..n]);
    BelowTransitive(f.remote, part, all);
    forall i | 0 <= i < n
      ensures Below(f.nodes[i], all)
    {
      assert rest.nodes[i] == f.nodes[i];
      BelowTransitive(f.nodes[i], part, all);
    }
    forall k | k in all
      ensures Has(f.remote, all, k) || exists i :: 0 <= i < |f.nodes| && Has(f.nodes[i], all, k)
    {
      if !Has(f.nodes[n], all, k) {
        HasKey(part, all, k);
        if Has(f.remote, part, k) {
          HasThrough(f.remote, part, all, k);
        } else {
          var i :| 0 <= i < n && Has(rest.nodes[i], part, k);
          assert rest.nodes[i] == f.nodes[i];
          HasThrough(f.nodes[i], part, all, k);
        }
      }
    }
  }

  lemma HasKey(a: Rows, b: Rows, k: Str)
    requires Has(a, b, k)
    ensures k in a
  {
  }

  lemma HasThrough(a: Rows, b: Rows, c: Rows, k: Str)
    requires Has(a, b, k) && Has(b, c, k)
    ensures Has(a, c, k)
  {
  }

  // ------------------------------------------------------------ any interleaving

  /** A pass under way: the remote rows read so far, and then the local rows being pushed,
      as they stood when the scan was opened. */
  datatype Session = Pulling(seen: Rows) | Pushing(seen: Rows, scan: Rows)

  datatype Net = Net(nodes: seq<Rows>, remote: Rows, sessions: map<nat, Session>)

  datatype Move =
    | Begin(n: nat)
    | Fetch(n: nat, k: Str)
    | Adopt(n: nat, k: Str)
    | OpenScan(n: nat)
    | Push(n: nat, k: Str)
    | Stop(n: nat)
    | Write(n: nat, k: Str, row: Row)

  /** What may happen next. A write is newer than the row it replaces. Passes may stop at
      any point, as they do when the store fails. */
  predicate Enabled(net: Net, m: Move) {
    m.n < |net.nodes| &&
    match m
    case Begin(_) => true
    case Fetch(n, k) => n in net.sessions && net.sessions[n].Pulling? && k in net.remote
    case Adopt(n, k) => n in net.sessions && net.sessions[n].Pulling? && k in net.sessions[n].seen
    case OpenScan(n) => n in net.sessions && net.sessions[n].Pulling?
    case Push(n, k) => n in net.sessions && net.sessions[n].Pushing? && k in net.sessions[n].scan
    case Stop(_) => true
    case Write(n, k, row) => k in net.nodes[n] ==> row.at > net.nodes[n][k].at
  }

  function Moved(net: Net, m: Move): Net
    requires Enabled(net, m)
  {
    match m
    case Begin(n) => net.(sessions := net.sessions[n := Pulling(map[])])
    case Fetch(n, k) => net.(sessions := net.sessions[n := Pulling(net.sessions[n].seen[k := net.remote[k]])])
    case Adopt(n, k) =>
      var seen := net.sessions[n].seen;
      if Wins(net.nodes[n], seen, k) then net.(nodes := net.nodes[n := net.nodes[n][k := seen[k]]]) else net
    case OpenScan(n) => net.(sessions := net.sessions[n := Pushing(net.sessions[n].seen, net.nodes[n])])
    case Push(n, k) =>
      var p := net.sessions[n];
      if Wins(p.seen, p.scan, k) then net.(remote := net.remote[k := p.scan[k]]) else net
    case Stop(n) => net.(sessions := net.sessions - {n})
    case Write(n, k, row) => net.(nodes := net.nodes[n := net.nodes[n][k := row]])
  }

  /** No row goes back to an older time. */
  ghost predicate NoOlder(before: Rows, after: Rows) {
    forall k :: k in before ==> k in after && (before[k].at < after[k].at || after[k] == before[k])
  }

  /** Some node holds a row of k at least as recent. */
  ghost predicate Safe(net: Net, k: Str, at: Time) {
    exists i :: 0 <= i < |net.nodes| && k in net.nodes[i] && net.nodes[i][k].at >= at
  }

  ghost predicate AllSafe(net: Net, rows: Rows) {
    forall k :: k in rows ==> Safe(net, k, rows[k].at)
  }

  /** Everything in flight -- stored, read or about to be pushed -- is no newer than what
      some node holds. */
  ghost predicate Covered(net: Net) {
    && AllSafe(net, net.remote)
    && forall n :: n in net.sessions ==>
         AllSafe(net, net.sessions[n].seen) && (net.sessions[n].Pushing? ==> AllSafe(net, net.sessions[n].scan))
  }

  ghost predicate LegitNet(net: Net, stamps: map<(Str, Time), Row>) {
    && Legit(net.remote, stamps)
    && (forall i :: 0 <= i < |net.nodes| ==> Legit(net.nodes[i], stamps))
    && (forall n :: n in net.sessions ==>
          Legit(net.sessions[n].seen, stamps) && (net.sessions[n].Pushing? ==> Legit(net.sessions[n].scan, stamps)))
  }

  ghost predicate NodesForward(a: Net, b: Net) {
    |a.nodes| == |b.nodes| && forall i :: 0 <= i < |a.nodes| ==> NoOlder(a.nodes[i], b.nodes[i])
  }

  lemma SafeForward(a: Net, b: Net, k: Str, at: Time)
    requires NodesForward(a, b) && Safe(a, k, at)
    ensures Safe(b, k, at)
  {
    var i :| 0 <= i < |a.nodes| && k in a.nodes[i] && a.nodes[i][k].at >= at;
    assert NoOlder(a.nodes[i], b.nodes[i]);
  }

  lemma AllSafeForward(a: Net, b: Net, rows: Rows)
    requires NodesForward(a, b) && AllSafe(a, rows)
    ensures AllSafe(b, rows)
  {
    forall k | k in rows
      ensures Safe(b, k, rows[k].at)
    {
      SafeForward(a, b, k, rows[k].at);
    }
  }

  lemma OwnRowsSafe(net: Net, n: nat)
    requires n < |net.nodes|
    ensures AllSafe(net, net.nodes[n])
  {
  }

  /** No step takes any node's row back in time. */
  lemma MoveForward(net: Net, m: Move)
    requires Enabled(net, m)
    ensures NodesForward(net, Moved(net, m))
  {
  }

  lemma CoveredForward(a: Net, b: Net)
    requires Covered(a) && NodesForward(a, b) && b.remote == a.remote && b.sessions == a.sessions
    ensures Covered(b)
  {
    hide AllSafe, NodesForward;
    AllSafeForward(a, b, a.remote);
    forall n | n in a.sessions
      ensures AllSafe(b, a.sessions[n].seen) && (a.sessions[n].Pushing? ==> AllSafe(b, a.sessions[n].scan))
    {
      AllSafeForward(a, b, a.sessions[n].seen);
      if a.sessions[n].Pushing? {
        AllSafeForward(a, b, a.sessions[n].scan);
      }
    }
  }

  lemma PutSafe(net: Net, rows: Rows, k: Str, row: Row)
    requires AllSafe(net, rows) && Safe(net, k, row.at)
    ensures AllSafe(net, rows[k := row])
  {
  }

  lemma SameNodesSafe(a: Net, b: Net)
    requires a.nodes == b.nodes
    ensures forall rows :: AllSafe(a, rows) <==> AllSafe(b, rows)
  {
    forall rows
      ensures AllSafe(a, rows) <==> AllSafe(b, rows)
    {
      assert forall k, t :: Safe(a, k, t) <==> Safe(b, k, t);
    }
  }

  lemma MoveCovered(net: Net, m: Move)
    requires Enabled(net, m) && Covered(net)
    ensures Covered(Moved(net, m))
  {
    hide AllSafe, Safe, NodesForward;
    var b := Moved(net, m);
    match m
    case Write(_, _, _) =>
      MoveForward(net, m);
      CoveredForward(net, b);
    case Adopt(_, _) =>
      MoveForward(net, m);
      CoveredForward(net, b);
    case Begin(n) =>
      SameNodesSafe(net, b);
      NothingSafe(b);
    case Fetch(n, k) =>
      SameNodesSafe(net, b);
      RowSafe(net, net.remote, k);
      PutSafe(net, net.sessions[n].seen, k, net.remote[k]);
    case OpenScan(n) =>
      SameNodesSafe(net, b);
      OwnRowsSafe(net, n);
    case Push(n, k) =>
      SameNodesSafe(net, b);
      RowSafe(net, net.sessions[n].scan, k);
      PutSafe(net, net.remote, k, net.sessions[n].scan[k]);
    case Stop(n) => SameNodesSafe(net, b);
  }

  lemma NothingSafe(net: Net)
    ensures AllSafe(net, map[])
  {
  }

  lemma RowSafe(net: Net, rows: Rows, k: Str)
    requires AllSafe(net, rows) && k in rows
    ensures Safe(net, k, rows[k].at)
  {
  }

  /** The move writes only rows its timestamp identifies. */
  ghost predicate Stamped(m: Move, stamps: map<(Str, Time), Row>) {
    m.Write? ==> (m.k, m.row.at) in stamps && stamps[(m.k, m.row.at)] == m.row
  }

  lemma MoveLegit(net: Net, m: Move, stamps: map<(Str, Time), Row>)
    requires Enabled(net, m) && LegitNet(net, stamps) && Stamped(m, stamps)
    ensures LegitNet(Moved(net, m), stamps)
  {
  }

  /** nets is what a sequence of moves leads through, from an empty store. */
  ghost predicate History(nets: seq<Net>, moves: seq<Move>, stamps: map<(Str, Time), Row>) {
    && |nets| == |moves| + 1
    && nets[0].remote == map[] && nets[0].sessions == map[]
    && (forall i :: 0 <= i < |nets[0].nodes| ==> Legit(nets[0].nodes[i], stamps))
    && forall t :: 0 <= t < |moves| ==>
         Enabled(nets[t], moves[t]) && Stamped(moves[t], stamps) && nets[t + 1] == Moved(nets[t], moves[t])
  }

  lemma {:induction false} HistoryInvariant(nets: seq<Net>, moves: seq<Move>, stamps: map<(Str, Time), Row>, t: nat)
    requires History(nets, moves, stamps) && t < |nets|
    ensures Covered(nets[t]) && LegitNet(nets[t], stamps)
  {
    hide Covered, LegitNet, Enabled, Moved, Stamped;
    if t == 0 {
      StartCovered(nets[0], stamps);
    } else {
      HistoryInvariant(nets, moves, stamps, t - 1);
      MoveCovered(nets[t - 1], moves[t - 1]);
      MoveLegit(nets[t - 1], moves[t - 1], stamps);
    }
  }

  lemma StartCovered(net: Net, stamps: map<(Str, Time), Row>)
    requires net.remote == map[] && net.sessions == map[] &&
      forall i :: 0 <= i < |net.nodes| ==> Legit(net.nodes[i], stamps)
    ensures Covered(net) && LegitNet(net, stamps)
  {
  }

  lemma ForwardTransitive(a: Net, b: Net, c: Net)
    requires NodesForward(a, b) && NodesForward(b, c)
    ensures NodesForward(a, c)
  {
    forall i | 0 <= i < |a.nodes|
      ensures NoOlder(a.nodes[i], c.nodes[i])
    {
      assert NoOlder(a.nodes[i], b.nodes[i]) && NoOlder(b.nodes[i], c.nodes[i]);
    }
  }

  /** Under any interleaving no local row ever moves to an older timestamp. */
  lemma {:induction false} NeverBackwards(nets: seq<Net>, moves: seq<Move>, stamps: map<(Str, Time), Row>, s: nat,
                                          t: nat)
    requires History(nets, moves, stamps) && s <= t < |nets|
    ensures NodesForward(nets[s], nets[t])
    decreases t
  {
    hide Enabled, Moved, Stamped, NodesForward;
    if s == t {
      SameNet(nets[s]);
    } else {
      NeverBackwards(nets, moves, stamps, s, t - 1);
      MoveForward(nets[t - 1], moves[t - 1]);
      ForwardTransitive(nets[s], nets[t - 1], nets[t]);
    }
  }

  lemma SameNet(net: Net)
    ensures NodesForward(net, net)
  {
  }

  /** A row of key k that some node, the store or a pass under way holds. */
  ghost predicate Present(net: Net, k: Str, row: Row) {
    || (k in net.remote && net.remote[k] == row)
    || (exists i :: 0 <= i < |net.nodes| && k in net.nodes[i] && net.nodes[i][k] == row)
    || (exists n :: n in net.sessions && k in net.sessions[n].seen && net.sessions[n].seen[k] == row)
    || (exists n ::
          n in net.sessions && net.sessions[n].Pushing? && k in net.sessions[n].scan && net.sessions[n].scan[k] == row)
  }

  lemma PresentSafe(net: Net, k: Str, row: Row)
    requires Covered(net) && Present(net, k, row)
    ensures Safe(net, k, row.at)
  {
    if i :| 0 <= i < |net.nodes| && k in net.nodes[i] && net.nodes[i][k] == row {
      OwnRowsSafe(net, i);
    }
  }

  /** Under any interleaving, a row nobody has surpassed is held by some node for good: if
      row was present at time s and nothing newer for its key is present at time t, a node
      holds exactly that row at time t. */
  lemma NewestSurvives(nets: seq<Net>, moves: seq<Move>, stamps: map<(Str, Time), Row>, s: nat, t: nat, k: Str,
                       row: Row)
    requires History(nets, moves, stamps) && s <= t < |nets| && Present(nets[s], k, row)
    requires (k, row.at) in stamps && stamps[(k, row.at)] == row
    requires forall other :: Present(nets[t], k, other) ==> other.at <= row.at
    ensures exists i :: 0 <= i < |nets[t].nodes| && k in nets[t].nodes[i] && nets[t].nodes[i][k] == row
  {
    hide Enabled, Moved, Stamped, Covered;
    HistoryInvariant(nets, moves, stamps, s);
    HistoryInvariant(nets, moves, stamps, t);
    PresentSafe(nets[s], k, row);
    NeverBackwards(nets, moves, stamps, s, t);
    SafeForward(nets[s], nets[t], k, row.at);
    var i :| 0 <= i < |nets[t].nodes| && k in nets[t].nodes[i] && nets[t].nodes[i][k].at >= row.at;
    assert Present(nets[t], k, nets[t].nodes[i][k]);
  }

  /** Some row is gone or older. */
  ghost predicate TakenBack(before: Rows, after: Rows) {
    exists k :: k in before && (k !in after || after[k].at < before[k].at)
  }

  /** The store itself can go back: a push takes a row of it back exactly when the pass read
      the store before a newer row arrived. This is why the guarantee is about the nodes. */
  lemma StoreRegressesIff(net: Net, n: nat, k: Str)
    requires Enabled(net, Push(n, k))
    ensures var seen, scan := net.sessions[n].seen, net.sessions[n].scan;
            TakenBack(net.remote, Moved(net, Push(n, k)).remote) <==>
            Wins(seen, scan, k) && k in net.remote && net.remote[k].at > scan[k].at
  {
    var p, after := net.sessions[n], Moved(net, Push(n, k)).remote;
    if Wins(p.seen, p.scan, k) && k in net.remote && net.remote[k].at > p.scan[k].at {
      assert after[k].at < net.remote[k].at;
    }
  }

  /** No other move takes the store back. */
  lemma OnlyPushesRegress(net: Net, m: Move)
    requires Enabled(net, m) && !m.Push?
    ensures !TakenBack(net.remote, Moved(net, m).remote)
  {
  }

  /** Two nodes with an old and a new row of one key; both passes read the empty store, the
      new row is pushed first, and the old one over it. */
  function OldRow(): Row { Row(map[], [], 1) }
  function NewRow(): Row { Row(map[], [], 2) }

  const OVERTAKEN: seq<Move> := [Begin(0), OpenScan(0), Begin(1), OpenScan(1), Push(1, []), Push(0, [])]

  function Start(): Net { Net([map[[] := OldRow()], map[[] := NewRow()]], map[], map[]) }

  /** The nets the moves lead through. */
  function Overtaken(): seq<Net> {
    var nodes := Start().nodes;
    var a, b := Pushing(map[], nodes[0]), Pushing(map[], nodes[1]);
    [Start(), Net(nodes, map[], map[0 := Pulling(map[])]), Net(nodes, map[], map[0 := a]),
     Net(nodes, map[], map[0 := a, 1 := Pulling(map[])]), Net(nodes, map[], map[0 := a, 1 := b]),
     Net(nodes, map[[] := NewRow()], map[0 := a, 1 := b]), Net(nodes, map[[] := OldRow()], map[0 := a, 1 := b])]
  }

  /** That history is one, and its last move takes the store back. */
  lemma StoreCanRegress()
    ensures History(Overtaken(), OVERTAKEN, map[([], 1) := OldRow(), ([], 2) := NewRow()])
    ensures TakenBack(Overtaken()[5].remote, Overtaken()[6].remote)
  {
    var nets := Overtaken();
    forall t | 0 <= t < 6
      ensures Enabled(nets[t], OVERTAKEN[t]) && nets[t + 1] == Moved(nets[t], OVERTAKEN[t])
    {
      OvertakenStep(t);
    }
    assert [] in nets[5].remote;
  }

  lemma OvertakenStep(t: nat)
    requires t < 6
    ensures var nets := Overtaken(); Enabled(nets[t], OVERTAKEN[t]) && nets[t + 1] == Moved(nets[t], OVERTAKEN[t])
  {
    var nets := Overtaken();
    if t == 4 {
      assert Wins(map[], nets[4].nodes[1], []);
    } else if t == 5 {
      assert Wins(map[], nets[5].nodes[0], []);
    }
  }

  // ------------------------------------------------------------ the pass itself

  class Node {
    var rows: Rows

    constructor (initial: Rows)
      ensures rows == initial
    {
      rows := initial;
    }
  }

  /** Objects by name; one that cannot be read, or whose bytes do not decode, is None. */
  class ObjectStore {
    var objects: map<Str, Option<Row>>

    constructor ()
      ensures objects == map[]
    {
      objects := map[];
    }
  }

  /** Every object is foreign, or named as a row's object is. */
  ghost predicate Tidy(prefix: Str, objects: map<Str, Option<Row>>) {
    forall name :: name in objects && KeyFromName(prefix, name).Some? ==>
      name == NameFor(prefix, KeyFromName(prefix, name).value)
  }

  /** The object holds the row of this key. */
  ghost predicate Carries(prefix: Str, objects: map<Str, Option<Row>>, name: Str, k: Str, row: Row) {
    name in objects && KeyFromName(prefix, name) == Some(k) && objects[name] == Some(row)
  }

  /** The rows of a tidy store. */
  ghost predicate RowsOf(prefix: Str, objects: map<Str, Option<Row>>, rows: Rows) {
    && (forall name :: name in objects && KeyFromName(prefix, name).Some? ==>
          KeyFromName(prefix, name).value in rows && objects[name] == Some(rows[KeyFromName(prefix, name).value]))
    && (forall k :: k in rows ==> Carries(prefix, objects, NameFor(prefix, k), k, rows[k]))
  }

  // ------------------------------------------------------------ pulling

  /** The rows read so far, in the order read. Two objects may spell one key differently. */
  type Trail = seq<(Str, Row)>

  /** The last row read of each key. */
  function SeenIn(trail: Trail): Rows {
    if trail == [] then map[] else SeenIn(trail[..|trail| - 1])[trail[|trail| - 1].0 := trail[|trail| - 1].1]
  }

  /** The local rows after adopting, one by one, what is newer. */
  function Adopt(local: Rows, trail: Trail): Rows {
    if trail == [] then local
    else
      var (k, row) := trail[|trail| - 1];
      var was := Adopt(local, trail[..|trail| - 1]);
      if k !in was || row.at > was[k].at then was[k := row] else was
  }

  function Adopted(local: Rows, trail: Trail): nat {
    if trail == [] then 0
    else
      var (k, row) := trail[|trail| - 1];
      var was := Adopt(local, trail[..|trail| - 1]);
      Adopted(local, trail[..|trail| - 1]) + if k !in was || row.at > was[k].at then 1 else 0
  }

  /** The trail reads objects, and those of the names given. */
  ghost predicate Reads(prefix: Str, objects: map<Str, Option<Row>>, names: set<Str>, trail: Trail) {
    && (forall i :: 0 <= i < |trail| ==> Carried(prefix, objects, trail[i].0, trail[i].1))
    && (forall name :: name in names && name in objects && KeyFromName(prefix, name).Some? ==>
          Read(trail, KeyFromName(prefix, name).value, objects[name]))
  }

  ghost predicate Carried(prefix: Str, objects: map<Str, Option<Row>>, k: Str, row: Row) {
    exists name :: Carries(prefix, objects, name, k, row)
  }

  ghost predicate Read(trail: Trail, k: Str, found: Option<Row>) {
    exists i :: 0 <= i < |trail| && trail[i].0 == k && found == Some(trail[i].1)
  }

  lemma ReadsSkip(prefix: Str, objects: map<Str, Option<Row>>, names: set<Str>, trail: Trail, name: Str)
    requires Reads(prefix, objects, names, trail) && KeyFromName(prefix, name).None?
    ensures Reads(prefix, objects, names + {name}, trail)
  {
    hide KeyFromName;
  }

  lemma ReadsOne(prefix: Str, objects: map<Str, Option<Row>>, names: set<Str>, trail: Trail, name: Str, k: Str,
                 row: Row)
    requires Reads(prefix, objects, names, trail) && Carries(prefix, objects, name, k, row)
    ensures Reads(prefix, objects, names + {name}, trail + [(k, row)])
  {
    hide KeyFromName;
    var n := trail + [(k, row)];
    forall x | x in names + {name} && x in objects && KeyFromName(prefix, x).Some?
      ensures Read(n, KeyFromName(prefix, x).value, objects[x])
    {
      var c := KeyFromName(prefix, x).value;
      if x == name {
        assert n[|trail|] == (k, row);
      } else {
        assert Read(trail, c, objects[x]);
        var i :| 0 <= i < |trail| && trail[i].0 == c && objects[x] == Some(trail[i].1);
        assert n[i] == trail[i];
      }
    }
    assert Carried(prefix, objects, k, row);
  }

  /** Whatever the spellings: a node ends with rows it had or read, none older than either. */
  lemma {:induction false} AdoptNewest(local: Rows, trail: Trail)
    ensures NoOlder(local, Adopt(local, trail))
    ensures forall i :: 0 <= i < |trail| ==>
              trail[i].0 in Adopt(local, trail) && Adopt(local, trail)[trail[i].0].at >= trail[i].1.at
    ensures forall k :: k in Adopt(local, trail) ==>
              (k in local && Adopt(local, trail)[k] == local[k]) || (k, Adopt(local, trail)[k]) in trail
  {
    if trail != [] {
      var n := |trail| - 1;
      AdoptNewest(local, trail[..n]);
      assert trail == trail[..n] + [trail[n]];
      assert forall i :: 0 <= i < n ==> trail[i] == trail[..n][i];
    }
  }

  /** Each key is read once. */
  ghost predicate Once(trail: Trail) {
    forall i, j :: 0 <= i < j < |trail| ==> trail[i].0 != trail[j].0
  }

  lemma {:induction false} SeenKeys(trail: Trail)
    ensures forall k :: k in SeenIn(trail) ==> (k, SeenIn(trail)[k]) in trail
    ensures forall i :: 0 <= i < |trail| ==> trail[i].0 in SeenIn(trail)
    ensures Once(trail) ==> forall i :: 0 <= i < |trail| ==> SeenIn(trail)[trail[i].0] == trail[i].1
  {
    if trail != [] {
      var n := |trail| - 1;
      SeenKeys(trail[..n]);
      assert trail == trail[..n] + [trail[n]];
      assert forall i :: 0 <= i < n ==> trail[i] == trail[..n][i];
    }
  }

  /** Then adopting one by one merges, and the count is of the rows won. */
  lemma {:induction false} AdoptMerges(local: Rows, trail: Trail)
    requires Once(trail)
    ensures Adopt(local, trail) == Merge(local, SeenIn(trail)) && Adopted(local, trail) == |Pulls(local, SeenIn(trail))|
  {
    if trail == [] {
      assert Merge(local, map[]) == local;
    } else {
      hide Merge, Pulls, Wins;
      var n := |trail| - 1;
      assert forall i :: 0 <= i < n ==> trail[i] == trail[..n][i];
      AdoptMerges(local, trail[..n]);
      LastUnseen(trail);
      AdoptOne(local, trail);
    }
  }

  lemma AdoptOne(local: Rows, trail: Trail)
    requires trail != [] && trail[|trail| - 1].0 !in SeenIn(trail[..|trail| - 1])
    requires var rest := trail[..|trail| - 1];
             Adopt(local, rest) == Merge(local, SeenIn(rest)) && Adopted(local, rest) == |Pulls(local, SeenIn(rest))|
    ensures Adopt(local, trail) == Merge(local, SeenIn(trail)) && Adopted(local, trail) == |Pulls(local, SeenIn(trail))|
  {
    hide Merge, Pulls, Wins;
    var n := |trail| - 1;
    MergeAdds(local, SeenIn(trail[..n]), trail[n].0, trail[n].1);
  }

  lemma LastUnseen(trail: Trail)
    requires Once(trail) && trail != []
    ensures trail[|trail| - 1].0 !in SeenIn(trail[..|trail| - 1])
  {
    var n := |trail| - 1;
    SeenKeys(trail[..n]);
    hide SeenIn;
    assert forall x :: x in trail[..n] ==> x.0 != trail[n].0;
  }

  lemma MergeAdds(local: Rows, seen: Rows, k: Str, row: Row)
    requires k !in seen
    ensures var m := Merge(local, seen);
            var next := Merge(local, seen[k := row]);
            && (Wins(local, map[k := row], k) <==> k !in m || row.at > m[k].at)
            && next == (if Wins(local, map[k := row], k) then m[k := row] else m)
            && Pulls(local, seen[k := row]) == Pulls(local, seen) + (if Wins(local, map[k := row], k) then {k} else {})
            && k !in Pulls(local, seen)
  {
    var m, next := Merge(local, seen), Merge(local, seen[k := row]);
    if Wins(local, map[k := row], k) {
      assert next == m[k := row];
    } else {
      assert next == m;
    }
  }

  /** done is what a loop over all has finished with when left is to do. */
  ghost predicate Split(all: set<Str>, left: set<Str>, done: set<Str>) {
    forall x :: x in all <==> x in left || x in done
  }

  lemma SplitOne(all: set<Str>, left: set<Str>, done: set<Str>, x: Str)
    requires Split(all, left, done) && left !! done && x in left
    ensures Split(all, left - {x}, done + {x}) && left - {x} !! done + {x} && x in all && x !in done
  {
  }

  lemma SplitEnd(all: set<Str>, done: set<Str>)
    requires Split(all, {}, done)
    ensures done == all
  {
  }

  lemma TrailSnoc(local: Rows, trail: Trail, k: Str, row: Row)
    ensures SeenIn(trail + [(k, row)]) == SeenIn(trail)[k := row]
    ensures var was := Adopt(local, trail);
            && Adopt(local, trail + [(k, row)]) == (if k !in was || row.at > was[k].at then was[k := row] else was)
            && Adopted(local, trail + [(k, row)]) == Adopted(local, trail) +
              if k !in was || row.at > was[k].at then 1 else 0
  {
    assert (trail + [(k, row)])[..|trail|] == trail;
  }

  /** In a tidy store no key is read twice. */
  ghost predicate FromNames(prefix: Str, objects: map<Str, Option<Row>>, names: set<Str>, trail: Trail) {
    Tidy(prefix, objects) ==> Once(trail) && forall i :: 0 <= i < |trail| ==> NameFor(prefix, trail[i].0) in names
  }

  lemma FromNamesOne(prefix: Str, objects: map<Str, Option<Row>>, names: set<Str>, trail: Trail, name: Str, k: Str,
                     row: Row)
    requires FromNames(prefix, objects, names, trail) && name !in names && Carries(prefix, objects, name, k, row)
    ensures FromNames(prefix, objects, names + {name}, trail + [(k, row)])
  {
    hide KeyFromName, NameFor;
  }

  /** Pull what is newer in the store. The pass stops at a row that cannot be read or decoded. */
  method Pull(s: Node, remote: ObjectStore, prefix: Str)
    returns (seen: Rows, pulled: nat, ok: bool, ghost trail: Trail)
    modifies s
    ensures seen == SeenIn(trail) && s.rows == Adopt(old(s.rows), trail) && pulled == Adopted(old(s.rows), trail)
    ensures Reads(prefix, remote.objects, if ok then remote.objects.Keys else {}, trail)
    ensures Tidy(prefix, remote.objects) ==> Once(trail)
  {
    seen, pulled, trail := map[], 0, [];
    var names := remote.objects.Keys;
    ghost var done: set<Str> := {};
    while names != {}
      invariant Split(remote.objects.Keys, names, done) && names !! done
      invariant Reads(prefix, remote.objects, done, trail) && FromNames(prefix, remote.objects, done, trail)
      invariant seen == SeenIn(trail) && s.rows == Adopt(old(s.rows), trail) && pulled == Adopted(old(s.rows), trail)
      decreases |names|
    {
      hide Reads, FromNames, KeyFromName, Split, Adopt, Adopted, SeenIn;
      var name :| name in names;
      SplitOne(remote.objects.Keys, names, done, name);
      names := names - {name};
      match KeyFromName(prefix, name) {
        case None =>
          ReadsSkip(prefix, remote.objects, done, trail, name);
          MoreNames(prefix, remote.objects, done, trail, name);
        case Some(k) =>
          if remote.objects[name].None? {
            FewerNames(prefix, remote.objects, done, trail);
            return seen, pulled, false, trail;
          }
          var row := remote.objects[name].value;
          ReadsOne(prefix, remote.objects, done, trail, name, k, row);
          FromNamesOne(prefix, remote.objects, done, trail, name, k, row);
          TrailSnoc(old(s.rows), trail, k, row);
          if k !in s.rows || row.at > s.rows[k].at {
            s.rows := s.rows[k := row];
            pulled := pulled + 1;
          }
          seen := seen[k := row];
          trail := trail + [(k, row)];
      }
      done := done + {name};
    }
    SplitEnd(remote.objects.Keys, done);
    ok := true;
  }

  lemma MoreNames(prefix: Str, objects: map<Str, Option<Row>>, names: set<Str>, trail: Trail, name: Str)
    requires FromNames(prefix, objects, names, trail)
    ensures FromNames(prefix, objects, names + {name}, trail)
  {
    hide Tidy, NameFor;
  }

  lemma FewerNames(prefix: Str, objects: map<Str, Option<Row>>, names: set<Str>, trail: Trail)
    requires Reads(prefix, objects, names, trail) && FromNames(prefix, objects, names, trail)
    ensures Reads(prefix, objects, {}, trail) && (Tidy(prefix, objects) ==> Once(trail))
  {
    hide Tidy, KeyFromName, NameFor;
    assert Reads(prefix, objects, {}, trail);
  }

  /** The rows of a tidy store are what a pull that met no undecodable row has seen. */
  lemma ReadsRows(prefix: Str, objects: map<Str, Option<Row>>, trail: Trail)
    requires Reads(prefix, objects, objects.Keys, trail) && Tidy(prefix, objects) && Once(trail)
    ensures RowsOf(prefix, objects, SeenIn(trail))
  {
    hide KeyFromName, NameFor;
    SeenKeys(trail);
    var rows := SeenIn(trail);
    forall k | k in rows
      ensures Carries(prefix, objects, NameFor(prefix, k), k, rows[k])
    {
      var i :| 0 <= i < |trail| && trail[i] == (k, rows[k]);
      assert Carried(prefix, objects, trail[i].0, trail[i].1);
      var name :| Carries(prefix, objects, name, trail[i].0, trail[i].1);
      assert name == NameFor(prefix, k);
    }
  }

  // ------------------------------------------------------------ pushing

  /** The objects after the rows of some keys were put. */
  ghost predicate Puts(prefix: Str, before: map<Str, Option<Row>>, after: map<Str, Option<Row>>, rows: Rows,
                       keys: set<Str>) {
    && (forall k :: k in keys && k in rows ==>
          NameFor(prefix, k) in after && after[NameFor(prefix, k)] == Some(rows[k]))
    && (forall name :: name in after ==> name in before || exists k :: k in keys && name == NameFor(prefix, k))
    && (forall name :: name in before && (forall k :: k in keys ==> name != NameFor(prefix, k)) ==>
          name in after && after[name] == before[name])
    && (forall name :: name in before ==> name in after)
  }

  lemma PutsOne(prefix: Str, before: map<Str, Option<Row>>, after: map<Str, Option<Row>>, rows: Rows, keys: set<Str>,
                k: Str)
    requires Puts(prefix, before, after, rows, keys) && k in rows
    ensures Puts(prefix, before, after[NameFor(prefix, k) := Some(rows[k])], rows, keys + {k})
  {
    hide NameFor;
    OtherNames(prefix, k);
    var n := after[NameFor(prefix, k) := Some(rows[k])];
    forall name | name in before && (forall x :: x in keys + {k} ==> name != NameFor(prefix, x))
      ensures name in n && n[name] == before[name]
    {
      assert k in keys + {k} && forall x :: x in keys ==> x in keys + {k};
    }
    forall name | name in n
      ensures name in before || exists x :: x in keys + {k} && name == NameFor(prefix, x)
    {
      if name == NameFor(prefix, k) {
        assert k in keys + {k};
      } else if name !in before {
        var x :| x in keys && name == NameFor(prefix, x);
        assert x in keys + {k};
      }
    }
  }

  lemma PushesOne(rows: Rows, seen: Rows, done: set<Str>, k: Str)
    requires k in rows && k !in done
    ensures Pushes(rows, seen) * (done + {k}) == Pushes(rows, seen) * done + if Wins(seen, rows, k) then {k} else {}
    ensures |Pushes(rows, seen) * (done + {k})| == |Pushes(rows, seen) * done| + if Wins(seen, rows, k) then 1 else 0
  {
    var sent := Pushes(rows, seen);
    if Wins(seen, rows, k) {
      assert sent * (done + {k}) == sent * done + {k};
    } else {
      assert sent * (done + {k}) == sent * done;
    }
  }

  /** What a push has done: put the rows of the keys sent, which are those to send among the
      keys done, and no more than puts. */
  ghost predicate Sending(prefix: Str, before: map<Str, Option<Row>>, after: map<Str, Option<Row>>, rows: Rows,
                          seen: Rows,
                          done: set<Str>, pushed: nat, puts: nat) {
    && Puts(prefix, before, after, rows, Pushes(rows, seen) * done)
    && pushed == |Pushes(rows, seen) * done| <= puts
  }

  lemma SendNone(prefix: Str, objects: map<Str, Option<Row>>, rows: Rows, seen: Rows, puts: nat)
    ensures Sending(prefix, objects, objects, rows, seen, {}, 0, puts)
  {
    assert Pushes(rows, seen) * {} == {};
  }

  /** A key whose row the store already holds as recent is passed over, any other is sent. */
  lemma SendOne(prefix: Str, before: map<Str, Option<Row>>, after: map<Str, Option<Row>>, rows: Rows, seen: Rows,
                done: set<Str>, pushed: nat, puts: nat, k: Str)
    requires Sending(prefix, before, after, rows, seen, done, pushed, puts) && k in rows && k !in done
    ensures if Wins(seen, rows, k) then
              && (pushed < puts ==> Sending(prefix, before, after[NameFor(prefix, k) := Some(rows[k])], rows, seen,
                                            done + {k}, pushed + 1, puts))
              && pushed < |Pushes(rows, seen)|
            else Sending(prefix, before, after, rows, seen, done + {k}, pushed, puts)
  {
    hide Puts, NameFor;
    PushesOne(rows, seen, done, k);
    if Wins(seen, rows, k) {
      PutsOne(prefix, before, after, rows, Pushes(rows, seen) * done, k);
      assert k in Pushes(rows, seen);
      SubsetSmaller(Pushes(rows, seen) * done, Pushes(rows, seen), k);
    } else {
      assert Pushes(rows, seen) * done + {} == Pushes(rows, seen) * done;
    }
  }

  lemma SubsetSmaller(a: set<Str>, b: set<Str>, k: Str)
    requires a <= b && k in b && k !in a
    ensures |a| < |b|
  {
    assert b == a + (b - a);
    assert k in b - a;
  }

  lemma SendAll(prefix: Str, before: map<Str, Option<Row>>, after: map<Str, Option<Row>>, rows: Rows, seen: Rows,
                pushed: nat, puts: nat)
    requires Sending(prefix, before, after, rows, seen, rows.Keys, pushed, puts)
    ensures Puts(prefix, before, after, rows, Pushes(rows, seen)) && pushed == |Pushes(rows, seen)| <= puts
  {
    assert Pushes(rows, seen) * rows.Keys == Pushes(rows, seen);
  }

  /** Push what the store lacked, or held older, when it was read, and nothing else. The store
      takes no more than puts; a push it refuses ends the pass. */
  method PushRows(s: Node, remote: ObjectStore, prefix: Str, seen: Rows, puts: nat)
    returns (pushed: nat, ok: bool, ghost done: set<Str>)
    modifies remote
    ensures Puts(prefix, old(remote.objects), remote.objects, s.rows, Pushes(s.rows, seen) * done)
    ensures pushed == |Pushes(s.rows, seen) * done| && (ok <==> |Pushes(s.rows, seen)| <= puts)
    ensures if ok then done == s.rows.Keys else pushed == puts
  {
    hide Sending, Split, NameFor, Pushes, Puts;
    pushed, done := 0, {};
    var keys := s.rows.Keys;
    SendNone(prefix, remote.objects, s.rows, seen, puts);
    assert Split(s.rows.Keys, keys, done) by {
      SplitStart(s.rows.Keys);
    }
    while keys != {}
      invariant Split(s.rows.Keys, keys, done) && keys !! done
      invariant Sending(prefix, old(remote.objects), remote.objects, s.rows, seen, done, pushed, puts)
      decreases |keys|
    {
      var k :| k in keys;
      SplitOne(s.rows.Keys, keys, done, k);
      SendOne(prefix, old(remote.objects), remote.objects, s.rows, seen, done, pushed, puts, k);
      if !(k in seen && s.rows[k].at <= seen[k].at) {
        if pushed >= puts {
          SentSoFar(prefix, old(remote.objects), remote.objects, s.rows, seen, done, pushed, puts);
          return pushed, false, done;
        }
        remote.objects := remote.objects[NameFor(prefix, k) := Some(s.rows[k])];
        pushed := pushed + 1;
      }
      keys := keys - {k};
      done := done + {k};
    }
    SplitEnd(s.rows.Keys, done);
    SentSoFar(prefix, old(remote.objects), remote.objects, s.rows, seen, done, pushed, puts);
    SendAll(prefix, old(remote.objects), remote.objects, s.rows, seen, pushed, puts);
    ok := true;
  }

  lemma SplitStart(all: set<Str>)
    ensures Split(all, all, {})
  {
  }

  lemma SentSoFar(prefix: Str, before: map<Str, Option<Row>>, after: map<Str, Option<Row>>, rows: Rows, seen: Rows,
                  done: set<Str>, pushed: nat, puts: nat)
    requires Sending(prefix, before, after, rows, seen, done, pushed, puts)
    ensures Puts(prefix, before, after, rows, Pushes(rows, seen) * done)
    ensures pushed == |Pushes(rows, seen) * done| <= puts
  {
  }

  lemma OtherNames(prefix: Str, k: Str)
    ensures forall x :: NameFor(prefix, x) == NameFor(prefix, k) ==> x == k
  {
    forall x | NameFor(prefix, x) == NameFor(prefix, k)
      ensures x == k
    {
      DistinctKeysDistinctNames(prefix, x, k);
    }
  }

  lemma NamesDecode(prefix: Str)
    ensures forall k :: KeyFromName(prefix, NameFor(prefix, k)) == Some(k)
  {
    forall k
      ensures KeyFromName(prefix, NameFor(prefix, k)) == Some(k)
    {
      NameRoundTrip(prefix, k);
    }
  }

  lemma PutsTidy(prefix: Str, before: map<Str, Option<Row>>, after: map<Str, Option<Row>>, rows: Rows, keys: set<Str>)
    requires Puts(prefix, before, after, rows, keys) && Tidy(prefix, before)
    ensures Tidy(prefix, after)
  {
    NamesDecode(prefix);
    hide KeyFromName, NameFor;
  }

  /** Pushing into a tidy store gives the store the pushed rows. */
  lemma PutsRows(prefix: Str, before: map<Str, Option<Row>>, after: map<Str, Option<Row>>, rows: Rows, seen: Rows)
    requires Puts(prefix, before, after, rows, Pushes(rows, seen)) && Tidy(prefix, before) &&
      RowsOf(prefix, before, seen)
    ensures RowsOf(prefix, after, Pushed(rows, seen))
  {
    hide KeyFromName, NameFor, Puts, Pushed, Pushes;
    PutsTidy(prefix, before, after, rows, Pushes(rows, seen));
    var n := Pushed(rows, seen);
    forall k | k in n
      ensures Carries(prefix, after, NameFor(prefix, k), k, n[k])
    {
      KeptName(prefix, before, after, rows, seen, k);
    }
    forall name | name in after && KeyFromName(prefix, name).Some?
      ensures KeyFromName(prefix, name).value in n
    {
      PushedKey(prefix, before, after, rows, seen, name);
    }
    assert forall name :: name in after && KeyFromName(prefix, name).Some? ==>
        name == NameFor(prefix, KeyFromName(prefix, name).value);
  }

  lemma PushedKey(prefix: Str, before: map<Str, Option<Row>>, after: map<Str, Option<Row>>, rows: Rows, seen: Rows,
                  name: Str)
    requires Puts(prefix, before, after, rows, Pushes(rows, seen)) && RowsOf(prefix, before, seen)
    requires name in after && KeyFromName(prefix, name).Some?
    ensures KeyFromName(prefix, name).value in Pushed(rows, seen)
  {
    NamesDecode(prefix);
    hide KeyFromName, NameFor;
    if name in before {
      assert KeyFromName(prefix, name).value in seen;
    } else {
      var x :| x in Pushes(rows, seen) && name == NameFor(prefix, x);
    }
  }

  lemma KeptName(prefix: Str, before: map<Str, Option<Row>>, after: map<Str, Option<Row>>, rows: Rows, seen: Rows,
                 k: Str)
    requires Puts(prefix, before, after, rows, Pushes(rows, seen)) && RowsOf(prefix, before, seen) &&
      k in Pushed(rows, seen)
    ensures Carries(prefix, after, NameFor(prefix, k), k, Pushed(rows, seen)[k])
  {
    NameRoundTrip(prefix, k);
    OtherNames(prefix, k);
    hide KeyFromName, NameFor;
    if Wins(seen, rows, k) {
      assert k in Pushes(rows, seen);
    } else {
      assert k in seen && Carries(prefix, before, NameFor(prefix, k), k, seen[k]);
      assert forall x :: x in Pushes(rows, seen) ==> NameFor(prefix, x) != NameFor(prefix, k);
    }
  }

  // ------------------------------------------------------------ both ways

  /** Reconcile a node with the store, both ways. The listing may fail, a row may be unreadable,
      and the store may refuse puts beyond some number. Whatever fails, the node ends with the
      newest of what it had and read, and the store with some of the rows to push. Over a tidy
      store a complete pass is a step of the fleet. */
  method SyncOnce(s: Node, remote: ObjectStore, prefix: Str, lists: bool, puts: nat)
    returns (pushed: nat, pulled: nat, ok: bool, ghost read: bool, ghost trail: Trail, ghost done: set<Str>)
    modifies s, remote
    ensures s.rows == Adopt(old(s.rows), trail) && pulled == Adopted(old(s.rows), trail)
    ensures Reads(prefix, old(remote.objects), if read then old(remote.objects).Keys else {}, trail)
    ensures Puts(prefix, old(remote.objects), remote.objects, s.rows, Pushes(s.rows, SeenIn(trail)) * done)
    ensures pushed == |Pushes(s.rows, SeenIn(trail)) * done| && (!read ==> done == {})
    ensures !lists ==> trail == [] && !read
    ensures ok <==> read && |Pushes(s.rows, SeenIn(trail))| <= puts
    ensures ok && Tidy(prefix, old(remote.objects)) ==>
              Reconciled(prefix, old(s.rows), old(remote.objects), s.rows, remote.objects)
  {
    hide Reads, Puts, Tidy, Adopt, Adopted, SeenIn, Reconciled, Pushes;
    pushed, pulled, ok, read, trail, done := 0, 0, false, false, [], {};
    NothingRead(prefix, remote.objects, s.rows);
    NothingPut(prefix, remote.objects, s.rows, SeenIn([]));
    if !lists {
      return;
    }
    var seen: Rows, complete: bool;
    seen, pulled, complete, trail := Pull(s, remote, prefix);
    read := complete;
    NothingPut(prefix, remote.objects, s.rows, seen);
    if complete {
      pushed, ok, done := PushRows(s, remote, prefix, seen, puts);
      if ok && Tidy(prefix, old(remote.objects)) {
        AllPut(s.rows, seen);
        PassReconciles(prefix, old(s.rows), old(remote.objects), trail, s.rows, remote.objects);
      }
    }
  }

  lemma NothingRead(prefix: Str, objects: map<Str, Option<Row>>, rows: Rows)
    ensures Adopt(rows, []) == rows && Adopted(rows, []) == 0 && Reads(prefix, objects, {}, [])
  {
  }

  lemma NothingPut(prefix: Str, objects: map<Str, Option<Row>>, rows: Rows, seen: Rows)
    ensures Puts(prefix, objects, objects, rows, Pushes(rows, seen) * {}) && |Pushes(rows, seen) * {}| == 0
  {
    assert Pushes(rows, seen) * {} == {};
  }

  lemma AllPut(rows: Rows, seen: Rows)
    ensures Pushes(rows, seen) * rows.Keys == Pushes(rows, seen)
  {
  }

  /** The pass takes the node and the rows of the store where a step of a fleet takes them. */
  ghost predicate Reconciled(prefix: Str, local: Rows, before: map<Str, Option<Row>>, rows: Rows,
                             after: map<Str, Option<Row>>) {
    exists remote: Rows ::
      && RowsOf(prefix, before, remote)
      && SyncNode(Fleet([local], remote), 0).nodes[0] == rows
      && RowsOf(prefix, after, SyncNode(Fleet([local], remote), 0).remote)
  }

  lemma PassReconciles(prefix: Str, local: Rows, before: map<Str, Option<Row>>, trail: Trail, rows: Rows,
                       after: map<Str, Option<Row>>)
    requires Tidy(prefix, before) && Once(trail) && Reads(prefix, before, before.Keys, trail) &&
      rows == Adopt(local, trail)
    requires Puts(prefix, before, after, rows, Pushes(rows, SeenIn(trail)))
    ensures Reconciled(prefix, local, before, rows, after)
  {
    hide Reads, Puts, Tidy, Adopt, SeenIn, RowsOf, Merge, Pushed, Pushes;
    var seen := SeenIn(trail);
    ReadsRows(prefix, before, trail);
    AdoptMerges(local, trail);
    PutsRows(prefix, before, after, rows, seen);
    var f := SyncNode(Fleet([local], seen), 0);
    assert f.nodes[0] == rows && f.remote == Pushed(rows, seen);
  }
}
