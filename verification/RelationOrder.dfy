/** The total order of relation ids in which edge lists are walked. */
module RelationOrder {
  import opened Text
  import opened Model

  predicate Before(a: RelationId, b: RelationId) {
    || a.src < b.src
    || (a.src == b.src && a.dst < b.dst)
    || (a.src == b.src && a.dst == b.dst && Less(a.typ, b.typ))
  }

  lemma BeforeTotal(a: RelationId, b: RelationId)
    ensures Before(a, b) || a == b || Before(b, a)
    ensures !(Before(a, b) && Before(b, a)) && !Before(a, a)
  {
    LessTotal(a.typ, b.typ);
    LessIrreflexive(a.typ);
    if Less(a.typ, b.typ) && Less(b.typ, a.typ) {
      LessTransitive(a.typ, b.typ, a.typ);
    }
  }

  lemma BeforeTransitive(a: RelationId, b: RelationId, c: RelationId)
    requires Before(a, b) && Before(b, c)
    ensures Before(a, c)
  {
    if a.src == b.src == c.src && a.dst == b.dst == c.dst {
      LessTransitive(a.typ, b.typ, c.typ);
    }
  }

  predicate IsLeast(s: set<RelationId>, m: RelationId) {
    m in s && forall x :: x in s ==> x == m || Before(m, x)
  }

  lemma {:induction false} LeastExists(s: set<RelationId>)
    requires s != {}
    ensures exists m :: IsLeast(s, m)
    decreases |s|
  {
    var x :| x in s;
    var rest := s - {x};
    if rest == {} {
      assert s == {x};
      assert IsLeast(s, x);
    } else {
      LeastExists(rest);
      var m :| IsLeast(rest, m);
      BeforeTotal(x, m);
      if Before(x, m) {
        forall y | y in s
          ensures y == x || Before(x, y)
        {
          if y != x && y != m {
            BeforeTransitive(x, m, y);
          }
        }
        assert IsLeast(s, x);
      } else {
        assert IsLeast(s, m);
      }
    }
  }

  function Least(s: set<RelationId>): (m: RelationId)
    requires s != {}
    ensures IsLeast(s, m)
  {
    LeastExists(s);
    LeastUnique(s);
    var m :| IsLeast(s, m);
    m
  }

  lemma LeastUnique(s: set<RelationId>)
    ensures forall a, b :: IsLeast(s, a) && IsLeast(s, b) ==> a == b
  {
    forall a, b | IsLeast(s, a) && IsLeast(s, b)
      ensures a == b
    {
      BeforeTotal(a, b);
    }
  }

  /** The ids of a set in order: each exactly once. */
  function Sorted(s: set<RelationId>): (r: seq<RelationId>)
    ensures forall x :: x in r <==> x in s
    ensures forall i, j :: 0 <= i < j < |r| ==> r[i] != r[j]
    ensures |r| == |s|
    decreases |s|
  {
    if s == {} then []
    else
      var m := Least(s);
      [m] + Sorted(s - {m})
  }

  ghost predicate InOrder(r: seq<RelationId>) {
    forall i, j :: 0 <= i < j < |r| ==> Before(r[i], r[j])
  }

  lemma FirstInOrder(m: RelationId, r: seq<RelationId>)
    requires InOrder(r) && forall x :: x in r ==> Before(m, x)
    ensures InOrder([m] + r)
  {
    hide Before;
    var s := [m] + r;
    forall i, j | 0 <= i < j < |s|
      ensures Before(s[i], s[j])
    {
      assert s[j] == r[j - 1] && r[j - 1] in r;
    }
  }

  lemma {:induction false} SortedInOrder(s: set<RelationId>)
    ensures InOrder(Sorted(s))
    decreases |s|
  {
    hide Before, InOrder;
    if s == {} {
      EmptyInOrder();
    } else {
      var m := Least(s);
      SortedInOrder(s - {m});
      FirstInOrder(m, Sorted(s - {m}));
    }
  }

  lemma EmptyInOrder()
    ensures InOrder([])
  {
  }
}
