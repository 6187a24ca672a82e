/** `ORDER BY`: a finite set laid out in an order, each element once. */
module Listings {
  ghost predicate Least<T(!new)>(x: T, s: set<T>, before: (T, T) -> bool) {
    x in s && forall y | y in s :: y == x || before(x, y)
  }

  ghost function First<T(!new)>(s: set<T>, before: (T, T) -> bool): (x: T)
    requires s != {}
    ensures x in s
    ensures (exists y :: Least(y, s, before)) ==> Least(x, s, before)
  {
    if exists x :: Least(x, s, before) then
      var x :| Least(x, s, before); x
    else
      var x :| x in s; x
  }

  ghost function Listing<T(!new)>(s: set<T>, before: (T, T) -> bool): (l: seq<T>)
    ensures |l| == |s| && (forall x :: x in l <==> x in s)
    ensures forall i, j | 0 <= i < j < |l| :: l[i] != l[j]
  {
    if s == {} then []
    else
      var x := First(s, before);
      [x] + Listing(s - {x}, before)
  }

  ghost predicate InOrder<T>(l: seq<T>, before: (T, T) -> bool) {
    forall i, j | 0 <= i < j < |l| :: before(l[i], l[j])
  }

  ghost predicate Asymmetric<T(!new)>(before: (T, T) -> bool) {
    forall x, y :: before(x, y) ==> !before(y, x)
  }

  ghost predicate Total<T(!new)>(s: set<T>, before: (T, T) -> bool) {
    && (forall x, y | x in s && y in s && x != y :: before(x, y) || before(y, x))
    && (forall x, y, z | x in s && y in s && z in s && before(x, y) && before(y, z) :: before(x, z))
  }

  lemma LeastExists<T(!new)>(s: set<T>, before: (T, T) -> bool)
    requires s != {} && Total(s, before)
    ensures exists x :: Least(x, s, before)
  {
    var some :| some in s;
    var rest := s - {some};
    if rest == {} {
      assert s == {some};
      assert Least(some, s, before);
    } else {
      LeastExists(rest, before);
      var best :| Least(best, rest, before);
      if before(some, best) {
        assert forall y | y in rest :: y == best || before(best, y);
        assert Least(some, s, before);
      } else {
        assert before(best, some);
        assert Least(best, s, before);
      }
    }
  }

  /** Under a total order the listing is sorted. */
  lemma {:induction false} ListingIsInOrder<T(!new)>(s: set<T>, before: (T, T) -> bool)
    requires Total(s, before)
    ensures InOrder(Listing(s, before), before)
  {
    if s != {} {
      LeastExists(s, before);
      var x := First(s, before);
      ListingIsInOrder(s - {x}, before);
      var rest := Listing(s - {x}, before);
      forall j | 0 <= j < |rest| ensures before(x, rest[j]) {
        assert rest[j] in rest;
      }
    }
  }

  /** Whatever lists the set in order is the listing. */
  lemma {:induction false} ListingIsUnique<T(!new)>(s: set<T>, before: (T, T) -> bool, l: seq<T>)
    requires Asymmetric(before) && InOrder(l, before)
    requires forall x :: x in l <==> x in s
    requires forall i, j | 0 <= i < j < |l| :: l[i] != l[j]
    ensures Listing(s, before) == l
    decreases |l|
  {
    if l == [] {
      assert s == {};
    } else {
      assert l[0] in s;
      forall y | y in s ensures y == l[0] || before(l[0], y) {
        var i :| 0 <= i < |l| && l[i] == y;
      }
      assert Least(l[0], s, before);
      var x := First(s, before);
      assert x == l[0];
      forall y ensures y in l[1..] <==> y in s - {x} {
        if y in l[1..] {
          var i :| 0 <= i < |l[1..]| && l[1..][i] == y;
          assert l[i + 1] == y;
        }
        if y in s && y != x {
          var i :| 0 <= i < |l| && l[i] == y;
          assert l[1..][i - 1] == y;
        }
      }
      ListingIsUnique(s - {x}, before, l[1..]);
    }
  }
}
