/**
 * Day numbers and their order.  A calendar date is a day number (days since
 * some epoch); ISO `YYYY-MM-DD` text sorts exactly as the day numbers do, so
 * `ORDER BY stat_date` and `stat_date >= ?` become integer order here.
 */
module Days {

  /** Strictly ascending: the order of `ORDER BY stat_date ASC` over a unique column. */
  predicate Increasing(s: seq<int>) {
    forall i, j :: 0 <= i < j < |s| ==> s[i] < s[j]
  }

  /** Strictly descending: the order of `ORDER BY stat_date DESC` over a unique column. */
  predicate Decreasing(s: seq<int>) {
    forall i, j :: 0 <= i < j < |s| ==> s[i] > s[j]
  }

  /** Some day of a non-empty set. */
  lemma SomeDay(s: set<int>) returns (y: int)
    requires s != {}
    ensures y in s
  {
    if forall x :: x !in s {
      assert false;
    }
    y :| y in s;
  }

  lemma {:induction false} LeastDay(s: set<int>) returns (m: int)
    requires s != {}
    ensures m in s && forall x :: x in s ==> m <= x
  {
    var y := SomeDay(s);
    if s == {y} {
      m := y;
    } else {
      var rest := s - {y};
      var m' := LeastDay(rest);
      m := if y < m' then y else m';
      forall x | x in s
        ensures m <= x
      {
        if x != y {
          assert x in rest;
        }
      }
    }
  }

  lemma {:induction false} GreatestDay(s: set<int>) returns (m: int)
    requires s != {}
    ensures m in s && forall x :: x in s ==> x <= m
  {
    var y := SomeDay(s);
    if s == {y} {
      m := y;
    } else {
      var rest := s - {y};
      var m' := GreatestDay(rest);
      m := if y > m' then y else m';
      forall x | x in s
        ensures x <= m
      {
        if x != y {
          assert x in rest;
        }
      }
    }
  }

  lemma HasLeast(s: set<int>)
    requires s != {}
    ensures exists m :: m in s && forall x :: x in s ==> m <= x
  {
    var m := LeastDay(s);
  }

  lemma HasGreatest(s: set<int>)
    requires s != {}
    ensures exists m :: m in s && forall x :: x in s ==> x <= m
  {
    var m := GreatestDay(s);
  }

  /** The earliest day of a non-empty set of days. */
  function Earliest(s: set<int>): (m: int)
    requires s != {}
    ensures m in s && forall x :: x in s ==> m <= x
  {
    HasLeast(s);
    var m :| m in s && forall x :: x in s ==> m <= x;
    m
  }

  /** The latest day of a non-empty set of days. */
  function Latest(s: set<int>): (m: int)
    requires s != {}
    ensures m in s && forall x :: x in s ==> x <= m
  {
    HasGreatest(s);
    var m :| m in s && forall x :: x in s ==> x <= m;
    m
  }

  /** Every day of `s` exactly once, oldest first. */
  function Ascending(s: set<int>): (r: seq<int>)
    ensures |r| == |s|
    ensures Increasing(r)
    ensures forall x :: x in r <==> x in s
    ensures forall i :: 0 <= i < |r| ==> r[i] in s
  {
    if s == {} then []
    else
      var m := Earliest(s);
      [m] + Ascending(s - {m})
  }

  /** Every day of `s` exactly once, newest first. */
  function Descending(s: set<int>): (r: seq<int>)
    ensures |r| == |s|
    ensures Decreasing(r)
    ensures forall x :: x in r <==> x in s
    ensures forall i :: 0 <= i < |r| ==> r[i] in s
  {
    if s == {} then []
    else
      var m := Latest(s);
      [m] + Descending(s - {m})
  }
}
