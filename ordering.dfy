/**
 * `sorted(...)` over the keys of a dictionary: the keys of a finite set
 * listed once each, in ascending order. Dates compare as Python compares
 * them (by year, then month, then day), slots as integers.
 */
module Ordering {
  import opened Calendar

  predicate IsLeastDate(m: Date, s: set<Date>) {
    m in s && forall x :: x in s ==> DateLeq(m, x)
  }

  lemma {:induction false} LeastDateExists(s: set<Date>)
    requires s != {}
    ensures exists m :: IsLeastDate(m, s)
    decreases s
  {
    var x :| x in s;
    if s != {x} {
      LeastDateExists(s - {x});
      var m :| IsLeastDate(m, s - {x});
      if DateLess(x, m) {
        forall y | y in s ensures DateLeq(x, y) {
          if y != x {
            assert y in s - {x};
          }
        }
        assert IsLeastDate(x, s);
      } else {
        forall y | y in s ensures DateLeq(m, y) {
          if y != x {
            assert y in s - {x};
          }
        }
        assert IsLeastDate(m, s);
      }
    } else {
      assert IsLeastDate(x, s);
    }
  }

  lemma LeastDateUnique(a: Date, b: Date, s: set<Date>)
    requires IsLeastDate(a, s) && IsLeastDate(b, s)
    ensures a == b
  {
  }

  /** `sorted(s)` for a set of dates. */
  ghost function SortedDates(s: set<Date>): (r: seq<Date>)
    ensures |r| == |s|
    ensures forall i :: 0 <= i < |r| ==> r[i] in s
    ensures forall x :: x in s ==> x in r
    ensures forall i, j :: 0 <= i < j < |r| ==> DateLess(r[i], r[j])
    decreases s
  {
    if s == {} then []
    else
      LeastDateExists(s);
      var m :| IsLeastDate(m, s);
      [m] + SortedDates(s - {m})
  }

  /** The listing starts at the least date, then lists the rest. */
  lemma SortedDatesFirst(m: Date, s: set<Date>)
    requires IsLeastDate(m, s)
    ensures SortedDates(s) == [m] + SortedDates(s - {m})
  {
    var m' :| IsLeastDate(m', s) && SortedDates(s) == [m'] + SortedDates(s - {m'});
    LeastDateUnique(m, m', s);
  }

  /** One step of listing a set in order: the least remaining date comes next. */
  lemma SortedDatesStep(all: set<Date>, done: seq<Date>, remaining: set<Date>, m: Date)
    requires SortedDates(all) == done + SortedDates(remaining)
    requires IsLeastDate(m, remaining)
    ensures SortedDates(all) == (done + [m]) + SortedDates(remaining - {m})
  {
    SortedDatesFirst(m, remaining);
    assert done + ([m] + SortedDates(remaining - {m})) == (done + [m]) + SortedDates(remaining - {m});
  }

  /**
   * Part-way through visiting `all` in order: `done` has been visited and
   * `remaining` is still to come, all of it after `done`.
   */
  ghost predicate Visiting(all: set<Date>, done: seq<Date>, remaining: set<Date>) {
    && remaining <= all
    && (forall x :: x in done ==> x in all)
    && SortedDates(all) == done + SortedDates(remaining)
  }

  /** Visiting the least remaining date next keeps the visit in order. */
  lemma VisitNext(all: set<Date>, done: seq<Date>, remaining: set<Date>, m: Date)
    requires Visiting(all, done, remaining) && IsLeastDate(m, remaining)
    ensures m in all && Visiting(all, done + [m], remaining - {m})
    ensures |remaining - {m}| < |remaining|
  {
    SortedDatesStep(all, done, remaining, m);
  }

  /** A finished visit has listed the whole set in order. */
  lemma VisitDone(all: set<Date>, done: seq<Date>)
    requires Visiting(all, done, {})
    ensures done == SortedDates(all)
  {
    assert done + [] == done;
  }

  predicate Ascending(xs: seq<int>) {
    forall i, j :: 0 <= i < j < |xs| ==> xs[i] < xs[j]
  }

  /** Inserts `x` before the first larger element. */
  function Insert(x: int, xs: seq<int>): (r: seq<int>)
    ensures multiset(r) == multiset(xs) + multiset{x}
  {
    if xs == [] || x < xs[0] then [x] + xs
    else
      assert xs == [xs[0]] + xs[1..];
      [xs[0]] + Insert(x, xs[1..])
  }

  lemma {:induction false} InsertMembers(x: int, xs: seq<int>)
    ensures forall y :: y in Insert(x, xs) <==> y == x || y in xs
  {
    if xs != [] && x >= xs[0] {
      InsertMembers(x, xs[1..]);
      assert xs == [xs[0]] + xs[1..];
    }
  }

  lemma {:induction false} InsertAscending(x: int, xs: seq<int>)
    requires Ascending(xs) && x !in xs
    ensures Ascending(Insert(x, xs))
  {
    if xs == [] || x < xs[0] {
    } else {
      var rest := xs[1..];
      InsertAscending(x, rest);
      InsertMembers(x, rest);
      var t := Insert(x, rest);
      forall k | 0 <= k < |t| ensures xs[0] < t[k] {
        assert t[k] in t;
        if t[k] != x {
          var m :| 0 <= m < |rest| && rest[m] == t[k];
          assert xs[m + 1] == t[k];
        }
      }
      var r := [xs[0]] + t;
      assert Insert(x, xs) == r;
      forall i, j | 0 <= i < j < |r| ensures r[i] < r[j] {
        if i > 0 {
          assert r[i] == t[i - 1] && r[j] == t[j - 1];
        }
      }
    }
  }

  /** `sorted(xs)`: the same integers, ascending. */
  function SortInts(xs: seq<int>): (r: seq<int>)
    ensures multiset(r) == multiset(xs)
  {
    if xs == [] then []
    else
      assert xs == xs[..|xs| - 1] + [xs[|xs| - 1]];
      Insert(xs[|xs| - 1], SortInts(xs[..|xs| - 1]))
  }

  /** Sorting distinct integers gives a strictly ascending sequence. */
  lemma {:induction false} SortIntsAscending(xs: seq<int>)
    requires forall i, j :: 0 <= i < j < |xs| ==> xs[i] != xs[j]
    ensures Ascending(SortInts(xs))
  {
    if xs != [] {
      var init, x := xs[..|xs| - 1], xs[|xs| - 1];
      SortIntsAscending(init);
      assert x !in multiset(init);
      assert x !in multiset(SortInts(init));
      InsertAscending(x, SortInts(init));
    }
  }
}
