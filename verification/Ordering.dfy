// Sorting by a strict order that tells any two things of a list apart: there is one result,
// whatever order the list came in.
module Ordering {
  ghost predicate Strict<T(!new)>(before: (T, T) -> bool) {
    && (forall a, b :: !(before(a, b) && before(b, a)))
    && (forall a, b, c :: before(a, b) && before(b, c) ==> before(a, c))
  }

  ghost predicate InOrder<T(!new)>(s: seq<T>, before: (T, T) -> bool) {
    forall i, j | 0 <= i < j < |s| :: before(s[i], s[j])
  }

  // A stable insertion: after everything that is not later.
  function Insert<T>(x: T, s: seq<T>, before: (T, T) -> bool): seq<T> {
    if s == [] || !before(x, s[|s| - 1]) then s + [x] else Insert(x, s[..|s| - 1], before) + [s[|s| - 1]]
  }

  function Sorted<T>(s: seq<T>, before: (T, T) -> bool): seq<T> {
    if s == [] then [] else Insert(s[|s| - 1], Sorted(s[..|s| - 1], before), before)
  }

  // Sorting keeps what there is, whatever the order does.
  lemma {:induction false} SortedHolds<T(!new)>(s: seq<T>, before: (T, T) -> bool, x: T)
    ensures x in Sorted(s, before) <==> x in s
    decreases |s|
  {
    if s != [] {
      var front, last := s[..|s| - 1], s[|s| - 1];
      assert s == front + [last];
      SortedHolds(front, before, x);
      InsertHolds(last, Sorted(front, before), before, x);
    }
  }

  lemma {:induction false} InsertHolds<T(!new)>(x: T, s: seq<T>, before: (T, T) -> bool, y: T)
    ensures y in Insert(x, s, before) <==> y == x || y in s
    decreases |s|
  {
    if s != [] && before(x, s[|s| - 1]) {
      assert s == s[..|s| - 1] + [s[|s| - 1]];
      InsertHolds(x, s[..|s| - 1], before, y);
    }
  }

  lemma {:induction false} SortedIsDistinct<T(!new)>(s: seq<T>, before: (T, T) -> bool)
    requires forall i, j | 0 <= i < j < |s| :: s[i] != s[j]
    ensures forall i, j | 0 <= i < j < |Sorted(s, before)| :: Sorted(s, before)[i] != Sorted(s, before)[j]
    decreases |s|
  {
    if s != [] {
      var front, last := s[..|s| - 1], s[|s| - 1];
      SortedIsDistinct(front, before);
      SortedHolds(front, before, last);
      InsertIsDistinct(last, Sorted(front, before), before);
    }
  }

  lemma {:induction false} InsertIsDistinct<T(!new)>(x: T, s: seq<T>, before: (T, T) -> bool)
    requires x !in s && forall i, j | 0 <= i < j < |s| :: s[i] != s[j]
    ensures forall i, j | 0 <= i < j < |Insert(x, s, before)| :: Insert(x, s, before)[i] != Insert(x, s, before)[j]
    decreases |s|
  {
    if s != [] && before(x, s[|s| - 1]) {
      var front, last := s[..|s| - 1], s[|s| - 1];
      InsertIsDistinct(x, front, before);
      InsertHolds(x, front, before, last);
    }
  }

  ghost predicate ToldApart<T(!new)>(s: seq<T>, before: (T, T) -> bool) {
    forall i, j | 0 <= i < j < |s| :: before(s[i], s[j]) || before(s[j], s[i])
  }

  lemma {:induction false} InsertSorts<T(!new)>(x: T, s: seq<T>, before: (T, T) -> bool)
    requires Strict(before) && InOrder(s, before) && forall i | 0 <= i < |s| :: before(s[i], x) || before(x, s[i])
    ensures InOrder(Insert(x, s, before), before)
    decreases |s|
  {
    if s == [] {
    } else if !before(x, s[|s| - 1]) {
      assert before(s[|s| - 1], x);
      forall i | 0 <= i < |s| ensures before(s[i], x) {
        assert i < |s| - 1 ==> before(s[i], s[|s| - 1]);
      }
    } else {
      var front, last := s[..|s| - 1], s[|s| - 1];
      assert s == front + [last];
      InsertSorts(x, front, before);
      forall y | y in Insert(x, front, before) ensures before(y, last) {
        InsertHolds(x, front, before, y);
        if y != x {
          var i :| 0 <= i < |front| && front[i] == y;
          assert before(s[i], s[|s| - 1]);
        }
      }
    }
  }

  lemma {:induction false} SortedSorts<T(!new)>(s: seq<T>, before: (T, T) -> bool)
    requires Strict(before) && ToldApart(s, before)
    ensures InOrder(Sorted(s, before), before)
    decreases |s|
  {
    if s != [] {
      var front, last := s[..|s| - 1], s[|s| - 1];
      assert s == front + [last];
      SortedSorts(front, before);
      forall i | 0 <= i < |Sorted(front, before)|
        ensures before(Sorted(front, before)[i], last) || before(last, Sorted(front, before)[i]) {
        SortedHolds(front, before, Sorted(front, before)[i]);
      }
      InsertSorts(last, Sorted(front, before), before);
    }
  }

  // Two lists in order that hold the same things are the same list.
  lemma {:induction false} OneOrder<T(!new)>(a: seq<T>, b: seq<T>, before: (T, T) -> bool)
    requires Strict(before) && InOrder(a, before) && InOrder(b, before) && forall x :: x in a <==> x in b
    ensures a == b
    decreases |a|
  {
    assert b == [] || b[0] in b;
    if a != [] {
      assert a[0] in a && a[0] in b;
      FirstIsFirst(a, b, before);
      forall x ensures x in a[1..] <==> x in b[1..] {
        InTail(a, x, before);
        InTail(b, x, before);
      }
      OneOrder(a[1..], b[1..], before);
      assert a == [a[0]] + a[1..] && b == [b[0]] + b[1..];
    }
  }

  lemma FirstIsFirst<T(!new)>(a: seq<T>, b: seq<T>, before: (T, T) -> bool)
    requires Strict(before) && InOrder(a, before) && InOrder(b, before)
    requires a != [] && b != [] && a[0] in b && b[0] in a
    ensures a[0] == b[0]
  {
    var i :| 0 <= i < |b| && b[i] == a[0];
    var j :| 0 <= j < |a| && a[j] == b[0];
    assert i > 0 ==> before(b[0], b[i]);
    assert j > 0 ==> before(a[0], a[j]);
  }

  lemma InTail<T(!new)>(a: seq<T>, x: T, before: (T, T) -> bool)
    requires Strict(before) && InOrder(a, before) && a != []
    ensures x in a[1..] <==> x in a && x != a[0]
  {
    assert a == [a[0]] + a[1..];
    assert forall j | 1 <= j < |a| :: before(a[0], a[j]);
  }

  // Sorting forgets the order things came in.
  lemma SortForgetsOrder<T(!new)>(a: seq<T>, b: seq<T>, before: (T, T) -> bool)
    requires Strict(before) && ToldApart(a, before) && ToldApart(b, before) && forall x :: x in a <==> x in b
    ensures Sorted(a, before) == Sorted(b, before)
  {
    SortedSorts(a, before);
    SortedSorts(b, before);
    forall x ensures x in Sorted(a, before) <==> x in Sorted(b, before) {
      SortedHolds(a, before, x);
      SortedHolds(b, before, x);
    }
    OneOrder(Sorted(a, before), Sorted(b, before), before);
  }

  // ---- orders with ties -----------------------------------------------------------------------

  // Never being later passes along.
  ghost predicate Weak<T(!new)>(before: (T, T) -> bool) {
    && (forall a, b :: !(before(a, b) && before(b, a)))
    && (forall a, b, c :: !before(b, a) && !before(c, b) ==> !before(c, a))
  }

  ghost predicate NeverLater<T(!new)>(s: seq<T>, before: (T, T) -> bool) {
    forall i, j | 0 <= i < j < |s| :: !before(s[j], s[i])
  }

  lemma {:induction false} InsertNeverLater<T(!new)>(x: T, s: seq<T>, before: (T, T) -> bool)
    requires Weak(before) && NeverLater(s, before)
    ensures NeverLater(Insert(x, s, before), before)
    decreases |s|
  {
    if s == [] {
    } else if !before(x, s[|s| - 1]) {
      forall i | 0 <= i < |s| ensures !before(x, s[i]) {
        assert i < |s| - 1 ==> !before(s[|s| - 1], s[i]);
      }
    } else {
      var front, last := s[..|s| - 1], s[|s| - 1];
      InsertNeverLater(x, front, before);
      forall i | 0 <= i < |Insert(x, front, before)| ensures !before(last, Insert(x, front, before)[i]) {
        var y := Insert(x, front, before)[i];
        InsertHolds(x, front, before, y);
        if y != x {
          var k :| 0 <= k < |front| && front[k] == y;
          assert !before(s[|s| - 1], s[k]);
        }
      }
    }
  }

  // With ties, a stable sort leaves nothing after something later than it.
  lemma {:induction false} SortedNeverLater<T(!new)>(s: seq<T>, before: (T, T) -> bool)
    requires Weak(before)
    ensures NeverLater(Sorted(s, before), before)
    decreases |s|
  {
    if s != [] {
      SortedNeverLater(s[..|s| - 1], before);
      InsertNeverLater(s[|s| - 1], Sorted(s[..|s| - 1], before), before);
    }
  }
}
