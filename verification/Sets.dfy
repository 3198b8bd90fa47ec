/** Finite sets of numbers: maximum, ascending listing, pigeonhole. */
module Sets {
  predicate IsMax(s: set<nat>, m: nat) {
    m in s && forall x | x in s :: x <= m
  }

  predicate IsMin(s: set<nat>, m: nat) {
    m in s && forall x | x in s :: m <= x
  }

  /** The greatest element, 0 for the empty set. */
  function MaxOr0(s: set<nat>): (m: nat)
    ensures s == {} ==> m == 0
    ensures s != {} ==> m in s
    ensures forall x | x in s :: x <= m
  {
    if s == {} then 0
    else
      HasMax(s);
      var m :| m in s && IsMax(s, m);
      m
  }

  lemma {:induction false} HasMax(s: set<nat>)
    requires s != {}
    ensures exists m | m in s :: IsMax(s, m)
  {
    var y :| y in s;
    if s == {y} {
      assert IsMax(s, y);
    } else {
      HasMax(s - {y});
      var m :| m in s - {y} && IsMax(s - {y}, m);
      assert s == (s - {y}) + {y};
      assert IsMax(s, if m < y then y else m);
    }
  }

  lemma {:induction false} HasMin(s: set<nat>)
    requires s != {}
    ensures exists m | m in s :: IsMin(s, m)
  {
    var y :| y in s;
    if s == {y} {
      assert IsMin(s, y);
    } else {
      HasMin(s - {y});
      var m :| m in s - {y} && IsMin(s - {y}, m);
      assert s == (s - {y}) + {y};
      assert IsMin(s, if m < y then m else y);
    }
  }

  function MinOf(s: set<nat>): (m: nat)
    requires s != {}
    ensures m in s && forall x | x in s :: m <= x
  {
    HasMin(s);
    var m :| m in s && IsMin(s, m);
    m
  }

  ghost predicate Ascending(q: seq<nat>) {
    forall i, j | 0 <= i < j < |q| :: q[i] < q[j]
  }

  ghost predicate NoDup<T>(q: seq<T>) {
    forall i, j | 0 <= i < j < |q| :: q[i] != q[j]
  }

  function Elements<T>(q: seq<T>): set<T> {
    set x | x in q
  }

  lemma TakeNext<T>(q: seq<T>, i: nat)
    requires i < |q|
    ensures q[..i + 1] == q[..i] + [q[i]] && Elements(q[..i + 1]) == Elements(q[..i]) + {q[i]}
    ensures q[..|q|] == q
  {
  }

  lemma Prepend(m: nat, q: seq<nat>)
    requires Ascending(q) && forall x | x in Elements(q) :: m < x
    ensures Ascending([m] + q) && Elements([m] + q) == {m} + Elements(q)
  {
    assert forall i | 0 <= i < |q| :: q[i] in Elements(q);
  }

  lemma PrependMin(s: set<nat>, m: nat, q: seq<nat>)
    requires m in s && Ascending(q) && Elements(q) == s - {m} && |q| == |s - {m}|
    requires forall x | x in s :: m <= x
    ensures Ascending([m] + q) && Elements([m] + q) == s && |[m] + q| == |s|
  {
    var rest := s - {m};
    assert s == {m} + rest;
    Prepend(m, q);
  }

  /** The elements in ascending order. */
  function Sorted(s: set<nat>): (q: seq<nat>)
    ensures Ascending(q) && Elements(q) == s && |q| == |s|
  {
    if s == {} then []
    else
      var m := MinOf(s);
      var rest := Sorted(s - {m});
      PrependMin(s, m, rest);
      [m] + rest
  }

  lemma {:induction false} Pigeonhole<T>(q: seq<T>, s: set<T>)
    requires |q| > |s| && forall x | x in q :: x in s
    ensures exists i, j | 0 <= i < j < |q| :: q[i] == q[j]
  {
    var x, rest := q[0], q[1..];
    if x in rest {
      var j :| 0 <= j < |rest| && rest[j] == x;
      assert q[0] == q[j + 1];
    } else {
      assert forall y | y in rest :: y in s - {x};
      Pigeonhole(rest, s - {x});
      var i, j :| 0 <= i < j < |rest| && rest[i] == rest[j];
      assert q[i + 1] == q[j + 1];
    }
  }

  lemma {:induction false} NoDupSize<T>(q: seq<T>)
    requires NoDup(q)
    ensures |Elements(q)| == |q|
  {
    if q != [] {
      var b, x := q[..|q| - 1], q[|q| - 1];
      NoDupSize(b);
      assert Elements(q) == Elements(b) + {x};
    }
  }
}
