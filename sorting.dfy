/**
 * Python's `sorted(...)` applied to a set of integers: the source sorts the
 * page numbers of a chunk and the row and column indices of table cells
 * this way.
 */
module Sorting {

  predicate StrictlyIncreasing(s: seq<int>)
  {
    forall i, j :: 0 <= i < j < |s| ==> s[i] < s[j]
  }

  predicate IsLeast(m: int, s: set<int>)
  {
    m in s && forall x :: x in s ==> m <= x
  }

  /** Every non-empty finite set of integers has a least element. */
  lemma {:induction false} LeastExists(s: set<int>)
    requires s != {}
    ensures exists m :: IsLeast(m, s)
  {
    if forall x :: x !in s {
      assert false;
    }
    var y :| y in s;
    if s != {y} {
      LeastExists(s - {y});
      var m :| IsLeast(m, s - {y});
      assert forall x :: x in s ==> x == y || x in s - {y};
      if y < m {
        assert IsLeast(y, s);
      } else {
        assert IsLeast(m, s);
      }
    } else {
      assert IsLeast(y, s);
    }
  }

  /** `min(s)`. */
  function Least(s: set<int>): (m: int)
    requires s != {}
    ensures IsLeast(m, s)
  {
    LeastExists(s);
    var m :| IsLeast(m, s);
    m
  }

  /** `sorted(s)`: the elements of `s`, each once, in ascending order. */
  function SortedSet(s: set<int>): (r: seq<int>)
    ensures StrictlyIncreasing(r)
    ensures |r| == |s|
    ensures forall i :: 0 <= i < |r| ==> r[i] in s
    ensures forall x :: x in s ==> x in r
    decreases |s|
  {
    if s == {} then []
    else
      var m := Least(s);
      var rest := SortedSet(s - {m});
      assert forall i :: 0 <= i < |rest| ==> m < rest[i];
      [m] + rest
  }
}
