/** Small vocabulary shared by the models. */
module Basics {
  datatype Option<+T> = None | Some(value: T)

  datatype Result<+T, +E> = Ok(value: T) | Err(error: E)

  function Max(a: int, b: int): int {
    if a >= b then a else b
  }

  function Min(a: int, b: int): int {
    if a <= b then a else b
  }

  ghost predicate Distinct<T>(s: seq<T>) {
    forall i, j :: 0 <= i < j < |s| ==> s[i] != s[j]
  }

  function Filter<T>(s: seq<T>, keep: T -> bool): seq<T> {
    if s == [] then []
    else if keep(s[0]) then [s[0]] + Filter(s[1..], keep)
    else Filter(s[1..], keep)
  }

  lemma {:induction false} FilterMembers<T>(s: seq<T>, keep: T -> bool)
    ensures forall x :: x in Filter(s, keep) <==> x in s && keep(x)
    ensures |Filter(s, keep)| <= |s|
  {
    if s != [] {
      FilterMembers(s[1..], keep);
    }
  }

  /** The positions of the elements with a property. */
  function Where<T>(s: seq<T>, p: T -> bool): set<nat> {
    set i: nat | i < |s| && p(s[i])
  }

  lemma {:induction false} FilterAppend<T>(a: seq<T>, x: T, keep: T -> bool)
    ensures Filter(a + [x], keep) == Filter(a, keep) + if keep(x) then [x] else []
  {
    if a == [] {
      assert a + [x] == [x] && [x][1..] == [];
    } else {
      assert (a + [x])[1..] == a[1..] + [x];
      FilterAppend(a[1..], x, keep);
    }
  }

  lemma {:induction false} FilterCounts<T>(s: seq<T>, p: T -> bool)
    ensures |Filter(s, p)| == |Where(s, p)|
    decreases |s|
  {
    if s != [] {
      var n := |s| - 1;
      FilterCounts(s[..n], p);
      FilterAppend(s[..n], s[n], p);
      assert s == s[..n] + [s[n]];
      WhereOfFront(s, p);
    }
  }

  lemma WhereOfFront<T>(s: seq<T>, p: T -> bool)
    requires s != []
    ensures var n := |s| - 1; |Where(s, p)| == |Where(s[..n], p)| + if p(s[n]) then 1 else 0
  {
    var n := |s| - 1;
    if p(s[n]) {
      assert Where(s, p) == Where(s[..n], p) + {n};
    } else {
      assert Where(s, p) == Where(s[..n], p);
    }
  }
}
