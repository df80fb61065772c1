/** Python's `list.sort(key=...)`: ordered by key, and stable. */
module StableSorting {
  /** Tuple comparison: the first differing position decides, a proper prefix is smaller. */
  predicate LexLess(a: seq<int>, b: seq<int>) {
    if a == [] || b == [] then a == [] && b != []
    else a[0] < b[0] || (a[0] == b[0] && LexLess(a[1..], b[1..]))
  }

  /** The first position at which two sequences of one length differ, and the first is smaller there. */
  ghost predicate SmallerAt(a: seq<int>, b: seq<int>, k: int) {
    0 <= k < |a| && k < |b| && a[..k] == b[..k] && a[k] < b[k]
  }

  lemma {:induction false} LexLessExactlyWhen(a: seq<int>, b: seq<int>)
    requires |a| == |b|
    ensures LexLess(a, b) <==> exists k :: SmallerAt(a, b, k)
  {
    if a != [] {
      LexLessExactlyWhen(a[1..], b[1..]);
      if k :| SmallerAt(a, b, k) {
        assert k > 0 ==> a[0] == a[..k][0] == b[..k][0] == b[0];
        assert k > 0 ==> a[1..][..k - 1] == a[..k][1..] && b[1..][..k - 1] == b[..k][1..];
        assert k > 0 ==> SmallerAt(a[1..], b[1..], k - 1);
      }
      if LexLess(a, b) {
        if a[0] < b[0] {
          assert SmallerAt(a, b, 0);
        } else {
          var k :| SmallerAt(a[1..], b[1..], k);
          assert a[..k + 1] == [a[0]] + a[1..][..k] && b[..k + 1] == [b[0]] + b[1..][..k];
          assert SmallerAt(a, b, k + 1);
        }
      }
    }
  }

  // ----- the order of strings -----

  /** A string as the code points it is compared by. */
  function Codes(s: string): (codes: seq<int>)
    ensures |codes| == |s| && forall i :: 0 <= i < |s| ==> codes[i] == s[i] as int
  {
    seq(|s|, i requires 0 <= i < |s| => s[i] as int)
  }

  /** Equal up to k, where the first one ends or has the smaller character. */
  ghost predicate PrecedesAt(a: string, b: string, k: int) {
    0 <= k <= |a| && k < |b| && a[..k] == b[..k] && (k == |a| || a[k] < b[k])
  }

  ghost predicate Precedes(a: string, b: string) {
    exists k :: PrecedesAt(a, b, k)
  }

  lemma PrecedesOfRest(a: string, b: string)
    requires a != "" && b != ""
    ensures Precedes(a, b) <==> a[0] < b[0] || (a[0] == b[0] && Precedes(a[1..], b[1..]))
  {
    if k :| PrecedesAt(a, b, k) {
      if k > 0 {
        assert a[0] == a[..k][0] == b[..k][0] == b[0];
        assert a[1..][..k - 1] == a[..k][1..] && b[1..][..k - 1] == b[..k][1..];
        assert PrecedesAt(a[1..], b[1..], k - 1);
      }
    }
    if a[0] < b[0] {
      assert PrecedesAt(a, b, 0);
    }
    if a[0] == b[0] && Precedes(a[1..], b[1..]) {
      var k :| PrecedesAt(a[1..], b[1..], k);
      assert a[..k + 1] == [a[0]] + a[1..][..k] && b[..k + 1] == [b[0]] + b[1..][..k];
      assert PrecedesAt(a, b, k + 1);
    }
  }

  lemma {:induction false} CodesCompare(a: string, b: string)
    ensures LexLess(Codes(a), Codes(b)) <==> Precedes(a, b)
  {
    if a == "" {
      assert b != "" ==> PrecedesAt(a, b, 0);
    } else if b != "" {
      CodesCompare(a[1..], b[1..]);
      PrecedesOfRest(a, b);
      assert Codes(a)[1..] == Codes(a[1..]) && Codes(b)[1..] == Codes(b[1..]);
    }
  }

  lemma {:induction false} LexIrreflexive(a: seq<int>)
    ensures !LexLess(a, a)
  {
    if a != [] {
      LexIrreflexive(a[1..]);
    }
  }

  lemma {:induction false} LexTotal(a: seq<int>, b: seq<int>)
    ensures LexLess(a, b) || a == b || LexLess(b, a)
  {
    if a != [] && b != [] && a[0] == b[0] {
      LexTotal(a[1..], b[1..]);
      assert a == [a[0]] + a[1..] && b == [b[0]] + b[1..];
    }
  }

  lemma {:induction false} LexTransitive(a: seq<int>, b: seq<int>, c: seq<int>)
    requires LexLess(a, b) && LexLess(b, c)
    ensures LexLess(a, c)
  {
    if a != [] && a[0] == b[0] == c[0] {
      LexTransitive(a[1..], b[1..], c[1..]);
    }
  }

  lemma LexAsymmetric(a: seq<int>, b: seq<int>)
    requires LexLess(a, b)
    ensures !LexLess(b, a)
  {
    if LexLess(b, a) {
      LexTransitive(a, b, a);
      LexIrreflexive(a);
    }
  }

  /** "Not greater" is transitive: used as `<=` on keys. */
  predicate AtMost(a: seq<int>, b: seq<int>) {
    !LexLess(b, a)
  }

  lemma AtMostTransitive(a: seq<int>, b: seq<int>, c: seq<int>)
    requires AtMost(a, b) && AtMost(b, c)
    ensures AtMost(a, c)
  {
    if LexLess(c, a) {
      LexTotal(b, c);
      if b == c {
        assert false;
      } else {
        LexTransitive(b, c, a);
      }
    }
  }

  lemma AtMostAntisymmetric(a: seq<int>, b: seq<int>)
    requires AtMost(a, b) && AtMost(b, a)
    ensures a == b
  {
    LexTotal(a, b);
  }

  lemma {:induction false} LexConcat(a1: seq<int>, a2: seq<int>, b1: seq<int>, b2: seq<int>)
    requires |a1| == |b1|
    ensures LexLess(a1 + a2, b1 + b2) <==> LexLess(a1, b1) || (a1 == b1 && LexLess(a2, b2))
  {
    if a1 == [] {
      assert a1 + a2 == a2 && b1 + b2 == b2;
    } else {
      assert (a1 + a2)[1..] == a1[1..] + a2 && (b1 + b2)[1..] == b1[1..] + b2;
      LexConcat(a1[1..], a2, b1[1..], b2);
      assert a1 == [a1[0]] + a1[1..] && b1 == [b1[0]] + b1[1..];
    }
  }

  function Insert<T>(x: T, sorted: seq<T>, key: T -> seq<int>): seq<T> {
    if sorted == [] || !LexLess(key(sorted[0]), key(x)) then [x] + sorted
    else [sorted[0]] + Insert(x, sorted[1..], key)
  }

  function StableSort<T>(s: seq<T>, key: T -> seq<int>): seq<T> {
    if s == [] then [] else Insert(s[0], StableSort(s[1..], key), key)
  }

  ghost predicate Ordered<T>(s: seq<T>, key: T -> seq<int>) {
    forall i, j :: 0 <= i < j < |s| ==> AtMost(key(s[i]), key(s[j]))
  }

  /** The elements with key k, in order. */
  function Group<T>(s: seq<T>, key: T -> seq<int>, k: seq<int>): seq<T> {
    if s == [] then []
    else if key(s[0]) == k then [s[0]] + Group(s[1..], key, k)
    else Group(s[1..], key, k)
  }

  /** What any stable sort returns: ordered, and every group of equal keys in its original order. */
  ghost predicate IsStableSort<T>(sorted: seq<T>, s: seq<T>, key: T -> seq<int>) {
    && Ordered(sorted, key)
    && forall k :: Group(sorted, key, k) == Group(s, key, k)
  }

  lemma {:induction false} GroupMembers<T>(s: seq<T>, key: T -> seq<int>, k: seq<int>)
    ensures forall x :: x in Group(s, key, k) <==> x in s && key(x) == k
  {
    if s != [] {
      GroupMembers(s[1..], key, k);
    }
  }

  lemma {:induction false} InsertGroups<T>(x: T, sorted: seq<T>, key: T -> seq<int>, k: seq<int>)
    ensures Group(Insert(x, sorted, key), key, k) == (if key(x) == k then [x] else []) + Group(sorted, key, k)
  {
    if sorted == [] || !LexLess(key(sorted[0]), key(x)) {
      assert ([x] + sorted)[1..] == sorted;
    } else {
      InsertGroups(x, sorted[1..], key, k);
      LexIrreflexive(key(x));
      assert Insert(x, sorted, key)[1..] == Insert(x, sorted[1..], key);
    }
  }

  lemma {:induction false} InsertMember<T>(x: T, sorted: seq<T>, key: T -> seq<int>, y: T)
    ensures y in Insert(x, sorted, key) <==> y == x || y in sorted
  {
    if !(sorted == [] || !LexLess(key(sorted[0]), key(x))) {
      InsertMember(x, sorted[1..], key, y);
      assert sorted == [sorted[0]] + sorted[1..];
    }
  }

  lemma {:induction false} InsertKeepsOrder<T>(x: T, sorted: seq<T>, key: T -> seq<int>)
    requires Ordered(sorted, key)
    ensures Ordered(Insert(x, sorted, key), key)
  {
    var all := Insert(x, sorted, key);
    if sorted == [] {
    } else if !LexLess(key(sorted[0]), key(x)) {
      forall j | 0 <= j < |sorted| ensures AtMost(key(x), key(sorted[j])) {
        if j > 0 {
          AtMostTransitive(key(x), key(sorted[0]), key(sorted[j]));
        }
      }
    } else {
      InsertKeepsOrder(x, sorted[1..], key);
      LexAsymmetric(key(sorted[0]), key(x));
      forall j | 1 <= j < |all| ensures AtMost(key(all[0]), key(all[j])) {
        var y := Insert(x, sorted[1..], key)[j - 1];
        assert all[j] == y && y in Insert(x, sorted[1..], key);
        InsertMember(x, sorted[1..], key, y);
      }
    }
  }

  lemma {:induction false} SortIsStable<T>(s: seq<T>, key: T -> seq<int>)
    ensures IsStableSort(StableSort(s, key), s, key)
    ensures forall x :: x in StableSort(s, key) <==> x in s
  {
    if s != [] {
      var rest := StableSort(s[1..], key);
      SortIsStable(s[1..], key);
      InsertKeepsOrder(s[0], rest, key);
      forall x ensures x in StableSort(s, key) <==> x in s {
        InsertMember(s[0], rest, key, x);
        assert s == [s[0]] + s[1..];
      }
      forall k ensures Group(StableSort(s, key), key, k) == Group(s, key, k) {
        InsertGroups(s[0], rest, key, k);
      }
    }
  }

  /** A stable sort is unique, so nothing below depends on which algorithm sorts. */
  lemma {:induction false} StableSortIsUnique<T>(a: seq<T>, b: seq<T>, key: T -> seq<int>)
    requires Ordered(a, key) && Ordered(b, key)
    requires forall k :: Group(a, key, k) == Group(b, key, k)
    ensures a == b
  {
    if a == [] {
      if b != [] {
        SameHead(b, a, key);
      }
    } else {
      SameHead(a, b, key);
      forall k ensures Group(a[1..], key, k) == Group(b[1..], key, k) {
        assert Group(a, key, k) == Group(b, key, k);
        if k == key(a[0]) {
          assert Group(a, key, k)[1..] == Group(a[1..], key, k);
          assert Group(b, key, k)[1..] == Group(b[1..], key, k);
        }
      }
      StableSortIsUnique(a[1..], b[1..], key);
      assert a == [a[0]] + a[1..] && b == [b[0]] + b[1..];
    }
  }

  lemma SameHead<T>(a: seq<T>, b: seq<T>, key: T -> seq<int>)
    requires Ordered(a, key) && Ordered(b, key) && a != []
    requires forall k :: Group(a, key, k) == Group(b, key, k)
    ensures b != [] && a[0] == b[0]
  {
    var ka := key(a[0]);
    assert Group(a, key, ka) == Group(b, key, ka);
    GroupMembers(b, key, ka);
    assert Group(b, key, ka)[0] in b;
    var kb := key(b[0]);
    assert Group(a, key, kb) == Group(b, key, kb);
    GroupMembers(a, key, kb);
    assert Group(a, key, kb)[0] in a;
    HeadIsLeast(a, key, Group(a, key, kb)[0]);
    HeadIsLeast(b, key, Group(b, key, ka)[0]);
    AtMostAntisymmetric(ka, kb);
  }

  lemma HeadIsLeast<T>(s: seq<T>, key: T -> seq<int>, x: T)
    requires Ordered(s, key) && x in s
    ensures AtMost(key(s[0]), key(x))
  {
    LexIrreflexive(key(x));
    var i :| 0 <= i < |s| && s[i] == x;
  }

  /** Position i holds a least key, and no earlier position holds an equal one. */
  ghost predicate EarliestLeast<T>(s: seq<T>, key: T -> seq<int>, i: int) {
    && 0 <= i < |s|
    && (forall j :: 0 <= j < |s| ==> AtMost(key(s[i]), key(s[j])))
    && (forall j :: 0 <= j < i ==> key(s[j]) != key(s[i]))
  }

  lemma {:induction false} GroupStartsAtFirst<T>(s: seq<T>, key: T -> seq<int>, k: seq<int>, i: nat)
    requires i < |s| && key(s[i]) == k
    requires forall j :: 0 <= j < i ==> key(s[j]) != k
    ensures Group(s, key, k) != [] && Group(s, key, k)[0] == s[i]
  {
    if i > 0 {
      GroupStartsAtFirst(s[1..], key, k, i - 1);
    }
  }

  /** The head of a stable sort is the earliest element with a least key. */
  lemma HeadOfStableSort<T>(sorted: seq<T>, s: seq<T>, key: T -> seq<int>, i: int)
    requires IsStableSort(sorted, s, key) && EarliestLeast(s, key, i)
    ensures sorted != [] && sorted[0] == s[i]
  {
    var k := key(s[i]);
    assert Group(sorted, key, k) == Group(s, key, k);
    GroupStartsAtFirst(s, key, k, i);
    GroupMembers(sorted, key, k);
    assert s[i] in sorted;
    HeadIsLeast(sorted, key, s[i]);
    var kh := key(sorted[0]);
    assert Group(sorted, key, kh) == Group(s, key, kh);
    GroupMembers(s, key, kh);
    GroupMembers(sorted, key, kh);
    assert sorted[0] in Group(s, key, kh);
    AtMostAntisymmetric(kh, k);
    assert Group(sorted, key, k)[0] == sorted[0];
  }

  lemma {:induction false} EarliestLeastExists<T>(s: seq<T>, key: T -> seq<int>) returns (i: nat)
    requires s != []
    ensures EarliestLeast(s, key, i)
  {
    LexIrreflexive(key(s[0]));
    if |s| == 1 {
      i := 0;
    } else {
      var rest := EarliestLeastExists(s[1..], key);
      assert forall j :: 1 <= j < |s| ==> s[j] == s[1..][j - 1];
      if LexLess(key(s[rest + 1]), key(s[0])) {
        LexAsymmetric(key(s[rest + 1]), key(s[0]));
        i := rest + 1;
      } else {
        forall j | 1 <= j < |s| ensures AtMost(key(s[0]), key(s[j])) {
          AtMostTransitive(key(s[0]), key(s[rest + 1]), key(s[j]));
        }
        i := 0;
      }
    }
  }
}
