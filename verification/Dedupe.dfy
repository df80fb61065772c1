/** Keeping the first item of every key. */
module Dedupe {
  ghost predicate HasKey<T>(items: seq<T>, key: T -> string, k: string) {
    exists i :: 0 <= i < |items| && key(items[i]) == k
  }

  /** Keeps the first item of every key. */
  ghost function FirstOfEachKey<T>(items: seq<T>, key: T -> string): seq<T> {
    if items == [] then []
    else
      var front, last := items[..|items| - 1], items[|items| - 1];
      if HasKey(front, key, key(last)) then FirstOfEachKey(front, key) else FirstOfEachKey(front, key) + [last]
  }

  lemma DedupeStep<T>(items: seq<T>, x: T, key: T -> string)
    ensures FirstOfEachKey(items + [x], key)
         == if HasKey(items, key, key(x)) then FirstOfEachKey(items, key) else FirstOfEachKey(items, key) + [x]
    ensures forall k :: HasKey(items + [x], key, k) <==> HasKey(items, key, k) || k == key(x)
  {
    assert (items + [x])[..|items|] == items;
    forall k ensures HasKey(items + [x], key, k) <==> HasKey(items, key, k) || k == key(x) {
      HasKeyOfExtension(items + [x], key, k);
    }
  }

  /** The keys seen so far. */
  ghost predicate AreKeysOf<T>(seen: set<string>, items: seq<T>, key: T -> string) {
    forall k :: k in seen <==> HasKey(items, key, k)
  }

  lemma AreKeysStep<T>(seen: set<string>, items: seq<T>, x: T, key: T -> string)
    requires AreKeysOf(seen, items, key)
    ensures AreKeysOf(seen + {key(x)}, items + [x], key)
    ensures FirstOfEachKey(items + [x], key)
         == if key(x) in seen then FirstOfEachKey(items, key) else FirstOfEachKey(items, key) + [x]
  {
    DedupeStep(items, x, key);
  }

  lemma HasKeyOfExtension<T>(items: seq<T>, key: T -> string, k: string)
    requires items != []
    ensures HasKey(items, key, k) <==> HasKey(items[..|items| - 1], key, k) || k == key(items[|items| - 1])
  {
    var front := items[..|items| - 1];
    if HasKey(items, key, k) {
      var i :| 0 <= i < |items| && key(items[i]) == k;
      assert i < |front| ==> front[i] == items[i];
    }
    if HasKey(front, key, k) {
      var i :| 0 <= i < |front| && key(front[i]) == k;
      assert items[i] == front[i];
    }
  }

  /** The same keys remain. */
  lemma {:induction false} DedupeKeepsKeys<T>(items: seq<T>, key: T -> string, k: string)
    ensures HasKey(FirstOfEachKey(items, key), key, k) <==> HasKey(items, key, k)
    decreases |items|
  {
    if items != [] {
      var front := items[..|items| - 1];
      DedupeKeepsKeys(front, key, k);
      HasKeyOfExtension(items, key, k);
      if !HasKey(front, key, key(items[|items| - 1])) {
        HasKeyOfExtension(FirstOfEachKey(items, key), key, k);
        assert FirstOfEachKey(items, key)[..|FirstOfEachKey(items, key)| - 1] == FirstOfEachKey(front, key);
      }
    }
  }

  ghost predicate DistinctKeys<T>(items: seq<T>, key: T -> string) {
    forall i, j :: 0 <= i < j < |items| ==> key(items[i]) != key(items[j])
  }

  lemma {:induction false} DedupeIsDistinct<T>(items: seq<T>, key: T -> string)
    ensures DistinctKeys(FirstOfEachKey(items, key), key)
    decreases |items|
  {
    if items != [] {
      var front, last := items[..|items| - 1], items[|items| - 1];
      DedupeIsDistinct(front, key);
      DedupeKeepsKeys(front, key, key(last));
    }
  }

  lemma {:induction false} DistinctIsFixed<T>(items: seq<T>, key: T -> string)
    requires DistinctKeys(items, key)
    ensures FirstOfEachKey(items, key) == items
    decreases |items|
  {
    if items != [] {
      var front, last := items[..|items| - 1], items[|items| - 1];
      DistinctIsFixed(front, key);
      assert !HasKey(front, key, key(last));
      assert items == front + [last];
    }
  }

  lemma DedupeIsIdempotent<T>(items: seq<T>, key: T -> string)
    ensures FirstOfEachKey(FirstOfEachKey(items, key), key) == FirstOfEachKey(items, key)
  {
    DedupeIsDistinct(items, key);
    DistinctIsFixed(FirstOfEachKey(items, key), key);
  }

  /** The item kept for a key is its first occurrence. */
  lemma {:induction false} DedupeKeepsFirst<T>(items: seq<T>, key: T -> string, i: nat)
    requires i < |items| && forall j :: 0 <= j < i ==> key(items[j]) != key(items[i])
    ensures items[i] in FirstOfEachKey(items, key)
    decreases |items|
  {
    if i < |items| - 1 {
      DedupeKeepsFirst(items[..|items| - 1], key, i);
    }
  }

  lemma {:induction false} DedupeOfPrefix<T>(a: seq<T>, b: seq<T>, key: T -> string)
    ensures FirstOfEachKey(a, key) <= FirstOfEachKey(a + b, key)
    decreases |b|
  {
    if b == [] {
      assert a + b == a;
    } else {
      assert (a + b)[..|a + b| - 1] == a + b[..|b| - 1];
      DedupeOfPrefix(a, b[..|b| - 1], key);
    }
  }
}
