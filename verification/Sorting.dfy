/** `sorted(xs, key=...)`: a stable sort by an integer or real key, written as insertion. */
module Sorting {
  ghost predicate SortedBy<T>(s: seq<T>, key: T -> real) {
    forall i, j :: 0 <= i < j < |s| ==> key(s[i]) <= key(s[j])
  }

  /** Put `x` before everything with a greater or equal key. */
  function Insert<T>(x: T, s: seq<T>, key: T -> real): seq<T> {
    if s == [] || key(x) <= key(s[0]) then [x] + s else [s[0]] + Insert(x, s[1..], key)
  }

  function Sorted<T>(s: seq<T>, key: T -> real): seq<T> {
    if s == [] then [] else Insert(s[0], Sorted(s[1..], key), key)
  }

  lemma {:induction false} InsertKeeps<T>(x: T, s: seq<T>, key: T -> real)
    ensures multiset(Insert(x, s, key)) == multiset(s) + multiset{x}
  {
    if !(s == [] || key(x) <= key(s[0])) {
      InsertKeeps(x, s[1..], key);
      assert s == [s[0]] + s[1..];
    }
  }

  lemma {:induction false} InsertedFrom<T>(x: T, s: seq<T>, key: T -> real, i: nat)
    requires i < |Insert(x, s, key)|
    ensures Insert(x, s, key)[i] == x || Insert(x, s, key)[i] in s
  {
    if !(s == [] || key(x) <= key(s[0])) && i > 0 { InsertedFrom(x, s[1..], key, i - 1); }
  }

  lemma {:induction false} InsertSorts<T>(x: T, s: seq<T>, key: T -> real)
    requires SortedBy(s, key)
    ensures SortedBy(Insert(x, s, key), key)
  {
    if !(s == [] || key(x) <= key(s[0])) {
      var rest := Insert(x, s[1..], key);
      InsertSorts(x, s[1..], key);
      forall i | 0 <= i < |rest| ensures key(s[0]) <= key(rest[i]) {
        InsertedFrom(x, s[1..], key, i);
      }
    }
  }

  /** The result is in order and is the same elements. */
  lemma {:induction false} SortedIsSorted<T>(s: seq<T>, key: T -> real)
    ensures SortedBy(Sorted(s, key), key)
    ensures multiset(Sorted(s, key)) == multiset(s)
    ensures |Sorted(s, key)| == |s|
  {
    if s != [] {
      SortedIsSorted(s[1..], key);
      InsertSorts(s[0], Sorted(s[1..], key), key);
      InsertKeeps(s[0], Sorted(s[1..], key), key);
      assert s == [s[0]] + s[1..];
    }
    assert |multiset(Sorted(s, key))| == |multiset(s)|;
  }
}
