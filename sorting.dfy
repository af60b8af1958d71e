/** Python's `sorted(xs, key=...)` on the details document: a stable insertion sort by an
    integer key. The save routines sort the invalid identifiers (key: the identifier itself)
    and the stored records (key: each record's `id` field).

    The sort functions carry no postconditions of their own; what they guarantee is stated by
    the lemmas beside them, so that the fetch loop, which sorts at every checkpoint, can be
    unfolded without dragging these facts along. */
module Sorting {

  /** The keys never decrease from left to right. */
  predicate SortedBy<T>(s: seq<T>, key: T -> int)
  {
    forall i, j :: 0 <= i < j < |s| ==> key(s[i]) <= key(s[j])
  }

  /** Inserts `x` in front of the first element whose key is not smaller, so that equal keys
      keep their relative order. */
  function Insert<T>(x: T, s: seq<T>, key: T -> int): seq<T>
    decreases |s|
  {
    if s == [] then [x]
    else if key(x) <= key(s[0]) then [x] + s
    else [s[0]] + Insert(x, s[1..], key)
  }

  /** `sorted(s, key=key)`: the elements of `s`, rearranged so that their keys ascend. */
  function SortBy<T>(s: seq<T>, key: T -> int): seq<T>
    decreases |s|
  {
    if s == [] then [] else Insert(s[0], SortBy(s[1..], key), key)
  }

  function Identity(n: int): int { n }

  /** `sorted(ints)`. */
  function SortInts(s: seq<int>): seq<int>
  {
    SortBy(s, Identity)
  }

  /** Inserting adds exactly `x` to the elements. */
  lemma {:induction false} InsertPermutes<T>(x: T, s: seq<T>, key: T -> int)
    ensures multiset(Insert(x, s, key)) == multiset(s) + multiset{x}
    decreases |s|
  {
    if s != [] && key(s[0]) < key(x) {
      InsertPermutes(x, s[1..], key);
      assert s == [s[0]] + s[1..];
    }
  }

  /** Inserting into a sorted sequence keeps it sorted. */
  lemma {:induction false} InsertSorted<T>(x: T, s: seq<T>, key: T -> int)
    requires SortedBy(s, key)
    ensures SortedBy(Insert(x, s, key), key)
    decreases |s|
  {
    if s != [] && key(s[0]) < key(x) {
      var rest := Insert(x, s[1..], key);
      InsertSorted(x, s[1..], key);
      InsertPermutes(x, s[1..], key);
      forall j | 0 <= j < |rest| ensures key(s[0]) <= key(rest[j]) {
        assert rest[j] in multiset(rest);
        assert rest[j] == x || rest[j] in multiset(s[1..]);
      }
    }
  }

  /** The result of `sorted` is in order and holds the same elements, with the same
      multiplicities, as its input. */
  lemma {:induction false} SortByCorrect<T>(s: seq<T>, key: T -> int)
    ensures SortedBy(SortBy(s, key), key)
    ensures multiset(SortBy(s, key)) == multiset(s)
    decreases |s|
  {
    if s != [] {
      SortByCorrect(s[1..], key);
      InsertSorted(s[0], SortBy(s[1..], key), key);
      InsertPermutes(s[0], SortBy(s[1..], key), key);
      assert s == [s[0]] + s[1..];
    }
  }

  /** `sorted(ints)`: ascending order, same elements with the same multiplicities. */
  lemma SortIntsCorrect(s: seq<int>)
    ensures SortedBy(SortInts(s), Identity)
    ensures multiset(SortInts(s)) == multiset(s)
    ensures |SortInts(s)| == |s|
  {
    SortByCorrect(s, Identity);
    assert |multiset(SortInts(s))| == |multiset(s)|;
  }

  /** Sorting what is already sorted changes nothing: the document that one checkpoint wrote
      is written again unchanged by the next one when nothing was added in between. */
  lemma {:induction false} SortSortedIsIdentity<T>(s: seq<T>, key: T -> int)
    requires SortedBy(s, key)
    ensures SortBy(s, key) == s
    decreases |s|
  {
    if s != [] {
      SortSortedIsIdentity(s[1..], key);
      assert s == [s[0]] + s[1..];
    }
  }
}
