/** A sort, to show that one exists: of the library sorts only the contract is used. */
module Sorting {

  predicate SortedBy<T(!new)>(s: seq<T>, key: T -> int) {
    forall i, j :: 0 <= i < j < |s| ==> key(s[i]) <= key(s[j])
  }

  lemma SortedCons<T(!new)>(x: T, s: seq<T>, key: T -> int)
    requires SortedBy(s, key) && forall y :: y in s ==> key(x) <= key(y)
    ensures SortedBy([x] + s, key)
  {
    forall i, j | 0 <= i < j < |s| + 1 ensures key(([x] + s)[i]) <= key(([x] + s)[j]) {
      assert ([x] + s)[j] == s[j - 1] && (i > 0 ==> ([x] + s)[i] == s[i - 1]);
    }
  }

  lemma SortedTail<T(!new)>(s: seq<T>, key: T -> int)
    requires SortedBy(s, key) && s != []
    ensures s == [s[0]] + s[1..] && SortedBy(s[1..], key)
    ensures forall y :: y in s ==> key(s[0]) <= key(y)
  {}

  lemma SameElements<T>(a: seq<T>, b: seq<T>, x: T)
    requires multiset(a) == multiset(b) + multiset{x}
    ensures forall y :: y in a ==> y == x || y in b
  {
    forall y | y in a ensures y == x || y in b {
      assert y in multiset(a);
    }
  }

  /** Insertion before the first element that is not smaller. */
  function Insert<T(!new)>(x: T, s: seq<T>, key: T -> int): (r: seq<T>)
    requires SortedBy(s, key)
    ensures SortedBy(r, key) && multiset(r) == multiset(s) + multiset{x}
  {
    if s == [] then [x]
    else
      SortedTail(s, key);
      if key(x) <= key(s[0]) then
        SortedCons(x, s, key);
        [x] + s
      else
        var rest := Insert(x, s[1..], key);
        SameElements(rest, s[1..], x);
        SortedCons(s[0], rest, key);
        [s[0]] + rest
  }

  function InsertionSort<T(!new)>(s: seq<T>, key: T -> int): (r: seq<T>)
    ensures SortedBy(r, key) && multiset(r) == multiset(s)
  {
    if s == [] then []
    else
      assert s == [s[0]] + s[1..];
      Insert(s[0], InsertionSort(s[1..], key), key)
  }
}
