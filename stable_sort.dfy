/** Python's built-in `sorted(xs, key=k)`: an ascending sort on a numeric key
    that is stable, i.e. elements with equal keys keep their relative order.
    The model is an insertion sort; its three promises are proved below. */
module StableSort {

  import opened Sequences

  /** Keys never decrease from left to right. */
  predicate SortedBy<T>(s: seq<T>, key: T -> real) {
    forall i, j :: 0 <= i < j < |s| ==> key(s[i]) <= key(s[j])
  }

  /** The test "has key `k`", used to pick out one class of equal keys. */
  function HasKey<T>(key: T -> real, k: real): T -> bool {
    x => key(x) == k
  }

  /** Puts `x` in front of the first element whose key is not smaller. */
  function InsertBy<T>(x: T, s: seq<T>, key: T -> real): (r: seq<T>)
    ensures |r| == |s| + 1
  {
    if s == [] || key(x) <= key(s[0]) then [x] + s
    else [s[0]] + InsertBy(x, s[1..], key)
  }

  /** `sorted(s, key=key)`: as many items as the input; `SortByPermutes`,
      `SortBySorted` and `SortByStable` state the rest. */
  function SortBy<T>(s: seq<T>, key: T -> real): (r: seq<T>)
    ensures |r| == |s|
  {
    if s == [] then [] else InsertBy(s[0], SortBy(s[1..], key), key)
  }

  /** Inserting adds `x` and loses nothing. */
  lemma {:induction false} InsertByPermutes<T(!new)>(x: T, s: seq<T>, key: T -> real)
    ensures multiset(InsertBy(x, s, key)) == multiset(s) + multiset{x}
  {
    if s != [] && key(s[0]) < key(x) {
      InsertByPermutes(x, s[1..], key);
      assert s == [s[0]] + s[1..];
    }
  }

  /** Prepending an element no greater than every key keeps a sorted
      sequence sorted. */
  lemma SortedCons<T>(h: T, s: seq<T>, key: T -> real)
    requires SortedBy(s, key)
    requires forall i :: 0 <= i < |s| ==> key(h) <= key(s[i])
    ensures SortedBy([h] + s, key)
  {
    assert forall j :: 0 < j < |[h] + s| ==> ([h] + s)[j] == s[j - 1];
  }

  /** A lower bound of `x` and of every key of `s` bounds every key of the
      insertion. */
  lemma {:induction false} InsertByLowerBound<T>(x: T, s: seq<T>, key: T -> real, lo: real)
    requires lo <= key(x)
    requires forall i :: 0 <= i < |s| ==> lo <= key(s[i])
    ensures forall i :: 0 <= i < |InsertBy(x, s, key)| ==> lo <= key(InsertBy(x, s, key)[i])
  {
    if s != [] && key(s[0]) < key(x) {
      InsertByLowerBound(x, s[1..], key, lo);
      var r := InsertBy(x, s[1..], key);
      assert forall i :: 0 < i < |[s[0]] + r| ==> ([s[0]] + r)[i] == r[i - 1];
    } else {
      assert forall i :: 0 < i < |[x] + s| ==> ([x] + s)[i] == s[i - 1];
    }
  }

  /** Inserting into a sorted sequence keeps it sorted. */
  lemma {:induction false} InsertBySorted<T>(x: T, s: seq<T>, key: T -> real)
    requires SortedBy(s, key)
    ensures SortedBy(InsertBy(x, s, key), key)
  {
    if s != [] && key(s[0]) < key(x) {
      InsertBySorted(x, s[1..], key);
      InsertByLowerBound(x, s[1..], key, key(s[0]));
      SortedCons(s[0], InsertBy(x, s[1..], key), key);
    } else {
      SortedCons(x, s, key);
    }
  }

  /** Sorting loses and adds nothing. */
  lemma {:induction false} SortByPermutes<T(!new)>(s: seq<T>, key: T -> real)
    ensures multiset(SortBy(s, key)) == multiset(s)
  {
    if s != [] {
      SortByPermutes(s[1..], key);
      InsertByPermutes(s[0], SortBy(s[1..], key), key);
      assert s == [s[0]] + s[1..];
    }
  }

  /** The result of sorting is sorted. */
  lemma {:induction false} SortBySorted<T(!new)>(s: seq<T>, key: T -> real)
    ensures SortedBy(SortBy(s, key), key)
  {
    if s != [] {
      SortBySorted(s[1..], key);
      InsertBySorted(s[0], SortBy(s[1..], key), key);
    }
  }

  /** One step of the insertion: `x` stays in front of an element whose key
      is not smaller, and passes one whose key is. */
  lemma InsertByFront<T>(x: T, s: seq<T>, key: T -> real)
    requires s == [] || key(x) <= key(s[0])
    ensures InsertBy(x, s, key) == [x] + s
  {
  }

  lemma InsertByPast<T>(x: T, y: T, s: seq<T>, key: T -> real)
    requires key(y) < key(x)
    ensures InsertBy(x, [y] + s, key) == [y] + InsertBy(x, s, key)
  {
    assert ([y] + s)[1..] == s;
  }

  /** Sorting inserts the head into the sorted tail. */
  lemma SortByCons<T>(x: T, s: seq<T>, key: T -> real)
    ensures SortBy([x] + s, key) == InsertBy(x, SortBy(s, key), key)
  {
    assert ([x] + s)[1..] == s;
  }

  /** Inserting `x` puts it ahead of every element with the same key, and
      moves no element of that key class past another. */
  lemma {:induction false} InsertByKeyClass<T(!new)>(x: T, s: seq<T>, key: T -> real, k: real)
    ensures Filter(InsertBy(x, s, key), HasKey(key, k))
         == (if key(x) == k then [x] else []) + Filter(s, HasKey(key, k))
  {
    if s == [] || key(x) <= key(s[0]) {
      assert ([x] + s)[1..] == s;
    } else {
      InsertByKeyClass(x, s[1..], key, k);
      var r := InsertBy(x, s[1..], key);
      assert ([s[0]] + r)[1..] == r;
    }
  }

  /** Stability: for every key value, the elements with that key appear in
      the sorted result exactly as they appear in the input. */
  lemma {:induction false} SortByStable<T(!new)>(s: seq<T>, key: T -> real, k: real)
    ensures Filter(SortBy(s, key), HasKey(key, k)) == Filter(s, HasKey(key, k))
  {
    if s != [] {
      SortByStable(s[1..], key, k);
      InsertByKeyClass(s[0], SortBy(s[1..], key), key, k);
    }
  }
}
