/** Lab3/unique.py: `Unique`, an iterator over the items of another
    iterator that yields each value the first time it meets it and skips
    its later occurrences. With `ignore_case`, items are lower-cased before
    they are compared, and the lower-cased form is what is yielded.

    The underlying iterator is modelled as the sequence `items` of the
    values it will produce and the number `pos` of them already consumed.
    `str.lower` is a library call this model cannot see; it is the
    constructor parameter `lower`. */
module UniqueIterator {

  import opened Wrappers
  import opened Sequences

  /** The value compared and yielded for an input item. */
  function Normalize<T>(x: T, ignoreCase: bool, lower: T -> T): T {
    if ignoreCase then lower(x) else x
  }

  /** The normalized form of each item of `s`, in order. */
  function NormalizeAll<T>(s: seq<T>, ignoreCase: bool, lower: T -> T): (r: seq<T>)
    ensures |r| == |s|
    ensures forall i :: 0 <= i < |s| ==> r[i] == Normalize(s[i], ignoreCase, lower)
  {
    if s == [] then []
    else NormalizeAll(s[..|s| - 1], ignoreCase, lower) + [Normalize(s[|s| - 1], ignoreCase, lower)]
  }

  class Unique<T(==,!new)> {
    /** The values the underlying iterator produces, and how many of them
        `next(self.items)` has consumed. */
    const items: seq<T>
    var pos: nat
    const ignoreCase: bool
    const lower: T -> T
    /** `self.unique_items`, the values yielded so far. */
    var uniqueItems: set<T>

    /** The value compared and yielded for `items[k]`. */
    function Item(k: nat): T
      requires k < |items|
    {
      Normalize(items[k], ignoreCase, lower)
    }

    /** What the iterator has yielded once `n` items are consumed: each
        consumed item's normalized value, unless an earlier one had it. */
    ghost function EmittedAfter(n: nat): seq<T>
      requires n <= |items|
    {
      if n == 0 then []
      else
        var e := EmittedAfter(n - 1);
        if Item(n - 1) in e then e else e + [Item(n - 1)]
    }

    /** The yielded values are the first occurrences of the normalized
        consumed items, in order. */
    lemma {:induction false} EmittedAfterIsDedup(n: nat)
      requires n <= |items|
      ensures EmittedAfter(n) == Dedup(NormalizeAll(items[..n], ignoreCase, lower))
    {
      if n > 0 {
        EmittedAfterIsDedup(n - 1);
        var consumed := NormalizeAll(items[..n - 1], ignoreCase, lower);
        assert items[..n][..n - 1] == items[..n - 1];
        assert NormalizeAll(items[..n], ignoreCase, lower) == consumed + [Item(n - 1)];
        DedupSnoc(consumed, Item(n - 1));
      }
    }

    /** The seen set is exactly the set of values yielded so far. */
    ghost predicate Valid()
      reads this
    {
      pos <= |items| && forall x {:trigger x in uniqueItems} :: x in uniqueItems <==> x in EmittedAfter(pos)
    }

    /** `Unique(items, ignore_case=ignoreCase)` */
    constructor (items: seq<T>, ignoreCase: bool, lower: T -> T)
      ensures Valid()
      ensures this.items == items && this.ignoreCase == ignoreCase && this.lower == lower
      ensures pos == 0 && uniqueItems == {} && EmittedAfter(pos) == []
    {
      this.items := items;
      this.pos := 0;
      this.ignoreCase := ignoreCase;
      this.lower := lower;
      this.uniqueItems := {};
    }

    /** `Unique(items)`: `ignore_case` defaults to false. */
    constructor Default(items: seq<T>)
      ensures Valid()
      ensures this.items == items && !this.ignoreCase
      ensures pos == 0 && uniqueItems == {} && EmittedAfter(pos) == []
    {
      this.items := items;
      this.pos := 0;
      this.ignoreCase := false;
      this.lower := (x: T) => x;
      this.uniqueItems := {};
    }

    /** `__next__`: consumes items until one whose normalized value has not
        been seen, records and yields that value. `None` is the
        `StopIteration` that `next(self.items)` raises once the items are
        exhausted, which `__next__` lets propagate. */
    method Next() returns (r: Option<T>)
      requires Valid()
      modifies this`pos, this`uniqueItems
      ensures Valid()
      ensures r.Some? ==> r.value !in old(uniqueItems) && uniqueItems == old(uniqueItems) + {r.value} && old(pos) < pos
      ensures r.Some? ==> Item(pos - 1) == r.value && forall k :: old(pos) <= k < pos - 1 ==> Item(k) in old(uniqueItems)
      ensures r.None? ==> pos == |items| && uniqueItems == old(uniqueItems)
      ensures r.None? <==> forall k :: old(pos) <= k < |items| ==> Item(k) in old(uniqueItems)
      ensures EmittedAfter(pos) == EmittedAfter(old(pos)) + if r.Some? then [r.value] else []
    {
      ghost var start := pos;
      ghost var seen := uniqueItems;
      while true
        invariant start <= pos <= |items|
        invariant uniqueItems == seen
        invariant Valid() && EmittedAfter(pos) == EmittedAfter(start)
        invariant forall k :: start <= k < pos ==> Item(k) in seen
        decreases |items| - pos
      {
        if pos == |items| {
          return None;
        }
        var item := items[pos];
        ghost var before := pos;
        assert forall k :: start <= k < before ==> Item(k) in seen;
        pos := pos + 1;
        item := if ignoreCase then lower(item) else item;
        assert item == Item(before);
        if item !in uniqueItems {
          uniqueItems := uniqueItems + {item};
          return Some(item);
        }
        forall k | start <= k < pos ensures Item(k) in seen {
          if k == before {
            assert Item(k) == item;
          }
        }
      }
    }

    /** `__iter__`: the iterator is its own iterator. */
    method Iter() returns (it: Unique<T>)
      ensures it == this
    {
      it := this;
    }

    /** `list(unique)`: calls `Next` until the items are exhausted and
        collects what it yields. */
    method ToList() returns (out: seq<T>)
      requires Valid()
      modifies this`pos, this`uniqueItems
      ensures Valid() && pos == |items|
      ensures EmittedAfter(old(pos)) + out == EmittedAfter(|items|) == Dedup(NormalizeAll(items, ignoreCase, lower))
    {
      out := [];
      ghost var start := pos;
      while true
        invariant Valid() && start <= pos && EmittedAfter(start) + out == EmittedAfter(pos)
        decreases |items| - pos
      {
        var r := Next();
        if r.None? {
          EmittedAfterIsDedup(pos);
          assert items[..pos] == items;
          return;
        }
        out := out + [r.value];
      }
    }
  }

  /** Whatever the input, the iterator yields no value twice, yields every
      value of the normalized input, and yields them in the order of their
      first occurrence. */
  lemma EmittedIsFirstOccurrences<T(!new)>(items: seq<T>, ignoreCase: bool, lower: T -> T)
    ensures NoDup(Dedup(NormalizeAll(items, ignoreCase, lower)))
    ensures forall x {:trigger x in Dedup(NormalizeAll(items, ignoreCase, lower))} ::
              x in Dedup(NormalizeAll(items, ignoreCase, lower)) <==> x in NormalizeAll(items, ignoreCase, lower)
    ensures forall x {:trigger x in NormalizeAll(items, ignoreCase, lower)} ::
              x in NormalizeAll(items, ignoreCase, lower) <==> exists i :: 0 <= i < |items| && x == Normalize(items[i], ignoreCase, lower)
    ensures forall i :: 0 <= i < |Dedup(NormalizeAll(items, ignoreCase, lower))| ==>
              Dedup(NormalizeAll(items, ignoreCase, lower))[i] in NormalizeAll(items, ignoreCase, lower)
    ensures forall i, j :: 0 <= i < j < |Dedup(NormalizeAll(items, ignoreCase, lower))| ==>
              FirstIndex(NormalizeAll(items, ignoreCase, lower), Dedup(NormalizeAll(items, ignoreCase, lower))[i])
              < FirstIndex(NormalizeAll(items, ignoreCase, lower), Dedup(NormalizeAll(items, ignoreCase, lower))[j])
  {
    var n := NormalizeAll(items, ignoreCase, lower);
    DedupNoDup(n);
    DedupMembers(n);
    DedupFirstOccurrenceOrder(n);
    forall x | x in n ensures exists i :: 0 <= i < |items| && x == Normalize(items[i], ignoreCase, lower) {
      var i :| 0 <= i < |n| && n[i] == x;
      assert x == Normalize(items[i], ignoreCase, lower);
    }
  }

  /** Without `ignore_case` the items are compared and yielded unchanged. */
  lemma {:induction false} NormalizeAllPlain<T>(s: seq<T>, lower: T -> T)
    ensures NormalizeAll(s, false, lower) == s
  {
    if s != [] {
      NormalizeAllPlain(s[..|s| - 1], lower);
      assert s == s[..|s| - 1] + [s[|s| - 1]];
    }
  }

  /** Two runs of repeated items collapse to one item each. */
  lemma DedupTwoRuns<T(!new)>(x: T, y: T)
    requires x != y
    ensures Dedup([x, x, x, x, x, y, y, y, y, y]) == [x, y]
  {
    assert Dedup([x]) == [x] by {
      DedupSnoc([], x);
      assert [] + [x] == [x];
    }
    assert Dedup([x, x, x, x, x]) == [x] by {
      DedupAbsorb([x], [x, x, x, x]);
      assert [x] + [x, x, x, x] == [x, x, x, x, x];
    }
    assert Dedup([x, x, x, x, x, y]) == [x, y] by {
      DedupSnoc([x, x, x, x, x], y);
      assert [x, x, x, x, x] + [y] == [x, x, x, x, x, y];
    }
    assert Dedup([x, x, x, x, x, y, y, y, y, y]) == [x, y] by {
      DedupAbsorb([x, x, x, x, x, y], [y, y, y, y]);
      assert [x, x, x, x, x, y] + [y, y, y, y] == [x, x, x, x, x, y, y, y, y, y];
    }
  }

  /** Two rounds over four distinct items keep the first round. */
  lemma DedupTwoRounds<T(!new)>(a: T, b: T, c: T, d: T)
    requires a != b && a != c && a != d && b != c && b != d && c != d
    ensures Dedup([a, b, c, d, a, b, c, d]) == [a, b, c, d]
  {
    assert Dedup([a]) == [a] by {
      DedupSnoc([], a);
      assert [] + [a] == [a];
    }
    assert Dedup([a, b]) == [a, b] by {
      DedupSnoc([a], b);
      assert [a] + [b] == [a, b];
    }
    assert Dedup([a, b, c]) == [a, b, c] by {
      DedupSnoc([a, b], c);
      assert [a, b] + [c] == [a, b, c];
    }
    assert Dedup([a, b, c, d]) == [a, b, c, d] by {
      DedupSnoc([a, b, c], d);
      assert [a, b, c] + [d] == [a, b, c, d];
    }
    assert Dedup([a, b, c, d, a, b, c, d]) == [a, b, c, d] by {
      DedupAbsorb([a, b, c, d], [a, b, c, d]);
      assert [a, b, c, d] + [a, b, c, d] == [a, b, c, d, a, b, c, d];
    }
  }

  /** Two rounds of doubled items over two distinct items keep the first two. */
  lemma DedupAlternating<T(!new)>(a: T, b: T)
    requires a != b
    ensures Dedup([a, a, b, b, a, a, b, b]) == [a, b]
  {
    assert Dedup([a]) == [a] by {
      DedupSnoc([], a);
      assert [] + [a] == [a];
    }
    assert Dedup([a, a]) == [a] by {
      DedupSnoc([a], a);
      assert [a] + [a] == [a, a];
    }
    assert Dedup([a, a, b]) == [a, b] by {
      DedupSnoc([a, a], b);
      assert [a, a] + [b] == [a, a, b];
    }
    assert Dedup([a, a, b, b]) == [a, b] by {
      DedupAbsorb([a, a, b], [b]);
      assert [a, a, b] + [b] == [a, a, b, b];
    }
    assert Dedup([a, a, b, b, a, a, b, b]) == [a, b] by {
      DedupAbsorb([a, a, b, b], [a, a, b, b]);
      assert [a, a, b, b] + [a, a, b, b] == [a, a, b, b, a, a, b, b];
    }
  }

  /** `list(Unique([1, 1, 1, 1, 1, 2, 2, 2, 2, 2]))` is `[1, 2]`; without
      `ignore_case` the items are compared unchanged (`NormalizeAllPlain`). */
  lemma DemoIntegers()
    ensures Dedup([1, 1, 1, 1, 1, 2, 2, 2, 2, 2]) == [1, 2]
  {
    DedupTwoRuns(1, 2);
  }

  /** `list(Unique(['a', 'A', 'b', 'B', 'a', 'A', 'b', 'B']))` keeps both
      cases: `['a', 'A', 'b', 'B']`. */
  lemma DemoLetters()
    ensures Dedup(["a", "A", "b", "B", "a", "A", "b", "B"]) == ["a", "A", "b", "B"]
  {
    DedupTwoRounds("a", "A", "b", "B");
  }

  /** With `ignore_case=True` and any `lower` that maps "A" to "a" and "B"
      to "b", the same data yields `['a', 'b']`. */
  lemma DemoLettersIgnoreCase(lower: string -> string)
    requires lower("a") == "a" && lower("A") == "a" && lower("b") == "b" && lower("B") == "b"
    ensures Dedup(NormalizeAll(["a", "A", "b", "B", "a", "A", "b", "B"], true, lower)) == ["a", "b"]
  {
    var data := ["a", "A", "b", "B", "a", "A", "b", "B"];
    var lowered := NormalizeAll(data, true, lower);
    assert lowered == ["a", "a", "b", "b", "a", "a", "b", "b"];
    DedupAlternating("a", "b");
  }
}
