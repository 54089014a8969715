/** The stable sort of section 23.1.3.30 of ECMA-262, for a comparison that says whether `x` may come before `y`. */
module StableSort {
  ghost predicate TotalPreorder<T(!new)>(le: (T, T) -> bool) {
    && (forall x, y :: le(x, y) || le(y, x))
    && (forall x, y, z :: le(x, y) && le(y, z) ==> le(x, z))
  }

  ghost predicate Ordered<T>(xs: seq<T>, le: (T, T) -> bool) {
    forall i, j | 0 <= i < j < |xs| :: le(xs[i], xs[j])
  }

  function Insert<T>(x: T, sorted: seq<T>, le: (T, T) -> bool): seq<T> {
    if sorted == [] || le(x, sorted[0]) then [x] + sorted
    else [sorted[0]] + Insert(x, sorted[1..], le)
  }

  function Sort<T>(xs: seq<T>, le: (T, T) -> bool): seq<T> {
    if xs == [] then [] else Insert(xs[0], Sort(xs[1..], le), le)
  }

  lemma {:induction false} InsertPermutes<T>(x: T, sorted: seq<T>, le: (T, T) -> bool)
    ensures multiset(Insert(x, sorted, le)) == multiset{x} + multiset(sorted)
  {
    if !(sorted == [] || le(x, sorted[0])) {
      InsertPermutes(x, sorted[1..], le);
      assert sorted == [sorted[0]] + sorted[1..];
    }
  }

  lemma {:induction false} SortPermutes<T>(xs: seq<T>, le: (T, T) -> bool)
    ensures multiset(Sort(xs, le)) == multiset(xs)
  {
    if xs != [] {
      SortPermutes(xs[1..], le);
      InsertPermutes(xs[0], Sort(xs[1..], le), le);
      assert xs == [xs[0]] + xs[1..];
    }
  }

  lemma {:induction false} InsertOrders<T(!new)>(x: T, sorted: seq<T>, le: (T, T) -> bool)
    requires TotalPreorder(le) && Ordered(sorted, le)
    ensures Ordered(Insert(x, sorted, le), le)
  {
    if sorted == [] {
    } else if le(x, sorted[0]) {
      assert forall k | 0 <= k < |sorted| :: le(sorted[0], sorted[k]) || k == 0;
    } else {
      var rest := Insert(x, sorted[1..], le);
      InsertOrders(x, sorted[1..], le);
      InsertPermutes(x, sorted[1..], le);
      forall k | 0 <= k < |rest|
        ensures le(sorted[0], rest[k])
      {
        assert rest[k] in multiset(rest);
      }
    }
  }

  lemma {:induction false} SortOrders<T(!new)>(xs: seq<T>, le: (T, T) -> bool)
    requires TotalPreorder(le)
    ensures Ordered(Sort(xs, le), le)
  {
    if xs != [] {
      SortOrders(xs[1..], le);
      InsertOrders(xs[0], Sort(xs[1..], le), le);
    }
  }

  /** What is ordered already stays as it is. */
  lemma {:induction false} SortKeepsOrdered<T>(xs: seq<T>, le: (T, T) -> bool)
    requires Ordered(xs, le)
    ensures Sort(xs, le) == xs
  {
    if xs != [] {
      SortKeepsOrdered(xs[1..], le);
    }
  }

  /** Sorting the end of a sequence first makes no difference. */
  lemma {:induction false} SortTailFirst<T(!new)>(a: seq<T>, b: seq<T>, le: (T, T) -> bool)
    requires TotalPreorder(le)
    ensures Sort(a + Sort(b, le), le) == Sort(a + b, le)
  {
    if a == [] {
      SortOrders(b, le);
      SortKeepsOrdered(Sort(b, le), le);
      assert a + b == b && a + Sort(b, le) == Sort(b, le);
    } else {
      SortTailFirst(a[1..], b, le);
      assert (a + b)[1..] == a[1..] + b && (a + Sort(b, le))[1..] == a[1..] + Sort(b, le);
    }
  }

  function Select<T>(xs: seq<T>, wanted: T -> bool): seq<T> {
    if xs == [] then [] else (if wanted(xs[0]) then [xs[0]] else []) + Select(xs[1..], wanted)
  }

  lemma {:induction false} SelectMembers<T>(xs: seq<T>, wanted: T -> bool)
    ensures forall x :: x in Select(xs, wanted) <==> x in xs && wanted(x)
  {
    if xs != [] {
      SelectMembers(xs[1..], wanted);
    }
  }

  lemma {:induction false} SelectInsert<T(!new)>(x: T, sorted: seq<T>, wanted: T -> bool, le: (T, T) -> bool)
    requires TotalPreorder(le) && Ordered(sorted, le)
    ensures Select(Insert(x, sorted, le), wanted) ==
            if wanted(x) then Insert(x, Select(sorted, wanted), le) else Select(sorted, wanted)
  {
    if sorted == [] || le(x, sorted[0]) {
      assert ([x] + sorted)[1..] == sorted;
      SelectMembers(sorted, wanted);
      var selected := Select(sorted, wanted);
      if selected != [] {
        assert selected[0] in selected;
        var k :| 0 <= k < |sorted| && sorted[k] == selected[0];
        assert k == 0 || le(sorted[0], sorted[k]);
        assert le(x, selected[0]);
      }
    } else {
      SelectInsert(x, sorted[1..], wanted, le);
      var rest := Insert(x, sorted[1..], le);
      assert ([sorted[0]] + rest)[1..] == rest;
      var selected := Select(sorted[1..], wanted);
      assert ([sorted[0]] + selected)[1..] == selected && [] + selected == selected;
      assert wanted(sorted[0]) ==> Select(sorted, wanted) == [sorted[0]] + selected;
      assert !wanted(sorted[0]) ==> Select(sorted, wanted) == selected;
    }
  }

  /** What is selected from a sorted sequence is what was selected, sorted. */
  lemma {:induction false} SelectSorted<T(!new)>(xs: seq<T>, wanted: T -> bool, le: (T, T) -> bool)
    requires TotalPreorder(le)
    ensures Select(Sort(xs, le), wanted) == Sort(Select(xs, wanted), le)
  {
    if xs != [] {
      SelectSorted(xs[1..], wanted, le);
      SortOrders(xs[1..], le);
      SelectInsert(xs[0], Sort(xs[1..], le), wanted, le);
      var selected := Select(xs[1..], wanted);
      assert ([xs[0]] + selected)[1..] == selected && [] + selected == selected;
      assert Select(xs, wanted) == if wanted(xs[0]) then [xs[0]] + selected else selected;
    }
  }

  ghost predicate DistinctBy<T, K>(xs: seq<T>, key: T -> K) {
    forall i, j | 0 <= i < j < |xs| :: key(xs[i]) != key(xs[j])
  }

  lemma {:induction false} InsertDistinct<T, K>(x: T, xs: seq<T>, key: T -> K, le: (T, T) -> bool)
    requires DistinctBy(xs, key) && forall y | y in xs :: key(y) != key(x)
    ensures DistinctBy(Insert(x, xs, le), key)
  {
    if xs == [] || le(x, xs[0]) {
      assert forall i | 0 <= i < |xs| :: xs[i] in xs;
    } else {
      var rest := Insert(x, xs[1..], le);
      InsertDistinct(x, xs[1..], key, le);
      InsertPermutes(x, xs[1..], le);
      forall i | 0 <= i < |rest| ensures key(rest[i]) != key(xs[0]) {
        assert rest[i] in multiset(rest);
      }
    }
  }

  /** Sorting keeps keys apart. */
  lemma {:induction false} SortDistinct<T, K>(xs: seq<T>, key: T -> K, le: (T, T) -> bool)
    requires DistinctBy(xs, key)
    ensures DistinctBy(Sort(xs, le), key)
  {
    if xs != [] {
      var rest := Sort(xs[1..], le);
      SortDistinct(xs[1..], key, le);
      SortPermutes(xs[1..], le);
      forall y | y in rest ensures key(y) != key(xs[0]) {
        assert y in multiset(rest);
      }
      InsertDistinct(xs[0], rest, key, le);
    }
  }
}
