/**
 The caches behind the adapters' hooks. A read hands out the previous snapshot as long as the engine's latest one is
 structurally equal to it, so that a component which compares references has nothing to do.
 */
module SnapshotCaches {
  import opened StructuredValues

  /** What the list holds decides the comparison. */
  datatype Kind = Peers | Locks

  /** An array and its identity. */
  datatype Snapshot = Snapshot(ref: Ref, items: seq<Data>)

  datatype Cache = Empty | Cache(room: Ref, engine: Ref, snapshot: Snapshot)

  /** `next` is what the engine returns for the read, `built` the identity of the array the read may have to build. */
  datatype Read = Read(room: Ref, engine: Ref, next: Snapshot, built: Ref)

  ghost predicate Objects(heap: Heap, s: Snapshot) {
    forall i | 0 <= i < |s.items| :: s.items[i].Rec? && Lives(heap, s.items[i])
  }

  ghost predicate ItemsEqual(kind: Kind, a: Data, b: Data)
    requires a.Rec? && b.Rec?
  {
    if kind.Peers? then PeersEqual(a, b) else Equal(a, b)
  }

  ghost predicate ListsEqual(heap: Heap, kind: Kind, a: Snapshot, b: Snapshot)
    requires Objects(heap, a) && Objects(heap, b)
  {
    |a.items| == |b.items| && forall i | 0 <= i < |a.items| :: ItemsEqual(kind, a.items[i], b.items[i])
  }

  /** One item of a rebuilt list: the previous one at that index if it is equal. */
  ghost function Kept(heap: Heap, kind: Kind, previous: Snapshot, next: Snapshot, i: nat): Data
    requires Objects(heap, previous) && Objects(heap, next) && i < |next.items|
  {
    if i < |previous.items| && ItemsEqual(kind, previous.items[i], next.items[i]) then previous.items[i]
    else next.items[i]
  }

  ghost function ReadList(heap: Heap, kind: Kind, cache: Cache, read: Read): Snapshot
    requires Objects(heap, read.next) && (cache.Cache? ==> Objects(heap, cache.snapshot))
  {
    if cache.Empty? || cache.room != read.room || cache.engine != read.engine then read.next
    else if ListsEqual(heap, kind, cache.snapshot, read.next) then cache.snapshot
    else Snapshot(read.built, seq(|read.next.items|, i requires 0 <= i < |read.next.items| =>
                                    Kept(heap, kind, cache.snapshot, read.next, i)))
  }

  class ListCache {
    const kind: Kind
    var current: Cache

    constructor (kind: Kind)
      ensures this.kind == kind && current == Empty
    {
      this.kind := kind;
      current := Empty;
    }

    method AreItemsEqual(ghost heap: Heap, a: Data, b: Data) returns (equal: bool)
      requires a.Rec? && b.Rec? && Lives(heap, a) && Lives(heap, b)
      ensures equal <==> ItemsEqual(kind, a, b)
    {
      if kind.Peers? {
        equal := ArePeersEqual(heap, a, b);
      } else {
        equal := AreStructuredValuesEqual(heap, a, b);
      }
    }

    method AreListsEqual(ghost heap: Heap, previous: Snapshot, next: Snapshot) returns (equal: bool)
      requires Objects(heap, previous) && Objects(heap, next)
      requires previous.ref == next.ref ==> previous == next
      ensures equal <==> ListsEqual(heap, kind, previous, next)
    {
      if previous.ref == next.ref {
        return true;
      }
      if |previous.items| != |next.items| {
        return false;
      }
      for n := 0 to |previous.items|
        invariant forall i | 0 <= i < n :: ItemsEqual(kind, previous.items[i], next.items[i])
      {
        var same := AreItemsEqual(heap, previous.items[n], next.items[n]);
        if !same {
          return false;
        }
      }
      equal := true;
    }

    method ReadSnapshot(ghost heap: Heap, read: Read) returns (snapshot: Snapshot)
      requires Objects(heap, read.next)
      requires current.Cache? ==> Objects(heap, current.snapshot)
      requires current.Cache? && current.snapshot.ref == read.next.ref ==> current.snapshot == read.next
      modifies this
      ensures snapshot == ReadList(heap, kind, old(current), read)
      ensures current == Cache(read.room, read.engine, snapshot)
    {
      if current.Cache? && current.room == read.room && current.engine == read.engine {
        var previous := current.snapshot;
        var same := AreListsEqual(heap, previous, read.next);
        if same {
          return previous;
        }
        var items := [];
        for n := 0 to |read.next.items|
          invariant |items| == n
          invariant forall i | 0 <= i < n :: items[i] == Kept(heap, kind, previous, read.next, i)
        {
          var item := read.next.items[n];
          if n < |previous.items| {
            var kept := AreItemsEqual(heap, previous.items[n], item);
            if kept {
              item := previous.items[n];
            }
          }
          items := items + [item];
        }
        snapshot := Snapshot(read.built, items);
        current := Cache(read.room, read.engine, snapshot);
        return;
      }
      current := Cache(read.room, read.engine, read.next);
      snapshot := read.next;
    }
  }

  // ---------------------------------------------------------------- one read after another

  /** The engine's arrays do not change, and each array a read builds is a new one. */
  ghost predicate Reads(heap: Heap, history: seq<Read>) {
    && (forall i | 0 <= i < |history| :: Objects(heap, history[i].next))
    && (forall i, j | 0 <= i < j < |history| :: history[i].next.ref == history[j].next.ref ==> history[i].next == history[j].next)
    && (forall i, j | 0 <= i < |history| && 0 <= j < |history| :: history[i].built != history[j].next.ref)
    && (forall i, j | 0 <= i < j < |history| :: history[i].built != history[j].built)
  }

  ghost function CacheAfter(heap: Heap, kind: Kind, history: seq<Read>, n: nat): (cache: Cache)
    requires Reads(heap, history) && n <= |history|
    ensures cache.Cache? ==> Objects(heap, cache.snapshot)
    ensures cache.Empty? <==> n == 0
  {
    if n == 0 then Empty
    else
      var read := history[n - 1];
      Cache(read.room, read.engine, ReadList(heap, kind, CacheAfter(heap, kind, history, n - 1), read))
  }

  ghost function Returned(heap: Heap, kind: Kind, history: seq<Read>, i: nat): Snapshot
    requires Reads(heap, history) && i < |history|
  {
    CacheAfter(heap, kind, history, i + 1).snapshot
  }

  lemma ItemsEqualIsEquivalence(heap: Heap, kind: Kind, a: Data, b: Data, c: Data)
    requires Lives(heap, a) && Lives(heap, b) && Lives(heap, c) && a.Rec? && b.Rec? && c.Rec?
    ensures ItemsEqual(kind, a, a)
    ensures ItemsEqual(kind, a, b) ==> ItemsEqual(kind, b, a)
    ensures ItemsEqual(kind, a, b) && ItemsEqual(kind, b, c) ==> ItemsEqual(kind, a, c)
    ensures Identical(a, b) ==> ItemsEqual(kind, a, b)
  {
    if kind.Peers? {
      PeersEqualIsEquivalence(heap, a, b, c);
    } else {
      if Equal(a, b) {
        EqualSymmetric(a, b);
        if Equal(b, c) {
          EqualTransitive(heap, a, b, c);
        }
      }
    }
  }

  lemma ListsEqualSymmetric(heap: Heap, kind: Kind, a: Snapshot, b: Snapshot)
    requires Objects(heap, a) && Objects(heap, b) && ListsEqual(heap, kind, a, b)
    ensures ListsEqual(heap, kind, b, a)
  {
    forall i | 0 <= i < |a.items| ensures ItemsEqual(kind, b.items[i], a.items[i]) {
      ItemsEqualIsEquivalence(heap, kind, a.items[i], b.items[i], a.items[i]);
    }
  }

  lemma ListsEqualTransitive(heap: Heap, kind: Kind, a: Snapshot, b: Snapshot, c: Snapshot)
    requires Objects(heap, a) && Objects(heap, b) && Objects(heap, c)
    requires ListsEqual(heap, kind, a, b) && ListsEqual(heap, kind, b, c)
    ensures ListsEqual(heap, kind, a, c)
  {
    forall i | 0 <= i < |a.items| ensures ItemsEqual(kind, a.items[i], c.items[i]) {
      ItemsEqualIsEquivalence(heap, kind, a.items[i], b.items[i], c.items[i]);
    }
  }

  /** What a read returns is equal to what the engine has at that moment, however old the reference. */
  lemma ReturnedIsCurrent(heap: Heap, kind: Kind, history: seq<Read>, i: nat)
    requires Reads(heap, history) && i < |history|
    ensures ListsEqual(heap, kind, Returned(heap, kind, history, i), history[i].next)
  {
    var r, next := Returned(heap, kind, history, i), history[i].next;
    forall k | 0 <= k < |next.items| ensures |r.items| == |next.items| && ItemsEqual(kind, r.items[k], next.items[k]) {
      ItemsEqualIsEquivalence(heap, kind, next.items[k], next.items[k], next.items[k]);
    }
  }

  /** With another room or engine than the read before, a read returns the engine's own list. */
  lemma StartsOver(heap: Heap, kind: Kind, history: seq<Read>, i: nat)
    requires Reads(heap, history) && i < |history|
    requires i > 0 ==> history[i - 1].room != history[i].room || history[i - 1].engine != history[i].engine
    ensures Returned(heap, kind, history, i) == history[i].next
  {
    if i > 0 {
      var before := CacheAfter(heap, kind, history, i);
      assert before.room == history[i - 1].room && before.engine == history[i - 1].engine;
    }
  }

  /** A returned array is one of the engine's or one that an earlier read built. */
  lemma {:induction false} ReturnedRef(heap: Heap, kind: Kind, history: seq<Read>, i: nat)
    requires Reads(heap, history) && i < |history|
    ensures exists k | 0 <= k <= i ::
              var ref := Returned(heap, kind, history, i).ref; ref == history[k].next.ref || ref == history[k].built
  {
    var r := Returned(heap, kind, history, i);
    if r.ref != history[i].next.ref && r.ref != history[i].built {
      ReturnedRef(heap, kind, history, i - 1);
    }
  }

  /** Of two history in a row, the second returns the first one's array exactly when the engine's lists are equal. */
  lemma ReferenceKeptExactly(heap: Heap, kind: Kind, history: seq<Read>, i: nat)
    requires Reads(heap, history) && i + 1 < |history|
    requires history[i].room == history[i + 1].room && history[i].engine == history[i + 1].engine
    ensures var r, s := Returned(heap, kind, history, i), Returned(heap, kind, history, i + 1);
            && (s.ref == r.ref <==> ListsEqual(heap, kind, history[i].next, history[i + 1].next))
            && (s.ref == r.ref ==> s == r)
  {
    var r, p, q := Returned(heap, kind, history, i), history[i].next, history[i + 1].next;
    ReturnedIsCurrent(heap, kind, history, i);
    ReturnedRef(heap, kind, history, i);
    if ListsEqual(heap, kind, p, q) {
      ListsEqualTransitive(heap, kind, r, p, q);
    }
    if ListsEqual(heap, kind, r, q) {
      ListsEqualSymmetric(heap, kind, r, p);
      ListsEqualTransitive(heap, kind, p, r, q);
    }
  }

  /** The same goes for each item at its index. */
  lemma ItemKeptExactly(heap: Heap, kind: Kind, history: seq<Read>, i: nat, k: nat)
    requires Reads(heap, history) && i + 1 < |history|
    requires history[i].room == history[i + 1].room && history[i].engine == history[i + 1].engine
    requires k < |history[i].next.items| && k < |history[i + 1].next.items|
    ensures var r, s := Returned(heap, kind, history, i), Returned(heap, kind, history, i + 1);
            && k < |r.items| && k < |s.items|
            && (Identical(r.items[k], s.items[k]) <==>
                ItemsEqual(kind, history[i].next.items[k], history[i + 1].next.items[k]))
  {
    var r, s := Returned(heap, kind, history, i), Returned(heap, kind, history, i + 1);
    ReturnedIsCurrent(heap, kind, history, i);
    ReturnedIsCurrent(heap, kind, history, i + 1);
    var a, b, p, q := r.items[k], s.items[k], history[i].next.items[k], history[i + 1].next.items[k];
    ItemsEqualIsEquivalence(heap, kind, a, p, q);
    ItemsEqualIsEquivalence(heap, kind, p, a, q);
    ItemsEqualIsEquivalence(heap, kind, a, b, q);
  }

  // ---------------------------------------------------------------- a single value

  datatype ValueCached = NoValue | Value(room: Ref, engine: Ref, snapshot: Data)

  datatype ValueRead = ValueRead(room: Ref, engine: Ref, next: Data)

  ghost function ReadValue(cached: ValueCached, read: ValueRead): Data {
    if cached.Value? && cached.room == read.room && cached.engine == read.engine && Equal(cached.snapshot, read.next)
    then cached.snapshot else read.next
  }

  class ValueCache {
    var current: ValueCached

    constructor ()
      ensures current == NoValue
    {
      current := NoValue;
    }

    method ReadSharedState(ghost heap: Heap, read: ValueRead) returns (value: Data)
      requires Lives(heap, read.next) && (current.Value? ==> Lives(heap, current.snapshot))
      modifies this
      ensures value == ReadValue(old(current), read)
      ensures current == Value(read.room, read.engine, value)
    {
      if current.Value? && current.room == read.room && current.engine == read.engine {
        var same := AreStructuredValuesEqual(heap, current.snapshot, read.next);
        if same {
          return current.snapshot;
        }
        current := Value(read.room, read.engine, read.next);
        return read.next;
      }
      current := Value(read.room, read.engine, read.next);
      value := read.next;
    }
  }

  /** What the shared-state hook returns, one read after another through one cache. */
  ghost function ValueAfter(history: seq<ValueRead>, n: nat): (cached: ValueCached)
    requires n <= |history|
    ensures cached.NoValue? <==> n == 0
    ensures n > 0 ==> cached.room == history[n - 1].room && cached.engine == history[n - 1].engine
  {
    if n == 0 then NoValue
    else
      var read := history[n - 1];
      Value(read.room, read.engine, ReadValue(ValueAfter(history, n - 1), read))
  }

  ghost function ValueAt(history: seq<ValueRead>, i: nat): Data
    requires i < |history|
  {
    ValueAfter(history, i + 1).snapshot
  }

  ghost predicate Living(heap: Heap, history: seq<ValueRead>) {
    forall k | 0 <= k < |history| :: Lives(heap, history[k].next)
  }

  lemma {:induction false} ValueIsCurrent(heap: Heap, history: seq<ValueRead>, i: nat)
    requires i < |history| && Living(heap, history)
    ensures Lives(heap, ValueAt(history, i))
    ensures ValueAt(history, i) == history[i].next || Equal(ValueAt(history, i), history[i].next)
  {
    if i > 0 {
      ValueIsCurrent(heap, history, i - 1);
    }
  }

  lemma ValueStartsOver(history: seq<ValueRead>, i: nat)
    requires i < |history|
    requires i > 0 ==> history[i - 1].room != history[i].room || history[i - 1].engine != history[i].engine
    ensures ValueAt(history, i) == history[i].next
  {
  }

  /** The value handed out stays the very same exactly when the engine's value stays equal; NaN never does. */
  lemma ValueKeptExactly(heap: Heap, history: seq<ValueRead>, i: nat)
    requires i + 1 < |history| && Living(heap, history)
    requires history[i].room == history[i + 1].room && history[i].engine == history[i + 1].engine
    ensures Identical(ValueAt(history, i), ValueAt(history, i + 1)) <==> Equal(history[i].next, history[i + 1].next)
  {
    ValueIsCurrent(heap, history, i);
    var v, p, q := ValueAt(history, i), history[i].next, history[i + 1].next;
    assert ValueAt(history, i + 1) == ReadValue(ValueAfter(history, i + 1), history[i + 1]);
    if v != p {
      EqualSymmetric(v, p);
      if Equal(p, q) {
        EqualTransitive(heap, v, p, q);
      }
      if Equal(v, q) {
        EqualTransitive(heap, p, v, q);
      }
    }
  }
}
