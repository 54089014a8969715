/** The entries of a difference, applied to the earlier value in any order, and when they give the later one. */
module DiffPatch {
  import opened RelayTypes
  import opened Values
  import opened StableSort
  import opened Text
  import opened Diff

  // ---------------------------------------------------------------- what an entry should say

  function Below(e: Entry<Path>): Entry<Path>
    requires e.path != []
  {
    e.(path := e.path[1..])
  }

  predicate Named(key: string, previous: Side, next: Side)
    requires IsRecord(previous) && IsRecord(next)
  {
    key in OwnKeys(previous) || key in OwnKeys(next)
  }

  /** Walking the entry's path down both states, along keys one of them has, ends where they part; it says how. */
  ghost predicate Tells(e: Entry<Path>, previous: Side, next: Side)
    decreases |e.path|
  {
    if previous.Absent? then !next.Absent? && e == Entry(Added, next, [], Own(Null))
    else if next.Absent? then e == Entry(Removed, Own(Null), [], previous)
    else if IsRecord(previous) && IsRecord(next) then
      && e.path != [] && Named(e.path[0], previous, next)
      && Tells(Below(e), Read(previous, e.path[0]), Read(next, e.path[0]))
    else JsonText(previous) != JsonText(next) && e == Entry(Changed, next, [], previous)
  }

  /** Every entry that should be there is, once; no other is. */
  ghost predicate Complete(entries: seq<Entry<Path>>, previous: Side, next: Side) {
    forall e: Entry<Path> :: multiset(entries)[e] == if Tells(e, previous, next) then 1 else 0
  }

  ghost predicate CleanSide(side: Side) {
    side.Own? ==> Clean(side.value)
  }

  lemma ReadClean(side: Side, key: string)
    requires IsRecord(side) && CleanSide(side)
    ensures CleanSide(Read(side, key)) && (key in OwnKeys(side) ==> IsName(key))
  {
    if side.Own? {
      LookupClean(side.value.fields, key);
      KeysLookup(side.value.fields, key);
    }
  }

  lemma {:induction false} NothingToTell(e: Entry<Path>, side: Side)
    ensures !Tells(e, side, side)
    decreases |e.path|
  {
    if IsRecord(side) && e.path != [] {
      NothingToTell(Below(e), Read(side, e.path[0]));
    }
  }

  /** Where the texts are equal there is nothing to tell. */
  lemma SameTextTellsNothing(e: Entry<Path>, previous: Side, next: Side)
    requires CleanSide(previous) && CleanSide(next) && !previous.Absent? && !next.Absent?
    requires JsonText(previous) == JsonText(next)
    ensures !Tells(e, previous, next)
  {
    if previous.Own? {
      CleanIsSafe(previous.value);
      JsonCarriesSafeValues(previous.value);
    }
    if next.Own? {
      CleanIsSafe(next.value);
      JsonCarriesSafeValues(next.value);
    }
    NothingToTell(e, previous);
  }

  lemma {:induction false} CountUnder(key: string, entries: seq<Entry<Path>>, e: Entry<Path>)
    ensures multiset(Under(key, entries))[e] ==
            if e.path != [] && e.path[0] == key then multiset(entries)[Below(e)] else 0
  {
    if entries != [] {
      var last := entries[|entries| - 1];
      var front := entries[..|entries| - 1];
      CountUnder(key, front, e);
      assert entries == front + [last];
      assert Under(key, entries) == Under(key, front) + [last.(path := [key] + last.path)];
      assert ([key] + last.path)[1..] == last.path;
      if e.path != [] && e.path[0] == key {
        assert [key] + Below(e).path == e.path;
      }
    }
  }

  lemma {:induction false} DifferenceComplete(previous: Side, next: Side)
    requires CleanSide(previous) && CleanSide(next)
    ensures Complete(Difference(previous, next), previous, next)
    decreases SizeAt(previous) + SizeAt(next), 0
  {
    hide JsonText, Read, Clean;
    if !previous.Absent? && !next.Absent? {
      if JsonText(previous) == JsonText(next) {
        forall e: Entry<Path> ensures !Tells(e, previous, next) {
          SameTextTellsNothing(e, previous, next);
        }
      } else if IsRecord(previous) && IsRecord(next) {
        RecordsComplete(previous, next);
      }
    }
  }

  lemma {:induction false} RecordsComplete(previous: Side, next: Side)
    requires CleanSide(previous) && CleanSide(next) && IsRecord(previous) && IsRecord(next)
    requires JsonText(previous) != JsonText(next)
    ensures Complete(Difference(previous, next), previous, next)
    decreases SizeInside(previous) + SizeInside(next), 2
  {
    hide JsonText, Read;
    var both := OwnKeys(previous) + OwnKeys(next);
    var keys := SortedKeys(both);
    SortedKeysSorts(both);
    DifferenceAtComplete(previous, next, keys);
    forall e: Entry<Path>
      ensures multiset(Difference(previous, next))[e] == if Tells(e, previous, next) then 1 else 0
    {
      if e.path != [] {
        assert e.path[0] in keys <==> Named(e.path[0], previous, next);
      }
    }
  }

  ghost predicate TellsAmong(e: Entry<Path>, previous: Side, next: Side, keys: seq<string>)
    requires IsRecord(previous) && IsRecord(next)
  {
    e.path != [] && e.path[0] in keys && Tells(Below(e), Read(previous, e.path[0]), Read(next, e.path[0]))
  }

  lemma {:induction false} DifferenceAtComplete(previous: Side, next: Side, keys: seq<string>)
    requires CleanSide(previous) && CleanSide(next) && IsRecord(previous) && IsRecord(next) && Increasing(keys)
    ensures forall e: Entry<Path> ::
              multiset(DifferenceAt(previous, next, keys))[e] == if TellsAmong(e, previous, next, keys) then 1 else 0
    decreases SizeInside(previous) + SizeInside(next), 1, |keys|
  {
    hide JsonText, Clean, Tells, Read, Difference, Increasing;
    if keys != [] {
      var key, rest := keys[0], keys[1..];
      ReadClean(previous, key);
      ReadClean(next, key);
      ReadSize(previous, key);
      ReadSize(next, key);
      DifferenceComplete(Read(previous, key), Read(next, key));
      RestIncreasing(keys);
      DifferenceAtComplete(previous, next, rest);
      forall e: Entry<Path>
        ensures multiset(DifferenceAt(previous, next, keys))[e] == if TellsAmong(e, previous, next, keys) then 1 else 0
      {
        CountUnder(key, Difference(Read(previous, key), Read(next, key)), e);
        assert e.path != [] ==> (e.path[0] in keys <==> e.path[0] == key || e.path[0] in rest);
      }
    }
  }

  lemma RestIncreasing(keys: seq<string>)
    requires Increasing(keys) && keys != []
    ensures Increasing(keys[1..]) && keys[0] !in keys[1..]
  {
    FirstKeyOnce(keys);
  }

  lemma FirstKeyOnce(keys: seq<string>)
    requires Increasing(keys) && keys != []
    ensures keys[0] !in keys[1..]
  {
    if keys[0] in keys[1..] {
      var i :| 0 <= i < |keys| - 1 && keys[1..][i] == keys[0];
      assert Precedes(keys[0], keys[i + 1]);
      PrecedesOrders(keys[0], keys[0], "");
    }
  }

  // ---------------------------------------------------------------- in which order

  /** Where two paths part, the one has the smaller key. */
  predicate PartsBefore(p: Path, q: Path) {
    p != [] && q != [] && (Precedes(p[0], q[0]) || (p[0] == q[0] && PartsBefore(p[1..], q[1..])))
  }

  ghost predicate InPathOrder(entries: seq<Entry<Path>>) {
    forall i, j | 0 <= i < j < |entries| :: PartsBefore(entries[i].path, entries[j].path)
  }

  ghost predicate StartWith(entries: seq<Entry<Path>>, keys: seq<string>) {
    forall i | 0 <= i < |entries| :: entries[i].path != [] && entries[i].path[0] in keys
  }

  lemma UnderInOrder(key: string, entries: seq<Entry<Path>>)
    requires InPathOrder(entries)
    ensures InPathOrder(Under(key, entries)) && StartWith(Under(key, entries), [key])
  {
    var under := Under(key, entries);
    forall i, j | 0 <= i < j < |under| ensures PartsBefore(under[i].path, under[j].path) {
      assert under[i].path[1..] == entries[i].path && under[j].path[1..] == entries[j].path;
    }
  }

  lemma ConcatInOrder(first: seq<Entry<Path>>, second: seq<Entry<Path>>, key: string, rest: seq<string>)
    requires InPathOrder(first) && StartWith(first, [key]) && InPathOrder(second) && StartWith(second, rest)
    requires forall k | k in rest :: Precedes(key, k)
    ensures InPathOrder(first + second)
  {
  }

  /** The difference comes in the order of its paths, key by key, so a limit keeps the entries that come first. */
  lemma {:induction false} DifferenceInOrder(previous: Side, next: Side)
    ensures InPathOrder(Difference(previous, next))
    decreases SizeAt(previous) + SizeAt(next), 0
  {
    hide Read, SortedKeys;
    if !previous.Absent? && !next.Absent? && IsRecord(previous) && IsRecord(next) && !IsValueEqual(previous, next) {
      var both := OwnKeys(previous) + OwnKeys(next);
      SortedKeysSorts(both);
      DifferenceAtInOrder(previous, next, SortedKeys(both));
    }
  }

  lemma {:induction false} DifferenceAtInOrder(previous: Side, next: Side, keys: seq<string>)
    requires IsRecord(previous) && IsRecord(next) && Increasing(keys)
    ensures InPathOrder(DifferenceAt(previous, next, keys)) && StartWith(DifferenceAt(previous, next, keys), keys)
    decreases SizeInside(previous) + SizeInside(next), 1 + |keys|
  {
    hide Read, Difference, InPathOrder, Under, Precedes;
    if keys != [] {
      var key, rest := keys[0], keys[1..];
      var here := Difference(Read(previous, key), Read(next, key));
      ReadSize(previous, key);
      ReadSize(next, key);
      DifferenceInOrder(Read(previous, key), Read(next, key));
      DifferenceAtInOrder(previous, next, rest);
      UnderInOrder(key, here);
      ConcatInOrder(Under(key, here), DifferenceAt(previous, next, rest), key, rest);
    } else {
      NothingInOrder();
    }
  }

  lemma NothingInOrder()
    ensures InPathOrder([])
  {
  }

  // ---------------------------------------------------------------- equal up to the order of keys

  /** Records agree key by key; anything else, arrays included, is the same value. */
  ghost predicate Same(a: Value, b: Value)
    decreases Size(a)
  {
    if a.Obj? && b.Obj? then
      forall k :: var x, y := At(a.fields, k), At(b.fields, k);
        (x.Some? <==> y.Some?) && (x.Some? && y.Some? ==> Same(x.value, y.value))
    else a == b
  }

  ghost predicate SameAt(a: Option<Value>, b: Option<Value>) {
    if a.Some? && b.Some? then Same(a.value, b.value) else a == b
  }

  /** The record's own value if it has one, and else what it inherits. */
  function SideOf(v: Option<Value>, inherited: Side): Side {
    if v.Some? then Own(v.value) else inherited
  }

  lemma ReadOwn(v: Value, key: string)
    requires v.Obj?
    ensures Read(Own(v), key) == SideOf(At(v.fields, key), InheritedAt(key))
    ensures key in OwnKeys(Own(v)) <==> At(v.fields, key).Some?
  {
    KeysLookup(v.fields, key);
  }

  // ---------------------------------------------------------------- applying entries

  function Put(fields: Fields, key: string, child: Option<Value>): Fields {
    match fields
    case NoFields => if child.Some? then Field(key, child.value, NoFields) else NoFields
    case Field(k, v, rest) =>
      if k != key then Field(k, v, Put(rest, key, child))
      else if child.Some? then Field(k, child.value, rest)
      else Put(rest, key, child)
  }

  lemma LookupPut(fields: Fields, key: string, child: Option<Value>, other: string)
    ensures Lookup(Put(fields, key, child), other) == if other == key then child else Lookup(fields, other)
  {
  }

  /** Only values can be stored; null stands in for what is not one. */
  function Stored(side: Side): Value {
    if side.Own? then side.value else Null
  }

  /** Puts the entry's next value at its path, or nothing if the entry removes. What is not a record has no places. */
  function Apply(v: Option<Value>, e: Entry<Path>): Option<Value>
    decreases |e.path|
  {
    if e.path == [] then if e.kind.Removed? then None else Some(Stored(e.next))
    else if v.Some? && v.value.Obj? then
      var fields, key := v.value.fields, e.path[0];
      Some(Obj(Put(fields, key, Apply(Lookup(fields, key), Below(e)))))
    else v
  }

  function ApplyAll(v: Option<Value>, entries: seq<Entry<Path>>): Option<Value>
    decreases |entries|
  {
    if entries == [] then v else ApplyAll(Apply(v, entries[0]), entries[1..])
  }

  // ---------------------------------------------------------------- when it works

  /**
   No place where both are records has a key every object inherits that the earlier one had and the later one has not,
   nor a `__proto__` that only the later one has and that is a record.
   */
  ghost predicate Patchable(a: Value, b: Value)
    decreases Size(a)
  {
    a.Obj? && b.Obj? ==>
      forall k :: var x, y := At(a.fields, k), At(b.fields, k);
        && (x.Some? && y.None? ==> InheritedAt(k).Absent?)
        && (x.None? && y.Some? && k == PROTO ==> !y.value.Obj?)
        && (x.Some? && y.Some? ==> Patchable(x.value, y.value))
  }

  ghost predicate PatchableAt(a: Option<Value>, b: Option<Value>, inherited: Side) {
    && !inherited.Own?
    && (a.Some? && b.None? ==> inherited.Absent?)
    && (a.None? && b.Some? && inherited == Inherited(Prototype) ==> !b.value.Obj?)
    && (a.Some? && b.Some? ==> Patchable(a.value, b.value))
  }

  lemma PatchableChild(a: Value, b: Value, key: string)
    requires Patchable(a, b) && a.Obj? && b.Obj?
    ensures PatchableAt(At(a.fields, key), At(b.fields, key), InheritedAt(key))
  {
  }

  /** Where an entry is told at the root, applying it settles everything. */
  lemma RootSettles(a: Option<Value>, b: Option<Value>, inherited: Side, e: Entry<Path>)
    requires PatchableAt(a, b, inherited) && e.path == [] && Tells(e, SideOf(a, inherited), SideOf(b, inherited))
    ensures Apply(a, e) == b
    ensures forall f :: Tells(f, SideOf(a, inherited), SideOf(b, inherited)) ==> f == e
  {
    NothingToTell(e, inherited);
  }

  /** Where one is told further down, both are records. */
  lemma DeeperBothRecords(a: Option<Value>, b: Option<Value>, inherited: Side, e: Entry<Path>)
    requires PatchableAt(a, b, inherited) && e.path != [] && Tells(e, SideOf(a, inherited), SideOf(b, inherited))
    ensures a.Some? && b.Some? && a.value.Obj? && b.value.Obj?
  {
    NothingToTell(e, inherited);
  }

  /** An applied entry is settled, and every other one says what it said. */
  lemma {:induction false} ApplySettles(a: Option<Value>, b: Option<Value>, inherited: Side, e: Entry<Path>,
                                        f: Entry<Path>)
    requires PatchableAt(a, b, inherited) && Tells(e, SideOf(a, inherited), SideOf(b, inherited))
    ensures Tells(f, SideOf(Apply(a, e), inherited), SideOf(b, inherited)) <==>
            Tells(f, SideOf(a, inherited), SideOf(b, inherited)) && f != e
    decreases |e.path|
  {
    if e.path == [] {
      RootSettles(a, b, inherited, e);
      NothingToTell(f, SideOf(b, inherited));
    } else {
      DeeperBothRecords(a, b, inherited, e);
      var fields, g, key := a.value.fields, b.value.fields, e.path[0];
      var child := Apply(Lookup(fields, key), Below(e));
      var after := Obj(Put(fields, key, child));
      if f.path != [] {
        var other := f.path[0];
        LookupPut(fields, key, child, other);
        ReadOwn(a.value, other);
        ReadOwn(after, other);
        ReadOwn(b.value, other);
        if other == key {
          PatchableChild(a.value, b.value, key);
          ApplySettles(Lookup(fields, key), Lookup(g, key), InheritedAt(key), Below(e), Below(f));
          assert f.path == [key] + Below(f).path && e.path == [key] + Below(e).path;
          assert f == e <==> Below(f) == Below(e);
          if child.None? && At(g, key).None? {
            NothingToTell(Below(f), InheritedAt(key));
          }
        }
      }
    }
  }

  /** And the rest can still be patched. */
  lemma {:induction false} ApplyPatchable(a: Option<Value>, b: Option<Value>, inherited: Side, e: Entry<Path>)
    requires PatchableAt(a, b, inherited) && Tells(e, SideOf(a, inherited), SideOf(b, inherited))
    ensures PatchableAt(Apply(a, e), b, inherited)
    decreases |e.path|
  {
    if e.path == [] {
      RootSettles(a, b, inherited, e);
      if b.Some? {
        PatchableSelf(b.value);
      }
    } else {
      DeeperBothRecords(a, b, inherited, e);
      var fields, g, key := a.value.fields, b.value.fields, e.path[0];
      var child := Apply(Lookup(fields, key), Below(e));
      ReadOwn(a.value, key);
      ReadOwn(b.value, key);
      PatchableChild(a.value, b.value, key);
      ApplyPatchable(Lookup(fields, key), Lookup(g, key), InheritedAt(key), Below(e));
      forall k
        ensures PatchableAt(At(Put(fields, key, child), k), At(g, k), InheritedAt(k))
      {
        LookupPut(fields, key, child, k);
        PatchableChild(a.value, b.value, k);
      }
    }
  }

  lemma {:induction false} PatchableSelf(v: Value)
    ensures Patchable(v, v)
    decreases Size(v)
  {
    if v.Obj? {
      forall k | At(v.fields, k).Some? ensures Patchable(At(v.fields, k).value, At(v.fields, k).value) {
        PatchableSelf(At(v.fields, k).value);
      }
    }
  }

  /** Different values that can be patched have something to tell. */
  lemma {:induction false} DifferentTells(a: Value, b: Value) returns (e: Entry<Path>)
    requires Patchable(a, b) && !Same(a, b) && Clean(a) && Clean(b)
    ensures Tells(e, Own(a), Own(b))
    decreases Size(a)
  {
    if a.Obj? && b.Obj? {
      var k :| !SameAt(At(a.fields, k), At(b.fields, k));
      var x, y := At(a.fields, k), At(b.fields, k);
      assert !SameAt(x, y);
      assert x.Some? || y.Some?;
      assert x.Some? && y.Some? ==> !Same(x.value, y.value);
      PatchableChild(a, b, k);
      ReadOwn(a, k);
      ReadOwn(b, k);
      LookupClean(a.fields, k);
      LookupClean(b.fields, k);
      var below: Entry<Path>;
      if x.Some? && y.Some? {
        below := DifferentTells(x.value, y.value);
      } else if x.Some? {
        below := Entry(Removed, Own(Null), [], Own(x.value));
      } else if InheritedAt(k).Absent? {
        below := Entry(Added, Own(y.value), [], Own(Null));
      } else {
        below := Entry(Changed, Own(y.value), [], InheritedAt(k));
        OwnTextDiffers(y.value, InheritedAt(k));
      }
      e := below.(path := [k] + below.path);
      assert Below(e) == below;
    } else {
      e := Entry(Changed, Own(b), [], Own(a));
      CleanIsSafe(a);
      CleanIsSafe(b);
      JsonCarriesSafeValues(a);
      JsonCarriesSafeValues(b);
    }
  }

  lemma OwnTextDiffers(v: Value, inherited: Side)
    requires Clean(v) && inherited.Inherited? && !inherited.thing.NoPrototype?
    requires inherited == Inherited(Prototype) ==> !v.Obj?
    ensures JsonText(Own(v)) != JsonText(inherited)
  {
    CleanIsSafe(v);
    JsonCarriesSafeValues(v);
  }

  ghost predicate BothClean(a: Option<Value>, b: Option<Value>) {
    (a.Some? ==> Clean(a.value)) && (b.Some? ==> Clean(b.value))
  }

  lemma PutClean(fields: Fields, key: string, child: Option<Value>)
    requires CleanFields(fields) && IsName(key) && (child.Some? ==> Clean(child.value))
    ensures CleanFields(Put(fields, key, child))
  {
  }

  lemma {:induction false} ApplyClean(a: Option<Value>, b: Option<Value>, inherited: Side, e: Entry<Path>)
    requires BothClean(a, b) && PatchableAt(a, b, inherited)
    requires Tells(e, SideOf(a, inherited), SideOf(b, inherited))
    ensures BothClean(Apply(a, e), b)
    decreases |e.path|
  {
    if e.path == [] {
      RootSettles(a, b, inherited, e);
    } else {
      DeeperBothRecords(a, b, inherited, e);
      var f, g, key := a.value.fields, b.value.fields, e.path[0];
      LookupClean(f, key);
      LookupClean(g, key);
      ReadOwn(a.value, key);
      ReadOwn(b.value, key);
      PatchableChild(a.value, b.value, key);
      ApplyClean(Lookup(f, key), Lookup(g, key), InheritedAt(key), Below(e));
      PutClean(f, key, Apply(Lookup(f, key), Below(e)));
    }
  }

  /** All entries applied, in any order, make the earlier value the same as the later one. */
  lemma {:induction false} ApplyAllSettles(a: Option<Value>, b: Option<Value>, entries: seq<Entry<Path>>)
    requires PatchableAt(a, b, Absent) && BothClean(a, b)
    requires Complete(entries, SideOf(a, Absent), SideOf(b, Absent))
    ensures SameAt(ApplyAll(a, entries), b)
    decreases |entries|
  {
    hide Patchable, PatchableAt, Same, Apply;
    if entries == [] {
      forall e: Entry<Path> ensures !Tells(e, SideOf(a, Absent), SideOf(b, Absent)) {
        assert multiset(entries)[e] == 0;
      }
      NothingToldSame(a, b);
    } else {
      var e, rest := entries[0], entries[1..];
      assert entries == [e] + rest;
      assert multiset(entries)[e] > 0;
      forall f: Entry<Path>
        ensures multiset(rest)[f] == if Tells(f, SideOf(Apply(a, e), Absent), SideOf(b, Absent)) then 1 else 0
      {
        ApplySettles(a, b, Absent, e, f);
        assert multiset(entries)[f] == multiset{e}[f] + multiset(rest)[f];
      }
      ApplyClean(a, b, Absent, e);
      ApplyPatchable(a, b, Absent, e);
      ApplyAllSettles(Apply(a, e), b, rest);
    }
  }

  lemma NothingToldSame(a: Option<Value>, b: Option<Value>)
    requires PatchableAt(a, b, Absent) && BothClean(a, b)
    requires forall e: Entry<Path> :: !Tells(e, SideOf(a, Absent), SideOf(b, Absent))
    ensures SameAt(a, b)
  {
    if !SameAt(a, b) {
      var _ := DifferentTold(a, b);
    }
  }

  lemma DifferentTold(a: Option<Value>, b: Option<Value>) returns (e: Entry<Path>)
    requires PatchableAt(a, b, Absent) && BothClean(a, b) && !SameAt(a, b)
    ensures Tells(e, SideOf(a, Absent), SideOf(b, Absent))
  {
    if a.Some? && b.Some? {
      e := DifferentTells(a.value, b.value);
    } else if a.Some? {
      e := Entry(Removed, Own(Null), [], Own(a.value));
    } else {
      e := Entry(Added, Own(b.value), [], Own(Null));
    }
  }

  // ---------------------------------------------------------------- when it does not

  /**
   The path leads through records of both to a key that no told entry settles: one that is `lost`, inherited and own in
   the earlier record only, or a record under `__proto__` that is own in the later one only.
   */
  ghost predicate Blocks(a: Value, b: Value, path: Path, lost: bool)
    decreases |path|
  {
    a.Obj? && b.Obj? && path != [] &&
    var x, y := At(a.fields, path[0]), At(b.fields, path[0]);
    if |path| > 1 then x.Some? && y.Some? && Blocks(x.value, y.value, path[1..], lost)
    else if lost then x.Some? && y.None? && !InheritedAt(path[0]).Absent?
    else x.None? && y.Some? && path[0] == PROTO && y.value.Obj?
  }

  lemma {:induction false} FindBlock(a: Value, b: Value) returns (path: Path, lost: bool)
    requires !Patchable(a, b)
    ensures Blocks(a, b, path, lost)
    decreases Size(a)
  {
    var k :| !PatchableAt(At(a.fields, k), At(b.fields, k), InheritedAt(k));
    var x, y := At(a.fields, k), At(b.fields, k);
    assert !PatchableAt(x, y, InheritedAt(k));
    if x.Some? && y.Some? {
      var rest, l := FindBlock(x.value, y.value);
      path, lost := [k] + rest, l;
      assert path[1..] == rest;
    } else {
      path, lost := [k], x.Some?;
    }
  }

  lemma {:induction false} BlocksDiffer(a: Value, b: Value, path: Path, lost: bool)
    requires Blocks(a, b, path, lost)
    ensures !Same(a, b)
    decreases |path|
  {
    var x, y := At(a.fields, path[0]), At(b.fields, path[0]);
    if |path| > 1 {
      BlocksDiffer(x.value, y.value, path[1..], lost);
    }
  }

  /** The entry does not reach the place, goes on below it, or changes it when it should remove it. */
  ghost predicate Spares(e: Entry<Path>, path: Path, lost: bool)
    requires path != []
    decreases |path|
  {
    e.path != [] &&
    (e.path[0] != path[0] ||
     if |path| > 1 then Spares(Below(e), path[1..], lost)
     else if lost then |e.path| == 1 ==> !e.kind.Removed?
     else |e.path| > 1)
  }

  lemma {:induction false} ToldSpares(e: Entry<Path>, a: Value, b: Value, path: Path, lost: bool)
    requires Tells(e, Own(a), Own(b)) && Blocks(a, b, path, lost)
    ensures Spares(e, path, lost)
    decreases |path|
  {
    var key := e.path[0];
    ReadOwn(a, key);
    ReadOwn(b, key);
    if key == path[0] && |path| > 1 {
      ToldSpares(Below(e), At(a.fields, key).value, At(b.fields, key).value, path[1..], lost);
    }
  }

  lemma {:induction false} SparedStays(a: Value, b: Value, path: Path, lost: bool, e: Entry<Path>)
    requires Blocks(a, b, path, lost) && Spares(e, path, lost)
    ensures Apply(Some(a), e).Some? && Blocks(Apply(Some(a), e).value, b, path, lost)
    decreases |path|
  {
    var key := e.path[0];
    var child := Apply(Lookup(a.fields, key), Below(e));
    LookupPut(a.fields, key, child, path[0]);
    if key == path[0] && |path| > 1 {
      SparedStays(At(a.fields, key).value, At(b.fields, key).value, path[1..], lost, Below(e));
    }
  }

  lemma {:induction false} ApplyAllBlocked(a: Value, b: Value, path: Path, lost: bool, entries: seq<Entry<Path>>)
    requires Blocks(a, b, path, lost) && forall e | e in entries :: Spares(e, path, lost)
    ensures !SameAt(ApplyAll(Some(a), entries), Some(b))
    decreases |entries|
  {
    if entries == [] {
      BlocksDiffer(a, b, path, lost);
    } else {
      SparedStays(a, b, path, lost, entries[0]);
      ApplyAllBlocked(Apply(Some(a), entries[0]).value, b, path, lost, entries[1..]);
    }
  }

  /** All entries applied, in any order, give the later value if and only if it is patchable. */
  lemma ApplyAllExactly(a: Value, b: Value, entries: seq<Entry<Path>>)
    requires Clean(a) && Clean(b) && Complete(entries, Own(a), Own(b))
    ensures SameAt(ApplyAll(Some(a), entries), Some(b)) <==> Patchable(a, b)
  {
    hide Patchable, SameAt, ApplyAll, Tells, Blocks;
    if Patchable(a, b) {
      assert PatchableAt(Some(a), Some(b), Absent);
      ApplyAllSettles(Some(a), Some(b), entries);
    } else {
      var path, lost := FindBlock(a, b);
      assert path != [] by {
        BlockHasPath(a, b, path, lost);
      }
      forall e | e in entries ensures Spares(e, path, lost) {
        assert multiset(entries)[e] > 0;
        ToldSpares(e, a, b, path, lost);
      }
      ApplyAllBlocked(a, b, path, lost, entries);
    }
  }

  lemma BlockHasPath(a: Value, b: Value, path: Path, lost: bool)
    requires Blocks(a, b, path, lost)
    ensures path != []
  {
  }

  // ---------------------------------------------------------------- when there is nothing to tell

  /** A record that reads like the prototype of all records: no keys, or a null under `__proto__`. */
  ghost predicate Hollow(v: Value) {
    v.Obj? && forall k :: At(v.fields, k).Some? ==> k == PROTO && At(v.fields, k).value == Null
  }

  /** The same, but for hollow records under a `__proto__` that only one of them has. */
  ghost predicate Alike(a: Value, b: Value)
    decreases Size(a)
  {
    if a.Obj? && b.Obj? then
      forall k :: var x, y := At(a.fields, k), At(b.fields, k);
        && (x.Some? && y.None? ==> k == PROTO && Hollow(x.value))
        && (x.None? && y.Some? ==> k == PROTO && Hollow(y.value))
        && (x.Some? && y.Some? ==> Alike(x.value, y.value))
    else a == b
  }

  lemma HollowTellsNothing(e: Entry<Path>, v: Value)
    requires Hollow(v)
    ensures !Tells(e, Own(v), Inherited(Prototype)) && !Tells(e, Inherited(Prototype), Own(v))
  {
    if e.path != [] {
      ReadOwn(v, e.path[0]);
    }
  }

  lemma {:induction false} AlikeTellsNothing(a: Value, b: Value, e: Entry<Path>)
    requires Alike(a, b)
    ensures !Tells(e, Own(a), Own(b))
    decreases |e.path|
  {
    if a.Obj? && b.Obj? {
      if e.path != [] {
        var k := e.path[0];
        var x, y := At(a.fields, k), At(b.fields, k);
        ReadOwn(a, k);
        ReadOwn(b, k);
        if x.Some? && y.Some? {
          AlikeTellsNothing(x.value, y.value, Below(e));
        } else if x.Some? {
          HollowTellsNothing(Below(e), x.value);
        } else if y.Some? {
          HollowTellsNothing(Below(e), y.value);
        }
      }
    } else {
      NothingToTell(e, Own(a));
    }
  }

  /** Whatever is not hollow differs from what is inherited, one way and the other. */
  lemma LoneTells(v: Value, k: string) returns (gone: Entry<Path>, come: Entry<Path>)
    requires Clean(v) && !(k == PROTO && Hollow(v))
    ensures Tells(gone, Own(v), InheritedAt(k)) && Tells(come, InheritedAt(k), Own(v))
  {
    if InheritedAt(k).Absent? {
      gone, come := Entry(Removed, Own(Null), [], Own(v)), Entry(Added, Own(v), [], Own(Null));
    } else if k == PROTO && v.Obj? {
      var j :| At(v.fields, j).Some? && !(j == PROTO && At(v.fields, j).value == Null);
      gone, come := InnerTells(v, j);
    } else {
      OwnTextDiffers(v, InheritedAt(k));
      gone, come := Entry(Changed, InheritedAt(k), [], Own(v)), Entry(Changed, Own(v), [], InheritedAt(k));
    }
  }

  lemma InnerTells(v: Value, j: string) returns (gone: Entry<Path>, come: Entry<Path>)
    requires Clean(v) && v.Obj? && At(v.fields, j).Some? && !(j == PROTO && At(v.fields, j).value == Null)
    ensures Tells(gone, Own(v), Inherited(Prototype)) && Tells(come, Inherited(Prototype), Own(v))
  {
    var w := At(v.fields, j).value;
    var other := Read(Inherited(Prototype), j);
    ReadOwn(v, j);
    LookupClean(v.fields, j);
    CleanIsSafe(w);
    JsonCarriesSafeValues(w);
    if other.Absent? {
      gone, come := Entry(Removed, Own(Null), [j], Own(w)), Entry(Added, Own(w), [j], Own(Null));
    } else {
      gone, come := Entry(Changed, other, [j], Own(w)), Entry(Changed, Own(w), [j], other);
    }
    assert [j][1..] == [];
  }

  lemma {:induction false} UnlikeTells(a: Value, b: Value) returns (e: Entry<Path>)
    requires !Alike(a, b) && Clean(a) && Clean(b)
    ensures Tells(e, Own(a), Own(b))
    decreases Size(a)
  {
    if a.Obj? && b.Obj? {
      var k :| !AlikeAt(At(a.fields, k), At(b.fields, k), k);
      var x, y := At(a.fields, k), At(b.fields, k);
      assert !AlikeAt(x, y, k);
      ReadOwn(a, k);
      ReadOwn(b, k);
      LookupClean(a.fields, k);
      LookupClean(b.fields, k);
      var below: Entry<Path>;
      if x.Some? && y.Some? {
        below := UnlikeTells(x.value, y.value);
      } else if x.Some? {
        var gone, _ := LoneTells(x.value, k);
        below := gone;
      } else {
        var _, come := LoneTells(y.value, k);
        below := come;
      }
      e := below.(path := [k] + below.path);
      assert Below(e) == below;
    } else {
      e := Entry(Changed, Own(b), [], Own(a));
      CleanIsSafe(a);
      CleanIsSafe(b);
      JsonCarriesSafeValues(a);
      JsonCarriesSafeValues(b);
    }
  }

  ghost predicate AlikeAt(x: Option<Value>, y: Option<Value>, k: string) {
    && (x.Some? && y.None? ==> k == PROTO && Hollow(x.value))
    && (x.None? && y.Some? ==> k == PROTO && Hollow(y.value))
    && (x.Some? && y.Some? ==> Alike(x.value, y.value))
  }

  /** No record in it has a `__proto__` of its own. */
  ghost predicate Protoless(v: Value)
    decreases Size(v)
  {
    v.Obj? ==> forall k :: At(v.fields, k).Some? ==> k != PROTO && Protoless(At(v.fields, k).value)
  }

  lemma {:induction false} ProtolessAlikeIsSame(a: Value, b: Value)
    requires Protoless(a) && Protoless(b)
    ensures Alike(a, b) <==> Same(a, b)
    decreases Size(a)
  {
    if a.Obj? && b.Obj? {
      forall k
        ensures AlikeAt(At(a.fields, k), At(b.fields, k), k) <==> SameAt(At(a.fields, k), At(b.fields, k))
      {
        if At(a.fields, k).Some? && At(b.fields, k).Some? {
          ProtolessAlikeIsSame(At(a.fields, k).value, At(b.fields, k).value);
        }
      }
      assert Alike(a, b) <==> forall k :: AlikeAt(At(a.fields, k), At(b.fields, k), k);
      assert Same(a, b) <==> forall k :: SameAt(At(a.fields, k), At(b.fields, k));
    }
  }

  // ---------------------------------------------------------------- when the kind is right

  /** The value at a path of own keys. */
  function OwnAt(v: Option<Value>, path: Path): Option<Value>
    decreases |path|
  {
    if path == [] then v
    else if v.Some? && v.value.Obj? then OwnAt(At(v.value.fields, path[0]), path[1..])
    else None
  }

  /** The entry's kind is what became of the own value at its path. */
  ghost predicate KindFits(e: Entry<Path>, a: Option<Value>, b: Option<Value>) {
    match e.kind
    case Added => OwnAt(a, e.path).None? && OwnAt(b, e.path).Some?
    case Removed => OwnAt(a, e.path).Some? && OwnAt(b, e.path).None?
    case Changed => OwnAt(a, e.path).Some? && OwnAt(b, e.path).Some?
  }

  /** What is read below `v`, or below what stands in for it. */
  function InheritedBelow(v: Option<Value>, inherited: Side, key: string): Side {
    if v.Some? || !IsRecord(inherited) then InheritedAt(key) else Read(inherited, key)
  }

  lemma ReadBelow(v: Option<Value>, inherited: Side, key: string)
    requires !inherited.Own? && IsRecord(SideOf(v, inherited))
    ensures var child := if v.Some? then At(v.value.fields, key) else None;
            Read(SideOf(v, inherited), key) == SideOf(child, InheritedBelow(v, inherited, key))
            && !InheritedBelow(v, inherited, key).Own?
  {
  }

  lemma {:induction false} KindFitsBelow(e: Entry<Path>, a: Option<Value>, inA: Side, b: Option<Value>, inB: Side)
    requires !inA.Own? && !inB.Own? && Tells(e, SideOf(a, inA), SideOf(b, inB))
    ensures KindFits(e, a, b) <==> !e.previous.Inherited? && !e.next.Inherited?
    decreases |e.path|
  {
    if e.path != [] {
      var k := e.path[0];
      var x := if a.Some? then At(a.value.fields, k) else None;
      var y := if b.Some? then At(b.value.fields, k) else None;
      ReadBelow(a, inA, k);
      ReadBelow(b, inB, k);
      KindFitsBelow(Below(e), x, InheritedBelow(a, inA, k), y, InheritedBelow(b, inB, k));
      assert OwnAt(a, e.path) == OwnAt(x, e.path[1..]) && OwnAt(b, e.path) == OwnAt(y, e.path[1..]) by {
        NowhereOwn(e.path[1..]);
      }
    }
  }

  lemma NowhereOwn(path: Path)
    ensures OwnAt(None, path) == None
  {
  }

  /** An entry says rightly whether a value came, went or changed if and only if neither of its sides is inherited. */
  lemma KindExactly(e: Entry<Path>, a: Value, b: Value)
    requires Tells(e, Own(a), Own(b))
    ensures KindFits(e, Some(a), Some(b)) <==> !e.previous.Inherited? && !e.next.Inherited?
  {
    KindFitsBelow(e, Some(a), Absent, Some(b), Absent);
  }

  // ---------------------------------------------------------------- the promises

  /** Only paths of names come out, and never the root's, when both roots are records. */
  lemma {:induction false} PathsAreNames(e: Entry<Path>, previous: Side, next: Side)
    requires CleanSide(previous) && CleanSide(next) && Tells(e, previous, next)
    ensures Names(e.path)
    decreases |e.path|
  {
    if e.path != [] {
      var key := e.path[0];
      ReadClean(previous, key);
      ReadClean(next, key);
      PathsAreNames(Below(e), Read(previous, key), Read(next, key));
      forall k | k in e.path ensures IsName(k) {
        assert e.path == [key] + Below(e).path;
      }
    }
  }

  lemma {:induction false} FilterAll(lines: seq<Entry<string>>)
    requires forall line | line in lines :: line.path != ""
    ensures Filter(lines) == lines
  {
    if lines != [] {
      FilterAll(lines[1..]);
      assert [lines[0]] + lines[1..] == lines;
    }
  }

  lemma EntriesAreNamed(previous: Value, next: Value)
    requires Clean(previous) && Clean(next) && previous.Obj? && next.Obj?
    ensures forall e | e in Difference(Own(previous), Own(next)) :: Names(e.path) && e.path != []
  {
    var entries := Difference(Own(previous), Own(next));
    DifferenceComplete(Own(previous), Own(next));
    forall e | e in entries
      ensures Names(e.path) && e.path != []
    {
      assert multiset(entries)[e] > 0;
      PathsAreNames(e, Own(previous), Own(next));
    }
  }

  lemma ParsePrint(entries: seq<Entry<Path>>)
    requires forall e | e in entries :: Names(e.path) && e.path != []
    ensures Parse(Print(entries)) == entries
    ensures forall line | line in Print(entries) :: line.path != ""
  {
    var lines := Print(entries);
    ParseAll(lines);
    forall i | 0 <= i < |entries|
      ensures Parse(lines)[i] == entries[i] && lines[i].path != ""
    {
      assert entries[i] in entries && [] + entries[i].path == entries[i].path;
      SplitJoin(entries[i].path);
    }
  }

  /** Between records, the lines are the first ones of the difference, in another order; none is filtered out. */
  lemma LinesAreEntries(previous: Value, next: Value, maxEntries: int, before: (string, string) -> bool)
    requires Clean(previous) && Clean(next) && previous.Obj? && next.Obj?
    ensures var lines := Print(Difference(Own(previous), Own(next)));
            && multiset(Lines(previous, next, maxEntries, before)) == multiset(Take(lines, maxEntries))
            && Parse(lines) == Difference(Own(previous), Own(next))
            && Filter(Take(lines, maxEntries)) == Take(lines, maxEntries)
  {
    hide Difference, Print, Parse, Clean;
    EntriesAreNamed(previous, next);
    ParsePrint(Difference(Own(previous), Own(next)));
    var taken := Take(Print(Difference(Own(previous), Own(next))), maxEntries);
    FilterAll(taken);
    SortPermutes(taken, ByPath(before));
  }

  lemma ByPathIsPreorder(before: (string, string) -> bool)
    requires TotalPreorder(before)
    ensures TotalPreorder(ByPath(before))
  {
    var le := ByPath(before);
    forall x: Entry<string>, y: Entry<string> ensures le(x, y) || le(y, x) {
      assert before(x.path, y.path) || before(y.path, x.path);
    }
    forall x: Entry<string>, y: Entry<string>, z: Entry<string> | le(x, y) && le(y, z) ensures le(x, z) {
      assert before(x.path, y.path) && before(y.path, z.path);
    }
  }

  /** The lines come out in the order of their paths. */
  lemma LinesAreOrdered(previous: Value, next: Value, maxEntries: int, before: (string, string) -> bool)
    requires TotalPreorder(before)
    ensures var lines := Lines(previous, next, maxEntries, before);
            forall i, j | 0 <= i < j < |lines| :: before(lines[i].path, lines[j].path)
  {
    ByPathIsPreorder(before);
    SortOrders(Filter(Take(Print(Difference(Present(previous), Present(next))), maxEntries)), ByPath(before));
    var lines := Lines(previous, next, maxEntries, before);
    forall i, j | 0 <= i < j < |lines| ensures before(lines[i].path, lines[j].path) {
      assert ByPath(before)(lines[i], lines[j]);
    }
  }

  lemma {:induction false} ParseInsert(x: Entry<string>, lines: seq<Entry<string>>,
                                       le: (Entry<string>, Entry<string>) -> bool)
    ensures multiset(Parse(Insert(x, lines, le))) == multiset{ParseLine(x)} + multiset(Parse(lines))
  {
    if lines == [] || le(x, lines[0]) {
      assert ([x] + lines)[1..] == lines;
    } else {
      var rest := Insert(x, lines[1..], le);
      ParseInsert(x, lines[1..], le);
      assert ([lines[0]] + rest)[1..] == rest;
    }
  }

  lemma {:induction false} ParseSort(lines: seq<Entry<string>>, le: (Entry<string>, Entry<string>) -> bool)
    ensures multiset(Parse(Sort(lines, le))) == multiset(Parse(lines))
  {
    if lines != [] {
      ParseSort(lines[1..], le);
      ParseInsert(lines[0], Sort(lines[1..], le), le);
    }
  }

  lemma {:induction false} ParseAll(lines: seq<Entry<string>>)
    ensures |Parse(lines)| == |lines|
    ensures forall i | 0 <= i < |lines| :: Parse(lines)[i] == ParseLine(lines[i])
  {
    if lines != [] {
      ParseAll(lines[1..]);
    }
  }

  /** The lines of two records, when none was cut off, patch the earlier into the later exactly when it is patchable. */
  lemma LinesPatch(previous: Value, next: Value, maxEntries: int, before: (string, string) -> bool)
    requires Clean(previous) && Clean(next) && previous.Obj? && next.Obj?
    requires |Difference(Own(previous), Own(next))| <= maxEntries
    ensures SameAt(ApplyAll(Some(previous), Parse(Lines(previous, next, maxEntries, before))), Some(next)) <==>
            Patchable(previous, next)
  {
    hide Difference, Parse, Clean, Patchable, ApplyAll, SameAt, Tells, Print;
    var entries := Difference(Own(previous), Own(next));
    DifferenceComplete(Own(previous), Own(next));
    LinesAreEntries(previous, next, maxEntries, before);
    assert |Print(entries)| == |entries| by {
      PrintLength(entries);
    }
    ParseSort(Print(entries), ByPath(before));
    ApplyAllExactly(previous, next, Parse(Lines(previous, next, maxEntries, before)));
  }

  lemma PrintLength(entries: seq<Entry<Path>>)
    ensures |Print(entries)| == |entries|
  {
  }

  /** With room for at least one line, there is none exactly when the records are alike. */
  lemma NoLinesMeansAlike(previous: Value, next: Value, maxEntries: int, before: (string, string) -> bool)
    requires Clean(previous) && Clean(next) && previous.Obj? && next.Obj? && maxEntries > 0
    ensures Lines(previous, next, maxEntries, before) == [] <==> Alike(previous, next)
    ensures Protoless(previous) && Protoless(next) ==>
              (Lines(previous, next, maxEntries, before) == [] <==> Same(previous, next))
  {
    hide Difference, Clean, Alike, Tells, Same, Protoless;
    var entries := Difference(Own(previous), Own(next));
    var lines := Lines(previous, next, maxEntries, before);
    DifferenceComplete(Own(previous), Own(next));
    LinesAreEntries(previous, next, maxEntries, before);
    assert |multiset(lines)| == |multiset(Take(Print(entries), maxEntries))|;
    if Alike(previous, next) {
      if entries != [] {
        assert multiset(entries)[entries[0]] > 0;
        AlikeTellsNothing(previous, next, entries[0]);
      }
    } else {
      var e := UnlikeTells(previous, next);
      assert multiset(entries)[e] == 1;
    }
    if Protoless(previous) && Protoless(next) {
      ProtolessAlikeIsSame(previous, next);
    }
  }

  const ONE_AT_CONSTRUCTOR := Obj(Field("constructor", Num(Real(1.0)), NoFields))

  /** `{ constructor: 1 }` to `{}`: the entry has an inherited function for the next value, and nothing is removed. */
  lemma InheritedRemovalIsLost(maxEntries: int, before: (string, string) -> bool)
    requires |Difference(Own(ONE_AT_CONSTRUCTOR), Own(Obj(NoFields)))| <= maxEntries
    ensures var e := Entry(Changed, Inherited(Function), ["constructor"], Own(Num(Real(1.0))));
            && Tells(e, Own(ONE_AT_CONSTRUCTOR), Own(Obj(NoFields)))
            && !KindFits(e, Some(ONE_AT_CONSTRUCTOR), Some(Obj(NoFields)))
    ensures !SameAt(ApplyAll(Some(ONE_AT_CONSTRUCTOR),
                             Parse(Lines(ONE_AT_CONSTRUCTOR, Obj(NoFields), maxEntries, before))),
                    Some(Obj(NoFields)))
  {
    hide Difference, Parse, Lines, ApplyAll, SameAt;
    var gone, k := Obj(NoFields), "constructor";
    var e := Entry(Changed, Inherited(Function), [k], Own(Num(Real(1.0))));
    assert At(ONE_AT_CONSTRUCTOR.fields, k) == Some(Num(Real(1.0))) && At(gone.fields, k) == None;
    assert k[0] == 'c' && PROTO[0] == '_';
    ReadOwn(ONE_AT_CONSTRUCTOR, k);
    ReadOwn(gone, k);
    assert InheritedAt(k) == Inherited(Function);
    assert [k][1..] == [];
    assert Tells(Below(e), Own(Num(Real(1.0))), Inherited(Function));
    assert Tells(e, Own(ONE_AT_CONSTRUCTOR), Own(gone));
    KindExactly(e, ONE_AT_CONSTRUCTOR, gone);
    assert !Patchable(ONE_AT_CONSTRUCTOR, gone);
    LinesPatch(ONE_AT_CONSTRUCTOR, gone, maxEntries, before);
  }

  /** Unless both roots are records, a difference has no path to be shown under: whatever changed, no line comes out. */
  lemma RootChangeHasNoLine(previous: Value, next: Value, maxEntries: int, before: (string, string) -> bool)
    requires !(previous.Obj? && next.Obj?)
    ensures Lines(previous, next, maxEntries, before) == []
  {
    var lines := Print(Difference(Present(previous), Present(next)));
    if lines != [] {
      var root: Path := [];
      assert |lines| == 1 && root + root == root && lines[0].path == "";
      var taken := Take(lines, maxEntries);
      assert taken == [] || (taken == [lines[0]] && taken[1..] == []);
      assert Filter(taken) == [];
    }
  }
}
