/**
 The difference of two serialized states: a list of entries, one for each place where a record gained, lost or changed
 a value, under the dotted path of that place.
 */
module Diff {
  import opened RelayTypes
  import opened Values
  import opened StableSort
  import opened Text

  datatype Kind = Added | Removed | Changed

  /** What reading a property finds that the record does not have itself: a method of every object, or its prototype. */
  datatype Thing = Function | Prototype | NoPrototype

  /** What is read at a place of one of the two states. */
  datatype Side = Absent | Own(value: Value) | Inherited(thing: Thing)

  /** An absent side is an own `Null`. */
  datatype Entry<Path> = Entry(kind: Kind, next: Side, path: Path, previous: Side)

  type Path = seq<string>

  // ---------------------------------------------------------------- paths

  function BuildPath(basePath: string, segment: string): string {
    if |basePath| > 0 then basePath + "." + segment else segment
  }

  function Join(path: Path): string {
    if path == [] then "" else BuildPath(Join(path[..|path| - 1]), path[|path| - 1])
  }

  predicate IsName(key: string) {
    key != "" && '.' !in key
  }

  ghost predicate Names(path: Path) {
    forall key | key in path :: IsName(key)
  }

  /** No two paths of names look alike. */
  lemma {:induction false} SplitJoin(path: Path)
    requires path != [] && Names(path)
    ensures Split(Join(path), '.') == path && Join(path) != ""
  {
    var front, key := path[..|path| - 1], path[|path| - 1];
    assert path == front + [key] && key in path;
    if front == [] {
      SplitPart(key, '.');
    } else {
      assert forall k | k in front :: k in path;
      SplitJoin(front);
      SplitExtended(Join(front), key, '.');
    }
  }

  // ---------------------------------------------------------------- values and their keys

  /** Keys can be read back from a path; the values are what JSON can carry. */
  predicate Clean(v: Value)
    decreases v
  {
    if v.Obj? then CleanFields(v.fields) else JsonSafe(v)
  }

  predicate CleanFields(fields: Fields)
    decreases fields
  {
    match fields
    case NoFields => true
    case Field(k, v, rest) => IsName(k) && Clean(v) && CleanFields(rest)
  }

  lemma CleanIsSafe(v: Value)
    requires Clean(v)
    ensures JsonSafe(v)
    decreases v
  {
    if v.Obj? {
      CleanFieldsAreSafe(v.fields);
    }
  }

  lemma CleanFieldsAreSafe(fields: Fields)
    requires CleanFields(fields)
    ensures SafeFields(fields)
    decreases fields
  {
    if fields.Field? {
      CleanIsSafe(fields.value);
      CleanFieldsAreSafe(fields.rest);
    }
  }

  function Keys(fields: Fields): seq<string> {
    match fields
    case NoFields => []
    case Field(k, _, rest) => [k] + Keys(rest)
  }

  /** By code units. */
  predicate Precedes(a: string, b: string) {
    b != "" && (a == "" || a[0] < b[0] || (a[0] == b[0] && Precedes(a[1..], b[1..])))
  }

  function InsertKey(key: string, keys: seq<string>): seq<string> {
    if keys == [] || Precedes(key, keys[0]) then [key] + keys
    else if key == keys[0] then keys
    else [keys[0]] + InsertKey(key, keys[1..])
  }

  /** Each key once, sorted. */
  function SortedKeys(keys: seq<string>): seq<string> {
    if keys == [] then [] else InsertKey(keys[0], SortedKeys(keys[1..]))
  }

  ghost predicate Increasing(keys: seq<string>) {
    forall i, j | 0 <= i < j < |keys| :: Precedes(keys[i], keys[j])
  }

  lemma {:induction false} PrecedesOrders(a: string, b: string, c: string)
    ensures Precedes(a, b) || a == b || Precedes(b, a)
    ensures Precedes(a, b) ==> !Precedes(b, a) && a != b
    ensures Precedes(a, b) && Precedes(b, c) ==> Precedes(a, c)
  {
    if a != "" && b != "" && a[0] == b[0] {
      PrecedesOrders(a[1..], b[1..], if c == "" then "" else c[1..]);
      assert a == [a[0]] + a[1..] && b == [b[0]] + b[1..];
    }
  }

  /** The two agree on their first `n` code units; there the first ends, or has the smaller one. */
  predicate FirstDiffers(a: string, b: string, n: nat) {
    n <= |a| && n < |b| && a[..n] == b[..n] && (n == |a| || a[n] < b[n])
  }

  lemma FirstDiffersLater(a: string, b: string, n: nat)
    requires a != "" && b != "" && a[0] == b[0]
    ensures FirstDiffers(a, b, n + 1) <==> FirstDiffers(a[1..], b[1..], n)
    ensures !FirstDiffers(a, b, 0)
  {
    if n + 1 <= |a| && n + 1 < |b| {
      assert a[..n + 1] == [a[0]] + a[1..][..n] && b[..n + 1] == [b[0]] + b[1..][..n];
    }
  }

  lemma FirstDiffersAtOnce(a: string, b: string, n: nat)
    requires a != "" && b != "" && FirstDiffers(a, b, n) && n > 0
    ensures a[0] == b[0]
  {
    assert a[..n][0] == b[..n][0];
  }

  /** One key precedes another if it is a proper beginning of it, or has the smaller code unit where they first differ. */
  lemma {:induction false} PrecedesExactly(a: string, b: string)
    ensures Precedes(a, b) <==> exists n: nat :: FirstDiffers(a, b, n)
  {
    if a != "" && b != "" && a[0] == b[0] {
      PrecedesExactly(a[1..], b[1..]);
      forall n: nat ensures FirstDiffers(a, b, n + 1) <==> FirstDiffers(a[1..], b[1..], n) {
        FirstDiffersLater(a, b, n);
      }
      FirstDiffersLater(a, b, 0);
      if n: nat :| FirstDiffers(a[1..], b[1..], n) {
        assert FirstDiffers(a, b, n + 1);
      }
      if n: nat :| FirstDiffers(a, b, n) {
        if n > 0 {
          assert FirstDiffers(a[1..], b[1..], n - 1);
        }
      }
    } else {
      assert FirstDiffers(a, b, 0) <==> Precedes(a, b);
      forall n: nat | FirstDiffers(a, b, n) ensures n == 0 {
        if a != "" && n > 0 {
          FirstDiffersAtOnce(a, b, n);
        }
      }
    }
  }

  lemma {:induction false} InsertKeyKeeps(key: string, keys: seq<string>)
    requires Increasing(keys)
    ensures Increasing(InsertKey(key, keys))
    ensures forall k :: k in InsertKey(key, keys) <==> k == key || k in keys
  {
    if keys == [] {
    } else if Precedes(key, keys[0]) {
      forall i | 0 <= i < |keys|
        ensures Precedes(key, keys[i])
      {
        PrecedesOrders(key, keys[0], keys[i]);
      }
    } else if key != keys[0] {
      PrecedesOrders(key, keys[0], "");
      InsertKeyKeeps(key, keys[1..]);
      var rest := InsertKey(key, keys[1..]);
      assert forall k | k in keys :: k == keys[0] || k in keys[1..];
      forall i | 0 <= i < |rest|
        ensures Precedes(keys[0], rest[i])
      {
        assert rest[i] in rest;
      }
    }
  }

  lemma {:induction false} SortedKeysSorts(keys: seq<string>)
    ensures Increasing(SortedKeys(keys))
    ensures forall k :: k in SortedKeys(keys) <==> k in keys
  {
    if keys != [] {
      SortedKeysSorts(keys[1..]);
      InsertKeyKeeps(keys[0], SortedKeys(keys[1..]));
      assert forall k :: k in keys <==> k == keys[0] || k in keys[1..];
    }
  }

  lemma KeysLookup(fields: Fields, key: string)
    ensures key in Keys(fields) <==> Lookup(fields, key).Some?
  {
  }

  function Size(v: Value): nat
    decreases v
  {
    if v.Obj? then 1 + SizeOf(v.fields) else 0
  }

  function SizeOf(fields: Fields): nat
    decreases fields
  {
    match fields
    case NoFields => 0
    case Field(_, v, rest) => Size(v) + SizeOf(rest)
  }

  /** The record's own value at a key. */
  function At(fields: Fields, key: string): (v: Option<Value>)
    ensures v.Some? ==> Size(v.value) <= SizeOf(fields)
  {
    LookupSize(fields, key);
    Lookup(fields, key)
  }

  lemma LookupSize(fields: Fields, key: string)
    ensures Lookup(fields, key).Some? ==> Size(Lookup(fields, key).value) <= SizeOf(fields)
  {
  }

  lemma LookupClean(fields: Fields, key: string)
    requires CleanFields(fields)
    ensures Lookup(fields, key).Some? ==> Clean(Lookup(fields, key).value) && IsName(key)
  {
  }

  // ---------------------------------------------------------------- reading a property

  const PROTO := "__proto__"

  /** Methods that every object has, whether or not the record names them. */
  const METHODS: set<string> := {
    "constructor", "hasOwnProperty", "isPrototypeOf", "propertyIsEnumerable", "toLocaleString", "toString", "valueOf",
    "__defineGetter__", "__defineSetter__", "__lookupGetter__", "__lookupSetter__"
  }

  /** What a record that does not have the key itself answers. */
  function InheritedAt(key: string): Side {
    if key == PROTO then Inherited(Prototype) else if key in METHODS then Inherited(Function) else Absent
  }

  predicate IsRecord(side: Side) {
    side == Inherited(Prototype) || (side.Own? && side.value.Obj?)
  }

  /** `record[key]`. The prototype of all records has the methods itself, and none above it. */
  function Read(side: Side, key: string): Side
    requires IsRecord(side)
  {
    if side.Inherited? then if key == PROTO then Inherited(NoPrototype) else InheritedAt(key)
    else if At(side.value.fields, key).Some? then Own(At(side.value.fields, key).value)
    else InheritedAt(key)
  }

  /** `Object.keys`: the prototype's own are not listed. */
  function OwnKeys(side: Side): seq<string>
    requires IsRecord(side)
  {
    if side.Own? then Keys(side.value.fields) else []
  }

  /** What `JSON.stringify` makes of it; of a function, nothing. */
  function JsonText(side: Side): Option<Value>
    requires !side.Absent?
  {
    match side
    case Own(v) => Some(JsonCarry(v))
    case Inherited(Function) => None
    case Inherited(Prototype) => Some(Obj(NoFields))
    case Inherited(NoPrototype) => Some(Null)
  }

  predicate IsValueEqual(left: Side, right: Side)
    requires !left.Absent? && !right.Absent?
  {
    JsonText(left) == JsonText(right)
  }

  function SizeAt(side: Side): nat {
    if side.Own? then Size(side.value) else 0
  }

  function SizeInside(side: Side): nat {
    if side.Own? && side.value.Obj? then SizeOf(side.value.fields) else 0
  }

  // ---------------------------------------------------------------- the difference

  function Under(key: string, entries: seq<Entry<Path>>): (under: seq<Entry<Path>>) {
    seq(|entries|, i requires 0 <= i < |entries| => entries[i].(path := [key] + entries[i].path))
  }

  /** The entries of a place, with paths from there. */
  function Difference(previous: Side, next: Side): seq<Entry<Path>>
    decreases SizeAt(previous) + SizeAt(next), 0
  {
    if previous.Absent? || next.Absent? then
      if !next.Absent? then [Entry(Added, next, [], Own(Null))]
      else if !previous.Absent? then [Entry(Removed, Own(Null), [], previous)]
      else []
    else if IsValueEqual(previous, next) then []
    else if IsRecord(previous) && IsRecord(next) then
      DifferenceAt(previous, next, SortedKeys(OwnKeys(previous) + OwnKeys(next)))
    else [Entry(Changed, next, [], previous)]
  }

  function DifferenceAt(previous: Side, next: Side, keys: seq<string>): seq<Entry<Path>>
    requires IsRecord(previous) && IsRecord(next)
    decreases SizeInside(previous) + SizeInside(next), 1 + |keys|
  {
    if keys == [] then []
    else
      Under(keys[0], Difference(Read(previous, keys[0]), Read(next, keys[0]))) + DifferenceAt(previous, next, keys[1..])
  }

  /** Entries as the panel shows them. */
  function Print(entries: seq<Entry<Path>>): seq<Entry<string>> {
    PrintUnder([], entries)
  }

  function PrintUnder(base: Path, entries: seq<Entry<Path>>): (lines: seq<Entry<string>>)
    ensures |lines| == |entries|
  {
    seq(|entries|, i requires 0 <= i < |entries| =>
      Entry(entries[i].kind, entries[i].next, Join(base + entries[i].path), entries[i].previous))
  }

  function ParseLine(line: Entry<string>): Entry<Path> {
    Entry(line.kind, line.next, Split(line.path, '.'), line.previous)
  }

  function Parse(lines: seq<Entry<string>>): seq<Entry<Path>> {
    if lines == [] then [] else [ParseLine(lines[0])] + Parse(lines[1..])
  }

  function Take<E>(entries: seq<E>, limit: int): seq<E> {
    if limit <= 0 then [] else if limit < |entries| then entries[..limit] else entries
  }

  function Present(root: Value): Side {
    if root.Null? then Absent else Own(root)
  }

  function Filter(lines: seq<Entry<string>>): seq<Entry<string>> {
    if lines == [] then []
    else (if |lines[0].path| > 0 then [lines[0]] else []) + Filter(lines[1..])
  }

  function ByPath(before: (string, string) -> bool): (Entry<string>, Entry<string>) -> bool {
    (x: Entry<string>, y: Entry<string>) => before(x.path, y.path)
  }

  /** `before(a, b)` is whether `a.localeCompare(b) <= 0`. */
  function Lines(previous: Value, next: Value, maxEntries: int, before: (string, string) -> bool): seq<Entry<string>> {
    Sort(Filter(Take(Print(Difference(Present(previous), Present(next))), maxEntries)), ByPath(before))
  }

  // ---------------------------------------------------------------- the collector

  lemma PrintUnderKey(base: Path, key: string, entries: seq<Entry<Path>>)
    ensures PrintUnder(base, Under(key, entries)) == PrintUnder(base + [key], entries)
  {
    forall i | 0 <= i < |entries|
      ensures base + ([key] + entries[i].path) == base + [key] + entries[i].path
    {
    }
  }

  lemma PrintUnderConcat(base: Path, first: seq<Entry<Path>>, second: seq<Entry<Path>>)
    ensures PrintUnder(base, first + second) == PrintUnder(base, first) + PrintUnder(base, second)
  {
  }

  class DiffCollector {
    var entries: seq<Entry<string>>
    const maxEntries: int

    constructor (maxEntries: int)
      ensures this.maxEntries == maxEntries && entries == []
    {
      this.maxEntries := maxEntries;
      entries := [];
    }

    /** Stops as soon as the limit is reached; what it has collected by then is the start of the whole difference. */
    method VisitDifference(previous: Side, next: Side, ghost base: Path, path: string)
      requires path == Join(base)
      requires entries == Take(entries, maxEntries)
      modifies this
      ensures entries == Take(old(entries) + PrintUnder(base, Difference(previous, next)), maxEntries)
      decreases SizeAt(previous) + SizeAt(next), 0
    {
      hide PrintUnder, Join, OwnKeys, SortedKeys;
      PrintFew(base, Entry(Added, next, [], Own(Null)));
      PrintFew(base, Entry(Removed, Own(Null), [], previous));
      PrintFew(base, Entry(Changed, next, [], previous));
      if |entries| >= maxEntries {
        TakeFull(entries, PrintUnder(base, Difference(previous, next)), maxEntries);
        return;
      }
      if previous.Absent? && !next.Absent? {
        entries := entries + [Entry(Added, next, path, Own(Null))];
        return;
      }
      if !previous.Absent? && next.Absent? {
        entries := entries + [Entry(Removed, Own(Null), path, previous)];
        return;
      }
      if previous.Absent? || next.Absent? || IsValueEqual(previous, next) {
        assert entries + [] == entries;
        return;
      }
      if IsRecord(previous) && IsRecord(next) {
        VisitKeys(previous, next, SortedKeys(OwnKeys(previous) + OwnKeys(next)), base, path);
        return;
      }
      entries := entries + [Entry(Changed, next, path, previous)];
    }

    /** The loop over the keys. */
    method VisitKeys(previous: Side, next: Side, keys: seq<string>, ghost base: Path, path: string)
      requires path == Join(base) && IsRecord(previous) && IsRecord(next)
      requires entries == Take(entries, maxEntries)
      modifies this
      ensures entries == Take(old(entries) + PrintUnder(base, DifferenceAt(previous, next, keys)), maxEntries)
      decreases SizeInside(previous) + SizeInside(next), 1
    {
      hide Difference, Read, PrintUnder, Join, Take, Under;
      ghost var all := PrintUnder(base, DifferenceAt(previous, next, keys));
      ghost var start := entries;
      var i := 0;
      assert keys[0..] == keys;
      while i < |keys|
        invariant 0 <= i <= |keys|
        invariant entries == Take(entries, maxEntries)
        invariant Take(entries + PrintUnder(base, DifferenceAt(previous, next, keys[i..])), maxEntries)
                  == Take(start + all, maxEntries)
      {
        var key := keys[i];
        ghost var here := Difference(Read(previous, key), Read(next, key));
        ghost var later := DifferenceAt(previous, next, keys[i + 1..]);
        assert keys[i..][1..] == keys[i + 1..];
        PrintUnderConcat(base, Under(key, here), later);
        PrintUnderKey(base, key, here);
        JoinExtended(base, key);
        ReadSize(previous, key);
        ReadSize(next, key);
        ghost var before := entries;
        VisitDifference(Read(previous, key), Read(next, key), base + [key], BuildPath(path, key));
        TakeTwice(before, PrintUnder(base + [key], here), PrintUnder(base, later), maxEntries);
        if |entries| >= maxEntries {
          TakeFull(entries, PrintUnder(base, later), maxEntries);
          return;
        }
        i := i + 1;
      }
      PrintNone(base);
      assert entries + [] == entries;
    }
  }

  lemma PrintNone(base: Path)
    ensures PrintUnder(base, []) == []
  {
  }

  lemma PrintFew(base: Path, e: Entry<Path>)
    requires e.path == []
    ensures PrintUnder(base, [e]) == [Entry(e.kind, e.next, Join(base), e.previous)]
    ensures PrintUnder(base, []) == []
  {
    assert base + [] == base;
  }

  lemma ReadSize(side: Side, key: string)
    requires IsRecord(side)
    ensures SizeAt(Read(side, key)) <= SizeInside(side)
  {
  }

  lemma JoinExtended(base: Path, key: string)
    ensures Join(base + [key]) == BuildPath(Join(base), key)
  {
    assert (base + [key])[..|base|] == base;
  }

  lemma TakeTwice<E>(a: seq<E>, b: seq<E>, c: seq<E>, limit: int)
    ensures Take(Take(a + b, limit) + c, limit) == Take(a + (b + c), limit)
    ensures Take(Take(a + b, limit), limit) == Take(a + b, limit)
  {
    assert a + b + c == a + (b + c);
  }

  lemma TakeFull<E>(a: seq<E>, c: seq<E>, limit: int)
    requires a == Take(a, limit) && |a| >= limit
    ensures Take(a + c, limit) == a
  {
  }

  method DiffSerializedState(previous: Value, next: Value, maxEntries: int, before: (string, string) -> bool)
    returns (lines: seq<Entry<string>>)
    ensures lines == Lines(previous, next, maxEntries, before)
  {
    var collector := new DiffCollector(maxEntries);
    collector.VisitDifference(Present(previous), Present(next), [], "");
    assert [] + Print(Difference(Present(previous), Present(next))) == Print(Difference(Present(previous), Present(next)));
    lines := Sort(Filter(collector.entries), ByPath(before));
  }
}
