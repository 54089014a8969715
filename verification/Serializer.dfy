/**
 Turning any runtime value into something the devtools can show. Values form a heap that may have cycles; what stops
 the walk is the depth, and, for plain objects, having been shown before.
 */
module Serializer {
  import opened RelayTypes
  import opened StableSort

  type Ref = nat

  /** `Label` covers what is shown as one fixed text: functions, symbols, bigints, undefined, non-finite numbers. */
  datatype Datum = Scalar(text: string) | Str(text: string) | Label(text: string) | Object(ref: Ref)

  datatype Named = Named(key: string, datum: Datum)

  datatype Node =
    | Date(text: string)
    | Failure(message: string, name: string, stack: Option<string>)
    | Binary(name: string, bytes: seq<int>)
    | Array(items: seq<Datum>)
    | Plain(props: seq<Named>)

  type Heap = map<Ref, Node>

  ghost predicate Closed(heap: Heap, d: Datum) {
    d.Object? ==> d.ref in heap
  }

  /** No reference leads nowhere. */
  ghost predicate Whole(heap: Heap) {
    forall r | r in heap ::
      && (heap[r].Array? ==> forall i | 0 <= i < |heap[r].items| :: Closed(heap, heap[r].items[i]))
      && (heap[r].Plain? ==> forall i | 0 <= i < |heap[r].props| :: Closed(heap, heap[r].props[i].datum))
  }

  datatype Options = Options(maxArrayLength: nat, maxDepth: nat, maxObjectKeys: nat, maxStringLength: nat)

  datatype Shown =
    | Atom(text: string)
    | Text(text: string, omitted: nat)
    | MaxDepth
    | Circular
    | Omitted(count: nat)
    | Items(items: seq<Shown>)
    | Record(fields: seq<ShownField>)
    | ErrorRecord(message: Shown, name: string, stack: Option<Shown>)
    | BinaryRecord(name: string, length: nat, preview: seq<int>)

  datatype ShownField = ShownField(key: string, value: Shown)

  const TRUNCATED_KEYS := "__truncatedKeys"

  function TruncateString(text: string, maxLength: nat): Shown {
    if |text| <= maxLength then Text(text, 0) else Text(text[..maxLength], |text| - maxLength)
  }

  function Levels(o: Options, depth: nat): nat {
    if depth < o.maxDepth then o.maxDepth - depth else 0
  }

  function First<T>(xs: seq<T>, n: nat): seq<T> {
    if |xs| <= n then xs else xs[..n]
  }

  /** Assigning a key that is there already replaces its value. */
  function Assign(fields: seq<ShownField>, key: string, value: Shown): seq<ShownField> {
    if fields == [] then [ShownField(key, value)]
    else if fields[0].key == key then [ShownField(key, value)] + fields[1..]
    else [fields[0]] + Assign(fields[1..], key, value)
  }

  function ByKey(before: (string, string) -> bool): (Named, Named) -> bool {
    (x: Named, y: Named) => before(x.key, y.key)
  }

  // ---------------------------------------------------------------- the result

  datatype Walk<T> = Walk(shown: T, seen: set<Ref>)

  /** `before(a, b)` is whether `a.localeCompare(b) <= 0`. A reference that leads nowhere, which no whole heap has, is cut off. */
  ghost function ShowDatum(heap: Heap, before: (string, string) -> bool, o: Options, d: Datum, seen: set<Ref>, depth: nat)
    : Walk<Shown>
    decreases Levels(o, depth), 1, 0
  {
    match d
    case Scalar(text) => Walk(Atom(text), seen)
    case Str(text) => Walk(TruncateString(text, o.maxStringLength), seen)
    case Label(text) => Walk(Atom(text), seen)
    case Object(ref) =>
      if depth >= o.maxDepth || ref !in heap then Walk(MaxDepth, seen)
      else ShowNode(heap, before, o, ref, heap[ref], seen, depth)
  }

  ghost function ShowNode(heap: Heap, before: (string, string) -> bool, o: Options, ref: Ref, node: Node, seen: set<Ref>,
                          depth: nat)
    : Walk<Shown>
    requires depth < o.maxDepth
    decreases Levels(o, depth), 0, 0
  {
    match node
    case Date(text) => Walk(Atom(text), seen)
    case Failure(message, name, stack) => Walk(ShowError(o, message, name, stack), seen)
    case Binary(name, bytes) => Walk(BinaryRecord(name, |bytes|, First(bytes, 16)), seen)
    case Array(items) =>
      var walk := ShowItems(heap, before, o, First(items, o.maxArrayLength), seen, depth + 1);
      Walk(Items(walk.shown + Rest(|items|, o.maxArrayLength)), walk.seen)
    case Plain(props) =>
      if ref in seen then Walk(Circular, seen)
      else
        var sorted := First(Sort(props, ByKey(before)), o.maxObjectKeys);
        var walk := ShowFields(heap, before, o, sorted, seen + {ref}, depth + 1);
        Walk(Record(MarkFields(walk.shown, |props|, o.maxObjectKeys)), walk.seen)
  }

  function ShowError(o: Options, message: string, name: string, stack: Option<string>): Shown {
    ErrorRecord(TruncateString(message, o.maxStringLength), name,
                if stack.Some? then Some(TruncateString(stack.value, o.maxStringLength)) else None)
  }

  function Rest(length: nat, limit: nat): seq<Shown> {
    if length > limit then [Omitted(length - limit)] else []
  }

  function MarkFields(fields: seq<ShownField>, length: nat, limit: nat): seq<ShownField> {
    if length > limit then Assign(fields, TRUNCATED_KEYS, Omitted(length - limit)) else fields
  }

  ghost function ShowItems(heap: Heap, before: (string, string) -> bool, o: Options, items: seq<Datum>, seen: set<Ref>,
                           depth: nat)
    : Walk<seq<Shown>>
    decreases Levels(o, depth), 2, |items|
  {
    if items == [] then Walk([], seen)
    else
      var front := ShowItems(heap, before, o, items[..|items| - 1], seen, depth);
      var last := ShowDatum(heap, before, o, items[|items| - 1], front.seen, depth);
      Walk(front.shown + [last.shown], last.seen)
  }

  ghost function ShowFields(heap: Heap, before: (string, string) -> bool, o: Options, props: seq<Named>, seen: set<Ref>,
                            depth: nat)
    : Walk<seq<ShownField>>
    decreases Levels(o, depth), 2, |props|
  {
    if props == [] then Walk([], seen)
    else
      var front := ShowFields(heap, before, o, props[..|props| - 1], seen, depth);
      var last := ShowDatum(heap, before, o, props[|props| - 1].datum, front.seen, depth);
      Walk(Assign(front.shown, props[|props| - 1].key, last.shown), last.seen)
  }

  // ---------------------------------------------------------------- the walk

  class DevtoolsSerializer {
    const heap: Heap
    const before: (string, string) -> bool
    const options: Options
    var seen: set<Ref>

    constructor (heap: Heap, before: (string, string) -> bool, options: Options)
      ensures this.heap == heap && this.before == before && this.options == options && seen == {}
    {
      this.heap, this.before, this.options, seen := heap, before, options, {};
    }

    method SerializeValue(value: Datum, depth: nat) returns (shown: Shown)
      requires Whole(heap) && Closed(heap, value)
      modifies this
      ensures Walk(shown, seen) == ShowDatum(heap, before, options, value, old(seen), depth)
      decreases Levels(options, depth), 1
    {
      match value
      case Scalar(text) => return Atom(text);
      case Str(text) => return TruncateString(text, options.maxStringLength);
      case Label(text) => return Atom(text);
      case Object(ref) =>
        if depth >= options.maxDepth {
          return MaxDepth;
        }
        match heap[ref] {
          case Date(text) => return Atom(text);
          case Failure(message, name, stack) => return ShowError(options, message, name, stack);
          case Binary(name, bytes) => return BinaryRecord(name, |bytes|, First(bytes, 16));
          case Array(items) => shown := SerializeArray(items, depth);
          case Plain(props) =>
            if ref in seen {
              return Circular;
            }
            seen := seen + {ref};
            shown := SerializeObject(props, depth);
        }
    }

    method SerializeArray(items: seq<Datum>, depth: nat) returns (shown: Shown)
      requires Whole(heap) && depth < options.maxDepth
      requires forall i | 0 <= i < |items| :: Closed(heap, items[i])
      modifies this
      ensures var walk := ShowItems(heap, before, options, First(items, options.maxArrayLength), old(seen), depth + 1);
              shown == Items(walk.shown + Rest(|items|, options.maxArrayLength)) && seen == walk.seen
      decreases Levels(options, depth), 0
    {
      var part := First(items, options.maxArrayLength);
      var next: seq<Shown> := [];
      for n := 0 to |part|
        invariant Walk(next, seen) == ShowItems(heap, before, options, part[..n], old(seen), depth + 1)
      {
        var entry := SerializeValue(part[n], depth + 1);
        assert part[..n + 1][..n] == part[..n];
        next := next + [entry];
      }
      assert part[..|part|] == part;
      if |items| > options.maxArrayLength {
        next := next + [Omitted(|items| - options.maxArrayLength)];
      }
      shown := Items(next);
    }

    method SerializeObject(props: seq<Named>, depth: nat) returns (shown: Shown)
      requires Whole(heap) && depth < options.maxDepth
      requires forall i | 0 <= i < |props| :: Closed(heap, props[i].datum)
      modifies this
      ensures var part := First(Sort(props, ByKey(before)), options.maxObjectKeys);
              var walk := ShowFields(heap, before, options, part, old(seen), depth + 1);
              shown == Record(MarkFields(walk.shown, |props|, options.maxObjectKeys)) && seen == walk.seen
      decreases Levels(options, depth), 0
    {
      var entries := Sort(props, ByKey(before));
      SortPermutes(props, ByKey(before));
      forall i | 0 <= i < |entries| ensures Closed(heap, entries[i].datum) {
        assert entries[i] in multiset(props);
      }
      var part := First(entries, options.maxObjectKeys);
      var next: seq<ShownField> := [];
      for n := 0 to |part|
        invariant Walk(next, seen) == ShowFields(heap, before, options, part[..n], old(seen), depth + 1)
      {
        var entry := SerializeValue(part[n].datum, depth + 1);
        assert part[..n + 1][..n] == part[..n];
        next := Assign(next, part[n].key, entry);
      }
      assert part[..|part|] == part;
      assert |entries| == |props| by {
        assert |multiset(entries)| == |multiset(props)|;
      }
      if |entries| > options.maxObjectKeys {
        next := Assign(next, TRUNCATED_KEYS, Omitted(|entries| - options.maxObjectKeys));
      }
      shown := Record(next);
    }
  }

  // ---------------------------------------------------------------- bounds

  /** Lists, records, texts and nesting keep to the limits; only an error or a binary may be nested one deeper. */
  ghost predicate Bounded(s: Shown, o: Options, levels: nat)
    decreases s
  {
    match s
    case Text(text, _) => |text| <= o.maxStringLength
    case Items(items) =>
      levels > 0 && |items| <= o.maxArrayLength + 1 && forall i | 0 <= i < |items| :: Bounded(items[i], o, levels - 1)
    case Record(fields) =>
      && levels > 0 && |fields| <= o.maxObjectKeys + 1
      && (forall i | 0 <= i < |fields| :: Bounded(fields[i].value, o, levels - 1))
    case ErrorRecord(message, _, stack) =>
      levels > 0 && Bounded(message, o, levels - 1) && (stack.Some? ==> Bounded(stack.value, o, levels - 1))
    case BinaryRecord(_, length, preview) => levels > 0 && |preview| <= 16 && |preview| <= length
    case _ => true
  }

  ghost predicate FieldsBounded(fields: seq<ShownField>, o: Options, levels: nat) {
    forall i | 0 <= i < |fields| :: Bounded(fields[i].value, o, levels)
  }

  lemma {:induction false} AssignBounded(fields: seq<ShownField>, key: string, value: Shown, o: Options, levels: nat)
    requires FieldsBounded(fields, o, levels) && Bounded(value, o, levels)
    ensures FieldsBounded(Assign(fields, key, value), o, levels)
    ensures |fields| <= |Assign(fields, key, value)| <= |fields| + 1
  {
    if fields != [] && fields[0].key != key {
      AssignBounded(fields[1..], key, value, o, levels);
    }
  }

  lemma {:induction false} ShownBounded(heap: Heap, before: (string, string) -> bool, o: Options, d: Datum,
                                        seen: set<Ref>, depth: nat)
    ensures Bounded(ShowDatum(heap, before, o, d, seen, depth).shown, o, Levels(o, depth))
    decreases Levels(o, depth), 1, 0
  {
    if d.Object? && depth < o.maxDepth && d.ref in heap {
      NodeBounded(heap, before, o, d.ref, heap[d.ref], seen, depth);
    }
  }

  lemma {:induction false} NodeBounded(heap: Heap, before: (string, string) -> bool, o: Options, ref: Ref, node: Node,
                                       seen: set<Ref>, depth: nat)
    requires depth < o.maxDepth
    ensures Bounded(ShowNode(heap, before, o, ref, node, seen, depth).shown, o, Levels(o, depth))
    decreases Levels(o, depth), 0, 0
  {
    match node
    case Array(items) =>
      ItemsBounded(heap, before, o, First(items, o.maxArrayLength), seen, depth + 1);
    case Plain(props) =>
      var part := First(Sort(props, ByKey(before)), o.maxObjectKeys);
      FieldsShownBounded(heap, before, o, part, seen + {ref}, depth + 1);
      var fields := ShowFields(heap, before, o, part, seen + {ref}, depth + 1).shown;
      AssignBounded(fields, TRUNCATED_KEYS, Omitted(if |props| > o.maxObjectKeys then |props| - o.maxObjectKeys else 0),
                    o, Levels(o, depth + 1));
    case _ =>
  }

  lemma {:induction false} ItemsBounded(heap: Heap, before: (string, string) -> bool, o: Options, items: seq<Datum>,
                                        seen: set<Ref>, depth: nat)
    ensures var shown := ShowItems(heap, before, o, items, seen, depth).shown;
            |shown| == |items| && forall i | 0 <= i < |shown| :: Bounded(shown[i], o, Levels(o, depth))
    decreases Levels(o, depth), 2, |items|
  {
    if items != [] {
      var front := items[..|items| - 1];
      ItemsBounded(heap, before, o, front, seen, depth);
      ShownBounded(heap, before, o, items[|items| - 1], ShowItems(heap, before, o, front, seen, depth).seen, depth);
    }
  }

  lemma {:induction false} FieldsShownBounded(heap: Heap, before: (string, string) -> bool, o: Options,
                                              props: seq<Named>, seen: set<Ref>, depth: nat)
    ensures var shown := ShowFields(heap, before, o, props, seen, depth).shown;
            |shown| <= |props| && FieldsBounded(shown, o, Levels(o, depth))
    decreases Levels(o, depth), 2, |props|
  {
    if props != [] {
      var front, last := props[..|props| - 1], props[|props| - 1];
      FieldsShownBounded(heap, before, o, front, seen, depth);
      var walk := ShowFields(heap, before, o, front, seen, depth);
      ShownBounded(heap, before, o, last.datum, walk.seen, depth);
      AssignBounded(walk.shown, last.key, ShowDatum(heap, before, o, last.datum, walk.seen, depth).shown, o,
                    Levels(o, depth));
    }
  }

  // ---------------------------------------------------------------- each plain object once

  function Records(s: Shown): nat
    decreases s, 0
  {
    match s
    case Items(items) => RecordsIn(items)
    case Record(fields) => 1 + RecordsAmong(fields)
    case _ => 0
  }

  function RecordsIn(items: seq<Shown>): nat
    decreases items, 1
  {
    if items == [] then 0 else RecordsIn(items[..|items| - 1]) + Records(items[|items| - 1])
  }

  function RecordsAmong(fields: seq<ShownField>): nat
    decreases fields, 1
  {
    if fields == [] then 0 else Records(fields[0].value) + RecordsAmong(fields[1..])
  }

  lemma {:induction false} AssignRecords(fields: seq<ShownField>, key: string, value: Shown)
    ensures RecordsAmong(Assign(fields, key, value)) <= RecordsAmong(fields) + Records(value)
  {
    if fields != [] && fields[0].key != key {
      AssignRecords(fields[1..], key, value);
      var rest := Assign(fields[1..], key, value);
      assert ([fields[0]] + rest)[1..] == rest;
    } else if fields != [] {
      assert ([ShownField(key, value)] + fields[1..])[1..] == fields[1..];
    }
  }

  /** The walk has seen at least as many new objects as it has shown records. */
  ghost predicate Paid(records: nat, heap: Heap, before: set<Ref>, after: set<Ref>) {
    before <= after <= before + heap.Keys && records + |before| <= |after|
  }

  lemma PaidTwice(a: nat, b: nat, heap: Heap, s: set<Ref>, t: set<Ref>, u: set<Ref>)
    requires Paid(a, heap, s, t) && Paid(b, heap, t, u)
    ensures Paid(a + b, heap, s, u)
  {
  }

  lemma {:induction false} RecordsPaid(heap: Heap, before: (string, string) -> bool, o: Options, d: Datum,
                                       seen: set<Ref>, depth: nat)
    ensures var walk := ShowDatum(heap, before, o, d, seen, depth);
            Paid(Records(walk.shown), heap, seen, walk.seen)
    decreases Levels(o, depth), 1, 0
  {
    hide ShowItems, ShowFields, RecordsIn, RecordsAmong, MarkFields;
    if d.Object? && depth < o.maxDepth && d.ref in heap {
      match heap[d.ref]
      case Array(items) => ArrayPaid(heap, before, o, items, seen, depth);
      case Plain(props) =>
        if d.ref !in seen {
          PlainPaid(heap, before, o, d.ref, props, seen, depth);
        }
      case _ =>
    }
  }

  lemma {:induction false} ArrayPaid(heap: Heap, before: (string, string) -> bool, o: Options, items: seq<Datum>,
                                     seen: set<Ref>, depth: nat)
    requires depth < o.maxDepth
    ensures var walk := ShowItems(heap, before, o, First(items, o.maxArrayLength), seen, depth + 1);
            Paid(RecordsIn(walk.shown + Rest(|items|, o.maxArrayLength)), heap, seen, walk.seen)
    decreases Levels(o, depth), 0, 0
  {
    var part := First(items, o.maxArrayLength);
    ItemsPaid(heap, before, o, part, seen, depth + 1);
    var shown, rest := ShowItems(heap, before, o, part, seen, depth + 1).shown, Rest(|items|, o.maxArrayLength);
    if rest == [] {
      assert shown + rest == shown;
    } else {
      assert (shown + rest)[..|shown|] == shown && (shown + rest)[|shown|] == rest[0];
    }
  }

  lemma {:induction false} PlainPaid(heap: Heap, before: (string, string) -> bool, o: Options, ref: Ref,
                                     props: seq<Named>, seen: set<Ref>, depth: nat)
    requires depth < o.maxDepth && ref in heap && ref !in seen
    ensures var walk := ShowFields(heap, before, o, First(Sort(props, ByKey(before)), o.maxObjectKeys), seen + {ref},
                                   depth + 1);
            Paid(1 + RecordsAmong(MarkFields(walk.shown, |props|, o.maxObjectKeys)), heap, seen, walk.seen)
    decreases Levels(o, depth), 0, 0
  {
    var part := First(Sort(props, ByKey(before)), o.maxObjectKeys);
    FieldsPaid(heap, before, o, part, seen + {ref}, depth + 1);
    if |props| > o.maxObjectKeys {
      AssignRecords(ShowFields(heap, before, o, part, seen + {ref}, depth + 1).shown, TRUNCATED_KEYS,
                    Omitted(|props| - o.maxObjectKeys));
    }
  }

  lemma {:induction false} ItemsPaid(heap: Heap, before: (string, string) -> bool, o: Options, items: seq<Datum>,
                                     seen: set<Ref>, depth: nat)
    ensures var walk := ShowItems(heap, before, o, items, seen, depth);
            Paid(RecordsIn(walk.shown), heap, seen, walk.seen)
    decreases Levels(o, depth), 2, |items|
  {
    if items != [] {
      var front := ShowItems(heap, before, o, items[..|items| - 1], seen, depth);
      var last := ShowDatum(heap, before, o, items[|items| - 1], front.seen, depth);
      ItemsPaid(heap, before, o, items[..|items| - 1], seen, depth);
      RecordsPaid(heap, before, o, items[|items| - 1], front.seen, depth);
      PaidTwice(RecordsIn(front.shown), Records(last.shown), heap, seen, front.seen, last.seen);
      assert (front.shown + [last.shown])[..|front.shown|] == front.shown;
    }
  }

  lemma {:induction false} FieldsPaid(heap: Heap, before: (string, string) -> bool, o: Options, props: seq<Named>,
                                      seen: set<Ref>, depth: nat)
    ensures var walk := ShowFields(heap, before, o, props, seen, depth);
            Paid(RecordsAmong(walk.shown), heap, seen, walk.seen)
    decreases Levels(o, depth), 2, |props|
  {
    if props != [] {
      var front := ShowFields(heap, before, o, props[..|props| - 1], seen, depth);
      var last := ShowDatum(heap, before, o, props[|props| - 1].datum, front.seen, depth);
      FieldsPaid(heap, before, o, props[..|props| - 1], seen, depth);
      RecordsPaid(heap, before, o, props[|props| - 1].datum, front.seen, depth);
      PaidTwice(RecordsAmong(front.shown), Records(last.shown), heap, seen, front.seen, last.seen);
      AssignRecords(front.shown, props[|props| - 1].key, last.shown);
    }
  }

  /** However often the heap refers to its objects, and however it is tangled, there are no more records than objects. */
  lemma RecordsBounded(heap: Heap, before: (string, string) -> bool, o: Options, d: Datum)
    ensures Records(ShowDatum(heap, before, o, d, {}, 0).shown) <= |heap.Keys|
  {
    hide ShowDatum, Records;
    RecordsPaid(heap, before, o, d, {}, 0);
    var after := ShowDatum(heap, before, o, d, {}, 0).seen;
    assert heap.Keys == after + (heap.Keys - after);
  }

  // ---------------------------------------------------------------- what is shown is there

  const PROTO := "__proto__"

  /** Records name their keys once, and none is the mark for keys left out, nor the one that sets a prototype. */
  ghost predicate Ordinary(heap: Heap) {
    forall r | r in heap && heap[r].Plain? ::
      && (forall i, j | 0 <= i < j < |heap[r].props| :: heap[r].props[i].key != heap[r].props[j].key)
      && (forall i | 0 <= i < |heap[r].props| :: heap[r].props[i].key != TRUNCATED_KEYS && heap[r].props[i].key != PROTO)
  }

  /** The plain objects that have a record of their own in the picture. */
  ghost function Recorded(heap: Heap, before: (string, string) -> bool, o: Options, d: Datum, s: Shown): set<Ref>
    decreases s, 0
  {
    if !d.Object? || d.ref !in heap then {}
    else
      match heap[d.ref]
      case Array(items) =>
        var part := First(items, o.maxArrayLength);
        if s.Items? && |s.items| >= |part| then RecordedIn(heap, before, o, part, s.items) else {}
      case Plain(props) =>
        var part := First(Sort(props, ByKey(before)), o.maxObjectKeys);
        if s.Record? && |s.fields| >= |part| then {d.ref} + RecordedAmong(heap, before, o, part, s.fields) else {}
      case _ => {}
  }

  /** The same for the first items of a list, and for the first fields of a record. */
  ghost function RecordedIn(heap: Heap, before: (string, string) -> bool, o: Options, items: seq<Datum>,
                            shown: seq<Shown>): set<Ref>
    requires |items| <= |shown|
    decreases shown, 1 + |items|
  {
    if items == [] then {}
    else
      var n := |items| - 1;
      RecordedIn(heap, before, o, items[..n], shown) + Recorded(heap, before, o, items[n], shown[n])
  }

  ghost function RecordedAmong(heap: Heap, before: (string, string) -> bool, o: Options, props: seq<Named>,
                               fields: seq<ShownField>): set<Ref>
    requires |props| <= |fields|
    decreases fields, 1 + |props|
  {
    if props == [] then {}
    else
      var n := |props| - 1;
      RecordedAmong(heap, before, o, props[..n], fields) + Recorded(heap, before, o, props[n].datum, fields[n].value)
  }

  lemma {:induction false} RecordedInPrefix(heap: Heap, before: (string, string) -> bool, o: Options,
                                            items: seq<Datum>, shown: seq<Shown>, longer: seq<Shown>)
    requires |items| <= |shown| && shown <= longer
    ensures RecordedIn(heap, before, o, items, longer) == RecordedIn(heap, before, o, items, shown)
    decreases |items|
  {
    if items != [] {
      RecordedInPrefix(heap, before, o, items[..|items| - 1], shown, longer);
    }
  }

  lemma {:induction false} RecordedAmongPrefix(heap: Heap, before: (string, string) -> bool, o: Options,
                                               props: seq<Named>, fields: seq<ShownField>, longer: seq<ShownField>)
    requires |props| <= |fields| && fields <= longer
    ensures RecordedAmong(heap, before, o, props, longer) == RecordedAmong(heap, before, o, props, fields)
    decreases |props|
  {
    if props != [] {
      RecordedAmongPrefix(heap, before, o, props[..|props| - 1], fields, longer);
    }
  }

  /** As much of the beginning as the limit allows. */
  ghost predicate Begins<T>(part: seq<T>, whole: seq<T>, limit: nat) {
    part <= whole && |part| == if |whole| <= limit then |whole| else limit
  }

  /**
   `s` is a picture of `d`: part by part, in order, as far as the limits allow, saying how much they left out. A plain
   object is circular exactly if it is one of `earlier`, which has a record before this place.
   */
  ghost predicate Pictures(heap: Heap, before: (string, string) -> bool, o: Options, d: Datum, s: Shown, levels: nat,
                           earlier: set<Ref>)
    decreases s
  {
    match d
    case Scalar(text) => s == Atom(text)
    case Label(text) => s == Atom(text)
    case Str(text) => s.Text? && Begins(s.text, text, o.maxStringLength) && s.omitted == |text| - |s.text|
    case Object(ref) =>
      if levels == 0 || ref !in heap then s == MaxDepth
      else
        match heap[ref]
        case Date(text) => s == Atom(text)
        case Failure(message, name, stack) =>
          && s.ErrorRecord? && s.name == name && Pictures(heap, before, o, Str(message), s.message, 0, {})
          && (s.stack.Some? <==> stack.Some?)
          && (stack.Some? ==> Pictures(heap, before, o, Str(stack.value), s.stack.value, 0, {}))
        case Binary(name, bytes) =>
          s.BinaryRecord? && s.name == name && s.length == |bytes| && Begins(s.preview, bytes, 16)
        case Array(items) => s.Items? && PicturesItems(heap, before, o, items, s.items, levels - 1, earlier)
        case Plain(props) =>
          if ref in earlier then s == Circular
          else s.Record? && PicturesFields(heap, before, o, props, s.fields, levels - 1, earlier + {ref})
  }

  ghost predicate PicturesItems(heap: Heap, before: (string, string) -> bool, o: Options, items: seq<Datum>,
                                shown: seq<Shown>, levels: nat, earlier: set<Ref>)
    decreases shown
  {
    var part := First(items, o.maxArrayLength);
    var n := |part|;
    && |shown| == (if n < |items| then n + 1 else n)
    && (forall i | 0 <= i < n ::
          Pictures(heap, before, o, items[i], shown[i], levels, earlier + RecordedIn(heap, before, o, part[..i], shown)))
    && (n < |items| ==> shown[n] == Omitted(|items| - n))
  }

  ghost predicate PicturesFields(heap: Heap, before: (string, string) -> bool, o: Options, props: seq<Named>,
                                 fields: seq<ShownField>, levels: nat, earlier: set<Ref>)
    decreases fields
  {
    var part := First(Sort(props, ByKey(before)), o.maxObjectKeys);
    var n := |part|;
    && |fields| == (if n < |props| then n + 1 else n)
    && (forall i | 0 <= i < n ::
          && part[i].key == fields[i].key
          && Pictures(heap, before, o, part[i].datum, fields[i].value, levels,
                      earlier + RecordedAmong(heap, before, o, part[..i], fields)))
    && (n < |props| ==> fields[n] == ShownField(TRUNCATED_KEYS, Omitted(|props| - n)))
  }

  /** What has been seen after a walk: what was before, and what the walk made a record for. */
  lemma {:induction false} ShownPictures(heap: Heap, before: (string, string) -> bool, o: Options, d: Datum,
                                         seen: set<Ref>, depth: nat)
    requires Ordinary(heap)
    ensures var walk := ShowDatum(heap, before, o, d, seen, depth);
            && Pictures(heap, before, o, d, walk.shown, Levels(o, depth), seen)
            && walk.seen == seen + Recorded(heap, before, o, d, walk.shown)
    decreases Levels(o, depth), 1, 0
  {
    hide ShowItems, ShowFields, MarkFields, PicturesItems, PicturesFields, RecordedIn, RecordedAmong;
    if d.Object? && depth < o.maxDepth && d.ref in heap {
      match heap[d.ref]
      case Array(items) => ArrayPictures(heap, before, o, items, seen, depth);
      case Plain(props) =>
        if d.ref !in seen {
          PlainPictures(heap, before, o, d.ref, seen, depth);
        }
      case _ =>
    }
  }

  lemma {:induction false} ArrayPictures(heap: Heap, before: (string, string) -> bool, o: Options, items: seq<Datum>,
                                         seen: set<Ref>, depth: nat)
    requires Ordinary(heap) && depth < o.maxDepth
    ensures var part := First(items, o.maxArrayLength);
            var walk := ShowItems(heap, before, o, part, seen, depth + 1);
            var shown := walk.shown + Rest(|items|, o.maxArrayLength);
            && PicturesItems(heap, before, o, items, shown, Levels(o, depth + 1), seen)
            && |shown| >= |part| && walk.seen == seen + RecordedIn(heap, before, o, part, shown)
    decreases Levels(o, depth), 0, 0
  {
    hide Pictures, ShowItems, RecordedIn;
    var part := First(items, o.maxArrayLength);
    EachItemPictures(heap, before, o, part, seen, depth + 1);
    var shown := ShowItems(heap, before, o, part, seen, depth + 1).shown;
    var all := shown + Rest(|items|, o.maxArrayLength);
    RecordedInPrefix(heap, before, o, part, shown, all);
    forall i | 0 <= i < |part|
      ensures RecordedIn(heap, before, o, part[..i], all) == RecordedIn(heap, before, o, part[..i], shown)
    {
      RecordedInPrefix(heap, before, o, part[..i], shown, all);
    }
  }

  /** Each item is pictured, with the records of those before it among the earlier ones. */
  ghost predicate EachPictured(heap: Heap, before: (string, string) -> bool, o: Options, items: seq<Datum>,
                               shown: seq<Shown>, levels: nat, earlier: set<Ref>)
    requires |items| <= |shown|
  {
    forall i | 0 <= i < |items| ::
      Pictures(heap, before, o, items[i], shown[i], levels, earlier + RecordedIn(heap, before, o, items[..i], shown))
  }

  lemma EachPicturedSnoc(heap: Heap, before: (string, string) -> bool, o: Options, items: seq<Datum>,
                         front: seq<Shown>, last: Shown, levels: nat, earlier: set<Ref>)
    requires |items| == |front| + 1 && EachPictured(heap, before, o, items[..|front|], front, levels, earlier)
    requires Pictures(heap, before, o, items[|front|], last, levels,
                      earlier + RecordedIn(heap, before, o, items[..|front|], front))
    ensures EachPictured(heap, before, o, items, front + [last], levels, earlier)
    ensures RecordedIn(heap, before, o, items, front + [last]) ==
            RecordedIn(heap, before, o, items[..|front|], front) + Recorded(heap, before, o, items[|front|], last)
  {
    hide Pictures, Recorded, RecordedIn;
    var n, shown := |front|, front + [last];
    RecordedInPrefix(heap, before, o, items[..n], front, shown);
    RecordedInSnoc(heap, before, o, items, shown);
    PicturedFront(heap, before, o, items, front, shown, levels, earlier);
    assert shown[n] == last;
  }

  lemma RecordedInSnoc(heap: Heap, before: (string, string) -> bool, o: Options, items: seq<Datum>, shown: seq<Shown>)
    requires 0 < |items| <= |shown|
    ensures var n := |items| - 1;
            RecordedIn(heap, before, o, items, shown) ==
            RecordedIn(heap, before, o, items[..n], shown) + Recorded(heap, before, o, items[n], shown[n])
  {
  }

  lemma PicturedFront(heap: Heap, before: (string, string) -> bool, o: Options, items: seq<Datum>,
                      front: seq<Shown>, longer: seq<Shown>, levels: nat, earlier: set<Ref>)
    requires |front| <= |items| && EachPictured(heap, before, o, items[..|front|], front, levels, earlier)
    requires front <= longer
    ensures forall i | 0 <= i < |front| ::
              Pictures(heap, before, o, items[i], longer[i], levels, earlier + RecordedIn(heap, before, o, items[..i], longer))
  {
    hide Pictures, RecordedIn;
    var n := |front|;
    forall i | 0 <= i < n
      ensures Pictures(heap, before, o, items[i], longer[i], levels,
                       earlier + RecordedIn(heap, before, o, items[..i], longer))
    {
      assert items[..n][..i] == items[..i] && items[..n][i] == items[i] && front[i] == longer[i];
      RecordedInPrefix(heap, before, o, items[..i], front, longer);
    }
  }

  lemma {:induction false} EachItemPictures(heap: Heap, before: (string, string) -> bool, o: Options, items: seq<Datum>,
                                            seen: set<Ref>, depth: nat)
    requires Ordinary(heap)
    ensures var walk := ShowItems(heap, before, o, items, seen, depth);
            && |walk.shown| == |items|
            && EachPictured(heap, before, o, items, walk.shown, Levels(o, depth), seen)
            && walk.seen == seen + RecordedIn(heap, before, o, items, walk.shown)
    decreases Levels(o, depth), 2, |items|
  {
    if items == [] {
      NothingPictured(heap, before, o, Levels(o, depth), seen);
    } else {
      hide Pictures, EachPictured, Recorded, RecordedIn, ShowDatum;
      var n := |items| - 1;
      var front := ShowItems(heap, before, o, items[..n], seen, depth);
      var last := ShowDatum(heap, before, o, items[n], front.seen, depth);
      EachItemPictures(heap, before, o, items[..n], seen, depth);
      ShownPictures(heap, before, o, items[n], front.seen, depth);
      EachPicturedSnoc(heap, before, o, items, front.shown, last.shown, Levels(o, depth), seen);
    }
  }

  lemma NothingPictured(heap: Heap, before: (string, string) -> bool, o: Options, levels: nat, seen: set<Ref>)
    ensures EachPictured(heap, before, o, [], [], levels, seen) && RecordedIn(heap, before, o, [], []) == {}
  {
  }

  lemma {:induction false} PlainPictures(heap: Heap, before: (string, string) -> bool, o: Options, ref: Ref,
                                         seen: set<Ref>, depth: nat)
    requires Ordinary(heap) && depth < o.maxDepth && ref in heap && heap[ref].Plain?
    ensures var props := heap[ref].props;
            var part := First(Sort(props, ByKey(before)), o.maxObjectKeys);
            var walk := ShowFields(heap, before, o, part, seen + {ref}, depth + 1);
            var fields := MarkFields(walk.shown, |props|, o.maxObjectKeys);
            && PicturesFields(heap, before, o, props, fields, Levels(o, depth + 1), seen + {ref})
            && |fields| >= |part|
            && walk.seen == seen + {ref} + RecordedAmong(heap, before, o, part, fields)
    decreases Levels(o, depth), 0, 0
  {
    hide Pictures, ShowFields, RecordedAmong;
    var props := heap[ref].props;
    var sorted := Sort(props, ByKey(before));
    var part := First(sorted, o.maxObjectKeys);
    SortedProps(props, before);
    EachFieldPictures(heap, before, o, part, seen + {ref}, depth + 1);
    var shown := ShowFields(heap, before, o, part, seen + {ref}, depth + 1).shown;
    AssignNew(shown, TRUNCATED_KEYS, Omitted(if |props| > o.maxObjectKeys then |props| - o.maxObjectKeys else 0));
    var fields := MarkFields(shown, |props|, o.maxObjectKeys);
    RecordedAmongPrefix(heap, before, o, part, shown, fields);
    forall i | 0 <= i < |part|
      ensures RecordedAmong(heap, before, o, part[..i], fields) == RecordedAmong(heap, before, o, part[..i], shown)
    {
      RecordedAmongPrefix(heap, before, o, part[..i], shown, fields);
    }
  }

  function KeyOf(prop: Named): string {
    prop.key
  }

  ghost predicate DistinctKeys(props: seq<Named>) {
    DistinctBy(props, KeyOf)
  }

  lemma SortedProps(props: seq<Named>, before: (string, string) -> bool)
    requires DistinctKeys(props)
    ensures var sorted := Sort(props, ByKey(before));
            && |sorted| == |props|
            && DistinctKeys(sorted)
            && forall i | 0 <= i < |sorted| :: sorted[i] in props
  {
    var sorted := Sort(props, ByKey(before));
    SortPermutes(props, ByKey(before));
    SortDistinct(props, KeyOf, ByKey(before));
    assert |multiset(sorted)| == |multiset(props)|;
    forall i | 0 <= i < |sorted| ensures sorted[i] in props {
      assert sorted[i] in multiset(sorted);
    }
  }

  lemma {:induction false} AssignNew(fields: seq<ShownField>, key: string, value: Shown)
    requires forall i | 0 <= i < |fields| :: fields[i].key != key
    ensures Assign(fields, key, value) == fields + [ShownField(key, value)]
  {
    if fields != [] {
      AssignNew(fields[1..], key, value);
    }
  }

  ghost predicate EachFieldPictured(heap: Heap, before: (string, string) -> bool, o: Options, props: seq<Named>,
                                    fields: seq<ShownField>, levels: nat, earlier: set<Ref>)
    requires |props| <= |fields|
  {
    forall i | 0 <= i < |props| ::
      && fields[i].key == props[i].key
      && Pictures(heap, before, o, props[i].datum, fields[i].value, levels,
                  earlier + RecordedAmong(heap, before, o, props[..i], fields))
  }

  lemma EachFieldPicturedSnoc(heap: Heap, before: (string, string) -> bool, o: Options, props: seq<Named>,
                              front: seq<ShownField>, last: Shown, levels: nat, earlier: set<Ref>)
    requires |props| == |front| + 1 && EachFieldPictured(heap, before, o, props[..|front|], front, levels, earlier)
    requires Pictures(heap, before, o, props[|front|].datum, last, levels,
                      earlier + RecordedAmong(heap, before, o, props[..|front|], front))
    ensures var fields := front + [ShownField(props[|front|].key, last)];
            && EachFieldPictured(heap, before, o, props, fields, levels, earlier)
            && RecordedAmong(heap, before, o, props, fields) ==
               RecordedAmong(heap, before, o, props[..|front|], front)
               + Recorded(heap, before, o, props[|front|].datum, last)
  {
    hide Pictures, Recorded, RecordedAmong;
    var n, fields := |front|, front + [ShownField(props[|front|].key, last)];
    RecordedAmongPrefix(heap, before, o, props[..n], front, fields);
    RecordedAmongSnoc(heap, before, o, props, fields);
    FieldsPicturedFront(heap, before, o, props, front, fields, levels, earlier);
    assert fields[n] == ShownField(props[n].key, last);
  }

  lemma RecordedAmongSnoc(heap: Heap, before: (string, string) -> bool, o: Options, props: seq<Named>,
                          fields: seq<ShownField>)
    requires 0 < |props| <= |fields|
    ensures var n := |props| - 1;
            RecordedAmong(heap, before, o, props, fields) ==
            RecordedAmong(heap, before, o, props[..n], fields) + Recorded(heap, before, o, props[n].datum, fields[n].value)
  {
  }

  lemma FieldsPicturedFront(heap: Heap, before: (string, string) -> bool, o: Options, props: seq<Named>,
                            front: seq<ShownField>, longer: seq<ShownField>, levels: nat, earlier: set<Ref>)
    requires |front| <= |props| && EachFieldPictured(heap, before, o, props[..|front|], front, levels, earlier)
    requires front <= longer
    ensures forall i | 0 <= i < |front| ::
              && longer[i].key == props[i].key
              && Pictures(heap, before, o, props[i].datum, longer[i].value, levels,
                          earlier + RecordedAmong(heap, before, o, props[..i], longer))
  {
    hide Pictures, RecordedAmong;
    var n := |front|;
    forall i | 0 <= i < n
      ensures longer[i].key == props[i].key
      ensures Pictures(heap, before, o, props[i].datum, longer[i].value, levels,
                       earlier + RecordedAmong(heap, before, o, props[..i], longer))
    {
      assert props[..n][..i] == props[..i] && props[..n][i] == props[i] && front[i] == longer[i];
      RecordedAmongPrefix(heap, before, o, props[..i], front, longer);
    }
  }

  lemma NoFieldPictured(heap: Heap, before: (string, string) -> bool, o: Options, levels: nat, seen: set<Ref>)
    ensures EachFieldPictured(heap, before, o, [], [], levels, seen) && RecordedAmong(heap, before, o, [], []) == {}
  {
  }

  /** The keys of a walk's fields are those of the record, as long as those are distinct; nothing is overwritten. */
  lemma {:induction false} FieldKeys(heap: Heap, before: (string, string) -> bool, o: Options, props: seq<Named>,
                                     seen: set<Ref>, depth: nat)
    requires DistinctKeys(props)
    ensures var fields := ShowFields(heap, before, o, props, seen, depth).shown;
            |fields| == |props| && forall i | 0 <= i < |props| :: fields[i].key == props[i].key
    decreases |props|
  {
    hide ShowDatum;
    if props != [] {
      var n := |props| - 1;
      FieldKeys(heap, before, o, props[..n], seen, depth);
      var front := ShowFields(heap, before, o, props[..n], seen, depth);
      LastIsNew(props);
      AssignNew(front.shown, props[n].key, ShowDatum(heap, before, o, props[n].datum, front.seen, depth).shown);
    }
  }

  lemma LastIsNew(props: seq<Named>)
    requires DistinctKeys(props) && props != []
    ensures DistinctKeys(props[..|props| - 1])
    ensures forall i | 0 <= i < |props| - 1 :: props[i].key != props[|props| - 1].key
  {
    forall i | 0 <= i < |props| - 1 ensures KeyOf(props[i]) != KeyOf(props[|props| - 1]) {
    }
  }

  /** So a walk of one more field is one more field. */
  lemma FieldsSnoc(heap: Heap, before: (string, string) -> bool, o: Options, props: seq<Named>, seen: set<Ref>, depth: nat)
    requires DistinctKeys(props) && props != []
    ensures var n := |props| - 1;
            var front := ShowFields(heap, before, o, props[..n], seen, depth);
            var last := ShowDatum(heap, before, o, props[n].datum, front.seen, depth);
            && DistinctKeys(props[..n]) && |front.shown| == n
            && ShowFields(heap, before, o, props, seen, depth)
               == Walk(front.shown + [ShownField(props[n].key, last.shown)], last.seen)
  {
    hide ShowDatum;
    var n := |props| - 1;
    LastIsNew(props);
    FieldKeys(heap, before, o, props[..n], seen, depth);
    var front := ShowFields(heap, before, o, props[..n], seen, depth);
    AssignNew(front.shown, props[n].key, ShowDatum(heap, before, o, props[n].datum, front.seen, depth).shown);
  }

  lemma {:induction false} EachFieldPictures(heap: Heap, before: (string, string) -> bool, o: Options,
                                             props: seq<Named>, seen: set<Ref>, depth: nat)
    requires Ordinary(heap) && DistinctKeys(props)
    ensures var walk := ShowFields(heap, before, o, props, seen, depth);
            && |walk.shown| == |props|
            && EachFieldPictured(heap, before, o, props, walk.shown, Levels(o, depth), seen)
            && walk.seen == seen + RecordedAmong(heap, before, o, props, walk.shown)
    decreases Levels(o, depth), 2, |props|
  {
    if props == [] {
      NoFieldPictured(heap, before, o, Levels(o, depth), seen);
    } else {
      FieldsSnoc(heap, before, o, props, seen, depth);
      hide Pictures, EachFieldPictured, Recorded, RecordedAmong, ShowDatum, ShowFields, DistinctKeys;
      var n := |props| - 1;
      var front := ShowFields(heap, before, o, props[..n], seen, depth);
      var last := ShowDatum(heap, before, o, props[n].datum, front.seen, depth);
      EachFieldPictures(heap, before, o, props[..n], seen, depth);
      ShownPictures(heap, before, o, props[n].datum, front.seen, depth);
      EachFieldPicturedSnoc(heap, before, o, props, front.shown, last.shown, Levels(o, depth), seen);
    }
  }

  /** The keys of a record come out in order, and those left out are none before them. */
  lemma ShownKeysAreFirst(props: seq<Named>, before: (string, string) -> bool, limit: nat)
    requires TotalPreorder(before)
    ensures var sorted := Sort(props, ByKey(before));
            var part := First(sorted, limit);
            && multiset(sorted) == multiset(props)
            && (forall i, j | 0 <= i < j < |sorted| :: before(sorted[i].key, sorted[j].key))
            && part <= sorted && |part| == if |props| <= limit then |props| else limit
  {
    var sorted := Sort(props, ByKey(before));
    SortPermutes(props, ByKey(before));
    assert |multiset(sorted)| == |multiset(props)|;
    ByKeyIsPreorder(before);
    SortOrders(props, ByKey(before));
    forall i, j | 0 <= i < j < |sorted| ensures before(sorted[i].key, sorted[j].key) {
      assert ByKey(before)(sorted[i], sorted[j]);
    }
  }

  lemma ByKeyIsPreorder(before: (string, string) -> bool)
    requires TotalPreorder(before)
    ensures TotalPreorder(ByKey(before))
  {
    var le := ByKey(before);
    forall x: Named, y: Named ensures le(x, y) || le(y, x) {
      assert before(x.key, y.key) || before(y.key, x.key);
    }
    forall x: Named, y: Named, z: Named | le(x, y) && le(y, z) ensures le(x, z) {
      assert before(x.key, y.key) && before(y.key, z.key);
    }
  }

  // ---------------------------------------------------------------- when something is circular

  /** The plain objects met when the heap is unfolded within the limits, each as often as it is met. */
  ghost function Met(heap: Heap, before: (string, string) -> bool, o: Options, d: Datum, depth: nat): seq<Ref>
    decreases Levels(o, depth), 1, 0
  {
    if !d.Object? || depth >= o.maxDepth || d.ref !in heap then []
    else
      match heap[d.ref]
      case Array(items) => MetAmong(heap, before, o, First(items, o.maxArrayLength), depth + 1)
      case Plain(props) =>
        [d.ref] + MetAmong(heap, before, o, Data(First(Sort(props, ByKey(before)), o.maxObjectKeys)), depth + 1)
      case _ => []
  }

  ghost function MetAmong(heap: Heap, before: (string, string) -> bool, o: Options, data: seq<Datum>, depth: nat): seq<Ref>
    decreases Levels(o, depth), 2, |data|
  {
    if data == [] then []
    else MetAmong(heap, before, o, data[..|data| - 1], depth) + Met(heap, before, o, data[|data| - 1], depth)
  }

  function Data(props: seq<Named>): (data: seq<Datum>)
    ensures |data| == |props|
  {
    seq(|props|, i requires 0 <= i < |props| => props[i].datum)
  }

  ghost predicate NoneCircular(s: Shown)
    decreases s
  {
    match s
    case Circular => false
    case Items(items) => forall i | 0 <= i < |items| :: NoneCircular(items[i])
    case Record(fields) => forall i | 0 <= i < |fields| :: NoneCircular(fields[i].value)
    case _ => true
  }

  /** No object of the list is met twice, or was seen before. */
  ghost predicate AllNew(met: seq<Ref>, seen: set<Ref>) {
    && (forall i, j | 0 <= i < j < |met| :: met[i] != met[j])
    && (forall i | 0 <= i < |met| :: met[i] !in seen)
  }

  ghost function Refs(met: seq<Ref>): set<Ref> {
    set i | 0 <= i < |met| :: met[i]
  }

  lemma AllNewConcat(a: seq<Ref>, b: seq<Ref>, seen: set<Ref>)
    ensures AllNew(a + b, seen) <==> AllNew(a, seen) && AllNew(b, seen + Refs(a))
    ensures Refs(a + b) == Refs(a) + Refs(b)
  {
    var all := a + b;
    forall i | 0 <= i < |a| ensures all[i] == a[i] {
    }
    forall i | 0 <= i < |b| ensures all[|a| + i] == b[i] {
    }
    if AllNew(all, seen) {
      forall i, j | 0 <= i < |a| && 0 <= j < |b| ensures a[i] != b[j] {
        assert all[i] != all[|a| + j];
      }
      forall i, j | 0 <= i < j < |b| ensures b[i] != b[j] {
        assert all[|a| + i] != all[|a| + j];
      }
    }
    if AllNew(a, seen) && AllNew(b, seen + Refs(a)) {
      forall i, j | 0 <= i < j < |all| ensures all[i] != all[j] {
        if i < |a| && j >= |a| {
          assert a[i] in Refs(a) && b[j - |a|] !in Refs(a);
        } else if i >= |a| {
          assert b[i - |a|] != b[j - |a|];
        }
      }
    }
  }

  /** A walk shows nothing as circular if and only if everything it would meet is new; then it has seen all that. */
  lemma {:induction false} NoneCircularExactly(heap: Heap, before: (string, string) -> bool, o: Options, d: Datum,
                                               seen: set<Ref>, depth: nat)
    requires Ordinary(heap)
    ensures var walk, met := ShowDatum(heap, before, o, d, seen, depth), Met(heap, before, o, d, depth);
            && (NoneCircular(walk.shown) <==> AllNew(met, seen))
            && (AllNew(met, seen) ==> walk.seen == seen + Refs(met))
    decreases Levels(o, depth), 1, 0
  {
    hide ShowItems, ShowFields, MarkFields, MetAmong, AllNew;
    if d.Object? && depth < o.maxDepth && d.ref in heap {
      match heap[d.ref]
      case Array(items) => ArrayNoneCircular(heap, before, o, items, seen, depth);
      case Plain(props) => PlainNoneCircular(heap, before, o, d.ref, seen, depth);
      case _ => NothingMet(seen);
    } else {
      NothingMet(seen);
    }
  }

  lemma NothingMet(seen: set<Ref>)
    ensures AllNew([], seen) && Refs([]) == {}
  {
  }

  lemma {:induction false} ArrayNoneCircular(heap: Heap, before: (string, string) -> bool, o: Options,
                                             items: seq<Datum>, seen: set<Ref>, depth: nat)
    requires Ordinary(heap) && depth < o.maxDepth
    ensures var part := First(items, o.maxArrayLength);
            var walk, met := ShowItems(heap, before, o, part, seen, depth + 1), MetAmong(heap, before, o, part, depth + 1);
            && (NoneCircular(Items(walk.shown + Rest(|items|, o.maxArrayLength))) <==> AllNew(met, seen))
            && (AllNew(met, seen) ==> walk.seen == seen + Refs(met))
    decreases Levels(o, depth), 0, 0
  {
    hide ShowItems, MetAmong, AllNew;
    var part := First(items, o.maxArrayLength);
    EachItemNoneCircular(heap, before, o, part, seen, depth + 1);
    var shown, rest := ShowItems(heap, before, o, part, seen, depth + 1).shown, Rest(|items|, o.maxArrayLength);
    forall i | 0 <= i < |shown| ensures (shown + rest)[i] == shown[i] {
    }
    if NoneCircular(Items(shown + rest)) {
      forall i | 0 <= i < |shown| ensures NoneCircular(shown[i]) {
        assert NoneCircular((shown + rest)[i]);
      }
    }
  }

  lemma {:induction false} EachItemNoneCircular(heap: Heap, before: (string, string) -> bool, o: Options,
                                                items: seq<Datum>, seen: set<Ref>, depth: nat)
    requires Ordinary(heap)
    ensures var walk, met := ShowItems(heap, before, o, items, seen, depth), MetAmong(heap, before, o, items, depth);
            && |walk.shown| == |items|
            && ((forall i | 0 <= i < |items| :: NoneCircular(walk.shown[i])) <==> AllNew(met, seen))
            && (AllNew(met, seen) ==> walk.seen == seen + Refs(met))
    decreases Levels(o, depth), 2, |items|
  {
    hide NoneCircular, ShowDatum, Met, AllNew;
    NothingMet(seen);
    if items != [] {
      var n := |items| - 1;
      var front := ShowItems(heap, before, o, items[..n], seen, depth);
      var shown := ShowItems(heap, before, o, items, seen, depth).shown;
      var metFront, metLast := MetAmong(heap, before, o, items[..n], depth), Met(heap, before, o, items[n], depth);
      EachItemNoneCircular(heap, before, o, items[..n], seen, depth);
      NoneCircularExactly(heap, before, o, items[n], front.seen, depth);
      AllNewConcat(metFront, metLast, seen);
      assert forall i | 0 <= i < n :: shown[i] == front.shown[i];
      assert (forall i | 0 <= i < |items| :: NoneCircular(shown[i])) <==>
             (forall i | 0 <= i < n :: NoneCircular(front.shown[i])) && NoneCircular(shown[n]);
    }
  }

  lemma {:induction false} PlainNoneCircular(heap: Heap, before: (string, string) -> bool, o: Options, ref: Ref,
                                             seen: set<Ref>, depth: nat)
    requires Ordinary(heap) && depth < o.maxDepth && ref in heap && heap[ref].Plain?
    ensures var walk, met := ShowNode(heap, before, o, ref, heap[ref], seen, depth), Met(heap, before, o, Object(ref), depth);
            && (NoneCircular(walk.shown) <==> AllNew(met, seen))
            && (AllNew(met, seen) ==> walk.seen == seen + Refs(met))
    decreases Levels(o, depth), 0, 0
  {
    hide ShowFields, MetAmong, AllNew, MarkFields;
    var props := heap[ref].props;
    var part := First(Sort(props, ByKey(before)), o.maxObjectKeys);
    var met := MetAmong(heap, before, o, Data(part), depth + 1);
    OneMet(ref, seen);
    AllNewConcat([ref], met, seen);
    if ref !in seen {
      SortedProps(props, before);
      EachFieldNoneCircular(heap, before, o, part, seen + {ref}, depth + 1);
      FieldKeys(heap, before, o, part, seen + {ref}, depth + 1);
      var fields := ShowFields(heap, before, o, part, seen + {ref}, depth + 1).shown;
      MarkedNoneCircular(fields, |props|, o.maxObjectKeys);
    }
  }

  lemma OneMet(ref: Ref, seen: set<Ref>)
    ensures AllNew([ref], seen) <==> ref !in seen
    ensures Refs([ref]) == {ref}
  {
    assert [ref][0] == ref;
  }

  lemma MarkedNoneCircular(fields: seq<ShownField>, length: nat, limit: nat)
    requires forall i | 0 <= i < |fields| :: fields[i].key != TRUNCATED_KEYS
    ensures NoneCircular(Record(MarkFields(fields, length, limit))) <==> NoFieldCircular(fields)
  {
    if length > limit {
      AssignNew(fields, TRUNCATED_KEYS, Omitted(length - limit));
      var marked := MarkFields(fields, length, limit);
      assert forall i | 0 <= i < |fields| :: marked[i] == fields[i];
    }
  }

  ghost predicate NoFieldCircular(fields: seq<ShownField>) {
    forall i | 0 <= i < |fields| :: NoneCircular(fields[i].value)
  }

  lemma NoFieldCircularSnoc(front: seq<ShownField>, last: ShownField)
    ensures NoFieldCircular(front + [last]) <==> NoFieldCircular(front) && NoneCircular(last.value)
    ensures NoFieldCircular([])
  {
    hide NoneCircular;
    var fields := front + [last];
    assert forall i | 0 <= i < |front| :: fields[i] == front[i];
    assert fields[|front|] == last;
    if NoFieldCircular(fields) {
      assert forall i | 0 <= i < |front| :: NoneCircular(fields[i].value);
    }
  }

  lemma {:induction false} EachFieldNoneCircular(heap: Heap, before: (string, string) -> bool, o: Options,
                                                 props: seq<Named>, seen: set<Ref>, depth: nat)
    requires Ordinary(heap) && DistinctKeys(props)
    ensures var walk := ShowFields(heap, before, o, props, seen, depth);
            var met := MetAmong(heap, before, o, Data(props), depth);
            && (NoFieldCircular(walk.shown) <==> AllNew(met, seen))
            && (AllNew(met, seen) ==> walk.seen == seen + Refs(met))
    decreases Levels(o, depth), 2, |props|
  {
    hide NoneCircular, NoFieldCircular, ShowDatum, Met, AllNew, Data, Refs;
    NothingMet(seen);
    NoFieldCircularSnoc([], ShownField("", MaxDepth));
    if props == [] {
      NoData();
    } else {
      FieldsSnoc(heap, before, o, props, seen, depth);
      DataSnoc(props);
      hide ShowFields, DistinctKeys;
      var n := |props| - 1;
      var front := ShowFields(heap, before, o, props[..n], seen, depth);
      var last := ShowDatum(heap, before, o, props[n].datum, front.seen, depth);
      var metFront := MetAmong(heap, before, o, Data(props[..n]), depth);
      EachFieldNoneCircular(heap, before, o, props[..n], seen, depth);
      NoneCircularExactly(heap, before, o, props[n].datum, front.seen, depth);
      AllNewConcat(metFront, Met(heap, before, o, props[n].datum, depth), seen);
      NoFieldCircularSnoc(front.shown, ShownField(props[n].key, last.shown));
    }
  }

  lemma NoData()
    ensures Data([]) == []
  {
  }

  lemma DataSnoc(props: seq<Named>)
    requires props != []
    ensures var n := |props| - 1; Data(props)[..n] == Data(props[..n]) && Data(props)[n] == props[n].datum
  {
  }

  /** Something is shown as circular if and only if the limits let the unfolded heap meet a plain object twice. */
  lemma CircularExactly(heap: Heap, before: (string, string) -> bool, o: Options, d: Datum)
    requires Ordinary(heap)
    ensures var met := Met(heap, before, o, d, 0);
            !NoneCircular(ShowDatum(heap, before, o, d, {}, 0).shown) <==>
            exists i, j :: 0 <= i < j < |met| && met[i] == met[j]
  {
    NoneCircularExactly(heap, before, o, d, {}, 0);
  }

  /** An object that is merely referred to twice is shown as a cycle the second time. */
  lemma SharingLooksCircular(before: (string, string) -> bool, o: Options)
    requires before("a", "b") && o.maxDepth >= 2 && o.maxObjectKeys >= 2
    ensures var heap: Heap := map[0 := Plain([Named("a", Object(1)), Named("b", Object(1))]), 1 := Plain([])];
            ShowDatum(heap, before, o, Object(0), {}, 0).shown
            == Record([ShownField("a", Record([])), ShownField("b", Circular)])
  {
    var a, b := Named("a", Object(1)), Named("b", Object(1));
    var heap: Heap := map[0 := Plain([a, b]), 1 := Plain([])];
    assert [a, b][1..] == [b] && [b][1..] == [];
    assert Sort([b], ByKey(before)) == [b];
    assert Sort([a, b], ByKey(before)) == [a, b];
    assert [a, b][..1] == [a] && [a][..0] == [];
    assert ShowFields(heap, before, o, [], {0}, 1) == Walk([], {0});
    assert ShowFields(heap, before, o, [], {0} + {1}, 2) == Walk([], {0, 1});
    assert ShowDatum(heap, before, o, Object(1), {0}, 1) == Walk(Record([]), {0, 1});
    assert ShowDatum(heap, before, o, Object(1), {0, 1}, 1) == Walk(Circular, {0, 1});
    assert ShowFields(heap, before, o, [a], {0}, 1) == Walk([ShownField("a", Record([]))], {0, 1});
    assert "a" != "b";
    assert ShowFields(heap, before, o, [a, b], {0}, 1)
        == Walk(Assign([ShownField("a", Record([]))], "b", Circular), {0, 1});
    assert ShowNode(heap, before, o, 0, heap[0], {}, 0).shown
        == Record(MarkFields(ShowFields(heap, before, o, [a, b], {} + {0}, 1).shown, 2, o.maxObjectKeys));
    assert {} + {0} == {0};
    assert [ShownField("a", Record([]))][1..] == [];
    assert Assign([ShownField("a", Record([]))], "b", Circular)
        == [ShownField("a", Record([]))] + Assign([], "b", Circular);
  }
}
