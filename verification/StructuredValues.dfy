/**
 Structural equality, which the framework adapters use to tell whether a snapshot has changed. Values are snapshots:
 nothing changes inside one, so a reference always leads to the same contents.
 */
module StructuredValues {
  type Ref = nat

  /** `Scalar` is any primitive but NaN; `Opaque` is an object that is neither an array nor a plain object. */
  datatype Data =
    | NaN
    | Scalar(text: string)
    | Opaque(ref: Ref)
    | List(ref: Ref, items: seq<Data>)
    | Rec(ref: Ref, props: seq<Prop>)

  datatype Prop = Prop(key: string, value: Data)

  type Heap = map<Ref, Data>

  /** The value and all its parts are what the heap has under their references; keys are named once. */
  ghost predicate Lives(heap: Heap, v: Data)
    decreases v
  {
    match v
    case NaN => true
    case Scalar(_) => true
    case Opaque(ref) => ref in heap && heap[ref] == v
    case List(ref, items) => ref in heap && heap[ref] == v && forall i | 0 <= i < |items| :: Lives(heap, items[i])
    case Rec(ref, props) =>
      && ref in heap && heap[ref] == v
      && Distinct(props)
      && forall i | 0 <= i < |props| :: Lives(heap, props[i].value)
  }

  ghost predicate Distinct(props: seq<Prop>) {
    forall i, j | 0 <= i < j < |props| :: props[i].key != props[j].key
  }

  predicate IsObject(v: Data) {
    v.Opaque? || v.List? || v.Rec?
  }

  /** `a === b` */
  predicate Identical(a: Data, b: Data) {
    if IsObject(a) then IsObject(b) && a.ref == b.ref else a.Scalar? && a == b
  }

  lemma IdenticalLives(heap: Heap, a: Data, b: Data)
    requires Lives(heap, a) && Lives(heap, b) && Identical(a, b)
    ensures a == b
  {
  }

  // ---------------------------------------------------------------- the relation

  ghost predicate Has(props: seq<Prop>, key: string) {
    exists i | 0 <= i < |props| :: props[i].key == key
  }

  /** The same keys on both sides, with equal values. */
  ghost predicate EqualProps(f: seq<Prop>, g: seq<Prop>)
    decreases f
  {
    && (forall i | 0 <= i < |f| :: Has(g, f[i].key))
    && (forall j | 0 <= j < |g| :: Has(f, g[j].key))
    && (forall i, j | 0 <= i < |f| && 0 <= j < |g| && f[i].key == g[j].key :: Equal(f[i].value, g[j].value))
  }

  ghost predicate Equal(a: Data, b: Data)
    decreases a
  {
    || Identical(a, b)
    || (a.List? && b.List? && |a.items| == |b.items| && forall i | 0 <= i < |a.items| :: Equal(a.items[i], b.items[i]))
    || (a.Rec? && b.Rec? && EqualProps(a.props, b.props))
  }

  function Visible(props: seq<Prop>): seq<Prop> {
    if props == [] then []
    else (if props[0].key != "lastSeen" then [props[0]] else []) + Visible(props[1..])
  }

  /** Peers are objects; when they were last seen does not matter. */
  ghost predicate PeersEqual(a: Data, b: Data)
    requires a.Rec? && b.Rec?
  {
    Identical(a, b) || EqualProps(Visible(a.props), Visible(b.props))
  }

  // ---------------------------------------------------------------- it is an equivalence

  lemma EqualReflexive(a: Data)
    ensures Equal(a, a) <==> a != NaN
  {
  }

  lemma {:induction false} EqualSymmetric(a: Data, b: Data)
    requires Equal(a, b)
    ensures Equal(b, a)
    decreases a
  {
    if !Identical(a, b) {
      if a.List? {
        forall i | 0 <= i < |b.items| ensures Equal(b.items[i], a.items[i]) {
          EqualSymmetric(a.items[i], b.items[i]);
        }
      } else {
        EqualPropsSymmetric(a.props, b.props);
      }
    }
  }

  lemma {:induction false} EqualPropsSymmetric(f: seq<Prop>, g: seq<Prop>)
    requires EqualProps(f, g)
    ensures EqualProps(g, f)
    decreases f
  {
    forall i, j | 0 <= i < |g| && 0 <= j < |f| && g[i].key == f[j].key
      ensures Equal(g[i].value, f[j].value)
    {
      EqualSymmetric(f[j].value, g[i].value);
    }
  }

  lemma {:induction false} EqualTransitive(heap: Heap, a: Data, b: Data, c: Data)
    requires Lives(heap, a) && Lives(heap, b) && Lives(heap, c)
    requires Equal(a, b) && Equal(b, c)
    ensures Equal(a, c)
    decreases a
  {
    if Identical(a, b) {
      IdenticalLives(heap, a, b);
    } else if Identical(b, c) {
      IdenticalLives(heap, b, c);
    } else if a.List? {
      forall i | 0 <= i < |a.items| ensures Equal(a.items[i], c.items[i]) {
        EqualTransitive(heap, a.items[i], b.items[i], c.items[i]);
      }
    } else {
      EqualPropsTransitive(heap, a.props, b.props, c.props);
    }
  }

  ghost predicate LivingProps(heap: Heap, props: seq<Prop>) {
    Distinct(props) && forall i | 0 <= i < |props| :: Lives(heap, props[i].value)
  }

  lemma {:induction false} EqualPropsTransitive(heap: Heap, f: seq<Prop>, g: seq<Prop>, h: seq<Prop>)
    requires LivingProps(heap, f) && LivingProps(heap, g) && LivingProps(heap, h)
    requires EqualProps(f, g) && EqualProps(g, h)
    ensures EqualProps(f, h)
    decreases f
  {
    forall i | 0 <= i < |f| ensures Has(h, f[i].key) {
      assert Has(g, f[i].key);
      var j :| 0 <= j < |g| && g[j].key == f[i].key;
      assert Has(h, g[j].key);
    }
    forall k | 0 <= k < |h| ensures Has(f, h[k].key) {
      assert Has(g, h[k].key);
      var j :| 0 <= j < |g| && g[j].key == h[k].key;
      assert Has(f, g[j].key);
    }
    forall i, k | 0 <= i < |f| && 0 <= k < |h| && f[i].key == h[k].key
      ensures Equal(f[i].value, h[k].value)
    {
      assert Has(g, f[i].key);
      var j :| 0 <= j < |g| && g[j].key == f[i].key;
      EqualTransitive(heap, f[i].value, g[j].value, h[k].value);
    }
  }

  lemma {:induction false} VisibleLives(heap: Heap, props: seq<Prop>)
    requires LivingProps(heap, props)
    ensures LivingProps(heap, Visible(props))
    ensures forall p | p in Visible(props) :: p in props && p.key != "lastSeen"
    ensures forall p | p in props && p.key != "lastSeen" :: p in Visible(props)
  {
    if props != [] {
      VisibleLives(heap, props[1..]);
      var rest := Visible(props[1..]);
      forall i | 0 <= i < |rest| ensures rest[i].key != props[0].key {
        assert rest[i] in props[1..];
      }
    }
  }

  lemma PeersEqualIsEquivalence(heap: Heap, a: Data, b: Data, c: Data)
    requires Lives(heap, a) && Lives(heap, b) && Lives(heap, c) && a.Rec? && b.Rec? && c.Rec?
    ensures PeersEqual(a, a)
    ensures PeersEqual(a, b) ==> PeersEqual(b, a)
    ensures PeersEqual(a, b) && PeersEqual(b, c) ==> PeersEqual(a, c)
  {
    VisibleLives(heap, a.props);
    VisibleLives(heap, b.props);
    VisibleLives(heap, c.props);
    if EqualProps(Visible(a.props), Visible(b.props)) {
      EqualPropsSymmetric(Visible(a.props), Visible(b.props));
    }
    if PeersEqual(a, b) && PeersEqual(b, c) {
      if Identical(a, b) {
        IdenticalLives(heap, a, b);
      } else if Identical(b, c) {
        IdenticalLives(heap, b, c);
      } else {
        EqualPropsTransitive(heap, Visible(a.props), Visible(b.props), Visible(c.props));
      }
    }
  }

  /** Whatever else differs, peers that differ only in `lastSeen` are equal. */
  lemma LastSeenDoesNotMatter(heap: Heap, a: Data, b: Data)
    requires Lives(heap, a) && Lives(heap, b) && a.Rec? && b.Rec?
    requires forall p: Prop | p.key != "lastSeen" :: p in a.props <==> p in b.props
    requires forall p | p in a.props :: p.key != "lastSeen" ==> p.value != NaN
    ensures PeersEqual(a, b)
  {
    var f, g := Visible(a.props), Visible(b.props);
    VisibleLives(heap, a.props);
    VisibleLives(heap, b.props);
    forall i | 0 <= i < |f| ensures Has(g, f[i].key) {
      assert f[i] in g;
    }
    forall j | 0 <= j < |g| ensures Has(f, g[j].key) {
      assert g[j] in f;
    }
    forall i, j | 0 <= i < |f| && 0 <= j < |g| && f[i].key == g[j].key
      ensures Equal(f[i].value, g[j].value)
    {
      assert f[i] in g;
      assert f[i] == g[j];
    }
  }

  // ---------------------------------------------------------------- what it tells apart

  datatype Move = Index(i: nat) | Key(key: string)

  /** What can be seen at a place: a scalar, an object that is only itself, how long a list is, which keys there are. */
  datatype Sight = SawNothing | SawNaN | SawScalar(text: string) | SawOpaque(ref: Ref) | SawList(length: nat) | SawKeys(keys: set<string>)

  ghost function Look(v: Data): Sight {
    match v
    case NaN => SawNaN
    case Scalar(text) => SawScalar(text)
    case Opaque(ref) => SawOpaque(ref)
    case List(_, items) => SawList(|items|)
    case Rec(_, props) => SawKeys(KeySet(props))
  }

  ghost function See(v: Data, path: seq<Move>): Sight
    decreases |path|
  {
    if path == [] then Look(v)
    else
      match path[0]
      case Index(i) => if v.List? && i < |v.items| then See(v.items[i], path[1..]) else SawNothing
      case Key(key) => if v.Rec? && Has(v.props, key) then See(PropAt(v.props, key), path[1..]) else SawNothing
  }

  ghost function PropAt(props: seq<Prop>, key: string): Data
    requires Has(props, key)
  {
    var i :| 0 <= i < |props| && props[i].key == key;
    props[i].value
  }

  ghost function KeySet(props: seq<Prop>): set<string> {
    set i | 0 <= i < |props| :: props[i].key
  }

  ghost predicate NaNFree(v: Data)
    decreases v
  {
    match v
    case NaN => false
    case List(_, items) => forall i | 0 <= i < |items| :: NaNFree(items[i])
    case Rec(_, props) => forall i | 0 <= i < |props| :: NaNFree(props[i].value)
    case _ => true
  }

  lemma {:induction false} EqualLooksSame(heap: Heap, a: Data, b: Data, path: seq<Move>)
    requires Lives(heap, a) && Lives(heap, b) && Equal(a, b)
    ensures See(a, path) == See(b, path)
    decreases |path|
  {
    if Identical(a, b) {
      IdenticalLives(heap, a, b);
    } else if path == [] {
      if a.Rec? {
        SameKeySet(a.props, b.props);
      }
    } else {
      match path[0]
      case Index(i) =>
        if a.List? && i < |a.items| {
          EqualLooksSame(heap, a.items[i], b.items[i], path[1..]);
        }
      case Key(key) =>
        if a.Rec? && Has(a.props, key) {
          var i :| 0 <= i < |a.props| && a.props[i].key == key && PropAt(a.props, key) == a.props[i].value;
          assert Has(b.props, a.props[i].key);
          var j :| 0 <= j < |b.props| && b.props[j].key == key && PropAt(b.props, key) == b.props[j].value;
          EqualLooksSame(heap, a.props[i].value, b.props[j].value, path[1..]);
        }
        if a.Rec? {
          EqualPropsHas(a.props, b.props, key);
        }
    }
  }

  lemma EqualPropsHas(f: seq<Prop>, g: seq<Prop>, key: string)
    requires EqualProps(f, g)
    ensures Has(f, key) <==> Has(g, key)
  {
    if Has(f, key) {
      var i :| 0 <= i < |f| && f[i].key == key;
      assert Has(g, f[i].key);
    }
    if Has(g, key) {
      var j :| 0 <= j < |g| && g[j].key == key;
      assert Has(f, g[j].key);
    }
  }

  lemma SameKeySet(f: seq<Prop>, g: seq<Prop>)
    ensures KeySet(f) == KeySet(g) <==>
            (forall i | 0 <= i < |f| :: Has(g, f[i].key)) && (forall j | 0 <= j < |g| :: Has(f, g[j].key))
  {
    assert forall i | 0 <= i < |f| :: f[i].key in KeySet(f);
    assert forall j | 0 <= j < |g| :: g[j].key in KeySet(g);
    forall i | 0 <= i < |f| ensures f[i].key in KeySet(g) <==> Has(g, f[i].key) {
    }
    forall j | 0 <= j < |g| ensures g[j].key in KeySet(f) <==> Has(f, g[j].key) {
    }
  }

  /** Two values that are not equal differ somewhere, in plain sight. */
  lemma {:induction false} DifferentLooksDifferent(heap: Heap, a: Data, b: Data) returns (path: seq<Move>)
    requires Lives(heap, a) && Lives(heap, b) && NaNFree(a) && NaNFree(b) && !Equal(a, b)
    ensures See(a, path) != See(b, path)
    decreases a
  {
    if a.List? && b.List? && |a.items| == |b.items| {
      var i :| 0 <= i < |a.items| && !Equal(a.items[i], b.items[i]);
      var rest := DifferentLooksDifferent(heap, a.items[i], b.items[i]);
      path := [Index(i)] + rest;
      assert path[1..] == rest;
      hide Equal, Lives, NaNFree;
    } else if a.Rec? && b.Rec? && KeySet(a.props) == KeySet(b.props) {
      SameKeySet(a.props, b.props);
      var i, j :| 0 <= i < |a.props| && 0 <= j < |b.props| && a.props[i].key == b.props[j].key
                  && !Equal(a.props[i].value, b.props[j].value);
      var rest := DifferentLooksDifferent(heap, a.props[i].value, b.props[j].value);
      path := [Key(a.props[i].key)] + rest;
      assert path[1..] == rest;
      PropIs(a.props, i);
      PropIs(b.props, j);
      hide Equal, Lives, NaNFree;
    } else {
      path := [];
    }
  }

  lemma PropIs(props: seq<Prop>, i: nat)
    requires Distinct(props) && i < |props|
    ensures Has(props, props[i].key) && PropAt(props, props[i].key) == props[i].value
  {
  }

  /** Without NaN, values are equal if and only if no place tells them apart. */
  lemma EqualExactly(heap: Heap, a: Data, b: Data)
    requires Lives(heap, a) && Lives(heap, b) && NaNFree(a) && NaNFree(b)
    ensures Equal(a, b) <==> forall path :: See(a, path) == See(b, path)
  {
    if Equal(a, b) {
      forall path ensures See(a, path) == See(b, path) {
        EqualLooksSame(heap, a, b, path);
      }
    } else {
      var path := DifferentLooksDifferent(heap, a, b);
    }
  }

  /** Peers are equal if and only if they are the same object or agree on every key but `lastSeen`. */
  lemma PeersEqualExactly(heap: Heap, a: Data, b: Data)
    requires Lives(heap, a) && Lives(heap, b) && a.Rec? && b.Rec?
    ensures PeersEqual(a, b) <==>
            || a.ref == b.ref
            || forall key | key != "lastSeen" ::
                 && (Has(a.props, key) <==> Has(b.props, key))
                 && (Has(a.props, key) && Has(b.props, key) ==> Equal(PropAt(a.props, key), PropAt(b.props, key)))
  {
    var f, g := Visible(a.props), Visible(b.props);
    VisibleLives(heap, a.props);
    VisibleLives(heap, b.props);
    forall key | key != "lastSeen"
      ensures Has(a.props, key) <==> Has(f, key)
      ensures Has(b.props, key) <==> Has(g, key)
      ensures Has(f, key) ==> PropAt(f, key) == PropAt(a.props, key)
      ensures Has(g, key) ==> PropAt(g, key) == PropAt(b.props, key)
    {
      VisibleProp(heap, a.props, key);
      VisibleProp(heap, b.props, key);
    }
    EqualPropsByKey(f, g);
    forall key ensures Has(f, key) || Has(g, key) ==> key != "lastSeen" {
      if Has(f, key) {
        var i :| 0 <= i < |f| && f[i].key == key;
        assert f[i] in f;
      }
      if Has(g, key) {
        var j :| 0 <= j < |g| && g[j].key == key;
        assert g[j] in g;
      }
    }
  }

  lemma VisibleProp(heap: Heap, props: seq<Prop>, key: string)
    requires LivingProps(heap, props) && key != "lastSeen"
    ensures Has(props, key) <==> Has(Visible(props), key)
    ensures Has(props, key) ==> PropAt(Visible(props), key) == PropAt(props, key)
  {
    VisibleLives(heap, props);
    var visible := Visible(props);
    if Has(props, key) {
      var i :| 0 <= i < |props| && props[i].key == key;
      assert props[i] in visible;
      var j :| 0 <= j < |visible| && visible[j] == props[i];
      PropIs(props, i);
      PropIs(visible, j);
    }
    if Has(visible, key) {
      var j :| 0 <= j < |visible| && visible[j].key == key;
      assert visible[j] in props;
    }
  }

  lemma EqualPropsByKey(f: seq<Prop>, g: seq<Prop>)
    requires Distinct(f) && Distinct(g)
    ensures EqualProps(f, g) <==>
            forall key :: && (Has(f, key) <==> Has(g, key))
                          && (Has(f, key) && Has(g, key) ==> Equal(PropAt(f, key), PropAt(g, key)))
  {
    if EqualProps(f, g) {
      forall key
        ensures Has(f, key) <==> Has(g, key)
        ensures Has(f, key) && Has(g, key) ==> Equal(PropAt(f, key), PropAt(g, key))
      {
        if Has(f, key) {
          var i :| 0 <= i < |f| && f[i].key == key && PropAt(f, key) == f[i].value;
          assert Has(g, f[i].key);
        }
        if Has(g, key) {
          var j :| 0 <= j < |g| && g[j].key == key && PropAt(g, key) == g[j].value;
          assert Has(f, g[j].key);
        }
      }
    }
    if forall key :: && (Has(f, key) <==> Has(g, key))
                     && (Has(f, key) && Has(g, key) ==> Equal(PropAt(f, key), PropAt(g, key))) {
      forall i | 0 <= i < |f| ensures Has(f, f[i].key) {
      }
      forall j | 0 <= j < |g| ensures Has(g, g[j].key) {
      }
      forall i, j | 0 <= i < |f| && 0 <= j < |g| && f[i].key == g[j].key ensures Equal(f[i].value, g[j].value) {
        PropIs(f, i);
        PropIs(g, j);
      }
    }
  }

  // ---------------------------------------------------------------- the comparison

  lemma {:induction false} KeySetSize(props: seq<Prop>)
    requires Distinct(props)
    ensures |KeySet(props)| == |props|
  {
    if props != [] {
      var front, last := props[..|props| - 1], props[|props| - 1];
      KeySetSize(front);
      assert KeySet(props) == KeySet(front) + {last.key};
    }
  }

  /** Counting keys makes one direction enough. */
  lemma SameCountSameKeys(f: seq<Prop>, g: seq<Prop>)
    requires Distinct(f) && Distinct(g) && |f| == |g|
    requires forall i | 0 <= i < |f| :: Has(g, f[i].key)
    ensures forall j | 0 <= j < |g| :: Has(f, g[j].key)
  {
    KeySetSize(f);
    KeySetSize(g);
    assert KeySet(f) <= KeySet(g);
    assert KeySet(g) == KeySet(f) + (KeySet(g) - KeySet(f));
    forall j | 0 <= j < |g| ensures Has(f, g[j].key) {
      assert g[j].key in KeySet(g);
    }
  }

  lemma EqualPropsSameCount(f: seq<Prop>, g: seq<Prop>)
    requires Distinct(f) && Distinct(g) && EqualProps(f, g)
    ensures |f| == |g|
  {
    KeySetSize(f);
    KeySetSize(g);
    assert KeySet(f) == KeySet(g);
  }

  method FindKey(props: seq<Prop>, key: string) returns (found: int)
    ensures Has(props, key) <==> found >= 0
    ensures found >= 0 ==> found < |props| && props[found].key == key
  {
    for i := 0 to |props|
      invariant forall k | 0 <= k < i :: props[k].key != key
    {
      if props[i].key == key {
        return i;
      }
    }
    found := -1;
  }

  method ArePropsEqual(ghost heap: Heap, f: seq<Prop>, g: seq<Prop>) returns (equal: bool)
    requires LivingProps(heap, f) && LivingProps(heap, g)
    ensures equal <==> EqualProps(f, g)
    decreases f
  {
    if |f| != |g| {
      if EqualProps(f, g) {
        EqualPropsSameCount(f, g);
      }
      return false;
    }
    for n := 0 to |f|
      invariant forall i | 0 <= i < n :: Has(g, f[i].key)
      invariant forall i, j | 0 <= i < n && 0 <= j < |g| && f[i].key == g[j].key :: Equal(f[i].value, g[j].value)
    {
      var at := FindKey(g, f[n].key);
      if at < 0 {
        return false;
      }
      var same := AreStructuredValuesEqual(heap, f[n].value, g[at].value);
      if !same {
        return false;
      }
    }
    SameCountSameKeys(f, g);
    equal := true;
  }

  method AreStructuredValuesEqual(ghost heap: Heap, previous: Data, next: Data) returns (equal: bool)
    requires Lives(heap, previous) && Lives(heap, next)
    ensures equal <==> Equal(previous, next)
    decreases previous
  {
    if Identical(previous, next) {
      return true;
    }
    if previous.List? || next.List? {
      if !previous.List? || !next.List? || |previous.items| != |next.items| {
        return false;
      }
      for n := 0 to |previous.items|
        invariant forall i | 0 <= i < n :: Equal(previous.items[i], next.items[i])
      {
        var same := AreStructuredValuesEqual(heap, previous.items[n], next.items[n]);
        if !same {
          return false;
        }
      }
      return true;
    }
    if !previous.Rec? || !next.Rec? {
      return false;
    }
    equal := ArePropsEqual(heap, previous.props, next.props);
  }

  method ArePeersEqual(ghost heap: Heap, previous: Data, next: Data) returns (equal: bool)
    requires Lives(heap, previous) && Lives(heap, next) && previous.Rec? && next.Rec?
    ensures equal <==> PeersEqual(previous, next)
  {
    if Identical(previous, next) {
      return true;
    }
    VisibleLives(heap, previous.props);
    VisibleLives(heap, next.props);
    equal := ArePropsEqual(heap, Visible(previous.props), Visible(next.props));
  }
}
