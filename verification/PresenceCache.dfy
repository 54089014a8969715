/** The cache behind the presence hook: one object with three parts, each kept for as long as it stays equal. */
module PresenceCache {
  import opened StructuredValues
  import opened SnapshotCaches

  datatype View = View(ref: Ref, self: Data, others: Snapshot, all: Snapshot)

  datatype Cached = Nothing | Cached(room: Ref, engine: Ref, view: View)

  /** What the engine returns for a read, with the identity of the object the read may have to build. */
  datatype Look = Look(room: Ref, engine: Ref, next: View)

  ghost predicate Alive(heap: Heap, v: View) {
    v.self.Rec? && Lives(heap, v.self) && Objects(heap, v.others) && Objects(heap, v.all)
  }

  ghost predicate PartsEqual(heap: Heap, a: View, b: View)
    requires Alive(heap, a) && Alive(heap, b)
  {
    PeersEqual(a.self, b.self) && ListsEqual(heap, Peers, a.others, b.others) && ListsEqual(heap, Peers, a.all, b.all)
  }

  ghost function Renewed(heap: Heap, a: View, b: View): (v: View)
    requires Alive(heap, a) && Alive(heap, b)
    ensures Alive(heap, v)
  {
    View(b.ref,
         if PeersEqual(a.self, b.self) then a.self else b.self,
         if ListsEqual(heap, Peers, a.others, b.others) then a.others else b.others,
         if ListsEqual(heap, Peers, a.all, b.all) then a.all else b.all)
  }

  ghost function ReadView(heap: Heap, cached: Cached, look: Look): (v: View)
    requires Alive(heap, look.next) && (cached.Cached? ==> Alive(heap, cached.view))
    ensures Alive(heap, v)
  {
    if cached.Nothing? || cached.room != look.room || cached.engine != look.engine then look.next
    else if PartsEqual(heap, cached.view, look.next) then cached.view
    else Renewed(heap, cached.view, look.next)
  }

  class PresenceViewCache {
    var current: Cached
    const lists: ListCache

    constructor ()
      ensures current == Nothing && lists.kind == Peers
    {
      current := Nothing;
      lists := new ListCache(Peers);
    }

    method ReadPresence(ghost heap: Heap, look: Look) returns (view: View)
      requires lists.kind == Peers
      requires Alive(heap, look.next) && (current.Cached? ==> Alive(heap, current.view))
      requires current.Cached? ==>
                 && (current.view.all.ref == look.next.all.ref ==> current.view.all == look.next.all)
                 && (current.view.others.ref == look.next.others.ref ==> current.view.others == look.next.others)
      modifies this
      ensures view == ReadView(heap, old(current), look)
      ensures current == Cached(look.room, look.engine, view)
    {
      var next := look.next;
      if current.Cached? && current.room == look.room && current.engine == look.engine {
        var previous := current.view;
        var isAllEqual := lists.AreListsEqual(heap, previous.all, next.all);
        var isSelfEqual := ArePeersEqual(heap, previous.self, next.self);
        var isOthersEqual := lists.AreListsEqual(heap, previous.others, next.others);
        if isAllEqual && isSelfEqual && isOthersEqual {
          return previous;
        }
        view := View(next.ref,
                     if isSelfEqual then previous.self else next.self,
                     if isOthersEqual then previous.others else next.others,
                     if isAllEqual then previous.all else next.all);
        current := Cached(look.room, look.engine, view);
        return;
      }
      current := Cached(look.room, look.engine, next);
      view := next;
    }
  }

  // ---------------------------------------------------------------- one read after another

  /** Arrays of one identity are the same array, and each read that builds an object builds a new one. */
  ghost predicate Looks(heap: Heap, looks: seq<Look>) {
    && (forall i | 0 <= i < |looks| :: Alive(heap, looks[i].next))
    && (forall i, j | 0 <= i < j < |looks| ::
          && looks[i].next.ref != looks[j].next.ref
          && (looks[i].next.all.ref == looks[j].next.all.ref ==> looks[i].next.all == looks[j].next.all)
          && (looks[i].next.others.ref == looks[j].next.others.ref ==> looks[i].next.others == looks[j].next.others))
  }

  ghost function CachedAfter(heap: Heap, looks: seq<Look>, n: nat): (cached: Cached)
    requires Looks(heap, looks) && n <= |looks|
    ensures cached.Nothing? <==> n == 0
    ensures cached.Cached? ==> Alive(heap, cached.view)
  {
    if n == 0 then Nothing
    else
      var look := looks[n - 1];
      Cached(look.room, look.engine, ReadView(heap, CachedAfter(heap, looks, n - 1), look))
  }

  ghost function ViewAt(heap: Heap, looks: seq<Look>, i: nat): (v: View)
    requires Looks(heap, looks) && i < |looks|
    ensures Alive(heap, v)
  {
    CachedAfter(heap, looks, i + 1).view
  }

  lemma PartsReflexive(heap: Heap, a: View)
    requires Alive(heap, a)
    ensures PartsEqual(heap, a, a)
  {
    PeersEqualIsEquivalence(heap, a.self, a.self, a.self);
    ListReflexive(heap, a.others);
    ListReflexive(heap, a.all);
  }

  lemma ListReflexive(heap: Heap, a: Snapshot)
    requires Objects(heap, a)
    ensures ListsEqual(heap, Peers, a, a)
  {
    forall k | 0 <= k < |a.items| ensures ItemsEqual(Peers, a.items[k], a.items[k]) {
      ItemsEqualIsEquivalence(heap, Peers, a.items[k], a.items[k], a.items[k]);
    }
  }

  /** What a read returns is equal, part by part, to what the engine has at that moment. */
  lemma ViewIsCurrent(heap: Heap, looks: seq<Look>, i: nat)
    requires Looks(heap, looks) && i < |looks|
    ensures PartsEqual(heap, ViewAt(heap, looks, i), looks[i].next)
  {
    PartsReflexive(heap, looks[i].next);
  }

  /** With another room or engine than the read before, a read returns the engine's own object. */
  lemma ViewStartsOver(heap: Heap, looks: seq<Look>, i: nat)
    requires Looks(heap, looks) && i < |looks|
    requires i > 0 ==> looks[i - 1].room != looks[i].room || looks[i - 1].engine != looks[i].engine
    ensures ViewAt(heap, looks, i) == looks[i].next
  {
    if i > 0 {
      var before := CachedAfter(heap, looks, i);
      assert before.room == looks[i - 1].room && before.engine == looks[i - 1].engine;
    }
  }

  /** An object, and each list in it, comes from one of the reads so far. */
  lemma {:induction false} ViewOrigin(heap: Heap, looks: seq<Look>, i: nat)
    requires Looks(heap, looks) && i < |looks|
    ensures var v := ViewAt(heap, looks, i);
            && (exists k | 0 <= k <= i :: v.ref == looks[k].next.ref)
            && (exists k | 0 <= k <= i :: v.all == looks[k].next.all)
            && (exists k | 0 <= k <= i :: v.others == looks[k].next.others)
  {
    var v := ViewAt(heap, looks, i);
    if v == looks[i].next {
      assert 0 <= i <= i;
    } else {
      ViewOrigin(heap, looks, i - 1);
      var u := ViewAt(heap, looks, i - 1);
      assert v.ref == u.ref || v.ref == looks[i].next.ref;
      assert v.all == u.all || v.all == looks[i].next.all;
      assert v.others == u.others || v.others == looks[i].next.others;
    }
  }

  lemma ListKept(heap: Heap, v: Snapshot, p: Snapshot, q: Snapshot)
    requires Objects(heap, v) && Objects(heap, p) && Objects(heap, q)
    requires ListsEqual(heap, Peers, v, p)
    ensures ListsEqual(heap, Peers, v, q) <==> ListsEqual(heap, Peers, p, q)
  {
    ListsEqualSymmetric(heap, Peers, v, p);
    if ListsEqual(heap, Peers, v, q) {
      ListsEqualTransitive(heap, Peers, p, v, q);
    }
    if ListsEqual(heap, Peers, p, q) {
      ListsEqualTransitive(heap, Peers, v, p, q);
    }
  }

  lemma PeerKept(heap: Heap, v: Data, p: Data, q: Data)
    requires Lives(heap, v) && Lives(heap, p) && Lives(heap, q) && v.Rec? && p.Rec? && q.Rec?
    requires PeersEqual(v, p)
    ensures PeersEqual(v, q) <==> PeersEqual(p, q)
  {
    PeersEqualIsEquivalence(heap, v, p, q);
    PeersEqualIsEquivalence(heap, p, v, q);
  }

  /** Of two reads in a row, the second returns the first one's object exactly when all three parts stay equal. */
  lemma ViewKeptExactly(heap: Heap, looks: seq<Look>, i: nat)
    requires Looks(heap, looks) && i + 1 < |looks|
    requires looks[i].room == looks[i + 1].room && looks[i].engine == looks[i + 1].engine
    ensures var v, w := ViewAt(heap, looks, i), ViewAt(heap, looks, i + 1);
            && (w.ref == v.ref <==> PartsEqual(heap, looks[i].next, looks[i + 1].next))
            && (w.ref == v.ref ==> w == v)
  {
    var v, p, q := ViewAt(heap, looks, i), looks[i].next, looks[i + 1].next;
    ViewIsCurrent(heap, looks, i);
    ViewOrigin(heap, looks, i);
    PeerKept(heap, v.self, p.self, q.self);
    ListKept(heap, v.others, p.others, q.others);
    ListKept(heap, v.all, p.all, q.all);
  }

  /** Each part is kept exactly when it stays equal, whatever becomes of the others. */
  lemma PartsKeptExactly(heap: Heap, looks: seq<Look>, i: nat)
    requires Looks(heap, looks) && i + 1 < |looks|
    requires looks[i].room == looks[i + 1].room && looks[i].engine == looks[i + 1].engine
    ensures var v, w := ViewAt(heap, looks, i), ViewAt(heap, looks, i + 1);
            var p, q := looks[i].next, looks[i + 1].next;
            && (Identical(v.self, w.self) <==> PeersEqual(p.self, q.self))
            && (v.others.ref == w.others.ref <==> ListsEqual(heap, Peers, p.others, q.others))
            && (v.all.ref == w.all.ref <==> ListsEqual(heap, Peers, p.all, q.all))
  {
    var v, p, q := ViewAt(heap, looks, i), looks[i].next, looks[i + 1].next;
    ViewIsCurrent(heap, looks, i);
    ViewOrigin(heap, looks, i);
    PeerKept(heap, v.self, p.self, q.self);
    ListKept(heap, v.others, p.others, q.others);
    ListKept(heap, v.all, p.all, q.all);
    ListReflexive(heap, q.others);
    ListReflexive(heap, q.all);
  }
}
