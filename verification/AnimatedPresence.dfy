/** The list behind the presence animation: peers that are here, and those on their way out, each in their place. */
module AnimatedPresence {
  import opened RelayTypes
  import opened StableSort

  /** `version` stands for the identity of the peer object. */
  datatype Peer = Peer(id: string, version: nat)

  datatype Phase = Entering | Entered | Exiting

  datatype Item = Item(order: nat, peer: Peer, phase: Phase)

  ghost predicate DistinctPeers(peers: seq<Peer>) {
    forall i, j | 0 <= i < j < |peers| :: peers[i].id != peers[j].id
  }

  function IdOf(item: Item): string {
    item.peer.id
  }

  ghost predicate DistinctItems(items: seq<Item>) {
    forall i, j | 0 <= i < j < |items| :: items[i].peer.id != items[j].peer.id
  }

  function Compare(a: Item, b: Item): int {
    if a.order != b.order then a.order - b.order
    else if a.phase == b.phase then 0
    else if a.phase.Exiting? then 1
    else if b.phase.Exiting? then -1
    else 0
  }

  function MayPrecede(): (Item, Item) -> bool {
    (a: Item, b: Item) => Compare(a, b) <= 0
  }

  lemma CompareIsPreorder()
    ensures TotalPreorder(MayPrecede())
  {
  }

  // ---------------------------------------------------------------- merging

  /** Of several items with one id, the last. */
  function Find(items: seq<Item>, id: string): Option<Item> {
    if items == [] then None
    else if items[|items| - 1].peer.id == id then Some(items[|items| - 1])
    else Find(items[..|items| - 1], id)
  }

  function PhaseOf(current: seq<Item>, id: string): Phase {
    match Find(current, id)
    case None => Entering
    case Some(item) => if item.phase.Exiting? then Entered else item.phase
  }

  function Staying(current: seq<Item>, next: seq<Peer>): seq<Item> {
    seq(|next|, i requires 0 <= i < |next| => Item(i, next[i], PhaseOf(current, next[i].id)))
  }

  predicate IsHere(next: seq<Peer>, id: string) {
    exists i | 0 <= i < |next| :: next[i].id == id
  }

  function Leaving(current: seq<Item>, next: seq<Peer>): seq<Item> {
    if current == [] then []
    else
      (if IsHere(next, current[0].peer.id) then [] else [current[0].(phase := Exiting)]) + Leaving(current[1..], next)
  }

  function Merge(current: seq<Item>, next: seq<Peer>): seq<Item> {
    Sort(Staying(current, next) + Leaving(current, next), MayPrecede())
  }

  lemma {:induction false} LeavingConcat(a: seq<Item>, b: seq<Item>, next: seq<Peer>)
    ensures Leaving(a + b, next) == Leaving(a, next) + Leaving(b, next)
  {
    if a == [] {
      assert a + b == b;
    } else {
      assert (a + b)[1..] == a[1..] + b;
      LeavingConcat(a[1..], b, next);
    }
  }

  method MergeAnimatedPeers(currentItems: seq<Item>, nextPeers: seq<Peer>) returns (merged: seq<Item>)
    ensures merged == Merge(currentItems, nextPeers)
  {
    var currentById: map<string, Item> := map[];
    for n := 0 to |currentItems|
      invariant forall id :: id in currentById <==> Find(currentItems[..n], id).Some?
      invariant forall id | id in currentById :: Find(currentItems[..n], id) == Some(currentById[id])
    {
      var item := currentItems[n];
      assert currentItems[..n + 1] == currentItems[..n] + [item];
      currentById := currentById[item.peer.id := item];
    }
    assert currentItems[..|currentItems|] == currentItems;

    var nextPeerIds: set<string> := {};
    var nextItems: seq<Item> := [];
    for n := 0 to |nextPeers|
      invariant forall id :: id in nextPeerIds <==> exists i | 0 <= i < n :: nextPeers[i].id == id
      invariant nextItems == Staying(currentItems, nextPeers)[..n]
    {
      var peer := nextPeers[n];
      var phase := Entering;
      if peer.id in currentById {
        var existing := currentById[peer.id];
        phase := if existing.phase.Exiting? then Entered else existing.phase;
      }
      nextPeerIds := nextPeerIds + {peer.id};
      nextItems := nextItems + [Item(n, peer, phase)];
    }

    assert Staying(currentItems, nextPeers)[..|nextPeers|] == Staying(currentItems, nextPeers);
    for n := 0 to |currentItems|
      invariant nextItems + Leaving(currentItems[n..], nextPeers)
                == Staying(currentItems, nextPeers) + Leaving(currentItems, nextPeers)
    {
      var item := currentItems[n];
      assert currentItems[n..][1..] == currentItems[n + 1..];
      assert item.peer.id in nextPeerIds <==> IsHere(nextPeers, item.peer.id);
      if item.peer.id !in nextPeerIds {
        nextItems := nextItems + [Item(item.order, item.peer, Exiting)];
      }
    }
    assert currentItems[|currentItems|..] == [];
    assert nextItems + Leaving([], nextPeers) == nextItems;
    merged := Sort(nextItems, MayPrecede());
  }

  method AreAnimatedPeerArraysEqual(currentItems: seq<Item>, nextItems: seq<Item>) returns (equal: bool)
    ensures equal <==> currentItems == nextItems
  {
    if |currentItems| != |nextItems| {
      return false;
    }
    for n := 0 to |currentItems|
      invariant currentItems[..n] == nextItems[..n]
    {
      var current, next := currentItems[n], nextItems[n];
      if current.order != next.order || current.phase != next.phase || current.peer != next.peer {
        return false;
      }
    }
    equal := true;
  }

  // ---------------------------------------------------------------- who is in the list

  lemma {:induction false} FindItem(items: seq<Item>, id: string)
    ensures Find(items, id).Some? ==> Find(items, id).value in items && Find(items, id).value.peer.id == id
    ensures Find(items, id).None? ==> forall item | item in items :: item.peer.id != id
  {
    if items != [] {
      FindItem(items[..|items| - 1], id);
      assert items == items[..|items| - 1] + [items[|items| - 1]];
    }
  }

  lemma FindDistinct(items: seq<Item>, item: Item)
    requires DistinctItems(items) && item in items
    ensures Find(items, item.peer.id) == Some(item)
  {
    FindItem(items, item.peer.id);
    if Find(items, item.peer.id).Some? {
      var i :| 0 <= i < |items| && items[i] == item;
      var j :| 0 <= j < |items| && items[j] == Find(items, item.peer.id).value;
    }
  }

  lemma {:induction false} LeavingItems(current: seq<Item>, next: seq<Peer>)
    ensures forall item | item in Leaving(current, next) ::
              item.phase.Exiting? && !IsHere(next, item.peer.id) &&
              exists c | c in current :: item == c.(phase := Exiting)
    ensures forall c | c in current && !IsHere(next, c.peer.id) :: c.(phase := Exiting) in Leaving(current, next)
    ensures DistinctItems(current) ==> DistinctItems(Leaving(current, next))
  {
    if current != [] {
      LeavingItems(current[1..], next);
      var rest := Leaving(current[1..], next);
      if DistinctItems(current) {
        forall i | 0 <= i < |rest| ensures rest[i].peer.id != current[0].peer.id {
          assert rest[i] in rest;
          var c :| c in current[1..] && rest[i] == c.(phase := Exiting);
        }
      }
    }
  }

  lemma UnsortedDistinct(current: seq<Item>, next: seq<Peer>)
    requires DistinctItems(current) && DistinctPeers(next)
    ensures DistinctItems(Staying(current, next) + Leaving(current, next))
  {
    LeavingItems(current, next);
    var here, gone := Staying(current, next), Leaving(current, next);
    forall i, j | 0 <= i < |here| && 0 <= j < |gone| ensures here[i].peer.id != gone[j].peer.id {
      assert gone[j] in gone && here[i].peer == next[i];
    }
  }

  /** The phase of a peer that is here: new ones enter, returning ones have entered, and the others go on as they were. */
  ghost predicate RightPhase(current: seq<Item>, item: Item) {
    && ((forall c | c in current :: c.peer.id != item.peer.id) ==> item.phase.Entering?)
    && (forall c | c in current && c.peer.id == item.peer.id ::
          item.phase == if c.phase.Exiting? then Entered else c.phase)
  }

  lemma PhaseIsRight(current: seq<Item>, item: Item)
    requires DistinctItems(current)
    ensures RightPhase(current, item) <==> item.phase == PhaseOf(current, item.peer.id)
  {
    FindItem(current, item.peer.id);
    forall c | c in current && c.peer.id == item.peer.id ensures Find(current, item.peer.id) == Some(c) {
      FindDistinct(current, c);
    }
  }

  lemma {:induction false} MergedMembers(current: seq<Item>, next: seq<Peer>)
    requires DistinctItems(current) && DistinctPeers(next)
    ensures DistinctItems(Merge(current, next))
    ensures forall item :: item in Merge(current, next) <==>
              item in Staying(current, next) || item in Leaving(current, next)
  {
    var xs := Staying(current, next) + Leaving(current, next);
    SortPermutes(xs, MayPrecede());
    UnsortedDistinct(current, next);
    assert DistinctBy(xs, IdOf);
    SortDistinct(xs, IdOf, MayPrecede());
    forall item ensures item in Merge(current, next) <==> item in xs {
      assert item in Merge(current, next) <==> item in multiset(Merge(current, next));
    }
  }

  /** Everybody in either list is in the result, once; those in the next list at their index there. */
  lemma MergedIsUnion(current: seq<Item>, next: seq<Peer>)
    requires DistinctItems(current) && DistinctPeers(next)
    ensures var merged := Merge(current, next);
            && DistinctItems(merged)
            && (forall item :: item in merged <==>
                  || (item.order < |next| && next[item.order] == item.peer && RightPhase(current, item))
                  || (!IsHere(next, item.peer.id) && exists c | c in current :: item == c.(phase := Exiting)))
  {
    MergedMembers(current, next);
    LeavingItems(current, next);
    forall item ensures item in Staying(current, next) <==>
        item.order < |next| && next[item.order] == item.peer && RightPhase(current, item) {
      PhaseIsRight(current, item);
      if item.order < |next| {
        assert Staying(current, next)[item.order] in Staying(current, next);
      }
    }
  }

  /** Sorted by order, and among equal orders whoever is leaving comes last. */
  lemma MergedIsOrdered(current: seq<Item>, next: seq<Peer>)
    ensures var merged := Merge(current, next);
            forall i, j | 0 <= i < j < |merged| ::
              && merged[i].order <= merged[j].order
              && (merged[i].order == merged[j].order && merged[i].phase.Exiting? ==> merged[j].phase.Exiting?)
  {
    CompareIsPreorder();
    SortOrders(Staying(current, next) + Leaving(current, next), MayPrecede());
    var merged := Merge(current, next);
    forall i, j | 0 <= i < j < |merged|
      ensures merged[i].order <= merged[j].order
      ensures merged[i].order == merged[j].order && merged[i].phase.Exiting? ==> merged[j].phase.Exiting?
    {
      assert MayPrecede()(merged[i], merged[j]);
    }
  }

  /** The peers of the items that are not leaving, in order. */
  function PresentPeers(items: seq<Item>): seq<Peer> {
    if items == [] then []
    else (if items[0].phase.Exiting? then [] else [items[0].peer]) + PresentPeers(items[1..])
  }

  function IsPresent(): Item -> bool {
    (item: Item) => !item.phase.Exiting?
  }

  lemma {:induction false} PresentSelects(items: seq<Item>)
    ensures PresentPeers(items) == PresentPeers(Select(items, IsPresent()))
  {
    if items != [] {
      PresentSelects(items[1..]);
      var rest := Select(items[1..], IsPresent());
      assert ([items[0]] + rest)[1..] == rest && [] + rest == rest;
    }
  }

  lemma {:induction false} SelectNone(gone: seq<Item>)
    requires forall item | item in gone :: item.phase.Exiting?
    ensures Select(gone, IsPresent()) == []
  {
    if gone != [] {
      assert gone[0] in gone;
      SelectNone(gone[1..]);
    }
  }

  lemma {:induction false} SelectAllOrNone(here: seq<Item>, gone: seq<Item>)
    requires forall item | item in here :: !item.phase.Exiting?
    requires forall item | item in gone :: item.phase.Exiting?
    ensures Select(here + gone, IsPresent()) == here
  {
    if here != [] {
      assert here[0] in here && (here + gone)[0] == here[0] && (here + gone)[1..] == here[1..] + gone;
      SelectAllOrNone(here[1..], gone);
      assert [here[0]] + here[1..] == here;
    } else {
      assert here + gone == gone;
      SelectNone(gone);
    }
  }

  lemma {:induction false} PeersOfPresent(items: seq<Item>, peers: seq<Peer>)
    requires |items| == |peers|
    requires forall i | 0 <= i < |items| :: items[i].peer == peers[i] && !items[i].phase.Exiting?
    ensures PresentPeers(items) == peers
  {
    if items != [] {
      PeersOfPresent(items[1..], peers[1..]);
      assert [peers[0]] + peers[1..] == peers;
    }
  }

  lemma StayingItems(current: seq<Item>, next: seq<Peer>)
    ensures var here := Staying(current, next);
            && |here| == |next|
            && (forall i | 0 <= i < |here| :: here[i].peer == next[i] && !here[i].phase.Exiting?)
            && (forall i, j | 0 <= i < j < |here| :: MayPrecede()(here[i], here[j]))
  {
  }

  /** Read off in order, those who are here are the next list. */
  lemma PresentAreNext(current: seq<Item>, next: seq<Peer>)
    ensures PresentPeers(Merge(current, next)) == next
  {
    hide MayPrecede, PresentPeers, Select, IsHere, PhaseOf;
    var here, gone := Staying(current, next), Leaving(current, next);
    LeavingItems(current, next);
    StayingItems(current, next);
    CompareIsPreorder();
    PresentSelects(Merge(current, next));
    SelectSorted(here + gone, IsPresent(), MayPrecede());
    SelectAllOrNone(here, gone);
    SortKeepsOrdered(here, MayPrecede());
    PeersOfPresent(here, next);
  }

  // ---------------------------------------------------------------- merging once more

  function Gone(next: seq<Peer>): Item -> bool {
    (item: Item) => !IsHere(next, item.peer.id)
  }

  /** Among items that already show who has gone, the leaving ones are left as they are. */
  lemma {:induction false} LeavingSelects(items: seq<Item>, next: seq<Peer>)
    requires forall item | item in items && Gone(next)(item) :: item.phase.Exiting?
    ensures Leaving(items, next) == Select(items, Gone(next))
  {
    if items != [] {
      assert items[0] in items;
      LeavingSelects(items[1..], next);
    }
  }

  lemma StayingAgain(current: seq<Item>, next: seq<Peer>)
    requires DistinctItems(current) && DistinctPeers(next)
    ensures Staying(Merge(current, next), next) == Staying(current, next)
  {
    MergedMembers(current, next);
    forall i | 0 <= i < |next| ensures PhaseOf(Merge(current, next), next[i].id) == PhaseOf(current, next[i].id) {
      assert Staying(current, next)[i] in Staying(current, next);
      FindDistinct(Merge(current, next), Item(i, next[i], PhaseOf(current, next[i].id)));
    }
  }

  lemma LeavingAgain(current: seq<Item>, next: seq<Peer>)
    ensures Leaving(Merge(current, next), next) == Sort(Leaving(current, next), MayPrecede())
  {
    var here, gone := Staying(current, next), Leaving(current, next);
    LeavingItems(current, next);
    forall item | item in here ensures !Gone(next)(item) {
      assert next[item.order] == item.peer;
    }
    LeavingConcat(here, gone, next);
    LeavingNone(here, next);
    LeavingAll(gone, next);
    assert Leaving(here + gone, next) == gone;
    LeavingSelects(here + gone, next);
    CompareIsPreorder();
    SelectSorted(here + gone, Gone(next), MayPrecede());
    SortPermutes(here + gone, MayPrecede());
    forall item | item in Merge(current, next) && Gone(next)(item) ensures item.phase.Exiting? {
      assert item in multiset(here + gone);
    }
    LeavingSelects(Merge(current, next), next);
  }

  lemma {:induction false} LeavingNone(items: seq<Item>, next: seq<Peer>)
    requires forall item | item in items :: IsHere(next, item.peer.id)
    ensures Leaving(items, next) == []
  {
    if items != [] {
      assert items[0] in items;
      LeavingNone(items[1..], next);
    }
  }

  lemma {:induction false} LeavingAll(items: seq<Item>, next: seq<Peer>)
    requires forall item | item in items :: !IsHere(next, item.peer.id) && item.phase.Exiting?
    ensures Leaving(items, next) == items
  {
    if items != [] {
      assert items[0] in items;
      LeavingAll(items[1..], next);
      assert [items[0]] + items[1..] == items;
    }
  }

  /** The same peers again change nothing: not an item, not its place, not its phase. */
  lemma MergeAgainIsSame(current: seq<Item>, next: seq<Peer>)
    requires DistinctItems(current) && DistinctPeers(next)
    ensures Merge(Merge(current, next), next) == Merge(current, next)
  {
    StayingAgain(current, next);
    LeavingAgain(current, next);
    CompareIsPreorder();
    SortTailFirst(Staying(current, next), Leaving(current, next), MayPrecede());
  }
}
