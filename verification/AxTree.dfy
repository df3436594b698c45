/** Depths of accessibility nodes: a breadth-first search over a graph that may be cyclic. */
module AxTree {

  /** A node as the browser reports it; a missing child list is empty. */
  datatype AxNode = AxNode(nodeId: int, childIds: seq<int>)

  datatype Entry = Entry(nodeId: int, depth: nat)

  /** The children of an id: those of the last node that carries it. */
  function Children(nodes: seq<AxNode>, id: int): seq<int> {
    if nodes == [] then []
    else if nodes[|nodes| - 1].nodeId == id then nodes[|nodes| - 1].childIds
    else Children(nodes[..|nodes| - 1], id)
  }

  ghost predicate IsChild(nodes: seq<AxNode>, id: int) {
    exists n | n in nodes :: id in n.childIds
  }

  /** A node nobody lists as a child, or the first node when there is no such node. */
  ghost predicate IsRoot(nodes: seq<AxNode>, id: int) {
    if exists n | n in nodes :: !IsChild(nodes, n.nodeId)
    then (exists n | n in nodes :: n.nodeId == id) && !IsChild(nodes, id)
    else nodes != [] && id == nodes[0].nodeId
  }

  /** `p` leads from a root to `id`, each step going to a child. */
  ghost predicate Walk(nodes: seq<AxNode>, p: seq<int>, id: int)
    decreases |p|
  {
    && p != [] && p[|p| - 1] == id
    && if |p| == 1 then IsRoot(nodes, id)
       else Walk(nodes, p[..|p| - 1], p[|p| - 2]) && id in Children(nodes, p[|p| - 2])
  }

  ghost predicate Reached(nodes: seq<AxNode>, id: int, depth: nat) {
    exists p :: Walk(nodes, p, id) && |p| == depth + 1
  }

  /** `depth` is the number of steps on a shortest walk to `id`; it is 0 when no walk leads there. */
  ghost predicate IsDepth(nodes: seq<AxNode>, id: int, depth: nat) {
    if exists p :: Walk(nodes, p, id)
    then Reached(nodes, id, depth) && forall p | Walk(nodes, p, id) :: depth + 1 <= |p|
    else depth == 0
  }

  lemma RootReached(nodes: seq<AxNode>, id: int)
    requires IsRoot(nodes, id)
    ensures Reached(nodes, id, 0)
  {
    assert Walk(nodes, [id], id);
  }

  lemma ChildReached(nodes: seq<AxNode>, id: int, depth: nat, child: int)
    requires Reached(nodes, id, depth) && child in Children(nodes, id)
    ensures Reached(nodes, child, depth + 1)
  {
    var p :| Walk(nodes, p, id) && |p| == depth + 1;
    assert (p + [child])[..|p|] == p;
    assert Walk(nodes, p + [child], child);
  }

  // ---- What the search keeps ----

  function Entries(ids: seq<int>, depth: nat): seq<Entry> {
    seq(|ids|, i requires 0 <= i < |ids| => Entry(ids[i], depth))
  }

  ghost predicate Sound(nodes: seq<AxNode>, depths: map<int, nat>, queue: seq<Entry>) {
    && (forall id | id in depths :: Reached(nodes, id, depths[id]))
    && (forall e | e in queue :: Reached(nodes, e.nodeId, e.depth))
  }

  ghost predicate Covered(depths: map<int, nat>, queue: seq<Entry>, id: int, depth: nat) {
    (id in depths && depths[id] <= depth) || Entry(id, depth) in queue
  }

  ghost predicate Complete(nodes: seq<AxNode>, depths: map<int, nat>, queue: seq<Entry>) {
    && (forall id | IsRoot(nodes, id) :: Covered(depths, queue, id, 0))
    && (forall id, c | id in depths && c in Children(nodes, id) :: Covered(depths, queue, c, depths[id] + 1))
  }

  /** The queue is sorted by depth within one layer and no found depth exceeds its head's. */
  ghost predicate Layered(depths: map<int, nat>, queue: seq<Entry>) {
    && (forall i, j | 0 <= i < j < |queue| :: queue[i].depth <= queue[j].depth)
    && (forall e | e in queue :: e.depth <= queue[0].depth + 1)
    && (queue != [] ==> forall id | id in depths :: depths[id] <= queue[0].depth)
  }

  ghost predicate SearchInv(nodes: seq<AxNode>, depths: map<int, nat>, queue: seq<Entry>) {
    Sound(nodes, depths, queue) && Complete(nodes, depths, queue) && Layered(depths, queue)
  }

  lemma SkipKeeps(nodes: seq<AxNode>, depths: map<int, nat>, queue: seq<Entry>)
    requires SearchInv(nodes, depths, queue) && queue != []
    requires queue[0].nodeId in depths && depths[queue[0].nodeId] <= queue[0].depth
    ensures SearchInv(nodes, depths, queue[1..])
  {
    var rest := queue[1..];
    assert queue == [queue[0]] + rest;
    forall id, d: nat | Covered(depths, queue, id, d) ensures Covered(depths, rest, id, d) {
      if Entry(id, d) in queue && Entry(id, d) != queue[0] { assert Entry(id, d) in rest; }
    }
    SkipKeepsLayered(depths, queue);
  }

  lemma SkipKeepsLayered(depths: map<int, nat>, queue: seq<Entry>)
    requires Layered(depths, queue) && queue != []
    ensures Layered(depths, queue[1..])
  {
    var rest := queue[1..];
    forall i | 0 <= i < |rest| ensures rest[0].depth <= rest[i].depth <= rest[0].depth + 1 {
      assert rest[i] == queue[i + 1] && queue[i + 1] in queue && rest[0] == queue[1];
    }
  }

  lemma EntryOf(ids: seq<int>, depth: nat, e: Entry)
    ensures e in Entries(ids, depth) <==> e.depth == depth && e.nodeId in ids
  {
    if e.depth == depth && e.nodeId in ids {
      var i :| 0 <= i < |ids| && ids[i] == e.nodeId;
      assert Entries(ids, depth)[i] == e;
    }
  }

  /** The state after visiting the head of the queue. */
  function QueueAfter(nodes: seq<AxNode>, queue: seq<Entry>): seq<Entry>
    requires queue != []
  {
    queue[1..] + Entries(Children(nodes, queue[0].nodeId), queue[0].depth + 1)
  }

  lemma VisitKeepsSound(nodes: seq<AxNode>, depths: map<int, nat>, queue: seq<Entry>)
    requires Sound(nodes, depths, queue) && queue != []
    ensures Sound(nodes, depths[queue[0].nodeId := queue[0].depth], QueueAfter(nodes, queue))
  {
    var e := queue[0];
    forall x | x in QueueAfter(nodes, queue) ensures Reached(nodes, x.nodeId, x.depth) {
      if x in queue[1..] {
        assert x in queue;
      } else {
        EntryOf(Children(nodes, e.nodeId), e.depth + 1, x);
        ChildReached(nodes, e.nodeId, e.depth, x.nodeId);
      }
    }
  }

  lemma VisitKeepsComplete(nodes: seq<AxNode>, depths: map<int, nat>, queue: seq<Entry>)
    requires Complete(nodes, depths, queue) && queue != [] && queue[0].nodeId !in depths
    ensures Complete(nodes, depths[queue[0].nodeId := queue[0].depth], QueueAfter(nodes, queue))
  {
    var e, rest := queue[0], queue[1..];
    var depths', queue' := depths[e.nodeId := e.depth], QueueAfter(nodes, queue);
    assert queue == [e] + rest;
    forall id, d: nat | Covered(depths, queue, id, d) ensures Covered(depths', queue', id, d) {
      if Entry(id, d) in queue && Entry(id, d) != e { assert Entry(id, d) in rest; }
    }
    forall c | c in Children(nodes, e.nodeId) ensures Covered(depths', queue', c, e.depth + 1) {
      EntryOf(Children(nodes, e.nodeId), e.depth + 1, Entry(c, e.depth + 1));
    }
  }

  ghost predicate Sorted(queue: seq<Entry>) {
    forall i, j | 0 <= i < j < |queue| :: queue[i].depth <= queue[j].depth
  }

  /** All entries lie in two consecutive layers. */
  ghost predicate InLayers(queue: seq<Entry>, depth: nat) {
    forall i | 0 <= i < |queue| :: depth <= queue[i].depth <= depth + 1
  }

  lemma RestLayered(depths: map<int, nat>, queue: seq<Entry>)
    requires Layered(depths, queue) && queue != []
    ensures Sorted(queue[1..]) && InLayers(queue[1..], queue[0].depth)
  {
    assert forall i | 0 <= i < |queue| :: queue[i] in queue;
  }

  lemma AppendSorted(rest: seq<Entry>, more: seq<Entry>, depth: nat)
    requires Sorted(rest) && InLayers(rest, depth) && forall i | 0 <= i < |more| :: more[i].depth == depth + 1
    ensures Sorted(rest + more)
  {
  }

  lemma AppendInLayers(rest: seq<Entry>, more: seq<Entry>, depth: nat)
    requires InLayers(rest, depth) && forall i | 0 <= i < |more| :: more[i].depth == depth + 1
    ensures InLayers(rest + more, depth)
  {
  }

  lemma LayeredWhen(depths: map<int, nat>, queue: seq<Entry>, depth: nat)
    requires Sorted(queue) && InLayers(queue, depth) && forall id | id in depths :: depths[id] <= depth
    ensures Layered(depths, queue)
  {
  }

  lemma VisitKeepsLayered(nodes: seq<AxNode>, depths: map<int, nat>, queue: seq<Entry>)
    requires Layered(depths, queue) && queue != []
    ensures Layered(depths[queue[0].nodeId := queue[0].depth], QueueAfter(nodes, queue))
  {
    var e := queue[0];
    var more := Entries(Children(nodes, e.nodeId), e.depth + 1);
    RestLayered(depths, queue);
    AppendSorted(queue[1..], more, e.depth);
    AppendInLayers(queue[1..], more, e.depth);
    LayeredWhen(depths[e.nodeId := e.depth], queue[1..] + more, e.depth);
  }

  lemma VisitKeeps(nodes: seq<AxNode>, depths: map<int, nat>, queue: seq<Entry>)
    requires SearchInv(nodes, depths, queue) && queue != [] && queue[0].nodeId !in depths
    ensures SearchInv(nodes, depths[queue[0].nodeId := queue[0].depth], QueueAfter(nodes, queue))
  {
    VisitKeepsSound(nodes, depths, queue);
    VisitKeepsComplete(nodes, depths, queue);
    VisitKeepsLayered(nodes, depths, queue);
  }

  ghost predicate Indexed(nodes: seq<AxNode>, byNodeId: map<int, AxNode>) {
    forall id :: Children(nodes, id) == if id in byNodeId then byNodeId[id].childIds else []
  }

  ghost predicate HoldsChildren(nodes: seq<AxNode>, ids: set<int>) {
    forall id :: IsChild(nodes, id) ==> id in ids
  }

  ghost predicate Within(queue: seq<Entry>, universe: set<int>) {
    forall e | e in queue :: e.nodeId in universe
  }

  lemma VisitWithin(nodes: seq<AxNode>, queue: seq<Entry>, universe: set<int>)
    requires Within(queue, universe) && queue != []
    requires HoldsChildren(nodes, universe)
    ensures Within(QueueAfter(nodes, queue), universe)
  {
    var e := queue[0];
    forall x | x in QueueAfter(nodes, queue) ensures x.nodeId in universe {
      if x in queue[1..] {
        assert x in queue;
      } else {
        EntryOf(Children(nodes, e.nodeId), e.depth + 1, x);
        ChildrenListed(nodes, e.nodeId, x.nodeId);
      }
    }
  }

  lemma {:induction false} WalkCovered(nodes: seq<AxNode>, depths: map<int, nat>, p: seq<int>, id: int)
    requires Complete(nodes, depths, []) && Walk(nodes, p, id)
    ensures id in depths && depths[id] + 1 <= |p|
    decreases |p|
  {
    if |p| == 1 {
      assert Covered(depths, [], id, 0);
    } else {
      var before := p[|p| - 2];
      assert Walk(nodes, p[..|p| - 1], before);
      WalkCovered(nodes, depths, p[..|p| - 1], before);
      assert Covered(depths, [], id, depths[before] + 1);
    }
  }

  function DepthOr0(depths: map<int, nat>, id: int): nat {
    if id in depths then depths[id] else 0
  }

  /** When the queue has run empty, the recorded depths are the shortest ones. */
  lemma DoneIsShortest(nodes: seq<AxNode>, depths: map<int, nat>, id: int)
    requires SearchInv(nodes, depths, [])
    ensures IsDepth(nodes, id, DepthOr0(depths, id))
  {
    forall p | Walk(nodes, p, id) ensures id in depths && depths[id] + 1 <= |p| {
      WalkCovered(nodes, depths, p, id);
    }
    if id in depths {
      assert Reached(nodes, id, depths[id]);
    }
  }

  lemma {:induction false} ChildrenListed(nodes: seq<AxNode>, id: int, c: int)
    requires c in Children(nodes, id)
    ensures IsChild(nodes, c)
  {
    var last := nodes[|nodes| - 1];
    assert last in nodes;
    if last.nodeId != id {
      ChildrenListed(nodes[..|nodes| - 1], id, c);
    }
  }

  /** The ids of `parseAXNodes`' starting queue. */
  ghost predicate StartsAtRoots(nodes: seq<AxNode>, queue: seq<Entry>) {
    && (forall e | e in queue :: e.depth == 0 && IsRoot(nodes, e.nodeId))
    && (forall id | IsRoot(nodes, id) :: Entry(id, 0) in queue)
  }

  lemma StartInv(nodes: seq<AxNode>, queue: seq<Entry>)
    requires StartsAtRoots(nodes, queue)
    ensures SearchInv(nodes, map[], queue)
  {
    forall e | e in queue ensures Reached(nodes, e.nodeId, e.depth) {
      RootReached(nodes, e.nodeId);
    }
  }

  method IndexNodes(nodes: seq<AxNode>) returns (byNodeId: map<int, AxNode>, childNodeIds: set<int>)
    ensures Indexed(nodes, byNodeId)
    ensures forall id :: id in childNodeIds <==> IsChild(nodes, id)
  {
    byNodeId, childNodeIds := map[], {};
    for i := 0 to |nodes|
      invariant Indexed(nodes[..i], byNodeId)
      invariant forall id :: id in childNodeIds <==> IsChild(nodes[..i], id)
    {
      assert nodes[..i + 1][..i] == nodes[..i];
      assert forall n :: n in nodes[..i + 1] <==> n in nodes[..i] || n == nodes[i];
      byNodeId := byNodeId[nodes[i].nodeId := nodes[i]];
      childNodeIds := childNodeIds + set c | c in nodes[i].childIds;
    }
    assert nodes[..|nodes|] == nodes;
  }

  method StartQueue(nodes: seq<AxNode>, childNodeIds: set<int>) returns (queue: seq<Entry>)
    requires forall id :: id in childNodeIds <==> IsChild(nodes, id)
    ensures StartsAtRoots(nodes, queue)
  {
    queue := [];
    for i := 0 to |nodes|
      invariant forall e :: e in queue <==>
                  e.depth == 0 && !IsChild(nodes, e.nodeId) && exists n | n in nodes[..i] :: n.nodeId == e.nodeId
    {
      assert forall n :: n in nodes[..i + 1] <==> n in nodes[..i] || n == nodes[i];
      if nodes[i].nodeId !in childNodeIds {
        queue := queue + [Entry(nodes[i].nodeId, 0)];
      }
    }
    assert nodes[..|nodes|] == nodes;
    if queue == [] {
      forall n | n in nodes ensures IsChild(nodes, n.nodeId) {
        assert Entry(n.nodeId, 0) !in queue;
      }
      if nodes != [] {
        queue := [Entry(nodes[0].nodeId, 0)];
      }
    } else {
      assert queue[0] in queue;
    }
  }

  /** Takes the head off the queue and appends its children. */
  method PushChildren(nodes: seq<AxNode>, byNodeId: map<int, AxNode>, queue: seq<Entry>) returns (after: seq<Entry>)
    requires Indexed(nodes, byNodeId) && queue != []
    ensures after == QueueAfter(nodes, queue)
  {
    var current := queue[0];
    after := queue[1..];
    if current.nodeId !in byNodeId {
      assert Children(nodes, current.nodeId) == [];
      return;
    }
    var childIds := byNodeId[current.nodeId].childIds;
    assert Children(nodes, current.nodeId) == childIds;
    for k := 0 to |childIds|
      invariant after == queue[1..] + Entries(childIds[..k], current.depth + 1)
    {
      after := after + [Entry(childIds[k], current.depth + 1)];
    }
    assert childIds[..|childIds|] == childIds;
  }

  /** The search loop. */
  method Search(nodes: seq<AxNode>, byNodeId: map<int, AxNode>, start: seq<Entry>, ghost universe: set<int>)
    returns (depthByNodeId: map<int, nat>)
    requires Indexed(nodes, byNodeId) && StartsAtRoots(nodes, start)
    requires Within(start, universe) && HoldsChildren(nodes, universe)
    ensures SearchInv(nodes, depthByNodeId, [])
  {
    var queue := start;
    depthByNodeId := map[];
    StartInv(nodes, queue);
    while queue != []
      invariant SearchInv(nodes, depthByNodeId, queue)
      invariant Within(queue, universe)
      decreases universe - depthByNodeId.Keys, |queue|
    {
      var current := queue[0];
      if current.nodeId in depthByNodeId && depthByNodeId[current.nodeId] <= current.depth {
        SkipKeeps(nodes, depthByNodeId, queue);
        queue := queue[1..];
        continue;
      }
      HeadIsNew(depthByNodeId, queue, universe);
      VisitKeeps(nodes, depthByNodeId, queue);
      VisitWithin(nodes, queue, universe);
      depthByNodeId := depthByNodeId[current.nodeId := current.depth];
      queue := PushChildren(nodes, byNodeId, queue);
    }
  }

  lemma HeadIsNew(depths: map<int, nat>, queue: seq<Entry>, universe: set<int>)
    requires Layered(depths, queue) && queue != [] && Within(queue, universe)
    requires !(queue[0].nodeId in depths && depths[queue[0].nodeId] <= queue[0].depth)
    ensures queue[0].nodeId in universe && queue[0].nodeId !in depths
  {
    assert queue[0] in queue;
  }

  /** `nodes.map`: every node with the depth recorded for its id, or 0. */
  method PlaceNodes(nodes: seq<AxNode>, depths: map<int, nat>) returns (result: seq<(AxNode, nat)>)
    requires SearchInv(nodes, depths, [])
    ensures |result| == |nodes|
    ensures forall i | 0 <= i < |nodes| :: result[i].0 == nodes[i] && IsDepth(nodes, nodes[i].nodeId, result[i].1)
  {
    forall i | 0 <= i < |nodes| ensures IsDepth(nodes, nodes[i].nodeId, DepthOr0(depths, nodes[i].nodeId)) {
      DoneIsShortest(nodes, depths, nodes[i].nodeId);
    }
    result := seq(|nodes|, i requires 0 <= i < |nodes| => (nodes[i], DepthOr0(depths, nodes[i].nodeId)));
  }

  /**
   `parseAXNodes`, as far as depths go: on every node list, with cycles, repeated ids and dangling child ids,
   it terminates and gives every node the length of a shortest walk from the roots.
   */
  method ParseAxNodes(nodes: seq<AxNode>) returns (result: seq<(AxNode, nat)>)
    ensures |result| == |nodes|
    ensures forall i | 0 <= i < |nodes| :: result[i].0 == nodes[i] && IsDepth(nodes, nodes[i].nodeId, result[i].1)
  {
    var byNodeId, childNodeIds := IndexNodes(nodes);
    var queue := StartQueue(nodes, childNodeIds);
    ghost var universe := childNodeIds + set e | e in queue :: e.nodeId;
    var depths := Search(nodes, byNodeId, queue, universe);
    result := PlaceNodes(nodes, depths);
  }
}
