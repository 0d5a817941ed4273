/** The revision graph view: a depth-first order that emits parents before
    children, the heads, and the limit that cuts the answer short. */
module RevGraph {
  import opened Digraph
  import opened History

  /** The graph view looks owners up by the hash the snapshot itself records. */
  function OwnerByRecordedHash(revs: seq<Revision>, snapshots: map<string, Snapshot>): (m: map<string, string>)
    requires AllReadable(revs, snapshots)
    ensures forall h :: h in m ==> m[h] in ById(revs)
  {
    if revs == [] then map[]
    else
      var last := revs[|revs| - 1];
      OwnerByRecordedHash(revs[..|revs| - 1], snapshots)[snapshots[last.hash].revisionHash := last.id]
  }

  /** Entry `i` is the last of the list whose snapshot records this hash. */
  ghost predicate LastRecording(revs: seq<Revision>, snapshots: map<string, Snapshot>, i: int, hash: string)
    requires AllReadable(revs, snapshots)
  {
    && 0 <= i < |revs| && snapshots[revs[i].hash].revisionHash == hash
    && forall j :: i < j < |revs| ==> snapshots[revs[j].hash].revisionHash != hash
  }

  lemma {:induction false} OwnerIsTheLastRecording(revs: seq<Revision>, snapshots: map<string, Snapshot>,
      i: nat, hash: string)
    requires AllReadable(revs, snapshots) && LastRecording(revs, snapshots, i, hash)
    ensures var m := OwnerByRecordedHash(revs, snapshots); hash in m && m[hash] == revs[i].id
  {
    var n := |revs| - 1;
    if i < n {
      assert snapshots[revs[n].hash].revisionHash != hash;
      OwnerIsTheLastRecording(revs[..n], snapshots, i, hash);
    }
  }

  lemma LastIsLast(revs: seq<Revision>, snapshots: map<string, Snapshot>, hash: string)
    requires AllReadable(revs, snapshots) && revs != [] && snapshots[revs[|revs| - 1].hash].revisionHash == hash
    ensures LastRecording(revs, snapshots, |revs| - 1, hash)
  {
  }

  lemma LastOfLonger(revs: seq<Revision>, snapshots: map<string, Snapshot>, i: nat, hash: string)
    requires AllReadable(revs, snapshots) && revs != []
    requires LastRecording(revs[..|revs| - 1], snapshots, i, hash)
    requires snapshots[revs[|revs| - 1].hash].revisionHash != hash
    ensures LastRecording(revs, snapshots, i, hash)
  {
    var init := revs[..|revs| - 1];
    forall j | i < j < |revs|
      ensures snapshots[revs[j].hash].revisionHash != hash
    {
      if j < |init| { assert init[j] == revs[j]; }
    }
  }

  lemma {:induction false} SomeIsLastRecording(revs: seq<Revision>, snapshots: map<string, Snapshot>, hash: string)
    returns (i: nat)
    requires AllReadable(revs, snapshots)
    requires hash in OwnerByRecordedHash(revs, snapshots)
    ensures LastRecording(revs, snapshots, i, hash)
  {
    hide LastRecording;
    var n := |revs| - 1;
    if snapshots[revs[n].hash].revisionHash == hash {
      i := n;
      LastIsLast(revs, snapshots, hash);
    } else {
      i := SomeIsLastRecording(revs[..n], snapshots, hash);
      LastOfLonger(revs, snapshots, i, hash);
    }
  }

  /** One of the parents of `x`'s snapshot is recorded for a revision whose last entry is
      `y`. */
  ghost predicate ViewParent(revs: seq<Revision>, snapshots: map<string, Snapshot>, x: string, y: string)
    requires AllReadable(revs, snapshots)
  {
    exists i, j, h ::
      && LastWithId(revs, i, x) && h in snapshots[revs[i].hash].parents
      && LastRecording(revs, snapshots, j, h) && revs[j].id == y
  }

  /** The edges of the view are those. */
  lemma ViewEdgesAreParents(revs: seq<Revision>, snapshots: map<string, Snapshot>)
    requires AllReadable(revs, snapshots)
    ensures forall x, y :: Edge(ViewGraph(revs, snapshots), x, y) <==> ViewParent(revs, snapshots, x, y)
  {
    forall x, y
      ensures Edge(ViewGraph(revs, snapshots), x, y) <==> ViewParent(revs, snapshots, x, y)
    {
      if Edge(ViewGraph(revs, snapshots), x, y) {
        ViewEdgeIsParent(revs, snapshots, x, y);
      }
      if ViewParent(revs, snapshots, x, y) {
        ViewParentIsEdge(revs, snapshots, x, y);
      }
    }
  }

  lemma ViewEdgeIsParent(revs: seq<Revision>, snapshots: map<string, Snapshot>, x: string, y: string)
    requires AllReadable(revs, snapshots) && Edge(ViewGraph(revs, snapshots), x, y)
    ensures ViewParent(revs, snapshots, x, y)
  {
    hide ById, OwnerByRecordedHash;
    var i := SomeIsLastWithId(revs, x);
    ByIdHoldsTheLast(revs, i);
    var m := OwnerByRecordedHash(revs, snapshots);
    var h :| h in snapshots[revs[i].hash].parents && h in m && m[h] == y;
    var j := SomeIsLastRecording(revs, snapshots, h);
    OwnerIsTheLastRecording(revs, snapshots, j, h);
  }

  lemma ViewParentIsEdge(revs: seq<Revision>, snapshots: map<string, Snapshot>, x: string, y: string)
    requires AllReadable(revs, snapshots) && ViewParent(revs, snapshots, x, y)
    ensures Edge(ViewGraph(revs, snapshots), x, y)
  {
    hide ById, OwnerByRecordedHash;
    var i, j, h :|
      && LastWithId(revs, i, x) && h in snapshots[revs[i].hash].parents
      && LastRecording(revs, snapshots, j, h) && revs[j].id == y;
    ByIdHoldsTheLast(revs, i);
    OwnerIsTheLastRecording(revs, snapshots, j, h);
  }

  /** A parent is shown as the last listed revision recorded for it, or else as itself. */
  ghost predicate ShownAs(revs: seq<Revision>, snapshots: map<string, Snapshot>, parent: string, shown: string)
    requires AllReadable(revs, snapshots)
  {
    || (exists j :: LastRecording(revs, snapshots, j, parent) && shown == revs[j].id)
    || (shown == parent && forall r :: r in revs ==> snapshots[r.hash].revisionHash != parent)
  }

  lemma {:induction false} UnrecordedIsUnowned(revs: seq<Revision>, snapshots: map<string, Snapshot>, hash: string)
    requires AllReadable(revs, snapshots) && hash !in OwnerByRecordedHash(revs, snapshots)
    ensures forall r :: r in revs ==> snapshots[r.hash].revisionHash != hash
  {
    if revs != [] {
      var n := |revs| - 1;
      UnrecordedIsUnowned(revs[..n], snapshots, hash);
      assert forall r :: r in revs <==> r in revs[..n] || r == revs[n];
    }
  }

  lemma ParentsAreShown(revs: seq<Revision>, snapshots: map<string, Snapshot>, parents: seq<string>)
    requires AllReadable(revs, snapshots)
    ensures var shown := ShownParents(parents, OwnerByRecordedHash(revs, snapshots));
      |shown| == |parents| && forall i :: 0 <= i < |parents| ==> ShownAs(revs, snapshots, parents[i], shown[i])
  {
    hide OwnerByRecordedHash;
    var m := OwnerByRecordedHash(revs, snapshots);
    forall i | 0 <= i < |parents|
      ensures ShownAs(revs, snapshots, parents[i], ShownParents(parents, m)[i])
    {
      if parents[i] in m {
        var j := SomeIsLastRecording(revs, snapshots, parents[i]);
        OwnerIsTheLastRecording(revs, snapshots, j, parents[i]);
      } else {
        UnrecordedIsUnowned(revs, snapshots, parents[i]);
      }
    }
  }

  /** Every listed revision's snapshot can be read; the view dereferences it unchecked. */
  ghost predicate AllReadable(revs: seq<Revision>, snapshots: map<string, Snapshot>) {
    forall r :: r in revs ==> r.hash in snapshots
  }

  function ViewGraph(revs: seq<Revision>, snapshots: map<string, Snapshot>): Graph
    requires AllReadable(revs, snapshots)
  {
    ParentGraph(ById(revs), snapshots, OwnerByRecordedHash(revs, snapshots))
  }

  ghost predicate EdgesWithin(g: Graph) {
    forall x, y :: Edge(g, x, y) ==> y in g
  }

  /** Every edge target stands strictly before its source. */
  ghost predicate TargetsFirst(g: Graph, order: seq<string>) {
    forall i, y :: 0 <= i < |order| && Edge(g, order[i], y) ==> y in order[..i]
  }

  /** The nodes the walk is in the middle of: a path ending at the newest one. */
  ghost predicate IsStack(g: Graph, stack: seq<string>) {
    stack == [] || IsPath(g, stack)
  }

  lemma BackEdgeMakesCycle(g: Graph, stack: seq<string>, y: string)
    requires IsPath(g, stack) && y in stack && Edge(g, stack[|stack| - 1], y)
    ensures !Acyclic(g)
  {
    var m :| 0 <= m < |stack| && stack[m] == y;
    var cycle := stack[m..] + [y];
    assert forall i :: 0 <= i < |cycle| - 1 ==> cycle[i] == stack[m + i];
    assert IsPath(g, cycle);
    assert cycle[0] == cycle[|cycle| - 1];
  }

  lemma ElemsAppend(s: seq<string>, x: string)
    ensures Elems(s + [x]) == Elems(s) + {x}
  {
  }

  /** The closure `visit` with the variables it captures. */
  class TopoWalk {
    const byId: map<string, Revision>
    const snapOf: map<string, Snapshot>
    const snapOwner: map<string, string>
    var visited: set<string>
    var order: seq<string>

    constructor (byId: map<string, Revision>, snapOf: map<string, Snapshot>, snapOwner: map<string, string>)
      ensures this.byId == byId && this.snapOf == snapOf && this.snapOwner == snapOwner
      ensures visited == {} && order == []
    {
      this.byId, this.snapOf, this.snapOwner := byId, snapOf, snapOwner;
      visited, order := {}, [];
    }

    ghost predicate Matches(g: Graph) {
      && g.Keys == byId.Keys == snapOf.Keys
      && (forall id :: id in g ==> g[id] == Owners(snapOf[id].parents, snapOwner))
      && EdgesWithin(g)
    }

    /** Everything emitted or under way has been visited, nothing is emitted twice. */
    ghost predicate Valid(g: Graph, stack: seq<string>)
      reads this
    {
      && IsStack(g, stack)
      && Distinct(order)
      && visited == Elems(order) + Elems(stack)
      && Elems(order) !! Elems(stack)
      && visited <= g.Keys
      && (Acyclic(g) ==> TargetsFirst(g, order))
    }

    method Visit(id: string, ghost g: Graph, ghost stack: seq<string>)
      requires Matches(g) && Valid(g, stack)
      requires stack != [] ==> Edge(g, stack[|stack| - 1], id)
      modifies this
      ensures Valid(g, stack)
      ensures old(visited) <= visited
      ensures id in g ==> id in visited
      decreases byId.Keys - visited
    {
      if id !in byId || id in visited {
        return;
      }
      visited := visited + {id};
      ghost var inside := stack + [id];
      ElemsAppend(stack, id);
      var parents := snapOf[id].parents;
      for i := 0 to |parents|
        invariant Valid(g, inside)
        invariant old(visited) + {id} <= visited
        invariant forall m :: 0 <= m < i && parents[m] in snapOwner ==> snapOwner[parents[m]] in visited
      {
        if parents[i] in snapOwner {
          assert Edge(g, id, snapOwner[parents[i]]);
          Visit(snapOwner[parents[i]], g, inside);
        }
      }
      if Acyclic(g) {
        ParentsAreEmitted(g, stack, id);
      }
      ElemsAppend(order, id);
      assert inside[|stack|] == id;
      order := order + [id];
    }

    lemma ParentsAreEmitted(g: Graph, stack: seq<string>, id: string)
      requires Matches(g) && Valid(g, stack + [id]) && Acyclic(g) && id in g
      requires forall p :: p in snapOf[id].parents && p in snapOwner ==> snapOwner[p] in visited
      ensures forall y :: Edge(g, id, y) ==> y in order
      ensures TargetsFirst(g, order + [id])
    {
      var inside := stack + [id];
      forall y | Edge(g, id, y)
        ensures y in order
      {
        if y in inside {
          BackEdgeMakesCycle(g, inside, y);
          assert false;
        }
      }
      var longer := order + [id];
      forall i, y | 0 <= i < |longer| && Edge(g, longer[i], y)
        ensures y in longer[..i]
      {
        assert longer[..i] == order[..i];
      }
    }
  }

  method IndexSnapshots(revs: seq<Revision>, snapshots: map<string, Snapshot>)
    returns (byId: map<string, Revision>, snapOf: map<string, Snapshot>, snapOwner: map<string, string>)
    requires AllReadable(revs, snapshots)
    ensures byId == ById(revs) && snapOf.Keys == byId.Keys
    ensures forall id :: id in byId ==> byId[id].hash in snapshots && snapOf[id] == snapshots[byId[id].hash]
    ensures snapOwner == OwnerByRecordedHash(revs, snapshots)
  {
    byId, snapOf, snapOwner := map[], map[], map[];
    for i := 0 to |revs|
      invariant byId == ById(revs[..i]) && snapOf.Keys == byId.Keys
      invariant forall id :: id in byId ==> byId[id].hash in snapshots && snapOf[id] == snapshots[byId[id].hash]
      invariant snapOwner == OwnerByRecordedHash(revs[..i], snapshots)
    {
      assert revs[..i + 1][..i] == revs[..i];
      var re := revs[i];
      if re.hash in snapshots {
        var snap := snapshots[re.hash];
        byId := byId[re.id := re];
        snapOf := snapOf[re.id := snap];
        snapOwner := snapOwner[snap.revisionHash := re.id];
      }
    }
    assert revs[..|revs|] == revs;
  }

  /** A listed revision is a head when it is no listed revision's parent. */
  ghost predicate IsHead(g: Graph, id: string) {
    id in g && forall x :: !Edge(g, x, id)
  }

  method DropOwners(heads: set<string>, parents: seq<string>, snapOwner: map<string, string>)
    returns (left: set<string>)
    ensures left == heads - Owners(parents, snapOwner)
  {
    left := heads;
    for k := 0 to |parents|
      invariant left == heads - Owners(parents[..k], snapOwner)
    {
      assert parents[..k + 1] == parents[..k] + [parents[k]];
      if parents[k] in snapOwner {
        left := left - {snapOwner[parents[k]]};
      }
    }
    assert parents[..|parents|] == parents;
  }

  method AllIds(revs: seq<Revision>, ghost g: Graph) returns (ids: set<string>)
    requires forall id :: id in g <==> exists r :: r in revs && r.id == id
    ensures ids == g.Keys
  {
    ids := {};
    for i := 0 to |revs|
      invariant ids <= g.Keys
      invariant forall m :: 0 <= m < i ==> revs[m].id in ids
    {
      ids := ids + {revs[i].id};
    }
    forall id | id in g
      ensures id in ids
    {
      var r :| r in revs && r.id == id;
    }
  }

  method Heads(revs: seq<Revision>, snapOf: map<string, Snapshot>, snapOwner: map<string, string>, ghost g: Graph)
    returns (heads: set<string>)
    requires snapOf.Keys == g.Keys && forall id :: id in g <==> exists r :: r in revs && r.id == id
    requires forall id :: id in g ==> g[id] == Owners(snapOf[id].parents, snapOwner)
    ensures forall id :: id in heads <==> IsHead(g, id)
  {
    hide Owners;
    heads := AllIds(revs, g);
    for i := 0 to |revs|
      invariant heads <= g.Keys
      invariant forall id :: id in g && id !in heads ==> exists x :: Edge(g, x, id)
      invariant forall m :: 0 <= m < i ==> heads !! g[revs[m].id]
    {
      ghost var before := heads;
      var id := revs[i].id;
      assert id in g;
      heads := DropOwners(heads, snapOf[id].parents, snapOwner);
      assert heads == before - g[id];
      assert forall y :: y in before && y !in heads ==> Edge(g, id, y);
    }
    forall id, x | id in heads && x in g
      ensures !Edge(g, x, id)
    {
      var r :| r in revs && r.id == x;
      var m :| 0 <= m < |revs| && revs[m] == r;
    }
  }

  /** The depth-first order over any arrangement of the start ids: each listed id
      once, and targets before sources exactly when the parent relation is acyclic. */
  method EmitOrder(revs: seq<Revision>, byId: map<string, Revision>, snapOf: map<string, Snapshot>,
      snapOwner: map<string, string>, starts: seq<string>, ghost g: Graph) returns (order: seq<string>)
    requires byId == ById(revs) && g.Keys == byId.Keys == snapOf.Keys && EdgesWithin(g)
    requires forall id :: id in g ==> g[id] == Owners(snapOf[id].parents, snapOwner)
    requires forall id :: id in starts <==> id in byId
    ensures Distinct(order) && Elems(order) == g.Keys
    ensures TargetsFirst(g, order) <==> Acyclic(g)
  {
    var walk := new TopoWalk(byId, snapOf, snapOwner);
    for i := 0 to |starts|
      invariant walk.Valid(g, [])
      invariant forall m :: 0 <= m < i ==> starts[m] in walk.visited
    {
      walk.Visit(starts[i], g, []);
    }
    order := walk.order;
    forall id | id in g
      ensures id in order
    {
      assert id in starts;
    }
    if TargetsFirst(g, order) {
      TargetsFirstIsOrdered(g, order);
      OrderedIsAcyclic(g, order);
    }
  }

  lemma TargetsFirstIsOrdered(g: Graph, order: seq<string>)
    requires Distinct(order) && Elems(order) == g.Keys && EdgesWithin(g) && TargetsFirst(g, order)
    ensures OrderedBy(g, order)
  {
    forall x, y | Edge(g, x, y)
      ensures x in order && y in order
    {
      assert x in Elems(order) && y in Elems(order);
    }
    forall i, j | 0 <= i < |order| && 0 <= j < |order| && Edge(g, order[i], order[j])
      ensures j < i
    {
      assert order[j] in order[..i];
      var k :| 0 <= k < i && order[..i][k] == order[j];
      assert order[k] == order[j];
    }
  }

  datatype GraphNode = GraphNode(revisionId: string, snapshot: string, parents: seq<string>, isHead: bool)

  /** A parent is shown as its owner, or as the bare hash when no listed revision owns it. */
  function ShownParents(parents: seq<string>, snapOwner: map<string, string>): seq<string> {
    seq(|parents|, i requires 0 <= i < |parents| =>
      if parents[i] in snapOwner then snapOwner[parents[i]] else parents[i])
  }

  function NodeIds(nodes: seq<GraphNode>): seq<string> {
    seq(|nodes|, i requires 0 <= i < |nodes| => nodes[i].revisionId)
  }

  function EffectiveLimit(limit: int): nat {
    if limit <= 0 then 100 else limit
  }

  /** What a node says about its revision: the last listed entry of its id, that entry's
      parents one by one, and whether it is nobody's parent. */
  ghost predicate NodeSays(revs: seq<Revision>, snapshots: map<string, Snapshot>, n: GraphNode)
    requires AllReadable(revs, snapshots)
  {
    && (exists i :: LastWithId(revs, i, n.revisionId) && revs[i].hash == n.snapshot)
    && n.snapshot in snapshots && |n.parents| == |snapshots[n.snapshot].parents|
    && (forall i :: 0 <= i < |n.parents| ==>
          ShownAs(revs, snapshots, snapshots[n.snapshot].parents[i], n.parents[i]))
    && (n.isHead <==> forall x :: !ViewParent(revs, snapshots, x, n.revisionId))
  }

  method ShowParents(parents: seq<string>, snapOwner: map<string, string>) returns (shown: seq<string>)
    ensures shown == ShownParents(parents, snapOwner)
  {
    shown := [];
    for k := 0 to |parents|
      invariant shown == ShownParents(parents[..k], snapOwner)
    {
      var p := parents[k];
      shown := shown + [if p in snapOwner then snapOwner[p] else p];
    }
    assert parents[..|parents|] == parents;
  }

  lemma NodeIsRight(revs: seq<Revision>, snapshots: map<string, Snapshot>, id: string, head: bool)
    requires AllReadable(revs, snapshots) && id in ById(revs) && (head <==> IsHead(ViewGraph(revs, snapshots), id))
    ensures var re := ById(revs)[id];
      NodeSays(revs, snapshots,
        GraphNode(re.id, re.hash, ShownParents(snapshots[re.hash].parents, OwnerByRecordedHash(revs, snapshots)), head))
  {
    hide OwnerByRecordedHash, ViewParent, ShownParents, ShownAs;
    var i := SomeIsLastWithId(revs, id);
    ByIdHoldsTheLast(revs, i);
    ParentsAreShown(revs, snapshots, snapshots[revs[i].hash].parents);
    ViewEdgesAreParents(revs, snapshots);
  }

  method MakeNodes(revs: seq<Revision>, snapshots: map<string, Snapshot>, order: seq<string>,
      byId: map<string, Revision>, snapOwner: map<string, string>, heads: set<string>)
    returns (nodes: seq<GraphNode>)
    requires AllReadable(revs, snapshots)
    requires byId == ById(revs) && snapOwner == OwnerByRecordedHash(revs, snapshots)
    requires forall id :: id in heads <==> IsHead(ViewGraph(revs, snapshots), id)
    requires forall i :: 0 <= i < |order| ==> order[i] in byId
    ensures NodeIds(nodes) == order
    ensures forall n :: n in nodes ==> NodeSays(revs, snapshots, n)
  {
    hide ById, OwnerByRecordedHash, ViewParent, ShownParents, ShownAs, NodeSays;
    nodes := [];
    for i := 0 to |order|
      invariant NodeIds(nodes) == order[..i]
      invariant forall n :: n in nodes ==> NodeSays(revs, snapshots, n)
    {
      var re := byId[order[i]];
      var parents := ShowParents(snapshots[re.hash].parents, snapOwner);
      NodeIsRight(revs, snapshots, re.id, re.id in heads);
      nodes := nodes + [GraphNode(re.id, re.hash, parents, re.id in heads)];
    }
    assert order[..|order|] == order;
  }

  /** The view. `starts` is the listed ids in the order the sort by creation time puts
      them; nothing below depends on that order. Up to the limit there is one node per
      listed revision, parents strictly before children whenever the parent relation
      is acyclic, also in an answer that was cut short. */
  method ViewRevisions(revs: seq<Revision>, snapshots: map<string, Snapshot>, starts: seq<string>, limit: int)
    returns (nodes: seq<GraphNode>)
    requires AllReadable(revs, snapshots)
    requires forall id :: id in starts <==> id in ById(revs)
    ensures Distinct(NodeIds(nodes)) && Elems(NodeIds(nodes)) <= ById(revs).Keys
    ensures forall x, y :: Edge(ViewGraph(revs, snapshots), x, y) <==> ViewParent(revs, snapshots, x, y)
    ensures var most := if limit <= 0 then 100 else limit;
      |nodes| == if |ById(revs)| > most then most else |ById(revs)|
    ensures |ById(revs)| == |nodes| ==> Elems(NodeIds(nodes)) == ById(revs).Keys
    ensures Acyclic(ViewGraph(revs, snapshots)) ==> TargetsFirst(ViewGraph(revs, snapshots), NodeIds(nodes))
    ensures |ById(revs)| == |nodes| && TargetsFirst(ViewGraph(revs, snapshots), NodeIds(nodes))
      ==> Acyclic(ViewGraph(revs, snapshots))
    ensures forall n :: n in nodes ==> NodeSays(revs, snapshots, n)
  {
    hide Acyclic, NodeSays, ViewParent, OwnerByRecordedHash, ShownParents, Owners;
    ViewEdgesAreParents(revs, snapshots);
    var byId, snapOf, snapOwner := IndexSnapshots(revs, snapshots);
    ghost var g := ViewGraph(revs, snapshots);
    ViewGraphMatches(revs, snapshots, snapOf);
    var order := EmitOrder(revs, byId, snapOf, snapOwner, starts, g);
    var heads := Heads(revs, snapOf, snapOwner, g);
    OrderIsListed(order, byId);
    nodes := MakeNodes(revs, snapshots, order, byId, snapOwner, heads);
    CutOrder(g, order, EffectiveLimit(limit));
    nodes := CutAt(nodes, order, EffectiveLimit(limit));
  }

  method CutAt(nodes: seq<GraphNode>, ghost order: seq<string>, limit: nat) returns (cut: seq<GraphNode>)
    requires NodeIds(nodes) == order
    ensures NodeIds(cut) == if |order| > limit then order[..limit] else order
    ensures |cut| == if |order| > limit then limit else |order|
    ensures forall n :: n in cut ==> n in nodes
  {
    cut := nodes;
    if |nodes| > limit {
      cut := nodes[..limit];
      assert NodeIds(cut) == NodeIds(nodes)[..limit];
    }
  }

  lemma ViewGraphMatches(revs: seq<Revision>, snapshots: map<string, Snapshot>, snapOf: map<string, Snapshot>)
    requires AllReadable(revs, snapshots) && snapOf.Keys == ById(revs).Keys
    requires forall id :: id in snapOf ==> snapOf[id] == snapshots[ById(revs)[id].hash]
    ensures ViewGraph(revs, snapshots).Keys == ById(revs).Keys
    ensures EdgesWithin(ViewGraph(revs, snapshots))
    ensures forall id :: id in ViewGraph(revs, snapshots) ==>
      ViewGraph(revs, snapshots)[id] == Owners(snapOf[id].parents, OwnerByRecordedHash(revs, snapshots))
  {
  }

  lemma OrderIsListed(order: seq<string>, byId: map<string, Revision>)
    requires Distinct(order) && Elems(order) == byId.Keys
    ensures |order| == |byId|
    ensures forall i :: 0 <= i < |order| ==> order[i] in byId
  {
    DistinctCount(order);
    assert |byId.Keys| == |byId|;
    forall i | 0 <= i < |order|
      ensures order[i] in byId
    {
      assert order[i] in Elems(order);
    }
  }

  lemma CutOrder(g: Graph, order: seq<string>, cut: nat)
    requires Distinct(order)
    ensures cut < |order| ==> Distinct(order[..cut]) && Elems(order[..cut]) <= Elems(order)
    ensures cut < |order| && TargetsFirst(g, order) ==> TargetsFirst(g, order[..cut])
  {
    if cut < |order| {
      forall i | 0 <= i < cut
        ensures order[..cut][..i] == order[..i]
      {
      }
    }
  }
}
