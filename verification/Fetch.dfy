/** Selective fetch: the ancestor walk over the parent-owner graph and the bundle
    filter it drives. */
module Fetch {
  import opened Wrappers
  import opened Digraph
  import opened History

  ghost predicate AvoidingPath(g: Graph, have: set<string>, p: seq<string>) {
    IsPath(g, p) && forall i :: 0 <= i < |p| ==> p[i] !in have
  }

  /** `to` can be reached from `from` without touching an id of `have`. */
  ghost predicate Reaches(g: Graph, have: set<string>, from: string, to: string) {
    exists p :: AvoidingPath(g, have, p) && p[0] == from && p[|p| - 1] == to
  }

  ghost predicate ReachedFromWants(g: Graph, wants: seq<string>, have: set<string>, id: string) {
    exists w :: w in wants && Reaches(g, have, w, id)
  }

  /** Every edge out of `xs` stays within `result` or enters `have`. */
  ghost predicate ClosedOver(g: Graph, have: set<string>, xs: set<string>, result: set<string>) {
    forall x, y :: x in xs && Edge(g, x, y) ==> y in result || y in have
  }

  lemma ReachesSelf(g: Graph, have: set<string>, x: string)
    requires x !in have
    ensures Reaches(g, have, x, x)
  {
    assert AvoidingPath(g, have, [x]);
  }

  lemma ReachesThrough(g: Graph, have: set<string>, x: string, y: string, z: string)
    requires x !in have && Edge(g, x, y) && Reaches(g, have, y, z)
    ensures Reaches(g, have, x, z)
  {
    var p :| AvoidingPath(g, have, p) && p[0] == y && p[|p| - 1] == z;
    var q := [x] + p;
    assert forall i :: 1 <= i < |q| ==> q[i] == p[i - 1];
    assert AvoidingPath(g, have, q);
  }

  lemma {:induction false} ClosedHoldsPaths(g: Graph, have: set<string>, result: set<string>, p: seq<string>)
    requires ClosedOver(g, have, result, result)
    requires AvoidingPath(g, have, p) && p[0] in result
    ensures p[|p| - 1] in result
  {
    if |p| > 1 {
      assert Edge(g, p[0], p[1]);
      var rest := p[1..];
      assert forall i :: 0 <= i < |rest| ==> rest[i] == p[i + 1];
      assert AvoidingPath(g, have, rest);
      ClosedHoldsPaths(g, have, result, rest);
    }
  }

  /** The closure `visit` with the variables it captures. */
  class AncestorWalk {
    const byId: map<string, Revision>
    const snapshots: map<string, Snapshot>
    const snapOwner: map<string, string>
    const have: set<string>
    var result: set<string>

    constructor (byId: map<string, Revision>, snapshots: map<string, Snapshot>,
        snapOwner: map<string, string>, have: set<string>)
      ensures this.byId == byId && this.snapshots == snapshots
      ensures this.snapOwner == snapOwner && this.have == have && result == {}
    {
      this.byId, this.snapshots, this.snapOwner, this.have := byId, snapshots, snapOwner, have;
      result := {};
    }

    ghost function Parents(): Graph {
      ParentGraph(byId, snapshots, snapOwner)
    }

    method Visit(id: string)
      modifies this
      ensures old(result) <= result
      ensures id in result || id in have
      ensures ClosedOver(Parents(), have, result - old(result), result)
      ensures forall x :: x in result - old(result) ==> Reaches(Parents(), have, id, x)
      decreases byId.Keys - result
    {
      if id in have || id in result {
        return;
      }
      result := result + {id};
      ReachesSelf(Parents(), have, id);
      if id !in byId {
        return;
      }
      var ch := byId[id];
      if ch.hash !in snapshots {
        return;
      }
      var parents := snapshots[ch.hash].parents;
      for i := 0 to |parents|
        invariant old(result) + {id} <= result
        invariant ClosedOver(Parents(), have, result - old(result) - {id}, result)
        invariant forall m :: 0 <= m < i && parents[m] in snapOwner ==>
          snapOwner[parents[m]] in result || snapOwner[parents[m]] in have
        invariant forall x :: x in result - old(result) ==> Reaches(Parents(), have, id, x)
      {
        if parents[i] in snapOwner {
          var owner := snapOwner[parents[i]];
          assert Edge(Parents(), id, owner);
          ghost var before := result;
          Visit(owner);
          forall x | x in result - before
            ensures Reaches(Parents(), have, id, x)
          {
            ReachesThrough(Parents(), have, id, owner, x);
          }
        }
      }
    }
  }

  method IndexById(revs: seq<Revision>) returns (byId: map<string, Revision>)
    ensures byId == ById(revs)
  {
    byId := map[];
    for i := 0 to |revs|
      invariant byId == ById(revs[..i])
    {
      assert revs[..i + 1][..i] == revs[..i];
      byId := byId[revs[i].id := revs[i]];
    }
    assert revs[..|revs|] == revs;
  }

  method IndexOwners(revs: seq<Revision>) returns (snapOwner: map<string, string>)
    ensures snapOwner == SnapOwner(revs)
  {
    snapOwner := map[];
    for i := 0 to |revs|
      invariant snapOwner == SnapOwner(revs[..i])
    {
      assert revs[..i + 1][..i] == revs[..i];
      snapOwner := snapOwner[revs[i].hash := revs[i].id];
    }
    assert revs[..|revs|] == revs;
  }

  /** A chain of recorded parents, none of them owned by the client. */
  ghost predicate Lineage(revs: seq<Revision>, snapshots: map<string, Snapshot>, have: set<string>, p: seq<string>) {
    && |p| > 0 && (forall i :: 0 <= i < |p| ==> p[i] !in have)
    && forall i :: 0 <= i < |p| - 1 ==> IsParent(revs, snapshots, p[i], p[i + 1])
  }

  /** A wanted revision, or an ancestor of one, with nothing the client has on the way. */
  ghost predicate WantedAncestor(revs: seq<Revision>, snapshots: map<string, Snapshot>, wants: seq<string>,
      have: set<string>, id: string)
  {
    exists p :: Lineage(revs, snapshots, have, p) && p[0] in wants && p[|p| - 1] == id
  }

  lemma ReachedAreWantedAncestors(revs: seq<Revision>, snapshots: map<string, Snapshot>, wants: seq<string>,
      have: set<string>)
    ensures forall id ::
      ReachedFromWants(RepoGraph(revs, snapshots), wants, have, id) <==> WantedAncestor(revs, snapshots, wants, have, id)
  {
    hide RepoGraph, IsParent;
    var g := RepoGraph(revs, snapshots);
    EdgesAreParents(revs, snapshots);
    forall id
      ensures ReachedFromWants(g, wants, have, id) <==> WantedAncestor(revs, snapshots, wants, have, id)
    {
      if ReachedFromWants(g, wants, have, id) {
        var w :| w in wants && Reaches(g, have, w, id);
        var p :| AvoidingPath(g, have, p) && p[0] == w && p[|p| - 1] == id;
        assert Lineage(revs, snapshots, have, p);
      }
      if p :| Lineage(revs, snapshots, have, p) && p[0] in wants && p[|p| - 1] == id {
        assert AvoidingPath(g, have, p);
        assert Reaches(g, have, p[0], id);
      }
    }
  }

  /** The walk is exact: an id is returned if and only if some wanted id reaches it
      without passing through an id the client has. A failed listing (`None`) gives
      the empty set. */
  method ChangeSetWithAncestors(listed: Option<seq<Revision>>, snapshots: map<string, Snapshot>,
      wants: seq<string>, have: set<string>) returns (result: set<string>)
    ensures listed.None? ==> result == {}
    ensures listed.Some? ==> forall id ::
      id in result <==> ReachedFromWants(RepoGraph(listed.value, snapshots), wants, have, id)
    ensures listed.Some? ==> forall id ::
      id in result <==> WantedAncestor(listed.value, snapshots, wants, have, id)
  {
    if listed.None? {
      return {};
    }
    var byId := IndexById(listed.value);
    var snapOwner := IndexOwners(listed.value);
    var walk := new AncestorWalk(byId, snapshots, snapOwner, have);
    ghost var g := RepoGraph(listed.value, snapshots);
    for i := 0 to |wants|
      invariant ClosedOver(g, have, walk.result, walk.result)
      invariant forall m :: 0 <= m < i ==> wants[m] in walk.result || wants[m] in have
      invariant forall x :: x in walk.result ==> ReachedFromWants(g, wants, have, x)
    {
      ghost var before := walk.result;
      walk.Visit(wants[i]);
      assert forall x :: x in walk.result - before ==> ReachedFromWants(g, wants, have, x);
    }
    result := walk.result;
    forall id | ReachedFromWants(g, wants, have, id)
      ensures id in result
    {
      var w :| w in wants && Reaches(g, have, w, id);
      var p :| AvoidingPath(g, have, p) && p[0] == w && p[|p| - 1] == id;
      ClosedHoldsPaths(g, have, result, p);
    }
    ReachedAreWantedAncestors(listed.value, snapshots, wants, have);
  }

  // ----- the bundle -----

  datatype Bundle = Bundle(revisions: seq<Revision>, snapshots: seq<Snapshot>,
    objects: set<string>, refs: map<string, string>)

  function SnapByChange(snapshots: seq<Snapshot>): (m: map<string, Snapshot>)
    ensures forall id :: id in m <==> exists s :: s in snapshots && s.revisionId == id
    ensures forall id :: id in m ==> m[id] in snapshots && m[id].revisionId == id
  {
    if snapshots == [] then map[]
    else
      var last := snapshots[|snapshots| - 1];
      assert forall s :: s in snapshots <==> s in snapshots[..|snapshots| - 1] || s == last;
      SnapByChange(snapshots[..|snapshots| - 1])[last.revisionId := last]
  }

  /** Entry `i` is the last of the list for this revision. */
  ghost predicate LastOfChange(snapshots: seq<Snapshot>, i: int, id: string) {
    0 <= i < |snapshots| && snapshots[i].revisionId == id
    && forall j :: i < j < |snapshots| ==> snapshots[j].revisionId != id
  }

  /** Of several snapshots of one revision the last is taken. */
  lemma {:induction false} SnapByChangeHoldsTheLast(snapshots: seq<Snapshot>, i: nat, id: string)
    requires LastOfChange(snapshots, i, id)
    ensures id in SnapByChange(snapshots) && SnapByChange(snapshots)[id] == snapshots[i]
  {
    var n := |snapshots| - 1;
    if i < n {
      assert snapshots[n].revisionId != id;
      SnapByChangeHoldsTheLast(snapshots[..n], i, id);
    }
  }

  function KeptRevisions(revs: seq<Revision>, wanted: set<string>): (kept: seq<Revision>)
    ensures forall r :: r in kept <==> r in revs && r.id in wanted
  {
    if revs == [] then []
    else
      var last := revs[|revs| - 1];
      var init := KeptRevisions(revs[..|revs| - 1], wanted);
      assert forall r :: r in revs <==> r in revs[..|revs| - 1] || r == last;
      if last.id in wanted then init + [last] else init
  }

  function SnapshotsOf(kept: seq<Revision>, byChange: map<string, Snapshot>): (snaps: seq<Snapshot>)
    ensures forall s :: s in snaps <==> exists r :: r in kept && r.id in byChange && s == byChange[r.id]
  {
    if kept == [] then []
    else
      var last := kept[|kept| - 1];
      var init := SnapshotsOf(kept[..|kept| - 1], byChange);
      assert forall r :: r in kept <==> r in kept[..|kept| - 1] || r == last;
      if last.id in byChange then init + [byChange[last.id]] else init
  }

  method IndexSnapshots(snapshots: seq<Snapshot>) returns (snapByChange: map<string, Snapshot>)
    ensures snapByChange == SnapByChange(snapshots)
  {
    snapByChange := map[];
    for i := 0 to |snapshots|
      invariant snapByChange == SnapByChange(snapshots[..i])
    {
      assert snapshots[..i + 1][..i] == snapshots[..i];
      snapByChange := snapByChange[snapshots[i].revisionId := snapshots[i]];
    }
    assert snapshots[..|snapshots|] == snapshots;
  }

  /** Positions of a list, each before the next. */
  ghost predicate Ascending(at: seq<nat>, n: nat) {
    (forall i :: 0 <= i < |at| ==> at[i] < n) && forall i, j :: 0 <= i < j < |at| ==> at[i] < at[j]
  }

  /** `kept` is what stands at these positions, which are those of the wanted. */
  ghost predicate Picks(revs: seq<Revision>, wanted: set<string>, kept: seq<Revision>, at: seq<nat>) {
    && Ascending(at, |revs|) && (forall j: nat :: j in at <==> j < |revs| && revs[j].id in wanted)
    && |kept| == |at| && forall i :: 0 <= i < |at| ==> kept[i] == revs[at[i]]
  }

  lemma PickedOneMore(revs: seq<Revision>, wanted: set<string>, kept: seq<Revision>, at: seq<nat>)
    requires revs != [] && Picks(revs[..|revs| - 1], wanted, kept, at)
    ensures var n := |revs| - 1;
      if revs[n].id in wanted then Picks(revs, wanted, kept + [revs[n]], at + [n]) else Picks(revs, wanted, kept, at)
  {
  }

  /** Filtering picks every wanted revision, as often as it is listed, in the order of the
      list. */
  lemma {:induction false} KeptInOrder(revs: seq<Revision>, wanted: set<string>) returns (at: seq<nat>)
    ensures Picks(revs, wanted, KeptRevisions(revs, wanted), at)
  {
    at := [];
    if revs != [] {
      hide Picks;
      var n := |revs| - 1;
      at := KeptInOrder(revs[..n], wanted);
      PickedOneMore(revs, wanted, KeptRevisions(revs[..n], wanted), at);
      if revs[n].id in wanted {
        at := at + [n];
      }
    }
  }

  /** Each kept revision that has a snapshot brings it along, in the same order. */
  lemma {:induction false} SnapshotsInOrder(kept: seq<Revision>, byChange: map<string, Snapshot>) returns (at: seq<nat>)
    ensures Ascending(at, |kept|) && forall j: nat :: j in at <==> j < |kept| && kept[j].id in byChange
    ensures |SnapshotsOf(kept, byChange)| == |at|
    ensures forall i :: 0 <= i < |at| ==> SnapshotsOf(kept, byChange)[i] == byChange[kept[at[i]].id]
  {
    at := [];
    if kept != [] {
      var n := |kept| - 1;
      at := SnapshotsInOrder(kept[..n], byChange);
      if kept[n].id in byChange {
        at := at + [n];
      }
    }
  }

  lemma KeptStep(revs: seq<Revision>, i: nat, wanted: set<string>)
    requires i < |revs|
    ensures KeptRevisions(revs[..i + 1], wanted)
      == KeptRevisions(revs[..i], wanted) + if revs[i].id in wanted then [revs[i]] else []
  {
    assert revs[..i + 1][..i] == revs[..i];
  }

  lemma SnapshotsStep(kept: seq<Revision>, ch: Revision, byChange: map<string, Snapshot>)
    ensures SnapshotsOf(kept + [ch], byChange)
      == SnapshotsOf(kept, byChange) + if ch.id in byChange then [byChange[ch.id]] else []
  {
    assert (kept + [ch])[..|kept|] == kept;
  }

  lemma NothingFiltered(wanted: set<string>, byChange: map<string, Snapshot>)
    ensures KeptRevisions([], wanted) == [] && SnapshotsOf([], byChange) == []
  {
  }

  method FilterBundle(b: Bundle, wanted: set<string>) returns (out: Bundle)
    ensures wanted == {} ==> out == b
    ensures wanted != {} ==> out == Bundle(KeptRevisions(b.revisions, wanted),
      SnapshotsOf(KeptRevisions(b.revisions, wanted), SnapByChange(b.snapshots)), b.objects, b.refs)
  {
    hide KeptRevisions, SnapshotsOf;
    if |wanted| == 0 {
      return b;
    }
    NothingFiltered(wanted, SnapByChange(b.snapshots));
    var snapByChange := IndexSnapshots(b.snapshots);
    var keptChanges: seq<Revision> := [];
    var keptSnapshots: seq<Snapshot> := [];
    for i := 0 to |b.revisions|
      invariant keptChanges == KeptRevisions(b.revisions[..i], wanted)
      invariant keptSnapshots == SnapshotsOf(keptChanges, snapByChange)
    {
      var ch := b.revisions[i];
      KeptStep(b.revisions, i, wanted);
      SnapshotsStep(keptChanges, ch, snapByChange);
      if ch.id in wanted {
        keptChanges := keptChanges + [ch];
        if ch.id in snapByChange {
          keptSnapshots := keptSnapshots + [snapByChange[ch.id]];
        }
      }
    }
    assert b.revisions[..|b.revisions|] == b.revisions;
    out := Bundle(keptChanges, keptSnapshots, b.objects, b.refs);
  }

  ghost predicate OwnedBySome(revs: seq<Revision>, snapshots: map<string, Snapshot>, s: Snapshot) {
    exists r :: r in revs && r.hash in snapshots && s == snapshots[r.hash]
  }

  /** What the collector promises: every listed revision the client lacks, each with
      its snapshot, and no other snapshot; a snapshot names the revision it is of. */
  ghost predicate Collected(revs: seq<Revision>, snapshots: map<string, Snapshot>, have: set<string>, b: Bundle) {
    && (forall r :: r in b.revisions <==> r in revs && r.id !in have)
    && (forall r :: r in b.revisions ==> r.hash in snapshots && snapshots[r.hash].revisionId == r.id)
    && (forall s :: s in b.snapshots <==> OwnedBySome(b.revisions, snapshots, s))
  }

  ghost predicate DistinctIds(revs: seq<Revision>) {
    forall r, q :: r in revs && q in revs && r.id == q.id ==> r == q
  }

  ghost function Ids(revs: seq<Revision>): set<string> {
    set r | r in revs :: r.id
  }

  /** Each owned parent of a member is a member. */
  ghost predicate HoldsParents(revs: seq<Revision>, snapshots: map<string, Snapshot>, ids: set<string>) {
    forall x, y :: x in ids && IsParent(revs, snapshots, x, y) ==> y in ids
  }

  /** With every revision sent, each of its parents that a listed revision owns is sent or
      already there, so what the client ends up with holds all parents whenever what it
      had did; and exactly the snapshots of the revisions sent are sent. */
  ghost predicate Complete(revs: seq<Revision>, snapshots: map<string, Snapshot>, have: set<string>, b: Bundle) {
    && (forall r, y :: r in b.revisions && IsParent(revs, snapshots, r.id, y) ==> y in Ids(b.revisions) || y in have)
    && (HoldsParents(revs, snapshots, have) ==> HoldsParents(revs, snapshots, have + Ids(b.revisions)))
    && (forall s :: s in b.snapshots <==> OwnedBySome(b.revisions, snapshots, s))
  }

  /** The delta a fetch answers with. Whatever was asked for, the owned parents of a
      sent revision are sent too or already owned, and the snapshots sent are exactly
      those of the sent revisions. Naming wanted revisions narrows the delta to what
      they reach, unless the client owns all of them: then nothing is narrowed. */
  method SelectDelta(revs: seq<Revision>, snapshots: map<string, Snapshot>,
      wants: seq<string>, have: set<string>, collected: Bundle) returns (b: Bundle)
    requires DistinctIds(revs) && Collected(revs, snapshots, have, collected)
    ensures Complete(revs, snapshots, have, b)
    ensures forall r :: r in b.revisions <==>
      && r in revs && r.id !in have
      && ((exists w :: w in wants && w !in have) ==> WantedAncestor(revs, snapshots, wants, have, r.id))
    ensures b.objects == collected.objects && b.refs == collected.refs
  {
    hide IsParent, RepoGraph;
    b := collected;
    ghost var g := RepoGraph(revs, snapshots);
    EdgesStayListed(revs, snapshots);
    EdgesAreParents(revs, snapshots);
    if |wants| > 0 {
      var wanted := ChangeSetWithAncestors(Some(revs), snapshots, wants, have);
      b := FilterBundle(b, wanted);
      WantedNonempty(g, wants, have, wanted);
      if wanted != {} {
        FilteredIsComplete(revs, snapshots, wants, have, collected, wanted, b);
      }
    }
  }

  lemma EdgesStayListed(revs: seq<Revision>, snapshots: map<string, Snapshot>)
    ensures forall x, y :: Edge(RepoGraph(revs, snapshots), x, y) ==> y in ById(revs)
  {
    OwnersAreListed(revs);
  }

  lemma WantedNonempty(g: Graph, wants: seq<string>, have: set<string>, wanted: set<string>)
    requires forall id :: id in wanted <==> ReachedFromWants(g, wants, have, id)
    ensures wanted != {} <==> exists w :: w in wants && w !in have
  {
    if w :| w in wants && w !in have {
      ReachesSelf(g, have, w);
      assert w in wanted;
    }
    if id :| id in wanted {
      var w :| w in wants && Reaches(g, have, w, id);
      var p :| AvoidingPath(g, have, p) && p[0] == w && p[|p| - 1] == id;
    }
  }

  lemma ReachExtends(g: Graph, wants: seq<string>, have: set<string>, x: string, y: string)
    requires ReachedFromWants(g, wants, have, x) && Edge(g, x, y) && y !in have
    ensures ReachedFromWants(g, wants, have, y)
  {
    var w :| w in wants && Reaches(g, have, w, x);
    var p :| AvoidingPath(g, have, p) && p[0] == w && p[|p| - 1] == x;
    var q := p + [y];
    assert forall i :: 0 <= i < |p| ==> q[i] == p[i];
    assert AvoidingPath(g, have, q);
  }

  lemma FilteredIsComplete(revs: seq<Revision>, snapshots: map<string, Snapshot>, wants: seq<string>,
      have: set<string>, collected: Bundle, wanted: set<string>, b: Bundle)
    requires DistinctIds(revs) && Collected(revs, snapshots, have, collected)
    requires forall id :: id in wanted <==> ReachedFromWants(RepoGraph(revs, snapshots), wants, have, id)
    requires b.revisions == KeptRevisions(collected.revisions, wanted)
    requires b.snapshots == SnapshotsOf(b.revisions, SnapByChange(collected.snapshots))
    ensures Complete(revs, snapshots, have, b)
  {
    hide RepoGraph, IsParent, ReachedFromWants, SnapshotsOf, SnapByChange, OwnedBySome;
    var g := RepoGraph(revs, snapshots);
    EdgesStayListed(revs, snapshots);
    EdgesAreParents(revs, snapshots);
    forall r, y | r in b.revisions && IsParent(revs, snapshots, r.id, y)
      ensures y in Ids(b.revisions) || y in have
    {
      assert Edge(g, r.id, y);
      if y !in have {
        ReachExtends(g, wants, have, r.id, y);
        assert ById(revs)[y] in b.revisions;
      }
    }
    KeptSnapshots(revs, snapshots, have, collected, b);
  }

  lemma KeptSnapshots(revs: seq<Revision>, snapshots: map<string, Snapshot>, have: set<string>,
      collected: Bundle, b: Bundle)
    requires DistinctIds(revs) && Collected(revs, snapshots, have, collected)
    requires forall r :: r in b.revisions ==> r in collected.revisions
    requires b.snapshots == SnapshotsOf(b.revisions, SnapByChange(collected.snapshots))
    ensures forall s :: s in b.snapshots <==> OwnedBySome(b.revisions, snapshots, s)
  {
    var byChange := SnapByChange(collected.snapshots);
    forall r | r in b.revisions
      ensures r.id in byChange && byChange[r.id] == snapshots[r.hash]
    {
      assert snapshots[r.hash] in collected.snapshots;
      var q :| q in collected.revisions && byChange[r.id] == snapshots[q.hash];
      assert q == r;
    }
  }
}
