/** Revisions, their snapshots, and the parent-owner graph both history walks run
    over: a parent is named by a snapshot hash and mapped back to the revision that
    owns that snapshot. */
module History {
  import opened Digraph

  datatype Revision = Revision(id: string, hash: string)

  datatype Snapshot = Snapshot(revisionId: string, revisionHash: string, parents: seq<string>)

  /** Later entries win, as in the loops that fill the maps. */
  function ById(revs: seq<Revision>): (m: map<string, Revision>)
    ensures forall id :: id in m <==> exists r :: r in revs && r.id == id
    ensures forall id :: id in m ==> m[id] in revs && m[id].id == id
  {
    if revs == [] then map[]
    else
      var last := revs[|revs| - 1];
      assert forall r :: r in revs <==> r in revs[..|revs| - 1] || r == last;
      ById(revs[..|revs| - 1])[last.id := last]
  }

  function SnapOwner(revs: seq<Revision>): map<string, string> {
    if revs == [] then map[]
    else
      var last := revs[|revs| - 1];
      SnapOwner(revs[..|revs| - 1])[last.hash := last.id]
  }

  /** The revisions that own some of these parent snapshots. */
  function Owners(parents: seq<string>, snapOwner: map<string, string>): set<string> {
    set p | p in parents && p in snapOwner :: snapOwner[p]
  }

  /** The parent-owner edges; a revision whose snapshot cannot be read has none. */
  function ParentGraph(byId: map<string, Revision>, snapshots: map<string, Snapshot>,
      snapOwner: map<string, string>): Graph
  {
    map id | id in byId ::
      if byId[id].hash in snapshots then Owners(snapshots[byId[id].hash].parents, snapOwner) else {}
  }

  lemma {:induction false} OwnersAreListed(revs: seq<Revision>)
    ensures forall h :: h in SnapOwner(revs) ==> SnapOwner(revs)[h] in ById(revs)
  {
    if revs != [] {
      OwnersAreListed(revs[..|revs| - 1]);
    }
  }

  // ----- what the maps hold, in terms of the list -----

  /** Entry `i` is the last of the list under this id. */
  ghost predicate LastWithId(revs: seq<Revision>, i: int, id: string) {
    0 <= i < |revs| && revs[i].id == id && forall j :: i < j < |revs| ==> revs[j].id != id
  }

  /** Entry `i` is the last of the list with this snapshot hash. */
  ghost predicate LastWithHash(revs: seq<Revision>, i: int, hash: string) {
    0 <= i < |revs| && revs[i].hash == hash && forall j :: i < j < |revs| ==> revs[j].hash != hash
  }

  lemma {:induction false} ByIdHoldsTheLast(revs: seq<Revision>, i: nat)
    requires i < |revs| && LastWithId(revs, i, revs[i].id)
    ensures revs[i].id in ById(revs) && ById(revs)[revs[i].id] == revs[i]
  {
    var n := |revs| - 1;
    if i < n {
      assert revs[n].id != revs[i].id;
      ByIdHoldsTheLast(revs[..n], i);
    }
  }

  lemma {:induction false} SomeIsLastWithId(revs: seq<Revision>, id: string) returns (i: nat)
    requires id in ById(revs)
    ensures LastWithId(revs, i, id)
  {
    var n := |revs| - 1;
    if revs[n].id == id {
      i := n;
    } else {
      i := SomeIsLastWithId(revs[..n], id);
    }
  }

  /** A snapshot hash is owned exactly if a listed revision has it, by the last one that
      does. */
  lemma {:induction false} SnapOwnerHoldsTheLast(revs: seq<Revision>, i: nat)
    requires i < |revs| && LastWithHash(revs, i, revs[i].hash)
    ensures revs[i].hash in SnapOwner(revs) && SnapOwner(revs)[revs[i].hash] == revs[i].id
  {
    var n := |revs| - 1;
    if i < n {
      assert revs[n].hash != revs[i].hash;
      SnapOwnerHoldsTheLast(revs[..n], i);
    }
  }

  lemma {:induction false} SomeIsLastWithHash(revs: seq<Revision>, hash: string) returns (i: nat)
    requires hash in SnapOwner(revs) || exists r :: r in revs && r.hash == hash
    ensures LastWithHash(revs, i, hash)
  {
    var n := |revs| - 1;
    if revs[n].hash == hash {
      i := n;
    } else {
      assert forall r :: r in revs <==> r in revs[..n] || r == revs[n];
      i := SomeIsLastWithHash(revs[..n], hash);
    }
  }

  lemma OwnedExactly(revs: seq<Revision>, hash: string)
    ensures hash in SnapOwner(revs) <==> exists r :: r in revs && r.hash == hash
  {
    if hash in SnapOwner(revs) || exists r :: r in revs && r.hash == hash {
      var i := SomeIsLastWithHash(revs, hash);
      SnapOwnerHoldsTheLast(revs, i);
      assert revs[i] in revs;
    }
  }

  /** One of the parents recorded for `x` is the snapshot of `y`. */
  ghost predicate IsParent(revs: seq<Revision>, snapshots: map<string, Snapshot>, x: string, y: string) {
    exists i, j ::
      && LastWithId(revs, i, x) && revs[i].hash in snapshots
      && 0 <= j < |revs| && LastWithHash(revs, j, revs[j].hash)
      && revs[j].hash in snapshots[revs[i].hash].parents && revs[j].id == y
  }

  function RepoGraph(revs: seq<Revision>, snapshots: map<string, Snapshot>): Graph {
    ParentGraph(ById(revs), snapshots, SnapOwner(revs))
  }

  /** The edges of the graph are the recorded parents. */
  lemma EdgesAreParents(revs: seq<Revision>, snapshots: map<string, Snapshot>)
    ensures forall x, y :: Edge(RepoGraph(revs, snapshots), x, y) <==> IsParent(revs, snapshots, x, y)
  {
    forall x, y
      ensures Edge(RepoGraph(revs, snapshots), x, y) <==> IsParent(revs, snapshots, x, y)
    {
      if Edge(RepoGraph(revs, snapshots), x, y) {
        EdgeIsParent(revs, snapshots, x, y);
      }
      if IsParent(revs, snapshots, x, y) {
        ParentIsEdge(revs, snapshots, x, y);
      }
    }
  }

  lemma EdgeIsParent(revs: seq<Revision>, snapshots: map<string, Snapshot>, x: string, y: string)
    requires Edge(RepoGraph(revs, snapshots), x, y)
    ensures IsParent(revs, snapshots, x, y)
  {
    hide ById, SnapOwner;
    var i := SomeIsLastWithId(revs, x);
    ByIdHoldsTheLast(revs, i);
    var h :| h in snapshots[revs[i].hash].parents && h in SnapOwner(revs) && SnapOwner(revs)[h] == y;
    var j := SomeIsLastWithHash(revs, h);
    SnapOwnerHoldsTheLast(revs, j);
  }

  lemma ParentIsEdge(revs: seq<Revision>, snapshots: map<string, Snapshot>, x: string, y: string)
    requires IsParent(revs, snapshots, x, y)
    ensures Edge(RepoGraph(revs, snapshots), x, y)
  {
    hide ById, SnapOwner;
    var i, j :|
      && LastWithId(revs, i, x) && revs[i].hash in snapshots
      && 0 <= j < |revs| && LastWithHash(revs, j, revs[j].hash)
      && revs[j].hash in snapshots[revs[i].hash].parents && revs[j].id == y;
    ByIdHoldsTheLast(revs, i);
    SnapOwnerHoldsTheLast(revs, j);
  }
}
