/** Finite directed graphs, paths, and the fact the history walks and the job
    scheduler both rest on: a nonempty set that every member can step inside of
    contains a cycle. */
module Digraph {

  type Graph = map<string, set<string>>

  ghost predicate Edge(g: Graph, x: string, y: string) {
    x in g && y in g[x]
  }

  ghost predicate IsPath(g: Graph, p: seq<string>) {
    |p| > 0 && forall i :: 0 <= i < |p| - 1 ==> Edge(g, p[i], p[i + 1])
  }

  /** No path of at least one edge ends where it began. */
  ghost predicate Acyclic(g: Graph) {
    forall p :: IsPath(g, p) && |p| >= 2 ==> p[0] != p[|p| - 1]
  }

  ghost function Elems(s: seq<string>): set<string> {
    set x | x in s
  }

  ghost predicate Distinct<T(!new)>(s: seq<T>) {
    forall i, j :: 0 <= i < j < |s| ==> s[i] != s[j]
  }

  lemma {:induction false} DistinctFits<T(!new)>(s: seq<T>, within: set<T>)
    requires Distinct(s) && forall i :: 0 <= i < |s| ==> s[i] in within
    ensures |s| <= |within|
  {
    if s != [] {
      var last := |s| - 1;
      DistinctFits(s[..last], within - {s[last]});
    }
  }

  lemma {:induction false} DistinctCount<T(!new)>(s: seq<T>)
    ensures |set x | x in s| <= |s|
    ensures Distinct(s) <==> |set x | x in s| == |s|
  {
    if s != [] {
      var last := |s| - 1;
      var init := s[..last];
      DistinctCount(init);
      assert (set x | x in s) == (set x | x in init) + {s[last]};
      if s[last] in init {
        assert (set x | x in s) == (set x | x in init);
        var i :| 0 <= i < last && init[i] == s[last];
        assert s[i] == s[last];
      } else if Distinct(init) {
        assert forall i :: 0 <= i < last ==> s[i] == init[i] && s[i] != s[last];
      } else {
        var i, j :| 0 <= i < j < |init| && init[i] == init[j];
        assert s[i] == s[j];
      }
    }
  }

  ghost predicate CanStep(g: Graph, inside: set<string>, x: string) {
    exists y :: y in inside && Edge(g, x, y)
  }

  /** A walk of any length inside a set whose members all have an edge into it. */
  lemma {:induction false} WalkInside(g: Graph, inside: set<string>, steps: nat) returns (p: seq<string>)
    requires inside != {}
    requires forall x :: x in inside ==> CanStep(g, inside, x)
    ensures IsPath(g, p) && |p| == steps + 1
    ensures forall i :: 0 <= i < |p| ==> p[i] in inside
  {
    if steps == 0 {
      var x :| x in inside;
      p := [x];
    } else {
      var q := WalkInside(g, inside, steps - 1);
      assert CanStep(g, inside, q[|q| - 1]);
      var y :| y in inside && Edge(g, q[|q| - 1], y);
      p := q + [y];
    }
  }

  /** A path with more nodes than there are places for them repeats one of them. */
  lemma CrowdedPathHasCycle(g: Graph, inside: set<string>, p: seq<string>)
    requires IsPath(g, p) && |p| > |inside|
    requires forall i :: 0 <= i < |p| ==> p[i] in inside
    ensures !Acyclic(g)
  {
    if Distinct(p) {
      DistinctFits(p, inside);
      assert false;
    }
    var i, j :| 0 <= i < j < |p| && p[i] == p[j];
    var cycle := p[i..j + 1];
    assert forall m :: 0 <= m < |cycle| ==> cycle[m] == p[i + m];
    assert IsPath(g, cycle);
    assert cycle[0] == cycle[|cycle| - 1];
  }

  lemma StuckSetHasCycle(g: Graph, inside: set<string>)
    requires inside != {}
    requires forall x :: x in inside ==> CanStep(g, inside, x)
    ensures !Acyclic(g)
  {
    var p := WalkInside(g, inside, |inside|);
    CrowdedPathHasCycle(g, inside, p);
  }

  /** Targets strictly before sources in some distinct list of all sources. */
  ghost predicate OrderedBy(g: Graph, order: seq<string>) {
    && Distinct(order)
    && (forall x, y :: Edge(g, x, y) ==> x in order && y in order)
    && (forall i, j :: 0 <= i < |order| && 0 <= j < |order| && Edge(g, order[i], order[j]) ==> j < i)
  }

  lemma {:induction false} PathDescends(g: Graph, order: seq<string>, p: seq<string>)
    requires OrderedBy(g, order) && IsPath(g, p) && |p| >= 2
    ensures exists i, j :: 0 <= j < i < |order| && order[i] == p[0] && order[j] == p[|p| - 1]
  {
    var last := |p| - 1;
    assert Edge(g, p[last - 1], p[last]);
    if |p| == 2 {
      var i :| 0 <= i < |order| && order[i] == p[0];
      var j :| 0 <= j < |order| && order[j] == p[1];
    } else {
      PathDescends(g, order, p[..last]);
      var i, k :| 0 <= k < i < |order| && order[i] == p[0] && order[k] == p[last - 1];
      var j :| 0 <= j < |order| && order[j] == p[last];
    }
  }

  lemma OrderedIsAcyclic(g: Graph, order: seq<string>)
    requires OrderedBy(g, order)
    ensures Acyclic(g)
  {
    forall p | IsPath(g, p) && |p| >= 2
      ensures p[0] != p[|p| - 1]
    {
      PathDescends(g, order, p);
    }
  }
}
