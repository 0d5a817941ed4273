/** At-least-once delivery, event by event: a handler stopped after any of its calls, by a
    crash or an error, and then run again in full ends where one clean delivery ends. Here
    for events that do not name one session twice. */
module Convergence {
  import opened Wrappers
  import opened Naming
  import opened Mapping
  import opened Stages

  /** `redone` has the rows of `clean`, every branch of it, and at most branches no row
      is bound to besides; it may have missed marks of managed repositories. */
  ghost predicate SameUpToOrphans(clean: World, redone: World) {
    && redone.rows == clean.rows
    && redone.managed <= clean.managed
    && redone.sessions == clean.sessions
    && redone.repos.Keys == clean.repos.Keys
    && (forall at :: at in clean.repos ==> redone.repos[at].log == clean.repos[at].log)
    && (forall at, b :: at in clean.repos && b in clean.repos[at].branches ==>
          b in redone.repos[at].branches && redone.repos[at].branches[b] == clean.repos[at].branches[b])
    && (forall at, b :: at in clean.repos && b in redone.repos[at].branches && b !in clean.repos[at].branches ==>
          Key(at, b) !in clean.rows)
  }

  ghost predicate Converges(w: World, ev: LifecycleEvent) {
    forall i :: 0 <= i < |Deliver(w, ev).worlds| ==>
      SameUpToOrphans(Final(Deliver(w, ev)), Final(Deliver(Crash(Deliver(w, ev).worlds[i]), ev)))
  }

  // ----- running again from any stage -----

  lemma SameAfterCrash(w: World)
    ensures SameUpToOrphans(w, Crash(w))
  {
  }

  lemma ForkEndTwice(w: World, k: Key, sid: string, src: string, other: string)
    requires Listed(w, k.at)
    requires other == src || Branched(w, k, src) != w
    ensures ForkEnd(Branched(w, k, src), k, sid, other) == ForkEnd(w, k, sid, src)
  {
    BranchedOnce(w, k, src);
  }

  lemma BoundOnce(w: World, k: Key, sid: string)
    requires !InsertConflicts(w, k, sid)
    ensures Mapped(Inserted(w, k, sid), sid) && Mapped(Bound(w, k, sid), sid)
    ensures SameUpToOrphans(Bound(w, k, sid), Inserted(w, k, sid))
  {
    assert Inserted(w, k, sid).rows[k] == sid;
  }

  /** Before its row is in, the tail runs again to the same end; once the row is in,
      only the managed mark can be missing. */
  lemma ForkAgain(w: World, k: Key, sid: string, src: string, x: World)
    requires x in ForkStages(w, k, sid, src) && !Mapped(w, sid)
    ensures !Mapped(x, sid) ==> ForkEnd(Crash(x), k, sid, src) == Crash(ForkEnd(w, k, sid, src))
    ensures Mapped(x, sid) ==> SameUpToOrphans(ForkEnd(w, k, sid, src), x)
  {
    hide Branched, SameUpToOrphans;
    ForkEndWithoutCache(w, k, sid, src);
    if Listed(w, k.at) {
      var b := Branched(w, k, src);
      BranchedOnce(w, k, src);
      ForkEndTwice(w, k, sid, src, src);
      ForkEndWithoutCache(b, k, sid, src);
      if InsertConflicts(b, k, sid) {
        assert Inserted(b, k, sid) == b == ForkEnd(w, k, sid, src);
      } else {
        BoundOnce(b, k, sid);
        SameWorld(ForkEnd(w, k, sid, src));
      }
    }
  }

  lemma SameWorld(w: World)
    ensures SameUpToOrphans(w, w)
  {
  }

  lemma SameThenCrash(clean: World, redone: World)
    requires SameUpToOrphans(clean, redone)
    ensures SameUpToOrphans(clean, Crash(redone))
  {
  }

  lemma CreatedAgain(w: World, k: Key, sid: string, x: World)
    requires x in CreatedStages(w, k, sid)
    ensures SameUpToOrphans(CreatedEnd(w, k, sid), CreatedEnd(Crash(x), k, sid))
    ensures !Mapped(x, sid) ==> CreatedEnd(Crash(x), k, sid) == Crash(CreatedEnd(w, k, sid))
  {
    hide ForkEnd, ForkStages, SameUpToOrphans, Branched, Anchor;
    CacheIsIrrelevant(x, k, sid, "");
    SameAfterCrash(CreatedEnd(w, k, sid));
    if !Mapped(w, sid) {
      var w1 := WithRepo(w, k.at);
      var src := Anchor(w1, k.at);
      CacheIsIrrelevant(w, k, sid, "");
      CacheIsIrrelevant(w1, k, sid, "");
      ForkEndWithoutCache(w1, k, sid, src);
      if x != w {
        ForkAgain(w1, k, sid, src, x);
        if Mapped(x, sid) {
          SameThenCrash(CreatedEnd(w, k, sid), x);
        } else {
          CreatedFromStage(w1, k, sid, src, x);
        }
      }
    }
  }

  lemma CreatedFromStage(w1: World, k: Key, sid: string, src: string, x: World)
    requires k.at in w1.repos && src == Anchor(w1, k.at) && !Mapped(w1, sid)
    requires x in ForkStages(w1, k, sid, src) && !Mapped(x, sid)
    ensures CreatedEnd(Crash(x), k, sid) == Crash(ForkEnd(w1, k, sid, src))
  {
    hide Branched, Anchor, Bound;
    CacheIsIrrelevant(x, k, sid, "");
    if !Listed(w1, k.at) {
      ForkEndWithoutCache(w1, k, sid, src);
    } else {
      var b := Branched(w1, k, src);
      BranchedOnce(w1, k, src);
      StageIsEarly(w1, k, sid, src, x);
      ForkEndTwice(w1, k, sid, src, if b == w1 then src else Anchor(x, k.at));
      ForkEndWithoutCache(x, k, sid, Anchor(x, k.at));
    }
  }

  /** A stage without the row is one before the row's insertion. */
  lemma StageIsEarly(w: World, k: Key, sid: string, src: string, x: World)
    requires Listed(w, k.at) && x in ForkStages(w, k, sid, src) && !Mapped(x, sid)
    ensures x == w || x == Branched(w, k, src)
  {
    hide Branched;
    var b := Branched(w, k, src);
    if !InsertConflicts(b, k, sid) {
      BoundOnce(b, k, sid);
    }
  }

  lemma CreatedConverges(w: World, k: Key, sid: string, i: nat)
    requires i < |CreatedT(Start(w), k, sid).worlds|
    ensures var t := CreatedT(Start(w), k, sid);
      SameUpToOrphans(Final(t), Final(CreatedT(Start(Crash(t.worlds[i])), k, sid)))
  {
    hide CreatedT, CreatedEnd, SameUpToOrphans, CreatedStages;
    var x := CreatedT(Start(w), k, sid).worlds[i];
    CreatedPasses(Start(w), k, sid);
    CreatedStartsIn(w, k, sid);
    CreatedAgain(w, k, sid, x);
    CreatedPasses(Start(Crash(x)), k, sid);
  }

  // ----- forked -----

  function MoreManaged(w: World, more: set<RepoKey>): World {
    w.(managed := w.managed + more)
  }

  lemma CallsIgnoreManaged(w: World, k: Key, sid: string, src: string, more: set<RepoKey>)
    ensures Branched(MoreManaged(w, more), k, src) == MoreManaged(Branched(w, k, src), more)
    ensures Inserted(MoreManaged(w, more), k, sid) == MoreManaged(Inserted(w, k, sid), more)
    ensures Bound(MoreManaged(w, more), k, sid) == MoreManaged(Bound(w, k, sid), more)
  {
  }

  lemma ManagedIsIrrelevant(w: World, k: Key, sid: string, src: string, more: set<RepoKey>)
    ensures ForkEnd(MoreManaged(w, more), k, sid, src) == MoreManaged(ForkEnd(w, k, sid, src), more)
    ensures SameUpToOrphans(ForkEnd(MoreManaged(w, more), k, sid, src), ForkEnd(w, k, sid, src))
  {
    hide Branched, Bound;
    CallsIgnoreManaged(w, k, sid, src, more);
    CallsIgnoreManaged(Branched(w, k, src), k, sid, src, more);
  }

  /** What a stage of the parent's creation has in its rows. */
  lemma ParentStage(w: World, p: Key, parentSid: string, x: World)
    requires p !in w.rows && !Mapped(w, parentSid) && Listed(WithRepo(w, p.at), p.at)
    requires x in CreatedStages(w, p, parentSid)
    ensures x.rows == if Mapped(x, parentSid) then w.rows[p := parentSid] else w.rows
    ensures CreatedEnd(w, p, parentSid).rows == w.rows[p := parentSid]
    ensures Mapped(x, parentSid) ==>
      CreatedEnd(w, p, parentSid) == x.(managed := x.managed + {p.at})
  {
    hide Branched, Anchor;
    var w1 := WithRepo(w, p.at);
    var b := Branched(w1, p, Anchor(w1, p.at));
    BranchedOnce(w1, p, Anchor(w1, p.at));
    assert !InsertConflicts(b, p, parentSid);
    BoundOnce(b, p, parentSid);
    assert w.rows[p := parentSid][p] == parentSid;
  }

  /** Running the event again from a stage of the parent's creation. */
  lemma ForkedFromParentStage(w: World, k: Key, sid: string, parentSid: string, p: Key, x: World)
    requires ParseSession(parentSid) == Some(p) && p.at == k.at && !Mapped(w, sid) && sid != parentSid
    requires p !in w.rows && !ParentFails(w, p, parentSid) && x in CreatedStages(w, p, parentSid)
    ensures SameUpToOrphans(ForkedEnd(w, k, sid, parentSid), ForkedEnd(Crash(x), k, sid, parentSid))
  {
    hide SameUpToOrphans, CreatedStages, CreatedEnd, ForkEnd, WithRepo, Listed;
    var ready := ParentReady(w, p, parentSid);
    if Mapped(w, parentSid) {
      MappedParent(w, p, parentSid, x);
      ForkEndWithoutCache(w, k, sid, p.branch);
      SameAfterCrash(ForkEnd(w, k, sid, p.branch));
    } else {
      RepoIsThere(w, p.at);
      ParentStage(w, p, parentSid, x);
      CreatedAgain(w, p, parentSid, x);
      if Mapped(x, parentSid) {
        assert p in x.rows && !Mapped(x, sid);
        ManagedIsIrrelevant(x, k, sid, p.branch, {p.at});
        assert ready == MoreManaged(x, {p.at});
        ForkEndWithoutCache(x, k, sid, p.branch);
        SameThenCrash(ForkEnd(ready, k, sid, p.branch), ForkEnd(x, k, sid, p.branch));
      } else {
        ParentStaysPossible(w, p, parentSid, x);
        ForkEndWithoutCache(ready, k, sid, p.branch);
        SameAfterCrash(ForkEnd(ready, k, sid, p.branch));
      }
    }
  }

  lemma MappedParent(w: World, p: Key, parentSid: string, x: World)
    requires Mapped(w, parentSid) && x in CreatedStages(w, p, parentSid)
    ensures x == w && CreatedEnd(w, p, parentSid) == w && CreatedEnd(Crash(w), p, parentSid) == Crash(w)
  {
  }

  lemma ParentStaysPossible(w: World, p: Key, parentSid: string, x: World)
    requires !Mapped(w, parentSid) && Listed(WithRepo(w, p.at), p.at) && x in CreatedStages(w, p, parentSid)
    ensures Listed(WithRepo(Crash(x), p.at), p.at)
  {
    hide Branched, Anchor;
    var w1 := WithRepo(w, p.at);
    BranchedOnce(w1, p, Anchor(w1, p.at));
  }

  /** Running the event again from a stage of its own branch and row. */
  lemma ForkedFromOwnStage(w: World, k: Key, sid: string, parentSid: string, p: Key, x: World)
    requires ParseSession(parentSid) == Some(p) && p.at == k.at && !Mapped(w, sid) && sid != parentSid
    requires !ParentFails(w, p, parentSid)
    requires x in ForkStages(ParentReady(w, p, parentSid), k, sid, p.branch)
    ensures SameUpToOrphans(ForkedEnd(w, k, sid, parentSid), ForkedEnd(Crash(x), k, sid, parentSid))
  {
    hide SameUpToOrphans, CreatedStages, CreatedEnd, ForkEnd, ForkStages, WithRepo, Listed;
    var ready := ParentReady(w, p, parentSid);
    ParentIsSettled(w, p, parentSid);
    assert !Mapped(ready, sid);
    ForkAgain(ready, k, sid, p.branch, x);
    if Mapped(x, sid) {
      SameThenCrash(ForkEnd(ready, k, sid, p.branch), x);
    } else {
      EarlyStageRows(ready, k, sid, p.branch, x);
      SettledStays(x, p, parentSid);
      SameAfterCrash(ForkEnd(ready, k, sid, p.branch));
    }
  }

  lemma EarlyStageRows(w: World, k: Key, sid: string, src: string, x: World)
    requires x in ForkStages(w, k, sid, src) && !Mapped(x, sid)
    ensures x.rows == w.rows
  {
    hide Branched;
    if Listed(w, k.at) {
      BranchedOnce(w, k, src);
      StageIsEarly(w, k, sid, src, x);
    }
  }

  lemma ParentIsSettled(w: World, p: Key, parentSid: string)
    requires !ParentFails(w, p, parentSid)
    ensures var ready := ParentReady(w, p, parentSid);
      && (p in ready.rows || Mapped(ready, parentSid))
      && (ready.rows == w.rows || ready.rows == w.rows[p := parentSid])
  {
    hide CreatedEnd;
    if p !in w.rows {
      CreatedStartsIn(w, p, parentSid);
      if Mapped(w, parentSid) {
        MappedParent(w, p, parentSid, w);
      } else {
        ParentStage(w, p, parentSid, w);
      }
    }
  }

  lemma SettledStays(x: World, p: Key, parentSid: string)
    requires p in x.rows || Mapped(x, parentSid)
    ensures ParentReady(Crash(x), p, parentSid) == Crash(x) && !ParentFails(Crash(x), p, parentSid)
  {
  }

  lemma DistinctForkConverges(w: World, k: Key, sid: string, parentSid: string, i: nat)
    requires i < |ForkedT(Start(w), k, sid, parentSid).worlds| && sid != parentSid
    ensures var t := ForkedT(Start(w), k, sid, parentSid);
      SameUpToOrphans(Final(t), Final(ForkedT(Start(Crash(t.worlds[i])), k, sid, parentSid)))
  {
    hide ForkedT, ForkedEnd, ForkedStages, SameUpToOrphans;
    var x := ForkedT(Start(w), k, sid, parentSid).worlds[i];
    ForkedPasses(w, k, sid, parentSid);
    ForkedPasses(Crash(x), k, sid, parentSid);
    ForkedAgain(w, k, sid, parentSid, x);
  }

  lemma ForkedAgain(w: World, k: Key, sid: string, parentSid: string, x: World)
    requires x in ForkedStages(w, k, sid, parentSid) && sid != parentSid
    ensures SameUpToOrphans(ForkedEnd(w, k, sid, parentSid), ForkedEnd(Crash(x), k, sid, parentSid))
  {
    hide SameUpToOrphans, ForkStages, CreatedStages, ForkEnd, CreatedEnd, WithRepo, Listed;
    SameAfterCrash(w);
    if !Mapped(w, sid) {
      match ParseSession(parentSid)
      case None =>
        ForkAgain(w, k, sid, "main", x);
        if Mapped(x, sid) {
          SameThenCrash(ForkEnd(w, k, sid, "main"), x);
        } else {
          SameAfterCrash(ForkEnd(w, k, sid, "main"));
        }
      case Some(p) =>
        if p.at == k.at {
          if ParentFails(w, p, parentSid) {
            ParentFailsAgain(w, p, parentSid, x);
            SameAfterCrash(WithRepo(w, p.at));
          } else if x in ForkStages(ParentReady(w, p, parentSid), k, sid, p.branch) {
            ForkedFromOwnStage(w, k, sid, parentSid, p, x);
          } else if p in w.rows {
            ForkStartsIn(w, k, sid, p.branch);
          } else {
            ForkedFromParentStage(w, k, sid, parentSid, p, x);
          }
        }
    }
  }

  lemma ParentFailsAgain(w: World, p: Key, parentSid: string, x: World)
    requires ParentFails(w, p, parentSid) && x in CreatedStages(w, p, parentSid)
    ensures x.rows == w.rows && ParentFails(Crash(x), p, parentSid)
    ensures WithRepo(Crash(x), p.at) == Crash(WithRepo(w, p.at))
  {
  }

  // ----- renamed -----

  lemma SameButCacheIsSame(a: World, b: World)
    requires SameButCache(a, b)
    ensures SameUpToOrphans(a, b)
  {
    assert a.rows == Crash(a).rows && b.rows == Crash(b).rows;
    assert a.managed == Crash(a).managed && b.managed == Crash(b).managed;
    assert a.repos == Crash(a).repos && b.repos == Crash(b).repos;
    assert a.sessions == Crash(a).sessions && b.sessions == Crash(b).sessions;
  }

  /** The row has not moved yet. */
  lemma RenameFromEarlyStage(w: World, from: Key, to: Key, fromSid: string, toSid: string, x: World)
    requires from in w.rows && from.at == to.at && Listed(w, to.at)
    requires x == w || x == Branched(w, to, from.branch)
    ensures from in x.rows
    ensures SameButCache(RenameEnd(w, from, to, fromSid, toSid), RenameEnd(Crash(x), from, to, fromSid, toSid))
  {
    hide Branched, RenameConflicts;
    var b := Branched(w, to, from.branch);
    BranchedOnce(w, to, from.branch);
    CacheIsIrrelevant(x, to, toSid, from.branch);
    BranchedTwice(w, to, from.branch);
    TailIgnoresCache(b, from, to, fromSid, toSid);
  }

  lemma BranchedTwice(w: World, k: Key, src: string)
    requires Listed(w, k.at)
    ensures Branched(Branched(w, k, src), k, src) == Branched(w, k, src)
  {
    hide Branched;
    BranchedOnce(w, k, src);
    ExistingBranchStays(Branched(w, k, src), k, src);
  }

  lemma ExistingBranchStays(w: World, k: Key, src: string)
    ensures BranchExists(w, k) ==> Branched(w, k, src) == w
  {
  }

  lemma TailIgnoresCache(b: World, from: Key, to: Key, fromSid: string, toSid: string)
    ensures RenameConflicts(Crash(b), from, to, toSid) == RenameConflicts(b, from, to, toSid)
    ensures SameButCache(Unbranched(Apply(Moved(b, from, to, toSid), Evict(fromSid)), from),
      Unbranched(Apply(Moved(Crash(b), from, to, toSid), Evict(fromSid)), from))
  {
  }

  /** The row has moved to a new name: the event is taken for a creation that is
      already done, and the old branch is left as an orphan. */
  lemma RenameFromMoved(w: World, from: Key, to: Key, fromSid: string, toSid: string, x: World)
    requires from in w.rows && from.at == to.at && from != to && Listed(w, to.at)
    requires !RenameConflicts(Branched(w, to, from.branch), from, to, toSid)
    requires var m := Moved(Branched(w, to, from.branch), from, to, toSid);
      SameButCache(x, m) || x == RenameEnd(w, from, to, fromSid, toSid)
    ensures from !in x.rows && CreatedEnd(Crash(x), to, toSid) == Crash(x)
    ensures SameUpToOrphans(RenameEnd(w, from, to, fromSid, toSid), Crash(x))
  {
    hide Branched;
    var b := Branched(w, to, from.branch);
    BranchedOnce(w, to, from.branch);
    var m := Moved(b, from, to, toSid);
    assert m.rows == (w.rows - {from})[to := toSid];
    assert m.rows[to] == toSid;
    OldBranchIsOrphan(m, from, fromSid);
    if SameButCache(x, m) {
      assert x.rows == Crash(x).rows == Crash(m).rows;
      SameButCacheIsSame(m, x);
    }
  }

  lemma OldBranchIsOrphan(m: World, from: Key, fromSid: string)
    requires from !in m.rows
    ensures forall x :: SameButCache(x, m) ==>
      SameUpToOrphans(Unbranched(Apply(m, Evict(fromSid)), from), Crash(x))
    ensures SameUpToOrphans(Unbranched(Apply(m, Evict(fromSid)), from),
      Crash(Unbranched(Apply(m, Evict(fromSid)), from)))
    ensures Unbranched(Apply(m, Evict(fromSid)), from).rows == m.rows
  {
  }

  lemma RenamedAgain(w: World, from: Key, to: Key, fromSid: string, toSid: string, x: World)
    requires from in w.rows && from.at == to.at && from != to
    requires x in RenameStages(w, from, to, fromSid, toSid)
    ensures from in x.rows ==>
      SameUpToOrphans(RenameEnd(w, from, to, fromSid, toSid), RenameEnd(Crash(x), from, to, fromSid, toSid))
    ensures from !in x.rows ==>
      SameUpToOrphans(RenameEnd(w, from, to, fromSid, toSid), CreatedEnd(Crash(x), to, toSid))
  {
    hide RenameConflicts, SameUpToOrphans, CreatedEnd, Branched, Unbranched, Moved;
    if !Listed(w, to.at) {
      SameAfterCrash(w);
    } else if x in {w, Branched(w, to, from.branch)} {
      RenameFromEarlyStage(w, from, to, fromSid, toSid, x);
      SameButCacheIsSame(RenameEnd(w, from, to, fromSid, toSid), RenameEnd(Crash(x), from, to, fromSid, toSid));
    } else {
      EvictTouchesCacheOnly(Moved(Branched(w, to, from.branch), from, to, toSid), fromSid);
      RenameFromMoved(w, from, to, fromSid, toSid, x);
    }
  }

  lemma EvictTouchesCacheOnly(m: World, name: string)
    ensures SameButCache(Apply(m, Evict(name)), m) && SameButCache(m, m)
  {
  }

  lemma CreatedStageRows(w: World, k: Key, sid: string, x: World)
    requires x in CreatedStages(w, k, sid)
    ensures x.rows == w.rows || x.rows == w.rows[k := sid]
  {
    hide Branched, Anchor;
    if !Mapped(w, sid) && Listed(WithRepo(w, k.at), k.at) {
      BranchedOnce(WithRepo(w, k.at), k, Anchor(WithRepo(w, k.at), k.at));
    }
  }

  lemma DistinctRenameConverges(w: World, fromSid: string, toSid: string, i: nat)
    requires i < |RenamedT(Start(w), fromSid, toSid).worlds| && fromSid != toSid
    ensures var t := RenamedT(Start(w), fromSid, toSid);
      SameUpToOrphans(Final(t), Final(RenamedT(Start(Crash(t.worlds[i])), fromSid, toSid)))
  {
    hide SameUpToOrphans, RenameRowT, RenameEnd, RenameStages, CreatedT, EnsureBranchT;
    SameAfterCrash(w);
    NamingOfParsed(fromSid);
    NamingOfParsed(toSid);
    var from, to := ParseSession(fromSid), ParseSession(toSid);
    if from.Some? && to.Some? && from.value.at == to.value.at {
      var x := RenamedT(Start(w), fromSid, toSid).worlds[i];
      if from.value !in w.rows {
        CreatedConverges(w, to.value, toSid, i);
        CreatedPasses(Start(w), to.value, toSid);
        CreatedStartsIn(w, to.value, toSid);
        CreatedStageRows(w, to.value, toSid, x);
      } else {
        RenamePasses(w, from.value, to.value, fromSid, toSid);
        RenamedAgain(w, from.value, to.value, fromSid, toSid, x);
        CreatedPasses(Start(Crash(x)), to.value, toSid);
        if from.value in x.rows {
          RenamePasses(Crash(x), from.value, to.value, fromSid, toSid);
        }
      }
    }
  }

  // ----- deleted -----

  lemma DeletedConverges(w: World, sid: string, i: nat)
    requires i < |DeletedT(Start(w), sid).worlds|
    ensures var t := DeletedT(Start(w), sid);
      SameUpToOrphans(Final(t), Final(DeletedT(Start(Crash(t.worlds[i])), sid)))
  {
    hide SameUpToOrphans;
    var x := DeletedT(Start(w), sid).worlds[i];
    SameAfterCrash(w);
    if ParseSession(sid).Some? && Mapped(w, sid) {
      var k := ParseSession(sid).value;
      DeletePasses(w, k, sid);
      DeletePasses(Crash(x), k, sid);
      DeletedAgain(w, k, sid, x);
    }
  }

  lemma DeletedAgain(w: World, k: Key, sid: string, x: World)
    requires x in DeleteStages(w, k, sid) && Mapped(w, sid)
    ensures SameUpToOrphans(DeleteEnd(w, k, sid),
      if Mapped(Crash(x), sid) then DeleteEnd(Crash(x), k, sid) else Crash(x))
  {
    hide SameUpToOrphans;
    var u := Unbranched(w, k);
    UnbranchedOnce(w, k);
    assert (w.rows - {k}) - {k} == w.rows - {k};
    if x == w || x == u {
      assert Mapped(x, sid);
    }
    SameButCacheIsSame(DeleteEnd(w, k, sid), DeleteEnd(Crash(x), k, sid));
    if x != w && x != u {
      SameButCacheIsSame(DeleteEnd(w, k, sid), Crash(x));
    }
  }

  lemma UnbranchedOnce(w: World, k: Key)
    ensures Unbranched(w, k).rows == w.rows
    ensures Unbranched(Crash(w), k) == Crash(Unbranched(w, k))
    ensures forall x :: SameButCache(x, Unbranched(w, k)) || SameButCache(x, Apply(Unbranched(w, k), DeleteRow(k))) ==>
      Unbranched(Crash(x), k) == Crash(x)
    ensures forall x :: SameButCache(x, Unbranched(w, k)) ==> SameButCache(DeleteEnd(x, k, ""), DeleteEnd(w, k, ""))
  {
  }

  // ----- what may be lost, exactly -----

  /** A redelivered creation misses the managed mark of the clean one exactly when the
      first attempt stopped between its row and its mark. */
  lemma ManagedMarkLostExactly(w: World, k: Key, sid: string, i: nat)
    requires !Mapped(w, sid) && i < |CreatedT(Start(w), k, sid).worlds|
    requires k.at in Final(CreatedT(Start(w), k, sid)).managed
    ensures var x := CreatedT(Start(w), k, sid).worlds[i];
      k.at !in Final(CreatedT(Start(Crash(x)), k, sid)).managed <==> Mapped(x, sid) && k.at !in x.managed
  {
    hide CreatedT, CreatedEnd, CreatedStages, SameUpToOrphans;
    var x := CreatedT(Start(w), k, sid).worlds[i];
    CreatedPasses(Start(w), k, sid);
    CreatedPasses(Start(Crash(x)), k, sid);
    CreatedStartsIn(w, k, sid);
    CreatedAgain(w, k, sid, x);
    if Mapped(x, sid) {
      MappedEndsThere(x, k, sid);
    }
  }

  lemma MappedEndsThere(x: World, k: Key, sid: string)
    requires Mapped(x, sid)
    ensures CreatedEnd(Crash(x), k, sid) == Crash(x)
  {
  }
}
