/** Redelivery of every event: exactly when a handler stopped after any of its calls and
    run again in full ends where one clean delivery ends, after any number of such stops,
    and what a run of events so redelivered comes to. */
module Redelivery {
  import opened Wrappers
  import opened Naming
  import opened Mapping
  import opened Stages
  import opened Convergence
  import opened Safety

  // ----- a fork of a session from itself -----

  /** Either there is nothing to create, or the branch does not hang on its own name:
      it is there, or its anchor resolves, or its name resolves to nothing. */
  predicate SelfForkRepeats(w: World, sid: string) {
    match ParseSession(sid)
    case None => true
    case Some(k) =>
      || Mapped(w, sid) || k in w.rows || !Named(k.at)
      || BranchExists(w, k) || Resolves(w, k.at, Anchor(w, k.at)) || !Resolves(w, k.at, k.branch)
  }

  /** The repository and branch a creation leaves. */
  lemma CreatedBranch(w: World, k: Key, sid: string)
    requires !Mapped(w, sid) && k !in w.rows && Named(k.at)
    ensures var y := CreatedEnd(w, k, sid);
      && y.rows == w.rows[k := sid] && Mapped(y, sid) && Listed(y, k.at)
      && (BranchExists(y, k) <==> BranchExists(w, k) || Resolves(w, k.at, Anchor(w, k.at)))
      && (!BranchExists(y, k) ==> y.repos == WithRepo(w, k.at).repos)
  {
    hide Resolve, CanResolve;
    EmptyResolvesNothing(Anchor(WithRepo(w, k.at), k.at));
    var w1 := WithRepo(w, k.at);
    var b := Branched(w1, k, Anchor(w1, k.at));
    BranchedOnce(w1, k, Anchor(w1, k.at));
    assert !InsertConflicts(b, k, sid);
    BoundOnce(b, k, sid);
  }

  /** A row that is there already leaves the tail of a fork to its branch. */
  lemma TailOfBoundRow(w: World, k: Key, sid: string, src: string)
    requires k in w.rows && Listed(w, k.at)
    ensures ForkEnd(w, k, sid, src) == Branched(w, k, src)
    ensures ForkStages(w, k, sid, src) == {w, Branched(w, k, src)}
  {
    BranchedOnce(w, k, src);
  }

  /** After the creation, a fork from itself only tries its branch once more. */
  lemma SelfForkEnd(w: World, k: Key, sid: string)
    requires ParseSession(sid) == Some(k) && !Mapped(w, sid) && k !in w.rows && Named(k.at)
    ensures var y := CreatedEnd(w, k, sid);
      && ForkedEnd(w, k, sid, sid) == Branched(y, k, k.branch)
      && ForkedStages(w, k, sid, sid) == CreatedStages(w, k, sid) + {y, Branched(y, k, k.branch)}
      && Branched(y, k, k.branch).rows == y.rows
      && (Branched(y, k, k.branch) == y <==> SelfForkRepeats(w, sid))
  {
    hide Resolve, CreatedStages, CreatedEnd, ForkStages, ForkEnd;
    var y := CreatedEnd(w, k, sid);
    CreatedBranch(w, k, sid);
    BranchedOnce(y, k, k.branch);
    TailOfBoundRow(y, k, sid, k.branch);
    NameAfterCreation(w, y, k);
    EmptyResolvesNothing(k.branch);
  }

  lemma NameAfterCreation(w: World, y: World, k: Key)
    requires Listed(y, k.at) && (!BranchExists(y, k) ==> y.repos == WithRepo(w, k.at).repos)
    ensures !BranchExists(y, k) ==> (Resolves(y, k.at, k.branch) <==> Resolves(w, k.at, k.branch))
    ensures Branched(y, k, k.branch) == y <==> BranchExists(y, k) || !Resolves(y, k.at, k.branch)
  {
    EmptyResolvesNothing(k.branch);
  }

  lemma SelfForkOfBoundKey(w: World, k: Key, sid: string, x: World)
    requires ParseSession(sid) == Some(k) && !Mapped(w, sid) && k in w.rows && x in ForkedStages(w, k, sid, sid)
    ensures ForkedEnd(Crash(x), k, sid, sid) == Crash(ForkedEnd(w, k, sid, sid))
  {
    hide Branched;
    ForkStartsIn(w, k, sid, k.branch);
    ForkAgain(w, k, sid, k.branch, x);
    if Listed(w, k.at) {
      TailOfBoundRow(w, k, sid, k.branch);
      BranchedOnce(w, k, k.branch);
    }
  }

  lemma SelfForkFromStage(w: World, k: Key, sid: string, x: World)
    requires ParseSession(sid) == Some(k) && !Mapped(w, sid) && k !in w.rows && Named(k.at)
    requires x in ForkedStages(w, k, sid, sid)
    ensures SelfForkRepeats(w, sid) ==> SameUpToOrphans(ForkedEnd(w, k, sid, sid), ForkedEnd(Crash(x), k, sid, sid))
    ensures ForkedEnd(Crash(x), k, sid, sid).rows == ForkedEnd(w, k, sid, sid).rows
    ensures ForkedEnd(Crash(x), k, sid, sid).repos.Keys == ForkedEnd(w, k, sid, sid).repos.Keys
  {
    hide Resolve, CreatedStages, CreatedEnd, ForkedStages, ForkedEnd, SelfForkRepeats, Branched;
    var y := CreatedEnd(w, k, sid);
    SelfForkEnd(w, k, sid);
    CreatedBranch(w, k, sid);
    BranchedOnce(y, k, k.branch);
    SameAfterCrash(ForkedEnd(w, k, sid, sid));
    if Mapped(x, sid) {
      MappedEndsThere(x, k, sid);
      MappedForkStays(x, k, sid);
      if x in CreatedStages(w, k, sid) {
        CreatedAgain(w, k, sid, x);
      }
    } else {
      CreatedAgain(w, k, sid, x);
      CreatedStageRows(w, k, sid, x);
      assert w.rows[k := sid][k] == sid;
      SelfForkEnd(Crash(x), k, sid);
      CacheIsIrrelevant(y, k, sid, k.branch);
    }
  }

  lemma MappedForkStays(x: World, k: Key, sid: string)
    requires Mapped(x, sid)
    ensures ForkedEnd(Crash(x), k, sid, sid) == Crash(x)
  {
  }

  lemma SelfForkAgain(w: World, k: Key, sid: string, x: World)
    requires ParseSession(sid) == Some(k) && x in ForkedStages(w, k, sid, sid)
    ensures SelfForkRepeats(w, sid) ==> SameUpToOrphans(ForkedEnd(w, k, sid, sid), ForkedEnd(Crash(x), k, sid, sid))
    ensures ForkedEnd(Crash(x), k, sid, sid).rows == ForkedEnd(w, k, sid, sid).rows
    ensures ForkedEnd(Crash(x), k, sid, sid).repos.Keys == ForkedEnd(w, k, sid, sid).repos.Keys
  {
    hide SameUpToOrphans, Resolve, CreatedStages, CreatedEnd, ForkStages, ForkEnd, SelfForkRepeats, Branched;
    if Mapped(w, sid) {
      SameAfterCrash(w);
    } else if k in w.rows {
      SelfForkOfBoundKey(w, k, sid, x);
      SameAfterCrash(ForkedEnd(w, k, sid, sid));
    } else if !Named(k.at) {
      ParentFailsAgain(w, k, sid, x);
      SameAfterCrash(WithRepo(w, k.at));
    } else {
      SelfForkEnd(w, k, sid);
      SelfForkFromStage(w, k, sid, x);
    }
  }

  /** Where there is a revision every fork of a session from itself repeats: the anchor of
      its branch resolves. */
  lemma RevisionsRepeatSelfForks(w: World, sid: string)
    requires ParseSession(sid).Some? && HasRevision(w, ParseSession(sid).value.at)
    ensures SelfForkRepeats(w, sid)
  {
    AnchorResolves(w, ParseSession(sid).value.at);
  }

  /** A fork converges from every stage, except one of a session from itself whose branch
      only its own name could give it: that is created by the second try of the first
      delivery, and a redelivery never gets there. */
  lemma ForkedConverges(w: World, k: Key, sid: string, parentSid: string)
    requires ParseSession(sid) == Some(k)
    ensures var t := ForkedT(Start(w), k, sid, parentSid);
      (forall i :: 0 <= i < |t.worlds| ==>
        SameUpToOrphans(Final(t), Final(ForkedT(Start(Crash(t.worlds[i])), k, sid, parentSid))))
      <==> sid != parentSid || SelfForkRepeats(w, sid)
  {
    hide ForkedT, ForkedEnd, ForkedStages, SameUpToOrphans, SelfForkRepeats;
    var t := ForkedT(Start(w), k, sid, parentSid);
    forall i | 0 <= i < |t.worlds| && (sid != parentSid || SelfForkRepeats(w, sid))
      ensures SameUpToOrphans(Final(t), Final(ForkedT(Start(Crash(t.worlds[i])), k, sid, parentSid)))
    {
      ForkedPasses(w, k, sid, parentSid);
      ForkedPasses(Crash(t.worlds[i]), k, sid, parentSid);
      if sid == parentSid {
        SelfForkAgain(w, k, sid, t.worlds[i]);
      } else {
        DistinctForkConverges(w, k, sid, parentSid, i);
      }
    }
    if sid == parentSid && !SelfForkRepeats(w, sid) {
      SelfForkDiverges(w, k, sid);
    }
  }

  lemma SelfForkDiverges(w: World, k: Key, sid: string)
    requires ParseSession(sid) == Some(k) && !SelfForkRepeats(w, sid)
    ensures var t := ForkedT(Start(w), k, sid, sid);
      exists i :: 0 <= i < |t.worlds| &&
        !SameUpToOrphans(Final(t), Final(ForkedT(Start(Crash(t.worlds[i])), k, sid, sid)))
  {
    hide Resolve, ForkedT, ForkedStages, CreatedStages, CreatedEnd, Anchor;
    var t := ForkedT(Start(w), k, sid, sid);
    var y := CreatedEnd(w, k, sid);
    CreatedBranch(w, k, sid);
    SelfForkEnd(w, k, sid);
    ForkedPasses(w, k, sid, sid);
    ParentStagesAreForkWorlds(w, k, sid, sid, k);
    var i :| 0 <= i < |t.worlds| && t.worlds[i] == y;
    ForkedPasses(Crash(y), k, sid, sid);
    MappedForkStays(y, k, sid);
    BranchedOnce(y, k, k.branch);
    assert BranchExists(Final(t), k) && !BranchExists(Crash(y), k);
  }

  // ----- a rename of a session to its own name -----

  /** Either its row is there already, so that every delivery ends by deleting its branch,
      or there is nothing to create, or no branch comes of the creation. */
  predicate SelfRenameRepeats(w: World, sid: string) {
    match ParseSession(sid)
    case None => true
    case Some(k) =>
      || Mapped(w, sid) || k in w.rows || !Named(k.at)
      || (!BranchExists(w, k) && !Resolves(w, k.at, Anchor(w, k.at)))
  }

  /** What such a rename makes of a world: its row bound, its branch gone. */
  function Stripped(w: World, k: Key, sid: string): World
    requires k.at in w.repos
  {
    var r := w.repos[k.at];
    Crash(w.(rows := (w.rows - {k})[k := sid], repos := w.repos[k.at := r.(branches := r.branches - {k.branch})]))
  }

  /** Every call of it leaves that as it is. */
  lemma CallsStrip(w: World, k: Key, sid: string)
    requires Listed(w, k.at) && k in w.rows
    ensures var b := Branched(w, k, k.branch); Listed(b, k.at) && Stripped(b, k, sid) == Stripped(w, k, sid)
    ensures var m := Moved(w, k, k, sid); Listed(m, k.at) && Stripped(m, k, sid) == Stripped(w, k, sid)
    ensures var u := Unbranched(w, k); Listed(u, k.at) && Stripped(u, k, sid) == Stripped(w, k, sid)
    ensures var e := Apply(w, Evict(sid)); Listed(e, k.at) && Stripped(e, k, sid) == Stripped(w, k, sid)
    ensures Listed(Crash(w), k.at) && Stripped(Crash(w), k, sid) == Stripped(w, k, sid)
  {
    BranchedStrips(w, k, sid);
    MovedStrips(w, k, sid);
    UnbranchedStrips(w, k, sid);
  }

  lemma BranchedStrips(w: World, k: Key, sid: string)
    requires Listed(w, k.at)
    ensures var b := Branched(w, k, k.branch); Listed(b, k.at) && Stripped(b, k, sid) == Stripped(w, k, sid)
  {
    hide Resolve;
    var b := Branched(w, k, k.branch);
    var r, s := w.repos[k.at], b.repos[k.at];
    assert b.repos == w.repos[k.at := s];
    assert s.branches - {k.branch} == r.branches - {k.branch};
    assert s.(branches := s.branches - {k.branch}) == r.(branches := r.branches - {k.branch});
  }

  lemma MovedStrips(w: World, k: Key, sid: string)
    requires Listed(w, k.at) && k in w.rows
    ensures var m := Moved(w, k, k, sid); Listed(m, k.at) && Stripped(m, k, sid) == Stripped(w, k, sid)
  {
    var m := Moved(w, k, k, sid);
    assert m.rows - {k} == w.rows - {k};
  }

  lemma UnbranchedStrips(w: World, k: Key, sid: string)
    requires Listed(w, k.at)
    ensures var u := Unbranched(w, k); Listed(u, k.at) && Stripped(u, k, sid) == Stripped(w, k, sid)
  {
    var u := Unbranched(w, k);
    var r, s := w.repos[k.at], u.repos[k.at];
    assert u.repos == w.repos[k.at := s];
    assert s.branches - {k.branch} == r.branches - {k.branch};
  }

  lemma SelfRenameEnd(w: World, k: Key, sid: string)
    requires k in w.rows && Listed(w, k.at) && !RenameConflicts(w, k, k, sid)
    ensures Crash(RenameEnd(w, k, k, sid, sid)) == Stripped(w, k, sid)
  {
    hide Branched, Moved, Unbranched, RenameConflicts, Stripped;
    var b := Branched(w, k, k.branch);
    var m := Moved(b, k, k, sid);
    var e := Apply(m, Evict(sid));
    BranchedOnce(w, k, k.branch);
    SelfConflicts(w, b, k, sid);
    SelfMovedRow(b, k, sid);
    CallsStrip(w, k, sid);
    CallsStrip(b, k, sid);
    CallsStrip(m, k, sid);
    CallsStrip(e, k, sid);
    StrippedAlready(Unbranched(e, k), e, k, sid);
  }

  lemma SelfConflicts(a: World, b: World, k: Key, sid: string)
    requires a.rows == b.rows
    ensures RenameConflicts(a, k, k, sid) == RenameConflicts(b, k, k, sid)
  {
  }

  lemma SelfMovedRow(w: World, k: Key, sid: string)
    requires k in w.rows && !RenameConflicts(w, k, k, sid)
    ensures Moved(w, k, k, sid).rows == w.rows[k := sid]
    ensures Moved(w, k, k, sid).repos == w.repos
    ensures !RenameConflicts(Moved(w, k, k, sid), k, k, sid)
  {
  }

  lemma StrippedAlready(u: World, e: World, k: Key, sid: string)
    requires u == Unbranched(e, k) && k in e.rows && e.rows[k] == sid && Listed(e, k.at)
    ensures Listed(u, k.at) && Crash(u) == Stripped(u, k, sid)
  {
    assert u.rows == (u.rows - {k})[k := sid];
    var r := u.repos[k.at];
    assert r.branches - {k.branch} == r.branches;
    assert u.repos == u.repos[k.at := r];
  }

  lemma BoundSelfRenameAgain(w: World, k: Key, sid: string, x: World)
    requires k in w.rows && x in RenameStages(w, k, k, sid, sid)
    ensures k in x.rows && SameButCache(RenameEnd(w, k, k, sid, sid), RenameEnd(Crash(x), k, k, sid, sid))
  {
    hide Branched, Moved, Unbranched, RenameConflicts, Stripped;
    if Listed(w, k.at) {
      var b := Branched(w, k, k.branch);
      BranchedOnce(w, k, k.branch);
      SelfConflicts(w, b, k, sid);
      if x in {w, b} {
        RenameFromEarlyStage(w, k, k, sid, sid, x);
      } else {
        var m := Moved(b, k, k, sid);
        SelfMovedRow(b, k, sid);
        SelfRenameEnd(w, k, sid);
        CallsStrip(w, k, sid);
        CallsStrip(b, k, sid);
        CallsStrip(m, k, sid);
        LateStageStrips(m, k, sid, x);
        CallsStrip(x, k, sid);
        SelfConflicts(m, Crash(x), k, sid);
        SelfRenameEnd(Crash(x), k, sid);
      }
    }
  }

  lemma LateStageStrips(m: World, k: Key, sid: string, x: World)
    requires k in m.rows && Listed(m, k.at)
    requires x in {m, Apply(m, Evict(sid)), Unbranched(Apply(m, Evict(sid)), k)}
    ensures x.rows == m.rows && Listed(x, k.at) && Stripped(x, k, sid) == Stripped(m, k, sid)
  {
    hide Unbranched, Stripped;
    var e := Apply(m, Evict(sid));
    CallsStrip(m, k, sid);
    CallsStrip(e, k, sid);
    UnbranchedOnce(e, k);
  }

  /** Its row was created by the delivery that was cut short: the redelivery keeps the row
      and takes the branch away. */
  lemma CreatedThenStripped(w: World, k: Key, sid: string, x: World)
    requires !Mapped(w, sid) && k !in w.rows && Named(k.at) && x in CreatedStages(w, k, sid) && k in x.rows
    ensures var y, z := CreatedEnd(w, k, sid), RenameEnd(Crash(x), k, k, sid, sid);
      && z.rows == y.rows && z.repos.Keys == y.repos.Keys && !BranchExists(z, k)
      && (SameUpToOrphans(y, z) <==> !BranchExists(y, k))
  {
    hide CreatedStages, CreatedEnd, RenameEnd, Unbranched;
    var y, z := CreatedEnd(w, k, sid), RenameEnd(Crash(x), k, k, sid, sid);
    CreatedBranch(w, k, sid);
    ParentStage(w, k, sid, x);
    assert Mapped(x, sid) && x.rows == w.rows[k := sid];
    assert x.repos == y.repos && x.sessions == y.sessions && x.managed <= y.managed;
    assert !RenameConflicts(Crash(x), k, k, sid);
    SelfRenameEnd(Crash(x), k, sid);
    assert z.rows == Crash(z).rows == (x.rows - {k})[k := sid] == x.rows;
    assert z.repos == Crash(z).repos && z.managed == Crash(z).managed && z.sessions == Crash(z).sessions;
    StrippedRepo(y, z, k);
  }

  /** Two worlds that differ in one bound branch and in marks. */
  lemma StrippedRepo(y: World, z: World, k: Key)
    requires Listed(y, k.at) && k in y.rows && z.rows == y.rows && z.managed <= y.managed && z.sessions == y.sessions
    requires z.repos == y.repos[k.at := y.repos[k.at].(branches := y.repos[k.at].branches - {k.branch})]
    ensures SameUpToOrphans(y, z) <==> !BranchExists(y, k)
    ensures !BranchExists(z, k) && z.repos.Keys == y.repos.Keys
  {
  }

  /** What a redelivered rename of a session to itself comes to, from any stage. */
  lemma SelfRenameAgain(w: World, k: Key, sid: string, i: nat)
    requires ParseSession(sid) == Some(k) && i < |RenamedT(Start(w), sid, sid).worlds|
    ensures var t := RenamedT(Start(w), sid, sid);
      var redone := Final(RenamedT(Start(Crash(t.worlds[i])), sid, sid));
      && redone.rows == Final(t).rows && redone.repos.Keys == Final(t).repos.Keys
      && (SelfRenameRepeats(w, sid) ==> SameUpToOrphans(Final(t), redone))
  {
    hide SameUpToOrphans, RenameRowT, RenameEnd, RenameStages, CreatedT, CreatedEnd, CreatedStages, EnsureBranchT,
      Resolve, BranchExists;
    var x := RenamedT(Start(w), sid, sid).worlds[i];
    if k in w.rows {
      RenamePasses(w, k, k, sid, sid);
      BoundSelfRenameAgain(w, k, sid, x);
      RenamePasses(Crash(x), k, k, sid, sid);
      SameButCacheIsSame(RenameEnd(w, k, k, sid, sid), RenameEnd(Crash(x), k, k, sid, sid));
      SameIsSameRows(RenameEnd(w, k, k, sid, sid), RenameEnd(Crash(x), k, k, sid, sid));
    } else {
      CreatedPasses(Start(w), k, sid);
      CreatedStartsIn(w, k, sid);
      CreatedStageRows(w, k, sid, x);
      CreatedAgain(w, k, sid, x);
      CreatedPasses(Start(Crash(x)), k, sid);
      SameIsSameRows(CreatedEnd(w, k, sid), CreatedEnd(Crash(x), k, sid));
      if k in x.rows {
        RowComesFromCreation(w, k, sid, x);
        CreatedBranch(w, k, sid);
        CreatedThenStripped(w, k, sid, x);
        RenamePasses(Crash(x), k, k, sid, sid);
      }
    }
  }

  lemma SameIsSameRows(clean: World, redone: World)
    requires SameUpToOrphans(clean, redone)
    ensures redone.rows == clean.rows && redone.repos.Keys == clean.repos.Keys
  {
  }

  lemma RowComesFromCreation(w: World, k: Key, sid: string, x: World)
    requires k !in w.rows && x in CreatedStages(w, k, sid) && k in x.rows
    ensures !Mapped(w, sid) && Named(k.at)
  {
    hide Branched, Anchor;
  }

  /** A rename converges from every stage, except one of a session to its own name that has
      to create the session's branch first: redelivered once the row is in, even after a
      delivery that completed, it takes the branch away again. */
  lemma RenamedConverges(w: World, fromSid: string, toSid: string)
    ensures var t := RenamedT(Start(w), fromSid, toSid);
      (forall i :: 0 <= i < |t.worlds| ==>
        SameUpToOrphans(Final(t), Final(RenamedT(Start(Crash(t.worlds[i])), fromSid, toSid))))
      <==> fromSid != toSid || SelfRenameRepeats(w, fromSid)
  {
    hide RenamedT, SameUpToOrphans, SelfRenameRepeats;
    var t := RenamedT(Start(w), fromSid, toSid);
    forall i | 0 <= i < |t.worlds| && (fromSid != toSid || SelfRenameRepeats(w, fromSid))
      ensures SameUpToOrphans(Final(t), Final(RenamedT(Start(Crash(t.worlds[i])), fromSid, toSid)))
    {
      if fromSid != toSid {
        DistinctRenameConverges(w, fromSid, toSid, i);
      } else if ParseSession(fromSid).Some? {
        SelfRenameAgain(w, ParseSession(fromSid).value, fromSid, i);
      } else {
        UnnamedRename(w, fromSid);
        SameAfterCrash(w);
      }
    }
    if fromSid == toSid && !SelfRenameRepeats(w, fromSid) {
      SelfRenameDropsItsBranch(w, fromSid);
      assert t.worlds[|t.worlds| - 1] == Final(t);
    }
  }

  lemma UnnamedRename(w: World, sid: string)
    requires ParseSession(sid).None?
    ensures forall x :: RenamedT(Start(x), sid, sid).worlds == [x]
  {
  }

  /** Even a delivery that completed is undone by the next: the row stays, its branch goes. */
  lemma SelfRenameDropsItsBranch(w: World, sid: string)
    requires !SelfRenameRepeats(w, sid)
    ensures var k := ParseSession(sid).value;
      var clean := Final(RenamedT(Start(w), sid, sid));
      var redone := Final(RenamedT(Start(Crash(clean)), sid, sid));
      && k in clean.rows && BranchExists(clean, k)
      && k in redone.rows && !BranchExists(redone, k) && !SameUpToOrphans(clean, redone)
  {
    hide SameUpToOrphans, RenameRowT, CreatedT, CreatedEnd, EnsureBranchT, Resolve, BranchExists, RenameEnd;
    var k := ParseSession(sid).value;
    CreatedPasses(Start(w), k, sid);
    CreatedBranch(w, k, sid);
    CreatedEndIsAStage(w, k, sid);
    CreatedThenStripped(w, k, sid, CreatedEnd(w, k, sid));
    RenamePasses(Crash(CreatedEnd(w, k, sid)), k, k, sid, sid);
  }

  // ----- the theorem -----

  /** What a caller can check before the delivery. */
  predicate Repeatable(w: World, ev: LifecycleEvent) {
    match ev
    case Forked(sid, parent) => sid != parent || SelfForkRepeats(w, sid)
    case Renamed(from, to) => from != to || SelfRenameRepeats(w, from)
    case _ => true
  }

  lemma CreationsConverge(w: World, sid: string)
    ensures Converges(w, Created(sid))
  {
    hide SameUpToOrphans, CreatedT;
    SameAfterCrash(w);
    if ParseSession(sid).Some? {
      forall i: nat | i < |CreatedT(Start(w), ParseSession(sid).value, sid).worlds|
        ensures var t := CreatedT(Start(w), ParseSession(sid).value, sid);
          SameUpToOrphans(Final(t), Final(CreatedT(Start(Crash(t.worlds[i])), ParseSession(sid).value, sid)))
      {
        CreatedConverges(w, ParseSession(sid).value, sid, i);
      }
    }
  }

  lemma DeletionsConverge(w: World, sid: string)
    ensures Converges(w, Deleted(sid))
  {
    hide SameUpToOrphans, DeletedT;
    forall i: nat | i < |DeletedT(Start(w), sid).worlds|
      ensures var t := DeletedT(Start(w), sid);
        SameUpToOrphans(Final(t), Final(DeletedT(Start(Crash(t.worlds[i])), sid)))
    {
      DeletedConverges(w, sid, i);
    }
  }

  lemma ForksConvergeExactly(w: World, sid: string, parent: string)
    ensures Converges(w, Forked(sid, parent)) <==> sid != parent || SelfForkRepeats(w, sid)
  {
    hide SameUpToOrphans, ForkedT, SelfForkRepeats;
    SameAfterCrash(w);
    if ParseSession(sid).Some? {
      var k := ParseSession(sid).value;
      ForkedConverges(w, k, sid, parent);
      assert forall x :: Final(Deliver(x, Forked(sid, parent))) == Final(ForkedT(Start(x), k, sid, parent));
      assert Deliver(w, Forked(sid, parent)).worlds == ForkedT(Start(w), k, sid, parent).worlds;
    } else {
      UnnamedForkRepeats(w, sid);
    }
  }

  lemma RenamesConvergeExactly(w: World, from: string, to: string)
    ensures Converges(w, Renamed(from, to)) <==> from != to || SelfRenameRepeats(w, from)
  {
    hide SameUpToOrphans, RenamedT, SelfRenameRepeats;
    RenamedConverges(w, from, to);
    assert forall x :: Final(Deliver(x, Renamed(from, to))) == Final(RenamedT(Start(x), from, to));
    assert Deliver(w, Renamed(from, to)).worlds == RenamedT(Start(w), from, to).worlds;
  }

  /** Stopping a handler after any prefix of its calls and delivering the event again in
      full gives the rows of one clean delivery, with at most orphan branches left over
      and marks missing, exactly for the repeatable events. */
  lemma CrashAndRedeliveryConverge(w: World, ev: LifecycleEvent)
    ensures Converges(w, ev) <==> Repeatable(w, ev)
  {
    hide Converges, SelfForkRepeats, SelfRenameRepeats;
    match ev
    case Created(sid) => CreationsConverge(w, sid);
    case Forked(sid, parent) => ForksConvergeExactly(w, sid, parent);
    case Renamed(from, to) => RenamesConvergeExactly(w, from, to);
    case Deleted(sid) => DeletionsConverge(w, sid);
    case Unknown(kind) => UnknownsConverge(w, kind);
  }

  lemma UnknownsConverge(w: World, kind: string)
    ensures Converges(w, Unknown(kind))
  {
    SameAfterCrash(w);
  }

  lemma UnnamedForkRepeats(w: World, sid: string)
    requires ParseSession(sid).None?
    ensures SelfForkRepeats(w, sid)
  {
  }
}
