/** Each handler once more, as the world it ends in and the set of worlds it passes on
    the way, proved equal to its trace of calls. The proofs about handlers run over
    these instead of the traces. */
module Stages {
  import opened Wrappers
  import opened Naming
  import opened Mapping

  // ----- the worlds a handler ends in and passes -----

  function Branched(w: World, k: Key, src: string): World {
    if BranchExists(w, k) then w else Apply(w, CreateBranch(k, src))
  }

  function Inserted(w: World, k: Key, sid: string): World {
    Apply(w, InsertRow(k, sid))
  }

  function Bound(w: World, k: Key, sid: string): World {
    if InsertConflicts(w, k, sid) then w else Apply(Inserted(w, k, sid), InsertManaged(k.at))
  }

  function WithRepo(w: World, at: RepoKey): World {
    Apply(w, EnsureRepo(at))
  }

  function ForkEnd(w: World, k: Key, sid: string, src: string): World {
    if !Listed(w, k.at) then w else Bound(Branched(w, k, src), k, sid)
  }

  /** The worlds after each call of the handler tail shared by created and forked. */
  function ForkStages(w: World, k: Key, sid: string, src: string): set<World> {
    if !Listed(w, k.at) then {w}
    else {w, Branched(w, k, src), Inserted(Branched(w, k, src), k, sid), ForkEnd(w, k, sid, src)}
  }

  function CreatedEnd(w: World, k: Key, sid: string): World {
    if Mapped(w, sid) then w
    else var w1 := WithRepo(w, k.at); ForkEnd(w1, k, sid, Anchor(w1, k.at))
  }

  function CreatedStages(w: World, k: Key, sid: string): set<World> {
    if Mapped(w, sid) then {w}
    else var w1 := WithRepo(w, k.at); {w} + ForkStages(w1, k, sid, Anchor(w1, k.at))
  }

  lemma ForkPasses(t: Trace, k: Key, sid: string, src: string)
    requires t.worlds != [] && t.reply.Done?
    ensures var r := ForkFromT(t, k, sid, src);
      && Final(r) == ForkEnd(Final(t), k, sid, src)
      && (r.reply.Rejected? <==> !Listed(Final(t), k.at))
      && forall x :: x in r.worlds ==> x in t.worlds || x in ForkStages(Final(t), k, sid, src)
  {
  }

  lemma CreatedPasses(t: Trace, k: Key, sid: string)
    requires t.worlds != [] && t.reply.Done?
    ensures var r := CreatedT(t, k, sid);
      && Final(r) == CreatedEnd(Final(t), k, sid)
      && (r.reply.Rejected? <==> !Mapped(Final(t), sid) && !Listed(WithRepo(Final(t), k.at), k.at))
      && forall x :: x in r.worlds ==> x in t.worlds || x in CreatedStages(Final(t), k, sid)
  {
    hide BindRowT, Apply, Anchor;
    if !Mapped(Final(t), sid) {
      var t1 := Do(t, EnsureRepo(k.at));
      assert CreatedT(t, k, sid) == ForkFromT(t1, k, sid, Anchor(Final(t1), k.at));
      ForkPasses(t1, k, sid, Anchor(Final(t1), k.at));
    }
  }

  lemma CreationIsATail(t: Trace, k: Key, sid: string)
    requires t.worlds != [] && !Mapped(Final(t), sid)
    ensures var t1 := Do(t, EnsureRepo(k.at));
      CreatedT(t, k, sid) == ForkFromT(t1, k, sid, Anchor(Final(t1), k.at))
  {
    hide Apply, Anchor;
  }

  lemma CreatedStartsIn(w: World, k: Key, sid: string)
    ensures w in CreatedStages(w, k, sid)
  {
  }

  lemma CreatedEndIsAStage(w: World, k: Key, sid: string)
    ensures CreatedEnd(w, k, sid) in CreatedStages(w, k, sid)
  {
    hide Resolve, Branched, Anchor;
  }

  lemma ForkStartsIn(w: World, k: Key, sid: string, src: string)
    ensures w in ForkStages(w, k, sid, src)
  {
  }

  // ----- forked -----

  /** The parent is materialized first when it has no row. */
  function ParentReady(w: World, p: Key, parentSid: string): World {
    if p in w.rows then w else CreatedEnd(w, p, parentSid)
  }

  predicate ParentFails(w: World, p: Key, parentSid: string) {
    p !in w.rows && !Mapped(w, parentSid) && !Named(p.at)
  }

  function ForkedEnd(w: World, k: Key, sid: string, parentSid: string): World {
    if Mapped(w, sid) then w
    else
      match ParseSession(parentSid)
      case None => ForkEnd(w, k, sid, "main")
      case Some(p) =>
        if p.at != k.at then w
        else if ParentFails(w, p, parentSid) then WithRepo(w, p.at)
        else ForkEnd(ParentReady(w, p, parentSid), k, sid, p.branch)
  }

  function ForkedStages(w: World, k: Key, sid: string, parentSid: string): set<World> {
    if Mapped(w, sid) then {w}
    else
      match ParseSession(parentSid)
      case None => ForkStages(w, k, sid, "main")
      case Some(p) =>
        if p.at != k.at then {w}
        else
          (if p in w.rows then {w} else CreatedStages(w, p, parentSid)) +
          (if ParentFails(w, p, parentSid) then {} else ForkStages(ParentReady(w, p, parentSid), k, sid, p.branch))
  }

  lemma ForkFromExtends(t: Trace, k: Key, sid: string, src: string)
    requires t.worlds != []
    ensures t.worlds <= ForkFromT(t, k, sid, src).worlds
  {
  }

  lemma CreatedFailsAt(w: World, k: Key, sid: string)
    requires !Mapped(w, sid) && !Listed(WithRepo(w, k.at), k.at)
    ensures CreatedEnd(w, k, sid) == WithRepo(w, k.at)
  {
  }

  lemma ForkedPasses(w: World, k: Key, sid: string, parentSid: string)
    ensures var r := ForkedT(Start(w), k, sid, parentSid);
      && Final(r) == ForkedEnd(w, k, sid, parentSid)
      && forall x :: x in r.worlds ==> x in ForkedStages(w, k, sid, parentSid)
  {
    hide ForkFromT, CreatedT, ForkStages, CreatedStages, ForkEnd, CreatedEnd, WithRepo;
    if !Mapped(w, sid) {
      match ParseSession(parentSid)
      case None =>
        ForkStartsIn(w, k, sid, "main");
        ForkPasses(Start(w), k, sid, "main");
      case Some(p) =>
        if p.at == k.at {
          CreatedStartsIn(w, p, parentSid);
          CreatedPasses(Start(w), p, parentSid);
          RepoIsThere(w, p.at);
          if ParentFails(w, p, parentSid) {
            CreatedFailsAt(w, p, parentSid);
          }
          var t1 := if p in w.rows then Start(w) else CreatedT(Start(w), p, parentSid);
          if t1.reply.Done? {
            ForkPasses(t1, k, sid, p.branch);
          }
        }
    }
  }

  /** The end of the parent's creation is one of the worlds the fork passes. */
  lemma ParentStagesAreForkWorlds(w: World, k: Key, sid: string, parentSid: string, p: Key)
    requires !Mapped(w, sid) && ParseSession(parentSid) == Some(p) && p.at == k.at
    requires p !in w.rows && !ParentFails(w, p, parentSid)
    ensures CreatedEnd(w, p, parentSid) in ForkedT(Start(w), k, sid, parentSid).worlds
  {
    hide CreatedT, CreatedEnd, BindRowT, EnsureBranchT, WithRepo, Listed;
    var t1 := CreatedT(Start(w), p, parentSid);
    CreatedPasses(Start(w), p, parentSid);
    ForkFromExtends(t1, k, sid, p.branch);
    assert t1.worlds[|t1.worlds| - 1] == CreatedEnd(w, p, parentSid);
  }

  // ----- renamed -----

  function Moved(w: World, from: Key, to: Key, sid: string): World {
    Apply(w, RenameRow(from, to, sid))
  }

  function Unbranched(w: World, k: Key): World {
    if BranchExists(w, k) then Apply(w, DeleteBranch(k)) else w
  }

  function RenameEnd(w: World, from: Key, to: Key, fromSid: string, toSid: string): World {
    if !Listed(w, to.at) then w
    else
      var b := Branched(w, to, from.branch);
      if RenameConflicts(b, from, to, toSid) then b
      else Unbranched(Apply(Moved(b, from, to, toSid), Evict(fromSid)), from)
  }

  function RenameStages(w: World, from: Key, to: Key, fromSid: string, toSid: string): set<World> {
    if !Listed(w, to.at) then {w}
    else
      var b := Branched(w, to, from.branch);
      if RenameConflicts(b, from, to, toSid) then {w, b}
      else
        var m := Moved(b, from, to, toSid);
        {w, b, m, Apply(m, Evict(fromSid)), RenameEnd(w, from, to, fromSid, toSid)}
  }

  lemma RenamePasses(w: World, from: Key, to: Key, fromSid: string, toSid: string)
    requires from in w.rows && from.at == to.at
    ensures var r := RenameRowT(EnsureBranchT(Start(w), from.branch, to), from, to, fromSid, toSid);
      && Final(r) == RenameEnd(w, from, to, fromSid, toSid)
      && forall x :: x in r.worlds ==> x in RenameStages(w, from, to, fromSid, toSid)
  {
    hide Resolve, RenameConflicts;
  }

  // ----- deleted -----

  function DeleteEnd(w: World, k: Key, sid: string): World {
    Apply(Apply(Unbranched(w, k), DeleteRow(k)), Evict(sid))
  }

  function DeleteStages(w: World, k: Key, sid: string): set<World> {
    {w, Unbranched(w, k), Apply(Unbranched(w, k), DeleteRow(k)), DeleteEnd(w, k, sid)}
  }

  lemma DeletePasses(w: World, k: Key, sid: string)
    requires ParseSession(sid) == Some(k)
    ensures var r := DeletedT(Start(w), sid);
      && Final(r) == (if Mapped(w, sid) then DeleteEnd(w, k, sid) else w)
      && forall x :: x in r.worlds ==> x in DeleteStages(w, k, sid)
  {
  }

  // ----- what the stages have in common -----

  /** Two worlds that differ in their caches only. */
  predicate SameButCache(a: World, b: World) {
    Crash(a) == Crash(b)
  }

  /** No handler looks at the cache. */
  lemma CacheIsIrrelevant(w: World, k: Key, sid: string, src: string)
    ensures Branched(Crash(w), k, src) == Crash(Branched(w, k, src))
    ensures Bound(Crash(w), k, sid) == Crash(Bound(w, k, sid))
    ensures WithRepo(Crash(w), k.at) == Crash(WithRepo(w, k.at))
    ensures Anchor(Crash(w), k.at) == Anchor(w, k.at)
    ensures Crash(Crash(w)) == Crash(w)
  {
  }

  lemma ForkEndWithoutCache(w: World, k: Key, sid: string, src: string)
    ensures ForkEnd(Crash(w), k, sid, src) == Crash(ForkEnd(w, k, sid, src))
  {
    CacheIsIrrelevant(w, k, sid, src);
    CacheIsIrrelevant(Branched(w, k, src), k, sid, src);
  }

  lemma CreatedEndWithoutCache(w: World, k: Key, sid: string)
    ensures CreatedEnd(Crash(w), k, sid) == Crash(CreatedEnd(w, k, sid))
  {
    hide ForkEnd, Anchor, WithRepo;
    CacheIsIrrelevant(w, k, sid, "");
    CacheIsIrrelevant(WithRepo(w, k.at), k, sid, "");
    ForkEndWithoutCache(WithRepo(w, k.at), k, sid, Anchor(WithRepo(w, k.at), k.at));
  }

  lemma EmptyResolvesNothing(ref: string)
    ensures Resolve(EMPTY_REPO, ref).None?
  {
  }

  /** A branch is created once: afterwards it exists, or its source did not resolve and
      nothing changed. */
  lemma BranchedOnce(w: World, k: Key, src: string)
    requires Listed(w, k.at)
    ensures BranchExists(Branched(w, k, src), k) || Branched(w, k, src) == w
    ensures Listed(Branched(w, k, src), k.at)
    ensures Branched(w, k, src).rows == w.rows && Branched(w, k, src).managed == w.managed
    ensures Branched(w, k, src).sessions == w.sessions && Branched(w, k, src).repos.Keys == w.repos.Keys
  {
  }

  lemma RepoIsThere(x: World, at: RepoKey)
    ensures at in WithRepo(x, at).repos && (Listed(WithRepo(x, at), at) <==> Named(at))
  {
  }

  lemma UnbranchedBranches(w: World, k: Key)
    ensures Unbranched(w, k).rows == w.rows
    ensures forall o :: BranchExists(Unbranched(w, k), o) <==> BranchExists(w, o) && o != k
  {
  }

  lemma SameReposSameBranches(a: World, b: World)
    requires a.repos == b.repos
    ensures forall o :: BranchExists(a, o) == BranchExists(b, o)
    ensures forall at :: Listed(a, at) == Listed(b, at)
    ensures forall at, src :: Resolves(a, at, src) == Resolves(b, at, src)
  {
  }

  /** A creation for an unmapped session, in terms of its branch. */
  lemma CreationRows(x: World, k: Key, name: string)
    requires !Mapped(x, name) && k !in x.rows
    ensures var y, w1 := CreatedEnd(x, k, name), WithRepo(x, k.at);
      && y.sessions == x.sessions
      && y.rows == (if Named(k.at) then x.rows[k := name] else x.rows)
      && y.managed == (if Named(k.at) then x.managed + {k.at} else x.managed)
      && y.repos.Keys == x.repos.Keys + {k.at}
      && y.repos == (if Named(k.at) then Branched(w1, k, Anchor(w1, k.at)) else w1).repos
  {
    hide Anchor, Branched;
    if Named(k.at) {
      var w1 := WithRepo(x, k.at);
      BranchedOnce(w1, k, Anchor(w1, k.at));
      assert !InsertConflicts(Branched(w1, k, Anchor(w1, k.at)), k, name);
    }
  }

  /** In a repository that has just been created nothing resolves. */
  lemma NewRepoResolvesNothing(w: World, at: RepoKey, src: string)
    ensures Resolves(WithRepo(w, at), at, src) == Resolves(w, at, src)
    ensures Anchor(WithRepo(w, at), at) == Anchor(w, at)
    ensures forall o :: BranchExists(WithRepo(w, at), o) == BranchExists(w, o)
  {
    EmptyResolvesNothing(src);
    assert !CanResolve(EMPTY_REPO, "main");
  }

  /** A new branch gives its own name a meaning, if that is an ordinary one, and no other. */
  lemma NameAfterBranching(w: World, p: Key, src: string)
    requires Listed(w, p.at)
    ensures Resolves(Branched(w, p, src), p.at, p.branch)
      <==> Resolves(w, p.at, p.branch) || (Ordinary(p.branch) && Resolves(w, p.at, src))
    ensures forall o :: o != p ==> BranchExists(Branched(w, p, src), o) == BranchExists(w, o)
  {
  }
}
