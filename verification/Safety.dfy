/** No dangling rows: when every single call of a handler leaves each mapping row with
    an existing branch, and what a deletion can leave behind. */
module Safety {
  import opened Wrappers
  import opened Naming
  import opened Mapping
  import opened Keys
  import opened Stages
  import opened Convergence

  /** Every row's branch exists. */
  ghost predicate Backed(w: World) {
    forall k :: k in w.rows ==> BranchExists(w, k)
  }

  ghost predicate BackedExcept(w: World, own: Key) {
    forall k :: k in w.rows && k != own ==> BranchExists(w, k)
  }

  ghost predicate BackedThroughout(t: Trace) {
    forall i :: 0 <= i < |t.worlds| ==> Backed(t.worlds[i])
  }

  lemma Throughout(t: Trace)
    requires t.worlds != []
    ensures BackedThroughout(t) <==> forall x :: x in t.worlds ==> Backed(x)
    ensures Final(t) in t.worlds
  {
    assert t.worlds[|t.worlds| - 1] == Final(t);
  }

  // ----- the branch-then-row tail of created and forked -----

  /** The tail is safe when it is refused, when the branch is there already, or when
      the source it would be created from resolves. */
  predicate TailSafe(w: World, k: Key, src: string) {
    !Listed(w, k.at) || BranchExists(w, k) || Resolves(w, k.at, src)
  }

  lemma BranchedBacks(w: World, k: Key, src: string)
    requires Backed(w) && Listed(w, k.at)
    ensures Backed(Branched(w, k, src))
    ensures BranchExists(Branched(w, k, src), k) <==> TailSafe(w, k, src)
  {
  }

  lemma RowNeedsItsBranch(w: World, k: Key, sid: string)
    requires Backed(w) && !InsertConflicts(w, k, sid)
    ensures Backed(Inserted(w, k, sid)) <==> BranchExists(w, k)
    ensures Backed(Bound(w, k, sid)) <==> BranchExists(w, k)
  {
    assert k in Inserted(w, k, sid).rows && k in Bound(w, k, sid).rows;
  }

  lemma TailSteps(w: World, k: Key, sid: string, src: string)
    requires Backed(w) && (Mapped(w, sid) ==> k in w.rows)
    ensures Backed(ForkEnd(w, k, sid, src)) <==> TailSafe(w, k, src)
    ensures TailSafe(w, k, src) ==> forall x :: x in ForkStages(w, k, sid, src) ==> Backed(x)
  {
    hide Branched, Inserted, Bound, TailSafe, Backed;
    if Listed(w, k.at) {
      var b := Branched(w, k, src);
      BranchedBacks(w, k, src);
      BranchedOnce(w, k, src);
      BackedRowHasBranch(w, k, src);
      if InsertConflicts(b, k, sid) {
        ConflictChangesNothing(b, k, sid);
      } else {
        RowNeedsItsBranch(b, k, sid);
      }
    } else {
      RefusedIsSafe(w, k, src);
    }
  }

  lemma RefusedIsSafe(w: World, k: Key, src: string)
    requires !Listed(w, k.at)
    ensures TailSafe(w, k, src)
  {
  }

  lemma BackedRowHasBranch(w: World, k: Key, src: string)
    requires Backed(w)
    ensures k in w.rows ==> TailSafe(w, k, src)
  {
  }

  lemma ConflictChangesNothing(w: World, k: Key, sid: string)
    requires InsertConflicts(w, k, sid)
    ensures Inserted(w, k, sid) == w && Bound(w, k, sid) == w
  {
  }

  // ----- created -----

  /** A creation keeps every row backed exactly when the session is mapped already, the
      repository name is one the listing skips, the branch exists, or the anchor
      ("main", else the newest revision) resolves. */
  predicate CreatedSafe(w: World, k: Key, sid: string) {
    Mapped(w, sid) || !Named(k.at) || BranchExists(w, k) || Resolves(w, k.at, Anchor(w, k.at))
  }

  lemma WithRepoBacks(w: World, k: Key)
    requires Backed(w)
    ensures var w1 := WithRepo(w, k.at);
      && Backed(w1) && w1.rows == w.rows
      && (TailSafe(w1, k, Anchor(w1, k.at)) <==>
            !Named(k.at) || BranchExists(w, k) || Resolves(w, k.at, Anchor(w, k.at)))
  {
    assert !CanResolve(EMPTY_REPO, "main");
  }

  lemma CreatedSteps(w: World, k: Key, sid: string)
    requires Backed(w)
    ensures BackedThroughout(CreatedT(Start(w), k, sid)) <==> CreatedSafe(w, k, sid)
    ensures Backed(CreatedEnd(w, k, sid)) <==> CreatedSafe(w, k, sid)
    ensures CreatedSafe(w, k, sid) ==> forall x :: x in CreatedStages(w, k, sid) ==> Backed(x)
  {
    hide Backed, TailSafe, CreatedT, ForkEnd, ForkStages, WithRepo, Anchor, BranchExists;
    CreatedPasses(Start(w), k, sid);
    Throughout(CreatedT(Start(w), k, sid));
    if !Mapped(w, sid) {
      var w1 := WithRepo(w, k.at);
      WithRepoBacks(w, k);
      TailSteps(w1, k, sid, Anchor(w1, k.at));
    }
  }

  // ----- forked -----

  /** A fork is safe when it is refused, or its parent's creation, if one is needed, is
      safe and then the source of its own branch resolves. */
  predicate ForkedSafe(w: World, k: Key, sid: string, parentSid: string) {
    Mapped(w, sid) ||
    match ParseSession(parentSid)
    case None => TailSafe(w, k, "main")
    case Some(p) =>
      || p.at != k.at
      || ParentFails(w, p, parentSid)
      || ((p in w.rows || CreatedSafe(w, p, parentSid)) && (k == p || ForkFinds(w, k, p)))
  }

  /** What a fork finds to make its branch from: it is refused, the branch is there, the
      parent's name resolves, or that is an ordinary name and the parent's branch is about
      to be made, from an anchor that resolves. */
  predicate ForkFinds(w: World, k: Key, p: Key) {
    || !Named(k.at) || (p in w.rows && k.at !in w.repos)
    || BranchExists(w, k) || Resolves(w, k.at, p.branch)
    || (p !in w.rows && Ordinary(p.branch) && Resolves(w, k.at, Anchor(w, k.at)))
  }

  /** That is the safety of the branch in the world the parent's creation leaves. */
  lemma ForkFindsExactly(w: World, k: Key, p: Key, parentSid: string)
    requires NamedRows(w) && ParseSession(parentSid) == Some(p) && p.at == k.at && k != p
    ensures TailSafe(ParentReady(w, p, parentSid), k, p.branch) <==> ForkFinds(w, k, p)
  {
    hide Resolve, Branched, CreatedEnd, WithRepo, Anchor, BranchExists;
    KeysCoincide(w, parentSid, p);
    if p !in w.rows {
      var w1 := WithRepo(w, p.at);
      CreationRows(w, p, parentSid);
      NewRepoResolvesNothing(w, p.at, p.branch);
      NewRepoResolvesNothing(w, p.at, Anchor(w, p.at));
      RepoIsThere(w, p.at);
      if Named(p.at) {
        NameAfterBranching(w1, p, Anchor(w1, p.at));
        SameReposSameBranches(CreatedEnd(w, p, parentSid), Branched(w1, p, Anchor(w1, p.at)));
      }
    }
  }

  /** In a backed world: unless the name is one of the three with a meaning of their own,
      the parent's branch is there or will be. */
  lemma ForkFindsWhenBacked(w: World, k: Key, p: Key, parentSid: string)
    requires Backed(w) && NamedRows(w) && ParseSession(parentSid) == Some(p) && p.at == k.at
    requires !ParentFails(w, p, parentSid) && (p in w.rows || CreatedSafe(w, p, parentSid))
    ensures ForkFinds(w, k, p) <==> BranchExists(w, k) || Ordinary(p.branch) || Resolves(w, k.at, p.branch)
  {
    hide Anchor;
    KeysCoincide(w, parentSid, p);
  }

  lemma ForkedSteps(w: World, k: Key, sid: string, parentSid: string)
    requires Backed(w) && NamedRows(w) && ParseSession(sid) == Some(k)
    ensures BackedThroughout(ForkedT(Start(w), k, sid, parentSid)) <==> ForkedSafe(w, k, sid, parentSid)
  {
    hide Backed, TailSafe, ForkedT, ForkEnd, ForkStages, CreatedEnd, CreatedStages, WithRepo, CreatedSafe, Listed;
    ForkedPasses(w, k, sid, parentSid);
    Throughout(ForkedT(Start(w), k, sid, parentSid));
    if !Mapped(w, sid) {
      match ParseSession(parentSid)
      case None => TailSteps(w, k, sid, "main");
      case Some(p) =>
        if p.at == k.at {
          if ParentFails(w, p, parentSid) {
            FailingParentSteps(w, p, parentSid);
          } else {
            ForkedAfterParent(w, k, sid, parentSid, p);
          }
        }
    }
  }

  lemma FailingParentSteps(w: World, p: Key, parentSid: string)
    requires Backed(w) && ParentFails(w, p, parentSid)
    ensures forall x :: x in CreatedStages(w, p, parentSid) ==> Backed(x)
    ensures Backed(WithRepo(w, p.at))
  {
  }

  lemma ForkedAfterParent(w: World, k: Key, sid: string, parentSid: string, p: Key)
    requires Backed(w) && NamedRows(w) && ParseSession(sid) == Some(k) && !Mapped(w, sid)
    requires ParseSession(parentSid) == Some(p) && p.at == k.at && !ParentFails(w, p, parentSid)
    ensures BackedThroughout(ForkedT(Start(w), k, sid, parentSid)) <==> ForkedSafe(w, k, sid, parentSid)
  {
    hide Backed, TailSafe, ForkedT, ForkEnd, ForkStages, CreatedEnd, CreatedStages, WithRepo, CreatedSafe, Listed,
      ForkFinds;
    var ready := ParentReady(w, p, parentSid);
    ForkedPasses(w, k, sid, parentSid);
    Throughout(ForkedT(Start(w), k, sid, parentSid));
    NamingOfParsed(sid);
    NamingOfParsed(parentSid);
    ParentIsSettled(w, p, parentSid);
    CreatedSteps(w, p, parentSid);
    if p in w.rows || CreatedSafe(w, p, parentSid) {
      assert Mapped(ready, sid) ==> k in ready.rows;
      TailSteps(ready, k, sid, p.branch);
      if k == p {
        KeysCoincide(w, sid, k);
        assert k in ready.rows;
        BackedRowHasBranch(ready, k, p.branch);
      } else {
        ForkFindsExactly(w, k, p, parentSid);
      }
    } else {
      ParentStagesAreForkWorlds(w, k, sid, parentSid, p);
    }
  }

  // ----- renamed -----

  /** A rename is safe when it is refused or another row is in its way; otherwise the
      names have to differ and the new branch has to exist or its source resolve. */
  ghost predicate RenamedSafe(w: World, fromSid: string, toSid: string) {
    var from, to := ParseSession(fromSid), ParseSession(toSid);
    if from.None? || to.None? || from.value.at != to.value.at then true
    else if from.value !in w.rows then CreatedSafe(w, to.value, toSid)
    else
      || RenameConflicts(w, from.value, to.value, toSid)
      || (from.value != to.value && TailSafe(w, to.value, from.value.branch))
  }

  lemma RenameTailSteps(w: World, from: Key, to: Key, fromSid: string, toSid: string)
    requires Backed(w) && from in w.rows && from.at == to.at
    ensures RenameConflicts(w, from, to, toSid) || (from != to && TailSafe(w, to, from.branch)) ==>
      forall x :: x in RenameStages(w, from, to, fromSid, toSid) ==> Backed(x)
    ensures !RenameConflicts(w, from, to, toSid) && !TailSafe(w, to, from.branch) ==>
      !Backed(Moved(Branched(w, to, from.branch), from, to, toSid))
    ensures !RenameConflicts(w, from, to, toSid) && from == to ==>
      !Backed(RenameEnd(w, from, to, fromSid, toSid))
  {
    hide Branched, RenameConflicts, TailSafe, Backed, Moved, Unbranched;
    assert Listed(w, to.at) by {
      RowIsListed(w, from);
    }
    var b := Branched(w, to, from.branch);
    BranchedBacks(w, to, from.branch);
    BranchedOnce(w, to, from.branch);
    ConflictsByRows(w, b, from, to, toSid);
    if !RenameConflicts(b, from, to, toSid) {
      MovedRowNeedsItsBranch(b, from, to, fromSid, toSid);
    }
  }

  lemma RowIsListed(w: World, k: Key)
    requires Backed(w) && k in w.rows
    ensures Listed(w, k.at)
  {
  }

  lemma MovedRowNeedsItsBranch(b: World, from: Key, to: Key, fromSid: string, toSid: string)
    requires Backed(b) && from in b.rows && from.at == to.at && !RenameConflicts(b, from, to, toSid)
    ensures var m := Moved(b, from, to, toSid);
      var evicted := Apply(m, Evict(fromSid));
      && (Backed(m) <==> BranchExists(b, to))
      && (Backed(m) ==> Backed(evicted))
      && (Backed(m) && from != to ==> Backed(Unbranched(evicted, from)))
      && (from == to ==> !Backed(Unbranched(evicted, from)))
  {
    hide RenameConflicts;
    MovedRow(b, from, to, toSid);
    var m := Moved(b, from, to, toSid);
    assert to in m.rows;
    assert forall k :: k in m.rows ==> k == to || (k in b.rows && k != from);
  }

  lemma ConflictsByRows(a: World, b: World, from: Key, to: Key, sid: string)
    requires a.rows == b.rows
    ensures RenameConflicts(a, from, to, sid) == RenameConflicts(b, from, to, sid)
  {
  }

  lemma MovedRow(b: World, from: Key, to: Key, sid: string)
    requires from in b.rows && !RenameConflicts(b, from, to, sid)
    ensures Moved(b, from, to, sid) == b.(rows := (b.rows - {from})[to := sid])
  {
  }

  lemma RenamedSteps(w: World, fromSid: string, toSid: string)
    requires Backed(w)
    ensures BackedThroughout(RenamedT(Start(w), fromSid, toSid)) <==> RenamedSafe(w, fromSid, toSid)
  {
    hide Backed, TailSafe, RenameConflicts, CreatedT, RenameRowT, EnsureBranchT, CreatedSafe, RenameEnd,
      RenameStages, Moved, Branched;
    var from, to := ParseSession(fromSid), ParseSession(toSid);
    Throughout(RenamedT(Start(w), fromSid, toSid));
    if from.Some? && to.Some? && from.value.at == to.value.at {
      CreatedSteps(w, to.value, toSid);
      if from.value in w.rows {
        RenamePasses(w, from.value, to.value, fromSid, toSid);
        RenameTailSteps(w, from.value, to.value, fromSid, toSid);
        if !RenameConflicts(w, from.value, to.value, toSid) && !TailSafe(w, to.value, from.value.branch) {
          MoveIsAWorld(w, from.value, to.value, fromSid, toSid);
        }
      }
    }
  }

  lemma MoveIsAWorld(w: World, from: Key, to: Key, fromSid: string, toSid: string)
    requires Backed(w) && from in w.rows && from.at == to.at && !RenameConflicts(w, from, to, toSid)
    ensures Moved(Branched(w, to, from.branch), from, to, toSid)
      in RenameRowT(EnsureBranchT(Start(w), from.branch, to), from, to, fromSid, toSid).worlds
  {
    hide Resolve;
    var t := EnsureBranchT(Start(w), from.branch, to);
    var b := Branched(w, to, from.branch);
    BranchedOnce(w, to, from.branch);
    assert Final(t) == b && t.reply.Done?;
    ConflictsByRows(w, b, from, to, toSid);
    var t1 := Do(t, RenameRow(from, to, toSid));
    assert t1.worlds[|t1.worlds| - 1] == Moved(b, from, to, toSid);
    DeleteBranchExtends(Do(t1, Evict(fromSid)), from);
  }

  lemma DeleteBranchExtends(t: Trace, k: Key)
    requires t.worlds != []
    ensures t.worlds <= DeleteBranchT(t, k).worlds
  {
  }

  // ----- deleted -----

  /** The opposite of what the handler's comment promises: its branch goes first, so a
      mapped session's deletion always passes a world in which its row dangles; only
      its own row ever does, and at the end none. */
  lemma DeletedSteps(w: World, sid: string, k: Key)
    requires Backed(w) && NamedRows(w) && ParseSession(sid) == Some(k)
    ensures forall x :: x in DeletedT(Start(w), sid).worlds ==> BackedExcept(x, k)
    ensures Backed(Final(DeletedT(Start(w), sid)))
    ensures BackedThroughout(DeletedT(Start(w), sid)) <==> !Mapped(w, sid)
  {
    hide DeletedT, DeleteEnd, Backed, BackedExcept, Unbranched;
    KeysCoincide(w, sid, k);
    DeletePasses(w, k, sid);
    DeleteStagesBacked(w, k, sid);
    Throughout(DeletedT(Start(w), sid));
    if Mapped(w, sid) {
      DeletionDangles(w, k, sid);
    } else {
      NothingToDelete(w, k, sid);
    }
  }

  lemma DeleteStagesBacked(w: World, k: Key, sid: string)
    requires Backed(w)
    ensures forall x :: x in DeleteStages(w, k, sid) ==> BackedExcept(x, k)
    ensures Backed(DeleteEnd(w, k, sid))
  {
    hide BranchExists, Unbranched;
    var u := Unbranched(w, k);
    UnbranchedBranches(w, k);
    SameReposSameBranches(u, Apply(u, DeleteRow(k)));
    SameReposSameBranches(u, DeleteEnd(w, k, sid));
  }

  lemma DeletionDangles(w: World, k: Key, sid: string)
    requires Backed(w) && k in w.rows && Mapped(w, sid) && ParseSession(sid) == Some(k)
    ensures !Backed(Unbranched(w, k)) && Unbranched(w, k) in DeletedT(Start(w), sid).worlds
  {
    var u := Unbranched(w, k);
    assert k in u.rows && !BranchExists(u, k);
    assert DeletedT(Start(w), sid).worlds[1] == u;
  }

  lemma NothingToDelete(w: World, k: Key, sid: string)
    requires !Mapped(w, sid) && ParseSession(sid) == Some(k)
    ensures DeletedT(Start(w), sid).worlds == [w]
  {
  }

  lemma DeletionWorlds(v: World, sid: string, k: Key)
    requires ParseSession(sid) == Some(k) && Mapped(v, sid)
    ensures var u := Unbranched(v, k);
      var gone := Apply(u, DeleteRow(k));
      DeletedT(Start(v), sid).worlds
        == (if BranchExists(v, k) then [v, u] else [v]) + [gone, Apply(gone, Evict(sid))]
  {
    hide BranchExists;
  }

  // ----- events and runs -----

  /** What a caller can check before delivering an event. */
  ghost predicate EventSafe(w: World, ev: LifecycleEvent) {
    match ev
    case Created(sid) => ParseSession(sid).None? || CreatedSafe(w, ParseSession(sid).value, sid)
    case Forked(sid, parent) => ParseSession(sid).None? || ForkedSafe(w, ParseSession(sid).value, sid, parent)
    case Renamed(from, to) => RenamedSafe(w, from, to)
    case Deleted(sid) => ParseSession(sid).None? || !Mapped(w, sid)
    case Unknown(_) => true
  }

  /** Every single call of a handler leaves every row with its branch exactly for the
      safe events. */
  lemma StepSafety(w: World, ev: LifecycleEvent)
    requires Backed(w) && NamedRows(w)
    ensures BackedThroughout(Deliver(w, ev)) <==> EventSafe(w, ev)
  {
    hide Backed, CreatedT, ForkedT, RenamedT, DeletedT, CreatedSafe, ForkedSafe, RenamedSafe;
    match ev
    case Created(sid) =>
      if ParseSession(sid).Some? { CreatedSteps(w, ParseSession(sid).value, sid); }
    case Forked(sid, parent) =>
      if ParseSession(sid).Some? { ForkedSteps(w, ParseSession(sid).value, sid, parent); }
    case Renamed(from, to) => RenamedSteps(w, from, to);
    case Deleted(sid) =>
      if ParseSession(sid).Some? { DeletedSteps(w, sid, ParseSession(sid).value); }
      else { UnnamedDeletion(w, sid); }
    case Unknown(_) =>
  }

  lemma UnnamedDeletion(w: World, sid: string)
    requires ParseSession(sid).None?
    ensures DeletedT(Start(w), sid).worlds == [w]
  {
  }

  // ----- repositories that have a revision -----

  /** Branches and revisions point at readable snapshots. */
  ghost predicate SoundRepo(r: Repo) {
    && (forall b :: b in r.branches ==> r.branches[b] in r.snapshots)
    && (forall i :: 0 <= i < |r.log| ==> r.log[i].hash in r.snapshots)
  }

  ghost predicate HasRevision(w: World, at: RepoKey) {
    at in w.repos && w.repos[at].log != [] && SoundRepo(w.repos[at])
  }

  lemma {:induction false} ListedIdIsFound(log: seq<Revision>, ref: string, i: nat)
    requires i < |log| && log[i].id == ref
    ensures FindById(log, ref).Some?
  {
    if i > 0 && log[0].id != ref {
      ListedIdIsFound(log[1..], ref, i - 1);
    }
  }

  /** Where there is a revision, the anchor of a new branch resolves: what the client's
      own test accepts is accepted by the server too. */
  lemma AnchorResolves(w: World, at: RepoKey)
    requires HasRevision(w, at)
    ensures Resolves(w, at, Anchor(w, at))
  {
    var r := w.repos[at];
    if CanResolve(r, "main") && "main" !in r.branches && "main" !in r.snapshots {
      var i :| 0 <= i < |r.log| && (r.log[i].id == "main" || r.log[i].hash == "main");
      ListedIdIsFound(r.log, "main", i);
    }
  }

  /** A branch can be branched from, its name being the one reserved spelling that means
      the newest revision's parent excepted. */
  lemma BranchResolves(w: World, k: Key)
    requires HasRevision(w, k.at) && BranchExists(w, k) && k.branch != "@-"
    ensures Resolves(w, k.at, k.branch)
  {
  }

  /** Creations, forks from a workspace session and renames are safe at every single call
      in repositories that have a revision. */
  lemma SafeWhereThereIsARevision(w: World, ev: LifecycleEvent)
    requires Backed(w) && NamedRows(w)
    requires match ev
      case Created(sid) =>
        ParseSession(sid).Some? && HasRevision(w, ParseSession(sid).value.at)
      case Forked(sid, parent) =>
        && ParseSession(sid).Some? && HasRevision(w, ParseSession(sid).value.at)
        && ParseSession(parent).Some? && ParseSession(parent).value.branch != "@-"
      case Renamed(from, to) =>
        && from != to && ParseSession(to).Some? && HasRevision(w, ParseSession(to).value.at)
        && ParseSession(from).Some? && ParseSession(from).value.branch != "@-"
      case _ => false
    ensures EventSafe(w, ev)
  {
    match ev
    case Created(sid) => AnchorResolves(w, ParseSession(sid).value.at);
    case Forked(sid, parent) =>
      var k, p := ParseSession(sid).value, ParseSession(parent).value;
      if p.at == k.at {
        AnchorResolves(w, k.at);
        RevisedForkFinds(w, k, p);
      }
    case Renamed(from, to) =>
      NamingOfParsed(from);
      NamingOfParsed(to);
      AnchorResolves(w, ParseSession(to).value.at);
      var f := ParseSession(from).value;
      if f in w.rows && f.at == ParseSession(to).value.at {
        BranchResolves(w, f);
      }
    case _ =>
  }

  /** With a revision a fork finds its source, unless the parent's row dangles or its branch
      has the one reserved name. */
  lemma RevisedForkFinds(w: World, k: Key, p: Key)
    requires HasRevision(w, k.at) && p.at == k.at && p.branch != "@-" && (p in w.rows ==> BranchExists(w, p))
    ensures ForkFinds(w, k, p)
  {
    hide Anchor;
    AnchorResolves(w, k.at);
  }

  lemma AnchorIsOrdinary(w: World, at: RepoKey)
    ensures Anchor(w, at) in {"", "main"}
  {
  }

  lemma BranchingKeepsRevisions(w: World, k: Key, src: string)
    requires HasRevision(w, k.at)
    requires Resolve(w.repos[k.at], src).Some? ==>
      Resolve(w.repos[k.at], src).value in w.repos[k.at].snapshots
    ensures HasRevision(Branched(w, k, src), k.at)
  {
    hide Resolve;
  }

  lemma {:induction false} FoundIsListed(log: seq<Revision>, ref: string)
    ensures FindById(log, ref).Some? ==> exists i :: 0 <= i < |log| && log[i].hash == FindById(log, ref).value
    ensures FindByPrefix(log, ref).Some? ==> exists i :: 0 <= i < |log| && log[i].hash == FindByPrefix(log, ref).value
  {
    if log != [] {
      FoundIsListed(log[1..], ref);
    }
  }

  lemma ResolvedIsReadable(r: Repo, ref: string)
    requires SoundRepo(r)
    ensures Resolve(r, ref).Some? && ref != "@-" ==> Resolve(r, ref).value in r.snapshots
  {
    FoundIsListed(r.log, ref);
  }

  // ----- runs -----

  /** A delivery that gets to make `calls` calls and then crashes, or completes. */
  datatype Delivery = Delivery(ev: LifecycleEvent, calls: nat)

  function AfterDelivery(w: World, d: Delivery): World {
    var t := Deliver(w, d.ev);
    if d.calls < |t.worlds| then Crash(t.worlds[d.calls]) else Final(t)
  }

  function AfterDeliveries(w: World, run: seq<Delivery>): World {
    if run == [] then w else AfterDelivery(AfterDeliveries(w, run[..|run| - 1]), run[|run| - 1])
  }

  /** Each event is safe in the world that receives it, or is a deletion that is not cut
      between its branch and its row. */
  ghost predicate SafeRun(w: World, run: seq<Delivery>) {
    run == [] ||
    (var init, d := run[..|run| - 1], run[|run| - 1];
     var before := AfterDeliveries(w, init);
     SafeRun(w, init) &&
     (EventSafe(before, d.ev) || (d.ev.Deleted? && d.calls != 1)))
  }

  /** Over every such run, however often its events are cut short, no row dangles. */
  lemma {:induction false} SafeRunsStayBacked(w: World, run: seq<Delivery>)
    requires Backed(w) && Ordered(w) && SafeRun(w, run)
    ensures Backed(AfterDeliveries(w, run)) && Ordered(AfterDeliveries(w, run))
  {
    hide Backed, Ordered, EventSafe, Deliver;
    if run != [] {
      SafeRunsStayBacked(w, run[..|run| - 1]);
      DeliveryStaysBacked(AfterDeliveries(w, run[..|run| - 1]), run[|run| - 1]);
    }
  }

  lemma DeliveryKeepsOrder(w: World, d: Delivery)
    requires Ordered(w)
    ensures Ordered(AfterDelivery(w, d))
  {
    hide Deliver, Ordered;
    var t := Deliver(w, d.ev);
    var at := if d.calls < |t.worlds| then d.calls else |t.worlds| - 1;
    EventsAreNamed(w, d.ev);
    TracesKeepOrder(t, at);
    CrashKeeps(t.worlds[at]);
  }

  lemma DeliveryStaysBacked(w: World, d: Delivery)
    requires Backed(w) && Ordered(w)
    requires EventSafe(w, d.ev) || (d.ev.Deleted? && d.calls != 1)
    ensures Backed(AfterDelivery(w, d)) && Ordered(AfterDelivery(w, d))
  {
    hide Backed, EventSafe, Deliver;
    var t := Deliver(w, d.ev);
    var at := if d.calls < |t.worlds| then d.calls else |t.worlds| - 1;
    DeliveryKeepsOrder(w, d);
    CrashKeeps(t.worlds[at]);
    if EventSafe(w, d.ev) {
      StepSafety(w, d.ev);
    } else {
      UncutDeletion(w, d.ev.sid, at);
    }
  }

  /** Past its second call a deletion has taken the row away. */
  lemma UncutDeletion(w: World, sid: string, i: nat)
    requires Backed(w) && NamedRows(w) && i < |Deliver(w, Deleted(sid)).worlds|
    requires i != 1 || i == |Deliver(w, Deleted(sid)).worlds| - 1
    ensures Backed(Deliver(w, Deleted(sid)).worlds[i])
  {
    hide DeletedT, Unbranched;
    if ParseSession(sid).None? {
      UnnamedDeletion(w, sid);
    } else {
      var k := ParseSession(sid).value;
      KeysCoincide(w, sid, k);
      if Mapped(w, sid) {
        DeletionWorlds(w, sid, k);
        DeleteStagesBacked(w, k, sid);
        EvictionKeeps(Apply(Unbranched(w, k), DeleteRow(k)), sid);
      } else {
        NothingToDelete(w, k, sid);
      }
    }
  }

  lemma EvictionKeeps(w: World, name: string)
    ensures Backed(Apply(w, Evict(name))) <==> Backed(w)
  {
  }

  lemma CrashKeeps(w: World)
    ensures Ordered(w) ==> Ordered(Crash(w))
    ensures Backed(w) ==> Backed(Crash(w))
  {
  }
}
