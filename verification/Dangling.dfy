/** Which rows dangle after any run of deliveries, each cut after any of its calls: what
    one delivery loses and heals, call by call, and what that comes to over a run. */
module Dangling {
  import opened Wrappers
  import opened Naming
  import opened Mapping
  import opened Keys
  import opened Stages
  import opened Convergence
  import opened Safety

  /** A mapping row whose branch is not there. */
  predicate Dangles(w: World, o: Key) {
    o in w.rows && !BranchExists(w, o)
  }

  // ----- what one call sequence does to branches and rows -----

  lemma BranchesAfter(w: World, k: Key, src: string)
    requires Listed(w, k.at)
    ensures var b := Branched(w, k, src);
      && b.rows == w.rows && Listed(b, k.at)
      && (forall o :: BranchExists(b, o) <==> BranchExists(w, o) || (o == k && Resolves(w, k.at, src)))
  {
    hide Resolve;
  }

  /** The branch-then-row tail: of new rows only its own can dangle. */
  lemma TailDangles(w: World, k: Key, sid: string, src: string, x: World)
    requires x in ForkStages(w, k, sid, src) && (k in w.rows ==> BranchExists(w, k))
    ensures forall o :: Dangles(x, o) <==> o in x.rows && (Dangles(w, o) || (o == k && !TailSafe(w, k, src)))
    ensures x.rows == w.rows || x.rows == w.rows[k := sid]
  {
    hide Resolve, Branched;
    if Listed(w, k.at) {
      BranchesAfter(w, k, src);
    }
  }

  lemma WithRepoDangles(w: World, at: RepoKey)
    ensures WithRepo(w, at).rows == w.rows
    ensures forall o :: BranchExists(WithRepo(w, at), o) <==> BranchExists(w, o)
  {
  }

  lemma CreatedDangles(w: World, k: Key, sid: string, x: World)
    requires NamedRows(w) && ParseSession(sid) == Some(k) && x in CreatedStages(w, k, sid)
    ensures forall o :: Dangles(x, o) <==>
      o in x.rows && (Dangles(w, o) || (o == k && k !in w.rows && !CreatedSafe(w, k, sid)))
    ensures x.rows == w.rows || (x.rows == w.rows[k := sid] && k !in w.rows)
  {
    hide Resolve, ForkStages, TailSafe, WithRepo, Anchor, BranchExists;
    KeysCoincide(w, sid, k);
    if !Mapped(w, sid) && x != w {
      var w1 := WithRepo(w, k.at);
      WithRepoDangles(w, k.at);
      TailDangles(w1, k, sid, Anchor(w1, k.at), x);
      CreatedSafeAfterRepo(w, k, sid);
    }
  }

  lemma CreatedSafeAfterRepo(w: World, k: Key, sid: string)
    requires !Mapped(w, sid)
    ensures var w1 := WithRepo(w, k.at);
      CreatedSafe(w, k, sid) <==> TailSafe(w1, k, Anchor(w1, k.at))
  {
    assert !CanResolve(EMPTY_REPO, "main");
  }

  // ----- one delivery -----

  /** The calls of a creation that is neither refused nor already done. */
  const CREATION := 4

  /** The calls of a rename of a bound session to its own name, its branch being there. */
  const SELF_RENAME := 3

  /** The first `calls` calls of the delivery of `ev` in `v` deprive `o` of its branch, or
      bind it without one; only a deletion, and the end of a rename to the own name, take
      a branch away. */
  predicate Loses(v: World, ev: LifecycleEvent, calls: nat, o: Key) {
    match ev
    case Created(sid) => ParseSession(sid) == Some(o) && o !in v.rows && !CreatedSafe(v, o, sid)
    case Forked(sid, parent) =>
      ParseSession(sid).Some? &&
      (var k := ParseSession(sid).value;
       k !in v.rows && ForkLoses(v, k, parent, calls, o))
    case Renamed(from, to) =>
      ParseSession(from).Some? && ParseSession(to) == Some(o) &&
      (var f := ParseSession(from).value;
       f.at == o.at &&
       if f !in v.rows then o !in v.rows && !CreatedSafe(v, o, to)
       else if f == o then calls == (if BranchExists(v, o) then SELF_RENAME else SELF_RENAME + 1)
       else o !in v.rows && !TailSafe(v, o, f.branch))
    case Deleted(sid) => ParseSession(sid) == Some(o) && o in v.rows
    case Unknown(_) => false
  }

  /** The parent's row, unless the fork is one of a session from itself that has got past
      the creation and makes up for it by its own name; and the child's. */
  predicate ForkLoses(v: World, k: Key, parent: string, calls: nat, o: Key) {
    match ParseSession(parent)
    case None => o == k && !TailSafe(v, k, "main")
    case Some(p) =>
      && p.at == k.at
      && ((o == p && p !in v.rows && !CreatedSafe(v, p, parent)
           && (k != p || calls <= CREATION || !Resolves(v, k.at, k.branch)))
          || (o == k && k != p && !ForkFinds(v, k, p)))
  }

  /** Only a rename onto a row in its way gives that row its branch back. */
  predicate Heals(v: World, ev: LifecycleEvent, o: Key) {
    ev.Renamed? && ParseSession(ev.from).Some? && ParseSession(ev.to) == Some(o) &&
    (var f := ParseSession(ev.from).value;
     f.at == o.at && f in v.rows && o in v.rows && Listed(v, o.at) && Resolves(v, o.at, f.branch))
  }

  lemma ForkedDangles(v: World, k: Key, sid: string, parent: string, x: World, calls: nat)
    requires NamedRows(v) && ParseSession(sid) == Some(k) && x in ForkedStages(v, k, sid, parent)
    requires sid != parent || CreatedSafe(v, k, sid)
    ensures forall o :: Dangles(x, o) <==>
      o in x.rows && (Dangles(v, o) || (k !in v.rows && ForkLoses(v, k, parent, calls, o)))
  {
    hide Resolve, ForkStages, CreatedStages, TailSafe, CreatedSafe, BranchExists, CreatedEnd, WithRepo, Listed,
      ForkFinds;
    KeysCoincide(v, sid, k);
    if !Mapped(v, sid) {
      match ParseSession(parent)
      case None => TailDangles(v, k, sid, "main", x);
      case Some(p) =>
        if p.at == k.at {
          NamingOfParsed(sid);
          NamingOfParsed(parent);
          if p !in v.rows && x in CreatedStages(v, p, parent) {
            CreatedDangles(v, p, parent, x);
          } else if !ParentFails(v, p, parent) {
            var ready := ParentReady(v, p, parent);
            ParentDangles(v, p, parent);
            ForkStartsIn(ready, k, sid, p.branch);
            assert k in ready.rows ==> !Dangles(ready, k);
            ExistingIsSafe(ready, k, p.branch);
            if k != p { ForkFindsExactly(v, k, p, parent); }
            TailDangles(ready, k, sid, p.branch, x);
          }
        }
    }
  }

  lemma ExistingIsSafe(w: World, k: Key, src: string)
    ensures BranchExists(w, k) ==> TailSafe(w, k, src)
  {
  }

  /** The world the fork's own branch and row are made in. */
  lemma ParentDangles(v: World, p: Key, parent: string)
    requires NamedRows(v) && ParseSession(parent) == Some(p) && !ParentFails(v, p, parent)
    ensures var ready := ParentReady(v, p, parent);
      && p in ready.rows && (ready.rows == v.rows || ready.rows == v.rows[p := parent])
      && (forall o :: Dangles(ready, o) <==>
            o in ready.rows && (Dangles(v, o) || (o == p && p !in v.rows && !CreatedSafe(v, p, parent))))
  {
    hide Resolve, CreatedStages, CreatedSafe, BranchExists, CreatedEnd;
    KeysCoincide(v, parent, p);
    ParentIsSettled(v, p, parent);
    if p !in v.rows {
      CreatedEndIsAStage(v, p, parent);
      CreatedDangles(v, p, parent, CreatedEnd(v, p, parent));
      CreatedStartsIn(v, p, parent);
      ParentStage(v, p, parent, v);
    }
  }

  /** A rename to a free name: the moved row can dangle, and nothing else. */
  lemma FreeRenameDangles(v: World, from: Key, to: Key, fromSid: string, toSid: string, x: World)
    requires NamedRows(v) && toSid == NamingSession(to) && from in v.rows && to !in v.rows && from.at == to.at
    requires ColonFree(to) && x in RenameStages(v, from, to, fromSid, toSid)
    ensures forall o :: Dangles(x, o) <==>
      o in x.rows && (Dangles(v, o) || (o == to && !TailSafe(v, to, from.branch)))
  {
    hide Resolve, Branched, Moved, RenameConflicts, Unbranched;
    if Listed(v, to.at) {
      var b := Branched(v, to, from.branch);
      BranchesAfter(v, to, from.branch);
      FreeNameNoConflict(v, from, to, toSid);
      ConflictsByRows(v, b, from, to, toSid);
      MovedRow(b, from, to, toSid);
      UnbranchedBranches(Apply(Moved(b, from, to, toSid), Evict(fromSid)), from);
    }
  }

  lemma FreeNameNoConflict(v: World, from: Key, to: Key, sid: string)
    requires NamedRows(v) && sid == NamingSession(to) && ColonFree(to)
    ensures from != to ==> (RenameConflicts(v, from, to, sid) <==> to in v.rows)
  {
    ParseOfNamed(to);
    KeysCoincide(v, sid, to);
  }

  /** A rename onto a row in its way stops at the conflict. */
  lemma BlockedRename(v: World, from: Key, to: Key, fromSid: string, toSid: string)
    requires from in v.rows && to in v.rows && from.at == to.at && from != to
    ensures var worlds := RenameRowT(EnsureBranchT(Start(v), from.branch, to), from, to, fromSid, toSid).worlds;
      if Listed(v, to.at) then forall i :: 1 <= i < |worlds| ==> worlds[i] == Branched(v, to, from.branch)
      else worlds == [v]
  {
    hide Resolve;
  }

  /** A rename of a session to its own name: its row stays, the branch is tried and goes
      with the last call. */
  lemma SelfRenameWorlds(v: World, k: Key, sid: string)
    requires NamedRows(v) && sid == NamingSession(k) && ColonFree(k) && k in v.rows && Listed(v, k.at)
    ensures var b := Branched(v, k, k.branch);
      var m := Moved(b, k, k, sid);
      var e := Apply(m, Evict(sid));
      && RenameRowT(EnsureBranchT(Start(v), k.branch, k), k, k, sid, sid).worlds
           == (if BranchExists(v, k) then [v] else [v, b]) + [m, e]
              + (if BranchExists(e, k) then [Unbranched(e, k)] else [])
      && m.rows == v.rows && m.repos == b.repos
  {
    hide Resolve, NamingSession, ColonFree;
    ParseOfNamed(k);
    KeysCoincide(v, sid, k);
    var b := Branched(v, k, k.branch);
    BranchedOnce(v, k, k.branch);
    MovedRow(b, k, k, sid);
    assert (v.rows - {k})[k := sid] == v.rows;
    assert EnsureBranchT(Start(v), k.branch, k).worlds == if BranchExists(v, k) then [v] else [v, b];
  }

  lemma SelfRenameDangles(v: World, k: Key, sid: string, i: nat)
    requires NamedRows(v) && ParseSession(sid) == Some(k) && k in v.rows
    requires i < |RenamedT(Start(v), sid, sid).worlds|
    ensures var x := RenamedT(Start(v), sid, sid).worlds[i];
      var ev := Renamed(sid, sid);
      forall o :: Dangles(x, o) <==>
        o in x.rows && ((Dangles(v, o) && !(i > 0 && Heals(v, ev, o))) || (i > 0 && Loses(v, ev, i, o)))
  {
    hide Resolve, RenameRowT, EnsureBranchT, BranchExists, Branched, Moved, Unbranched;
    NamingOfParsed(sid);
    if Listed(v, k.at) {
      SelfRenameWorlds(v, k, sid);
      BranchesAfter(v, k, k.branch);
      var b := Branched(v, k, k.branch);
      var m := Moved(b, k, k, sid);
      SameReposSameBranches(b, m);
      SameReposSameBranches(b, Apply(m, Evict(sid)));
      UnbranchedBranches(Apply(m, Evict(sid)), k);
    } else {
      BlockedSelfRename(v, k, sid);
    }
  }

  lemma BlockedSelfRename(v: World, k: Key, sid: string)
    requires !Listed(v, k.at)
    ensures RenameRowT(EnsureBranchT(Start(v), k.branch, k), k, k, sid, sid).worlds == [v]
  {
  }

  lemma RenamedDangles(v: World, fromSid: string, toSid: string, i: nat)
    requires NamedRows(v) && i < |RenamedT(Start(v), fromSid, toSid).worlds|
    ensures var x := RenamedT(Start(v), fromSid, toSid).worlds[i];
      var ev := Renamed(fromSid, toSid);
      forall o :: Dangles(x, o) <==>
        o in x.rows && ((Dangles(v, o) && !(i > 0 && Heals(v, ev, o))) || (i > 0 && Loses(v, ev, i, o)))
  {
    hide Resolve, TailSafe, CreatedSafe, CreatedT, RenameRowT, EnsureBranchT, RenameStages, CreatedStages,
      BranchExists, Branched;
    var x := RenamedT(Start(v), fromSid, toSid).worlds[i];
    NamingOfParsed(fromSid);
    NamingOfParsed(toSid);
    var f, t := ParseSession(fromSid), ParseSession(toSid);
    if f.Some? && t.Some? && f.value.at == t.value.at {
      var from, to := f.value, t.value;
      if from !in v.rows {
        CreatedPasses(Start(v), to, toSid);
        CreatedStartsIn(v, to, toSid);
        CreatedDangles(v, to, toSid, x);
      } else if from == to {
        SelfRenameDangles(v, to, toSid, i);
      } else if to !in v.rows {
        RenamePasses(v, from, to, fromSid, toSid);
        FreeRenameDangles(v, from, to, fromSid, toSid, x);
      } else {
        BlockedRename(v, from, to, fromSid, toSid);
        if Listed(v, to.at) {
          BranchesAfter(v, to, from.branch);
        }
      }
    }
  }

  lemma DeletedDangles(v: World, sid: string, i: nat)
    requires NamedRows(v) && i < |DeletedT(Start(v), sid).worlds|
    ensures var x := DeletedT(Start(v), sid).worlds[i];
      forall o :: Dangles(x, o) <==> o in x.rows && (Dangles(v, o) || (i > 0 && Loses(v, Deleted(sid), i, o)))
  {
    hide DeletedT, Unbranched, BranchExists;
    if ParseSession(sid).Some? {
      var k := ParseSession(sid).value;
      KeysCoincide(v, sid, k);
      UnbranchedBranches(v, k);
      if Mapped(v, sid) {
        var u := Unbranched(v, k);
        SameReposSameBranches(u, Apply(u, DeleteRow(k)));
        SameReposSameBranches(u, Apply(Apply(u, DeleteRow(k)), Evict(sid)));
        DeletionWorlds(v, sid, k);
      } else {
        NothingToDelete(v, k, sid);
      }
    } else {
      UnnamedDeletion(v, sid);
    }
  }

  /** A fork of a session from itself that has to make do without an anchor. */
  lemma SelfForkWorlds(v: World, k: Key, sid: string)
    requires ParseSession(sid) == Some(k) && k !in v.rows && !CreatedSafe(v, k, sid)
    ensures var t1, y := CreatedT(Start(v), k, sid), CreatedEnd(v, k, sid);
      && |t1.worlds| == CREATION + 1
      && ForkedT(Start(v), k, sid, sid).worlds == t1.worlds + [Branched(y, k, k.branch), Branched(y, k, k.branch)]
  {
    hide Resolve, Resolves, Anchor;
    CreatedPasses(Start(v), k, sid);
    UnsafeCreation(v, k, sid);
    var t1, y := CreatedT(Start(v), k, sid), CreatedEnd(v, k, sid);
    BoundTail(t1, k, sid, k.branch);
  }

  lemma UnsafeCreation(v: World, k: Key, sid: string)
    requires k !in v.rows && !CreatedSafe(v, k, sid)
    ensures |CreatedT(Start(v), k, sid).worlds| == CREATION + 1
    ensures var y := CreatedEnd(v, k, sid);
      && y.rows == v.rows[k := sid] && y.repos == WithRepo(v, k.at).repos && Listed(y, k.at) && !BranchExists(y, k)
  {
    hide CreatedT, CreatedEnd, WithRepo, CreatedSafe, BranchExists, Listed, Resolves, Anchor, Branched;
    var w1 := WithRepo(v, k.at);
    UnsafeMeans(v, k, sid);
    RepoIsThere(v, k.at);
    NewRepoResolvesNothing(v, k.at, Anchor(v, k.at));
    CreationRows(v, k, sid);
    NothingBranched(w1, k, Anchor(w1, k.at));
    SameReposSameBranches(CreatedEnd(v, k, sid), w1);
    FourCalls(v, k, sid);
  }

  lemma UnsafeMeans(v: World, k: Key, sid: string)
    requires !CreatedSafe(v, k, sid)
    ensures !Mapped(v, sid) && Named(k.at) && !BranchExists(v, k) && !Resolves(v, k.at, Anchor(v, k.at))
  {
  }

  lemma NothingBranched(w: World, k: Key, src: string)
    requires !Resolves(w, k.at, src)
    ensures Branched(w, k, src) == w
  {
  }

  lemma FourCalls(v: World, k: Key, sid: string)
    requires !Mapped(v, sid) && k !in v.rows && Named(k.at) && !BranchExists(WithRepo(v, k.at), k)
    ensures |CreatedT(Start(v), k, sid).worlds| == CREATION + 1
  {
    hide Resolve, Anchor;
    BranchedOnce(WithRepo(v, k.at), k, Anchor(WithRepo(v, k.at), k.at));
  }

  lemma BoundTail(t: Trace, k: Key, sid: string, src: string)
    requires t.worlds != [] && t.reply.Done? && k in Final(t).rows && Listed(Final(t), k.at) && !BranchExists(Final(t), k)
    ensures var b := Branched(Final(t), k, src); ForkFromT(t, k, sid, src).worlds == t.worlds + [b, b]
  {
    hide Resolve;
  }

  lemma SelfForkDangles(v: World, k: Key, sid: string, i: nat)
    requires NamedRows(v) && ParseSession(sid) == Some(k) && !CreatedSafe(v, k, sid)
    requires i < |ForkedT(Start(v), k, sid, sid).worlds|
    ensures var x := ForkedT(Start(v), k, sid, sid).worlds[i];
      forall o :: Dangles(x, o) <==>
        o in x.rows && (Dangles(v, o) || (i > 0 && k !in v.rows && ForkLoses(v, k, sid, i, o)))
  {
    hide Resolve, Resolves, CreatedT, ForkedT, CreatedStages, CreatedSafe, BranchExists, CreatedEnd, Branched;
    UnsafeIsUnmapped(v, k, sid);
    KeysCoincide(v, sid, k);
    SelfForkWorlds(v, k, sid);
    CreatedPasses(Start(v), k, sid);
    CreatedStartsIn(v, k, sid);
    var t1, y := CreatedT(Start(v), k, sid), CreatedEnd(v, k, sid);
    if i <= CREATION {
      CreatedDangles(v, k, sid, t1.worlds[i]);
    } else {
      UnsafeCreation(v, k, sid);
      CreatedEndIsAStage(v, k, sid);
      CreatedDangles(v, k, sid, y);
      BranchesAfter(y, k, k.branch);
      NameResolvesAsBefore(v, y, k);
    }
  }

  lemma UnsafeIsUnmapped(v: World, k: Key, sid: string)
    requires !CreatedSafe(v, k, sid)
    ensures !Mapped(v, sid)
  {
  }

  lemma NameResolvesAsBefore(v: World, y: World, k: Key)
    requires y.repos == WithRepo(v, k.at).repos
    ensures Resolves(y, k.at, k.branch) == Resolves(v, k.at, k.branch)
  {
    EmptyResolvesNothing(k.branch);
  }

  /** What one delivery does, at every single call: a row dangles afterwards exactly if
      it is still there and it did before and was not healed, or the delivery lost it. */
  lemma DeliveryDangles(v: World, ev: LifecycleEvent, i: nat)
    requires NamedRows(v) && i < |Deliver(v, ev).worlds|
    ensures var x := Deliver(v, ev).worlds[i];
      forall o :: Dangles(x, o) <==>
        o in x.rows && ((Dangles(v, o) && !(i > 0 && Heals(v, ev, o))) || (i > 0 && Loses(v, ev, i, o)))
  {
    hide CreatedT, ForkedT, RenamedT, DeletedT, CreatedStages, ForkedStages, CreatedSafe, ForkLoses, BranchExists;
    var x := Deliver(v, ev).worlds[i];
    match ev
    case Created(sid) =>
      if ParseSession(sid).Some? {
        CreatedPasses(Start(v), ParseSession(sid).value, sid);
        CreatedStartsIn(v, ParseSession(sid).value, sid);
        CreatedDangles(v, ParseSession(sid).value, sid, x);
      }
    case Forked(sid, parent) =>
      if ParseSession(sid).Some? {
        var k := ParseSession(sid).value;
        if sid == parent && !CreatedSafe(v, k, sid) {
          SelfForkDangles(v, k, sid, i);
        } else {
          ForkedPasses(v, k, sid, parent);
          ForkedDangles(v, k, sid, parent, x, i);
        }
      }
    case Renamed(from, to) => RenamedDangles(v, from, to, i);
    case Deleted(sid) => DeletedDangles(v, sid, i);
    case Unknown(_) =>
  }

  // ----- runs -----

  /** The calls a delivery gets to make. */
  function CallsMade(v: World, d: Delivery): nat {
    if d.calls < |Deliver(v, d.ev).worlds| then d.calls else |Deliver(v, d.ev).worlds| - 1
  }

  lemma AfterDeliveryDangles(v: World, d: Delivery)
    requires Ordered(v)
    ensures var x := AfterDelivery(v, d);
      forall o :: Dangles(x, o) <==>
        o in x.rows && ((Dangles(v, o) && !(CallsMade(v, d) > 0 && Heals(v, d.ev, o)))
                        || (CallsMade(v, d) > 0 && Loses(v, d.ev, CallsMade(v, d), o)))
    ensures Ordered(AfterDelivery(v, d))
  {
    hide Deliver, Heals, Loses, Ordered;
    var t, at := Deliver(v, d.ev), CallsMade(v, d);
    OrderedRows(v);
    DeliveryDangles(v, d.ev, at);
    DeliveryKeepsOrder(v, d);
    CrashSeesBranches(t.worlds[at]);
  }

  lemma OrderedRows(w: World)
    requires Ordered(w)
    ensures NamedRows(w)
  {
  }

  lemma CrashSeesBranches(w: World)
    ensures forall o :: Dangles(Crash(w), o) <==> Dangles(w, o)
    ensures Crash(w).rows == w.rows
  {
  }

  /** The world the first `i` deliveries of a run lead to. */
  function At(w: World, run: seq<Delivery>, i: nat): World
    requires i <= |run|
  {
    AfterDeliveries(w, run[..i])
  }

  predicate LosesAt(w: World, run: seq<Delivery>, i: nat, o: Key)
    requires i < |run|
  {
    var calls := CallsMade(At(w, run, i), run[i]);
    calls > 0 && Loses(At(w, run, i), run[i].ev, calls, o)
  }

  predicate HealsAt(w: World, run: seq<Delivery>, i: nat, o: Key)
    requires i < |run|
  {
    CallsMade(At(w, run, i), run[i]) > 0 && Heals(At(w, run, i), run[i].ev, o)
  }

  /** `o` dangled at the start (`j == 0`) or was lost by delivery `j - 1`, and from then on
      its row has stayed and nothing has healed it. */
  ghost predicate LostSince(w: World, run: seq<Delivery>, o: Key, j: nat) {
    && j <= |run|
    && (if j == 0 then Dangles(w, o) else LosesAt(w, run, j - 1, o))
    && (forall i :: j <= i <= |run| ==> o in At(w, run, i).rows)
    && (forall i :: j <= i < |run| ==> !HealsAt(w, run, i, o))
  }

  /** The rows that dangle after a run, exactly: those lost once and neither dropped nor
      healed since. */
  lemma {:induction false} RunDangles(w: World, run: seq<Delivery>, o: Key)
    requires Ordered(w)
    ensures Dangles(AfterDeliveries(w, run), o) <==> exists j :: LostSince(w, run, o, j)
    ensures Ordered(AfterDeliveries(w, run))
  {
    hide Loses, Heals, Ordered, CallsMade, AfterDelivery, LostSince, BranchExists;
    if run == [] {
      LostInEmptyRun(w, o);
    } else {
      var n := |run| - 1;
      RunDangles(w, run[..n], o);
      AfterDeliveryDangles(At(w, run, n), run[n]);
      assert At(w, run, n + 1) == AfterDeliveries(w, run) by {
        assert run[..n + 1] == run;
      }
      if j :| LostSince(w, run[..n], o, j) {
        LostSinceStep(w, run, o, j);
      }
      if j :| LostSince(w, run, o, j) {
        LostSinceStep(w, run, o, j);
      }
      LostSinceStep(w, run, o, n + 1);
    }
  }

  lemma LostInEmptyRun(w: World, o: Key)
    ensures Dangles(w, o) <==> exists j :: LostSince(w, [], o, j)
  {
    assert At(w, [], 0) == w;
    assert Dangles(w, o) ==> LostSince(w, [], o, 0);
  }

  lemma LostSinceStep(w: World, run: seq<Delivery>, o: Key, j: nat)
    requires run != []
    ensures var n := |run| - 1;
      LostSince(w, run, o, j) <==>
        o in At(w, run, n + 1).rows &&
        ((LostSince(w, run[..n], o, j) && !HealsAt(w, run, n, o)) || (j == n + 1 && LosesAt(w, run, n, o)))
  {
    hide Loses, Heals, CallsMade, AfterDeliveries, LosesAt, HealsAt, At;
    var n := |run| - 1;
    var init := run[..n];
    forall i: nat | i <= n
      ensures At(w, init, i) == At(w, run, i)
      ensures i < n ==> HealsAt(w, init, i, o) == HealsAt(w, run, i, o) && LosesAt(w, init, i, o) == LosesAt(w, run, i, o)
    {
      SamePrefix(w, run, n, i, o);
    }
  }

  lemma SamePrefix(w: World, run: seq<Delivery>, n: nat, i: nat, o: Key)
    requires i <= n <= |run|
    ensures At(w, run[..n], i) == At(w, run, i)
    ensures i < n ==>
      HealsAt(w, run[..n], i, o) == HealsAt(w, run, i, o) && LosesAt(w, run[..n], i, o) == LosesAt(w, run, i, o)
  {
    hide Loses, Heals, CallsMade, AfterDeliveries;
    assert run[..n][..i] == run[..i];
  }
}
