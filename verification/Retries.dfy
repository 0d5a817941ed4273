/** Any number of deliveries of one event, each cut anywhere, before one that completes;
    and whole runs of events so retried. */
module Retries {
  import opened Wrappers
  import opened Naming
  import opened Mapping
  import opened Stages
  import opened Convergence
  import opened Redelivery
  import opened Safety

  // ----- the rows depend on the rows -----

  /** The same rows, and the same repositories, whatever is in them. */
  predicate SameRows(a: World, b: World) {
    a.rows == b.rows && a.repos.Keys == b.repos.Keys
  }

  lemma TailRows(a: World, b: World, k: Key, sid: string, s1: string, s2: string)
    requires SameRows(a, b)
    ensures SameRows(ForkEnd(a, k, sid, s1), ForkEnd(b, k, sid, s2))
  {
    hide Branched;
    if Listed(a, k.at) {
      BranchedOnce(a, k, s1);
      BranchedOnce(b, k, s2);
    }
  }

  lemma CreatedRows(a: World, b: World, k: Key, sid: string)
    requires SameRows(a, b)
    ensures SameRows(CreatedEnd(a, k, sid), CreatedEnd(b, k, sid))
  {
    hide ForkEnd, Anchor;
    var a1, b1 := WithRepo(a, k.at), WithRepo(b, k.at);
    TailRows(a1, b1, k, sid, Anchor(a1, k.at), Anchor(b1, k.at));
  }

  lemma ForkedRows(a: World, b: World, k: Key, sid: string, parent: string)
    requires SameRows(a, b)
    ensures SameRows(ForkedEnd(a, k, sid, parent), ForkedEnd(b, k, sid, parent))
  {
    hide ForkEnd, CreatedEnd;
    match ParseSession(parent)
    case None => TailRows(a, b, k, sid, "main", "main");
    case Some(p) =>
      CreatedRows(a, b, p, parent);
      TailRows(ParentReady(a, p, parent), ParentReady(b, p, parent), k, sid, p.branch, p.branch);
  }

  lemma RenameRows(a: World, b: World, from: Key, to: Key, fromSid: string, toSid: string)
    requires SameRows(a, b) && from in a.rows
    ensures SameRows(RenameEnd(a, from, to, fromSid, toSid), RenameEnd(b, from, to, fromSid, toSid))
  {
    hide Branched, RenameConflicts, Unbranched;
    if Listed(a, to.at) {
      var a1, b1 := Branched(a, to, from.branch), Branched(b, to, from.branch);
      BranchedOnce(a, to, from.branch);
      BranchedOnce(b, to, from.branch);
      ConflictsByRows(a1, b1, from, to, toSid);
      UnbranchedRows(Apply(Moved(a1, from, to, toSid), Evict(fromSid)), from);
      UnbranchedRows(Apply(Moved(b1, from, to, toSid), Evict(fromSid)), from);
    }
  }

  lemma UnbranchedRows(w: World, k: Key)
    ensures SameRows(Unbranched(w, k), w)
  {
  }

  lemma DeliveredRows(a: World, b: World, ev: LifecycleEvent)
    requires SameRows(a, b)
    ensures SameRows(Final(Deliver(a, ev)), Final(Deliver(b, ev)))
  {
    hide CreatedT, ForkedT, DeletedT, RenameRowT, EnsureBranchT, CreatedEnd, ForkedEnd, RenameEnd, Unbranched;
    match ev
    case Created(sid) =>
      if ParseSession(sid).Some? {
        var k := ParseSession(sid).value;
        CreatedPasses(Start(a), k, sid);
        CreatedPasses(Start(b), k, sid);
        CreatedRows(a, b, k, sid);
      }
    case Forked(sid, parent) =>
      if ParseSession(sid).Some? {
        var k := ParseSession(sid).value;
        ForkedPasses(a, k, sid, parent);
        ForkedPasses(b, k, sid, parent);
        ForkedRows(a, b, k, sid, parent);
      }
    case Renamed(from, to) =>
      if ParseSession(from).Some? && ParseSession(to).Some? && ParseSession(from).value.at == ParseSession(to).value.at {
        var f, t := ParseSession(from).value, ParseSession(to).value;
        CreatedPasses(Start(a), t, to);
        CreatedPasses(Start(b), t, to);
        CreatedRows(a, b, t, to);
        if f in a.rows {
          RenamePasses(a, f, t, from, to);
          RenamePasses(b, f, t, from, to);
          RenameRows(a, b, f, t, from, to);
        }
      }
    case Deleted(sid) =>
      if ParseSession(sid).Some? {
        var k := ParseSession(sid).value;
        DeletePasses(a, k, sid);
        DeletePasses(b, k, sid);
        UnbranchedRows(a, k);
        UnbranchedRows(b, k);
      } else {
        UnnamedDeletion(a, sid);
        UnnamedDeletion(b, sid);
      }
    case Unknown(_) =>
  }

  /** Cut anywhere and delivered again, any event at all leaves the rows of one delivery. */
  lemma RowsConverge(w: World, ev: LifecycleEvent, i: nat)
    requires i < |Deliver(w, ev).worlds|
    ensures SameRows(Final(Deliver(w, ev)), Final(Deliver(Crash(Deliver(w, ev).worlds[i]), ev)))
  {
    hide SameUpToOrphans, ForkedT, RenamedT, ForkedEnd, SelfForkRepeats, SelfRenameRepeats;
    if ev.Forked? && ev.sid == ev.parent && ParseSession(ev.sid).Some? {
      var k := ParseSession(ev.sid).value;
      var x := Deliver(w, ev).worlds[i];
      ForkedPasses(w, k, ev.sid, ev.sid);
      SelfForkAgain(w, k, ev.sid, x);
      ForkedPasses(Crash(x), k, ev.sid, ev.sid);
    } else if ev.Renamed? && ev.from == ev.to && ParseSession(ev.from).Some? {
      SelfRenameAgain(w, ParseSession(ev.from).value, ev.from, i);
    } else {
      OtherwiseRepeatable(w, ev);
      CrashAndRedeliveryConverge(w, ev);
      SameIsSameRows(Final(Deliver(w, ev)), Final(Deliver(Crash(Deliver(w, ev).worlds[i]), ev)));
    }
  }

  lemma OtherwiseRepeatable(w: World, ev: LifecycleEvent)
    requires ev.Forked? && ev.sid == ev.parent ==> ParseSession(ev.sid).None?
    requires ev.Renamed? && ev.from == ev.to ==> ParseSession(ev.from).None?
    ensures Repeatable(w, ev)
  {
  }

  // ----- tries -----

  /** Deliveries of one event, each cut after its number of calls. */
  function Tries(ev: LifecycleEvent, cuts: seq<nat>): (run: seq<Delivery>)
    ensures |run| == |cuts|
  {
    if cuts == [] then [] else Tries(ev, cuts[..|cuts| - 1]) + [Delivery(ev, cuts[|cuts| - 1])]
  }

  /** The event tried that many times, and then once more in full. */
  function Retried(w: World, ev: LifecycleEvent, cuts: seq<nat>): World {
    Final(Deliver(AfterDeliveries(w, Tries(ev, cuts)), ev))
  }

  lemma OneMoreTry(w: World, ev: LifecycleEvent, cuts: seq<nat>)
    requires cuts != []
    ensures AfterDeliveries(w, Tries(ev, cuts))
      == AfterDelivery(AfterDeliveries(w, Tries(ev, cuts[..|cuts| - 1])), Delivery(ev, cuts[|cuts| - 1]))
  {
    hide AfterDelivery;
    assert Tries(ev, cuts)[..|cuts| - 1] == Tries(ev, cuts[..|cuts| - 1]);
  }

  /** However often an event is tried, cut anywhere or not, its rows are those of one
      clean delivery. */
  lemma {:induction false} RetriesKeepRows(w: World, ev: LifecycleEvent, cuts: seq<nat>)
    ensures SameRows(Final(Deliver(w, ev)), Retried(w, ev, cuts))
  {
    hide Deliver;
    if cuts != [] {
      var v := AfterDeliveries(w, Tries(ev, cuts[..|cuts| - 1]));
      RetriesKeepRows(w, ev, cuts[..|cuts| - 1]);
      OneMoreTry(w, ev, cuts);
      var t, cut := Deliver(v, ev), cuts[|cuts| - 1];
      var i := if cut < |t.worlds| then cut else |t.worlds| - 1;
      RowsConverge(v, ev, i);
      DeliveredRows(Crash(t.worlds[i]), t.worlds[i], ev);
    }
  }

  /** A clean run: every event delivered once. */
  function CleanRun(w: World, events: seq<LifecycleEvent>): World {
    if events == [] then w else Final(Deliver(CleanRun(w, events[..|events| - 1]), events[|events| - 1]))
  }

  /** The same events, each tried any number of times first. */
  function RetriedRun(w: World, events: seq<LifecycleEvent>, cuts: seq<seq<nat>>): World
    requires |cuts| == |events|
  {
    var n := |events|;
    if n == 0 then w else Retried(RetriedRun(w, events[..n - 1], cuts[..n - 1]), events[n - 1], cuts[n - 1])
  }

  /** A run of events, whatever they are and however often each is cut short and delivered
      again, ends with the rows of the clean run. */
  lemma {:induction false} RetriedRunsKeepRows(w: World, events: seq<LifecycleEvent>, cuts: seq<seq<nat>>)
    requires |cuts| == |events|
    ensures SameRows(CleanRun(w, events), RetriedRun(w, events, cuts))
  {
    hide Deliver, Retried;
    if events != [] {
      var n := |events| - 1;
      var clean, redone := CleanRun(w, events[..n]), RetriedRun(w, events[..n], cuts[..n]);
      RetriedRunsKeepRows(w, events[..n], cuts[..n]);
      DeliveredRows(clean, redone, events[n]);
      RetriesKeepRows(redone, events[n], cuts[n]);
    }
  }

  // ----- branches and marks too -----

  lemma SameIsTransitive(a: World, b: World, c: World)
    requires SameUpToOrphans(a, b) && SameUpToOrphans(b, c)
    ensures SameUpToOrphans(a, c)
  {
    forall at, n | at in a.repos && n in a.repos[at].branches
      ensures n in c.repos[at].branches && c.repos[at].branches[n] == a.repos[at].branches[n]
    {
      assert n in b.repos[at].branches;
    }
  }

  /** What a stage without the session's row has in its repositories. */
  lemma EarlyStageRepos(w: World, k: Key, sid: string, x: World)
    requires !Mapped(w, sid) && k !in w.rows && Named(k.at) && x in CreatedStages(w, k, sid) && !Mapped(x, sid)
    ensures x.rows == w.rows
    ensures BranchExists(x, k) ==> BranchExists(CreatedEnd(w, k, sid), k)
    ensures BranchExists(w, k) ==> BranchExists(x, k)
    ensures BranchExists(x, k) || x.repos == w.repos || x.repos == WithRepo(w, k.at).repos
  {
    hide Resolve, Anchor;
    var w1 := WithRepo(w, k.at);
    var src := Anchor(w1, k.at);
    var b := Branched(w1, k, src);
    BranchedOnce(w1, k, src);
    assert !InsertConflicts(b, k, sid);
    if x != w {
      StageIsEarly(w1, k, sid, src, x);
    }
    assert CreatedEnd(w, k, sid) == Bound(b, k, sid);
  }

  lemma AbsentRepoResolvesNothing(w: World, k: Key)
    ensures var w1 := WithRepo(w, k.at);
      && BranchExists(w1, k) == BranchExists(w, k)
      && Resolves(w1, k.at, k.branch) == Resolves(w, k.at, k.branch)
      && Resolves(w1, k.at, Anchor(w1, k.at)) == Resolves(w, k.at, Anchor(w, k.at))
  {
    hide Resolve;
    EmptyResolvesNothing(k.branch);
    EmptyResolvesNothing("");
    assert !CanResolve(EMPTY_REPO, "main");
  }

  lemma FactsByRepos(a: World, b: World, k: Key)
    requires a.repos == b.repos
    ensures BranchExists(a, k) == BranchExists(b, k)
    ensures Resolves(a, k.at, k.branch) == Resolves(b, k.at, k.branch)
    ensures Resolves(a, k.at, Anchor(a, k.at)) == Resolves(b, k.at, Anchor(b, k.at))
  {
  }

  /** What hangs on the repositories is the same in an early stage, unless it has the branch. */
  lemma EarlyStageFacts(w: World, k: Key, sid: string, x: World)
    requires !Mapped(w, sid) && k !in w.rows && Named(k.at) && x in CreatedStages(w, k, sid) && !Mapped(x, sid)
    ensures x.rows == w.rows
    ensures BranchExists(x, k) ==> BranchExists(w, k) || Resolves(w, k.at, Anchor(w, k.at))
    ensures !BranchExists(x, k) ==>
      && (Resolves(x, k.at, k.branch) <==> Resolves(w, k.at, k.branch))
      && (Resolves(x, k.at, Anchor(x, k.at)) <==> Resolves(w, k.at, Anchor(w, k.at)))
      && !BranchExists(w, k)
  {
    hide Resolves, Anchor, BranchExists, CreatedEnd, CreatedStages, WithRepo;
    EarlyStageRepos(w, k, sid, x);
    CreatedBranch(w, k, sid);
    AbsentRepoResolvesNothing(w, k);
    if x.repos == w.repos { FactsByRepos(x, w, k); }
    if x.repos == WithRepo(w, k.at).repos { FactsByRepos(x, WithRepo(w, k.at), k); }
  }

  lemma SelfForkStaysRepeatable(w: World, k: Key, sid: string, x: World)
    requires ParseSession(sid) == Some(k) && x in ForkedStages(w, k, sid, sid) && SelfForkRepeats(w, sid)
    ensures SelfForkRepeats(x, sid)
  {
    hide Resolves, Anchor, BranchExists, CreatedEnd, CreatedStages, Branched, Bound;
    if !Mapped(w, sid) && Named(k.at) {
      if k in w.rows {
        if Listed(w, k.at) {
          TailOfBoundRow(w, k, sid, k.branch);
          BranchedOnce(w, k, k.branch);
        }
      } else {
        SelfForkEnd(w, k, sid);
        CreatedBranch(w, k, sid);
        if x in CreatedStages(w, k, sid) && !Mapped(x, sid) {
          EarlyStageFacts(w, k, sid, x);
        }
      }
    }
  }

  lemma SelfRenameStaysRepeatable(w: World, k: Key, sid: string, x: World)
    requires ParseSession(sid) == Some(k) && x in RenamedT(Start(w), sid, sid).worlds && SelfRenameRepeats(w, sid)
    ensures SelfRenameRepeats(x, sid)
  {
    hide Resolves, Anchor, BranchExists, CreatedT, CreatedStages, RenameRowT, RenameStages, EnsureBranchT;
    if Named(k.at) {
      if k in w.rows {
        RenamePasses(w, k, k, sid, sid);
        BoundSelfRenameAgain(w, k, sid, x);
      } else {
        CreatedPasses(Start(w), k, sid);
        CreatedStartsIn(w, k, sid);
        if Mapped(w, sid) {
          MappedParent(w, k, sid, x);
        } else if !Mapped(x, sid) {
          EarlyStageFacts(w, k, sid, x);
        }
      }
    }
  }

  /** A repeatable event stays so on the way. */
  lemma StaysRepeatable(w: World, ev: LifecycleEvent, x: World)
    requires Repeatable(w, ev) && x in Deliver(w, ev).worlds
    ensures Repeatable(x, ev) && Repeatable(Crash(x), ev)
  {
    hide ForkedT, RenamedT, ForkedStages, SelfForkRepeats, SelfRenameRepeats;
    RepeatableWithoutCache(x, ev);
    if ev.Forked? && ev.sid == ev.parent {
      if ParseSession(ev.sid).Some? {
        ForkedPasses(w, ParseSession(ev.sid).value, ev.sid, ev.sid);
        SelfForkStaysRepeatable(w, ParseSession(ev.sid).value, ev.sid, x);
      } else {
        UnnamedForkRepeats(x, ev.sid);
      }
    } else if ev.Renamed? && ev.from == ev.to {
      if ParseSession(ev.from).Some? {
        SelfRenameStaysRepeatable(w, ParseSession(ev.from).value, ev.from, x);
      } else {
        OtherwiseRepeatable(x, ev);
      }
    }
  }

  lemma RepeatableWithoutCache(x: World, ev: LifecycleEvent)
    ensures Repeatable(Crash(x), ev) <==> Repeatable(x, ev)
  {
    hide Resolve;
  }

  lemma ForkedWithoutCache(w: World, k: Key, sid: string, parent: string)
    ensures ForkedEnd(Crash(w), k, sid, parent) == Crash(ForkedEnd(w, k, sid, parent))
  {
    hide ForkEnd, CreatedEnd, WithRepo, Listed;
    match ParseSession(parent)
    case None => ForkEndWithoutCache(w, k, sid, "main");
    case Some(p) =>
      CreatedEndWithoutCache(w, p, parent);
      ForkEndWithoutCache(ParentReady(w, p, parent), k, sid, p.branch);
      CacheIsIrrelevant(w, p, sid, "");
      ListedWithoutCache(WithRepo(w, p.at), p.at);
  }

  lemma ListedWithoutCache(w: World, at: RepoKey)
    ensures Listed(Crash(w), at) == Listed(w, at)
  {
  }

  lemma RenamedWithoutCache(w: World, from: Key, to: Key, fromSid: string, toSid: string)
    ensures SameButCache(RenameEnd(Crash(w), from, to, fromSid, toSid), RenameEnd(w, from, to, fromSid, toSid))
  {
    hide Branched, RenameConflicts, Unbranched;
    CacheIsIrrelevant(w, to, toSid, from.branch);
    TailIgnoresCache(Branched(w, to, from.branch), from, to, fromSid, toSid);
  }

  lemma DeletedWithoutCache(w: World, k: Key, sid: string)
    ensures SameButCache(DeleteEnd(Crash(w), k, sid), DeleteEnd(w, k, sid))
  {
    hide Unbranched;
    UnbranchedOnce(w, k);
  }

  /** No handler looks at the cache. */
  lemma DeliveryIgnoresCache(w: World, ev: LifecycleEvent)
    ensures SameButCache(Final(Deliver(Crash(w), ev)), Final(Deliver(w, ev)))
  {
    hide CreatedT, ForkedT, DeletedT, RenameRowT, EnsureBranchT, CreatedEnd, ForkedEnd, RenameEnd, DeleteEnd;
    match ev
    case Created(sid) =>
      if ParseSession(sid).Some? {
        CreatedPasses(Start(w), ParseSession(sid).value, sid);
        CreatedPasses(Start(Crash(w)), ParseSession(sid).value, sid);
        CreatedEndWithoutCache(w, ParseSession(sid).value, sid);
      }
    case Forked(sid, parent) =>
      if ParseSession(sid).Some? {
        ForkedPasses(w, ParseSession(sid).value, sid, parent);
        ForkedPasses(Crash(w), ParseSession(sid).value, sid, parent);
        ForkedWithoutCache(w, ParseSession(sid).value, sid, parent);
      }
    case Renamed(from, to) =>
      if ParseSession(from).Some? && ParseSession(to).Some? && ParseSession(from).value.at == ParseSession(to).value.at {
        var f, t := ParseSession(from).value, ParseSession(to).value;
        CreatedPasses(Start(w), t, to);
        CreatedPasses(Start(Crash(w)), t, to);
        CreatedEndWithoutCache(w, t, to);
        if f in w.rows {
          RenamePasses(w, f, t, from, to);
          RenamePasses(Crash(w), f, t, from, to);
          RenamedWithoutCache(w, f, t, from, to);
        }
      }
    case Deleted(sid) =>
      if ParseSession(sid).Some? {
        DeletePasses(w, ParseSession(sid).value, sid);
        DeletePasses(Crash(w), ParseSession(sid).value, sid);
        DeletedWithoutCache(w, ParseSession(sid).value, sid);
      } else {
        UnnamedDeletion(w, sid);
        UnnamedDeletion(Crash(w), sid);
      }
    case Unknown(_) =>
  }

  /** One more try, whether it is cut or completes, changes nothing in the end. */
  lemma OneTryConverges(v: World, ev: LifecycleEvent, cut: nat)
    requires Repeatable(v, ev)
    ensures var x := AfterDelivery(v, Delivery(ev, cut));
      Repeatable(x, ev) && SameUpToOrphans(Final(Deliver(v, ev)), Final(Deliver(x, ev)))
  {
    hide Deliver, SameUpToOrphans, Repeatable, SameButCache;
    var t := Deliver(v, ev);
    var i := if cut < |t.worlds| then cut else |t.worlds| - 1;
    StaysRepeatable(v, ev, t.worlds[i]);
    CrashAndRedeliveryConverge(v, ev);
    DeliveryIgnoresCache(t.worlds[i], ev);
    SameButCacheIsSame(Final(Deliver(Crash(t.worlds[i]), ev)), Final(Deliver(t.worlds[i], ev)));
    SameIsTransitive(Final(t), Final(Deliver(Crash(t.worlds[i]), ev)), Final(Deliver(t.worlds[i], ev)));
  }

  lemma {:induction false} TriesConverge(w: World, ev: LifecycleEvent, cuts: seq<nat>)
    requires Repeatable(w, ev)
    ensures SameUpToOrphans(Final(Deliver(w, ev)), Retried(w, ev, cuts))
    ensures Repeatable(AfterDeliveries(w, Tries(ev, cuts)), ev)
  {
    hide Deliver, SameUpToOrphans, Repeatable;
    if cuts == [] {
      SameWorld(Final(Deliver(w, ev)));
    } else {
      var n := |cuts| - 1;
      TriesConverge(w, ev, cuts[..n]);
      OneMoreTry(w, ev, cuts);
      OneTryConverges(AfterDeliveries(w, Tries(ev, cuts[..n])), ev, cuts[n]);
      SameIsTransitive(Final(Deliver(w, ev)), Retried(w, ev, cuts[..n]), Retried(w, ev, cuts));
    }
  }

  /** Any number of deliveries before one that completes, each cut anywhere, leave what one
      clean delivery leaves, exactly for the repeatable events. */
  lemma RetriesConverge(w: World, ev: LifecycleEvent)
    ensures (forall cuts: seq<nat> :: SameUpToOrphans(Final(Deliver(w, ev)), Retried(w, ev, cuts))) <==> Repeatable(w, ev)
  {
    hide Deliver, SameUpToOrphans, Repeatable;
    if Repeatable(w, ev) {
      forall cuts: seq<nat>
        ensures SameUpToOrphans(Final(Deliver(w, ev)), Retried(w, ev, cuts))
      {
        TriesConverge(w, ev, cuts);
      }
    } else {
      CrashAndRedeliveryConverge(w, ev);
      var i :| 0 <= i < |Deliver(w, ev).worlds| &&
        !SameUpToOrphans(Final(Deliver(w, ev)), Final(Deliver(Crash(Deliver(w, ev).worlds[i]), ev)));
      OneMoreTry(w, ev, [i]);
      assert [i][..0] == [];
      assert !SameUpToOrphans(Final(Deliver(w, ev)), Retried(w, ev, [i]));
    }
  }
}
