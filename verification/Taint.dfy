/** Dangling rows in repositories that have a revision: from the events alone, which rows
    a run can leave dangling, that there are none when no deletion is cut in half, how a
    half deletion spreads to forks and renames, and that a drift pass repairs it all. */
module Taint {
  import opened Wrappers
  import opened Naming
  import opened Mapping
  import opened Keys
  import opened Stages
  import opened Safety
  import opened Reconcile
  import opened Dangling

  // ----- repositories that have a revision keep one -----

  ghost predicate Revised(w: World, at: set<RepoKey>) {
    forall r :: r in at ==> HasRevision(w, r)
  }

  lemma BranchingKeeps(w: World, k: Key, src: string, at: RepoKey)
    requires HasRevision(w, at) && src != "@-"
    ensures HasRevision(Branched(w, k, src), at)
  {
    hide Resolve;
    if k.at == at {
      ResolvedIsReadable(w.repos[at], src);
      BranchingKeepsRevisions(w, k, src);
    }
  }

  lemma TailKeeps(w: World, k: Key, sid: string, src: string, x: World, at: RepoKey)
    requires HasRevision(w, at) && src != "@-" && x in ForkStages(w, k, sid, src)
    ensures HasRevision(x, at)
  {
    hide Branched, HasRevision;
    BranchingKeeps(w, k, src, at);
    SameReposSameRevisions(Branched(w, k, src), Inserted(Branched(w, k, src), k, sid), at);
    SameReposSameRevisions(Branched(w, k, src), Bound(Branched(w, k, src), k, sid), at);
  }

  lemma SameReposSameRevisions(a: World, b: World, at: RepoKey)
    requires a.repos == b.repos
    ensures HasRevision(a, at) == HasRevision(b, at)
  {
  }

  lemma CreatedKeeps(w: World, k: Key, sid: string, x: World, at: RepoKey)
    requires HasRevision(w, at) && x in CreatedStages(w, k, sid)
    ensures HasRevision(x, at)
  {
    hide ForkStages, Anchor, SoundRepo;
    var w1 := WithRepo(w, k.at);
    assert HasRevision(w1, at);
    if !Mapped(w, sid) && x != w {
      AnchorIsOrdinary(w1, k.at);
      TailKeeps(w1, k, sid, Anchor(w1, k.at), x, at);
    }
  }

  lemma ForkedKeeps(w: World, k: Key, sid: string, parent: string, x: World, at: RepoKey)
    requires HasRevision(w, at) && x in ForkedStages(w, k, sid, parent)
    requires ParseSession(parent).Some? ==> ParseSession(parent).value.branch != "@-"
    ensures HasRevision(x, at)
  {
    hide ForkStages, CreatedStages, CreatedEnd, HasRevision, WithRepo, Listed;
    if !Mapped(w, sid) {
      match ParseSession(parent)
      case None => TailKeeps(w, k, sid, "main", x, at);
      case Some(p) =>
        if p.at == k.at {
          var ready := ParentReady(w, p, parent);
          CreatedEndIsAStage(w, p, parent);
          CreatedKeeps(w, p, parent, CreatedEnd(w, p, parent), at);
          if x in CreatedStages(w, p, parent) {
            CreatedKeeps(w, p, parent, x, at);
          } else if x in ForkStages(ready, k, sid, p.branch) {
            TailKeeps(ready, k, sid, p.branch, x, at);
          }
        }
    }
  }

  lemma RenamedKeeps(w: World, from: Key, to: Key, fromSid: string, toSid: string, x: World, at: RepoKey)
    requires HasRevision(w, at) && from.branch != "@-" && x in RenameStages(w, from, to, fromSid, toSid)
    ensures HasRevision(x, at)
  {
    hide Branched, HasRevision, RenameConflicts, Unbranched;
    if Listed(w, to.at) {
      var b := Branched(w, to, from.branch);
      BranchingKeeps(w, to, from.branch, at);
      var m := Moved(b, from, to, toSid);
      SameReposSameRevisions(b, m, at);
      SameReposSameRevisions(m, Apply(m, Evict(fromSid)), at);
      UnbranchingKeeps(Apply(m, Evict(fromSid)), from, at);
    }
  }

  lemma UnbranchingKeeps(w: World, k: Key, at: RepoKey)
    requires HasRevision(w, at)
    ensures HasRevision(Unbranched(w, k), at)
  {
  }

  lemma DeletedKeeps(w: World, k: Key, sid: string, x: World, at: RepoKey)
    requires HasRevision(w, at) && x in DeleteStages(w, k, sid)
    ensures HasRevision(x, at)
  {
    hide HasRevision, Unbranched;
    var u := Unbranched(w, k);
    UnbranchingKeeps(w, k, at);
    SameReposSameRevisions(u, Apply(u, DeleteRow(k)), at);
    SameReposSameRevisions(u, DeleteEnd(w, k, sid), at);
  }

  /** An event of workspace sessions of these repositories: a fork has a workspace parent,
      a rename changes the name, and no branch it starts from is called "@-". */
  predicate On(at: set<RepoKey>, ev: LifecycleEvent) {
    match ev
    case Created(sid) => ParseSession(sid).Some? ==> ParseSession(sid).value.at in at
    case Forked(sid, parent) =>
      ParseSession(sid).Some? ==>
        && ParseSession(sid).value.at in at
        && ParseSession(parent).Some? && ParseSession(parent).value.branch != "@-"
    case Renamed(from, to) =>
      && from != to
      && (ParseSession(from).Some? && ParseSession(to).Some? ==>
            ParseSession(to).value.at in at && ParseSession(from).value.branch != "@-")
    case Deleted(_) => true
    case Unknown(_) => true
  }

  /** No call of such an event takes away what makes anchors resolve. */
  lemma DeliveryKeepsRevisions(v: World, at: set<RepoKey>, ev: LifecycleEvent, x: World)
    requires Revised(v, at) && On(at, ev) && x in Deliver(v, ev).worlds
    ensures Revised(x, at)
  {
    hide CreatedT, ForkedT, RenameRowT, DeletedT, EnsureBranchT, HasRevision, CreatedStages, ForkedStages, RenameStages,
      DeleteStages;
    forall r | r in at
      ensures HasRevision(x, r)
    {
      match ev
      case Created(sid) =>
        if ParseSession(sid).Some? {
          CreatedPasses(Start(v), ParseSession(sid).value, sid);
          CreatedStartsIn(v, ParseSession(sid).value, sid);
          CreatedKeeps(v, ParseSession(sid).value, sid, x, r);
        }
      case Forked(sid, parent) =>
        if ParseSession(sid).Some? {
          ForkedPasses(v, ParseSession(sid).value, sid, parent);
          ForkedKeeps(v, ParseSession(sid).value, sid, parent, x, r);
        }
      case Renamed(from, to) =>
        var f, t := ParseSession(from), ParseSession(to);
        if f.Some? && t.Some? && f.value.at == t.value.at {
          if f.value in v.rows {
            RenamePasses(v, f.value, t.value, from, to);
            RenamedKeeps(v, f.value, t.value, from, to, x, r);
          } else {
            CreatedPasses(Start(v), t.value, to);
            CreatedStartsIn(v, t.value, to);
            CreatedKeeps(v, t.value, to, x, r);
          }
        }
      case Deleted(sid) =>
        if ParseSession(sid).Some? {
          DeletePasses(v, ParseSession(sid).value, sid);
          DeletedKeeps(v, ParseSession(sid).value, sid, x, r);
        } else {
          UnnamedDeletion(v, sid);
        }
      case Unknown(_) =>
    }
  }

  // ----- which rows can dangle, from the events alone -----

  /** Deliveries that make the first call of a deletion and not the second. */
  predicate CutInHalf(d: Delivery) {
    d.ev.Deleted? && ParseSession(d.ev.sid).Some? && d.calls == 1
  }

  /** The keys a run can leave dangling, if only those of `start` dangle at first: a
      deletion cut in half adds its own, forks and renames carry a parent's to the new
      name, and only a deletion that goes further takes one away. */
  function Tainted(start: set<Key>, run: seq<Delivery>): set<Key> {
    if run == [] then start
    else
      var before, d := Tainted(start, run[..|run| - 1]), run[|run| - 1];
      match d.ev
      case Deleted(sid) =>
        if ParseSession(sid).None? || d.calls == 0 then before
        else if d.calls == 1 then before + {ParseSession(sid).value}
        else before - {ParseSession(sid).value}
      case Forked(sid, parent) => if Spreads(before, parent, sid) then before + {ParseSession(sid).value} else before
      case Renamed(from, to) => if Spreads(before, from, to) then before + {ParseSession(to).value} else before
      case _ => before
  }

  predicate Spreads(before: set<Key>, source: string, sid: string) {
    && ParseSession(source).Some? && ParseSession(sid).Some?
    && ParseSession(source).value in before
    && ParseSession(source).value.at == ParseSession(sid).value.at
  }

  ghost predicate DanglesOnlyIn(w: World, keys: set<Key>) {
    forall o :: Dangles(w, o) ==> o in keys
  }

  /** Over any run on repositories with a revision, whatever its cuts, only tainted rows
      dangle. */
  lemma {:induction false} OnlyTaintedRowsDangle(w: World, at: set<RepoKey>, start: set<Key>, run: seq<Delivery>)
    requires Ordered(w) && Revised(w, at) && DanglesOnlyIn(w, start)
    requires forall d :: d in run ==> On(at, d.ev)
    ensures var after := AfterDeliveries(w, run);
      Ordered(after) && Revised(after, at) && DanglesOnlyIn(after, Tainted(start, run))
  {
    hide Ordered, Revised, DanglesOnlyIn, AfterDelivery, On;
    if run != [] {
      var n := |run| - 1;
      OnlyTaintedRowsDangle(w, at, start, run[..n]);
      DeliveryTaints(AfterDeliveries(w, run[..n]), at, start, run);
    }
  }

  lemma DeliveryTaints(v: World, at: set<RepoKey>, start: set<Key>, run: seq<Delivery>)
    requires run != [] && Ordered(v) && Revised(v, at) && On(at, run[|run| - 1].ev)
    requires DanglesOnlyIn(v, Tainted(start, run[..|run| - 1]))
    ensures var x := AfterDelivery(v, run[|run| - 1]);
      Ordered(x) && Revised(x, at) && DanglesOnlyIn(x, Tainted(start, run))
  {
    hide Ordered, Revised, Deliver, Loses, Heals, On, BranchExists;
    var d := run[|run| - 1];
    var t := Deliver(v, d.ev);
    var x := t.worlds[CallsMade(v, d)];
    AfterDeliveryDangles(v, d);
    DeliveryKeepsRevisions(v, at, d.ev, x);
    CrashKeepsRevisions(x, at);
    forall o | CallsMade(v, d) > 0 && Loses(v, d.ev, CallsMade(v, d), o)
      ensures LossIsTraced(v, d.ev, o)
    {
      LossesAreTraced(v, at, d.ev, CallsMade(v, d), o);
    }
    if d.ev.Deleted? && ParseSession(d.ev.sid).Some? && d.calls >= 2 {
      OrderedRows(v);
      LongDeletion(v, d);
    }
  }

  lemma CrashKeepsRevisions(w: World, at: set<RepoKey>)
    requires Revised(w, at)
    ensures Revised(Crash(w), at)
  {
  }

  lemma LongDeletion(v: World, d: Delivery)
    requires NamedRows(v) && d.ev.Deleted? && d.calls >= 2 && ParseSession(d.ev.sid).Some?
    ensures ParseSession(d.ev.sid).value !in AfterDelivery(v, d).rows
  {
    hide DeletedT, Unbranched;
    var k := ParseSession(d.ev.sid).value;
    KeysCoincide(v, d.ev.sid, k);
    if Mapped(v, d.ev.sid) {
      DeletionWorlds(v, d.ev.sid, k);
    } else {
      NothingToDelete(v, k, d.ev.sid);
    }
  }

  /** Where a row that loses its branch gets that from: the deletion of its session, or a
      source that dangles itself. */
  predicate LossIsTraced(v: World, ev: LifecycleEvent, o: Key) {
    match ev
    case Deleted(sid) => ParseSession(sid) == Some(o)
    case Forked(sid, parent) => FromDangling(v, parent, sid, o)
    case Renamed(from, to) => FromDangling(v, from, to, o)
    case _ => false
  }

  predicate FromDangling(v: World, source: string, sid: string, o: Key) {
    && ParseSession(source).Some? && ParseSession(sid) == Some(o)
    && Dangles(v, ParseSession(source).value) && ParseSession(source).value.at == o.at
  }

  lemma LossesAreTraced(v: World, at: set<RepoKey>, ev: LifecycleEvent, calls: nat, o: Key)
    requires Ordered(v) && Revised(v, at) && On(at, ev) && Loses(v, ev, calls, o)
    ensures LossIsTraced(v, ev, o)
  {
    hide Resolve, HasRevision, BranchExists, CreatedEnd;
    match ev
    case Created(sid) => AnchorResolves(v, o.at);
    case Forked(sid, parent) =>
      var k, p := ParseSession(sid).value, ParseSession(parent).value;
      AnchorResolves(v, k.at);
      if k != p && !Dangles(v, p) {
        RevisedForkFinds(v, k, p);
      }
    case Renamed(from, to) =>
      NamingOfParsed(from);
      NamingOfParsed(to);
      AnchorResolves(v, o.at);
      if BranchExists(v, ParseSession(from).value) {
        SourceResolves(v, o, ParseSession(from).value);
      }
    case Deleted(_) =>
    case Unknown(_) =>
  }

  lemma SourceResolves(v: World, o: Key, source: Key)
    requires HasRevision(v, o.at) && source.at == o.at && source.branch != "@-" && BranchExists(v, source)
    ensures TailSafe(v, o, source.branch)
  {
  }

  // ----- runs without a half deletion -----

  lemma {:induction false} NothingTainted(run: seq<Delivery>)
    requires forall d :: d in run ==> !CutInHalf(d)
    ensures Tainted({}, run) == {}
  {
    if run != [] {
      NothingTainted(run[..|run| - 1]);
      assert !CutInHalf(run[|run| - 1]);
      assert forall o :: o !in Tainted({}, run);
    }
  }

  lemma BackedMeansNoneDangles(w: World)
    ensures Backed(w) <==> DanglesOnlyIn(w, {})
  {
    hide BranchExists;
    assert forall o :: o in w.rows && BranchExists(w, o) ==> !Dangles(w, o);
    assert forall o :: o in w.rows && !BranchExists(w, o) ==> Dangles(w, o);
  }

  /** Over every run of events on repositories with a revision, each cut after any of its
      calls, every row has its branch, as long as no deletion stops between its branch
      and its row. The hypotheses are about the first world and the events only. */
  lemma RunsStayBacked(w: World, at: set<RepoKey>, run: seq<Delivery>)
    requires Backed(w) && Ordered(w) && Revised(w, at)
    requires forall d :: d in run ==> On(at, d.ev) && !CutInHalf(d)
    ensures Backed(AfterDeliveries(w, run)) && Ordered(AfterDeliveries(w, run)) && Revised(AfterDeliveries(w, run), at)
  {
    hide AfterDeliveries, Backed, DanglesOnlyIn, Revised, Ordered;
    BackedMeansNoneDangles(w);
    OnlyTaintedRowsDangle(w, at, {}, run);
    NothingTainted(run);
    BackedMeansNoneDangles(AfterDeliveries(w, run));
  }

  /** Such a run is safe at every single call of every delivery. */
  lemma {:induction false} RunsAreSafe(w: World, at: set<RepoKey>, run: seq<Delivery>)
    requires Backed(w) && Ordered(w) && Revised(w, at)
    requires forall d :: d in run ==> On(at, d.ev) && !CutInHalf(d)
    ensures SafeRun(w, run)
  {
    hide EventSafe, Backed, Ordered, Revised, On, AfterDeliveries;
    if run != [] {
      var n := |run| - 1;
      var before := AfterDeliveries(w, run[..n]);
      RunsAreSafe(w, at, run[..n]);
      RunsStayBacked(w, at, run[..n]);
      OrderedRows(before);
      if run[n].ev.Deleted? {
        UnnamedDeletionIsSafe(before, run[n].ev);
      } else {
        OnIsSafe(before, at, run[n].ev);
      }
    }
  }

  lemma OnIsSafe(v: World, at: set<RepoKey>, ev: LifecycleEvent)
    requires Backed(v) && NamedRows(v) && Revised(v, at) && On(at, ev) && !ev.Deleted?
    ensures EventSafe(v, ev)
  {
    hide Backed, HasRevision, CreatedSafe, ForkedSafe;
    match ev
    case Created(sid) => if ParseSession(sid).Some? { SafeWhereThereIsARevision(v, ev); }
    case Forked(sid, _) => if ParseSession(sid).Some? { SafeWhereThereIsARevision(v, ev); }
    case Renamed(from, to) =>
      if ParseSession(from).Some? && ParseSession(to).Some? { SafeWhereThereIsARevision(v, ev); }
    case Unknown(_) =>
  }

  lemma UnnamedDeletionIsSafe(v: World, ev: LifecycleEvent)
    requires ev.Deleted?
    ensures ParseSession(ev.sid).None? ==> EventSafe(v, ev)
  {
  }

  // ----- a half deletion spreads -----

  /** More calls than any handler makes. */
  const FULL := 8

  lemma FullCompletes(w: World, ev: LifecycleEvent)
    ensures AfterDelivery(w, Delivery(ev, FULL)) == Final(Deliver(w, ev))
  {
    hide CreatedT, ForkedT, RenamedT, DeletedT;
    match ev
    case Created(sid) => if ParseSession(sid).Some? { CreatedIsShort(w, ParseSession(sid).value, sid); }
    case Forked(sid, parent) => if ParseSession(sid).Some? { ForkedIsShort(w, ParseSession(sid).value, sid, parent); }
    case Renamed(from, to) => RenamedIsShort(w, from, to);
    case Deleted(sid) => DeletedIsShort(w, sid);
    case Unknown(_) =>
  }

  lemma CreatedIsShort(w: World, k: Key, sid: string)
    ensures |CreatedT(Start(w), k, sid).worlds| <= 5
  {
    hide Apply, Anchor;
  }

  lemma ForkFromIsShort(t: Trace, k: Key, sid: string, src: string)
    requires t.worlds != []
    ensures |ForkFromT(t, k, sid, src).worlds| <= |t.worlds| + 3
  {
    hide Apply;
  }

  lemma ForkedIsShort(w: World, k: Key, sid: string, parent: string)
    ensures |ForkedT(Start(w), k, sid, parent).worlds| <= FULL
  {
    hide CreatedT, ForkFromT;
    ForkFromIsShort(Start(w), k, sid, "main");
    if ParseSession(parent).Some? {
      var p := ParseSession(parent).value;
      CreatedIsShort(w, p, parent);
      ForkFromIsShort(Start(w), k, sid, p.branch);
      ForkFromIsShort(CreatedT(Start(w), p, parent), k, sid, p.branch);
    }
  }

  lemma RenamedIsShort(w: World, from: string, to: string)
    ensures |RenamedT(Start(w), from, to).worlds| <= 5
  {
    hide Apply, CreatedT;
    if ParseSession(to).Some? { CreatedIsShort(w, ParseSession(to).value, to); }
  }

  lemma DeletedIsShort(w: World, sid: string)
    ensures |DeletedT(Start(w), sid).worlds| <= 4
  {
    hide Apply;
  }

  lemma HalfDeleted(w: World, sid: string, p: Key)
    requires Ordered(w) && p in w.rows && BranchExists(w, p) && ParseSession(sid) == Some(p)
    ensures AfterDelivery(w, Delivery(Deleted(sid), 1)) == Crash(Unbranched(w, p))
    ensures Ordered(Crash(Unbranched(w, p)))
  {
    hide DeletedT, BranchExists, Ordered;
    OrderedRows(w);
    KeysCoincide(w, sid, p);
    DeletionWorlds(w, sid, p);
    DeliveryKeepsOrder(w, Delivery(Deleted(sid), 1));
  }

  lemma TwoDeliveries(w: World, a: Delivery, b: Delivery)
    ensures AfterDeliveries(w, [a, b]) == AfterDelivery(AfterDelivery(w, a), b)
  {
    hide AfterDelivery;
    assert [a, b][..1] == [a] && [a][..0] == [];
    assert AfterDeliveries(w, [a]) == AfterDelivery(AfterDeliveries(w, []), a);
  }

  lemma ForkOfBoundParent(v: World, p: Key, parent: string, k: Key, child: string)
    requires ParseSession(parent) == Some(p) && ParseSession(child) == Some(k) && p.at == k.at
    requires p in v.rows && k !in v.rows && !Mapped(v, child) && Listed(v, p.at)
    ensures var x := AfterDelivery(v, Delivery(Forked(child, parent), FULL));
      x.rows == v.rows[k := child] && x.repos == Branched(v, k, p.branch).repos
  {
    hide ForkedT, Branched;
    FullCompletes(v, Forked(child, parent));
    ForkedPasses(v, k, child, parent);
    BranchedOnce(v, k, p.branch);
    assert !InsertConflicts(Branched(v, k, p.branch), k, child);
  }

  lemma UnbranchedStaysListed(w: World, k: Key)
    requires BranchExists(w, k)
    ensures Listed(Unbranched(w, k), k.at)
  {
  }

  /** A deletion stopped after its first call leaves its own row without a branch; a fork
      from it then leaves the child's row without one too, exactly when the parent's name
      resolves to nothing besides its lost branch. */
  lemma HalfDeletionSpreads(w: World, parent: string, p: Key, child: string, k: Key)
    requires Backed(w) && Ordered(w) && ParseSession(parent) == Some(p) && ParseSession(child) == Some(k)
    requires p in w.rows && k.at == p.at && k !in w.rows && !BranchExists(w, k)
    ensures var after := AfterDeliveries(w, [Delivery(Deleted(parent), 1), Delivery(Forked(child, parent), FULL)]);
      && Dangles(after, p) && k in after.rows
      && (Dangles(after, k) <==> !Resolves(Unbranched(w, p), p.at, p.branch))
  {
    hide Ordered, Resolve, Deliver, DeletedT, BranchExists, Unbranched, Resolves;
    OrderedRows(w);
    KeysCoincide(w, child, k);
    UnbranchedStaysListed(w, p);
    UnbranchedBranches(w, p);
    HalfDeleted(w, parent, p);
    var half := Crash(Unbranched(w, p));
    SameReposSameBranches(half, Unbranched(w, p));
    TwoDeliveries(w, Delivery(Deleted(parent), 1), Delivery(Forked(child, parent), FULL));
    ForkOfBoundParent(half, p, parent, k, child);
    BranchesAfter(half, k, p.branch);
    SameReposSameBranches(AfterDelivery(half, Delivery(Forked(child, parent), FULL)), Branched(half, k, p.branch));
  }

  /** The children of a chain of forks, each forked from the one before. */
  function ForkChain(keys: seq<Key>): seq<Delivery>
    requires |keys| > 0
    decreases |keys|
  {
    var n := |keys| - 1;
    if n == 0 then [Delivery(Deleted(NamingSession(keys[0])), 1)]
    else ForkChain(keys[..n]) + [Delivery(Forked(NamingSession(keys[n]), NamingSession(keys[n - 1])), FULL)]
  }

  /** A mapped session and fresh ones in its repository, none of whose names resolves once
      its branch is gone. */
  ghost predicate Forkable(w: World, keys: seq<Key>) {
    && |keys| > 0 && keys[0] in w.rows && BranchExists(w, keys[0])
    && (forall i :: 0 <= i < |keys| ==> ColonFree(keys[i]) && keys[i].at == keys[0].at)
    && (forall i, j :: 0 <= i < j < |keys| ==> keys[i] != keys[j])
    && (forall i :: 0 < i < |keys| ==> keys[i] !in w.rows && !BranchExists(w, keys[i]))
    && (forall i :: 0 <= i < |keys| ==> !Resolves(Unbranched(w, keys[0]), keys[0].at, keys[i].branch))
  }

  /** What the first forks of the chain have made of the world. */
  ghost predicate Chained(w: World, keys: seq<Key>, v: World) {
    && |keys| > 0 && Ordered(v) && v.repos == Unbranched(w, keys[0]).repos
    && forall k :: k in v.rows <==> k in w.rows || k in keys
  }

  lemma {:induction false} ChainGrows(w: World, keys: seq<Key>)
    requires Ordered(w) && Forkable(w, keys)
    ensures Chained(w, keys, AfterDeliveries(w, ForkChain(keys)))
    decreases |keys|
  {
    hide Forkable, AfterDelivery, Chained, Ordered;
    LinksOf(w, keys);
    var n, run := |keys| - 1, ForkChain(keys);
    if n == 0 {
      assert run[..0] == [] && AfterDeliveries(w, run) == AfterDelivery(w, run[0]);
      ChainStarts(w, keys);
    } else {
      ChainGrows(w, keys[..n]);
      assert run[..|run| - 1] == ForkChain(keys[..n]);
      ChainStep(w, keys, AfterDeliveries(w, ForkChain(keys[..n])));
    }
  }

  lemma LinksOf(w: World, keys: seq<Key>)
    requires Forkable(w, keys)
    ensures |keys| > 0 && (|keys| > 1 ==> Forkable(w, keys[..|keys| - 1]))
  {
    hide BranchExists, Resolves, Unbranched, ColonFree;
  }

  lemma ChainStarts(w: World, keys: seq<Key>)
    requires Ordered(w) && Forkable(w, keys) && |keys| == 1
    ensures Chained(w, keys, AfterDelivery(w, Delivery(Deleted(NamingSession(keys[0])), 1)))
  {
    hide AfterDelivery, Ordered, Unbranched, BranchExists, Resolves;
    ParseOfNamed(keys[0]);
    HalfDeleted(w, NamingSession(keys[0]), keys[0]);
    UnbranchedBranches(w, keys[0]);
  }

  lemma ChainStep(w: World, keys: seq<Key>, v: World)
    requires Forkable(w, keys) && |keys| > 1 && Chained(w, keys[..|keys| - 1], v)
    ensures var n := |keys| - 1;
      Chained(w, keys, AfterDelivery(v, Delivery(Forked(NamingSession(keys[n]), NamingSession(keys[n - 1])), FULL)))
  {
    hide AfterDelivery, Ordered, Unbranched, BranchExists, Resolves, ColonFree, Listed, NamingSession;
    var n := |keys| - 1;
    UnbranchedBranches(w, keys[0]);
    UnbranchedStaysListed(w, keys[0]);
    SameReposSameBranches(v, Unbranched(w, keys[0]));
    assert keys[n - 1] == keys[..n][n - 1] && keys[n] !in keys[..n];
    assert forall k :: k in keys <==> k in keys[..n] || k == keys[n];
    ForkOfDangling(v, keys[n - 1], keys[n]);
  }

  /** The bound is reached: a half deletion followed by forks, each from the last, leaves
      every row of the chain without a branch. */
  lemma TaintIsReached(w: World, keys: seq<Key>)
    requires Ordered(w) && Forkable(w, keys)
    ensures forall i :: 0 <= i < |keys| ==> Dangles(AfterDeliveries(w, ForkChain(keys)), keys[i])
  {
    hide AfterDeliveries, Ordered, Unbranched, BranchExists, Resolves, ColonFree;
    var after := AfterDeliveries(w, ForkChain(keys));
    ChainGrows(w, keys);
    UnbranchedBranches(w, keys[0]);
    SameReposSameBranches(after, Unbranched(w, keys[0]));
  }

  lemma ForkOfDangling(v: World, p: Key, k: Key)
    requires Ordered(v) && p in v.rows && k !in v.rows && p.at == k.at && ColonFree(p) && ColonFree(k)
    requires Listed(v, p.at) && !BranchExists(v, k) && !Resolves(v, p.at, p.branch)
    ensures var x := AfterDelivery(v, Delivery(Forked(NamingSession(k), NamingSession(p)), FULL));
      x.repos == v.repos && x.rows == v.rows[k := NamingSession(k)] && Ordered(x)
  {
    hide Ordered, NamingSession, ColonFree, Deliver;
    ParseOfNamed(p);
    ParseOfNamed(k);
    OrderedRows(v);
    KeysCoincide(v, NamingSession(k), k);
    ForkOfBoundParent(v, p, NamingSession(p), k, NamingSession(k));
    DeliveryKeepsOrder(v, Delivery(Forked(NamingSession(k), NamingSession(p)), FULL));
  }

  // ----- drift -----

  /** A drift pass leaves no row dangling exactly when those that do are in managed
      repositories. */
  lemma DriftRepairsExactly(w: World)
    ensures Backed(Drifted(w)) <==> forall o :: Dangles(w, o) ==> o.at in w.managed
  {
    DriftSees(w);
    forall o | Dangles(w, o) && o.at !in w.managed
      ensures !Backed(Drifted(w))
    {
      assert Kept(w, o) && o in Drifted(w).rows;
    }
  }

  lemma ManagedGrows(v: World, ev: LifecycleEvent, i: nat)
    requires i < |Deliver(v, ev).worlds|
    ensures v.managed <= Deliver(v, ev).worlds[i].managed
  {
    hide EventT;
    TraceManages(Deliver(v, ev), i);
  }

  lemma {:induction false} TraceManages(t: Trace, i: nat)
    requires IsTrace(t) && i < |t.worlds|
    ensures t.worlds[0].managed <= t.worlds[i].managed
  {
    if i > 0 {
      TraceManages(t, i - 1);
      CallManages(t.worlds[i - 1], t.ops[i - 1]);
    }
  }

  lemma CallManages(w: World, op: Op)
    ensures w.managed <= Apply(w, op).managed
  {
  }

  lemma {:induction false} RunManages(w: World, run: seq<Delivery>)
    ensures w.managed <= AfterDeliveries(w, run).managed
  {
    if run != [] {
      var n := |run| - 1;
      RunManages(w, run[..n]);
      ManagedGrows(AfterDeliveries(w, run[..n]), run[n].ev, CallsMade(AfterDeliveries(w, run[..n]), run[n]));
    }
  }

  /** Taint never leaves the repositories it started in. */
  lemma {:induction false} TaintStaysHome(start: set<Key>, run: seq<Delivery>, home: set<RepoKey>)
    requires forall o :: o in start ==> o.at in home
    requires forall d :: d in run && CutInHalf(d) ==> ParseSession(d.ev.sid).value.at in home
    ensures forall o :: o in Tainted(start, run) ==> o.at in home
  {
    if run != [] {
      var n := |run| - 1;
      TaintStaysHome(start, run[..n], home);
      assert run[n] in run;
    }
  }

  /** After any run whose half deletions are in managed repositories, however far their
      dangling rows have spread, the next drift pass leaves every row with its branch. */
  lemma DriftRepairsRuns(w: World, at: set<RepoKey>, run: seq<Delivery>)
    requires Backed(w) && Ordered(w) && Revised(w, at)
    requires forall d :: d in run ==> On(at, d.ev)
    requires forall d :: d in run && CutInHalf(d) ==> ParseSession(d.ev.sid).value.at in w.managed
    ensures Backed(Drifted(AfterDeliveries(w, run)))
  {
    hide Ordered, Revised, AfterDeliveries, On;
    OnlyTaintedDangleInManaged(w, at, run);
    DriftRepairsExactly(AfterDeliveries(w, run));
  }

  // ----- a round after a run -----

  /** Whatever a run with half deletions in managed repositories has left behind, and
      whatever sessions live by then, one round of the reconciler gives every row its
      branch, and every live session that spells a triple its row. */
  lemma RoundAfterRun(w: World, at: set<RepoKey>, run: seq<Delivery>, live: set<string>, after: World)
    requires Backed(w) && Ordered(w) && Revised(w, at)
    requires forall d :: d in run ==> On(at, d.ev)
    requires forall d :: d in run && CutInHalf(d) ==> ParseSession(d.ev.sid).value.at in w.managed
    requires PlainNames(live) && forall k :: Spelled(live, k) ==> Named(k.at) && k.at in at
    requires Round(AfterDeliveries(w, run).(sessions := live), after)
    ensures Backed(after)
    ensures forall k :: Spelled(live, k) ==> k in after.rows && after.rows[k] == NamingSession(k)
  {
    hide Ordered, AfterDeliveries, On, Round, Tainted, HasRevision;
    var v := AfterDeliveries(w, run);
    var seen := v.(sessions := live);
    OnlyTaintedDangleInManaged(w, at, run);
    SessionsDoNotBack(v, live, at);
    DriftRepairsExactly(seen);
    RoundFills(seen, after);
    RoundBacks(seen, at, after);
  }

  lemma OnlyTaintedDangleInManaged(w: World, at: set<RepoKey>, run: seq<Delivery>)
    requires Backed(w) && Ordered(w) && Revised(w, at)
    requires forall d :: d in run ==> On(at, d.ev)
    requires forall d :: d in run && CutInHalf(d) ==> ParseSession(d.ev.sid).value.at in w.managed
    ensures var v := AfterDeliveries(w, run);
      Ordered(v) && Revised(v, at) && forall o :: Dangles(v, o) ==> o.at in v.managed
  {
    hide Ordered, Revised, AfterDeliveries, On;
    BackedMeansNoneDangles(w);
    OnlyTaintedRowsDangle(w, at, {}, run);
    TaintStaysHome({}, run, w.managed);
    RunManages(w, run);
  }

  lemma SessionsDoNotBack(v: World, live: set<string>, at: set<RepoKey>)
    requires Ordered(v) && Revised(v, at) && forall o :: Dangles(v, o) ==> o.at in v.managed
    ensures var seen := v.(sessions := live);
      NamedRows(seen) && Revised(seen, at) && forall o :: Dangles(seen, o) ==> o.at in seen.managed
  {
    SameReposSameBranches(v, v.(sessions := live));
    hide BranchExists;
    assert forall o :: Dangles(v.(sessions := live), o) ==> Dangles(v, o);
  }

  lemma RoundBacks(seen: World, at: set<RepoKey>, after: World)
    requires NamedRows(seen) && Revised(seen, at) && Backed(Drifted(seen))
    requires Fills(Drifted(seen), seen.sessions, after)
    requires forall k :: Spelled(seen.sessions, k) ==> Named(k.at) && k.at in at
    ensures Backed(after)
    ensures forall k :: Spelled(seen.sessions, k) ==> k in after.rows && after.rows[k] == NamingSession(k)
  {
    hide BranchExists, CanAnchor, HasRevision, NeedsNothing, GainsRow, Touches;
    DriftSees(seen);
    forall k | k in after.rows
      ensures BranchExists(after, k)
    {
      if k !in Drifted(seen).rows {
        AnchorsWhereRevised(seen, k.at);
      }
    }
  }

  lemma AnchorsWhereRevised(w: World, at: RepoKey)
    requires HasRevision(w, at)
    ensures CanAnchor(w, at) && CanAnchor(Drifted(w), at)
  {
    AnchorResolves(w, at);
    DriftSees(w);
  }
}
