/** An input for every way of failing that the other modules speak of: small worlds, in
    order and with every row's branch there, and short runs. */
module Examples {
  import opened Wrappers
  import opened Naming
  import opened Mapping
  import opened Keys
  import opened Stages
  import opened Convergence
  import opened Redelivery
  import opened Retries
  import opened Effects
  import opened Safety
  import opened Dangling
  import opened Reconcile
  import opened Taint
  import JobLog
  import LineEdit
  import SandboxRegistry
  import SandboxSync

  const REPO := RepoKey("o", "r")
  const MAIN := Key(REPO, "main")
  const PARENT := Key(REPO, "p")
  const CHILD := Key(REPO, "c")

  lemma Names()
    ensures ParseSession("o:r:main") == Some(MAIN) && NamingSession(MAIN) == "o:r:main"
    ensures ParseSession("o:r:p") == Some(PARENT) && NamingSession(PARENT) == "o:r:p"
    ensures ParseSession("o:r:c") == Some(CHILD) && NamingSession(CHILD) == "o:r:c"
    ensures ColonFree(PARENT) && ColonFree(CHILD)
  {
    hide ParseSession;
    assert NamingSession(MAIN) == "o:r:main" && NamingSession(PARENT) == "o:r:p" && NamingSession(CHILD) == "o:r:c";
    ParseOfNamed(MAIN);
    ParseOfNamed(PARENT);
    ParseOfNamed(CHILD);
  }

  /** A world of one repository. */
  function WorldOf(repo: Repo, rows: map<Key, string>, managed: set<RepoKey>, sessions: set<string>): World {
    World(map[REPO := repo], rows, managed, sessions, map[])
  }

  const ONE_REVISION := [Revision("1", "h")]

  /** With at most one row, of a branch that is there, a world is in order. */
  lemma InOrder(repo: Repo, rows: map<Key, string>, managed: set<RepoKey>, sessions: set<string>, k: Key)
    requires k.at == REPO && forall o :: o in rows ==> o == k && rows[o] == NamingSession(k) && k.branch in repo.branches
    ensures Backed(WorldOf(repo, rows, managed, sessions)) && Ordered(WorldOf(repo, rows, managed, sessions))
  {
    hide NamingSession;
  }

  lemma OneRevisionIsSound(branches: map<string, string>, rows: map<Key, string>, managed: set<RepoKey>,
      sessions: set<string>)
    requires forall b :: b in branches ==> branches[b] == "h"
    ensures HasRevision(WorldOf(Repo(branches, ONE_REVISION, {"h"}, None), rows, managed, sessions), REPO)
  {
  }

  // ----- a half deletion -----

  /** One repository with one revision and two branches, and the session of the second. */
  const TWO_BRANCHES := WorldOf(Repo(map["main" := "h", "p" := "h"], ONE_REVISION, {"h"}, None),
    map[PARENT := "o:r:p"], {REPO}, {})

  const HALF_DELETION := [Delivery(Deleted("o:r:p"), 1), Delivery(Forked("o:r:c", "o:r:p"), FULL)]

  /** A fork from a half-deleted session leaves two rows dangling. */
  lemma HalfDeletionExample()
    ensures Backed(TWO_BRANCHES) && Ordered(TWO_BRANCHES) && Revised(TWO_BRANCHES, {REPO})
    ensures forall d :: d in HALF_DELETION ==> On({REPO}, d.ev)
    ensures Dangles(AfterDeliveries(TWO_BRANCHES, HALF_DELETION), PARENT)
    ensures Dangles(AfterDeliveries(TWO_BRANCHES, HALF_DELETION), CHILD)
  {
    hide Deliver, Unbranched, Resolves, Revised, NamingSession, ParseSession, Backed, Ordered;
    TwoBranchesAreInOrder();
    Names();
    HalfDeletionSpreads(TWO_BRANCHES, "o:r:p", PARENT, "o:r:c", CHILD);
    LostNameResolvesToNothing();
  }

  lemma TwoBranchesAreInOrder()
    ensures Backed(TWO_BRANCHES) && Ordered(TWO_BRANCHES) && Revised(TWO_BRANCHES, {REPO})
  {
    hide NamingSession, ParseSession, HasRevision, Backed, Ordered;
    Names();
    InOrder(TWO_BRANCHES.repos[REPO], TWO_BRANCHES.rows, {REPO}, {}, PARENT);
    OneRevisionIsSound(TWO_BRANCHES.repos[REPO].branches, TWO_BRANCHES.rows, {REPO}, {});
  }

  lemma LostNameResolvesToNothing()
    ensures !Resolves(Unbranched(TWO_BRANCHES, PARENT), REPO, "p")
  {
    OneRevisionHas("p");
  }

  lemma OneRevisionHas(ref: string)
    ensures ref != "1" ==> FindById(ONE_REVISION, ref).None?
    ensures ref != "" && ref[0] != '1' ==> FindByPrefix(ONE_REVISION, ref).None?
  {
    assert ref != "" && ref <= "1" ==> ref[0] == '1';
  }

  // ----- steps that leave a row dangling -----

  /** A revision, but no "main": a fork from an outside session has nowhere to start. */
  const NO_MAIN := WorldOf(Repo(map[], ONE_REVISION, {"h"}, None), map[], {}, {})

  lemma OutsideForkExample()
    ensures Backed(NO_MAIN) && Ordered(NO_MAIN) && HasRevision(NO_MAIN, REPO)
    ensures !EventSafe(NO_MAIN, Forked("o:r:p", "hi"))
  {
    hide NamingSession, ParseSession, HasRevision, Backed, Ordered;
    Names();
    InOrder(NO_MAIN.repos[REPO], map[], {}, {}, PARENT);
    OneRevisionIsSound(map[], map[], {}, {});
    OneRevisionHas("main");
    OutsideName();
  }

  lemma OutsideName()
    ensures ParseSession("hi").None?
  {
  }

  /** The one branch name that means something else: there is no parent to the newest
      revision, so a fork from its session has nowhere to start. */
  const RESERVED := Key(REPO, "@-")
  const RESERVED_BRANCH := WorldOf(Repo(map["@-" := "h"], ONE_REVISION, {"h"}, None),
    map[RESERVED := "o:r:@-"], {REPO}, {})

  lemma ReservedNameExample()
    ensures Backed(RESERVED_BRANCH) && Ordered(RESERVED_BRANCH) && HasRevision(RESERVED_BRANCH, REPO)
    ensures !EventSafe(RESERVED_BRANCH, Forked("o:r:c", "o:r:@-"))
  {
    hide NamingSession, ParseSession, HasRevision, Backed, Ordered;
    Names();
    ReservedName();
    InOrder(RESERVED_BRANCH.repos[REPO], RESERVED_BRANCH.rows, {REPO}, {}, RESERVED);
    OneRevisionIsSound(RESERVED_BRANCH.repos[REPO].branches, RESERVED_BRANCH.rows, {REPO}, {});
    OrderedRows(RESERVED_BRANCH);
    KeysCoincide(RESERVED_BRANCH, "o:r:c", CHILD);
  }

  lemma ReservedName()
    ensures ParseSession("o:r:@-") == Some(RESERVED) && NamingSession(RESERVED) == "o:r:@-"
  {
    hide ParseSession;
    assert NamingSession(RESERVED) == "o:r:@-";
    ParseOfNamed(RESERVED);
  }

  /** A rename of a bound session to its own name deletes its branch. */
  lemma SelfRenameExample()
    ensures !EventSafe(TWO_BRANCHES, Renamed("o:r:p", "o:r:p"))
  {
    hide NamingSession, ParseSession;
    Names();
  }

  // ----- redelivery that ends elsewhere -----

  /** A revision and "main", and no session yet. */
  const FRESH := WorldOf(Repo(map["main" := "h"], ONE_REVISION, {"h"}, None), map[], {}, {})

  lemma UnrepeatableRenameExample()
    ensures Backed(FRESH) && Ordered(FRESH) && HasRevision(FRESH, REPO)
    ensures !Repeatable(FRESH, Renamed("o:r:p", "o:r:p"))
  {
    hide NamingSession, ParseSession, HasRevision, Backed, Ordered;
    Names();
    InOrder(FRESH.repos[REPO], map[], {}, {}, PARENT);
    OneRevisionIsSound(FRESH.repos[REPO].branches, map[], {}, {});
    FreshAnchors();
  }

  lemma FreshAnchors()
    ensures Anchor(FRESH, REPO) == "main" && Resolves(FRESH, REPO, "main")
  {
    assert "main" in FRESH.repos[REPO].branches;
  }

  /** No revision, and a snapshot by the name of the branch: only by its own name does the
      branch of the fork come about. */
  const LOOSE_SNAPSHOT := WorldOf(Repo(map[], [], {"p"}, None), map[], {}, {})

  lemma UnrepeatableForkExample()
    ensures Backed(LOOSE_SNAPSHOT) && Ordered(LOOSE_SNAPSHOT)
    ensures !Repeatable(LOOSE_SNAPSHOT, Forked("o:r:p", "o:r:p"))
  {
    hide NamingSession, ParseSession, Backed, Ordered;
    Names();
    InOrder(LOOSE_SNAPSHOT.repos[REPO], map[], {}, {}, PARENT);
  }

  /** A creation stopped after its row is never marked. */
  lemma LostMarkExample()
    ensures REPO in Final(Deliver(FRESH, Created("o:r:p"))).managed
    ensures REPO !in Final(Deliver(AfterDelivery(FRESH, Delivery(Created("o:r:p"), 3)), Created("o:r:p"))).managed
  {
    hide NamingSession, ParseSession, Anchor, Resolves, Resolve, CreatedT;
    Names();
    FreshAnchors();
    var b := Branched(FRESH, PARENT, "main");
    BranchedOnce(FRESH, PARENT, "main");
    FreshCreation();
    CreatedPasses(Start(FRESH), PARENT, "o:r:p");
    CreationRows(FRESH, PARENT, "o:r:p");
    BoundOnce(b, PARENT, "o:r:p");
    CreatedPasses(Start(Crash(Inserted(b, PARENT, "o:r:p"))), PARENT, "o:r:p");
    MappedEndsThere(Inserted(b, PARENT, "o:r:p"), PARENT, "o:r:p");
  }

  lemma FreshCreation()
    ensures var t := CreatedT(Start(FRESH), PARENT, "o:r:p");
      |t.worlds| == 5 && t.worlds[3] == Inserted(Branched(FRESH, PARENT, "main"), PARENT, "o:r:p")
  {
    hide Anchor, Resolves, Resolve;
    FreshAnchors();
    BranchedOnce(FRESH, PARENT, "main");
    assert WithRepo(FRESH, REPO) == FRESH;
  }

  // ----- a cached answer -----

  const CACHED := TWO_BRANCHES.(cache := map[CacheName("o:r:p") := CacheEntry(PARENT, 60)])

  /** Half a minute after its deletion a session still resolves. */
  lemma StaleAnswerExample()
    ensures Backed(CACHED) && Ordered(CACHED)
    ensures ResolveSession(Final(Deliver(CACHED, Deleted("o:r:p"))), "o:r:p", 30) == Resolved(PARENT)
  {
    hide Deliver, NamingSession, ParseSession, CacheName, Backed, Ordered;
    Names();
    CachedIsInOrder();
    EvictionMissesTheCache(CACHED, "o:r:p", 30);
  }

  lemma CachedIsInOrder()
    ensures Backed(CACHED) && Ordered(CACHED)
  {
    hide NamingSession, ParseSession, CacheName;
    Names();
    TwoBranchesAreInOrder();
    SameReposSameBranches(CACHED, TWO_BRANCHES);
  }

  // ----- a round that leaves work -----

  /** An adopted branch whose session is gone, in a repository nobody manages yet, and a
      live session that is about to put it under management. */
  const WAITING := WorldOf(Repo(map["main" := "h", "p" := "h"], ONE_REVISION, {"h"}, None),
    map[PARENT := "o:r:p"], {}, {"o:r:c"})

  lemma UnsettledRoundExample()
    ensures Backed(WAITING) && Ordered(WAITING) && PlainNames(WAITING.sessions)
    ensures !OneRoundSettles(WAITING)
    ensures (exists after :: Round(WAITING, after)) && forall after :: Round(WAITING, after) ==> !Settled(after)
  {
    hide Settled, Round, NamingSession, ParseSession, Backed, Ordered;
    Names();
    InOrder(WAITING.repos[REPO], WAITING.rows, {}, {"o:r:c"}, PARENT);
    OrderedRows(WAITING);
    PlainName();
    assert Candidate(WAITING.sessions, CHILD) && CHILD !in Drifted(WAITING).rows;
    assert GainsRow(Drifted(WAITING), WAITING.sessions, REPO);
    assert BecomesManaged(WAITING, PARENT.at);
    ARound();
    forall after | Round(WAITING, after)
      ensures !Settled(after)
    {
      OneRoundSettlesExactly(WAITING, after);
    }
  }

  lemma PlainName()
    ensures PlainNames({"o:r:c"}) && "o:r:c" != "o:r:p"
  {
    assert "o:r:c"[4] == 'c';
  }

  lemma ARound()
    ensures exists after :: Round(WAITING, after)
  {
    hide Backfilled, Drifted;
    var d := Drifted(WAITING);
    assert Enumerates(["o:r:c"], WAITING.sessions);
    assert Round(WAITING, Backfilled(d, ["o:r:c"], MappedNames(d)));
  }

  // ----- branches after several events -----

  /** A session whose branch has moved on from "main". */
  const MOVED_ON := WorldOf(Repo(map["main" := "h", "p" := "g"], ONE_REVISION, {"g", "h"}, None),
    map[PARENT := "o:r:p"], {REPO}, {})

  const RENAME_THEN_CREATE := [Renamed("o:r:p", "o:r:c"), Created("o:r:p")]

  lemma MovedOnIsInOrder()
    ensures Backed(MOVED_ON) && Ordered(MOVED_ON)
    ensures BranchTarget(MOVED_ON, PARENT) == Some("g") && BranchTarget(MOVED_ON, MAIN) == Some("h")
    ensures !BranchExists(MOVED_ON, CHILD) && Listed(MOVED_ON, REPO)
  {
    hide NamingSession, ParseSession, Backed, Ordered;
    Names();
    InOrder(MOVED_ON.repos[REPO], MOVED_ON.rows, {REPO}, {}, PARENT);
  }

  lemma DeliveredInOrder(w: World, ev: LifecycleEvent)
    requires Ordered(w)
    ensures NamedRows(Final(Deliver(w, ev)))
  {
    hide Deliver;
    var t := Deliver(w, ev);
    EventsAreNamed(w, ev);
    TracesKeepOrder(t, |t.worlds| - 1);
  }

  lemma StartsAtMain(w: World)
    requires BranchTarget(w, MAIN) == Some("h")
    ensures StartOf(w, REPO) == Some("h")
  {
  }

  lemma CleanStartsAtMain()
    ensures BranchTarget(CleanRun(MOVED_ON, RENAME_THEN_CREATE), PARENT) == Some("h")
  {
    hide NamingSession, ParseSession, Deliver, Ordered, BranchTarget, StartOf, Listed;
    Names();
    MovedOnIsInOrder();
    OrderedRows(MOVED_ON);
    RenameMovesRowAndBranch(MOVED_ON, "o:r:p", PARENT, "o:r:c", CHILD);
    var moved := Final(Deliver(MOVED_ON, RENAME_THEN_CREATE[0]));
    DeliveredInOrder(MOVED_ON, RENAME_THEN_CREATE[0]);
    CreatedStartsAtMain(moved, "o:r:p", PARENT);
    StartsAtMain(moved);
    NoTargetNoBranch(moved, PARENT);
    TwoEvents(MOVED_ON, RENAME_THEN_CREATE[0], RENAME_THEN_CREATE[1]);
  }

  lemma NoTargetNoBranch(w: World, k: Key)
    ensures BranchTarget(w, k) == None <==> !BranchExists(w, k)
  {
  }

  lemma TwoEvents(w: World, a: LifecycleEvent, b: LifecycleEvent)
    ensures CleanRun(w, [a, b]) == Final(Deliver(Final(Deliver(w, a)), b))
    ensures forall cut ::
      RetriedRun(w, [a, b], [[cut], []]) == Final(Deliver(Final(Deliver(AfterDelivery(w, Delivery(a, cut)), a)), b))
  {
    hide Deliver, AfterDelivery;
    assert [a, b][..1] == [a] && [a][..0] == [];
    assert CleanRun(w, [a]) == Final(Deliver(CleanRun(w, []), a));
    forall cut: nat
      ensures RetriedRun(w, [a, b], [[cut], []])
        == Final(Deliver(Final(Deliver(AfterDelivery(w, Delivery(a, cut)), a)), b))
    {
      assert [[cut], []][..1] == [[cut]] && [[cut]][..0] == [] && [cut][..0] == [];
      OneMoreTry(w, a, [cut]);
      assert RetriedRun(w, [a], [[cut]]) == Retried(RetriedRun(w, [], []), a, [cut]);
    }
  }

  lemma SecondCallMovesTheRow()
    ensures var m := Moved(Branched(MOVED_ON, CHILD, "p"), PARENT, CHILD, "o:r:c");
      && |Deliver(MOVED_ON, RENAME_THEN_CREATE[0]).worlds| > 2 && Deliver(MOVED_ON, RENAME_THEN_CREATE[0]).worlds[2] == m
      && m.repos == Branched(MOVED_ON, CHILD, "p").repos && m.rows == map[CHILD := "o:r:c"]
  {
    hide NamingSession, ParseSession, Resolve;
    Names();
    PlainName();
    var b := Branched(MOVED_ON, CHILD, "p");
    BranchedOnce(MOVED_ON, CHILD, "p");
    assert !RenameConflicts(b, PARENT, CHILD, "o:r:c");
  }

  /** Stopped after its row has moved, the rename leaves its old branch for good. */
  lemma StoppedRename()
    ensures var x := AfterDelivery(MOVED_ON, Delivery(RENAME_THEN_CREATE[0], 2));
      && Ordered(x) && PARENT !in x.rows && Mapped(x, "o:r:c") && BranchTarget(x, PARENT) == Some("g")
      && Final(Deliver(x, RENAME_THEN_CREATE[0])) == x
  {
    hide NamingSession, ParseSession, Ordered, BranchTarget, Branched, Moved, Deliver;
    Names();
    MovedOnIsInOrder();
    DeliveryKeepsOrder(MOVED_ON, Delivery(RENAME_THEN_CREATE[0], 2));
    SecondCallMovesTheRow();
    var x := AfterDelivery(MOVED_ON, Delivery(RENAME_THEN_CREATE[0], 2));
    assert x.rows == map[CHILD := "o:r:c"] && x.rows[CHILD] == "o:r:c";
    BranchedFrom(MOVED_ON, CHILD, "p");
    SameTargets(Branched(MOVED_ON, CHILD, "p"), x);
    MovedAlready(x);
  }

  lemma MovedAlready(x: World)
    requires PARENT !in x.rows && Mapped(x, "o:r:c")
    ensures Final(Deliver(x, RENAME_THEN_CREATE[0])) == x
  {
    hide NamingSession, ParseSession;
    Names();
  }

  /** The old branch of a rename that was cut short stands in the way of a new session by
      the old name: in the clean run that starts at "main". */
  lemma OrphanInTheWayExample()
    ensures Backed(MOVED_ON) && Ordered(MOVED_ON)
    ensures BranchTarget(CleanRun(MOVED_ON, RENAME_THEN_CREATE), PARENT) == Some("h")
    ensures BranchTarget(RetriedRun(MOVED_ON, RENAME_THEN_CREATE, [[2], []]), PARENT) == Some("g")
  {
    hide NamingSession, ParseSession, Deliver, Ordered, BranchTarget, AfterDelivery, StartOf;
    Names();
    MovedOnIsInOrder();
    CleanStartsAtMain();
    StoppedRename();
    var x := AfterDelivery(MOVED_ON, Delivery(RENAME_THEN_CREATE[0], 2));
    OrderedRows(x);
    CreatedStartsAtMain(x, "o:r:p", PARENT);
    NoTargetNoBranch(x, PARENT);
    TwoEvents(MOVED_ON, RENAME_THEN_CREATE[0], RENAME_THEN_CREATE[1]);
  }

  // ----- a job's log -----

  function Logging(n: nat): (ops: seq<JobLog.Op>)
    ensures |ops| == n
  {
    if n == 0 then [] else Logging(n - 1) + [JobLog.LogOp("")]
  }

  lemma {:induction false} LoggingNeverSticks(n: nat)
    ensures var run := JobLog.Exec(Logging(n)); !run.stuck && run.log.state == "" && |JobLog.Logged(Logging(n))| == n
  {
    hide JobLog.Apply;
    if n > 0 {
      LoggingNeverSticks(n - 1);
      assert Logging(n)[..n - 1] == Logging(n - 1);
      LoggingKeepsState(JobLog.Exec(Logging(n - 1)).log);
    }
  }

  lemma LoggingKeepsState(l: JobLog.Log)
    ensures JobLog.Apply(l, JobLog.LogOp("")).state == l.state
  {
  }

  /** 256 lines and a result: from then on nobody can subscribe; one line less and they
      can. */
  lemma BlockedSubscriberExample()
    ensures JobLog.SubscribeBlocks(JobLog.Exec(Logging(256) + [JobLog.FinishOp("success")]).log)
    ensures !JobLog.SubscribeBlocks(JobLog.Exec(Logging(255) + [JobLog.FinishOp("success")]).log)
  {
    FinishedAfter(256);
    FinishedAfter(255);
  }

  lemma FinishedAfter(n: nat)
    requires n <= JobLog.TAIL
    ensures JobLog.SubscribeBlocks(JobLog.Exec(Logging(n) + [JobLog.FinishOp("success")]).log) <==> n >= JobLog.BUFFER
  {
    hide JobLog.Backfill, JobLog.SubscribeBlocks;
    var ops := Logging(n);
    var run := ops + [JobLog.FinishOp("success")];
    assert run[..n] == ops;
    LoggingNeverSticks(n);
    JobLog.TailIsLatest(ops);
    JobLog.SubscribeBlocksExactly(JobLog.Exec(run).log);
  }

  // ----- a sandbox -----

  function SandboxRow(bootId: string): SandboxRegistry.Sandbox {
    SandboxRegistry.Sandbox("o", "r", "main", "", "", "", "", "", bootId, "", "", "", "", 0)
  }

  const NOTHING := SandboxSync.World(None, None, map[], map[], SandboxSync.Idle)

  /** A sync up to its push. */
  const PUSHING := [
    SandboxSync.Export(MAIN), SandboxSync.ReadBoot(true), SandboxSync.Decide(true), SandboxSync.Push(true)]

  /** A sandbox that is launched, booted and synced once. */
  const LAUNCHED := [
    SandboxSync.LaunchUpsert(SandboxRow("")), SandboxSync.Boot("b1"), SandboxSync.MoveHead(MAIN, "t1")]
  const SYNCED_ONCE := LAUNCHED + PUSHING + [SandboxSync.Mark]

  const SYNCED := SandboxSync.World(Some(SandboxRow("b1").(syncedRev := "t1")), Some("b1"), map["b1" := "t1"],
    map[MAIN := "t1"], SandboxSync.Idle)

  lemma Pushes(w: SandboxSync.World)
    requires w.phase.Idle? && MAIN in w.heads && w.live.Some?
    requires !SandboxSync.UpToDate(w.row, w.heads[MAIN], w.live.value)
    ensures SandboxSync.Exec(w, PUSHING) == w.(
      phase := SandboxSync.Pushed(w.heads[MAIN], w.live.value), base := w.base[w.live.value := w.heads[MAIN]])
  {
    hide SandboxSync.UpToDate;
    var tree, boot := w.heads[MAIN], w.live.value;
    var w1 := w.(phase := SandboxSync.Exported(tree));
    var w2 := w.(phase := SandboxSync.BootRead(tree, boot));
    var w3 := w.(phase := SandboxSync.Chosen(tree, boot));
    assert PUSHING[1..][1..] == PUSHING[2..] && PUSHING[2..][1..] == [SandboxSync.Push(true)];
    assert SandboxSync.Exec(w3, [SandboxSync.Push(true)]) == SandboxSync.Apply(w3, SandboxSync.Push(true));
    assert SandboxSync.Exec(w2, PUSHING[2..]) == SandboxSync.Exec(w3, [SandboxSync.Push(true)]);
    assert SandboxSync.Exec(w1, PUSHING[1..]) == SandboxSync.Exec(w2, PUSHING[2..]);
  }

  lemma Launches()
    ensures SandboxSync.Exec(NOTHING, LAUNCHED)
      == SandboxSync.World(Some(SandboxRow("")), Some("b1"), map["b1" := ""], map[MAIN := "t1"], SandboxSync.Idle)
  {
    hide SandboxSync.Exec;
    var e := LAUNCHED;
    SandboxSync.NothingDone(NOTHING);
    SandboxSync.ExecSnoc(NOTHING, [], e[0]);
    SandboxSync.ExecSnoc(NOTHING, [e[0]], e[1]);
    SandboxSync.ExecSnoc(NOTHING, [e[0], e[1]], e[2]);
    assert [] + [e[0]] == [e[0]] && [e[0]] + [e[1]] == [e[0], e[1]] && [e[0], e[1]] + [e[2]] == e;
  }

  lemma SyncedOnce()
    ensures SandboxSync.Exec(NOTHING, SYNCED_ONCE) == SYNCED
  {
    hide SandboxSync.Exec;
    Launches();
    var w := SandboxSync.Exec(NOTHING, LAUNCHED);
    SandboxSync.ExecConcat(NOTHING, LAUNCHED, PUSHING);
    Pushes(w);
    SandboxSync.ExecSnoc(NOTHING, LAUNCHED + PUSHING, SandboxSync.Mark);
  }

  /** Another worker registered over the synced row: the row says of it what the first one
      has. */
  lemma ReregisteredExample()
    ensures SandboxSync.Sound(NOTHING)
    ensures !SandboxSync.Coherent(
      SandboxSync.Exec(NOTHING, SYNCED_ONCE + [SandboxSync.Register(SandboxRow("b2"), "b2")]))
  {
    hide SandboxSync.Exec;
    SyncedOnce();
    SandboxSync.ExecSnoc(NOTHING, SYNCED_ONCE, SandboxSync.Register(SandboxRow("b2"), "b2"));
  }

  /** A second sync that crashes between its push and its mark: the row claims the old tree
      for a worker that has the new one. */
  const CRASHED := [SandboxSync.MoveHead(MAIN, "t2")] + PUSHING + [SandboxSync.GiveUp]

  lemma CrashedPushExample()
    ensures !SandboxSync.Coherent(SandboxSync.Exec(NOTHING, SYNCED_ONCE + CRASHED))
  {
    hide SandboxSync.Exec;
    var moved := [SandboxSync.MoveHead(MAIN, "t2")];
    SyncedOnce();
    SandboxSync.NothingDone(SYNCED);
    SandboxSync.ExecConcat(NOTHING, SYNCED_ONCE, CRASHED);
    SandboxSync.ExecSnoc(SYNCED, [], moved[0]);
    assert [] + [moved[0]] == moved;
    var w := SandboxSync.Exec(SYNCED, moved);
    assert w == SYNCED.(heads := map[MAIN := "t2"]);
    Pushes(w);
    SandboxSync.ExecConcat(SYNCED, moved, PUSHING);
    SandboxSync.ExecSnoc(SYNCED, moved + PUSHING, SandboxSync.GiveUp);
  }

  // ----- line edits -----

  /** An end line one past the last, and a request without a start line. */
  lemma PanickingEditExamples()
    ensures LineEdit.ApplyLineEdit("a\n", 1, 2, "b").Panics?
    ensures LineEdit.SandboxEdit("a\n", 0, 0, "b").Panics?
  {
    assert "a\n"[..1] == "a";
    LineEdit.ApplyPanicsExactlyPastTheEnd("a\n", 1, 2, "b");
    LineEdit.SandboxPanicsExactlyBelowOne("a\n", 0, 0, "b");
  }

  /** Text put into an empty file, and a blank line replaced. */
  lemma DifferingEditExamples()
    ensures LineEdit.ApplyLineEdit("", 1, 0, "b") != LineEdit.SandboxEdit("", 1, 0, "b")
    ensures LineEdit.EditAndUndo("\na\n", 1, 1, "b") != LineEdit.Edited("\na\n")
  {
    hide LineEdit.ApplyLineEdit, LineEdit.SandboxEdit, LineEdit.EditAndUndo;
    LineEdit.EditorsAgree("", 1, 0, "b");
    BlankThenA();
    assert ["", "a"][0..1] == [""];
    LineEdit.EditCanBeUndone("\na\n", 1, 1, "b");
  }

  lemma BlankThenA()
    ensures LineEdit.BodyLines("\na\n") == ["", "a"]
  {
    hide LineEdit.BodyLines;
    var lines := ["", "a"];
    assert lines[1..] == ["a"];
    assert LineEdit.Finish(lines, true) == "\na\n";
    LineEdit.FinishedReadsBack(lines, true);
  }
}
