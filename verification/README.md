# A model of easylab's session mapping, history walks, CI runs, log hub, sandbox sync and line editing

The project models five parts of easylab and proves properties of them.

* **Session/branch mapping** (`Naming`, `Mapping`, `Stages`, `Keys`, `Convergence`, `Redelivery`,
  `Retries`, `Effects`, `Safety`, `Dangling`, `Taint`, `Reconcile`, `Server`). Agent lifecycle events
  arrive at least once and are copied into a branch store and a mapping table; a reconciler repairs
  what was missed. Each remote or SQL call is one step (`Mapping.Op`). `Mapping` gives every handler as the trace of worlds its calls go through,
  `Server` is the server object whose methods produce exactly those traces, and the other modules prove
  what holds at every step, after a crash between any two steps, and over whole runs.
* **History walks** (`Digraph`, `History`, `Fetch`, `RevGraph`): the ancestor walk and bundle filter of
  a selective fetch, and the revision graph view.
* **CI runs** (`Scheduler`): repeated passes over a job list against a backend that may answer anything.
* **Job logs** (`JobLog`): a bounded tail with a lossy fan-out to subscriber channels, over all runs.
* **Sandbox sync** (`SandboxRegistry`, `SandboxSync`): when a workspace-wiping push may be skipped, with
  restarts, branch moves, relaunches and deletions between any two calls of the sync.
* **Line editing** (`Text`, `Decimal`, `LineEdit`, `Diff`): two line editors and a patch printer.

`Examples` holds small inputs at which the failures described below happen.

Inputs from outside are parameters: backend replies are an arbitrary function of the call, agent
sessions are a set, a worker is a boot id and the tree last pushed to it, the clock is an argument, and
map iteration order is any order. A transient error of a call stops a handler where a crash would, so
it is covered by the crash results.

## What the proofs found

Conditions under which the code does not do what its comments or its shape suggest; each is a proved
statement, exact where the statement is an equivalence. Module `Examples` has an input for each.

* A deletion removes the branch before the row (events_sub.go:156-159), so it always passes through a
  world where its own row dangles; the comment at events_sub.go:142-143 promises the opposite
  (`Safety.DeletedSteps`). Cut there, its own row is not the only one that can dangle: a fork from it
  afterwards leaves the child's row without a branch too, exactly when the parent's name resolves to
  nothing besides the lost branch (`Taint.HalfDeletionSpreads`, `Examples.HalfDeletionExample`), and so on
  along a chain of forks (`Taint.TaintIsReached`). From the events alone, `Taint.OnlyTaintedRowsDangle`
  bounds which rows can dangle after a run with any cuts, and `Taint.RunsStayBacked` says that none does
  when no deletion is cut in half; which ones do is in `Dangling.RunDangles`. If the repositories concerned are managed, the next drift pass repairs it all
  (`Taint.DriftRepairsRuns`), and a whole round gives every row its branch and every live session of
  those repositories its row (`Taint.RoundAfterRun`).
* A fork whose parent is not a workspace session starts at `main` without the fallback a creation has
  (events_sub.go:97). Where `main` does not resolve, the branch is silently not created and the row
  dangles (`Safety.ForkedSteps`, through `Safety.TailSafe`; `Examples.OutsideForkExample`). So does the
  row of a fork from a branch named "@-" where the newest revision has no parent
  (`Examples.ReservedNameExample`).
* Redelivery ends where one clean delivery ends exactly for the events `Redelivery.Repeatable` names.
  Two kinds fail: a rename of an unmapped session to its own name, which creates the branch and when
  delivered again deletes it, even if the first delivery completed (`Redelivery.RenamedConverges`,
  `Examples.UnrepeatableRenameExample`), and a fork of a session from itself whose branch only its own
  name can give it (`Redelivery.ForkedConverges`, `Examples.UnrepeatableForkExample`). The second needs a
  repository without a revision and something else, such as a loose snapshot, by the name of the branch:
  where there is a revision every such fork repeats (`Redelivery.RevisionsRepeatSelfForks`). The rows
  come out right in both cases (`Retries.RetriesKeepRows`).
* Over several events only the rows are those of the clean run: a branch left by a rename that was cut
  short stands in the way of a new session by the old name (`Examples.OrphanInTheWayExample`).
* A creation stopped between its row and its managed mark is never marked again by redelivery
  (`Convergence.ManagedMarkLostExactly`, `Examples.LostMarkExample`).
* The backfill looks sessions up by bare name in a set of tenant-qualified names (reconcile.go:150-153),
  so the lookup never succeeds (`Reconcile.NobodyIsFoundMapped`).
* One reconciler round can leave work for a second: a repository that comes under management during the
  round may hold rows only the next round looks at. One round is enough exactly under
  `Reconcile.OneRoundSettles`; two rounds always are (`Reconcile.WhenRoundsStop`,
  `Examples.UnsettledRoundExample`).
* The cache is evicted under a key it never uses (events_sub.go:162 against sessions_http.go:59), so a
  cached resolution outlives a deletion exactly until it expires (`Keys.EvictionMissesTheCache`,
  `Examples.StaleAnswerExample`).
* Subscribing to a finished job with 256 or more tail lines never returns (`JobLog.SubscribeBlocksExactly`,
  `Examples.BlockedSubscriberExample`).
* Registering an external worker over a synced row, and a sync given up between push and mark, can break
  revision coherence; exactly when, for one event and for whole runs, is in
  `SandboxSync.RegisterKeepsCoherenceExactly`, `SandboxSync.CrashAfterPushKeepsCoherenceExactly` and
  `SandboxSync.RunsAreCoherentExactly` (`Examples.ReregisteredExample`, `Examples.CrashedPushExample`).
* `applyLineEdit` panics exactly for an end line one past the last line, and `sandboxEdit` exactly for a
  start line below one, which is what a request without one has (sandbox_tools.go:235)
  (`LineEdit.ApplyPanicsExactlyPastTheEnd`, `LineEdit.SandboxPanicsExactlyBelowOne`,
  `Examples.PanickingEditExamples`).
* The two editors differ on a text without lines, and an edit of a blank line cannot be undone
  (`LineEdit.EditorsAgree`, `LineEdit.EditCanBeUndone`, `Examples.DifferingEditExamples`).

## Model

| member | source | states |
|---|---|---|
| Naming.NamingOfParsed | internal/ext/repo/helpers.go:53-63 | every name that parses is the name of its triple, and the triple holds no separator |
| Naming.ParseOfNamed | internal/ext/repo/helpers.go:53-63 | parsing undoes naming for exactly the separator-free triples; other names do not parse |
| Naming.NamingInjective | internal/ext/ops/naming.go:8-12 | two separator-free triples never share a session name |
| Naming.ValidatorsAgree | internal/ext/repo/helpers.go:39-51 | the two extensions accept the same components, none with a separator |
| Naming.ComponentsExactly | internal/ext/repo/helpers.go:37-51 | the accepted components, character by character |
| Naming.StrictParse | internal/ext/ops/naming.go:39-50 | the strict parser returns a triple if and only if the name is its naming and its parts are valid |
| Keys.NamedOpKeepsOrder | internal/ext/repo/pg.go:84-94 | each table call keeps session = org:repo:branch and one row per session |
| Keys.InterleavingsKeepOrder | internal/ext/repo/pg.go:224-250 | any interleaving of such calls, from any handlers, keeps the table a named partial bijection |
| Keys.EventsAreNamed | internal/ext/repo/events_sub.go:12-54 | every call any event makes in any world names the session after the key |
| Keys.BindingsAreNamed | internal/ext/repo/sessions_http.go:92-118 | so does every call of adoption and of starting a subsession |
| Mapping.ReferenceMeans | cmd/easylab/lab_helpers.go:50-99 | what a reference resolves to: newest revision, its parent, branch, snapshot, newest revision of that id, newest with that prefix, and exactly when nothing |
| Keys.RunsKeepOrder | internal/ext/repo/sessions_http.go:55-118 | over every run of events, adoptions, subsessions, drift passes, backfills and resolutions, each cut after any call, with process deaths and outside changes of branches and sessions in between, the table stays a named partial bijection and the cache stays under the right names |
| Keys.ReachedResolutionIsTheParse | internal/ext/repo/sessions_http.go:55-74 | so in every reachable world whatever a session resolves to, cached or not, is the parse of its name |
| Keys.KeysCoincide | internal/ext/repo/pg.go:211-220 | for a name that spells a triple, lookup by session and lookup by triple find the same row |
| Keys.ResolvesExactly | internal/ext/repo/sessions_http.go:55-74 | a session resolves if and only if an unexpired entry under the tenant's name for it or a row answers; otherwise it is a bad name if and only if no separator-free triple is spelled so |
| Keys.ResolutionLasts | internal/ext/repo/sessions_http.go:55-74 | what was resolved from a row is answered until its entry expires, whatever becomes of the table |
| Keys.ResolvedIsTheParse | internal/ext/repo/sessions_http.go:55-74 | whatever is resolved, cached or not and however stale, is the parse of the session name |
| Keys.EvictionMissesTheCache | internal/ext/repo/events_sub.go:142-164 | after a deletion a cached resolution is still answered exactly until it expires |
| Redelivery.CrashAndRedeliveryConverge | internal/ext/repo/events_sub.go:12-164 | stopping any handler after any prefix of its calls and redelivering ends with the rows of one clean delivery, at most orphan branches more and managed marks fewer, if and only if a condition on the event and the world before holds; it always does for two different sessions |
| Retries.RetriesConverge | internal/ext/repo/events_sub.go:10-37 | the same for any number of deliveries, each cut anywhere or completed, before one in full, under the same condition |
| Retries.RetriedRunsKeepRows | internal/ext/repo/events_sub.go:10-37 | any run of events at all, each delivered any number of times, ends with the rows of the clean run |
| Convergence.CreatedConverges | internal/ext/repo/events_sub.go:56-69 | the same for created, in every world |
| Redelivery.ForkedConverges | internal/ext/repo/events_sub.go:74-104 | the same for forked, with the parent materialized on the way, if and only if the sessions differ or the branch does not hang on its own name |
| Redelivery.RevisionsRepeatSelfForks | internal/ext/repo/events_sub.go:74-104 | where there is a revision that condition always holds |
| Redelivery.RenamedConverges | internal/ext/repo/events_sub.go:108-140 | the same for renamed, if and only if the names differ or the name does not parse, is bound, is in an unnamed repository, or would get no branch |
| Convergence.DeletedConverges | internal/ext/repo/events_sub.go:144-164 | the same for deleted, in every world |
| Convergence.ManagedMarkLostExactly | internal/ext/repo/sessions_http.go:78-86 | a redelivered creation misses the managed mark if and only if it was stopped between row and mark |
| Redelivery.SelfRenameDropsItsBranch | internal/ext/repo/events_sub.go:121-139 | in all other cases delivering the rename to the own name twice deletes the branch its row is bound to |
| Effects.CreatedStartsAtMain | internal/ext/repo/events_sub.go:56-69 | a created session gets its row and a branch: the existing one, else at main, else at the newest revision, else none; every other branch, row, mark, session and cache entry stays, and a mapped session changes nothing |
| Effects.ForkStartsAtParent | internal/ext/repo/events_sub.go:81-103 | a forked session's branch starts where its parent's branch is, after the parent's creation if that had no row; everything else stays |
| Effects.ForkFromOutsiderStartsAtMain | internal/ext/repo/events_sub.go:96-103 | a fork from a session that is no workspace starts at main, with no fallback |
| Effects.RenameMovesRowAndBranch | internal/ext/repo/events_sub.go:121-139 | a rename gives the new name a branch where the old one points, then moves the row and drops the old branch if the name is free; everything else stays |
| Effects.DeletedTakesRowAndBranch | internal/ext/repo/events_sub.go:144-164 | a deletion removes exactly its row and its branch |
| Effects.RepliesExactly | internal/ext/repo/events_sub.go:12-164 | the answer to every event in every world with named rows: what it is refused for, with which status, or nothing |
| Effects.RefusedChangesNothing | internal/ext/repo/events_sub.go:12-164 | a refused event leaves rows, marks, sessions, cache and branches alone |
| Effects.AdoptionEffect | internal/ext/repo/sessions_http.go:92-118 | adopting an existing unmapped branch creates its session and its row and no mark; a mapped one changes nothing; a missing one is a 404 with nothing changed; a session bound elsewhere is a 409 with no row |
| Effects.SubsessionEffect | internal/ext/repo/tools_vcs.go:154-216 | every refusal of a subsession, in order, with nothing changed; an accepted one gets branch, session, row and mark, which stay when the prompt fails |
| Safety.CreatedSteps | internal/ext/repo/events_sub.go:56-69 | every call of created keeps every row's branch existing if and only if a condition checkable beforehand holds |
| Safety.ForkedSteps | internal/ext/repo/events_sub.go:74-104 | the same for forked |
| Safety.ForkFindsExactly | internal/ext/repo/events_sub.go:81-100 | what a fork's branch is made from resolves after the parent's creation if and only if a condition on the names and branches before holds |
| Safety.RenamedSteps | internal/ext/repo/events_sub.go:108-140 | the same for renamed; a rename to the same name is never safe |
| Safety.DeletedSteps | internal/ext/repo/events_sub.go:144-164 | only the session's own row ever dangles, it does on the way if and only if it is mapped, and none at the end |
| Safety.StepSafety | internal/ext/repo/events_sub.go:12-37 | for every event, no step leaves a row without its branch if and only if the event is safe |
| Safety.SafeWhereThereIsARevision | internal/ext/repo/events_sub.go:56-140 | in repositories with a revision, creations, forks from workspace sessions and renames are safe |
| Safety.AnchorResolves | internal/ext/repo/events_sub.go:168-176 | where there is a revision the anchor the client picks is one the server resolves |
| Safety.BranchResolves | cmd/easylab/lab_helpers.go:50-99 | an existing branch can be branched from, except under the one reserved name |
| Dangling.DeliveryDangles | internal/ext/repo/events_sub.go:12-164 | after every single call of a delivery, a row dangles if and only if it is still there and dangled before unhealed or was lost by this event, both told from the world before |
| Dangling.RunDangles | internal/ext/repo/events_sub.go:12-164 | over any run with any cuts, the rows that dangle are exactly those lost once and neither dropped nor healed since |
| Taint.DeliveryKeepsRevisions | cmd/easylab/lab_helpers.go:50-99 | no call of an event on a repository with a revision takes away what makes its anchors resolve |
| Taint.OnlyTaintedRowsDangle | internal/ext/repo/events_sub.go:56-164 | over any run on repositories with a revision, with any cuts, only the rows the events taint can dangle: those of deletions cut in half and what is forked or renamed from them |
| Taint.RunsStayBacked | internal/ext/repo/events_sub.go:56-164 | over any run of events on repositories with a revision, cut after any call, every row has its branch if no deletion is cut between branch and row; assumed of the first world and the events only |
| Taint.RunsAreSafe | internal/ext/repo/events_sub.go:56-164 | such a run is safe at every single call of every delivery |
| Taint.HalfDeletionSpreads | internal/ext/repo/events_sub.go:81-159 | a fork from a half-deleted session leaves its own row dangling too if and only if the parent's name resolves to nothing else |
| Examples.HalfDeletionExample | internal/ext/repo/events_sub.go:81-159 | the smallest input where both rows dangle |
| Taint.TaintIsReached | internal/ext/repo/events_sub.go:81-159 | a half deletion and a chain of forks of any length leave every row of the chain dangling |
| Taint.DriftRepairsExactly | internal/ext/repo/reconcile.go:106-126 | a drift pass leaves no dangling row if and only if those there are lie in managed repositories |
| Taint.DriftRepairsRuns | internal/ext/repo/reconcile.go:106-126 | after any run with any cuts whose half deletions are in managed repositories, the next drift pass leaves every row with its branch |
| Taint.RoundAfterRun | internal/ext/repo/reconcile.go:40-50 | after such a run, with any live sessions naming repositories with a revision, one round leaves every row with its branch and every live triple session with its row |
| Examples.OutsideForkExample | internal/ext/repo/events_sub.go:96-103 | in a repository with a revision but no main, a fork from an outside session leaves its row dangling |
| Examples.UnrepeatableRenameExample | internal/ext/repo/events_sub.go:121-139 | an input where a rename to the own name does not converge |
| Examples.UnrepeatableForkExample | internal/ext/repo/events_sub.go:74-104 | an input where a fork of a session from itself does not converge |
| Examples.OrphanInTheWayExample | internal/ext/repo/events_sub.go:56-140 | two events after which the branches of the retried run differ from those of the clean run |
| Examples.LostMarkExample | internal/ext/repo/sessions_http.go:78-86 | an input where the managed mark is lost |
| Examples.StaleAnswerExample | internal/ext/repo/sessions_http.go:55-74 | an input where a deleted session still resolves |
| Examples.UnsettledRoundExample | internal/ext/repo/reconcile.go:40-50 | an input where every first round leaves work |
| Examples.BlockedSubscriberExample | internal/ci/runbus.go:86-94 | 256 lines and a result block every subscriber, 255 do not |
| Examples.ReregisteredExample | cmd/easylab/connsandbox.go:579-589 | a run that registers another worker over a synced row and breaks coherence |
| Examples.CrashedPushExample | cmd/easylab/sandboxsync.go:39-45 | a run that crashes between push and mark and breaks coherence |
| Reconcile.CreationEffect | internal/ext/repo/reconcile.go:152-168 | what one backfilled session changes: its row, its mark, its branch if the anchor resolves, and nothing else |
| Reconcile.BackfillFills | internal/ext/repo/reconcile.go:143-170 | the backfill's result in any iteration order: exactly which rows, marks, branches and repositories there are |
| Reconcile.NobodyIsFoundMapped | internal/ext/repo/reconcile.go:148-155 | no live session is ever found in the set of mapped names |
| Reconcile.RoundHealsExactly | internal/ext/repo/reconcile.go:40-50 | a live triple session has row and branch after a round if and only if a condition on the world before holds |
| Reconcile.RoundCleansManaged | internal/ext/repo/reconcile.go:81-135 | afterwards every row of a managed repository has a live session, and a branch if and only if it had one or its anchor resolves |
| Reconcile.RoundHealsEverySession | internal/ext/repo/reconcile.go:40-50 | with a revision everywhere and unmanaged rows backed, one round gives every live triple session its row and branch |
| Reconcile.DriftRepairsDeletion | internal/ext/repo/reconcile.go:106-126 | in a managed repository a deletion cut short anywhere is repaired by the next drift pass |
| Reconcile.DriftDoes | internal/ext/repo/reconcile.go:81-135 | a drift pass over any listings, however old, takes exactly the dead rows of the listing and the entries under their bare names |
| Reconcile.DriftKeepsExactly | internal/ext/repo/reconcile.go:81-135 | with fresh listings that is the drift pass the results about rounds are about, in any order |
| Reconcile.UnchangedExactlyWhenSettled | internal/ext/repo/reconcile.go:40-50 | a round changes nothing if and only if the world is settled |
| Reconcile.TwoRoundsSettle | internal/ext/repo/reconcile.go:40-50 | two rounds always reach a settled world |
| Reconcile.OneRoundSettlesExactly | internal/ext/repo/reconcile.go:40-50 | one round does if and only if nothing waits in a repository that comes under management |
| Reconcile.WhenRoundsStop | internal/ext/repo/reconcile.go:22-50 | of three consecutive rounds the third never changes anything, and the second exactly under that condition |
| Server.Server.InsertRow | internal/ext/repo/pg.go:224-232 | inserts unless the triple or the session is in some row, and says which |
| Server.Server.RenameRow | internal/ext/repo/pg.go:235-250 | moves the row unless another row holds the new triple or session, or there is none to move, and says which |
| Server.Server.EnsureBranch | internal/ext/repo/client_easylab.go:134-152 | the calls made for a branch, an unresolved source being ignored |
| Server.Server.EnsureCreated | internal/ext/repo/events_sub.go:56-69 | makes exactly the calls of the created trace |
| Server.Server.EnsureForked | internal/ext/repo/events_sub.go:74-104 | makes exactly the calls of the forked trace |
| Server.Server.EnsureRenamed | internal/ext/repo/events_sub.go:108-140 | makes exactly the calls of the renamed trace |
| Server.Server.EnsureDeleted | internal/ext/repo/events_sub.go:144-164 | makes exactly the calls of the deleted trace |
| Server.Server.HandleLifecycleEvent | internal/ext/repo/events_sub.go:12-53 | makes the calls of the event's trace, then publishes or clears the session's variables, and keeps table, cache and variables in order |
| Server.Server.PublishSessionVars | internal/ext/repo/variables.go:30-44 | projects what the session resolves to, filling the cache, and nothing for one that does not resolve |
| Server.ProjectionSpellsTheName | internal/ext/repo/events_sub.go:39-51 | after any created, forked or renamed event that is not refused its session resolves to the parse of its name, and what is published, for it or for the session a fork names besides, spells that session's name, whatever the cache held |
| Server.ProjectionDoes | internal/ext/repo/events_sub.go:33-53 | nothing is projected for a refused event, a deletion clears exactly its own session's variables without a look-up, the others show exactly one session, by one look-up |
| Server.Server.AdoptBranch | internal/ext/repo/sessions_http.go:92-118 | makes exactly the calls of the adoption trace, whose effect is `Effects.AdoptionEffect` |
| Server.Server.CreateSubsession | internal/ext/repo/tools_vcs.go:154-216 | makes exactly the calls of the subsession trace, whose effect is `Effects.SubsessionEffect` |
| Server.Server.ResolveSession | internal/ext/repo/sessions_http.go:55-74 | answers from an unexpired cache entry, else from the table, filling the cache |
| Server.Server.ConvergeDrift | internal/ext/repo/reconcile.go:81-135 | makes the calls of the drift trace in some order, leaving exactly the rows whose repository is unmanaged or whose branch and session are there |
| Server.Server.BackfillWorkspaces | internal/ext/repo/reconcile.go:143-170 | makes the calls of the backfill trace over some enumeration of the live sessions |
| Server.Server.ReconcileOnce | internal/ext/repo/reconcile.go:40-50 | is one round in the sense the results above are about |
| History.SnapOwnerHoldsTheLast | cmd/easylab/main.go:1179-1182 | a snapshot belongs to the last listed revision that has its hash |
| History.OwnedExactly | cmd/easylab/main.go:1179-1182 | and is owned if and only if some listed revision has its hash |
| History.EdgesAreParents | cmd/easylab/main.go:1171-1200 | the edges walked are the parents recorded in the snapshots, each mapped to its last owner |
| Fetch.AncestorWalk.Visit | cmd/easylab/main.go:1183-1202 | adds ids reached from its argument only, and closes what it adds under parents outside have |
| Fetch.ChangeSetWithAncestors | cmd/easylab/main.go:1166-1207 | terminates and returns exactly the wanted ids and their ancestors by recorded parents, along chains without anything in have |
| Fetch.FilterBundle | cmd/easylab/main.go:1212-1248 | keeps the wanted revisions and their snapshots, or everything when nothing is wanted |
| Fetch.KeptInOrder | cmd/easylab/main.go:1228-1237 | every wanted revision is kept, as often as it is listed, in the order of the list |
| Fetch.SnapByChangeHoldsTheLast | cmd/easylab/main.go:1225-1227 | of several snapshots of one revision the last is the one sent |
| Fetch.FilteredIsComplete | cmd/easylab/main.go:1212-1248 | every recorded parent of a kept revision that some listed revision owns is kept or in have; kept snapshots are exactly theirs |
| Fetch.SelectDelta | cmd/easylab/main.go:1125-1146 | the answer is history-complete by recorded parents and holds exactly the listed revisions outside have that are wanted or ancestors of wanted ones |
| RevGraph.ViewEdgesAreParents | cmd/easylab/connlab.go:525-536 | the view's edges are the recorded parents, each mapped to the last listed revision whose snapshot records that hash |
| RevGraph.ParentsAreShown | cmd/easylab/connlab.go:578-589 | each parent of a node is shown as that revision, or as its hash when no listed snapshot records it |
| RevGraph.TopoWalk.Visit | cmd/easylab/connlab.go:541-554 | emits each node once, after everything it leads to unless there is a cycle |
| RevGraph.EmitOrder | cmd/easylab/connlab.go:537-564 | every listed id once, parents before children if and only if the parent relation is acyclic |
| RevGraph.Heads | cmd/easylab/connlab.go:565-576 | the heads are exactly the listed revisions that are no listed revision's parent |
| RevGraph.ViewRevisions | cmd/easylab/connlab.go:511-602 | nodes, order, heads and shown parents of the answer, on the recorded parents, also when the limit, 100 unless given, cuts it |
| Digraph.StuckSetHasCycle | internal/ci/scheduler.go:157-160 | a nonempty set every member can step inside of contains a cycle |
| Scheduler.EdgesAreNeeds | internal/ci/scheduler.go:114-177 | the graph of the results below is the jobs' own needs lists, all of them |
| Scheduler.ReportSays | internal/ci/scheduler.go:114-163 | what each way of ending means in terms of the job list, its needs and the backend's answers |
| Scheduler.Run.constructor | internal/ci/scheduler.go:87-93 | one pending instance per job, nothing executed |
| Scheduler.Run.SetJobState | internal/ci/ci.go:156-168 | updates the first instance of the definition, keeping an old result when the new one is empty |
| Scheduler.Pass | internal/ci/scheduler.go:122-156 | one pass: the execution extended, every job after all its listed needs, or the first failure, and progress exactly if something ran |
| Scheduler.Walk | internal/ci/scheduler.go:114-163 | the execution has no repeats and every job follows all its listed needs; what each way of ending means; instance states |
| Scheduler.CompleteExecutionCertifies | internal/ci/scheduler.go:114-163 | a complete execution shows the needs are declared and acyclic |
| Scheduler.StuckMeansCycle | internal/ci/scheduler.go:157-160 | being stuck with declared needs exhibits a cycle |
| Scheduler.StuckIsLeastClosed | internal/ci/scheduler.go:157-160 | what ran when the walk gives up is the least set closed under "all my needs are in it" |
| Scheduler.FinishesExactlyOnGoodWorkflows | internal/ci/scheduler.go:114-163 | with an ok backend the walk succeeds if and only if ids are distinct, needs declared and acyclic |
| Scheduler.FinalInstances | internal/ci/scheduler.go:97-163 | none running at the end, exactly one failed after a job failure, all succeeded if and only if the walk did |
| Scheduler.RunWorkflow | internal/ci/scheduler.go:97-111 | all of the above for a whole run; with a backend that is always ok the run succeeds if and only if ids are distinct, needs listed, and no chain of needs comes back |
| JobLog.JobLog.LogLine | internal/ci/runbus.go:45-60 | appends to the tail, dropping the oldest line beyond 500, and offers the line to every subscriber, none of them closed |
| JobLog.JobLog.Finish | internal/ci/runbus.go:64-78 | offers the final event to every subscriber, then closes and forgets it |
| JobLog.JobLog.Subscribe | internal/ci/runbus.go:82-98 | backfills a new channel and registers or finishes it, or blocks |
| JobLog.JobLog.Cancel | internal/ci/runbus.go:99-106 | forgets and closes a registered channel, and does nothing the second time |
| JobLog.LogDoes | internal/ci/runbus.go:45-60 | which lines and which buffered events there are after a line |
| JobLog.SubscribeDoes | internal/ci/runbus.go:82-98 | a new channel holds the first 256 lines of the tail, and is registered or, for a finished job, ends with the final event |
| JobLog.RunsAreSound | internal/ci/runbus.go:45-108 | over every run a channel is registered exactly while open, final events come last, buffers stay bounded |
| JobLog.ClosedStaysClosed | internal/ci/runbus.go:45-108 | a closed channel is never sent on, reopened or registered again |
| JobLog.FinishLeavesNobodySubscribed | internal/ci/runbus.go:64-78 | after finishing nobody is registered and no channel is open |
| JobLog.SubscribeBlocksExactly | internal/ci/runbus.go:86-94 | subscribing blocks if and only if the job has a final state and at least 256 tail lines |
| JobLog.TailIsLatest | internal/ci/runbus.go:45-52 | over every run the tail is the last 500 lines logged, or all if there are fewer |
| JobLog.Delivery | internal/ci/runbus.go:45-98 | a subscriber's lines are a subsequence of its tail plus later lines, and all of them if and only if nothing was given up |
| JobLog.FinalEventIsLast | internal/ci/runbus.go:64-78 | the final event arrives unless the buffer is full, and nothing ever follows it |
| SandboxRegistry.Registry.Upsert | internal/sbxreg/sbxreg.go:75-116 | the merged row, keeping what the new registration leaves empty; other rows untouched |
| SandboxRegistry.UpsertMeans | internal/sbxreg/sbxreg.go:79-110 | each field of the stored row: where it belongs and what it runs are the new ones, sync record, access data and owner the stored ones where left empty |
| SandboxRegistry.Registry.MarkSynced | internal/sbxreg/sbxreg.go:150-154 | records tree and boot id on an existing row only |
| SandboxSync.RunsKeepSound | cmd/easylab/sandboxsync.go:15-46 | over every run of restarts, branch moves, relaunches, deletions, registrations and syncs given up anywhere, in which registrations and crashes meet their conditions, a recorded boot id that is live goes with its last pushed tree |
| SandboxSync.RunsAreCoherentExactly | cmd/easylab/sandboxsync.go:15-46 | a run with no registration between a push and its mark keeps that throughout if and only if every registration and every crash in it meets its condition |
| SandboxSync.RegisterKeepsCoherenceExactly | cmd/easylab/connsandbox.go:579-589 | registering over a row keeps that if and only if the kept revision is none or the worker's own |
| SandboxSync.CrashAfterPushKeepsCoherenceExactly | cmd/easylab/sandboxsync.go:39-45 | a crash between push and mark keeps it if and only if the row does not claim the live boot or already claims the tree |
| SandboxSync.SandboxServer.LookAtWorker | cmd/easylab/sandboxsync.go:19-31 | skips if and only if the row is readable and its sync fields are the head tree and the known boot id; a calm skip already has the tree |
| SandboxSync.SandboxServer.SyncWorkspace | cmd/easylab/sandboxsync.go:15-46 | with anything between its calls, returning without error while the name led to one boot leaves the head tree as base; it leaves the worker in sync, and a worker in sync with the head is skipped, so the wiping push happens only on a difference; other rows of the registry stay |
| SandboxSync.NextSyncSkips | cmd/easylab/sandboxsync.go:15-46 | right after a sync the next one for the same head ends where it began, without a push |
| LineEdit.ApplyPanicsExactlyPastTheEnd | internal/ext/repo/tools.go:1021-1031 | one of the slices of the editor is out of range if and only if the end line is one past the last |
| LineEdit.SandboxPanicsExactlyBelowOne | internal/ext/ops/helpers_domain.go:165-184 | one of the slices of the sandbox editor is out of range if and only if the start line is below one |
| LineEdit.ApplyAnswersExactly | internal/ext/repo/tools.go:988-1037 | exactly which requests are refused, for what, and which are carried out |
| LineEdit.SandboxClampsToTheEnd | internal/ext/ops/helpers_domain.go:160-191 | past the last line the sandbox editor appends the content on lines of its own, or replaces all from the start line on; within, it replaces or inserts |
| LineEdit.EditReplacesExactlyTheRange | internal/ext/repo/tools.go:988-1037 | for any text, reading the result back gives the old lines with exactly the range replaced and the same final newline, if and only if such a text can hold those lines |
| LineEdit.EditorsAgree | internal/ext/ops/helpers_domain.go:160-191 | the two editors write the same text for an in-range request if and only if a condition on the request holds |
| LineEdit.EditCanBeUndone | internal/ext/repo/tools.go:988-1037 | for any text, undoing an edit gives it back byte for byte if and only if the block is not one blank line and the edited lines read back |
| Diff.ReadOfRendered | internal/ext/repo/tools.go:832-854 | an independent reader of the patch format recovers any printed hunk |
| Diff.PatchText | internal/ext/repo/tools.go:832-854 | the printed patch, character by character |
| Diff.CommonPrefix | internal/ext/repo/tools.go:835-838 | the lists agree that far from the front and no further |
| Diff.CommonSuffix | internal/ext/repo/tools.go:839-842 | the same from the back, staying clear of the prefix |
| Diff.DiffLines | internal/ext/repo/tools.go:820-858 | the patch is empty exactly for equal texts; otherwise it parses, turns old lines into new ones, and is tight |

## Left out

- Reconcile.RoundHealsExactly: like every result about whole rounds, takes agent session names to hold no NUL character; a name that begins with the tenant and a NUL could shadow another session.
- RevGraph.ViewRevisions: takes every listed snapshot to be readable, because the view dereferences a missing one; the sort by creation time is a parameter, and message, author and time of a node are not modelled.
- Fetch.SelectDelta: the collector is its contract only (every listed revision outside have, with its snapshot); objects are passed through untouched.
- SandboxSync.SandboxServer.SyncWorkspace: takes the push to be all or nothing and syncs of one sandbox not to overlap; boot ids are never reused.
- SandboxSync.RunsAreCoherentExactly: leaves out registrations between a push and its mark, whose harm may never show or show only at the mark; `SandboxSync.RunsKeepSound` has a condition for them.
- Taint.RunsStayBacked: forks from sessions that are no workspace and branches named "@-" are outside it, because both can fail to resolve where there is a revision (`Safety.ForkedSteps`, `Safety.BranchResolves`).
- Retries.RetriedRunsKeepRows: is about rows and repositories only; an orphan branch left by one event can stand where a later event would have started a branch, so branches may differ over several events (`Examples.OrphanInTheWayExample`).
- Agent session creation always succeeds in the model; the client also treats a refusal of the name as success.
- Tags as sources of new branches, branch targets that are names rather than snapshots, and access checks of the branch calls.
- Several tenants, and listings that fail for one repository and make it look branchless.
- Server.Server.HandleLifecycleEvent: the three variables of a session are set as one, and a failing write of them is not modelled.
- The group backfill of the reconciler, which touches agent settings only.
- Delivery of one job's log lines by instance id, and the hub's map from jobs to logs.
- Runner matching and image choice, cancelling runs, presets, workflow files, publishing.
- HTTP and Connect plumbing, NATS, Kubernetes, SQL and GORM: tables are keyed maps with uniqueness errors.
