/** The session/branch mapping protocol: the world the lifecycle handlers work on, the
    single calls they make, and each handler as the sequence of worlds its calls go
    through. One agent tenant is assumed; its name appears only in cache keys. */
module Mapping {
  import opened Wrappers
  import opened Naming

  // ----- the branch store -----

  datatype Revision = Revision(id: string, hash: string)

  /** A repository: branches with the snapshot they point at, the revision log newest
      first, the readable snapshots, and the first parent of the newest revision. */
  datatype Repo = Repo(branches: map<string, string>, log: seq<Revision>, snapshots: set<string>,
    headParent: Option<string>)

  const EMPTY_REPO := Repo(map[], [], {}, None)

  function FindById(log: seq<Revision>, ref: string): Option<string> {
    if log == [] then None
    else if log[0].id == ref then Some(log[0].hash)
    else FindById(log[1..], ref)
  }

  function FindByPrefix(log: seq<Revision>, ref: string): Option<string> {
    if log == [] then None
    else if ref <= log[0].id then Some(log[0].hash)
    else FindByPrefix(log[1..], ref)
  }

  /** What a reference resolves to when a branch is created from it. */
  function Resolve(r: Repo, ref: string): Option<string> {
    if ref == "" || ref == "@" then
      if |r.log| == 0 then None else Some(r.log[0].hash)
    else if ref == "@-" then
      if |r.log| == 0 then None else r.headParent
    else if ref in r.branches then Some(r.branches[ref])
    else if ref in r.snapshots then Some(ref)
    else if FindById(r.log, ref).Some? then FindById(r.log, ref)
    else FindByPrefix(r.log, ref)
  }

  /** A name that stands for its branch wherever there is one. */
  predicate Ordinary(branch: string) {
    branch !in {"", "@", "@-"}
  }

  const CAN_RESOLVE_DEPTH := 200

  /** The client's own test, over the branch list and the newest revisions. */
  predicate CanResolve(r: Repo, rev: string) {
    || (exists b :: b in r.branches && (b == rev || r.branches[b] == rev))
    || (exists i :: 0 <= i < |r.log| && i < CAN_RESOLVE_DEPTH && (r.log[i].id == rev || r.log[i].hash == rev))
  }

  ghost predicate FirstNamed(log: seq<Revision>, i: int, ref: string) {
    0 <= i < |log| && log[i].id == ref && forall j :: 0 <= j < i ==> log[j].id != ref
  }

  ghost predicate FirstPrefixed(log: seq<Revision>, i: int, ref: string) {
    0 <= i < |log| && ref <= log[i].id && forall j :: 0 <= j < i ==> !(ref <= log[j].id)
  }

  lemma {:induction false} FoundByName(log: seq<Revision>, ref: string)
    ensures FindById(log, ref).None? <==> forall i :: 0 <= i < |log| ==> log[i].id != ref
    ensures forall i :: FirstNamed(log, i, ref) ==> FindById(log, ref) == Some(log[i].hash)
  {
    if log != [] && log[0].id != ref {
      FoundByName(log[1..], ref);
      assert forall i :: FirstNamed(log, i, ref) ==> FirstNamed(log[1..], i - 1, ref);
      assert forall i :: 1 <= i < |log| ==> log[i] == log[1..][i - 1];
    }
  }

  lemma {:induction false} FoundByPrefix(log: seq<Revision>, ref: string)
    ensures FindByPrefix(log, ref).None? <==> forall i :: 0 <= i < |log| ==> !(ref <= log[i].id)
    ensures forall i :: FirstPrefixed(log, i, ref) ==> FindByPrefix(log, ref) == Some(log[i].hash)
  {
    if log != [] && !(ref <= log[0].id) {
      FoundByPrefix(log[1..], ref);
      assert forall i :: FirstPrefixed(log, i, ref) ==> FirstPrefixed(log[1..], i - 1, ref);
      assert forall i :: 1 <= i < |log| ==> log[i] == log[1..][i - 1];
    }
  }

  /** What a reference means: the newest revision, its parent, a branch, a snapshot, the
      newest revision of that id, or the newest whose id begins so; and when nothing. */
  lemma ReferenceMeans(r: Repo, ref: string)
    ensures ref in {"", "@"} ==> Resolve(r, ref) == if r.log == [] then None else Some(r.log[0].hash)
    ensures ref == "@-" ==> Resolve(r, ref) == if r.log == [] then None else r.headParent
    ensures Ordinary(ref) && ref in r.branches ==> Resolve(r, ref) == Some(r.branches[ref])
    ensures Ordinary(ref) && ref !in r.branches && ref in r.snapshots ==> Resolve(r, ref) == Some(ref)
    ensures Ordinary(ref) && ref !in r.branches && ref !in r.snapshots ==>
      && (forall i :: FirstNamed(r.log, i, ref) ==> Resolve(r, ref) == Some(r.log[i].hash))
      && (forall i :: FirstPrefixed(r.log, i, ref) && (forall j :: 0 <= j < |r.log| ==> r.log[j].id != ref) ==>
            Resolve(r, ref) == Some(r.log[i].hash))
      && (Resolve(r, ref).None? <==> forall i :: 0 <= i < |r.log| ==> !(ref <= r.log[i].id))
  {
    FoundByName(r.log, ref);
    FoundByPrefix(r.log, ref);
  }

  /** What the client looks at: every branch by name and target, and the newest 200
      revisions by id and hash. */
  lemma ClientResolvesExactly(r: Repo, rev: string)
    ensures CanResolve(r, rev) <==>
      || rev in r.branches || rev in r.branches.Values
      || exists i :: 0 <= i < |r.log| && i < 200 && rev in {r.log[i].id, r.log[i].hash}
  {
  }

  // ----- the world -----

  datatype CacheEntry = CacheEntry(key: Key, expires: int)

  datatype World = World(
    repos: map<RepoKey, Repo>,
    rows: map<Key, string>,
    managed: set<RepoKey>,
    sessions: set<string>,
    cache: map<string, CacheEntry>)

  predicate Named(at: RepoKey) {
    at.org != "" && at.repo != ""
  }

  /** The repository listing skips unnamed repositories. */
  predicate Listed(w: World, at: RepoKey) {
    at in w.repos && Named(at)
  }

  predicate BranchExists(w: World, k: Key) {
    Listed(w, k.at) && k.branch in w.repos[k.at].branches
  }

  predicate Mapped(w: World, sid: string) {
    sid in w.rows.Values
  }

  /** A unique key of the mapping table would be violated. */
  predicate InsertConflicts(w: World, k: Key, sid: string) {
    k in w.rows || Mapped(w, sid)
  }

  predicate RenameConflicts(w: World, from: Key, to: Key, sid: string) {
    (to != from && to in w.rows) || exists k :: k in w.rows && k != from && w.rows[k] == sid
  }

  /** "main" if it resolves, else "", which stands for the newest revision. */
  function Anchor(w: World, at: RepoKey): string {
    if at in w.repos && CanResolve(w.repos[at], "main") then "main" else ""
  }

  predicate Resolves(w: World, at: RepoKey, src: string) {
    at in w.repos && Resolve(w.repos[at], src).Some?
  }

  // ----- single calls -----

  datatype Op =
    | EnsureRepo(at: RepoKey)
    | CreateBranch(k: Key, src: string)
    | DeleteBranch(k: Key)
    | InsertRow(k: Key, sid: string)
    | InsertManaged(at: RepoKey)
    | RenameRow(from: Key, to: Key, sid: string)
    | DeleteRow(k: Key)
    | CreateSession(sid: string)
    | CachePut(name: string, entry: CacheEntry)
    | Evict(name: string)

  function Apply(w: World, op: Op): World {
    match op
    case EnsureRepo(at) => if at in w.repos then w else w.(repos := w.repos[at := EMPTY_REPO])
    case CreateBranch(k, src) =>
      // an unresolved source is answered InvalidArgument, which the client ignores
      if k.at !in w.repos || Resolve(w.repos[k.at], src).None? then w
      else
        var r := w.repos[k.at];
        w.(repos := w.repos[k.at := r.(branches := r.branches[k.branch := Resolve(r, src).value])])
    case DeleteBranch(k) =>
      if k.at !in w.repos then w
      else
        var r := w.repos[k.at];
        w.(repos := w.repos[k.at := r.(branches := r.branches - {k.branch})])
    case InsertRow(k, sid) => if InsertConflicts(w, k, sid) then w else w.(rows := w.rows[k := sid])
    case InsertManaged(at) => w.(managed := w.managed + {at})
    case RenameRow(from, to, sid) =>
      if from !in w.rows || RenameConflicts(w, from, to, sid) then w
      else w.(rows := (w.rows - {from})[to := sid])
    case DeleteRow(k) => w.(rows := w.rows - {k})
    case CreateSession(sid) => w.(sessions := w.sessions + {sid})
    case CachePut(name, entry) => w.(cache := w.cache[name := entry])
    case Evict(name) => w.(cache := w.cache - {name})
  }

  // ----- handlers as traces -----

  datatype Reply = Done | Rejected(status: int)

  /** The worlds a handler went through, one more than the calls it made. */
  datatype Trace = Trace(worlds: seq<World>, ops: seq<Op>, reply: Reply)

  predicate IsTrace(t: Trace) {
    |t.worlds| == |t.ops| + 1 &&
    forall i :: 0 <= i < |t.ops| ==> t.worlds[i + 1] == Apply(t.worlds[i], t.ops[i])
  }

  function Start(w: World): Trace {
    Trace([w], [], Done)
  }

  function Final(t: Trace): World
    requires t.worlds != []
  {
    t.worlds[|t.worlds| - 1]
  }

  function Do(t: Trace, op: Op): (r: Trace)
    requires t.worlds != []
    ensures r.worlds != [] && r.worlds[0] == t.worlds[0]
    ensures IsTrace(t) ==> IsTrace(r)
  {
    Trace(t.worlds + [Apply(Final(t), op)], t.ops + [op], t.reply)
  }

  function Reject(t: Trace, status: int): Trace {
    t.(reply := Rejected(status))
  }

  function EnsureBranchT(t: Trace, src: string, k: Key): (r: Trace)
    requires t.worlds != []
    ensures r.worlds != [] && r.worlds[0] == t.worlds[0]
    ensures IsTrace(t) ==> IsTrace(r)
  {
    if BranchExists(Final(t), k) then t
    else if !Listed(Final(t), k.at) then Reject(t, 404)
    else Do(t, CreateBranch(k, src))
  }

  /** Deleting a branch that is not listed makes no call. */
  function DeleteBranchT(t: Trace, k: Key): (r: Trace)
    requires t.worlds != []
    ensures r.worlds != [] && r.worlds[0] == t.worlds[0]
    ensures IsTrace(t) ==> IsTrace(r)
  {
    if BranchExists(Final(t), k) then Do(t, DeleteBranch(k)) else t
  }

  /** On a conflict the row is taken to be bound already and the repository is not
      marked managed. */
  function BindRowT(t: Trace, k: Key, sid: string): (r: Trace)
    requires t.worlds != []
    ensures r.worlds != [] && r.worlds[0] == t.worlds[0]
    ensures IsTrace(t) ==> IsTrace(r)
  {
    if InsertConflicts(Final(t), k, sid) then Do(t, InsertRow(k, sid))
    else Do(Do(t, InsertRow(k, sid)), InsertManaged(k.at))
  }

  function CreatedT(t: Trace, k: Key, sid: string): (r: Trace)
    requires t.worlds != []
    ensures r.worlds != [] && r.worlds[0] == t.worlds[0]
    ensures IsTrace(t) ==> IsTrace(r)
  {
    if Mapped(Final(t), sid) then t
    else
      var t1 := Do(t, EnsureRepo(k.at));
      var t2 := EnsureBranchT(t1, Anchor(Final(t1), k.at), k);
      if t2.reply.Rejected? then t2 else BindRowT(t2, k, sid)
  }

  function ForkedT(t: Trace, k: Key, sid: string, parentSid: string): (r: Trace)
    requires t.worlds != []
    ensures r.worlds != [] && r.worlds[0] == t.worlds[0]
    ensures IsTrace(t) ==> IsTrace(r)
  {
    if Mapped(Final(t), sid) then t
    else
      match ParseSession(parentSid)
      case None => ForkFromT(t, k, sid, "main")
      case Some(p) =>
        if p.at != k.at then Reject(t, 400)
        else
          var t1 := if p in Final(t).rows then t else CreatedT(t, p, parentSid);
          if t1.reply.Rejected? then t1 else ForkFromT(t1, k, sid, p.branch)
  }

  function ForkFromT(t: Trace, k: Key, sid: string, src: string): (r: Trace)
    requires t.worlds != []
    ensures r.worlds != [] && r.worlds[0] == t.worlds[0]
    ensures IsTrace(t) ==> IsTrace(r)
  {
    var t1 := EnsureBranchT(t, src, k);
    if t1.reply.Rejected? then t1 else BindRowT(t1, k, sid)
  }

  function RenamedT(t: Trace, fromSid: string, toSid: string): (r: Trace)
    requires t.worlds != []
    ensures r.worlds != [] && r.worlds[0] == t.worlds[0]
    ensures IsTrace(t) ==> IsTrace(r)
  {
    var from, to := ParseSession(fromSid), ParseSession(toSid);
    if from.None? || to.None? then Reject(t, 400)
    else if from.value.at != to.value.at then Reject(t, 400)
    else if from.value !in Final(t).rows then CreatedT(t, to.value, toSid)
    else RenameRowT(EnsureBranchT(t, from.value.branch, to.value), from.value, to.value, fromSid, toSid)
  }

  function RenameRowT(t: Trace, from: Key, to: Key, fromSid: string, toSid: string): (r: Trace)
    requires t.worlds != []
    ensures r.worlds != [] && r.worlds[0] == t.worlds[0]
    ensures IsTrace(t) ==> IsTrace(r)
  {
    if t.reply.Rejected? then t
    else if RenameConflicts(Final(t), from, to, toSid) then Do(t, RenameRow(from, to, toSid))
    else DeleteBranchT(Do(Do(t, RenameRow(from, to, toSid)), Evict(fromSid)), from)
  }

  function DeletedT(t: Trace, sid: string): (r: Trace)
    requires t.worlds != []
    ensures r.worlds != [] && r.worlds[0] == t.worlds[0]
    ensures IsTrace(t) ==> IsTrace(r)
  {
    match ParseSession(sid)
    case None => Reject(t, 400)
    case Some(k) =>
      if !Mapped(Final(t), sid) then t
      else Do(Do(DeleteBranchT(t, k), DeleteRow(k)), Evict(sid))
  }

  datatype LifecycleEvent =
    | Created(sid: string)
    | Forked(sid: string, parent: string)
    | Renamed(from: string, to: string)
    | Deleted(sid: string)
    | Unknown(kind: string)

  function EventT(t: Trace, ev: LifecycleEvent): (r: Trace)
    requires t.worlds != []
    ensures r.worlds != [] && r.worlds[0] == t.worlds[0]
    ensures IsTrace(t) ==> IsTrace(r)
  {
    var t0 := t.(reply := Done);
    match ev
    case Created(sid) =>
      if ParseSession(sid).None? then Reject(t0, 400) else CreatedT(t0, ParseSession(sid).value, sid)
    case Forked(sid, parent) =>
      if ParseSession(sid).None? then Reject(t0, 400) else ForkedT(t0, ParseSession(sid).value, sid, parent)
    case Renamed(from, to) => RenamedT(t0, from, to)
    case Deleted(sid) => DeletedT(t0, sid)
    case Unknown(_) => Reject(t0, 400)
  }

  /** One delivery of an event, from its first world to its last. */
  function Deliver(w: World, ev: LifecycleEvent): (t: Trace)
    ensures t.worlds != [] && t.worlds[0] == w && IsTrace(t)
  {
    EventT(Start(w), ev)
  }

  /** The process dies and comes back: only its cache is lost. */
  function Crash(w: World): World {
    w.(cache := map[])
  }

  // ----- binding an existing branch, and starting a subsession -----

  /** A row for the branch ends it; otherwise the branch has to exist, and it is bound
      without marking the repository managed. */
  function AdoptT(t: Trace, k: Key): (r: Trace)
    requires t.worlds != []
    ensures r.worlds != [] && r.worlds[0] == t.worlds[0]
    ensures IsTrace(t) ==> IsTrace(r)
  {
    if k in Final(t).rows then t
    else if !Listed(Final(t), k.at) then Reject(t, 404)
    else if !BranchExists(Final(t), k) then Reject(t, 404)
    else
      var t1 := Do(t, CreateSession(NamingSession(k)));
      var t2 := Do(t1, InsertRow(k, NamingSession(k)));
      if InsertConflicts(Final(t1), k, NamingSession(k)) then Reject(t2, 409) else t2
  }

  /** A subsession asked for by the session of `base`. */
  datatype Subrequest = Subrequest(base: Key, defaultBranch: string, branch: string, prompt: string)

  /** How the agent answers: a session listing that fails skips one check, and the prompt
      is sent once everything else is done. */
  datatype AgentMood = AgentMood(lists: bool, takesPrompt: bool)

  /** From the session of the default branch: a new branch, its session, its row. */
  function SubsessionT(t: Trace, req: Subrequest, agent: AgentMood): (r: Trace)
    requires t.worlds != []
    ensures r.worlds != [] && r.worlds[0] == t.worlds[0]
    ensures IsTrace(t) ==> IsTrace(r)
  {
    var k := Key(req.base.at, req.branch);
    if req.prompt == "" || !ValidSessionComponent(req.branch) then Reject(t, 400)
    else if req.base.branch != (if req.defaultBranch == "" then "main" else req.defaultBranch) then Reject(t, 403)
    else if BranchExists(Final(t), k) then Reject(t, 409)
    else if agent.lists && NamingSession(k) in Final(t).sessions then Reject(t, 409)
    else
      var t1 := EnsureBranchT(t, req.base.branch, k);
      if t1.reply.Rejected? then t1
      else
        var t2 := BindRowT(Do(t1, CreateSession(NamingSession(k))), k, NamingSession(k));
        if agent.takesPrompt then t2 else Reject(t2, 502)
  }

  // ----- the reconciler's two passes -----

  /** The row of a managed repository whose branch is gone, or whose session is not in the
      listing, is deleted and its session evicted. */
  function DropDeadT(t: Trace, k: Key, live: set<string>): (r: Trace)
    requires t.worlds != []
    ensures r.worlds != [] && r.worlds[0] == t.worlds[0]
    ensures IsTrace(t) ==> IsTrace(r)
  {
    var w := Final(t);
    if k !in w.rows || k.at !in w.managed || (BranchExists(w, k) && w.rows[k] in live) then t
    else Do(Do(t, DeleteRow(k)), Evict(w.rows[k]))
  }

  /** The drift pass, over the rows in the order they come. */
  function DriftT(t: Trace, order: seq<Key>, live: set<string>): (r: Trace)
    requires t.worlds != []
    ensures r.worlds != [] && r.worlds[0] == t.worlds[0]
    ensures IsTrace(t) ==> IsTrace(r)
  {
    if order == [] then t else DropDeadT(DriftT(t, order[..|order| - 1], live), order[|order| - 1], live)
  }

  /** A session that spells a triple gets its workspace; a refusal is passed over. */
  function FillT(t: Trace, name: string, mapped: set<string>): (r: Trace)
    requires t.worlds != []
    ensures r.worlds != [] && r.worlds[0] == t.worlds[0]
    ensures IsTrace(t) ==> IsTrace(r)
  {
    if name in mapped || ParseSession(name).None? then t
    else CreatedT(t.(reply := Done), ParseSession(name).value, name)
  }

  /** The backfill, over the session names in the order the map iteration gives them. */
  function BackfillT(t: Trace, order: seq<string>, mapped: set<string>): (r: Trace)
    requires t.worlds != []
    ensures r.worlds != [] && r.worlds[0] == t.worlds[0]
    ensures IsTrace(t) ==> IsTrace(r)
  {
    if order == [] then t else FillT(BackfillT(t, order[..|order| - 1], mapped), order[|order| - 1], mapped)
  }
}
