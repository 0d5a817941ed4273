/** The repository extension's server object: its mapping table and cache beside the
    branch store and the agent's sessions it calls into. Every method is proved against
    the trace of calls that specifies it. */
module Server {
  import opened Text
  import opened Wrappers
  import opened Naming
  import opened Mapping
  import opened Keys
  import opened Stages
  import opened Reconcile

  /** What the table answers to a row's update. */
  datatype RenameReply = RowMoved | RowConflict | RowNotFound

  /** The agent's variables of each session, a projection of the mapping table. */
  class SessionVars {
    var vars: map<string, Key>

    constructor ()
      ensures vars == map[] && NamedVars()
    {
      vars := map[];
    }

    /** What is projected for a session is named by it. */
    ghost predicate NamedVars()
      reads this
    {
      forall sid :: sid in vars ==> NamingSession(vars[sid]) == sid
    }
  }

  class Server {
    var repos: map<RepoKey, Repo>
    var rows: map<Key, string>
    var managed: set<RepoKey>
    var sessions: set<string>
    var cache: map<string, CacheEntry>
    const ttl: int
    /** The worlds and calls so far. */
    ghost var trace: Trace

    function Now(): World
      reads this
    {
      World(repos, rows, managed, sessions, cache)
    }

    ghost predicate Valid()
      reads this
    {
      trace.worlds != [] && Final(trace) == Now() && IsTrace(trace) && AllNamed(trace) && Ordered(Now())
    }

    constructor (ttl: int)
      ensures Valid() && this.ttl == ttl && trace == Start(World(map[], map[], {}, {}, map[]))
    {
      this.ttl := ttl;
      repos, rows, managed, sessions, cache := map[], map[], {}, {}, map[];
      trace := Start(World(map[], map[], {}, {}, map[]));
    }

    // ----- single calls -----

    ghost method Note(op: Op)
      requires trace.worlds != [] && IsTrace(trace) && AllNamed(trace) && Ordered(Final(trace)) && NamedOp(op)
      requires Now() == Apply(Final(trace), op)
      modifies this`trace
      ensures Valid() && trace == Do(old(trace), op)
    {
      NamedOpKeepsOrder(Final(trace), op);
      DoIsNamed(trace, op);
      trace := Do(trace, op);
    }

    method CallEnsureRepo(at: RepoKey)
      requires Valid()
      modifies this
      ensures Valid() && trace == Do(old(trace), Op.EnsureRepo(at))
    {
      if at !in repos {
        repos := repos[at := EMPTY_REPO];
      }
      Note(Op.EnsureRepo(at));
    }

    /** InvalidArgument, the answer to a source that does not resolve, is ignored. */
    method CallCreateBranch(k: Key, src: string)
      requires Valid()
      modifies this
      ensures Valid() && trace == Do(old(trace), CreateBranch(k, src))
    {
      if k.at in repos {
        var target := Resolve(repos[k.at], src);
        if target.Some? {
          repos := repos[k.at := repos[k.at].(branches := repos[k.at].branches[k.branch := target.value])];
        }
      }
      Note(CreateBranch(k, src));
    }

    method CallDeleteBranch(k: Key)
      requires Valid()
      modifies this
      ensures Valid() && trace == Do(old(trace), Op.DeleteBranch(k))
    {
      if k.at in repos {
        repos := repos[k.at := repos[k.at].(branches := repos[k.at].branches - {k.branch})];
      }
      Note(Op.DeleteBranch(k));
    }

    method GetRowBySession(sid: string) returns (row: Option<Key>)
      ensures row.Some? <==> Mapped(Now(), sid)
      ensures row.Some? ==> row.value in rows && rows[row.value] == sid
    {
      row := None;
      if sid in rows.Values {
        var k :| k in rows && rows[k] == sid;
        row := Some(k);
      }
    }

    /** False on a violated unique key: the row of the triple or of the session is there. */
    method InsertRow(k: Key, sid: string) returns (inserted: bool)
      requires Valid() && sid == NamingSession(k)
      modifies this
      ensures Valid() && trace == Do(old(trace), Op.InsertRow(k, sid))
      ensures inserted <==> k !in old(rows) && sid !in old(rows).Values
      ensures rows == if inserted then old(rows)[k := sid] else old(rows)
    {
      inserted := k !in rows && sid !in rows.Values;
      if inserted {
        rows := rows[k := sid];
      }
      Note(Op.InsertRow(k, sid));
    }

    method InsertManaged(at: RepoKey)
      requires Valid()
      modifies this
      ensures Valid() && trace == Do(old(trace), Op.InsertManaged(at))
    {
      managed := managed + {at};
      Note(Op.InsertManaged(at));
    }

    /** No row to move is reported before any conflict: nothing is updated then. */
    method RenameRow(from: Key, to: Key, sid: string) returns (reply: RenameReply)
      requires Valid() && sid == NamingSession(to)
      modifies this
      ensures Valid() && trace == Do(old(trace), Op.RenameRow(from, to, sid))
      ensures reply.RowNotFound? <==> from !in old(rows)
      ensures reply.RowConflict? <==> (from in old(rows)
        && ((to != from && to in old(rows)) || exists k :: k in old(rows) && k != from && old(rows)[k] == sid))
      ensures rows == if reply.RowMoved? then (old(rows) - {from})[to := sid] else old(rows)
    {
      if from !in rows {
        reply := RowNotFound;
      } else if (to != from && to in rows) || exists k :: k in rows && k != from && rows[k] == sid {
        reply := RowConflict;
      } else {
        rows := (rows - {from})[to := sid];
        reply := RowMoved;
      }
      Note(Op.RenameRow(from, to, sid));
    }

    method DeleteRow(k: Key)
      requires Valid()
      modifies this
      ensures Valid() && trace == Do(old(trace), Op.DeleteRow(k))
    {
      rows := rows - {k};
      Note(Op.DeleteRow(k));
    }

    method Evict(name: string)
      requires Valid()
      modifies this
      ensures Valid() && trace == Do(old(trace), Op.Evict(name))
    {
      cache := cache - {name};
      Note(Op.Evict(name));
    }

    method CreateRepoSession(k: Key)
      requires Valid()
      modifies this
      ensures Valid() && trace == Do(old(trace), CreateSession(NamingSession(k)))
    {
      sessions := sessions + {NamingSession(k)};
      Note(CreateSession(NamingSession(k)));
    }

    ghost method Refuse(status: int)
      requires Valid()
      modifies this`trace
      ensures Valid() && trace == Reject(old(trace), status)
    {
      trace := Reject(trace, status);
    }

    ghost method BeginStep()
      requires Valid()
      modifies this`trace
      ensures Valid() && trace == old(trace).(reply := Done)
    {
      trace := trace.(reply := Done);
    }

    // ----- client steps made of several calls -----

    method EnsureBranch(src: string, k: Key) returns (reply: Reply)
      requires Valid() && trace.reply.Done?
      modifies this
      ensures Valid() && trace == EnsureBranchT(old(trace), src, k) && reply == trace.reply
    {
      if BranchExists(Now(), k) {
        return Done;
      }
      if !Listed(Now(), k.at) {
        Refuse(404);
        return Rejected(404);
      }
      CallCreateBranch(k, src);
      reply := Done;
    }

    method DeleteBranch(k: Key)
      requires Valid()
      modifies this
      ensures Valid() && trace == DeleteBranchT(old(trace), k)
    {
      if !BranchExists(Now(), k) {
        return;
      }
      CallDeleteBranch(k);
    }

    method BindRow(k: Key, sid: string)
      requires Valid() && sid == NamingSession(k)
      modifies this
      ensures Valid() && trace == BindRowT(old(trace), k, sid)
    {
      var inserted := InsertRow(k, sid);
      if !inserted {
        return;
      }
      InsertManaged(k.at);
    }

    // ----- lifecycle events -----

    method EnsureCreated(k: Key, sid: string) returns (reply: Reply)
      requires Valid() && trace.reply.Done? && sid == NamingSession(k)
      modifies this
      ensures Valid() && trace == CreatedT(old(trace), k, sid) && reply == trace.reply
    {
      var row := GetRowBySession(sid);
      if row.Some? {
        return Done;
      }
      CallEnsureRepo(k.at);
      var anchor := "main";
      if k.at !in repos || !CanResolve(repos[k.at], anchor) {
        anchor := "";
      }
      reply := EnsureBranch(anchor, k);
      if reply.Rejected? {
        return;
      }
      BindRow(k, sid);
    }

    method EnsureForked(k: Key, sid: string, parentSid: string) returns (reply: Reply)
      requires Valid() && trace.reply.Done? && sid == NamingSession(k)
      modifies this
      ensures Valid() && trace == ForkedT(old(trace), k, sid, parentSid) && reply == trace.reply
    {
      hide CreatedT, BindRowT, EnsureBranchT, Split, Ordered;
      var row := GetRowBySession(sid);
      if row.Some? {
        return Done;
      }
      NamingOfParsed(parentSid);
      var parentBranch := "main";
      var p := ParseSession(parentSid);
      if p.Some? {
        if p.value.at != k.at {
          Refuse(400);
          return Rejected(400);
        }
        parentBranch := p.value.branch;
        if p.value !in rows {
          reply := EnsureCreated(p.value, parentSid);
          if reply.Rejected? {
            return;
          }
        }
      }
      reply := EnsureBranch(parentBranch, k);
      if reply.Rejected? {
        return;
      }
      BindRowKeepsReply(trace, k, sid);
      BindRow(k, sid);
    }

    method EnsureRenamed(fromSid: string, toSid: string) returns (reply: Reply)
      requires Valid() && trace.reply.Done?
      modifies this
      ensures Valid() && trace == RenamedT(old(trace), fromSid, toSid) && reply == trace.reply
    {
      hide CreatedT, EnsureBranchT, Split, DeleteBranchT, Apply, Ordered;
      NamingOfParsed(toSid);
      var from, to := ParseSession(fromSid), ParseSession(toSid);
      if from.None? || to.None? || from.value.at != to.value.at {
        Refuse(400);
        return Rejected(400);
      }
      if from.value !in rows {
        reply := EnsureCreated(to.value, toSid);
        return;
      }
      EnsureBranchKeepsRows(trace, from.value.branch, to.value);
      reply := EnsureBranch(from.value.branch, to.value);
      if reply.Rejected? {
        return;
      }
      var moved := RenameRow(from.value, to.value, toSid);
      if moved.RowConflict? {
        return Done;
      }
      Evict(fromSid);
      DeleteBranchKeepsReply(trace, from.value);
      DeleteBranch(from.value);
      reply := Done;
    }

    method EnsureDeleted(sid: string) returns (reply: Reply)
      requires Valid() && trace.reply.Done?
      modifies this
      ensures Valid() && trace == DeletedT(old(trace), sid) && reply == trace.reply
    {
      hide DeleteBranchT, Split, Apply, Ordered;
      var k := ParseSession(sid);
      if k.None? {
        Refuse(400);
        return Rejected(400);
      }
      var row := GetRowBySession(sid);
      if row.None? {
        return Done;
      }
      DeleteBranchKeepsReply(trace, k.value);
      DeleteBranch(k.value);
      DeleteRow(k.value);
      Evict(sid);
      reply := Done;
    }

    /** Mirrors the event, then projects the session it left mapped, or clears what it
        unmapped; a refused event is not projected. `to` is the field a fork may carry
        besides, "" for none. */
    method HandleLifecycleEvent(ev: LifecycleEvent, to: string, ext: SessionVars, now: int) returns (reply: Reply)
      requires Valid() && ext.NamedVars()
      modifies this, ext
      ensures Valid() && ext.NamedVars() && reply == EventT(old(trace), ev).reply
      ensures trace == ProjectedT(EventT(old(trace), ev), ev, to, now, ttl)
      ensures ext.vars == Projected(old(ext.vars), EventT(old(trace), ev), ev, to, now)
    {
      hide EventT, Ordered, Keys.ResolveSession;
      reply := Mirror(ev);
      if reply.Rejected? {
        return;
      }
      if ev.Deleted? {
        ext.vars := ext.vars - {ev.sid};
      } else {
        PublishSessionVars(ext, Shown(ev, to), now);
      }
    }

    method PublishSessionVars(ext: SessionVars, sid: string, now: int)
      requires Valid() && ext.NamedVars()
      modifies this, ext
      ensures Valid() && ext.NamedVars() && trace == ResolveT(old(trace), sid, now, ttl)
      ensures ext.vars == Published(old(ext.vars), old(Now()), sid, now)
    {
      hide Ordered;
      ghost var before := Now();
      var r := ResolveSession(sid, now);
      if r.Resolved? {
        ResolvedIsTheParse(before, sid, now);
        ext.vars := ext.vars[sid := r.key];
      }
    }

    method Mirror(ev: LifecycleEvent) returns (reply: Reply)
      requires Valid()
      modifies this
      ensures Valid() && trace == EventT(old(trace), ev) && reply == trace.reply
    {
      hide CreatedT, ForkedT, RenamedT, DeletedT, Split, Ordered;
      BeginStep();
      match ev
      case Created(sid) =>
        NamingOfParsed(sid);
        if ParseSession(sid).None? { Refuse(400); return Rejected(400); }
        reply := EnsureCreated(ParseSession(sid).value, sid);
      case Forked(sid, parent) =>
        NamingOfParsed(sid);
        if ParseSession(sid).None? { Refuse(400); return Rejected(400); }
        reply := EnsureForked(ParseSession(sid).value, sid, parent);
      case Renamed(from, to) => reply := EnsureRenamed(from, to);
      case Deleted(sid) => reply := EnsureDeleted(sid);
      case Unknown(_) => Refuse(400); reply := Rejected(400);
    }

    // ----- adoption, subsessions, resolution -----

    method AdoptBranch(k: Key) returns (reply: Reply)
      requires Valid() && trace.reply.Done?
      modifies this
      ensures Valid() && trace == AdoptT(old(trace), k) && reply == trace.reply
    {
      hide Apply, Ordered;
      if k in rows {
        return Done;
      }
      if !Listed(Now(), k.at) || !BranchExists(Now(), k) {
        Refuse(404);
        return Rejected(404);
      }
      CreateRepoSession(k);
      var inserted := InsertRow(k, NamingSession(k));
      if !inserted {
        Refuse(409);
        return Rejected(409);
      }
      reply := Done;
    }

    method CreateSubsession(req: Subrequest, agent: AgentMood) returns (reply: Reply)
      requires Valid() && trace.reply.Done?
      modifies this
      ensures Valid() && trace == SubsessionT(old(trace), req, agent) && reply == trace.reply
    {
      hide ValidSessionComponent, EnsureBranchT, BindRowT, Ordered;
      var child := Key(req.base.at, req.branch);
      if req.prompt == "" || !ValidSessionComponent(req.branch) {
        Refuse(400);
        return Rejected(400);
      }
      if req.base.branch != (if req.defaultBranch == "" then "main" else req.defaultBranch) {
        Refuse(403);
        return Rejected(403);
      }
      if BranchExists(Now(), child) || (agent.lists && NamingSession(child) in sessions) {
        Refuse(409);
        return Rejected(409);
      }
      reply := EnsureBranch(req.base.branch, child);
      if reply.Rejected? {
        return;
      }
      CreateRepoSession(child);
      BindRowKeepsReply(trace, child, NamingSession(child));
      BindRow(child, NamingSession(child));
      if !agent.takesPrompt {
        Refuse(502);
        return Rejected(502);
      }
    }

    method ResolveSession(sid: string, now: int) returns (r: Resolution)
      requires Valid()
      modifies this
      ensures Valid() && r == Keys.ResolveSession(old(Now()), sid, now)
      ensures trace == ResolveT(old(trace), sid, now, ttl)
    {
      var name := CacheName(sid);
      if name in cache && now <= cache[name].expires {
        return Resolved(cache[name].key);
      }
      var row := GetRowBySession(sid);
      if row.None? {
        return if ParseSession(sid).None? then BadName else NotReady;
      }
      assert rows[RowBySession(Now(), sid).value] == sid;
      r := Resolved(row.value);
      cache := cache[name := CacheEntry(row.value, now + ttl)];
      Note(CachePut(name, CacheEntry(row.value, now + ttl)));
    }

    // ----- the reconciler -----

    /** Unmaps a row of a managed repository whose branch or session is gone. */
    method DropIfDead(k: Key, live: set<string>)
      requires Valid() && live == sessions && k in rows && k.at in managed
      modifies this
      ensures Valid() && SameStore(Now(), old(Now())) && trace == DropDeadT(old(trace), k, live)
      ensures rows == if RowLives(old(Now()), k) then old(rows) else old(rows) - {k}
    {
      hide Ordered, IsTrace, AllNamed, BranchExists;
      var sid := rows[k];
      if !BranchExists(Now(), k) || sid !in live {
        DeleteRow(k);
        Evict(sid);
      }
    }

    /** Deletes the dead rows of one managed repository. */
    method ConvergeRepo(at: RepoKey, live: set<string>) returns (ghost order: seq<Key>)
      requires Valid() && live == sessions && at in managed
      modifies this
      ensures Valid() && SameStore(Now(), old(Now())) && trace == DriftT(old(trace), order, live)
      ensures rows == Without(old(Now()), {at})
    {
      hide Ordered, IsTrace, AllNamed, BranchExists, DropDeadT;
      ghost var start := Now();
      var todo := set k | k in rows && k.at == at;
      ghost var all := todo;
      order := [];
      while todo != {}
        invariant Valid() && SameStore(Now(), start) && todo <= all
        invariant rows == WithoutKeys(start, all - todo)
        invariant trace == DriftT(old(trace), order, live)
      {
        var k :| k in todo;
        WithoutOneMore(start, all - todo, k, Now());
        assert all - (todo - {k}) == all - todo + {k};
        todo := todo - {k};
        DropIfDead(k, live);
        assert (order + [k])[..|order|] == order;
        order := order + [k];
      }
      assert rows == WithoutKeys(start, all);
    }

    /** Deletes the dead rows of every managed repository, in the order they come. */
    method ConvergeDrift(live: set<string>) returns (ghost order: seq<Key>)
      requires Valid() && live == sessions
      modifies this
      ensures Valid() && SameButCache(Now(), Drifted(old(Now()))) && trace == DriftT(old(trace), order, live)
    {
      hide Ordered, IsTrace, AllNamed, BranchExists, DriftT;
      ghost var start := Now();
      var todo := managed;
      order := [];
      assert rows == Without(start, managed - todo);
      DriftOfNothing(trace, live);
      while todo != {}
        invariant Valid() && SameStore(Now(), start) && todo <= managed
        invariant rows == Without(start, managed - todo)
        invariant trace == DriftT(old(trace), order, live)
      {
        var at :| at in todo;
        WithoutMore(start, managed - todo, at, Now());
        assert managed - (todo - {at}) == managed - todo + {at};
        todo := todo - {at};
        ghost var more := ConvergeRepo(at, live);
        DriftInParts(old(trace), order, more, live);
        order := order + more;
      }
      assert managed - todo == start.managed;
      WithoutManagedIsDrifted(start);
    }

    /** A session that spells a triple gets its workspace; a refusal is passed over. */
    method BackfillOne(name: string, mapped: set<string>)
      requires Valid()
      modifies this
      ensures Valid() && Now() == FilledIn(old(Now()), name, mapped) && trace == FillT(old(trace), name, mapped)
    {
      hide CreatedT, CreatedEnd, Ordered, Split, IsTrace, AllNamed;
      var k := ParseSession(name);
      if name in mapped || k.None? {
        return;
      }
      NamingOfParsed(name);
      BeginStep();
      CreatedPasses(trace, k.value, name);
      var _ := EnsureCreated(k.value, name);
    }

    /** Goes through the live sessions in whatever order the map gives them. */
    method BackfillWorkspaces(live: set<string>) returns (ghost order: seq<string>)
      requires Valid()
      modifies this
      ensures Valid() && Enumerates(order, live)
      ensures Now() == Backfilled(old(Now()), order, MappedNames(old(Now())))
      ensures trace == BackfillT(old(trace), order, MappedNames(old(Now())))
    {
      hide Ordered, IsTrace, AllNamed, FilledIn, FillT;
      ghost var start := Now();
      var mapped := set k | k in rows :: CacheName(rows[k]);
      assert mapped == MappedNames(start);
      order := [];
      var todo := live;
      while todo != {}
        invariant Valid() && todo <= live
        invariant Enumerates(order, live - todo)
        invariant Now() == Backfilled(start, order, mapped) && trace == BackfillT(old(trace), order, mapped)
      {
        var name :| name in todo;
        BackfillOne(name, mapped);
        assert (order + [name])[..|order|] == order;
        OneMore(order, live - todo, name);
        assert live - (todo - {name}) == live - todo + {name};
        order := order + [name];
        todo := todo - {name};
      }
      assert live - todo == live;
    }

    /** One successful round: drop, then backfill, against one listing of the sessions. */
    method ReconcileOnce() returns (ghost rowOrder: seq<Key>, ghost order: seq<string>)
      requires Valid()
      modifies this
      ensures Valid() && Round(old(Now()), Now())
      ensures var drifted := DriftT(old(trace), rowOrder, old(sessions));
        trace == BackfillT(drifted, order, MappedNames(Final(drifted)))
    {
      hide Backfilled, Drifted, DriftT, BackfillT;
      var live := sessions;
      ghost var start := Now();
      rowOrder := ConvergeDrift(live);
      ghost var drifted := Now();
      assert sessions == live by {
        DriftKeepsSessions(start, drifted);
      }
      order := BackfillWorkspaces(live);
      MappedByRows(drifted, Drifted(start));
      BackfillIgnoresCache(drifted, Drifted(start), order, MappedNames(drifted));
    }
  }

  lemma DriftOfNothing(t: Trace, live: set<string>)
    requires t.worlds != []
    ensures DriftT(t, [], live) == t
  {
  }

  lemma {:induction false} DriftInParts(t: Trace, a: seq<Key>, b: seq<Key>, live: set<string>)
    requires t.worlds != []
    ensures DriftT(t, a + b, live) == DriftT(DriftT(t, a, live), b, live)
  {
    hide DropDeadT;
    if b == [] {
      assert a + b == a;
    } else {
      var n := |b| - 1;
      DriftInParts(t, a, b[..n], live);
      assert (a + b)[..|a + b| - 1] == a + b[..n];
    }
  }

  /** The session an event leaves mapped. */
  function Subject(ev: LifecycleEvent): string {
    match ev
    case Created(sid) => sid
    case Forked(sid, _) => sid
    case Renamed(_, to) => to
    case Deleted(sid) => sid
    case Unknown(_) => ""
  }

  /** The session whose variables are published: a fork may name another one. */
  function Shown(ev: LifecycleEvent, to: string): string {
    if ev.Forked? && to != "" then to else Subject(ev)
  }

  ghost function Published(vars: map<string, Key>, w: World, sid: string, now: int): map<string, Key> {
    var r := Keys.ResolveSession(w, sid, now);
    if r.Resolved? then vars[sid := r.key] else vars
  }

  /** The variables after an event whose handler went through `t`. */
  ghost function Projected(vars: map<string, Key>, t: Trace, ev: LifecycleEvent, to: string, now: int): map<string, Key>
    requires t.worlds != []
  {
    if t.reply.Rejected? then vars
    else if ev.Deleted? then vars - {ev.sid}
    else Published(vars, Final(t), Shown(ev, to), now)
  }

  /** The calls of the projection after those of the handler. */
  ghost function ProjectedT(t: Trace, ev: LifecycleEvent, to: string, now: int, ttl: int): Trace
    requires t.worlds != []
  {
    if t.reply.Rejected? || ev.Deleted? then t else ResolveT(t, Shown(ev, to), now, ttl)
  }

  /** `after` shows the session's triple, if it resolves in `w`, and all else as before. */
  ghost predicate Shows(after: map<string, Key>, vars: map<string, Key>, w: World, sid: string, now: int) {
    && (forall other :: other != sid ==> (other in after <==> other in vars))
    && (forall other :: other != sid && other in vars ==> after[other] == vars[other])
    && match Keys.ResolveSession(w, sid, now)
       case Resolved(k) => sid in after && after[sid] == k
       case _ => (sid in after <==> sid in vars) && (sid in vars ==> after[sid] == vars[sid])
  }

  /** What every answered event does to the variables: nothing if it was refused; a
      deletion clears its own session's, whatever the cache still answers, and looks
      nothing up; the others show one session, by one look-up. */
  lemma ProjectionDoes(t: Trace, ev: LifecycleEvent, to: string, vars: map<string, Key>, now: int, ttl: int)
    requires t.worlds != []
    ensures var after, calls := Projected(vars, t, ev, to, now), ProjectedT(t, ev, to, now, ttl);
      && (t.reply.Rejected? ==> after == vars && calls == t)
      && (t.reply.Done? ==>
            match ev
            case Created(sid) => Shows(after, vars, Final(t), sid, now) && calls == ResolveT(t, sid, now, ttl)
            case Forked(sid, _) =>
              var shown := if to == "" then sid else to;
              Shows(after, vars, Final(t), shown, now) && calls == ResolveT(t, shown, now, ttl)
            case Renamed(_, toSid) => Shows(after, vars, Final(t), toSid, now) && calls == ResolveT(t, toSid, now, ttl)
            case Deleted(sid) => after == vars - {sid} && calls == t
            case Unknown(_) => true)
  {
    hide Keys.ResolveSession, ResolveT;
  }

  lemma TailBinds(t: Trace, k: Key, sid: string, src: string)
    requires t.worlds != [] && t.reply.Done? && ForkFromT(t, k, sid, src).reply.Done?
    ensures k in Final(ForkFromT(t, k, sid, src)).rows || Mapped(Final(ForkFromT(t, k, sid, src)), sid)
  {
    hide Resolve;
  }

  lemma CreationBinds(t: Trace, k: Key, sid: string)
    requires t.worlds != [] && t.reply.Done? && CreatedT(t, k, sid).reply.Done?
    ensures k in Final(CreatedT(t, k, sid)).rows || Mapped(Final(CreatedT(t, k, sid)), sid)
  {
    hide ForkFromT, Anchor;
    if !Mapped(Final(t), sid) {
      var t1 := Do(t, EnsureRepo(k.at));
      CreationIsATail(t, k, sid);
      TailBinds(t1, k, sid, Anchor(Final(t1), k.at));
    }
  }

  lemma ForkBinds(w: World, k: Key, sid: string, parent: string)
    ensures var t := ForkedT(Start(w), k, sid, parent);
      t.reply.Done? ==> k in Final(t).rows || Mapped(Final(t), sid)
  {
    hide ForkFromT, CreatedT;
    if !Mapped(w, sid) && ForkedT(Start(w), k, sid, parent).reply.Done? {
      match ParseSession(parent)
      case None => TailBinds(Start(w), k, sid, "main");
      case Some(p) =>
        TailBinds(if p in w.rows then Start(w) else CreatedT(Start(w), p, parent), k, sid, p.branch);
    }
  }

  lemma RenameBinds(w: World, from: Key, to: Key, fromSid: string, toSid: string)
    requires from in w.rows && from.at == to.at
    requires RenameRowT(EnsureBranchT(Start(w), from.branch, to), from, to, fromSid, toSid).reply.Done?
    ensures var after := Final(RenameRowT(EnsureBranchT(Start(w), from.branch, to), from, to, fromSid, toSid));
      to in after.rows || Mapped(after, toSid)
  {
    hide Resolve;
    var b := Branched(w, to, from.branch);
    if RenameConflicts(b, from, to, toSid) && !(to != from && to in b.rows) {
      var k :| k in b.rows && k != from && b.rows[k] == toSid;
    }
  }

  /** An event that is not refused leaves its session mapped, and the variables it
      publishes, its session's unless a fork names another, spell their session's name,
      whatever the cache answers. */
  lemma ProjectionSpellsTheName(w: World, ev: LifecycleEvent, to: string, vars: map<string, Key>, now: int)
    requires Ordered(w) && (ev.Created? || ev.Forked? || ev.Renamed?) && Deliver(w, ev).reply.Done?
    ensures ParseSession(Subject(ev)).Some?
    ensures Keys.ResolveSession(Final(Deliver(w, ev)), Subject(ev), now) == Resolved(ParseSession(Subject(ev)).value)
    ensures var after, shown := Projected(vars, Deliver(w, ev), ev, to, now), Shown(ev, to);
      && (shown == Subject(ev) ==> shown in after && Some(after[shown]) == ParseSession(shown))
      && (after != vars ==> shown in after && NamingSession(after[shown]) == shown)
      && forall sid :: sid in vars && sid != shown ==> sid in after && after[sid] == vars[sid]
  {
    hide ForkedT, CreatedT, RenameRowT, EnsureBranchT, Ordered;
    var t := Deliver(w, ev);
    EventsAreNamed(w, ev);
    TracesKeepOrder(t, |t.worlds| - 1);
    var k := ParseSession(Subject(ev)).value;
    match ev {
      case Created(sid) => CreationBinds(Start(w), k, sid);
      case Forked(sid, parent) => ForkBinds(w, k, sid, parent);
      case Renamed(from, to) =>
        if ParseSession(from).value in w.rows {
          RenameBinds(w, ParseSession(from).value, k, from, to);
        } else {
          CreationBinds(Start(w), k, to);
        }
    }
    MappedResolves(Final(t), Subject(ev), k, now);
    if Keys.ResolveSession(Final(t), Shown(ev, to), now).Resolved? {
      ResolvedIsTheParse(Final(t), Shown(ev, to), now);
    }
  }

  lemma MappedResolves(w: World, sid: string, k: Key, now: int)
    requires Ordered(w) && ParseSession(sid) == Some(k) && (k in w.rows || Mapped(w, sid))
    ensures Keys.ResolveSession(w, sid, now) == Resolved(k)
  {
    KeysCoincide(w, sid, k);
    ResolvedIsTheParse(w, sid, now);
  }

  ghost predicate RowLives(w: World, k: Key) {
    BranchExists(w, k) && k in w.rows && w.rows[k] in w.sessions
  }

  /** The rows left once the dead ones of these repositories, or of these keys, are
      deleted. */
  ghost function Without(w: World, done: set<RepoKey>): map<Key, string> {
    map k | k in w.rows && (k.at in done ==> RowLives(w, k)) :: w.rows[k]
  }

  ghost function WithoutKeys(w: World, done: set<Key>): map<Key, string> {
    map k | k in w.rows && (k in done ==> RowLives(w, k)) :: w.rows[k]
  }

  lemma WithoutMore(start: World, done: set<RepoKey>, at: RepoKey, now: World)
    requires SameStore(now, start) && now.rows == Without(start, done)
    ensures Without(now, {at}) == Without(start, done + {at})
  {
    assert forall k :: k in now.rows ==> (RowLives(now, k) <==> RowLives(start, k));
  }

  lemma WithoutOneMore(start: World, done: set<Key>, k: Key, now: World)
    requires SameStore(now, start) && now.rows == WithoutKeys(start, done) && k in start.rows && k !in done
    ensures k in now.rows && (RowLives(now, k) <==> RowLives(start, k))
    ensures WithoutKeys(start, done + {k}) == if RowLives(start, k) then now.rows else now.rows - {k}
  {
  }

  lemma WithoutManagedIsDrifted(w: World)
    ensures Without(w, w.managed) == Drifted(w).rows
  {
  }

  lemma OneMore(order: seq<string>, names: set<string>, name: string)
    requires Enumerates(order, names) && name !in names
    ensures Enumerates(order + [name], names + {name})
  {
  }

  lemma DriftKeepsSessions(start: World, drifted: World)
    requires SameButCache(drifted, Drifted(start))
    ensures drifted.sessions == start.sessions
  {
    assert Crash(drifted).sessions == Crash(Drifted(start)).sessions;
  }

  lemma MappedByRows(a: World, b: World)
    requires SameButCache(a, b)
    ensures MappedNames(a) == MappedNames(b)
  {
    assert a.rows == Crash(a).rows == Crash(b).rows == b.rows;
  }

  ghost predicate SameStore(a: World, b: World) {
    a.repos == b.repos && a.managed == b.managed && a.sessions == b.sessions
  }

  lemma BindRowKeepsReply(t: Trace, k: Key, sid: string)
    requires t.worlds != []
    ensures BindRowT(t, k, sid).reply == t.reply
  {
  }

  lemma DeleteBranchKeepsReply(t: Trace, k: Key)
    requires t.worlds != []
    ensures DeleteBranchT(t, k).reply == t.reply
  {
  }

  lemma EnsureBranchKeepsRows(t: Trace, src: string, k: Key)
    requires t.worlds != []
    ensures Final(EnsureBranchT(t, src, k)).rows == Final(t).rows
  {
  }
}
