/** The mapping table over every run: session names follow from the keys, the table is
    a partial bijection, and what a session resolves to, cached or not, is the triple
    its name spells. */
module Keys {
  import opened Wrappers
  import opened Naming
  import opened Mapping

  ghost predicate NamedRows(w: World) {
    forall k :: k in w.rows ==> w.rows[k] == NamingSession(k)
  }

  ghost predicate OneRowPerSession(w: World) {
    forall a, b :: a in w.rows && b in w.rows && w.rows[a] == w.rows[b] ==> a == b
  }

  const TENANT := "default"

  function CacheName(sid: string): string {
    TENANT + "\0" + sid
  }

  /** Every cache entry sits under the tenant-qualified name of its triple. */
  ghost predicate NamedCache(w: World) {
    forall name :: name in w.cache ==> name == CacheName(NamingSession(w.cache[name].key))
  }

  ghost predicate Ordered(w: World) {
    NamedRows(w) && OneRowPerSession(w) && NamedCache(w)
  }

  // ----- calls -----

  /** A call that names sessions after keys. */
  ghost predicate NamedOp(op: Op) {
    match op
    case InsertRow(k, sid) => sid == NamingSession(k)
    case RenameRow(_, to, sid) => sid == NamingSession(to)
    case CachePut(name, entry) => name == CacheName(NamingSession(entry.key))
    case _ => true
  }

  lemma NamedOpKeepsOrder(w: World, op: Op)
    requires Ordered(w) && NamedOp(op)
    ensures Ordered(Apply(w, op))
  {
    if op.InsertRow? && !InsertConflicts(w, op.k, op.sid) {
      assert forall a :: a in w.rows ==> w.rows[a] in w.rows.Values;
    }
  }

  function Exec(w: World, ops: seq<Op>): World
    decreases ops
  {
    if ops == [] then w else Exec(Apply(w, ops[0]), ops[1..])
  }

  /** Any sequence of such calls, so any interleaving of any prefixes of any handlers'
      calls, keeps the table in order. */
  lemma {:induction false} InterleavingsKeepOrder(w: World, ops: seq<Op>)
    requires Ordered(w) && forall i :: 0 <= i < |ops| ==> NamedOp(ops[i])
    ensures Ordered(Exec(w, ops))
    decreases ops
  {
    if ops != [] {
      NamedOpKeepsOrder(w, ops[0]);
      InterleavingsKeepOrder(Apply(w, ops[0]), ops[1..]);
    }
  }

  ghost predicate AllNamed(t: Trace) {
    forall i :: 0 <= i < |t.ops| ==> NamedOp(t.ops[i])
  }

  lemma DoIsNamed(t: Trace, op: Op)
    requires t.worlds != [] && AllNamed(t) && NamedOp(op)
    ensures AllNamed(Do(t, op))
  {
  }

  lemma BranchCallsAreNamed(t: Trace, src: string, k: Key)
    requires t.worlds != [] && AllNamed(t)
    ensures AllNamed(EnsureBranchT(t, src, k)) && AllNamed(DeleteBranchT(t, k))
  {
    hide Do;
    DoIsNamed(t, CreateBranch(k, src));
    DoIsNamed(t, DeleteBranch(k));
  }

  lemma BindIsNamed(t: Trace, k: Key, sid: string)
    requires t.worlds != [] && AllNamed(t) && sid == NamingSession(k)
    ensures AllNamed(BindRowT(t, k, sid))
  {
    hide Do;
    DoIsNamed(t, InsertRow(k, sid));
    DoIsNamed(Do(t, InsertRow(k, sid)), InsertManaged(k.at));
  }

  lemma ForkFromIsNamed(t: Trace, k: Key, sid: string, src: string)
    requires t.worlds != [] && AllNamed(t) && sid == NamingSession(k)
    ensures AllNamed(ForkFromT(t, k, sid, src))
  {
    hide EnsureBranchT, BindRowT;
    BranchCallsAreNamed(t, src, k);
    BindIsNamed(EnsureBranchT(t, src, k), k, sid);
  }

  lemma CreatedIsNamed(t: Trace, k: Key, sid: string)
    requires t.worlds != [] && AllNamed(t) && sid == NamingSession(k)
    ensures AllNamed(CreatedT(t, k, sid))
  {
    hide EnsureBranchT, BindRowT, Do;
    DoIsNamed(t, EnsureRepo(k.at));
    var t1 := Do(t, EnsureRepo(k.at));
    BranchCallsAreNamed(t1, Anchor(Final(t1), k.at), k);
    BindIsNamed(EnsureBranchT(t1, Anchor(Final(t1), k.at), k), k, sid);
  }

  lemma ForkedIsNamed(w: World, k: Key, sid: string, parentSid: string)
    requires sid == NamingSession(k)
    ensures AllNamed(ForkedT(Start(w), k, sid, parentSid))
  {
    hide ForkFromT, CreatedT;
    NamingOfParsed(parentSid);
    ForkFromIsNamed(Start(w), k, sid, "main");
    var p := ParseSession(parentSid);
    if p.Some? {
      CreatedIsNamed(Start(w), p.value, parentSid);
      ForkFromIsNamed(Start(w), k, sid, p.value.branch);
      ForkFromIsNamed(CreatedT(Start(w), p.value, parentSid), k, sid, p.value.branch);
    }
  }

  lemma RenameRowIsNamed(t: Trace, from: Key, to: Key, fromSid: string, toSid: string)
    requires t.worlds != [] && AllNamed(t) && toSid == NamingSession(to)
    ensures AllNamed(RenameRowT(t, from, to, fromSid, toSid))
  {
    hide Do, DeleteBranchT;
    var t1 := Do(t, RenameRow(from, to, toSid));
    DoIsNamed(t, RenameRow(from, to, toSid));
    DoIsNamed(t1, Evict(fromSid));
    BranchCallsAreNamed(Do(t1, Evict(fromSid)), "", from);
  }

  lemma RenamedIsNamed(w: World, fromSid: string, toSid: string)
    ensures AllNamed(RenamedT(Start(w), fromSid, toSid))
  {
    hide EnsureBranchT, CreatedT, RenameRowT;
    NamingOfParsed(toSid);
    var from, to := ParseSession(fromSid), ParseSession(toSid);
    if from.Some? && to.Some? {
      CreatedIsNamed(Start(w), to.value, toSid);
      BranchCallsAreNamed(Start(w), from.value.branch, to.value);
      RenameRowIsNamed(EnsureBranchT(Start(w), from.value.branch, to.value), from.value, to.value, fromSid, toSid);
    }
  }

  lemma DeletedIsNamed(w: World, sid: string)
    ensures AllNamed(DeletedT(Start(w), sid))
  {
    hide Do, DeleteBranchT;
    if ParseSession(sid).Some? {
      var k := ParseSession(sid).value;
      var t1 := DeleteBranchT(Start(w), k);
      BranchCallsAreNamed(Start(w), "", k);
      DoIsNamed(t1, DeleteRow(k));
      DoIsNamed(Do(t1, DeleteRow(k)), Evict(sid));
    }
  }

  /** Every call any lifecycle event makes, in any world, names sessions after keys. */
  lemma EventsAreNamed(w: World, ev: LifecycleEvent)
    ensures AllNamed(Deliver(w, ev))
  {
    hide CreatedT, ForkedT, RenamedT, DeletedT;
    match ev
    case Created(sid) =>
      NamingOfParsed(sid);
      if ParseSession(sid).Some? { CreatedIsNamed(Start(w), ParseSession(sid).value, sid); }
    case Forked(sid, parent) =>
      NamingOfParsed(sid);
      if ParseSession(sid).Some? { ForkedIsNamed(w, ParseSession(sid).value, sid, parent); }
    case Renamed(from, to) => RenamedIsNamed(w, from, to);
    case Deleted(sid) => DeletedIsNamed(w, sid);
    case Unknown(_) =>
  }

  /** So does adopting a branch, and starting a subsession. */
  lemma BindingsAreNamed(w: World, k: Key, req: Subrequest, agent: AgentMood)
    ensures AllNamed(AdoptT(Start(w), k))
    ensures AllNamed(SubsessionT(Start(w), req, agent))
  {
    hide Do, EnsureBranchT, BindRowT, ValidSessionComponent, NamingSession;
    var t1 := Do(Start(w), CreateSession(NamingSession(k)));
    DoIsNamed(Start(w), CreateSession(NamingSession(k)));
    DoIsNamed(t1, InsertRow(k, NamingSession(k)));
    var child := Key(req.base.at, req.branch);
    var t2 := EnsureBranchT(Start(w), req.base.branch, child);
    BranchCallsAreNamed(Start(w), req.base.branch, child);
    DoIsNamed(t2, CreateSession(NamingSession(child)));
    BindIsNamed(Do(t2, CreateSession(NamingSession(child))), child, NamingSession(child));
  }

  /** Every world an event passes through is in order. */
  lemma {:induction false} TracesKeepOrder(t: Trace, upTo: nat)
    requires IsTrace(t) && AllNamed(t) && Ordered(t.worlds[0]) && upTo < |t.worlds|
    ensures Ordered(t.worlds[upTo])
  {
    if upTo > 0 {
      TracesKeepOrder(t, upTo - 1);
      NamedOpKeepsOrder(t.worlds[upTo - 1], t.ops[upTo - 1]);
    }
  }

  // ----- the two keys -----

  /** For a name that spells a triple, the row of the session and the row of the triple
      are the same row. */
  lemma KeysCoincide(w: World, sid: string, k: Key)
    requires NamedRows(w) && ParseSession(sid) == Some(k)
    ensures Mapped(w, sid) <==> k in w.rows
    ensures forall o :: o in w.rows && w.rows[o] == sid ==> o == k
  {
    NamingOfParsed(sid);
    if k in w.rows {
      assert w.rows[k] == sid;
    }
    forall o | o in w.rows && w.rows[o] == sid
      ensures o == k
    {
      ParseOfNamed(o);
    }
  }

  // ----- resolution -----

  datatype Resolution = Resolved(key: Key) | NotReady | BadName

  ghost function RowBySession(w: World, sid: string): Option<Key> {
    if Mapped(w, sid) then var k :| k in w.rows && w.rows[k] == sid; Some(k) else None
  }

  predicate CacheHit(w: World, sid: string, now: int) {
    CacheName(sid) in w.cache && now <= w.cache[CacheName(sid)].expires
  }

  ghost function ResolveSession(w: World, sid: string, now: int): Resolution {
    if CacheHit(w, sid, now) then Resolved(w.cache[CacheName(sid)].key)
    else if Mapped(w, sid) then Resolved(RowBySession(w, sid).value)
    else if ParseSession(sid).None? then BadName
    else NotReady
  }

  lemma CacheNameInjective(a: string, b: string)
    requires CacheName(a) == CacheName(b)
    ensures a == b
  {
    assert CacheName(a)[|TENANT| + 1..] == a;
    assert CacheName(b)[|TENANT| + 1..] == b;
  }

  /** Whatever is resolved, from the cache however stale or from the table, is named by
      the session, and is its parse when the name spells a triple. */
  lemma ResolvedIsTheParse(w: World, sid: string, now: int)
    requires Ordered(w) && ResolveSession(w, sid, now).Resolved?
    ensures var k := ResolveSession(w, sid, now).key;
      NamingSession(k) == sid && (ColonFree(k) <==> ParseSession(sid) == Some(k))
    ensures ParseSession(sid).Some? ==> Some(ResolveSession(w, sid, now).key) == ParseSession(sid)
  {
    var k := ResolveSession(w, sid, now).key;
    if CacheHit(w, sid, now) {
      CacheNameInjective(sid, NamingSession(k));
    }
    ParseOfNamed(k);
  }

  /** When a session resolves: from an unexpired entry under the tenant's name for it, or
      from a row; and it is a bad name exactly when no triple of separator-free parts is
      spelled by it. */
  lemma ResolvesExactly(w: World, sid: string, now: int)
    ensures ResolveSession(w, sid, now).Resolved? <==>
      || ("default" + "\0" + sid in w.cache && w.cache["default" + "\0" + sid].expires >= now)
      || exists k :: k in w.rows && w.rows[k] == sid
    ensures ResolveSession(w, sid, now).BadName? <==>
      && !ResolveSession(w, sid, now).Resolved?
      && forall k :: ColonFree(k) ==> NamingSession(k) != sid
  {
    if ParseSession(sid).Some? {
      NamingOfParsed(sid);
    }
    forall k | ColonFree(k) && NamingSession(k) == sid
      ensures ParseSession(sid).Some?
    {
      ParseOfNamed(k);
    }
  }

  // ----- runs -----

  /** Resolving a session puts what the table answers into the cache. */
  ghost function ResolveT(t: Trace, sid: string, now: int, ttl: int): (r: Trace)
    requires t.worlds != []
    ensures r.worlds != [] && r.worlds[0] == t.worlds[0]
    ensures IsTrace(t) ==> IsTrace(r)
  {
    if CacheHit(Final(t), sid, now) || !Mapped(Final(t), sid) then t
    else Do(t, CachePut(CacheName(sid), CacheEntry(RowBySession(Final(t), sid).value, now + ttl)))
  }

  /** A resolution lasts: until its entry expires the session gets the same answer, whatever
      becomes of the table, the branches and the sessions meanwhile. */
  lemma ResolutionLasts(w: World, sid: string, now: int, ttl: int, later: World, at: int)
    requires !CacheHit(w, sid, now) && Mapped(w, sid)
    requires later.cache == Final(ResolveT(Start(w), sid, now, ttl)).cache && at <= now + ttl
    ensures ResolveSession(later, sid, at) == ResolveSession(w, sid, now)
    ensures exists k :: k in w.rows && w.rows[k] == sid && ResolveSession(later, sid, at) == Resolved(k)
  {
    var k := RowBySession(w, sid).value;
    assert k in w.rows && w.rows[k] == sid;
  }

  lemma ResolutionIsNamed(t: Trace, sid: string, now: int, ttl: int)
    requires t.worlds != [] && AllNamed(t) && NamedRows(Final(t))
    ensures AllNamed(ResolveT(t, sid, now, ttl))
  {
    hide Do;
    if Mapped(Final(t), sid) {
      var entry := CacheEntry(RowBySession(Final(t), sid).value, now + ttl);
      assert NamedOp(CachePut(CacheName(sid), entry));
      DoIsNamed(t, CachePut(CacheName(sid), entry));
    }
  }

  lemma {:induction false} DriftIsNamed(t: Trace, order: seq<Key>, live: set<string>)
    requires t.worlds != [] && AllNamed(t)
    ensures AllNamed(DriftT(t, order, live))
  {
    hide Do;
    if order != [] {
      var k, before := order[|order| - 1], DriftT(t, order[..|order| - 1], live);
      DriftIsNamed(t, order[..|order| - 1], live);
      DoIsNamed(before, DeleteRow(k));
      if k in Final(before).rows {
        DoIsNamed(Do(before, DeleteRow(k)), Evict(Final(before).rows[k]));
      }
    }
  }

  lemma {:induction false} BackfillIsNamed(t: Trace, order: seq<string>, mapped: set<string>)
    requires t.worlds != [] && AllNamed(t)
    ensures AllNamed(BackfillT(t, order, mapped))
  {
    hide CreatedT;
    if order != [] {
      var name, before := order[|order| - 1], BackfillT(t, order[..|order| - 1], mapped);
      BackfillIsNamed(t, order[..|order| - 1], mapped);
      NamingOfParsed(name);
      if ParseSession(name).Some? {
        CreatedIsNamed(before.(reply := Done), ParseSession(name).value, name);
      }
    }
  }

  /** Everything that writes the table or the cache. The reconciler works from listings
      taken earlier, which may be out of date. */
  datatype Activity =
    | Event(ev: LifecycleEvent)
    | Adoption(k: Key)
    | Subsession(req: Subrequest, agent: AgentMood)
    | Drift(rows: seq<Key>, live: set<string>)
    | Backfill(names: seq<string>, mapped: set<string>)
    | Resolving(sid: string, now: int, ttl: int)

  ghost function TraceOf(w: World, a: Activity): (t: Trace)
    ensures t.worlds != [] && t.worlds[0] == w && IsTrace(t)
  {
    match a
    case Event(ev) => Deliver(w, ev)
    case Adoption(k) => AdoptT(Start(w), k)
    case Subsession(req, agent) => SubsessionT(Start(w), req, agent)
    case Drift(rows, live) => DriftT(Start(w), rows, live)
    case Backfill(names, mapped) => BackfillT(Start(w), names, mapped)
    case Resolving(sid, now, ttl) => ResolveT(Start(w), sid, now, ttl)
  }

  /** An activity that gets to make some of its calls, after which the process may die;
      or a change of branches and sessions by others. */
  datatype Step =
    | Attempt(activity: Activity, calls: nat, dies: bool)
    | Outside(repos: map<RepoKey, Repo>, sessions: set<string>)

  ghost function AfterStep(w: World, s: Step): World {
    match s
    case Attempt(activity, calls, dies) =>
      var t := TraceOf(w, activity);
      var x := if calls < |t.worlds| then t.worlds[calls] else Final(t);
      if dies then Crash(x) else x
    case Outside(repos, sessions) => w.(repos := repos, sessions := sessions)
  }

  ghost function AfterSteps(w: World, run: seq<Step>): World {
    if run == [] then w else AfterStep(AfterSteps(w, run[..|run| - 1]), run[|run| - 1])
  }

  /** Over every run of events, adoptions, subsessions, drift passes, backfills and
      resolutions, each cut after any of its calls, whatever others do to branches and
      sessions in between, table and cache stay in order. */
  lemma {:induction false} RunsKeepOrder(w: World, run: seq<Step>)
    requires Ordered(w)
    ensures Ordered(AfterSteps(w, run))
  {
    hide AfterStep, Ordered;
    if run != [] {
      RunsKeepOrder(w, run[..|run| - 1]);
      StepKeepsOrder(AfterSteps(w, run[..|run| - 1]), run[|run| - 1]);
    }
  }

  lemma StepKeepsOrder(w: World, s: Step)
    requires Ordered(w)
    ensures Ordered(AfterStep(w, s))
  {
    hide TraceOf;
    if s.Attempt? {
      var t := TraceOf(w, s.activity);
      ActivityIsNamed(w, s.activity);
      TracesKeepOrder(t, if s.calls < |t.worlds| then s.calls else |t.worlds| - 1);
    }
  }

  lemma ActivityIsNamed(w: World, a: Activity)
    requires NamedRows(w)
    ensures AllNamed(TraceOf(w, a))
  {
    hide AdoptT, SubsessionT, Deliver;
    match a
    case Event(ev) => EventsAreNamed(w, ev);
    case Adoption(k) => BindingsAreNamed(w, k, Subrequest(k, "", "", ""), AgentMood(true, true));
    case Subsession(req, agent) => BindingsAreNamed(w, req.base, req, agent);
    case Drift(rows, live) => DriftIsNamed(Start(w), rows, live);
    case Backfill(names, mapped) => BackfillIsNamed(Start(w), names, mapped);
    case Resolving(sid, now, ttl) => ResolutionIsNamed(Start(w), sid, now, ttl);
  }

  /** So in every world that can be reached, whatever a session resolves to, cached or
      not, is the triple its name spells. */
  lemma ReachedResolutionIsTheParse(w: World, run: seq<Step>, sid: string, now: int)
    requires Ordered(w) && ResolveSession(AfterSteps(w, run), sid, now).Resolved?
    ensures var k := ResolveSession(AfterSteps(w, run), sid, now).key;
      && NamingSession(k) == sid && (ColonFree(k) <==> ParseSession(sid) == Some(k))
      && (ParseSession(sid).Some? ==> ParseSession(sid) == Some(k))
  {
    hide AfterSteps, Ordered;
    RunsKeepOrder(w, run);
    ResolvedIsTheParse(AfterSteps(w, run), sid, now);
  }

  // ----- stale answers -----

  /** Evicting a session by its bare name leaves its cached resolution in place, so
      after a deletion the old answer lasts exactly until it expires. */
  lemma EvictionMissesTheCache(w: World, sid: string, now: int)
    requires CacheName(sid) in w.cache && ParseSession(sid).Some? && NamedRows(w)
    ensures var after := Final(Deliver(w, Deleted(sid)));
      ResolveSession(after, sid, now)
        == if now <= w.cache[CacheName(sid)].expires then Resolved(w.cache[CacheName(sid)].key) else NotReady
  {
    var k := ParseSession(sid).value;
    KeysCoincide(w, sid, k);
    assert |CacheName(sid)| > |sid|;
    var after := Final(Deliver(w, Deleted(sid)));
    DeletionEnds(w, sid, k);
    KeysCoincide(after, sid, k);
  }

  lemma DeletionEnds(w: World, sid: string, k: Key)
    requires ParseSession(sid) == Some(k) && NamedRows(w)
    ensures var after := Final(Deliver(w, Deleted(sid)));
      && after.rows == (if Mapped(w, sid) then w.rows - {k} else w.rows)
      && after.cache == (if Mapped(w, sid) then w.cache - {sid} else w.cache)
  {
  }
}
