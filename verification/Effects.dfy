/** What a clean delivery is for: where the branch of a created, forked or renamed
    session starts, and what becomes of its row. */
module Effects {
  import opened Wrappers
  import opened Naming
  import opened Mapping
  import opened Stages
  import opened Keys

  function BranchTarget(w: World, k: Key): Option<string> {
    if BranchExists(w, k) then Some(w.repos[k.at].branches[k.branch]) else None
  }

  lemma OrdinaryBranchResolves(w: World, k: Key)
    requires BranchExists(w, k) && Ordinary(k.branch)
    ensures Resolve(w.repos[k.at], k.branch) == BranchTarget(w, k)
  {
  }

  /** Where a source points, in a repository that is there. */
  function Target(w: World, at: RepoKey, src: string): Option<string> {
    if at in w.repos then Resolve(w.repos[at], src) else None
  }

  /** A branch that exists stays, a new one is created where its source points, and no
      other branch moves. */
  lemma BranchedFrom(w: World, k: Key, src: string)
    requires Listed(w, k.at)
    ensures BranchTarget(Branched(w, k, src), k)
      == if BranchExists(w, k) then BranchTarget(w, k) else Target(w, k.at, src)
    ensures forall o :: o != k ==> BranchTarget(Branched(w, k, src), o) == BranchTarget(w, o)
    ensures Branched(w, k, src).cache == w.cache
  {
  }

  lemma BoundRow(w: World, k: Key, sid: string)
    requires !InsertConflicts(w, k, sid)
    ensures Bound(w, k, sid).rows == w.rows[k := sid] && Bound(w, k, sid).repos == w.repos
    ensures Bound(w, k, sid).managed == w.managed + {k.at}
    ensures Bound(w, k, sid).sessions == w.sessions && Bound(w, k, sid).cache == w.cache
  {
  }

  lemma WithRepoTargets(w: World, at: RepoKey)
    ensures forall o :: BranchTarget(WithRepo(w, at), o) == BranchTarget(w, o)
    ensures at !in w.repos ==> forall src :: Target(WithRepo(w, at), at, src) == None
    ensures at in w.repos ==> WithRepo(w, at) == w
    ensures WithRepo(w, at).(repos := w.repos) == w
  {
  }

  /** A creation binds its session to a branch: the one that is there, or else one that
      starts where "main" points, be it a branch or a revision, or at the newest revision
      if nothing answers to "main", or nowhere if there is no revision. No other row or
      branch changes, and nothing at all for a mapped session. */
  lemma CreatedStartsAtMain(w: World, sid: string, k: Key)
    requires NamedRows(w) && ParseSession(sid) == Some(k)
    ensures var after := Final(Deliver(w, Created(sid)));
      && (k in w.rows ==> after == w)
      && after.sessions == w.sessions && after.cache == w.cache
      && (!Named(k.at) ==> after.rows == w.rows && after.managed == w.managed)
      && (k !in w.rows && Named(k.at) ==>
            && after.rows == w.rows[k := sid] && after.managed == w.managed + {k.at}
            && BranchTarget(after, k) == (if BranchExists(w, k) then BranchTarget(w, k) else StartOf(w, k.at)))
      && forall o :: o != k ==> BranchTarget(after, o) == BranchTarget(w, o)
  {
    hide CreatedT, Branched, Bound, Resolve, BranchTarget, Anchor, StartOf;
    KeysCoincide(w, sid, k);
    CreatedPasses(Start(w), k, sid);
    if k !in w.rows {
      var w1 := WithRepo(w, k.at);
      WithRepoTargets(w, k.at);
      if Named(k.at) {
        var b := Branched(w1, k, Anchor(w1, k.at));
        BranchedFrom(w1, k, Anchor(w1, k.at));
        BranchedOnce(w1, k, Anchor(w1, k.at));
        BoundRow(b, k, sid);
        SameTargets(b, Bound(b, k, sid));
        AnchorStarts(w, k.at);
      }
    }
  }

  /** The start of a new branch in this repository. */
  function StartOf(w: World, at: RepoKey): Option<string> {
    if at !in w.repos then None
    else
      var r := w.repos[at];
      if "main" in r.branches then Some(r.branches["main"])
      else if CanResolve(r, "main") then Resolve(r, "main")
      else if r.log == [] then None
      else Some(r.log[0].hash)
  }

  lemma AnchorStarts(w: World, at: RepoKey)
    ensures var w1 := WithRepo(w, at); Target(w1, at, Anchor(w1, at)) == StartOf(w, at)
  {
    WithRepoTargets(w, at);
  }

  lemma SameTargets(a: World, b: World)
    requires a.repos == b.repos
    ensures forall o :: BranchTarget(a, o) == BranchTarget(b, o)
    ensures forall o :: BranchExists(a, o) == BranchExists(b, o)
  {
  }

  /** A forked session's branch, unless it is there already, starts where its parent's
      branch is, once the parent has been created if it had no row; what the parent's name
      means is what the branch store resolves it to, its branch for an ordinary name. */
  lemma ForkStartsAtParent(w: World, sid: string, k: Key, parentSid: string, p: Key)
    requires NamedRows(w) && ParseSession(sid) == Some(k) && k !in w.rows && ParseSession(parentSid) == Some(p)
    requires p.at == k.at && p != k && Named(k.at) && (p in w.rows ==> k.at in w.repos)
    ensures var ready := if p in w.rows then w else Final(Deliver(w, Created(parentSid)));
      var after := Final(Deliver(w, Forked(sid, parentSid)));
      && after.rows == ready.rows[k := sid] && p in after.rows && after.managed == ready.managed + {k.at}
      && after.sessions == w.sessions && after.cache == w.cache
      && BranchTarget(after, k) == (if BranchExists(w, k) then BranchTarget(w, k) else Target(ready, k.at, p.branch))
      && (!BranchExists(w, k) && BranchExists(ready, p) && Ordinary(p.branch) ==>
            BranchTarget(after, k) == BranchTarget(ready, p))
      && forall o :: o != k ==> BranchTarget(after, o) == BranchTarget(ready, o)
  {
    hide ForkedT, CreatedT, CreatedEnd, Branched, Bound, Resolve, BranchTarget;
    var ready := ParentReady(w, p, parentSid);
    KeysCoincide(w, sid, k);
    CreatedPasses(Start(w), p, parentSid);
    ForkedPasses(w, k, sid, parentSid);
    if p !in w.rows {
      KeysCoincide(w, parentSid, p);
      CreatedStartsAtMain(w, parentSid, p);
      CreatedStartsIn(w, p, parentSid);
      ParentIsListed(w, p, parentSid);
    }
    assert k !in ready.rows && NamedRows(ready) by { NamingOfParsed(parentSid); }
    KeysCoincide(ready, sid, k);
    var b := Branched(ready, k, p.branch);
    BranchedFrom(ready, k, p.branch);
    BranchedOnce(ready, k, p.branch);
    BoundRow(b, k, sid);
    SameTargets(b, Bound(b, k, sid));
    ExistsByTarget(w, ready, k);
    if BranchExists(ready, p) && Ordinary(p.branch) { OrdinaryBranchResolves(ready, p); }
  }

  lemma ParentIsListed(w: World, p: Key, parentSid: string)
    requires !Mapped(w, parentSid) && p !in w.rows && Named(p.at)
    ensures Listed(CreatedEnd(w, p, parentSid), p.at) && !ParentFails(w, p, parentSid)
  {
    hide Resolve, Anchor;
    BranchedOnce(WithRepo(w, p.at), p, Anchor(WithRepo(w, p.at), p.at));
  }

  lemma ExistsByTarget(a: World, b: World, k: Key)
    ensures BranchTarget(a, k) == BranchTarget(b, k) ==> BranchExists(a, k) == BranchExists(b, k)
  {
  }

  /** A fork from a session that is no workspace starts at "main", without the fallback to
      the newest revision that a creation has. */
  lemma ForkFromOutsiderStartsAtMain(w: World, sid: string, k: Key, parentSid: string)
    requires NamedRows(w) && ParseSession(sid) == Some(k) && k !in w.rows && ParseSession(parentSid).None?
    requires Listed(w, k.at)
    ensures var after := Final(Deliver(w, Forked(sid, parentSid)));
      && after.rows == w.rows[k := sid] && after.managed == w.managed + {k.at}
      && after.sessions == w.sessions && after.cache == w.cache
      && BranchTarget(after, k) == (if BranchExists(w, k) then BranchTarget(w, k) else Target(w, k.at, "main"))
      && forall o :: o != k ==> BranchTarget(after, o) == BranchTarget(w, o)
  {
    hide ForkedT, Branched, Bound, Resolve, BranchTarget;
    KeysCoincide(w, sid, k);
    ForkedPasses(w, k, sid, parentSid);
    var b := Branched(w, k, "main");
    BranchedFrom(w, k, "main");
    BranchedOnce(w, k, "main");
    BoundRow(b, k, sid);
    SameTargets(b, Bound(b, k, sid));
  }

  /** A rename first gives the new name a branch, if it has none, where the old name
      points. If the name is free the row then moves and the old branch goes; otherwise
      rows stay. No other row or branch changes. */
  lemma RenameMovesRowAndBranch(w: World, fromSid: string, from: Key, toSid: string, to: Key)
    requires NamedRows(w) && ParseSession(fromSid) == Some(from) && ParseSession(toSid) == Some(to)
    requires from != to && from.at == to.at && from in w.rows && Listed(w, to.at)
    ensures var after := Final(Deliver(w, Renamed(fromSid, toSid)));
      && after.rows == (if to in w.rows then w.rows else (w.rows - {from})[to := toSid])
      && after.cache == (if to in w.rows then w.cache else w.cache - {fromSid})
      && after.managed == w.managed && after.sessions == w.sessions
      && BranchTarget(after, to) == (if BranchExists(w, to) then BranchTarget(w, to) else Target(w, to.at, from.branch))
      && (!BranchExists(w, to) && BranchExists(w, from) && Ordinary(from.branch) ==>
            BranchTarget(after, to) == BranchTarget(w, from))
      && BranchTarget(after, from) == (if to in w.rows then BranchTarget(w, from) else None)
      && forall o :: o != from && o != to ==> BranchTarget(after, o) == BranchTarget(w, o)
  {
    hide Branched, Resolve, BranchTarget, RenameConflicts, RenameRowT, EnsureBranchT, Unbranched;
    KeysCoincide(w, toSid, to);
    var b := Branched(w, to, from.branch);
    if BranchExists(w, from) && Ordinary(from.branch) { OrdinaryBranchResolves(w, from); }
    BranchedFrom(w, to, from.branch);
    BranchedOnce(w, to, from.branch);
    RenamePasses(w, from, to, fromSid, toSid);
    assert RenameConflicts(b, from, to, toSid) <==> to in w.rows by {
      RenameConflictsByRows(b, w, from, to, toSid);
    }
    if to !in w.rows {
      var moved := Apply(Moved(b, from, to, toSid), Evict(fromSid));
      SameTargets(b, moved);
      DropsOnlyItsBranch(moved, from);
    }
  }

  lemma RenameConflictsByRows(b: World, w: World, from: Key, to: Key, toSid: string)
    requires b.rows == w.rows && from != to && (Mapped(w, toSid) <==> to in w.rows)
    ensures RenameConflicts(b, from, to, toSid) <==> to in w.rows
  {
  }

  lemma DropsOnlyItsBranch(w: World, k: Key)
    ensures BranchTarget(Unbranched(w, k), k) == None && Unbranched(w, k).(repos := w.repos) == w
    ensures forall o :: o != k ==> BranchTarget(Unbranched(w, k), o) == BranchTarget(w, o)
  {
  }

  /** A deleted session loses its row and its branch, and nothing else changes. */
  lemma DeletedTakesRowAndBranch(w: World, sid: string, k: Key)
    requires NamedRows(w) && ParseSession(sid) == Some(k) && k in w.rows
    ensures var after := Final(Deliver(w, Deleted(sid)));
      && after.rows == w.rows - {k} && BranchTarget(after, k) == None
      && after.cache == w.cache - {sid} && after.managed == w.managed && after.sessions == w.sessions
      && forall o :: o != k ==> BranchTarget(after, o) == BranchTarget(w, o)
  {
    hide DeletedT;
    KeysCoincide(w, sid, k);
    DeletePasses(w, k, sid);
    DropsOnlyItsBranch(w, k);
    var u := Unbranched(w, k);
    assert DeleteEnd(w, k, sid).repos == u.repos;
  }

  // ----- adoption -----

  /** Adopting a branch: an existing branch that has no row gets its session and its row,
      named after it, and its repository no mark; a branch that has one changes nothing; a
      missing branch or repository is refused with nothing changed; and a session bound to
      another branch refuses the row after the session was created. */
  lemma AdoptionEffect(w: World, k: Key)
    ensures var t, sid := AdoptT(Start(w), k), NamingSession(k);
      var there := k.at.org != "" && k.at.repo != "" && k.at in w.repos && k.branch in w.repos[k.at].branches;
      && (k in w.rows ==> t.reply == Done && Final(t) == w)
      && (k !in w.rows && !there ==> t.reply == Rejected(404) && Final(t) == w)
      && (k !in w.rows && there && sid in w.rows.Values ==>
            t.reply == Rejected(409) && Final(t) == w.(sessions := w.sessions + {sid}))
      && (k !in w.rows && there && sid !in w.rows.Values ==>
            t.reply == Done && Final(t) == w.(rows := w.rows[k := sid], sessions := w.sessions + {sid}))
  {
  }

  // ----- subsessions -----

  /** What a subsession is refused for, in the order it is looked at. */
  function SubsessionRefusal(w: World, req: Subrequest, agent: AgentMood): Option<int> {
    var child := Key(req.base.at, req.branch);
    if req.prompt == "" || !ValidComponent(req.branch) then Some(400)
    else if req.base.branch != (if req.defaultBranch == "" then "main" else req.defaultBranch) then Some(403)
    else if BranchExists(w, child) then Some(409)
    else if agent.lists && NamingSession(child) in w.sessions then Some(409)
    else if !Named(req.base.at) || req.base.at !in w.repos then Some(404)
    else None
  }

  /** A refused subsession changes nothing. An accepted one creates the branch where the
      default branch's name points, its session, and, unless the triple or the session is
      bound already, its row and mark; all of that stays when the agent does not take the
      prompt. */
  lemma SubsessionEffect(w: World, req: Subrequest, agent: AgentMood)
    ensures var t, refusal := SubsessionT(Start(w), req, agent), SubsessionRefusal(w, req, agent);
      var child := Key(req.base.at, req.branch);
      var sid, after := NamingSession(child), Final(t);
      && (refusal.Some? ==> t.reply == Rejected(refusal.value) && after == w)
      && (refusal.None? ==>
            && t.reply == (if agent.takesPrompt then Done else Rejected(502))
            && after.sessions == w.sessions + {sid} && after.cache == w.cache
            && BranchTarget(after, child) == Target(w, req.base.at, req.base.branch)
            && (forall o :: o != child ==> BranchTarget(after, o) == BranchTarget(w, o))
            && (if child in w.rows || sid in w.rows.Values then after.rows == w.rows && after.managed == w.managed
                else after.rows == w.rows[child := sid] && after.managed == w.managed + {child.at}))
  {
    hide Resolve, ValidComponent, ValidSessionComponent, NamingSession, BranchTarget;
    ValidatorsAgree(req.branch);
    if SubsessionRefusal(w, req, agent).None? {
      AcceptedSubsession(w, req, agent);
    }
  }

  lemma AcceptedSubsession(w: World, req: Subrequest, agent: AgentMood)
    requires SubsessionRefusal(w, req, agent).None?
    ensures var t, child := SubsessionT(Start(w), req, agent), Key(req.base.at, req.branch);
      var sid, after := NamingSession(child), Final(t);
      && t.reply == (if agent.takesPrompt then Done else Rejected(502))
      && after.sessions == w.sessions + {sid} && after.cache == w.cache
      && BranchTarget(after, child) == Target(w, req.base.at, req.base.branch)
      && (forall o :: o != child ==> BranchTarget(after, o) == BranchTarget(w, o))
      && (if child in w.rows || sid in w.rows.Values then after.rows == w.rows && after.managed == w.managed
          else after.rows == w.rows[child := sid] && after.managed == w.managed + {child.at})
  {
    hide Resolve, ValidComponent, ValidSessionComponent, NamingSession, BranchTarget, Target;
    ValidatorsAgree(req.branch);
    var child := Key(req.base.at, req.branch);
    var sid := NamingSession(child);
    var b := Branched(w, child, req.base.branch);
    BranchedFrom(w, child, req.base.branch);
    BranchedOnce(w, child, req.base.branch);
    BranchCallIsBranched(Start(w), child, req.base.branch);
    var s := Apply(b, CreateSession(sid));
    SameTargets(b, s);
    var t := SubsessionT(Start(w), req, agent);
    assert Final(t) == Bound(s, child, sid);
    SameTargets(s, Bound(s, child, sid));
  }

  lemma BranchCallIsBranched(t: Trace, k: Key, src: string)
    requires t.worlds != [] && Listed(Final(t), k.at)
    ensures Final(EnsureBranchT(t, src, k)) == Branched(Final(t), k, src) && EnsureBranchT(t, src, k).reply == t.reply
    ensures Branched(Final(t), k, src).cache == Final(t).cache
  {
    hide Resolve;
  }

  // ----- answers -----

  function Found(ok: bool): Reply {
    if ok then Done else Rejected(404)
  }

  /** The answer to a creation. */
  function CreationReply(w: World, k: Key): Reply {
    Found(k in w.rows || Named(k.at))
  }

  /** The answer to each event, told from the world before: 400 for a name that does not
      parse, a fork or rename across repositories and an event of no known kind, 404 where
      the repository listing has no place for the branch. */
  function ReplyTo(w: World, ev: LifecycleEvent): Reply {
    match ev
    case Created(sid) => (match ParseSession(sid) case None => Rejected(400) case Some(k) => CreationReply(w, k))
    case Forked(sid, parent) =>
      (match ParseSession(sid)
       case None => Rejected(400)
       case Some(k) => if k in w.rows then Done else ForkReply(w, k, ParseSession(parent)))
    case Renamed(from, to) =>
      var f, t := ParseSession(from), ParseSession(to);
      if f.None? || t.None? || f.value.at != t.value.at then Rejected(400)
      else if f.value in w.rows then Found(Listed(w, t.value.at))
      else CreationReply(w, t.value)
    case Deleted(sid) => if ParseSession(sid).None? then Rejected(400) else Done
    case Unknown(_) => Rejected(400)
  }

  function ForkReply(w: World, k: Key, parent: Option<Key>): Reply {
    match parent
    case None => Found(Listed(w, k.at))
    case Some(p) =>
      if p.at != k.at then Rejected(400)
      else if p in w.rows then Found(Listed(w, k.at))
      else Found(Named(k.at))
  }

  lemma TailReply(t: Trace, k: Key, sid: string, src: string)
    requires t.worlds != [] && t.reply.Done?
    ensures ForkFromT(t, k, sid, src).reply == Found(Listed(Final(t), k.at))
  {
    hide Resolve;
  }

  lemma CreatedReply(t: Trace, k: Key, sid: string)
    requires t.worlds != [] && t.reply.Done?
    ensures CreatedT(t, k, sid).reply == Found(Mapped(Final(t), sid) || Named(k.at))
    ensures CreatedT(t, k, sid).reply.Done? && !Mapped(Final(t), sid) ==> Listed(Final(CreatedT(t, k, sid)), k.at)
  {
    hide ForkFromT, Anchor, Branched;
    if !Mapped(Final(t), sid) {
      var t1 := Do(t, EnsureRepo(k.at));
      CreationIsATail(t, k, sid);
      TailReply(t1, k, sid, Anchor(Final(t1), k.at));
      RepoIsThere(Final(t), k.at);
      ForkPasses(t1, k, sid, Anchor(Final(t1), k.at));
      if Named(k.at) { BranchedOnce(Final(t1), k, Anchor(Final(t1), k.at)); }
    }
  }

  lemma ForkedReply(w: World, k: Key, sid: string, parent: string)
    requires NamedRows(w) && ParseSession(sid) == Some(k)
    ensures ForkedT(Start(w), k, sid, parent).reply
      == if k in w.rows then Done else ForkReply(w, k, ParseSession(parent))
  {
    hide ForkFromT, CreatedT;
    KeysCoincide(w, sid, k);
    if !Mapped(w, sid) {
      match ParseSession(parent)
      case None => TailReply(Start(w), k, sid, "main");
      case Some(p) =>
        if p.at == k.at {
          KeysCoincide(w, parent, p);
          CreatedReply(Start(w), p, parent);
          var t1 := if p in w.rows then Start(w) else CreatedT(Start(w), p, parent);
          if t1.reply.Done? { TailReply(t1, k, sid, p.branch); }
        }
    }
  }

  lemma RenameReplyIs(w: World, from: Key, to: Key, fromSid: string, toSid: string)
    requires from.at == to.at
    ensures RenameRowT(EnsureBranchT(Start(w), from.branch, to), from, to, fromSid, toSid).reply
      == Found(Listed(w, to.at))
  {
    hide Resolve;
  }

  lemma RepliesExactly(w: World, ev: LifecycleEvent)
    requires NamedRows(w)
    ensures Deliver(w, ev).reply == ReplyTo(w, ev)
  {
    hide CreatedT, ForkedT, RenameRowT, EnsureBranchT, ForkReply;
    match ev
    case Created(sid) =>
      if ParseSession(sid).Some? {
        KeysCoincide(w, sid, ParseSession(sid).value);
        CreatedReply(Start(w), ParseSession(sid).value, sid);
      }
    case Forked(sid, parent) =>
      if ParseSession(sid).Some? { ForkedReply(w, ParseSession(sid).value, sid, parent); }
    case Renamed(from, to) =>
      var f, t := ParseSession(from), ParseSession(to);
      if f.Some? && t.Some? && f.value.at == t.value.at {
        KeysCoincide(w, to, t.value);
        CreatedReply(Start(w), t.value, to);
        RenameReplyIs(w, f.value, t.value, from, to);
      }
    case Deleted(sid) =>
    case Unknown(_) =>
  }

  /** A refused event leaves rows, marks, sessions, cache and branches alone; at most a
      repository without a name has come about. */
  lemma RefusedChangesNothing(w: World, ev: LifecycleEvent)
    requires NamedRows(w) && Deliver(w, ev).reply.Rejected?
    ensures var after := Final(Deliver(w, ev));
      && after.rows == w.rows && after.managed == w.managed && after.sessions == w.sessions && after.cache == w.cache
      && forall o :: BranchTarget(after, o) == BranchTarget(w, o)
  {
    hide CreatedT, ForkedT, RenameRowT, EnsureBranchT, CreatedEnd, ForkedEnd, BranchTarget;
    RepliesExactly(w, ev);
    match ev
    case Created(sid) =>
      if ParseSession(sid).Some? {
        CreatedPasses(Start(w), ParseSession(sid).value, sid);
        UnnamedCreation(w, ParseSession(sid).value, sid);
      }
    case Forked(sid, parent) =>
      if ParseSession(sid).Some? {
        ForkedPasses(w, ParseSession(sid).value, sid, parent);
        RefusedFork(w, ParseSession(sid).value, sid, parent);
      }
    case Renamed(from, to) =>
      var f, t := ParseSession(from), ParseSession(to);
      if f.Some? && t.Some? && f.value.at == t.value.at {
        CreatedPasses(Start(w), t.value, to);
        UnnamedCreation(w, t.value, to);
        if f.value in w.rows { RenamePasses(w, f.value, t.value, from, to); }
      }
    case Deleted(sid) =>
    case Unknown(_) =>
  }

  lemma UnnamedCreation(w: World, k: Key, sid: string)
    requires NamedRows(w) && ParseSession(sid) == Some(k)
    ensures k !in w.rows && !Named(k.at) ==> CreatedEnd(w, k, sid) == WithRepo(w, k.at)
    ensures forall o :: BranchTarget(WithRepo(w, k.at), o) == BranchTarget(w, o)
  {
    hide ForkEnd, BranchTarget;
    KeysCoincide(w, sid, k);
    WithRepoTargets(w, k.at);
    RepoIsThere(w, k.at);
    if k !in w.rows && !Named(k.at) { CreatedFailsAt(w, k, sid); }
  }

  lemma RefusedFork(w: World, k: Key, sid: string, parent: string)
    requires NamedRows(w) && ParseSession(sid) == Some(k) && k !in w.rows
    requires ForkReply(w, k, ParseSession(parent)).Rejected?
    ensures ForkedEnd(w, k, sid, parent) in {w, WithRepo(w, k.at)}
    ensures forall o :: BranchTarget(WithRepo(w, k.at), o) == BranchTarget(w, o)
  {
    hide CreatedEnd, BranchTarget;
    KeysCoincide(w, sid, k);
    WithRepoTargets(w, k.at);
    if ParseSession(parent).Some? { KeysCoincide(w, parent, ParseSession(parent).value); }
  }
}
