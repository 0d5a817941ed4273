/** The reconciler: rows of managed repositories whose branch or session is gone are
    dropped, then every live session that spells a triple and has no row gets its
    workspace. What one round achieves, when it is enough, and that two always are. */
module Reconcile {
  import opened Wrappers
  import opened Naming
  import opened Mapping
  import opened Keys
  import opened Stages
  import opened Safety

  // ----- one round -----

  /** A row survives when its repository is not managed, or its branch and its session
      are both there. */
  ghost predicate Kept(w: World, k: Key) {
    k in w.rows && (k.at in w.managed ==> BranchExists(w, k) && w.rows[k] in w.sessions)
  }

  ghost function Drifted(w: World): World {
    w.(rows := map k | k in w.rows && Kept(w, k) :: w.rows[k])
  }

  /** The names the backfill takes for mapped: those of the rows, each with the tenant
      in front, while the sessions are looked up by their bare names. */
  ghost function MappedNames(w: World): set<string> {
    set k | k in w.rows :: CacheName(w.rows[k])
  }

  /** What the backfill does for one session name. */
  function FilledIn(w: World, name: string, mapped: set<string>): World {
    if name in mapped || ParseSession(name).None? then w
    else CreatedEnd(w, ParseSession(name).value, name)
  }

  /** The backfill, over the session names in the order the map iteration gives them. */
  function Backfilled(w: World, order: seq<string>, mapped: set<string>): World {
    if order == [] then w
    else FilledIn(Backfilled(w, order[..|order| - 1], mapped), order[|order| - 1], mapped)
  }

  ghost predicate Enumerates(order: seq<string>, names: set<string>) {
    (forall i, j :: 0 <= i < j < |order| ==> order[i] != order[j]) &&
    (forall n :: n in order <==> n in names)
  }

  ghost function NameSet(order: seq<string>): set<string> {
    set n | n in order
  }

  /** `after` is what one successful round makes of `w`, up to the cache. */
  ghost predicate Round(w: World, after: World) {
    exists order :: Enumerates(order, w.sessions) &&
      SameButCache(after, Backfilled(Drifted(w), order, MappedNames(Drifted(w))))
  }

  // ----- a round in terms of its facts -----

  /** A new branch in this repository would find its anchor. */
  ghost predicate CanAnchor(w: World, at: RepoKey) {
    Resolves(w, at, Anchor(w, at))
  }

  /** A triple some of these names spells. */
  ghost predicate Spelled(names: set<string>, k: Key) {
    NamingSession(k) in names && ColonFree(k)
  }

  ghost predicate Candidate(names: set<string>, k: Key) {
    Spelled(names, k) && Named(k.at)
  }

  /** What filling in `names` makes of `d`. */
  ghost predicate Fills(d: World, names: set<string>, x: World) {
    && NamedRows(x) && x.sessions == d.sessions
    && (forall k :: k in x.rows <==> k in d.rows || Candidate(names, k))
    && (forall at :: at in x.managed <==> at in d.managed || GainsRow(d, names, at))
    && (forall at :: CanAnchor(x, at) <==> CanAnchor(d, at))
    && (forall k :: BranchExists(x, k) <==>
          BranchExists(d, k) || (Candidate(names, k) && k !in d.rows && CanAnchor(d, k.at)))
    && (forall at :: at in x.repos <==> at in d.repos || Touches(d, names, at))
    && (NeedsNothing(d, names) ==> x.repos == d.repos)
  }

  ghost predicate GainsRow(d: World, names: set<string>, at: RepoKey) {
    exists k :: Candidate(names, k) && k !in d.rows && k.at == at
  }

  ghost predicate Touches(d: World, names: set<string>, at: RepoKey) {
    exists k :: Spelled(names, k) && k !in d.rows && k.at == at
  }

  /** No repository and no branch has to be created for these names. */
  ghost predicate NeedsNothing(d: World, names: set<string>) {
    forall k :: Spelled(names, k) && k !in d.rows ==>
      k.at in d.repos && (!Named(k.at) || BranchExists(d, k) || !CanAnchor(d, k.at))
  }

  /** Creating a branch at the anchor changes nobody's anchor for better or worse. */
  lemma AnchorsStay(w: World, k: Key)
    ensures forall at :: CanAnchor(WithRepo(w, k.at), at) <==> CanAnchor(w, at)
    ensures Listed(w, k.at) ==> forall at :: CanAnchor(Branched(w, k, Anchor(w, k.at)), at) <==> CanAnchor(w, at)
  {
    assert !CanResolve(EMPTY_REPO, "main");
    var b := Branched(w, k, Anchor(w, k.at));
    if Listed(w, k.at) && b != w {
      var r, s := w.repos[k.at], b.repos[k.at];
      MainStays(r, k.branch, Anchor(w, k.at));
      assert s == r.(branches := r.branches[k.branch := Resolve(r, Anchor(w, k.at)).value]);
    }
  }

  lemma MainStays(r: Repo, branch: string, anchor: string)
    requires anchor == (if CanResolve(r, "main") then "main" else "") && Resolve(r, anchor).Some?
    requires branch !in r.branches
    ensures var s := r.(branches := r.branches[branch := Resolve(r, anchor).value]);
      Resolve(s, if CanResolve(s, "main") then "main" else "").Some?
  {
    var s := r.(branches := r.branches[branch := Resolve(r, anchor).value]);
    if CanResolve(r, "main") {
      if b :| b in r.branches && (b == "main" || r.branches[b] == "main") {
        assert b in s.branches && s.branches[b] == r.branches[b];
      }
    } else if CanResolve(s, "main") {
      assert |r.log| > 0 && r.log[0].hash != "main";
      var b :| b in s.branches && (b == "main" || s.branches[b] == "main");
      assert b == branch == "main";
    }
  }

  lemma AnchoredBranch(x: World, k: Key)
    ensures var w1 := WithRepo(x, k.at);
      && (forall o :: BranchExists(w1, o) <==> BranchExists(x, o))
      && (k.at in x.repos ==> w1 == x)
      && (Named(k.at) ==>
            var b := Branched(w1, k, Anchor(w1, k.at));
            && (forall o :: BranchExists(b, o) <==> BranchExists(x, o) || (o == k && CanAnchor(w1, k.at)))
            && (BranchExists(x, k) || !CanAnchor(w1, k.at) ==> b == w1))
  {
    hide Anchor, Resolve;
  }

  /** What a creation for an unmapped session does, whatever else there is. */
  lemma CreationEffect(x: World, k: Key, name: string)
    requires NamedRows(x) && ParseSession(name) == Some(k) && k !in x.rows
    ensures var y := CreatedEnd(x, k, name);
      && y.sessions == x.sessions
      && y.rows == (if Named(k.at) then x.rows[k := name] else x.rows)
      && y.managed == (if Named(k.at) then x.managed + {k.at} else x.managed)
      && y.repos.Keys == x.repos.Keys + {k.at}
      && (forall at :: CanAnchor(y, at) <==> CanAnchor(x, at))
      && (forall o :: BranchExists(y, o) <==> BranchExists(x, o) || (o == k && Named(k.at) && CanAnchor(x, k.at)))
      && (k.at in x.repos && (!Named(k.at) || BranchExists(x, k) || !CanAnchor(x, k.at)) ==> y.repos == x.repos)
  {
    hide CanAnchor, Branched, CreatedEnd, BranchExists, WithRepo;
    KeysCoincide(x, name, k);
    var w1 := WithRepo(x, k.at);
    var b := Branched(w1, k, Anchor(w1, k.at));
    AnchorsStay(x, k);
    AnchorsStay(w1, k);
    AnchoredBranch(x, k);
    CreationRows(x, k, name);
    RepoIsThere(x, k.at);
    var last := if Named(k.at) then b else w1;
    AnchorsByRepos(last, CreatedEnd(x, k, name));
    SameReposSameBranches(last, CreatedEnd(x, k, name));
  }

  lemma AnchorsByRepos(a: World, b: World)
    requires a.repos == b.repos
    ensures forall at :: CanAnchor(a, at) <==> CanAnchor(b, at)
  {
  }

  lemma FillOne(d: World, names: set<string>, x: World, name: string)
    requires Fills(d, names, x) && name !in names
    ensures Fills(d, names + {name}, FilledIn(x, name, {}))
  {
    hide CanAnchor, BranchExists, CreatedEnd;
    NamingOfParsed(name);
    if ParseSession(name).None? {
      NotSpelled(names, name);
    } else {
      var k := ParseSession(name).value;
      SpelledOnce(names, name, k);
      KeysCoincide(x, name, k);
      if k in x.rows {
        FillMapped(d, names, x, name, k);
      } else {
        CreationEffect(x, k, name);
        FillCreated(d, names, x, name, k);
      }
    }
  }

  lemma NotSpelled(names: set<string>, name: string)
    requires ParseSession(name).None?
    ensures forall k :: Spelled(names + {name}, k) <==> Spelled(names, k)
  {
    forall k
      ensures Spelled(names + {name}, k) <==> Spelled(names, k)
    {
      ParseOfNamed(k);
    }
  }

  lemma SpelledOnce(names: set<string>, name: string, k: Key)
    requires ParseSession(name) == Some(k) && name !in names
    ensures forall o :: Spelled(names + {name}, o) <==> Spelled(names, o) || o == k
    ensures !Spelled(names, k)
  {
    NamingOfParsed(name);
    forall o
      ensures Spelled(names + {name}, o) <==> Spelled(names, o) || o == k
    {
      ParseOfNamed(o);
    }
  }

  lemma FillMapped(d: World, names: set<string>, x: World, name: string, k: Key)
    requires Fills(d, names, x) && name !in names && ParseSession(name) == Some(k) && k in x.rows
    ensures Fills(d, names + {name}, CreatedEnd(x, k, name))
  {
    hide CanAnchor, BranchExists;
    SpelledOnce(names, name, k);
    KeysCoincide(x, name, k);
    assert k in d.rows;
    SameGains(d, names, name, k);
  }

  lemma SameGains(d: World, names: set<string>, name: string, k: Key)
    requires forall o :: Spelled(names + {name}, o) <==> Spelled(names, o) || o == k
    requires k in d.rows
    ensures forall at :: GainsRow(d, names + {name}, at) <==> GainsRow(d, names, at)
    ensures forall at :: Touches(d, names + {name}, at) <==> Touches(d, names, at)
    ensures NeedsNothing(d, names + {name}) <==> NeedsNothing(d, names)
  {
    hide CanAnchor, BranchExists, Spelled;
    forall at
      ensures GainsRow(d, names + {name}, at) <==> GainsRow(d, names, at)
      ensures Touches(d, names + {name}, at) <==> Touches(d, names, at)
    {
      if o :| Candidate(names + {name}, o) && o !in d.rows && o.at == at { assert Candidate(names, o); }
      if o :| Candidate(names, o) && o !in d.rows && o.at == at { assert Candidate(names + {name}, o); }
      if o :| Spelled(names + {name}, o) && o !in d.rows && o.at == at { assert Spelled(names, o); }
      if o :| Spelled(names, o) && o !in d.rows && o.at == at { assert Spelled(names + {name}, o); }
    }
  }

  lemma MoreGains(d: World, names: set<string>, name: string, k: Key)
    requires forall o :: Spelled(names + {name}, o) <==> Spelled(names, o) || o == k
    requires k !in d.rows
    ensures forall at :: GainsRow(d, names + {name}, at) <==> GainsRow(d, names, at) || (at == k.at && Named(at))
    ensures forall at :: Touches(d, names + {name}, at) <==> Touches(d, names, at) || at == k.at
    ensures NeedsNothing(d, names + {name}) ==>
      NeedsNothing(d, names) && k.at in d.repos && (!Named(k.at) || BranchExists(d, k) || !CanAnchor(d, k.at))
  {
    hide CanAnchor, BranchExists, Spelled;
    assert Spelled(names + {name}, k);
    forall at
      ensures GainsRow(d, names + {name}, at) <==> GainsRow(d, names, at) || (at == k.at && Named(at))
      ensures Touches(d, names + {name}, at) <==> Touches(d, names, at) || at == k.at
    {
      if o :| Candidate(names + {name}, o) && o !in d.rows && o.at == at { assert o == k || Candidate(names, o); }
      if o :| Candidate(names, o) && o !in d.rows && o.at == at { assert Candidate(names + {name}, o); }
      if o :| Spelled(names + {name}, o) && o !in d.rows && o.at == at { assert o == k || Spelled(names, o); }
      if o :| Spelled(names, o) && o !in d.rows && o.at == at { assert Spelled(names + {name}, o); }
      if at == k.at && Named(at) { assert Candidate(names + {name}, k); }
    }
  }

  lemma FillCreated(d: World, names: set<string>, x: World, name: string, k: Key)
    requires Fills(d, names, x) && name !in names && ParseSession(name) == Some(k) && k !in x.rows
    ensures Fills(d, names + {name}, CreatedEnd(x, k, name))
  {
    hide CanAnchor, BranchExists, CreatedEnd, GainsRow, Touches, NeedsNothing;
    NamingOfParsed(name);
    SpelledOnce(names, name, k);
    CreationEffect(x, k, name);
    MoreGains(d, names, name, k);
    assert !Candidate(names, k);
  }

  lemma FillNone(d: World)
    requires NamedRows(d)
    ensures Fills(d, {}, d)
  {
  }

  lemma {:induction false} BackfillFills(d: World, order: seq<string>, mapped: set<string>)
    requires NamedRows(d) && forall i, j :: 0 <= i < j < |order| ==> order[i] != order[j]
    requires forall n :: n in order ==> n !in mapped
    ensures Fills(d, NameSet(order), Backfilled(d, order, mapped))
  {
    hide Fills;
    if order == [] {
      FillNone(d);
      assert NameSet(order) == {};
    } else {
      var init, last := order[..|order| - 1], order[|order| - 1];
      BackfillFills(d, init, mapped);
      FillOne(d, NameSet(init), Backfilled(d, init, mapped), last);
      assert last in order;
      assert NameSet(order) == NameSet(init) + {last};
    }
  }

  /** Agent session names hold no NUL character. */
  ghost predicate PlainNames(names: set<string>) {
    forall n :: n in names ==> '\0' !in n
  }

  /** No session is ever found among the mapped names, so the backfill goes through the
      creation for every one of them and relies on its own test for a row. */
  lemma NobodyIsFoundMapped(w: World, name: string)
    requires PlainNames(w.sessions) && name in w.sessions
    ensures name !in MappedNames(w)
  {
    assert forall k :: k in w.rows ==> CacheName(w.rows[k])[|TENANT|] == '\0';
  }

  lemma RoundFills(w: World, after: World)
    requires NamedRows(w) && PlainNames(w.sessions) && Round(w, after)
    ensures Fills(Drifted(w), w.sessions, after)
  {
    var d := Drifted(w);
    var order :| Enumerates(order, w.sessions) && SameButCache(after, Backfilled(d, order, MappedNames(d)));
    forall n | n in order
      ensures n !in MappedNames(d)
    {
      NobodyIsFoundMapped(d, n);
    }
    BackfillFills(d, order, MappedNames(d));
    assert NameSet(order) == w.sessions;
    FillsIgnoresCache(d, w.sessions, Backfilled(d, order, MappedNames(d)), after);
  }

  lemma FillsIgnoresCache(d: World, names: set<string>, x: World, y: World)
    requires Fills(d, names, x) && SameButCache(y, x)
    ensures Fills(d, names, y)
  {
    assert x.repos == Crash(x).repos == Crash(y).repos == y.repos;
    assert x.rows == Crash(x).rows == Crash(y).rows == y.rows;
    assert x.managed == Crash(x).managed == Crash(y).managed == y.managed;
    assert x.sessions == Crash(x).sessions == Crash(y).sessions == y.sessions;
  }

  // ----- what a round achieves -----

  /** A live session has its row and its branch after a round exactly when the branch was
      there, or its creation was possible: a named repository whose anchor resolves, and
      no row left alone because its repository is not managed. */
  lemma RoundHealsExactly(w: World, after: World, k: Key)
    requires NamedRows(w) && PlainNames(w.sessions) && Round(w, after)
    requires Spelled(w.sessions, k)
    ensures (k in after.rows && after.rows[k] == NamingSession(k) && BranchExists(after, k))
      <==> (BranchExists(w, k)
            || (Named(k.at) && CanAnchor(w, k.at) && (k !in w.rows || k.at in w.managed)))
  {
    RoundFills(w, after);
    DriftSees(w);
  }

  /** Every row of a repository that was managed has a live session afterwards, and has
      its branch exactly when that existed or its anchor resolves. */
  lemma RoundCleansManaged(w: World, after: World, k: Key)
    requires NamedRows(w) && PlainNames(w.sessions) && Round(w, after)
    requires k in after.rows && k.at in w.managed
    ensures after.rows[k] in after.sessions
    ensures BranchExists(after, k) <==> BranchExists(w, k) || CanAnchor(w, k.at)
  {
    RoundFills(w, after);
    DriftSees(w);
  }

  /** Dropping rows changes neither branches nor anchors. */
  lemma DriftSees(w: World)
    ensures forall k :: BranchExists(Drifted(w), k) <==> BranchExists(w, k)
    ensures forall at :: CanAnchor(Drifted(w), at) <==> CanAnchor(w, at)
    ensures forall k :: k in Drifted(w).rows <==> Kept(w, k)
    ensures NamedRows(w) ==> NamedRows(Drifted(w))
  {
    AnchorsByRepos(Drifted(w), w);
  }

  /** A row the drift pass deletes: its repository is managed, and its branch or its
      session is not listed. */
  ghost predicate Dead(w: World, k: Key, live: set<string>) {
    && k in w.rows && k.at in w.managed
    && (k.at !in w.repos || !Named(k.at) || k.branch !in w.repos[k.at].branches || w.rows[k] !in live)
  }

  /** What the drift pass has made of `w` once it has been over `order`. */
  ghost predicate DriftedBy(w: World, order: seq<Key>, live: set<string>, after: World) {
    && after == w.(rows := after.rows, cache := after.cache)
    && (forall k :: k in after.rows <==> k in w.rows && !(k in order && Dead(w, k, live)))
    && (forall k :: k in after.rows ==> after.rows[k] == w.rows[k])
    && (forall name :: name in after.cache <==>
          name in w.cache && !exists k :: k in order && Dead(w, k, live) && w.rows[k] == name)
    && (forall name :: name in after.cache ==> after.cache[name] == w.cache[name])
  }

  /** A drift pass over any listing of rows and sessions, however old: the dead rows of the
      listing go, the entries under their bare session names go, and nothing else
      changes. */
  lemma {:induction false} DriftDoes(w: World, order: seq<Key>, live: set<string>)
    ensures DriftedBy(w, order, live, Final(DriftT(Start(w), order, live)))
  {
    hide DriftedBy, DropDeadT;
    if order == [] {
      DriftedByNothing(w, live);
    } else {
      var n := |order| - 1;
      DriftDoes(w, order[..n], live);
      var t := DriftT(Start(w), order[..n], live);
      DropDoes(t, order[n], live);
      OneMoreDrifted(w, order, live, Final(t));
    }
  }

  lemma DriftedByNothing(w: World, live: set<string>)
    ensures DriftedBy(w, [], live, w)
  {
  }

  /** The drop of one row, against the listing of sessions. */
  function Dropped(w: World, k: Key): World
    requires k in w.rows
  {
    w.(rows := w.rows - {k}, cache := w.cache - {w.rows[k]})
  }

  lemma DropDoes(t: Trace, k: Key, live: set<string>)
    requires t.worlds != []
    ensures Final(DropDeadT(t, k, live)) == if Dead(Final(t), k, live) then Dropped(Final(t), k) else Final(t)
  {
  }

  lemma OneMoreDrifted(w: World, order: seq<Key>, live: set<string>, before: World)
    requires order != [] && DriftedBy(w, order[..|order| - 1], live, before)
    ensures var k := order[|order| - 1];
      DriftedBy(w, order, live, if Dead(before, k, live) then Dropped(before, k) else before)
  {
    var n := |order| - 1;
    var k := order[n];
    assert forall o :: o in order <==> o in order[..n] || o == k;
    assert Dead(before, k, live) <==> Dead(w, k, live) && k !in order[..n];
  }

  /** So with the rows as they are and the sessions that live, the pass leaves exactly the
      rows that are kept. */
  lemma DriftKeepsExactly(w: World, order: seq<Key>)
    requires forall k :: k in w.rows ==> k in order
    ensures SameButCache(Final(DriftT(Start(w), order, w.sessions)), Drifted(w))
  {
    DriftDoes(w, order, w.sessions);
    var after := Final(DriftT(Start(w), order, w.sessions));
    assert after.rows == Drifted(w).rows;
  }

  /** With a revision in every repository a live session names, and every row of an
      unmanaged repository backed, one round leaves every live session that spells a
      triple with its row and branch. */
  lemma RoundHealsEverySession(w: World, after: World)
    requires NamedRows(w) && PlainNames(w.sessions) && Round(w, after)
    requires forall k :: Spelled(w.sessions, k) ==> Named(k.at) && HasRevision(w, k.at)
    requires forall k :: k in w.rows && k.at !in w.managed ==> BranchExists(w, k)
    ensures forall k :: Spelled(w.sessions, k) ==> k in after.rows && BranchExists(after, k)
    ensures forall k :: k in after.rows && k.at in w.managed ==>
      after.rows[k] in after.sessions && (HasRevision(w, k.at) ==> BranchExists(after, k))
  {
    forall k | Spelled(w.sessions, k)
      ensures k in after.rows && BranchExists(after, k)
    {
      AnchorResolves(w, k.at);
      RoundHealsExactly(w, after, k);
    }
    forall k | k in after.rows && k.at in w.managed
      ensures after.rows[k] in after.sessions && (HasRevision(w, k.at) ==> BranchExists(after, k))
    {
      RoundCleansManaged(w, after, k);
      if HasRevision(w, k.at) { AnchorResolves(w, k.at); }
    }
  }

  /** A deletion cut short anywhere leaves nothing the next drift pass does not repair,
      if its repository is managed. */
  lemma DriftRepairsDeletion(w: World, sid: string, k: Key, calls: nat)
    requires Backed(w) && NamedRows(w) && ParseSession(sid) == Some(k) && k.at in w.managed
    requires calls < |Deliver(w, Deleted(sid)).worlds|
    ensures Backed(Drifted(Crash(Deliver(w, Deleted(sid)).worlds[calls])))
  {
    hide DeletedT, Drifted, Backed, BackedExcept, DeleteStages;
    var x := Deliver(w, Deleted(sid)).worlds[calls];
    DeletedSteps(w, sid, k);
    DeletePasses(w, k, sid);
    DeletionKeepsManaged(w, k, sid, x);
    DriftDrops(x, k);
  }

  lemma DriftDrops(x: World, k: Key)
    requires BackedExcept(x, k) && k.at in x.managed
    ensures Backed(Drifted(Crash(x)))
  {
    SameReposSameBranches(x, Crash(x));
    SameReposSameBranches(x, Drifted(Crash(x)));
    hide BranchExists;
  }

  lemma DeletionKeepsManaged(w: World, k: Key, sid: string, x: World)
    requires x in DeleteStages(w, k, sid) || x == w
    ensures x.managed == w.managed
  {
  }

  // ----- when rounds stop changing anything -----

  /** Some live session without a row puts this repository under management. */
  ghost predicate BecomesManaged(w: World, at: RepoKey) {
    at !in w.managed && GainsRow(Drifted(w), w.sessions, at)
  }

  /** No repository that comes under management holds a row a later round would drop, or
      a row whose missing branch it would create. */
  ghost predicate OneRoundSettles(w: World) {
    forall k :: k in w.rows && BecomesManaged(w, k.at) ==>
      w.rows[k] in w.sessions && (BranchExists(w, k) || (ColonFree(k) && !CanAnchor(w, k.at)))
  }

  /** Nothing is left for another round: rows that would be dropped come straight back,
      and nothing has to be created. */
  ghost predicate Settled(w: World) {
    && (forall k :: k in w.rows && !Kept(w, k) ==> Candidate(w.sessions, k))
    && (forall k :: Candidate(w.sessions, k) ==> k in w.rows)
    && (forall k :: Candidate(w.sessions, k) && !Kept(w, k) ==> k.at in w.managed)
    && NeedsNothing(Drifted(w), w.sessions)
  }

  /** A round leaves everything but the cache as it was exactly in a settled world. */
  lemma UnchangedExactlyWhenSettled(w: World, after: World)
    requires NamedRows(w) && PlainNames(w.sessions) && Round(w, after)
    ensures SameButCache(after, w) <==> Settled(w)
  {
    RoundFills(w, after);
    DriftSees(w);
    if Settled(w) {
      SettledIsUnchanged(w, after);
    }
  }

  lemma SettledIsUnchanged(w: World, after: World)
    requires NamedRows(w) && Fills(Drifted(w), w.sessions, after) && Settled(w)
    ensures SameButCache(after, w)
  {
    hide CanAnchor, BranchExists, Kept, NeedsNothing;
    DriftSees(w);
    assert forall k :: k in after.rows <==> k in w.rows;
    assert after.rows == w.rows;
    forall at
      ensures at in after.managed <==> at in w.managed
    {
      if k :| Candidate(w.sessions, k) && k !in Drifted(w).rows && k.at == at {
        assert !Kept(w, k);
      }
    }
    assert after.managed == w.managed;
  }

  /** After a round every live session that spells a named triple has a row, so a later
      round puts no further repository under management. */
  lemma SecondRoundManagesNothingNew(w: World, w1: World, w2: World)
    requires NamedRows(w) && PlainNames(w.sessions) && Round(w, w1) && Round(w1, w2)
    ensures w2.managed == w1.managed
    ensures forall k :: Candidate(w1.sessions, k) ==> k in w1.rows && w1.rows[k] in w1.sessions
  {
    hide CanAnchor, BranchExists, NeedsNothing;
    RoundFills(w, w1);
    RoundFills(w1, w2);
    DriftSees(w1);
    forall at
      ensures at in w2.managed <==> at in w1.managed
    {
      if k :| Candidate(w1.sessions, k) && k !in Drifted(w1).rows && k.at == at {
        assert k in w1.rows && !Kept(w1, k);
      }
    }
  }

  /** Two rounds always reach a world no further round changes. */
  lemma TwoRoundsSettle(w: World, w1: World, w2: World)
    requires NamedRows(w) && PlainNames(w.sessions) && Round(w, w1) && Round(w1, w2)
    ensures Settled(w2)
  {
    RoundFills(w, w1);
    SecondRoundManagesNothingNew(w, w1, w2);
    RoundFills(w1, w2);
    DriftSees(w1);
    DriftSees(w2);
    SettledAfterTwo(w1, w2);
  }

  lemma SettledAfterTwo(w1: World, w2: World)
    requires NamedRows(w1) && Fills(Drifted(w1), w1.sessions, w2) && w2.managed == w1.managed
    requires forall k :: Candidate(w1.sessions, k) ==> k in w1.rows && w1.rows[k] in w1.sessions
    ensures Settled(w2)
  {
    hide CanAnchor, BranchExists;
    DriftSees(w1);
    DriftSees(w2);
    forall k | k in w2.rows && !Candidate(w2.sessions, k)
      ensures Kept(w2, k)
    {
      assert Kept(w1, k);
    }
    forall k | Spelled(w2.sessions, k) && k !in Drifted(w2).rows
      ensures k.at in w2.repos
      ensures !Named(k.at) || BranchExists(w2, k) || !CanAnchor(w2, k.at)
    {
      assert !Kept(w1, k);
      assert Touches(Drifted(w1), w1.sessions, k.at);
    }
  }

  /** One round is enough exactly when nothing waits in a repository that comes under
      management during it. */
  lemma OneRoundSettlesExactly(w: World, w1: World)
    requires NamedRows(w) && PlainNames(w.sessions) && Round(w, w1)
    ensures Settled(w1) <==> OneRoundSettles(w)
  {
    RoundFills(w, w1);
    DriftSees(w);
    DriftSees(w1);
    if OneRoundSettles(w) {
      SettledAfterOne(w, w1);
    } else {
      var k :| k in w.rows && BecomesManaged(w, k.at) &&
        !(w.rows[k] in w.sessions && (BranchExists(w, k) || (ColonFree(k) && !CanAnchor(w, k.at))));
      UnsettledAfterOne(w, w1, k);
    }
  }

  lemma SettledAfterOne(w: World, w1: World)
    requires NamedRows(w) && Fills(Drifted(w), w.sessions, w1) && OneRoundSettles(w)
    ensures Settled(w1)
  {
    hide CanAnchor, BranchExists, Fills, OneRoundSettles, Kept, Candidate;
    DriftSees(w1);
    forall k | k in w1.rows && !Kept(w1, k)
      ensures Candidate(w1.sessions, k)
    {
      DroppedComesBack(w, w1, k);
    }
    forall k | Spelled(w1.sessions, k) && !Kept(w1, k)
      ensures k.at in w1.repos && (Candidate(w1.sessions, k) ==> k in w1.rows && k.at in w1.managed)
      ensures !Named(k.at) || BranchExists(w1, k) || !CanAnchor(w1, k.at)
    {
      NothingToCreate(w, w1, k);
    }
    forall k | Candidate(w1.sessions, k)
      ensures k in w1.rows && Spelled(w1.sessions, k)
    {
      FilledRows(w, w1, k);
    }
  }

  lemma FilledRows(w: World, w1: World, k: Key)
    requires Fills(Drifted(w), w.sessions, w1) && Candidate(w1.sessions, k)
    ensures k in w1.rows && Spelled(w1.sessions, k)
  {
  }

  lemma DroppedComesBack(w: World, w1: World, k: Key)
    requires NamedRows(w) && Fills(Drifted(w), w.sessions, w1) && OneRoundSettles(w)
    requires k in w1.rows && !Kept(w1, k)
    ensures Candidate(w1.sessions, k)
  {
    hide CanAnchor, BranchExists;
    DriftSees(w);
    DriftSees(w1);
    if !Candidate(w1.sessions, k) {
      assert Kept(w, k);
      if BecomesManaged(w, k.at) {
        GainedIsNamed(w, k.at);
      }
    }
  }

  lemma NothingToCreate(w: World, w1: World, k: Key)
    requires NamedRows(w) && Fills(Drifted(w), w.sessions, w1) && OneRoundSettles(w)
    requires Spelled(w1.sessions, k) && !Kept(w1, k)
    ensures k.at in w1.repos && (Candidate(w1.sessions, k) ==> k in w1.rows && k.at in w1.managed)
    ensures !Named(k.at) || BranchExists(w1, k) || !CanAnchor(w1, k.at)
  {
    hide CanAnchor, BranchExists;
    DriftSees(w);
    if Kept(w, k) {
      assert k in w1.rows && k in w.rows;
      assert BecomesManaged(w, k.at);
      GainedIsNamed(w, k.at);
    } else {
      assert Touches(Drifted(w), w.sessions, k.at);
    }
  }

  lemma GainedIsNamed(w: World, at: RepoKey)
    requires GainsRow(Drifted(w), w.sessions, at)
    ensures Named(at) && Touches(Drifted(w), w.sessions, at)
  {
    var k :| Candidate(w.sessions, k) && k !in Drifted(w).rows && k.at == at;
    assert Spelled(w.sessions, k);
  }

  lemma UnsettledAfterOne(w: World, w1: World, k: Key)
    requires NamedRows(w) && Fills(Drifted(w), w.sessions, w1)
    requires k in w.rows && BecomesManaged(w, k.at)
    requires !(w.rows[k] in w.sessions && (BranchExists(w, k) || (ColonFree(k) && !CanAnchor(w, k.at))))
    ensures !Settled(w1)
  {
    hide CanAnchor;
    DriftSees(w);
    DriftSees(w1);
    GainedIsNamed(w, k.at);
    assert Kept(w, k) && k in w1.rows && k.at in w1.managed && !Kept(w1, k);
    if Candidate(w1.sessions, k) {
      assert !BranchExists(w1, k) && CanAnchor(w1, k.at);
    }
  }

  /** Both results on consecutive rounds: the second changes nothing exactly under the
      condition above, and the third never does. */
  lemma WhenRoundsStop(w: World, w1: World, w2: World, w3: World)
    requires NamedRows(w) && PlainNames(w.sessions)
    requires Round(w, w1) && Round(w1, w2) && Round(w2, w3)
    ensures SameButCache(w2, w1) <==> OneRoundSettles(w)
    ensures SameButCache(w3, w2)
  {
    hide Round, Settled, OneRoundSettles, SameButCache;
    RoundKeepsNames(w, w1);
    RoundKeepsNames(w1, w2);
    OneRoundSettlesExactly(w, w1);
    UnchangedExactlyWhenSettled(w1, w2);
    TwoRoundsSettle(w, w1, w2);
    UnchangedExactlyWhenSettled(w2, w3);
  }

  lemma RoundKeepsNames(w: World, after: World)
    requires NamedRows(w) && PlainNames(w.sessions) && Round(w, after)
    ensures NamedRows(after) && after.sessions == w.sessions
  {
    RoundFills(w, after);
  }

  // ----- the cache again -----

  lemma {:induction false} BackfillIgnoresCache(a: World, b: World, order: seq<string>, mapped: set<string>)
    requires SameButCache(a, b)
    ensures SameButCache(Backfilled(a, order, mapped), Backfilled(b, order, mapped))
  {
    if order != [] {
      var init, last := order[..|order| - 1], order[|order| - 1];
      BackfillIgnoresCache(a, b, init, mapped);
      if ParseSession(last).Some? {
        CreatedEndWithoutCache(Backfilled(a, init, mapped), ParseSession(last).value, last);
        CreatedEndWithoutCache(Backfilled(b, init, mapped), ParseSession(last).value, last);
      }
    }
  }
}
