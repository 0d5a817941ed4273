/** Revision coherence of one sandbox: its registry row remembers which tree was last
    pushed to which boot of its worker, and a sync that finds nothing changed is
    skipped, because pushing wipes the workspace. */
module SandboxSync {
  import opened Wrappers
  import opened Naming
  import opened SandboxRegistry

  /** A sync in progress: the tree it exported, then the boot id it read. */
  datatype Phase =
    | Idle
    | Exported(tree: string)
    | BootRead(tree: string, boot: string)
    | Chosen(tree: string, boot: string)
    | Pushed(tree: string, boot: string)

  /** `live` is the boot id of the worker the sandbox's name leads to; `base` gives,
      for every boot there has been, the tree last pushed to it ("" for none). */
  datatype World = World(
    row: Option<Sandbox>,
    live: Option<string>,
    base: map<string, string>,
    heads: map<Key, string>,
    phase: Phase)

  datatype Event =
    // what happens around the syncs
    | Boot(boot: string)                      // the worker restarts or is relaunched
    | MoveHead(at: Key, head: string)         // a commit moves a branch
    | LaunchUpsert(row: Sandbox)              // LaunchSandbox records its row
    | Destroy                                 // the worker is deleted
    | DeleteRow
    | Register(row: Sandbox, worker: string)  // an external worker is registered
    // the steps of one sync
    | Export(from: Key)
    | ReadBoot(reachable: bool)
    | Decide(readable: bool)
    | Push(succeeds: bool)
    | Mark
    | GiveUp                                  // an error return or a crash

  predicate IsSyncStep(e: Event) {
    e.Export? || e.ReadBoot? || e.Decide? || e.Push? || e.Mark? || e.GiveUp?
  }

  function SyncedRev(w: World): string {
    if w.row.Some? then w.row.value.syncedRev else ""
  }

  function SyncedBoot(w: World): string {
    if w.row.Some? then w.row.value.syncedBootId else ""
  }

  /** The skip test of the sync. */
  predicate UpToDate(row: Option<Sandbox>, tree: string, boot: string) {
    row.Some? && row.value.syncedRev == tree && row.value.syncedBootId != "" && row.value.syncedBootId == boot
  }

  /** What can happen when: boot ids are never reused, and a sync takes its steps in
      order and may be given up after any of them. */
  predicate Enabled(w: World, e: Event) {
    match e
    case Boot(boot) => boot != "" && boot !in w.base
    case MoveHead(_, head) => head != ""
    case LaunchUpsert(row) => row.syncedRev == "" && row.syncedBootId == ""
    case Destroy => true
    case DeleteRow => true
    case Register(row, worker) => worker != "" && row.syncedRev == "" && row.syncedBootId == worker
    case Export(from) => w.phase == Idle && from in w.heads
    case ReadBoot(_) => w.phase.Exported?
    case Decide(_) => w.phase.BootRead?
    case Push(succeeds) => w.phase.Chosen? && (succeeds ==> w.live.Some?)
    case Mark => w.phase.Pushed?
    case GiveUp => true
  }

  function Effect(w: World, e: Event): World {
    match e
    case Boot(boot) => w.(live := Some(boot), base := w.base[boot := ""])
    case MoveHead(at, head) => w.(heads := w.heads[at := head])
    case LaunchUpsert(row) => w.(row := Upserted(w.row, row))
    case Destroy => w.(live := None)
    case DeleteRow => w.(row := None)
    case Register(row, worker) =>
      w.(row := Upserted(w.row, row), live := Some(worker),
         base := if worker in w.base then w.base else w.base[worker := ""])
    case Export(from) => if from in w.heads then w.(phase := Exported(w.heads[from])) else w
    case ReadBoot(reachable) =>
      if !w.phase.Exported? then w
      else w.(phase := BootRead(w.phase.tree, if reachable && w.live.Some? then w.live.value else ""))
    case Decide(readable) =>
      if !w.phase.BootRead? then w
      else if readable && UpToDate(w.row, w.phase.tree, w.phase.boot) then w.(phase := Idle)
      else w.(phase := Chosen(w.phase.tree, w.phase.boot))
    case Push(succeeds) =>
      if !w.phase.Chosen? then w
      else if !succeeds || w.live.None? then w.(phase := Idle)
      else w.(phase := Pushed(w.phase.tree, w.phase.boot), base := w.base[w.live.value := w.phase.tree])
    case Mark =>
      if !w.phase.Pushed? then w
      else w.(phase := Idle, row := Marked(w.row, w.phase.tree, w.phase.boot))
    case GiveUp => w.(phase := Idle)
  }

  /** An event that cannot happen is passed over. */
  function Apply(w: World, e: Event): World {
    if Enabled(w, e) then Effect(w, e) else w
  }

  function Exec(w: World, events: seq<Event>): World
    decreases events
  {
    if events == [] then w else Exec(Apply(w, events[0]), events[1..])
  }

  /** The promise: a recorded boot id that is the live worker's goes with the tree
      last pushed to it. */
  ghost predicate Coherent(w: World) {
    SyncedRev(w) != "" && SyncedBoot(w) != "" && w.live == Some(SyncedBoot(w)) ==>
      SyncedBoot(w) in w.base && w.base[SyncedBoot(w)] == SyncedRev(w)
  }

  ghost predicate Known(w: World, boot: string) {
    boot == "" || boot in w.base
  }

  /** While a push is not marked yet, a row that claims the live boot, old or new, is
      about a worker that has the pushed tree. */
  ghost predicate Sound(w: World) {
    && (w.live.Some? ==> w.live.value != "" && w.live.value in w.base)
    && Known(w, SyncedBoot(w))
    && (forall k :: k in w.heads ==> w.heads[k] != "")
    && (!w.phase.Idle? ==> w.phase.tree != "")
    && (w.phase.BootRead? || w.phase.Chosen? || w.phase.Pushed? ==> Known(w, w.phase.boot))
    && (!w.phase.Pushed? ==> Coherent(w))
    && (w.phase.Pushed? ==>
          forall boot :: boot in {w.phase.boot, SyncedBoot(w)} && boot != "" && w.live == Some(boot) ==>
            w.base[boot] == w.phase.tree)
  }

  /** The tree last pushed to a worker, "" for none. */
  function BaseOf(w: World, worker: string): string {
    if worker in w.base then w.base[worker] else ""
  }

  /** What keeps the promise, told from the world an event meets: an external worker has
      what the row says, or, between a push and its mark, what was pushed; and a sync
      given up between the two leaves no row that claims another tree for the live boot. */
  ghost predicate Careful(w: World, e: Event) {
    match e
    case Register(_, worker) =>
      if w.phase.Pushed? then BaseOf(w, worker) == w.phase.tree else SyncedRev(w) in {"", BaseOf(w, worker)}
    case GiveUp => w.phase.Pushed? ==> SyncedRev(w) in {"", w.phase.tree} || w.live != Some(SyncedBoot(w))
    case _ => true
  }

  ghost predicate CarefulRun(w: World, events: seq<Event>)
    decreases events
  {
    events == [] || ((Enabled(w, events[0]) ==> Careful(w, events[0])) && CarefulRun(Apply(w, events[0]), events[1..]))
  }

  lemma ApplyKeepsSound(w: World, e: Event)
    requires Sound(w) && (Enabled(w, e) ==> Careful(w, e))
    ensures Sound(Apply(w, e))
  {
  }

  /** Coherence over every careful run, whatever restarts, branch moves, relaunches,
      deletions and registrations happen between and during the syncs, wherever these
      are given up. */
  lemma {:induction false} RunsKeepSound(w: World, events: seq<Event>)
    requires Sound(w) && CarefulRun(w, events)
    ensures Sound(Exec(w, events))
    decreases events
  {
    hide Sound, Careful;
    if events != [] {
      ApplyKeepsSound(w, events[0]);
      RunsKeepSound(Apply(w, events[0]), events[1..]);
    }
  }

  /** The promise holds after every event of the run, a push waiting for its mark
      excepted. */
  ghost predicate CoherentThroughout(w: World, events: seq<Event>)
    decreases events
  {
    (w.phase.Pushed? || Coherent(w)) && (events == [] || CoherentThroughout(Apply(w, events[0]), events[1..]))
  }

  /** No worker is registered between a push and its mark. */
  ghost predicate NoLateRegistration(w: World, events: seq<Event>)
    decreases events
  {
    events == [] || (!(events[0].Register? && w.phase.Pushed?) && NoLateRegistration(Apply(w, events[0]), events[1..]))
  }

  /** Every run that is not careful breaks the promise at some point. */
  lemma {:induction false} RunsAreCoherentExactly(w: World, events: seq<Event>)
    requires Sound(w) && NoLateRegistration(w, events)
    ensures CoherentThroughout(w, events) <==> CarefulRun(w, events)
    decreases events
  {
    hide Sound, Careful, Coherent, Effect, Enabled;
    SoundIsCoherent(w);
    if events != [] {
      var e := events[0];
      if Enabled(w, e) ==> Careful(w, e) {
        ApplyKeepsSound(w, e);
        RunsAreCoherentExactly(Apply(w, e), events[1..]);
      } else {
        CarelessBreaks(w, e);
      }
    }
  }

  lemma SoundIsCoherent(w: World)
    requires Sound(w)
    ensures w.phase.Pushed? || Coherent(w)
  {
  }

  lemma CarelessBreaks(w: World, e: Event)
    requires Sound(w) && Enabled(w, e) && !Careful(w, e) && !(e.Register? && w.phase.Pushed?)
    ensures !Effect(w, e).phase.Pushed? && !Coherent(Effect(w, e))
  {
  }

  lemma {:induction false} ExecConcat(w: World, a: seq<Event>, b: seq<Event>)
    ensures Exec(w, a + b) == Exec(Exec(w, a), b)
    decreases a
  {
    if a == [] {
      assert a + b == b;
    } else {
      assert (a + b)[1..] == a[1..] + b;
      ExecConcat(Apply(w, a[0]), a[1..], b);
    }
  }

  lemma ExecSnoc(w: World, events: seq<Event>, e: Event)
    ensures Exec(w, events + [e]) == Apply(Exec(w, events), e)
  {
    ExecConcat(w, events, [e]);
    assert Exec(Exec(w, events), [e]) == Apply(Exec(w, events), e);
  }

  /** Registering an external worker over any row keeps the promise exactly when the
      kept revision is none or is what that worker already has. */
  lemma RegisterKeepsCoherenceExactly(w: World, row: Sandbox, worker: string)
    requires Sound(w) && worker != "" && row.syncedRev == "" && row.syncedBootId == worker
    ensures Coherent(Effect(w, Register(row, worker)))
      <==> SyncedRev(w) in {"", if worker in w.base then w.base[worker] else ""}
  {
  }

  /** A crash between the push and its mark keeps the promise exactly when the row does
      not claim the live boot, or already claims the pushed tree. */
  lemma CrashAfterPushKeepsCoherenceExactly(w: World)
    requires Sound(w) && w.phase.Chosen? && w.live.Some?
    ensures Coherent(Effect(Effect(w, Push(true)), GiveUp))
      <==> SyncedRev(w) in {"", w.phase.tree} || w.live != Some(SyncedBoot(w))
  {
  }

  // ----- when a sync is skipped -----

  /** The row is about the live boot and this tree. */
  ghost predicate InSync(w: World, tree: string) {
    && w.row.Some? && w.row.value.syncedRev == tree
    && w.live.Some? && w.live.value != "" && w.row.value.syncedBootId == w.live.value
  }

  lemma InSyncIsUpToDate(w: World, tree: string)
    requires InSync(w, tree)
    ensures UpToDate(w.row, tree, w.live.value)
  {
  }

  /** What a skip takes: a row with the tree and a boot id that is the one read, which is
      one. */
  lemma UpToDateExactly(row: Option<Sandbox>, tree: string, boot: string)
    ensures UpToDate(row, tree, boot) <==> Claims(row, tree, boot)
  {
    if row.Some? { assert row == Some(row.value); }
  }

  /** The row says that this boot, which is known, has this tree. */
  ghost predicate Claims(row: Option<Sandbox>, tree: string, boot: string) {
    boot != "" && exists r :: row == Some(r) && r.syncedRev == tree && r.syncedBootId == boot
  }

  /** Right after a sync, the next one for the same head finds nothing to do. */
  lemma NextSyncSkips(w: World, at: Key)
    requires w.phase.Pushed? && w.row.Some? && w.phase.boot != "" && w.live == Some(w.phase.boot)
    requires at in w.heads && w.heads[at] == w.phase.tree
    ensures Exec(w, [Mark, Export(at), ReadBoot(true), Decide(true)]) == Exec(w, [Mark])
    ensures Exec(w, [Mark]).phase == Idle && InSync(Exec(w, [Mark]), w.heads[at])
  {
    hide Exec;
    var events := [Export(at), ReadBoot(true), Decide(true)];
    ExecConcat(w, [Mark], events);
    assert [Mark] + events == [Mark, Export(at), ReadBoot(true), Decide(true)];
    var marked := Exec(w, [Mark]);
    NothingDone(w);
    ExecSnoc(w, [], Mark);
    assert [] + [Mark] == [Mark];
    NothingDone(marked);
    ExecSnoc(marked, [], events[0]);
    ExecSnoc(marked, [events[0]], events[1]);
    ExecSnoc(marked, [events[0], events[1]], events[2]);
    assert [] + [events[0]] == [events[0]] && [events[0]] + [events[1]] == [events[0], events[1]]
        && [events[0], events[1]] + [events[2]] == events;
  }

  /** The name leads to one boot, and the row stays. */
  ghost predicate Quiet(events: seq<Event>) {
    forall e :: e in events ==> !IsBoot(e) && !e.DeleteRow? && !IsSyncStep(e)
  }

  lemma PhaseIsNoMatter(a: World, b: World, tree: string)
    ensures a.row == b.row && a.live == b.live ==> InSync(a, tree) == InSync(b, tree)
    ensures InSync(a, tree) ==> a.live.Some?
  {
  }

  lemma {:induction false} QuietKeepsSync(w: World, events: seq<Event>, tree: string)
    requires InSync(w, tree) && Quiet(events)
    ensures InSync(Exec(w, events), tree) && Exec(w, events).live == w.live
    decreases events
  {
    if events != [] {
      assert events[0] in events && forall e :: e in events[1..] ==> e in events;
      QuietKeepsSync(Apply(w, events[0]), events[1..], tree);
    }
  }

  // ----- the sync, with the world interfering -----

  /** The name leads to another boot afterwards. */
  predicate IsBoot(e: Event) {
    e.Boot? || e.Destroy? || e.Register?
  }

  /** What can happen while a sync is under way. */
  predicate Around(events: seq<Event>) {
    forall i :: 0 <= i < |events| ==> !IsSyncStep(events[i])
  }

  /** Without a restart, surroundings leave worker, pushed trees and phase alone. */
  lemma {:induction false} AroundKeepsWorker(w: World, events: seq<Event>)
    requires Around(events)
    ensures Exec(w, events).phase == w.phase
    ensures (forall i :: 0 <= i < |events| ==> !IsBoot(events[i])) ==>
      Exec(w, events).live == w.live && Exec(w, events).base == w.base
    decreases events
  {
    if events != [] {
      AroundKeepsWorker(Apply(w, events[0]), events[1..]);
    }
  }

  datatype SyncResult = Skipped | Synced | Failed

  /** The server's part in the syncs of one sandbox; its row is the one the registry
      keeps under its name. */
  class SandboxServer {
    const registry: Registry
    const name: string
    var live: Option<string>
    var base: map<string, string>
    var heads: map<Key, string>
    ghost var phase: Phase
    ghost var history: seq<Event>

    ghost function Abs(): World
      reads this, registry
    {
      World(Lookup(registry.rows, name), live, base, heads, phase)
    }

    /** The rows of the other sandboxes. */
    ghost function Others(): map<string, Sandbox>
      reads this, registry
    {
      registry.rows - {name}
    }

    constructor (registry: Registry, name: string)
      requires Lookup(registry.rows, name) == None
      ensures this.registry == registry && this.name == name
      ensures Sound(Abs()) && Abs().phase == Idle && history == []
    {
      this.registry, this.name := registry, name;
      live, base, heads, phase, history := None, map[], map[], Idle, [];
    }

    /** One thing that happens around the sync. */
    method Meet(e: Event)
      requires !IsSyncStep(e)
      modifies this, registry
      ensures Abs() == Apply(old(Abs()), e) && history == old(history) && Others() == old(Others())
    {
      ghost var before := registry.rows;
      match e {
        case Boot(boot) =>
          if boot != "" && boot !in base {
            live, base := Some(boot), base[boot := ""];
          }
        case MoveHead(at, head) =>
          if head != "" {
            heads := heads[at := head];
          }
        case LaunchUpsert(row) =>
          if row.syncedRev == "" && row.syncedBootId == "" {
            registry.Upsert(name, row);
          }
        case Destroy => live := None;
        case DeleteRow => registry.Delete(name);
        case Register(row, worker) =>
          if worker != "" && row.syncedRev == "" && row.syncedBootId == worker {
            registry.Upsert(name, row);
            live := Some(worker);
            if worker !in base {
              base := base[worker := ""];
            }
          }
        case _ =>
      }
      SameOthers(before, registry.rows, name);
    }

    /** The world moves while the sync is between two calls. */
    method Interfere(events: seq<Event>)
      requires Around(events)
      modifies this, registry
      ensures Abs() == Exec(old(Abs()), events) && history == old(history) + events
      ensures phase == old(phase) && Others() == old(Others())
    {
      AroundKeepsWorker(Abs(), events);
      for i := 0 to |events|
        invariant Abs() == Exec(old(Abs()), events[..i]) && history == old(history) + events[..i]
        invariant Others() == old(Others())
      {
        var e := events[i];
        ghost var before := Abs();
        ExecConcat(old(Abs()), events[..i], [e]);
        assert events[..i + 1] == events[..i] + [e];
        assert Exec(before, [e]) == Apply(before, e);
        Meet(e);
        history := history + [e];
      }
      assert events[..|events|] == events;
    }

    method ExportWorkspace(at: Key) returns (tree: Option<string>)
      requires phase == Idle
      modifies this`phase, this`history
      ensures at !in heads ==> tree == None && Abs() == old(Abs()) && history == old(history)
      ensures at in heads ==> tree == Some(heads[at]) && phase == Exported(heads[at])
      ensures at in heads ==> Abs() == Apply(old(Abs()), Export(at)) && history == old(history) + [Export(at)]
    {
      if at !in heads {
        return None;
      }
      tree := Some(heads[at]);
      phase, history := Exported(heads[at]), history + [Export(at)];
    }

    /** "" when the worker cannot be reached. */
    method WorkerBootId(reachable: bool) returns (boot: string)
      requires phase.Exported?
      modifies this`phase, this`history
      ensures reachable && live.Some? ==> live == Some(boot)
      ensures Abs() == Apply(old(Abs()), ReadBoot(reachable)) && history == old(history) + [ReadBoot(reachable)]
      ensures phase == BootRead(old(phase).tree, boot) && (boot != "" ==> live == Some(boot))
    {
      boot := "";
      if reachable && live.Some? {
        boot := live.value;
      }
      phase, history := BootRead(phase.tree, boot), history + [ReadBoot(reachable)];
    }

    method AlreadySynced(tree: string, boot: string, readable: bool) returns (skip: bool)
      requires phase == BootRead(tree, boot)
      modifies this`phase, this`history
      ensures Abs() == Apply(old(Abs()), Decide(readable)) && history == old(history) + [Decide(readable)]
      ensures skip <==> readable && UpToDate(Abs().row, tree, boot)
      ensures skip <==> readable && Claims(Abs().row, tree, boot)
      ensures phase == if skip then Idle else Chosen(tree, boot)
    {
      UpToDateExactly(Abs().row, tree, boot);
      var found := registry.Get(name);
      if !readable {
        found := None;
      }
      skip := found.Some? && found.value.syncedRev == tree &&
        found.value.syncedBootId != "" && found.value.syncedBootId == boot;
      phase, history := if skip then Idle else Chosen(tree, boot), history + [Decide(readable)];
    }

    /** The wiping push: all of the tree or nothing. */
    method SyncFolder(tree: string, pushes: bool) returns (ok: bool)
      requires phase.Chosen? && phase.tree == tree
      modifies this`phase, this`history, this`base
      ensures ok == (pushes && live.Some?)
      ensures Abs() == Apply(old(Abs()), Push(ok)) && history == old(history) + [Push(ok)]
      ensures phase == if ok then Pushed(tree, old(phase).boot) else Idle
      ensures ok ==> HasBase(Abs(), tree)
    {
      ok := pushes && live.Some?;
      history := history + [Push(ok)];
      if ok {
        base := base[live.value := tree];
        phase := Pushed(tree, phase.boot);
      } else {
        phase := Idle;
      }
    }

    method MarkSynced(tree: string, boot: string)
      requires phase == Pushed(tree, boot)
      modifies this`phase, this`history, registry
      ensures Abs() == Apply(old(Abs()), Event.Mark) && history == old(history) + [Event.Mark]
      ensures phase == Idle && Others() == old(Others())
      ensures Abs().row.Some? ==> Abs().row.value.syncedRev == tree && Abs().row.value.syncedBootId == boot
    {
      ghost var before := registry.rows;
      registry.MarkSynced(name, tree, boot);
      SameOthers(before, registry.rows, name);
      phase, history := Idle, history + [Event.Mark];
    }

    /** The start of a sync: the tree it is about and the boot it finds. */
    method SeeWorker(at: Key, reachable: bool, env1: seq<Event>, env2: seq<Event>)
      returns (exported: Option<string>, bootId: string, ghost done: seq<Event>)
      requires phase == Idle && Around(env1) && Around(env2)
      modifies this, registry
      ensures history == old(history) + done && Abs() == Exec(old(Abs()), done) && Others() == old(Others())
      ensures exported == if at in old(heads) then Some(old(heads)[at]) else None
      ensures exported.None? ==> phase == Idle && done == []
      ensures exported.Some? ==>
        done == [Export(at)] + env1 + [ReadBoot(reachable)] + env2 && phase == BootRead(exported.value, bootId)
      ensures exported.Some? && bootId != "" && Calm(env2) ==> live == Some(bootId)
      ensures exported.Some? && reachable && InSync(old(Abs()), exported.value) && Quiet(env1) && Quiet(env2) ==>
        InSync(Abs(), exported.value) && live == Some(bootId)
      ensures exported.Some? && reachable && old(live).Some? && Calm(done) ==> live == old(live) == Some(bootId)
    {
      hide Exec, Apply, Effect, Enabled, Lookup, InSync, Quiet;
      ghost var start := Abs();
      done, bootId := [], "";
      NothingDone(start);
      exported := ExportWorkspace(at);
      if exported.None? {
        return;
      }
      ExecSnoc(start, done, Export(at));
      done := done + [Export(at)];
      ghost var exporting := Abs();
      Interfere(env1);
      AroundStep(start, done, env1);
      done := done + env1;
      ghost var met := Abs();
      bootId := WorkerBootId(reachable);
      ghost var read := Abs();
      ExecSnoc(start, done, ReadBoot(reachable));
      done := done + [ReadBoot(reachable)];
      Interfere(env2);
      AroundStep(start, done, env2);
      done := done + env2;
      assert done == [Export(at)] + env1 + [ReadBoot(reachable)] + env2;
      if Calm(done) {
        assert forall e :: e in env1 || e in env2 ==> e in done;
      }
      if reachable && InSync(start, exported.value) && Quiet(env1) && Quiet(env2) {
        PhaseIsNoMatter(start, exporting, exported.value);
        QuietKeepsSync(exporting, env1, exported.value);
        PhaseIsNoMatter(met, read, exported.value);
        QuietKeepsSync(read, env2, exported.value);
      }
    }

    /** The first half of a sync, up to the decision to skip. */
    method LookAtWorker(at: Key, reachable: bool, readable: bool, env1: seq<Event>, env2: seq<Event>)
      returns (exported: Option<string>, bootId: string, skip: bool, ghost seen: World, ghost done: seq<Event>)
      requires Sound(Abs()) && phase == Idle
      requires Around(env1) && Around(env2)
      modifies this, registry
      ensures history == old(history) + done && Abs() == Exec(old(Abs()), done) && Others() == old(Others())
      ensures exported == if at in old(heads) then Some(old(heads)[at]) else None
      ensures exported.None? ==> phase == Idle && done == []
      ensures exported.Some? ==>
        && seen == Exec(old(Abs()), [Export(at)] + env1 + [ReadBoot(reachable)] + env2)
        && done == [Export(at)] + env1 + [ReadBoot(reachable)] + env2 + [Decide(readable)]
        && seen.phase == BootRead(exported.value, bootId)
        && (skip <==> readable && Claims(seen.row, exported.value, bootId))
        && phase == (if skip then Idle else Chosen(exported.value, bootId))
      ensures exported.Some? && skip && Calm(done) ==> HasBase(Abs(), exported.value)
      ensures exported.Some? && readable && reachable && InSync(old(Abs()), exported.value) && Quiet(env1) && Quiet(env2)
        ==> skip
      ensures exported.Some? && reachable && old(live).Some? && Calm(done) ==> live == old(live) == Some(bootId)
    {
      hide Exec, Apply, Effect, Enabled, Sound, Lookup, InSync, Quiet, UpToDate, Claims;
      ghost var start := Abs();
      skip := false;
      exported, bootId, done := SeeWorker(at, reachable, env1, env2);
      seen := Abs();
      if exported.None? {
        return;
      }
      ghost var before := done;
      if InSync(seen, exported.value) && live == Some(bootId) {
        InSyncIsUpToDate(seen, exported.value);
      }
      UpToDateExactly(seen.row, exported.value, bootId);
      skip := AlreadySynced(exported.value, bootId, readable);
      ExecSnoc(start, before, Decide(readable));
      done := before + [Decide(readable)];
      assert forall e :: e in before ==> e in done;
      if skip && Calm(done) {
        assert forall e :: e in before ==> e in done;
        SkipIsRight(start, before, seen, exported.value, bootId);
      }
    }

    /** The second half: the wiping push and its mark. */
    method PushTree(tree: string, bootId: string, pushes: bool, env3: seq<Event>, env4: seq<Event>)
      returns (ok: bool, ghost done: seq<Event>)
      requires phase == Chosen(tree, bootId)
      requires Around(env3) && Around(env4)
      modifies this, registry
      ensures history == old(history) + done && Abs() == Exec(old(Abs()), done) && phase == Idle
      ensures Others() == old(Others())
      ensures ok && Calm(done) ==> HasBase(Abs(), tree) && live == old(live)
      ensures ok && Abs().row.Some? ==> Abs().row.value.syncedRev == tree && Abs().row.value.syncedBootId == bootId
    {
      hide Exec, Apply, Effect, Enabled, Sound;
      ghost var start := Abs();
      done := [];
      NothingDone(start);
      Interfere(env3);
      AroundStep(start, done, env3);
      done := done + env3;
      ok := SyncFolder(tree, pushes);
      ghost var pushed := Abs();
      ExecSnoc(start, done, Push(ok));
      done := done + [Push(ok)];
      if !ok {
        return;
      }
      Interfere(env4);
      AroundStep(start, done, env4);
      done := done + env4;
      MarkSynced(tree, bootId);
      ExecSnoc(start, done, Event.Mark);
      done := done + [Event.Mark];
      if Calm(done) {
        assert forall e :: e in env4 ==> e in done;
        assert live == pushed.live && base == pushed.base;
      }
    }

    /** One sync, with arbitrary surroundings between its calls; `done` is everything
        that happened, `seen` the world at the decision. If it returns without error
        and the name led to the same boot throughout, the worker's workspace has the tree
        the branch had at the start as its base. The wiping push happens only if the
        row could not be read, was missing, or differed in tree or boot id from what
        the sync saw, an unknown boot id always differing. So once a sync has pushed to a
        worker it could reach, the next one for the same head is skipped, as long as the
        name leads to the same boot and the row stays. */
    method SyncWorkspace(at: Key, reachable: bool, readable: bool, pushes: bool,
        env1: seq<Event>, env2: seq<Event>, env3: seq<Event>, env4: seq<Event>)
      returns (result: SyncResult, ghost seen: World, ghost done: seq<Event>)
      requires Sound(Abs()) && phase == Idle
      requires Around(env1) && Around(env2) && Around(env3) && Around(env4)
      modifies this, registry
      ensures history == old(history) + done && Abs() == Exec(old(Abs()), done)
      ensures phase == Idle && Others() == old(Others())
      ensures CarefulRun(old(Abs()), done) ==> Sound(Abs())
      ensures !result.Failed? ==> at in old(heads)
      ensures !result.Failed? && Calm(done) ==> HasBase(Abs(), old(heads)[at])
      ensures result.Skipped? ==> Push(true) !in done
      ensures Push(true) in done ==> at in old(heads) && seen.phase.BootRead?
      ensures Push(true) in done ==> !(readable && Claims(seen.row, old(heads)[at], seen.phase.boot))
      ensures result.Synced? && reachable && Calm(done) && old(live).Some? && old(live).value != "" && Abs().row.Some?
        ==> InSync(Abs(), old(heads)[at])
      ensures at in old(heads) && InSync(old(Abs()), old(heads)[at])
        && readable && reachable && Quiet(env1) && Quiet(env2)
        ==> result.Skipped?
      ensures at in old(heads) ==>
        seen == Exec(old(Abs()), [Export(at)] + env1 + [ReadBoot(reachable)] + env2)
    {
      hide Exec, Apply, Effect, Enabled, Sound, UpToDate, HasBase;
      ghost var start := Abs();
      var exported, bootId, skip;
      exported, bootId, skip, seen, done := LookAtWorker(at, reachable, readable, env1, env2);
      if exported.None? {
        CarefulKeepsSound(start, done);
        return Failed, seen, done;
      }
      assert Push(true) !in done;
      if skip {
        CarefulKeepsSound(start, done);
        return Skipped, seen, done;
      }
      ghost var more;
      var ok;
      ghost var before := done;
      ok, more := PushTree(exported.value, bootId, pushes, env3, env4);
      assert forall e :: e in before || e in more ==> e in done + more by {
        assert done == before;
      }
      ExecConcat(start, done, more);
      done := done + more;
      CarefulKeepsSound(start, done);
      result := if ok then Synced else Failed;
    }
  }

  lemma CarefulKeepsSound(w: World, events: seq<Event>)
    requires Sound(w)
    ensures CarefulRun(w, events) ==> Sound(Exec(w, events))
  {
    if CarefulRun(w, events) {
      RunsKeepSound(w, events);
    }
  }

  /** Without registrations and given-up syncs there is nothing to be careful about. */
  lemma {:induction false} CalmIsCareful(w: World, events: seq<Event>)
    requires Calm(events) && GiveUp !in events
    ensures CarefulRun(w, events)
    decreases events
  {
    if events != [] {
      assert events[0] in events && forall e :: e in events[1..] ==> e in events;
      CalmIsCareful(Apply(w, events[0]), events[1..]);
    }
  }

  /** The name leads to one boot throughout these events. */
  ghost predicate Calm(events: seq<Event>) {
    forall e :: e in events ==> !IsBoot(e)
  }

  ghost predicate HasBase(w: World, tree: string) {
    w.live.Some? && w.live.value in w.base && w.base[w.live.value] == tree
  }

  lemma NothingDone(w: World)
    ensures Exec(w, []) == w
  {
  }

  lemma SkipIsRight(start: World, before: seq<Event>, seen: World, tree: string, boot: string)
    requires Sound(start) && Calm(before) && GiveUp !in before && seen == Exec(start, before)
    requires seen.phase == BootRead(tree, boot) && UpToDate(seen.row, tree, boot)
    requires boot != "" ==> seen.live == Some(boot)
    ensures HasBase(seen, tree)
  {
    hide Exec;
    CalmIsCareful(start, before);
    RunsKeepSound(start, before);
  }

  lemma SameOthers(a: map<string, Sandbox>, b: map<string, Sandbox>, name: string)
    ensures (forall other :: other != name ==> Lookup(b, other) == Lookup(a, other)) ==> b - {name} == a - {name}
  {
    if forall other :: other != name ==> Lookup(b, other) == Lookup(a, other) {
      forall other | other != name
        ensures other in b <==> other in a
        ensures other in a ==> b[other] == a[other]
      {
        assert Lookup(b, other) == Lookup(a, other);
      }
    }
  }

  lemma AroundStep(start: World, done: seq<Event>, env: seq<Event>)
    requires Around(env)
    ensures Exec(start, done + env) == Exec(Exec(start, done), env)
    ensures Exec(start, done + env).phase == Exec(start, done).phase
    ensures (forall e :: e in env ==> !IsBoot(e)) ==>
      Exec(start, done + env).live == Exec(start, done).live && Exec(start, done + env).base == Exec(start, done).base
    ensures Push(true) !in env
  {
    ExecConcat(start, done, env);
    AroundKeepsWorker(Exec(start, done), env);
  }
}
