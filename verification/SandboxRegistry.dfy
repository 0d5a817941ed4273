/** The sandbox registry: one row per sandbox name, with the upsert that keeps what a
    new registration leaves empty. */
module SandboxRegistry {
  import opened Wrappers

  datatype Sandbox = Sandbox(
    org: string, repo: string, branch: string,
    baseImage: string, derivedImage: string, workspace: string, runtime: string,
    syncedRev: string, syncedBootId: string,
    token: string, mode: string, addr: string, ownerId: string, ownerUserId: int)

  function Keep(given: string, stored: string): string {
    if given == "" then stored else given
  }

  /** The stored row after an upsert over `stored`. */
  function Merge(stored: Sandbox, s: Sandbox): Sandbox {
    s.(syncedRev := Keep(s.syncedRev, stored.syncedRev),
       syncedBootId := Keep(s.syncedBootId, stored.syncedBootId),
       token := Keep(s.token, stored.token),
       mode := Keep(s.mode, stored.mode),
       addr := Keep(s.addr, stored.addr),
       ownerId := Keep(s.ownerId, stored.ownerId),
       ownerUserId := if s.ownerUserId == 0 then stored.ownerUserId else s.ownerUserId)
  }

  function Upserted(row: Option<Sandbox>, s: Sandbox): Option<Sandbox> {
    if row.Some? then Some(Merge(row.value, s)) else Some(s)
  }

  /** Recording a sync on a row that is gone changes nothing. */
  function Marked(row: Option<Sandbox>, rev: string, bootId: string): Option<Sandbox> {
    if row.Some? then Some(row.value.(syncedRev := rev, syncedBootId := bootId)) else None
  }

  function Lookup(rows: map<string, Sandbox>, name: string): Option<Sandbox> {
    if name in rows then Some(rows[name]) else None
  }

  /** A field that a registration may leave empty. */
  ghost predicate Fills(given: string, stored: string, now: string) {
    if given == "" then now == stored else now == given
  }

  /** `now` is a new registration over a stored one: where the sandbox belongs and what it
      runs are always the new ones; the sync record, the access data and the owner are the
      stored ones wherever the new registration leaves them empty. */
  ghost predicate Over(now: Sandbox, stored: Sandbox, s: Sandbox) {
    && now.org == s.org && now.repo == s.repo && now.branch == s.branch
    && now.baseImage == s.baseImage && now.derivedImage == s.derivedImage
    && now.workspace == s.workspace && now.runtime == s.runtime
    && Fills(s.syncedRev, stored.syncedRev, now.syncedRev)
    && Fills(s.syncedBootId, stored.syncedBootId, now.syncedBootId)
    && Fills(s.token, stored.token, now.token) && Fills(s.mode, stored.mode, now.mode)
    && Fills(s.addr, stored.addr, now.addr) && Fills(s.ownerId, stored.ownerId, now.ownerId)
    && (s.ownerUserId == 0 ==> now.ownerUserId == stored.ownerUserId)
    && (s.ownerUserId != 0 ==> now.ownerUserId == s.ownerUserId)
  }

  /** What an upsert stores, field by field. */
  lemma UpsertMeans(row: Option<Sandbox>, s: Sandbox)
    ensures row == None ==> Upserted(row, s) == Some(s)
    ensures row.Some? ==> Upserted(row, s).Some? && Over(Upserted(row, s).value, row.value, s)
  {
  }

  /** `Over` leaves nothing open: no other row is that. */
  lemma OverIsOne(now: Sandbox, stored: Sandbox, s: Sandbox)
    requires Over(now, stored, s)
    ensures Upserted(Some(stored), s) == Some(now)
  {
  }

  class Registry {
    var rows: map<string, Sandbox>

    constructor ()
      ensures rows == map[]
    {
      rows := map[];
    }

    method Upsert(name: string, s: Sandbox)
      modifies this
      ensures Lookup(rows, name) == Upserted(Lookup(old(rows), name), s)
      ensures rows.Keys == old(rows).Keys + {name}
      ensures forall other :: other != name ==> Lookup(rows, other) == Lookup(old(rows), other)
    {
      var merged := s;
      if name in rows {
        var stored := rows[name];
        if s.syncedRev == "" { merged := merged.(syncedRev := stored.syncedRev); }
        if s.syncedBootId == "" { merged := merged.(syncedBootId := stored.syncedBootId); }
        if s.token == "" { merged := merged.(token := stored.token); }
        if s.mode == "" { merged := merged.(mode := stored.mode); }
        if s.addr == "" { merged := merged.(addr := stored.addr); }
        if s.ownerId == "" { merged := merged.(ownerId := stored.ownerId); }
        if s.ownerUserId == 0 { merged := merged.(ownerUserId := stored.ownerUserId); }
      }
      rows := rows[name := merged];
    }

    method Get(name: string) returns (row: Option<Sandbox>)
      ensures row == Lookup(rows, name)
      ensures if name in rows then row == Some(rows[name]) else row == None
    {
      row := if name in rows then Some(rows[name]) else None;
    }

    method MarkSynced(name: string, rev: string, bootId: string)
      modifies this
      ensures Lookup(rows, name) == Marked(Lookup(old(rows), name), rev, bootId)
      ensures rows.Keys == old(rows).Keys
      ensures name in rows ==> rows[name] == old(rows)[name].(syncedRev := rev, syncedBootId := bootId)
      ensures forall other :: other != name ==> Lookup(rows, other) == Lookup(old(rows), other)
    {
      if name in rows {
        rows := rows[name := rows[name].(syncedRev := rev, syncedBootId := bootId)];
      }
    }

    method Delete(name: string)
      modifies this
      ensures Lookup(rows, name) == None && rows.Keys == old(rows).Keys - {name}
      ensures forall other :: other != name ==> Lookup(rows, other) == Lookup(old(rows), other)
    {
      rows := rows - {name};
    }
  }
}
