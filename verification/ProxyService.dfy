/** ProxyService on top of one sync at a time: create, update, delete, enable and disable
    with their rollbacks, every repository call and every step of a sync able to fail.
 */
module ProxyService {
  import opened Wrappers
  import opened Records

  /** How one run of performFullSyncJSON goes: what its builder makes of the tables it gets to see (nothing
      if it fails), which reads are lost on the way to it, and which of its other steps fail. */
  datatype SyncRun = SyncRun(build: Db -> Option<Bytes>, listFails: bool, lost: Losses, compareFails: bool,
                             writeFails: bool, validateFails: bool, recheckFails: bool, readFails: bool,
                             postFails: bool, applied: bool)
  {
    ghost predicate Builds(builds: Builder) {
      forall db :: build(db).Some? ==> builds(db, build(db).value)
    }

    /** The bytes of this run, None when listing the proxies or building fails. */
    function Config(db: Db): Option<Bytes> {
      if listFails then None else build(View(db, lost))
    }

    predicate ReloadFails() {
      validateFails || recheckFails || readFails || postFails
    }

    /** The run gets as far as replacing the file. */
    predicate Writes(db: Db, file: Option<Bytes>) {
      Config(db).Some? && (compareFails || file != Config(db)) && !writeFails
    }

    /** After its write the run gets its bytes into the live server; an error may be reported even so. */
    predicate Loads() {
      !validateFails && !recheckFails && !readFails && (postFails ==> applied)
    }

    predicate ReturnsNil(db: Db, file: Option<Bytes>) {
      || (Writes(db, file) && !ReloadFails())
      || (Config(db).Some? && !compareFails && file == Config(db))
    }

    /** What the run does to the file and the live server. */
    function Effect(db: Db, s: Stores): Stores {
      if !Writes(db, s.file) then s
      else Stores(Config(db), if Loads() then Config(db) else s.live, !ReloadFails())
    }
  }

  /** The file, the live configuration, and whether the latest write passed validation and reload. */
  datatype Stores = Stores(file: Option<Bytes>, live: Option<Bytes>, reloaded: bool)

  datatype DbFaults = DbFaults(get: bool, lookup: bool, write: bool, rollback: bool)

  datatype Error =
    | Invalid
    | Database
    | NotFound
    | HostnameConflict
    | AlreadyEnabled
    | AlreadyDisabled
    | SyncFailed
    | SyncAndRollbackFailed

  predicate HostnameExists(rows: map<int, Proxy>, hostname: string, excludeId: int) {
    exists id :: id in rows && rows[id].hostname == hostname && (excludeId > 0 ==> id != excludeId)
  }

  ghost predicate DistinctHostnames(rows: map<int, Proxy>) {
    forall a, b :: a in rows && b in rows && rows[a].hostname == rows[b].hostname ==> a == b
  }

  /** The row that UpdateProxy saves: server-managed fields kept, configuration of other types cleared. */
  function UpdatedRow(existing: Proxy, proxy: Proxy): (r: Proxy)
    ensures r.active == existing.active && r.sslForced == existing.sslForced && r.createdBy == existing.createdBy
    ensures (r.kind, r.name, r.hostname, r.other) == (proxy.kind, proxy.name, proxy.hostname, proxy.other)
    ensures r.upstreams == (if r.kind == "reverse_proxy" then proxy.upstreams else "")
    ensures r.loadBalancing == (if r.kind == "reverse_proxy" then proxy.loadBalancing else "")
    ensures r.customHeaders == (if r.kind == "reverse_proxy" then proxy.customHeaders else "")
    ensures r.redirectConfig == (if r.kind == "redirect" then proxy.redirectConfig else "")
    ensures r.staticConfig == (if r.kind == "static" then proxy.staticConfig else "")
  {
    var p := proxy.(active := existing.active, sslForced := existing.sslForced, createdBy := existing.createdBy);
    var p := if p.kind != "reverse_proxy" then p.(upstreams := "", loadBalancing := "", customHeaders := "") else p;
    var p := if p.kind != "redirect" then p.(redirectConfig := "") else p;
    if p.kind != "static" then p.(staticConfig := "") else p
  }

  /** The row as it is inserted. */
  function NewRow(proxy: Proxy, userId: int): (r: Proxy)
    ensures r.createdBy == userId && r.sslForced
    ensures r.(createdBy := proxy.createdBy, sslForced := proxy.sslForced) == proxy
  {
    proxy.(createdBy := userId, sslForced := true)
  }

  /** What the last sync of an update finds: the effect of the one before it, if the hostname changed. */
  function BeforeLast(db: Db, s: Stores, hostnameChanged: bool, removeRun: SyncRun): Stores {
    if hostnameChanged then removeRun.Effect(db, s) else s
  }

  function WithRow(db: Db, id: int, row: Proxy): Db { db.(proxies := db.proxies[id := row]) }

  /** The call got as far as inserting a row, even if it was taken back. */
  predicate Inserted(r: Result<int, Error>) {
    r.Ok? || r.error == SyncFailed || r.error == SyncAndRollbackFailed
  }

  class Service {
    const builds: Builder
    const valid: Proxy -> bool
    var db: Db
    var nextId: int
    var file: Option<Bytes>
    var live: Option<Bytes>
    var reloaded: bool  // observer: the latest write passed validation and reload

    ghost predicate Valid()
      reads this
    {
      && DistinctHostnames(db.proxies)
      && 0 < nextId && (forall id :: id in db.proxies ==> 0 < id < nextId)
      && (reloaded ==> live == file)
    }

    ghost predicate FileIsBuild()
      reads this
    {
      file.Some? && builds(db, file.value)
    }

    function State(): World
      reads this
    {
      World(db, nextId, Stores(file, live, reloaded))
    }

    ghost function Now(): Stores
      reads this
    {
      Stores(file, live, reloaded)
    }

    constructor (builds: Builder, valid: Proxy -> bool, settings: map<string, string>)
      ensures Valid() && this.builds == builds && this.valid == valid
      ensures db == Db(map[], [], map[], [], settings) && file == live == None
    {
      this.builds, this.valid := builds, valid;
      db, nextId, file, live, reloaded := Db(map[], [], map[], [], settings), 1, None, None, true;
    }

    /** performFullSyncJSON with no other sync in flight. A nil return leaves a build of what could be
        read of the database. Whether that is one of the database depends on the tables alone: with a
        coherent builder it is one exactly when the losses do not show in builds. The last clause says
        exactly when a nil return means that live agrees with the file: a sync that skips leaves a stale
        live stale. */
    method PerformFullSync(run: SyncRun) returns (ok: bool)
      requires Valid() && run.Builds(builds)
      modifies this`file, this`live, this`reloaded
      ensures Valid()
      ensures Now() == run.Effect(db, old(Now())) && (ok <==> run.ReturnsNil(db, old(file)))
      ensures ok ==> file == run.Config(db) && AsRead(builds, db, run.lost, file)
      ensures ok && Coherent(builds) ==> (FileIsBuild() <==> LossUnseen(builds, db, run.lost))
      ensures ok ==> (live == file <==> run.Writes(db, old(file)) || old(live) == old(file))
    {
      if run.listFails {
        return false;
      }
      var built := run.build(View(db, run.lost));
      if built.None? {
        return false;
      }
      var cfg := built.value;
      BuiltIsAsRead(builds, db, run.lost, cfg);
      var changed := run.compareFails || file != Some(cfg);
      if !changed {
        return true;
      }
      if run.writeFails {
        return false;
      }
      file, reloaded := Some(cfg), false;
      if run.validateFails || run.recheckFails || run.readFails {
        return false;
      }
      var data := file.value;
      if run.postFails {
        live := if run.applied then Some(data) else live;
        return false;
      }
      live, reloaded := Some(data), true;
      return true;
    }

    method CreateProxy(proxy: Proxy, userId: int, faults: DbFaults, run: SyncRun) returns (r: Result<int, Error>)
      requires Valid() && run.Builds(builds)
      modifies this
      ensures Valid() && nextId == if Inserted(r) then old(nextId) + 1 else old(nextId)
      ensures r == Err(Invalid) <==> !valid(proxy)
      ensures r == Err(HostnameConflict) <==>
              valid(proxy) && !faults.lookup && HostnameExists(old(db.proxies), proxy.hostname, 0)
      ensures r.Ok? || r == Err(SyncAndRollbackFailed) ==>
              old(nextId) !in old(db.proxies) && db == WithRow(old(db), old(nextId), NewRow(proxy, userId))
      ensures Now() == if Inserted(r) then run.Effect(WithRow(old(db), old(nextId), NewRow(proxy, userId)), old(Now()))
                       else old(Now())
      ensures r.Ok? ==> r.value == old(nextId) && AsRead(builds, db, run.lost, file)
      ensures r.Err? && r.error != SyncAndRollbackFailed ==> db == old(db)
      ensures r == Err(SyncAndRollbackFailed) ==> faults.rollback
      ensures r == Err(SyncFailed) ==> !faults.rollback
      ensures r == Err(Database) <==>
              valid(proxy) && (faults.lookup || (!HostnameExists(old(db.proxies), proxy.hostname, 0) && faults.write))
      ensures r.Ok? <==>
              && valid(proxy) && !faults.lookup && !HostnameExists(old(db.proxies), proxy.hostname, 0) && !faults.write
              && run.ReturnsNil(WithRow(old(db), old(nextId), NewRow(proxy, userId)), old(file))
      ensures r.Err? ==> r.error in {Invalid, Database, HostnameConflict, SyncFailed, SyncAndRollbackFailed}
    {
      if !valid(proxy) {
        return Err(Invalid);
      }
      if faults.lookup {
        return Err(Database);
      }
      if HostnameExists(db.proxies, proxy.hostname, 0) {
        return Err(HostnameConflict);
      }
      r := InsertAndSync(NewRow(proxy, userId), faults, run);
    }

    /** The writes of CreateProxy. */
    method InsertAndSync(row: Proxy, faults: DbFaults, run: SyncRun) returns (r: Result<int, Error>)
      requires Valid() && run.Builds(builds) && !HostnameExists(db.proxies, row.hostname, 0)
      modifies this
      ensures Valid() && old(nextId) !in old(db.proxies)
      ensures nextId == if Inserted(r) then old(nextId) + 1 else old(nextId)
      ensures Now() == if Inserted(r) then run.Effect(WithRow(old(db), old(nextId), row), old(Now())) else old(Now())
      ensures r.Ok? || r == Err(SyncAndRollbackFailed) ==> db == WithRow(old(db), old(nextId), row)
      ensures r.Ok? ==> r.value == old(nextId) && AsRead(builds, db, run.lost, file)
      ensures r.Err? && r.error != SyncAndRollbackFailed ==> db == old(db)
      ensures r == Err(Database) <==> faults.write
      ensures r.Ok? <==> !faults.write && run.ReturnsNil(WithRow(old(db), old(nextId), row), old(file))
      ensures r.Err? && r.error != Database ==> (r == Err(SyncAndRollbackFailed) <==> faults.rollback)
      ensures r.Err? ==> r.error in {Database, SyncFailed, SyncAndRollbackFailed}
    {
      if faults.write {
        return Err(Database);
      }
      var id := nextId;
      ghost var before := db.proxies;
      db, nextId := WithRow(db, id, row), nextId + 1;
      var ok := PerformFullSync(run);
      if !ok {
        if faults.rollback {
          return Err(SyncAndRollbackFailed);
        }
        db := db.(proxies := db.proxies - {id});
        assert db.proxies == before;
        return Err(SyncFailed);
      }
      return Ok(id);
    }

    method UpdateProxy(id: int, proxy: Proxy, faults: DbFaults, removeRun: SyncRun, run: SyncRun)
      returns (r: Result<(), Error>)
      requires Valid() && removeRun.Builds(builds) && run.Builds(builds)
      modifies this`db, this`file, this`live, this`reloaded
      ensures Valid()
      ensures r == Err(NotFound) <==> !faults.get && id !in old(db.proxies)
      ensures r == Err(HostnameConflict) <==>
              && !faults.get && id in old(db.proxies) && valid(proxy) && !faults.lookup
              && proxy.hostname != old(db.proxies)[id].hostname && HostnameExists(old(db.proxies), proxy.hostname, id)
      ensures r == Err(Invalid) <==> !faults.get && id in old(db.proxies) && !valid(proxy)
      ensures r == Err(Database) <==>
              || faults.get
              || (&& id in old(db.proxies) && valid(proxy)
                  && if proxy.hostname != old(db.proxies)[id].hostname
                     then faults.lookup || (!HostnameExists(old(db.proxies), proxy.hostname, id) && faults.write)
                     else faults.write)
      ensures r.Ok? || r == Err(SyncFailed) <==>
              && !faults.get && id in old(db.proxies) && valid(proxy) && !faults.write
              && (proxy.hostname != old(db.proxies)[id].hostname ==>
                    !faults.lookup && !HostnameExists(old(db.proxies), proxy.hostname, id))
      ensures r.Err? && r.error != SyncFailed ==> db == old(db) && Now() == old(Now())
      ensures r.Ok? || r == Err(SyncFailed) ==>
              && id in old(db.proxies)
              && db == WithRow(old(db), id, UpdatedRow(old(db.proxies)[id], proxy))
              && var first := BeforeLast(db, old(Now()), old(db.proxies)[id].hostname != proxy.hostname, removeRun);
              && Now() == run.Effect(db, first) && (r.Ok? <==> run.ReturnsNil(db, first.file))
      ensures r.Ok? ==> AsRead(builds, db, run.lost, file)
    {
      if faults.get {
        return Err(Database);
      }
      if id !in db.proxies {
        return Err(NotFound);
      }
      var existing := db.proxies[id];
      if !valid(proxy) {
        return Err(Invalid);
      }
      if proxy.hostname != existing.hostname {
        if faults.lookup {
          return Err(Database);
        }
        if HostnameExists(db.proxies, proxy.hostname, id) {
          return Err(HostnameConflict);
        }
      }
      if faults.write {
        return Err(Database);
      }
      db := WithRow(db, id, UpdatedRow(existing, proxy));
      var ok := SyncUpdated(existing.hostname != proxy.hostname, removeRun, run);
      return if ok then Ok(()) else Err(SyncFailed);
    }

    /** The syncs of UpdateProxy: one more first if the hostname changed, whose failure is only logged. */
    method SyncUpdated(hostnameChanged: bool, removeRun: SyncRun, run: SyncRun) returns (ok: bool)
      requires Valid() && removeRun.Builds(builds) && run.Builds(builds)
      modifies this`file, this`live, this`reloaded
      ensures Valid()
      ensures var first := BeforeLast(db, old(Now()), hostnameChanged, removeRun);
              Now() == run.Effect(db, first) && (ok <==> run.ReturnsNil(db, first.file))
      ensures ok ==> AsRead(builds, db, run.lost, file)
    {
      if hostnameChanged {
        var _ := PerformFullSync(removeRun);
      }
      ok := PerformFullSync(run);
    }

    /** A failed sync is only logged, so a nil return says nothing about the file. */
    method DeleteProxy(id: int, faults: DbFaults, run: SyncRun) returns (r: Result<(), Error>)
      requires Valid() && run.Builds(builds)
      modifies this`db, this`file, this`live, this`reloaded
      ensures Valid()
      ensures r == Err(NotFound) <==> !faults.get && id !in old(db.proxies)
      ensures r.Ok? <==> !faults.get && id in old(db.proxies) && !faults.write
      ensures r.Ok? ==> db == old(db).(proxies := old(db.proxies) - {id}) && Now() == run.Effect(db, old(Now()))
      ensures r.Err? ==> db == old(db) && Now() == old(Now())
    {
      if faults.get {
        return Err(Database);
      }
      if id !in db.proxies {
        return Err(NotFound);
      }
      if faults.write {
        return Err(Database);
      }
      db := db.(proxies := db.proxies - {id});
      var _ := PerformFullSync(run);
      return Ok(());
    }

    method EnableProxy(id: int, faults: DbFaults, run: SyncRun) returns (r: Result<(), Error>)
      requires Valid() && run.Builds(builds)
      modifies this`db, this`file, this`live, this`reloaded
      ensures Valid()
      ensures r == Err(NotFound) <==> !faults.get && id !in old(db.proxies)
      ensures r == Err(AlreadyEnabled) <==> !faults.get && id in old(db.proxies) && old(db.proxies)[id].active
      ensures r.Ok? || r == Err(SyncAndRollbackFailed) ==>
              && id in old(db.proxies)
              && db == old(db).(proxies := old(db.proxies)[id := old(db.proxies)[id].(active := true)])
      ensures r.Err? && r.error != SyncAndRollbackFailed ==> db == old(db)
      ensures r == Err(SyncAndRollbackFailed) ==> faults.rollback
      ensures r == Err(Database) <==>
              faults.get || (id in old(db.proxies) && !old(db.proxies)[id].active && faults.write)
      ensures r == Err(SyncFailed) ==> !faults.rollback
      ensures r.Ok? || r == Err(SyncFailed) || r == Err(SyncAndRollbackFailed) ==>
              && id in old(db.proxies)
              && Now() == run.Effect(WithRow(old(db), id, old(db.proxies)[id].(active := true)), old(Now()))
      ensures r.Err? && r.error in {Database, NotFound, AlreadyEnabled} ==> Now() == old(Now())
      ensures r.Err? ==> r.error in {Database, NotFound, AlreadyEnabled, SyncFailed, SyncAndRollbackFailed}
      ensures r.Ok? ==> AsRead(builds, db, run.lost, file)
      ensures r.Ok? <==>
              && !faults.get && id in old(db.proxies) && !old(db.proxies)[id].active && !faults.write
              && run.ReturnsNil(WithRow(old(db), id, old(db.proxies)[id].(active := true)), old(file))
    {
      if faults.get {
        return Err(Database);
      }
      if id !in db.proxies {
        return Err(NotFound);
      }
      if db.proxies[id].active {
        return Err(AlreadyEnabled);
      }
      if faults.write {
        return Err(Database);
      }
      ghost var before := db.proxies;
      db := db.(proxies := db.proxies[id := db.proxies[id].(active := true)]);
      var ok := PerformFullSync(run);
      if !ok {
        if faults.rollback {
          return Err(SyncAndRollbackFailed);
        }
        db := db.(proxies := db.proxies[id := db.proxies[id].(active := false)]);
        assert db.proxies == before;
        return Err(SyncFailed);
      }
      return Ok(());
    }

    /** A failed sync is only logged, as in DeleteProxy. */
    method DisableProxy(id: int, faults: DbFaults, run: SyncRun) returns (r: Result<(), Error>)
      requires Valid() && run.Builds(builds)
      modifies this`db, this`file, this`live, this`reloaded
      ensures Valid()
      ensures r == Err(NotFound) <==> !faults.get && id !in old(db.proxies)
      ensures r == Err(AlreadyDisabled) <==> !faults.get && id in old(db.proxies) && !old(db.proxies)[id].active
      ensures r.Ok? <==> !faults.get && id in old(db.proxies) && old(db.proxies)[id].active && !faults.write
      ensures r.Ok? ==> db == old(db).(proxies := old(db.proxies)[id := old(db.proxies)[id].(active := false)])
                        && Now() == run.Effect(db, old(Now()))
      ensures r.Err? ==> db == old(db) && Now() == old(Now())
    {
      if faults.get {
        return Err(Database);
      }
      if id !in db.proxies {
        return Err(NotFound);
      }
      if !db.proxies[id].active {
        return Err(AlreadyDisabled);
      }
      if faults.write {
        return Err(Database);
      }
      db := db.(proxies := db.proxies[id := db.proxies[id].(active := false)]);
      var _ := PerformFullSync(run);
      return Ok(());
    }
  }

  // ------------------------------------------------------------ whole runs

  datatype Op =
    | Create(proxy: Proxy, userId: int)
    | Update(id: int, proxy: Proxy, removeRun: SyncRun)
    | Delete(id: int)
    | Enable(id: int)
    | Disable(id: int)

  datatype Call = Call(op: Op, faults: DbFaults, run: SyncRun) {
    ghost predicate Builds(builds: Builder) {
      run.Builds(builds) && (op.Update? ==> op.removeRun.Builds(builds))
    }

    /** A failed sync of this call is an error, not only a log line. */
    predicate ReportsSync() {
      op.Create? || op.Update? || op.Enable?
    }

    /** A failed sync of this call is followed by a rollback, which works. */
    predicate RollsBack() {
      (op.Create? || op.Enable?) && !faults.rollback
    }
  }

  /** Everything the service holds between calls. */
  datatype World = World(db: Db, nextId: int, stores: Stores)

  /** The database that the call would like to have, None if it is refused before it writes. */
  function Proposed(valid: Proxy -> bool, w: World, op: Op, faults: DbFaults): Option<Db> {
    var rows := w.db.proxies;
    match op
    case Create(proxy, userId) =>
      if valid(proxy) && !faults.lookup && !HostnameExists(rows, proxy.hostname, 0) && !faults.write
      then Some(WithRow(w.db, w.nextId, NewRow(proxy, userId))) else None
    case Update(id, proxy, _) =>
      if !faults.get && id in rows && valid(proxy) && !faults.write
         && (proxy.hostname != rows[id].hostname ==> !faults.lookup && !HostnameExists(rows, proxy.hostname, id))
      then Some(WithRow(w.db, id, UpdatedRow(rows[id], proxy))) else None
    case Delete(id) =>
      if !faults.get && id in rows && !faults.write then Some(w.db.(proxies := rows - {id})) else None
    case Enable(id) =>
      if !faults.get && id in rows && !rows[id].active && !faults.write
      then Some(WithRow(w.db, id, rows[id].(active := true))) else None
    case Disable(id) =>
      if !faults.get && id in rows && rows[id].active && !faults.write
      then Some(WithRow(w.db, id, rows[id].(active := false))) else None
  }

  /** The call as a whole: refused, nothing changes; otherwise its syncs take place, and if they fail the
      call is an error where it reports them, with the old database where it rolls back. */
  ghost predicate Performs(valid: Proxy -> bool, w: World, c: Call, w': World, ok: bool) {
    match Proposed(valid, w, c.op, c.faults)
    case None => !ok && w' == w
    case Some(db) =>
      var moved := c.op.Update? && c.op.id in w.db.proxies && c.op.proxy.hostname != w.db.proxies[c.op.id].hostname;
      var first := if moved then c.op.removeRun.Effect(db, w.stores) else w.stores;
      var synced := c.run.ReturnsNil(db, first.file);
      && (ok <==> synced || !c.ReportsSync())
      && w' == World(if !synced && c.RollsBack() then w.db else db,
                     if c.op.Create? then w.nextId + 1 else w.nextId,
                     c.run.Effect(db, first))
  }

  /** Hostnames are distinct, and live equals the file unless the validation or reload of the latest write
      failed. */
  ghost predicate Sound(w: World) {
    DistinctHostnames(w.db.proxies) && (w.stores.reloaded ==> w.stores.live == w.stores.file)
  }

  /** One call of a run: what it does as a whole; that a nil return from create, update or enable leaves a
      build of what its sync could read of the database of that moment; and that a rollback rolls back. */
  ghost predicate IsStep(builds: Builder, valid: Proxy -> bool, w: World, c: Call, w': World, ok: bool) {
    && Performs(valid, w, c, w', ok)
    && (ok && c.ReportsSync() ==> AsRead(builds, w'.db, c.run.lost, w'.stores.file))
    && (!ok && c.RollsBack() ==> w'.db == w.db)
  }

  /** The worlds before, between and after the calls. */
  ghost predicate IsTrace(builds: Builder, valid: Proxy -> bool, calls: seq<Call>, oks: seq<bool>, worlds: seq<World>) {
    && |oks| == |calls| && |worlds| == |calls| + 1
    && (forall i :: 0 <= i < |worlds| ==> Sound(worlds[i]))
    && (forall i :: 0 <= i < |calls| ==> IsStep(builds, valid, worlds[i], calls[i], worlds[i + 1], oks[i]))
  }

  lemma TraceNext(builds: Builder, valid: Proxy -> bool, calls: seq<Call>, oks: seq<bool>, worlds: seq<World>, c: Call,
                  ok: bool, w: World)
    requires IsTrace(builds, valid, calls, oks, worlds) && Sound(w)
    requires IsStep(builds, valid, worlds[|calls|], c, w, ok)
    ensures IsTrace(builds, valid, calls + [c], oks + [ok], worlds + [w])
  {
  }

  /** Every sequential run is sound after every call and takes only such steps. */
  method RunAll(s: Service, calls: seq<Call>) returns (oks: seq<bool>, worlds: seq<World>)
    requires s.Valid() && forall c :: c in calls ==> c.Builds(s.builds)
    modifies s
    ensures s.Valid() && IsTrace(s.builds, s.valid, calls, oks, worlds)
    ensures worlds[0] == old(s.State()) && worlds[|calls|] == s.State()
  {
    oks, worlds := [], [s.State()];
    for i := 0 to |calls|
      invariant s.Valid() && IsTrace(s.builds, s.valid, calls[..i], oks, worlds)
      invariant worlds[0] == old(s.State()) && worlds[i] == s.State()
    {
      var ok := RunOne(s, calls[i]);
      TraceNext(s.builds, s.valid, calls[..i], oks, worlds, calls[i], ok, s.State());
      assert calls[..i + 1] == calls[..i] + [calls[i]];
      oks, worlds := oks + [ok], worlds + [s.State()];
    }
    assert calls[..|calls|] == calls;
  }

  method RunOne(s: Service, c: Call) returns (ok: bool)
    requires s.Valid() && c.Builds(s.builds)
    modifies s
    ensures s.Valid() && IsStep(s.builds, s.valid, old(s.State()), c, s.State(), ok)
  {
    match c.op {
      case Create(proxy, userId) =>
        var r := s.CreateProxy(proxy, userId, c.faults, c.run);
        ok := r.Ok?;
      case Update(id, proxy, removeRun) =>
        var r := s.UpdateProxy(id, proxy, c.faults, removeRun, c.run);
        ok := r.Ok?;
      case Delete(id) =>
        var r := s.DeleteProxy(id, c.faults, c.run);
        ok := r.Ok?;
      case Enable(id) =>
        var r := s.EnableProxy(id, c.faults, c.run);
        ok := r.Ok?;
      case Disable(id) =>
        var r := s.DisableProxy(id, c.faults, c.run);
        ok := r.Ok?;
    }
  }

  /** The comment in DeleteProxy that the periodic sync will reconcile does not hold when the sync fails
      after its write: the file then already matches, so every later sync that can read it and builds the
      same bytes returns nil without a reload, and the deleted proxy stays in the live configuration. */
  method DeleteIsNotReconciled(s: Service, id: int, faults: DbFaults, run: SyncRun, retries: seq<SyncRun>)
    returns (results: seq<bool>)
    requires s.Valid() && id in s.db.proxies && !faults.get && !faults.write && run.Builds(s.builds)
    requires !run.compareFails && !run.writeFails && !run.Loads()
    requires s.live == s.file
    requires var rest := s.db.(proxies := s.db.proxies - {id});
             && run.Config(rest).Some? && run.Config(rest) != s.file
             && forall r :: r in retries ==> r.Builds(s.builds) && !r.compareFails && r.Config(rest) == run.Config(rest)
    modifies s
    ensures s.db == old(s.db).(proxies := old(s.db.proxies) - {id}) && AsRead(s.builds, s.db, run.lost, s.file)
    ensures s.live == old(s.live) && s.live != s.file
    ensures |results| == |retries| && forall i :: 0 <= i < |results| ==> results[i]
  {
    var r := s.DeleteProxy(id, faults, run);
    BuiltIsAsRead(s.builds, s.db, run.lost, s.file.value);
    results := [];
    for i := 0 to |retries|
      invariant s.Valid() && s.db == old(s.db).(proxies := old(s.db.proxies) - {id})
      invariant s.file == run.Config(s.db) && s.live == old(s.live)
      invariant |results| == i && forall k :: 0 <= k < i ==> results[k]
    {
      var ok := s.PerformFullSync(retries[i]);
      results := results + [ok];
    }
  }

  // ------------------------------------------------------------ partial builds

  /** Any run that returns nil although its losses show leaves a file that is not a build of the database. */
  lemma LossIsNotReported(builds: Builder, run: SyncRun, db: Db, s: Stores)
    requires Coherent(builds) && run.Builds(builds) && run.ReturnsNil(db, s.file)
    ensures var file := run.Effect(db, s).file;
            file.Some? && (builds(db, file.value) <==> LossUnseen(builds, db, run.lost))
  {
    BuiltIsAsRead(builds, db, run.lost, run.Config(db).value);
  }

  /** A builder for the site with id 1: a group that is assigned but not loaded is skipped, and the route
      without protection stays. */
  function SiteConfig(db: Db): Bytes {
    if 1 !in db.proxies || !db.proxies[1].active then ""
    else if 1 in db.assignments && exists g :: g in db.assignments[1] && g in db.aclGroups
    then db.proxies[1].hostname + " guarded"
    else db.proxies[1].hostname + " open"
  }

  const SITE := Proxy("reverse_proxy", "site", "x.org", true, true, 1, "10.0.0.1:80", "", "", "", "", "")

  const GUARDED_SITE := Db(map[1 := SITE], ["staff"], map[1 := ["staff"]], [], map[])

  /** A failed read of the ACL groups alone: the sync returns nil and the protected site is written out and
      loaded unprotected, which is no build of its database. */
  lemma LostGroupsOpenTheSite()
    ensures var run := SyncRun(d => Some(SiteConfig(d)), false, NO_LOSS.(aclGroups := true),
                               false, false, false, false, false, false, false);
            var before, after := Some("x.org guarded"), Some("x.org open");
            && run.Builds((d, cfg) => cfg == SiteConfig(d)) && Some(SiteConfig(GUARDED_SITE)) == before != after
            && run.ReturnsNil(GUARDED_SITE, before)
            && run.Effect(GUARDED_SITE, Stores(before, before, true)) == Stores(after, after, true)
  {
    assert "staff" in GUARDED_SITE.assignments[1] && "staff" in GUARDED_SITE.aclGroups;
    assert SiteConfig(GUARDED_SITE) == "x.org" + " guarded" == "x.org guarded";
    var seen := View(GUARDED_SITE, NO_LOSS.(aclGroups := true));
    assert seen.aclGroups == [];
    assert SiteConfig(seen) == "x.org" + " open" == "x.org open";
    assert |"x.org open"| != |"x.org guarded"|;
  }
}
