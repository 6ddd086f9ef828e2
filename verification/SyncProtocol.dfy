/** Concurrent syncs: `performFullSyncJSON` with the file manager and the reloader.

    Any number of syncs are in flight at once. Each takes its steps in program
    order, holding the service mutex while it builds, the file manager mutex while it
    compares or writes, and the reloader mutex while it validates or reloads.
    The steps of different syncs interleave freely and any fallible step may fail.
 */
module SyncProtocol {
  import opened Wrappers
  import opened Records

  /** Where a sync stands. */
  datatype Phase =
    | Started
    | Building              // holds the service mutex
    | Built(cfg: Bytes)
    | Changed(cfg: Bytes)   // differs from the file, or the file could not be read
    | Writing(cfg: Bytes)   // holds the file manager mutex
    | Written
    | Validated
    | Reloading             // this and the next three hold the reloader mutex
    | Rechecked
    | Read(data: Bytes)
    | Posted
    | Done(ok: bool)
    | Returned

  datatype Sync = Sync(full: bool, phase: Phase)

  datatype State = State(db: Db, file: Option<Bytes>, live: Option<Bytes>,
                         serviceLock: Option<nat>, fileLock: Option<nat>, reloadLock: Option<nat>,
                         isSyncing: bool, syncs: map<nat, Sync>)

  datatype Label =
    | DbChange(db: Db)
    | InitialWrite(cfg: Bytes)
    | Begin(p: nat, full: bool)
    | LockService(p: nat)
    | Build(p: nat, cfg: Bytes, lost: Losses)
    | BuildFails(p: nat)
    | Compare(p: nat)
    | CompareFails(p: nat)
    | LockFile(p: nat)
    | Write(p: nat)
    | WriteFails(p: nat)
    | Validate(p: nat, ok: bool)
    | LockReloader(p: nat)
    | Recheck(p: nat, ok: bool)
    | ReadFile(p: nat, ok: bool)
    | PostOk(p: nat)
    | PostFails(p: nat, applied: bool)  // an error may be reported after Caddy took the config
    | UnlockReloader(p: nat)
    | Return(p: nat)

  ghost predicate At(s: State, p: nat, phase: Phase) {
    p in s.syncs && s.syncs[p].phase == phase
  }

  ghost function Move(s: State, p: nat, phase: Phase): State
    requires p in s.syncs
  {
    s.(syncs := s.syncs[p := s.syncs[p].(phase := phase)])
  }

  /** One step of the system. */
  ghost predicate Step(builds: Builder, s: State, l: Label, s': State) {
    match l
    case DbChange(db) => s' == s.(db := db)
    case InitialWrite(cfg) =>
      s.file.None? && s.fileLock.None? && s' == s.(file := Some(cfg))
    case Begin(p, full) =>
      && p !in s.syncs && (full ==> !s.isSyncing)
      && s' == s.(isSyncing := s.isSyncing || full, syncs := s.syncs[p := Sync(full, Started)])
    case LockService(p) =>
      At(s, p, Started) && s.serviceLock.None? && s' == Move(s, p, Building).(serviceLock := Some(p))
    case Build(p, cfg, lost) =>
      && At(s, p, Building) && builds(View(s.db, lost), cfg)
      && s' == Move(s, p, Built(cfg)).(serviceLock := None)
    case BuildFails(p) =>
      At(s, p, Building) && s' == Move(s, p, Done(false)).(serviceLock := None)
    case Compare(p) =>
      && p in s.syncs && s.syncs[p].phase.Built? && s.fileLock.None?
      && var cfg := s.syncs[p].phase.cfg;
      s' == Move(s, p, if s.file == Some(cfg) then Done(true) else Changed(cfg))
    case CompareFails(p) =>
      && p in s.syncs && s.syncs[p].phase.Built? && s.fileLock.None?
      && s' == Move(s, p, Changed(s.syncs[p].phase.cfg))
    case LockFile(p) =>
      && p in s.syncs && s.syncs[p].phase.Changed? && s.fileLock.None?
      && s' == Move(s, p, Writing(s.syncs[p].phase.cfg)).(fileLock := Some(p))
    case Write(p) =>
      && p in s.syncs && s.syncs[p].phase.Writing?
      && s' == Move(s, p, Written).(file := Some(s.syncs[p].phase.cfg), fileLock := None)
    case WriteFails(p) =>
      && p in s.syncs && s.syncs[p].phase.Writing?
      && s' == Move(s, p, Done(false)).(fileLock := None)
    case Validate(p, ok) =>
      && At(s, p, Written) && s.reloadLock.None?
      && s' == Move(s, p, if ok then Validated else Done(false))
    case LockReloader(p) =>
      At(s, p, Validated) && s.reloadLock.None? && s' == Move(s, p, Reloading).(reloadLock := Some(p))
    case Recheck(p, ok) =>
      && At(s, p, Reloading)
      && s' == if ok then Move(s, p, Rechecked) else Move(s, p, Done(false)).(reloadLock := None)
    case ReadFile(p, ok) =>
      && At(s, p, Rechecked)
      && s' == if ok && s.file.Some? then Move(s, p, Read(s.file.value))
               else Move(s, p, Done(false)).(reloadLock := None)
    case PostOk(p) =>
      && p in s.syncs && s.syncs[p].phase.Read?
      && s' == Move(s, p, Posted).(live := Some(s.syncs[p].phase.data))
    case PostFails(p, applied) =>
      && p in s.syncs && s.syncs[p].phase.Read?
      && s' == Move(s, p, Done(false)).(live := if applied then Some(s.syncs[p].phase.data) else s.live,
                                        reloadLock := None)
    case UnlockReloader(p) =>
      At(s, p, Posted) && s' == Move(s, p, Done(true)).(reloadLock := None)
    case Return(p) =>
      && p in s.syncs && s.syncs[p].phase.Done?
      && s' == Move(s, p, Returned).(isSyncing := s.isSyncing && !s.syncs[p].full)
  }

  ghost predicate Init(s: State) {
    && s.serviceLock.None? && s.fileLock.None? && s.reloadLock.None?
    && !s.isSyncing && s.syncs == map[]
  }

  /** A finite path: the states before, between and after the labelled steps. */
  ghost predicate IsPath(builds: Builder, ss: seq<State>, ls: seq<Label>) {
    && |ss| == |ls| + 1
    && forall i {:trigger ls[i]} :: 0 <= i < |ls| ==> Step(builds, ss[i], ls[i], ss[i + 1])
  }

  /** A run is a path from an initial state. */
  ghost predicate IsRun(builds: Builder, ss: seq<State>, ls: seq<Label>) {
    IsPath(builds, ss, ls) && Init(ss[0])
  }

  predicate IsWrite(l: Label) { l.Write? || l.InitialWrite? }

  // ------------------------------------------------------------ mutual exclusion

  predicate InReloader(ph: Phase) { ph.Reloading? || ph.Rechecked? || ph.Read? || ph.Posted? }

  ghost predicate InService(s: State, p: nat) { p in s.syncs && s.syncs[p].phase.Building? }

  ghost predicate InFile(s: State, p: nat) { p in s.syncs && s.syncs[p].phase.Writing? }

  ghost predicate InReload(s: State, p: nat) { p in s.syncs && InReloader(s.syncs[p].phase) }

  /** Each mutex is held exactly by the sync inside its section. */
  ghost predicate ServiceHeld(s: State) { forall p: nat :: InService(s, p) <==> s.serviceLock == Some(p) }

  ghost predicate FileHeld(s: State) { forall p: nat :: InFile(s, p) <==> s.fileLock == Some(p) }

  ghost predicate ReloaderHeld(s: State) { forall p: nat :: InReload(s, p) <==> s.reloadLock == Some(p) }

  ghost predicate RunningFull(s: State, p: nat) {
    p in s.syncs && s.syncs[p].full && !s.syncs[p].phase.Returned?
  }

  /** The IsSyncing flag is up exactly while a full sync runs, and then only one runs. */
  ghost predicate OneFullSync(s: State) {
    && (forall p, q :: RunningFull(s, p) && RunningFull(s, q) ==> p == q)
    && (s.isSyncing <==> exists p :: RunningFull(s, p))
  }

  /** Entering and leaving a section is taking and releasing its mutex. */
  lemma ServiceChanges(builds: Builder, s: State, l: Label, s': State, q: nat)
    requires Step(builds, s, l, s')
    ensures InService(s', q) <==> (InService(s, q) && !((l.Build? || l.BuildFails?) && l.p == q)) || l == LockService(q)
    ensures s'.serviceLock == if l.LockService? then Some(l.p)
                              else if l.Build? || l.BuildFails? then None else s.serviceLock
  {
  }

  lemma FileChanges(builds: Builder, s: State, l: Label, s': State, q: nat)
    requires Step(builds, s, l, s')
    ensures InFile(s', q) <==> (InFile(s, q) && !((l.Write? || l.WriteFails?) && l.p == q)) || l == LockFile(q)
    ensures s'.fileLock == if l.LockFile? then Some(l.p) else if l.Write? || l.WriteFails? then None else s.fileLock
  {
  }

  predicate LeavesReloader(s: State, l: Label) {
    || (l.Recheck? && !l.ok) || (l.ReadFile? && !(l.ok && s.file.Some?)) || l.PostFails? || l.UnlockReloader?
  }

  lemma ReloaderChanges(builds: Builder, s: State, l: Label, s': State, q: nat)
    requires Step(builds, s, l, s')
    ensures InReload(s', q) <==> (InReload(s, q) && !(LeavesReloader(s, l) && l.p == q)) || l == LockReloader(q)
    ensures s'.reloadLock == if l.LockReloader? then Some(l.p) else if LeavesReloader(s, l) then None else s.reloadLock
  {
  }

  lemma ServiceHeldStep(builds: Builder, s: State, l: Label, s': State)
    requires ServiceHeld(s) && Step(builds, s, l, s')
    ensures ServiceHeld(s')
  {
    forall q: nat ensures InService(s', q) <==> s'.serviceLock == Some(q) {
      ServiceChanges(builds, s, l, s', q);
      assert l.Build? || l.BuildFails? ==> InService(s, l.p);
    }
  }

  lemma FileHeldStep(builds: Builder, s: State, l: Label, s': State)
    requires FileHeld(s) && Step(builds, s, l, s')
    ensures FileHeld(s')
  {
    forall q: nat ensures InFile(s', q) <==> s'.fileLock == Some(q) {
      FileChanges(builds, s, l, s', q);
      assert l.Write? || l.WriteFails? ==> InFile(s, l.p);
    }
  }

  lemma ReloaderHeldStep(builds: Builder, s: State, l: Label, s': State)
    requires ReloaderHeld(s) && Step(builds, s, l, s')
    ensures ReloaderHeld(s')
  {
    forall q: nat ensures InReload(s', q) <==> s'.reloadLock == Some(q) {
      ReloaderChanges(builds, s, l, s', q);
      assert LeavesReloader(s, l) ==> InReload(s, l.p);
    }
  }

  /** A full sync starts to run with its Begin and stops with its Return, and so does the flag. */
  lemma FullSyncChanges(builds: Builder, s: State, l: Label, s': State, q: nat)
    requires Step(builds, s, l, s')
    ensures RunningFull(s', q) <==> (RunningFull(s, q) && l != Return(q)) || l == Begin(q, true)
    ensures s'.isSyncing <==> (s.isSyncing && !(l.Return? && s.syncs[l.p].full)) || (l.Begin? && l.full)
  {
  }

  lemma OneFullSyncStep(builds: Builder, s: State, l: Label, s': State)
    requires OneFullSync(s) && Step(builds, s, l, s')
    ensures OneFullSync(s')
  {
    forall q { FullSyncChanges(builds, s, l, s', q); }
    if l.Begin? && l.full {
      assert RunningFull(s', l.p);
    } else if s'.isSyncing {
      var q :| RunningFull(s, q);
      assert RunningFull(s', q);
    } else if s.isSyncing {
      assert RunningFull(s, l.p);
    }
  }

  /** In every reachable state the sections exclude each other and at most one full sync runs. */
  lemma {:induction false} ExclusiveAlways(builds: Builder, ss: seq<State>, ls: seq<Label>, k: nat)
    requires IsRun(builds, ss, ls) && k <= |ls|
    ensures ServiceHeld(ss[k]) && FileHeld(ss[k]) && ReloaderHeld(ss[k]) && OneFullSync(ss[k])
  {
    if k > 0 {
      ExclusiveAlways(builds, ss, ls, k - 1);
      ServiceHeldStep(builds, ss[k - 1], ls[k - 1], ss[k]);
      FileHeldStep(builds, ss[k - 1], ls[k - 1], ss[k]);
      ReloaderHeldStep(builds, ss[k - 1], ls[k - 1], ss[k]);
      OneFullSyncStep(builds, ss[k - 1], ls[k - 1], ss[k]);
    }
  }

  // ------------------------------------------------------------ file to live

  predicate BeforeWrite(ph: Phase) {
    ph.Started? || ph.Building? || ph.Built? || ph.Changed? || ph.Writing?
  }

  ghost predicate NoWrite(ls: seq<Label>, lo: nat, hi: nat) {
    forall m :: lo <= m < hi && m < |ls| ==> !IsWrite(ls[m])
  }

  /** The writer of the file has not read anything older than its own bytes. */
  ghost predicate WriterAhead(s: State, w: nat, cfg: Bytes) {
    && s.file == Some(cfg) && w in s.syncs
    && !BeforeWrite(s.syncs[w].phase)
    && (s.syncs[w].phase.Read? ==> s.syncs[w].phase.data == cfg)
  }

  /** File and live agree and no reload in flight carries other bytes. */
  ghost predicate Settled(s: State, cfg: Bytes) {
    && s.file == Some(cfg) && s.live == Some(cfg)
    && forall q :: q in s.syncs && s.syncs[q].phase.Read? ==> s.syncs[q].phase.data == cfg
  }

  lemma AheadStep(builds: Builder, s: State, l: Label, s': State, w: nat, cfg: Bytes)
    requires WriterAhead(s, w, cfg) && Step(builds, s, l, s') && !IsWrite(l)
    ensures WriterAhead(s', w, cfg)
  {
  }

  lemma {:induction false} WriterStaysAhead(builds: Builder, ss: seq<State>, ls: seq<Label>, i: nat, w: nat,
      cfg: Bytes, k: nat)
    requires IsRun(builds, ss, ls) && i < k <= |ls|
    requires ls[i] == Write(w) && At(ss[i], w, Writing(cfg)) && NoWrite(ls, i + 1, k)
    ensures WriterAhead(ss[k], w, cfg)
  {
    assert Step(builds, ss[k - 1], ls[k - 1], ss[k]);
    if k > i + 1 {
      WriterStaysAhead(builds, ss, ls, i, w, cfg, k - 1);
      AheadStep(builds, ss[k - 1], ls[k - 1], ss[k], w, cfg);
    }
  }

  lemma SettledStep(builds: Builder, s: State, l: Label, s': State, cfg: Bytes)
    requires Settled(s, cfg) && Step(builds, s, l, s') && !IsWrite(l)
    ensures Settled(s', cfg)
  {
  }

  lemma PostSettles(builds: Builder, s: State, w: nat, s': State, cfg: Bytes)
    requires ReloaderHeld(s) && WriterAhead(s, w, cfg) && Step(builds, s, PostOk(w), s')
    ensures Settled(s', cfg)
  {
    assert InReload(s, w);
    forall q | q in s.syncs && s.syncs[q].phase.Read?
      ensures q == w
    {
      assert InReload(s, q);
    }
  }

  lemma {:induction false} SettledFrom(builds: Builder, ss: seq<State>, ls: seq<Label>, i: nat, j: nat, w: nat,
      cfg: Bytes, k: nat)
    requires IsRun(builds, ss, ls) && i < j < k <= |ls|
    requires ls[i] == Write(w) && At(ss[i], w, Writing(cfg)) && ls[j] == PostOk(w) && NoWrite(ls, i + 1, k)
    ensures Settled(ss[k], cfg)
  {
    assert Step(builds, ss[k - 1], ls[k - 1], ss[k]);
    if k == j + 1 {
      WriterStaysAhead(builds, ss, ls, i, w, cfg, j);
      ExclusiveAlways(builds, ss, ls, j);
      PostSettles(builds, ss[j], w, ss[k], cfg);
    } else {
      SettledFrom(builds, ss, ls, i, j, w, cfg, k - 1);
      SettledStep(builds, ss[k - 1], ls[k - 1], ss[k], cfg);
    }
  }

  /** Once the sync that made the latest write has reloaded, live equals the file, and stays
      equal until the next write, whatever every other sync does in between. */
  lemma LatestWriterReloaded(builds: Builder, ss: seq<State>, ls: seq<Label>, i: nat, j: nat, w: nat, k: nat)
    requires IsRun(builds, ss, ls) && i < j < k <= |ls|
    requires ls[i] == Write(w) && ls[j] == PostOk(w) && NoWrite(ls, i + 1, k)
    ensures ss[k].live == ss[k].file == ss[i + 1].file && ss[k].file.Some?
  {
    assert Step(builds, ss[i], ls[i], ss[i + 1]);
    SettledFrom(builds, ss, ls, i, j, w, ss[i].syncs[w].phase.cfg, k);
  }

  // ------------------------------------------------------------ database to file

  /** What sync p built is what it still carries, until it writes it. */
  ghost predicate Carries(s: State, p: nat, cfg: Bytes) {
    && p in s.syncs
    && var ph := s.syncs[p].phase;
    && !ph.Started? && !ph.Building?
    && (ph.Built? || ph.Changed? || ph.Writing? ==> ph.cfg == cfg)
  }

  lemma CarriesStep(builds: Builder, s: State, l: Label, s': State, p: nat, cfg: Bytes)
    requires Carries(s, p, cfg) && Step(builds, s, l, s')
    ensures Carries(s', p, cfg)
  {
    if l.DbChange? || l.InitialWrite? || l.p != p {
      assert s'.syncs[p] == s.syncs[p];
    }
  }

  lemma {:induction false} StillCarries(builds: Builder, ss: seq<State>, ls: seq<Label>, b: nat, p: nat, k: nat)
    requires IsRun(builds, ss, ls) && b < k <= |ls| && ls[b].Build? && ls[b].p == p
    ensures Carries(ss[k], p, ls[b].cfg)
  {
    assert Step(builds, ss[k - 1], ls[k - 1], ss[k]);
    if k > b + 1 {
      StillCarries(builds, ss, ls, b, p, k - 1);
      CarriesStep(builds, ss[k - 1], ls[k - 1], ss[k], p, ls[b].cfg);
    }
  }

  lemma {:induction false} DbStays(builds: Builder, ss: seq<State>, ls: seq<Label>, b: nat, k: nat)
    requires IsPath(builds, ss, ls) && b <= k <= |ls|
    requires forall m :: b <= m < k ==> !ls[m].DbChange?
    ensures ss[k].db == ss[b].db
  {
    if k > b {
      DbStays(builds, ss, ls, b, k - 1);
      assert Step(builds, ss[k - 1], ls[k - 1], ss[k]);
    }
  }

  lemma {:induction false} FileStays(builds: Builder, ss: seq<State>, ls: seq<Label>, c: nat, k: nat)
    requires IsRun(builds, ss, ls) && c <= k <= |ls| && NoWrite(ls, c, k)
    ensures ss[k].file == ss[c].file
  {
    if k > c {
      FileStays(builds, ss, ls, c, k - 1);
      assert Step(builds, ss[k - 1], ls[k - 1], ss[k]);
    }
  }

  /** The file is a build of the current database. */
  ghost predicate FileIsBuild(builds: Builder, s: State) { s.file.Some? && builds(s.db, s.file.value) }

  /** Sync p puts its bytes into the file at this step, or finds them there. */
  ghost predicate Settles(s: State, l: Label, p: nat) {
    || l == Write(p)
    || (l == Compare(p) && p in s.syncs && s.syncs[p].phase.Built? && s.file == Some(s.syncs[p].phase.cfg))
  }

  /** If the database is still as it was when p built, and nobody has written since p settled, the file
      holds p's bytes: a build of what p could read. It is one of the database if what p lost does not show
      in builds, as when p lost nothing, and for a coherent builder only then. */
  lemma SyncedFileIsBuild(builds: Builder, ss: seq<State>, ls: seq<Label>, b: nat, c: nat, p: nat, k: nat)
    requires IsRun(builds, ss, ls) && b < c < k <= |ls|
    requires ls[b].Build? && ls[b].p == p && Settles(ss[c], ls[c], p)
    requires forall m :: b <= m < k ==> !ls[m].DbChange?
    requires NoWrite(ls, c + 1, k)
    ensures ss[k].file == Some(ls[b].cfg) && AsRead(builds, ss[k].db, ls[b].lost, ss[k].file)
    ensures LosesNothing(ss[k].db, ls[b].lost) ==> FileIsBuild(builds, ss[k])
    ensures Coherent(builds) ==> (FileIsBuild(builds, ss[k]) <==> LossUnseen(builds, ss[k].db, ls[b].lost))
  {
    StillCarries(builds, ss, ls, b, p, c);
    assert Step(builds, ss[b], ls[b], ss[b + 1]);
    assert Step(builds, ss[c], ls[c], ss[c + 1]);
    DbStays(builds, ss, ls, b, k);
    FileStays(builds, ss, ls, c + 1, k);
    BuiltIsAsRead(builds, ss[k].db, ls[b].lost, ls[b].cfg);
  }

  /** End to end: a sync that built the current database, wrote last and reloaded has put those bytes into
      the live server. */
  lemma SyncedLiveIsBuild(builds: Builder, ss: seq<State>, ls: seq<Label>, b: nat, i: nat, j: nat, p: nat, k: nat)
    requires IsRun(builds, ss, ls) && b < i < j < k <= |ls|
    requires ls[b].Build? && ls[b].p == p && ls[i] == Write(p) && ls[j] == PostOk(p)
    requires forall m :: b <= m < k ==> !ls[m].DbChange?
    requires NoWrite(ls, i + 1, k)
    ensures ss[k].live == ss[k].file == Some(ls[b].cfg)
    ensures LosesNothing(ss[k].db, ls[b].lost) ==> builds(ss[k].db, ls[b].cfg)
    ensures Coherent(builds) ==> (builds(ss[k].db, ls[b].cfg) <==> LossUnseen(builds, ss[k].db, ls[b].lost))
  {
    LatestWriterReloaded(builds, ss, ls, i, j, p, k);
    SyncedFileIsBuild(builds, ss, ls, b, i, p, k);
  }

  // ------------------------------------------------------------ what skipping cannot do

  /** No sync is between a detected change and its return, and all bytes in hand are the file's. */
  ghost predicate Quiet(s: State) {
    && s.file.Some?
    && forall p :: p in s.syncs ==>
         var ph := s.syncs[p].phase;
         ph.Started? || ph.Building? || ph.Done? || ph.Returned? || (ph.Built? && Some(ph.cfg) == s.file)
  }

  /** The file is the only build of the database. */
  ghost predicate FileIsOnlyBuild(builds: Builder, s: State) {
    s.file.Some? && forall cfg :: builds(s.db, cfg) ==> cfg == s.file.value
  }

  /** The step neither changes the database, nor loses a part of it, nor fails to read the file. */
  predicate Ordinary(s: State, l: Label) {
    !l.DbChange? && !l.CompareFails? && (l.Build? ==> LosesNothing(s.db, l.lost))
  }

  lemma QuietStep(builds: Builder, s: State, l: Label, s': State)
    requires Quiet(s) && FileIsOnlyBuild(builds, s) && Step(builds, s, l, s') && Ordinary(s, l)
    ensures Quiet(s') && FileIsOnlyBuild(builds, s') && s'.db == s.db && s'.file == s.file && s'.live == s.live
  {
    if l.Build? {
      WholeViewIff(s.db, l.lost);
    }
  }

  /** A failed reload is never repaired by syncing again: while the database stays the same and is
      read in full, and the file can be read, every later sync skips and the live configuration
      keeps its old value. */
  lemma {:induction false} SkipNeverRepairs(builds: Builder, ss: seq<State>, ls: seq<Label>, i: nat, k: nat)
    requires IsRun(builds, ss, ls) && i <= k <= |ls|
    requires Quiet(ss[i]) && FileIsOnlyBuild(builds, ss[i])
    requires forall m {:trigger ls[m]} :: i <= m < k ==> Ordinary(ss[m], ls[m])
    ensures Quiet(ss[k]) && FileIsOnlyBuild(builds, ss[k])
    ensures ss[k].db == ss[i].db && ss[k].file == ss[i].file && ss[k].live == ss[i].live
  {
    if k > i {
      SkipNeverRepairs(builds, ss, ls, i, k - 1);
      assert Ordinary(ss[k - 1], ls[k - 1]);
      QuietStep(builds, ss[k - 1], ls[k - 1], ss[k]);
    }
  }

  lemma Extend(builds: Builder, ss: seq<State>, ls: seq<Label>, l: Label, s: State) returns (ss': seq<State>,
      ls': seq<Label>)
    requires IsRun(builds, ss, ls) && Step(builds, ss[|ls|], l, s)
    ensures IsRun(builds, ss', ls') && |ls'| == |ls| + 1 && ss'[|ls'|] == s && ss'[0] == ss[0]
  {
    ss', ls' := ss + [s], ls + [l];
  }

  /** A system at rest, and the same with one sync at a given phase. */
  ghost function Idle(db: Db, file: Option<Bytes>, live: Option<Bytes>): State {
    State(db, file, live, None, None, None, false, map[])
  }

  ghost function Solo(db: Db, file: Option<Bytes>, live: Option<Bytes>, phase: Phase): State {
    State(db, file, live, if phase.Building? then Some(0) else None, if phase.Writing? then Some(0) else None,
          if InReloader(phase) then Some(0) else None, false, map[0 := Sync(false, phase)])
  }

  lemma SoloRunToBuilt(builds: Builder, db: Db, lost: Losses, file: Option<Bytes>, live: Option<Bytes>, cfg: Bytes)
    returns (ss: seq<State>, ls: seq<Label>)
    requires builds(View(db, lost), cfg)
    ensures IsRun(builds, ss, ls) && ss[0] == Idle(db, file, live) && ss[|ls|] == Solo(db, file, live, Built(cfg))
  {
    ss, ls := [Idle(db, file, live)], [];
    ss, ls := Extend(builds, ss, ls, Begin(0, false), Solo(db, file, live, Started));
    ss, ls := Extend(builds, ss, ls, LockService(0), Solo(db, file, live, Building));
    ss, ls := Extend(builds, ss, ls, Build(0, cfg, lost), Solo(db, file, live, Built(cfg)));
  }

  lemma SoloRunToWritten(builds: Builder, ss0: seq<State>, ls0: seq<Label>, db: Db, file: Option<Bytes>,
      live: Option<Bytes>, cfg: Bytes)
    returns (ss: seq<State>, ls: seq<Label>)
    requires IsRun(builds, ss0, ls0) && ss0[|ls0|] == Solo(db, file, live, Changed(cfg))
    ensures IsRun(builds, ss, ls) && ss[0] == ss0[0] && ss[|ls|] == Solo(db, Some(cfg), live, Written)
  {
    ss, ls := Extend(builds, ss0, ls0, LockFile(0), Solo(db, file, live, Writing(cfg)));
    ss, ls := Extend(builds, ss, ls, Write(0), Solo(db, Some(cfg), live, Written));
  }
}
