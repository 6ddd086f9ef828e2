/** A nil return under concurrent syncs. No mutex spans build and write, so a sync that built an older
    database can overwrite the file after a newer sync has returned nil. What decides is a property of
    the state: whether some sync between its build and its write carries bytes that are not a build of
    the current database, and whether a later build may lose a read that shows in its bytes.
 */
module SyncRaces {
  import opened Wrappers
  import opened Records
  import opened SyncProtocol
  import opened Sets

  /** Two syncs, the older at its phase and the newer at its own. */
  ghost function Duo(db: Db, file: Bytes, live: Option<Bytes>, older: Phase, newer: Phase): State {
    State(db, Some(file), live, if newer.Building? then Some(1) else None, if older.Writing? then Some(0) else None,
        None, false,
          map[0 := Sync(false, older), 1 := Sync(false, newer)])
  }

  /** The older sync has built; then the database changes and a newer sync begins. */
  lemma OlderBuilt(builds: Builder, db: Db, db': Db, file: Bytes, live: Option<Bytes>, cfg: Bytes)
    returns (ss: seq<State>, ls: seq<Label>)
    requires builds(db, cfg)
    ensures IsRun(builds, ss, ls) && ss[|ls|] == Duo(db', file, live, Built(cfg), Started)
  {
    WholeViewIff(db, NO_LOSS);
    ss, ls := SoloRunToBuilt(builds, db, NO_LOSS, Some(file), live, cfg);
    ss, ls := Extend(builds, ss, ls, DbChange(db'), Solo(db', Some(file), live, Built(cfg)));
    ss, ls := Extend(builds, ss, ls, Begin(1, false), Duo(db', file, live, Built(cfg), Started));
  }

  /** The newer sync builds the new database, finds the file up to date and is done. */
  lemma NewerSkips(builds: Builder, db: Db, db': Db, live: Option<Bytes>, cfg: Bytes, cfg': Bytes)
    returns (ss: seq<State>, ls: seq<Label>)
    requires builds(db, cfg) && builds(db', cfg')
    ensures IsRun(builds, ss, ls) && ss[|ls|] == Duo(db', cfg', live, Built(cfg), Done(true))
  {
    WholeViewIff(db', NO_LOSS);
    ss, ls := OlderBuilt(builds, db, db', cfg', live, cfg);
    ss, ls := Extend(builds, ss, ls, LockService(1), Duo(db', cfg', live, Built(cfg), Building));
    ss, ls := Extend(builds, ss, ls, Build(1, cfg', NO_LOSS), Duo(db', cfg', live, Built(cfg), Built(cfg')));
    ss, ls := Extend(builds, ss, ls, Compare(1), Duo(db', cfg', live, Built(cfg), Done(true)));
  }

  /** Afterwards the older sync writes: the newer one has returned nil for the current database, yet
      the file is not a build of it. */
  lemma StaleOverwriteReachable(builds: Builder, db: Db, db': Db, live: Option<Bytes>, cfg: Bytes, cfg': Bytes)
    returns (ss: seq<State>, ls: seq<Label>)
    requires builds(db, cfg) && builds(db', cfg') && !builds(db', cfg)
    ensures IsRun(builds, ss, ls)
    ensures var s := ss[|ls|]; At(s, 1, Done(true)) && s.db == db' && s.file == Some(cfg) && !builds(s.db, cfg)
  {
    ss, ls := NewerSkips(builds, db, db', live, cfg, cfg');
    ss, ls := Extend(builds, ss, ls, Compare(0), Duo(db', cfg', live, Changed(cfg), Done(true)));
    ss, ls := Extend(builds, ss, ls, LockFile(0), Duo(db', cfg', live, Writing(cfg), Done(true)));
    ss, ls := Extend(builds, ss, ls, Write(0), Duo(db', cfg, live, Written, Done(true)));
  }

  // ------------------------------------------------------------ the exact condition

  predicate Pending(ph: Phase) { ph.Built? || ph.Changed? || ph.Writing? }

  /** Sync p, if between build and write, carries a build of the current database. */
  ghost predicate Fresh(builds: Builder, s: State, p: nat) {
    p in s.syncs && Pending(s.syncs[p].phase) ==> builds(s.db, s.syncs[p].phase.cfg)
  }

  ghost predicate AllFresh(builds: Builder, s: State) { forall p: nat :: Fresh(builds, s, p) }

  /** No loss of a build from this database shows. */
  ghost predicate LossesUnseen(builds: Builder, db: Db) {
    forall lost, cfg :: builds(View(db, lost), cfg) ==> builds(db, cfg)
  }

  /** The step leaves the database alone and, where only whole builds count, a build in it yields a build
      of the database. */
  ghost predicate Admits(builds: Builder, whole: bool, s: State, l: Label) {
    !l.DbChange? && (whole && l.Build? ==> builds(s.db, l.cfg))
  }

  /** A future of the state in which the database stays as it is. */
  ghost predicate Continues(builds: Builder, whole: bool, s: State, ss: seq<State>, ls: seq<Label>) {
    && IsPath(builds, ss, ls) && ss[0] == s
    && forall m {:trigger ls[m]} :: 0 <= m < |ls| ==> Admits(builds, whole, ss[m], ls[m])
  }

  /** The file is a build of the database now and in every such future, later writes included. */
  ghost predicate StaysBuild(builds: Builder, whole: bool, s: State) {
    forall ss, ls :: Continues(builds, whole, s, ss, ls) ==> FileIsBuild(builds, ss[|ls|])
  }

  lemma FreshStep(builds: Builder, s: State, l: Label, s': State, q: nat)
    requires Fresh(builds, s, q) && Step(builds, s, l, s') && Admits(builds, true, s, l)
    ensures Fresh(builds, s', q) && s'.db == s.db
  {
  }

  lemma FileBuildStep(builds: Builder, s: State, l: Label, s': State)
    requires FileIsBuild(builds, s) && AllFresh(builds, s) && Step(builds, s, l, s') && Admits(builds, true, s, l)
    ensures FileIsBuild(builds, s')
  {
    if l.Write? {
      assert Fresh(builds, s, l.p);
    }
  }

  lemma {:induction false} FreshForever(builds: Builder, s: State, ss: seq<State>, ls: seq<Label>, k: nat)
    requires FileIsBuild(builds, s) && AllFresh(builds, s) && Continues(builds, true, s, ss, ls) && k <= |ls|
    ensures FileIsBuild(builds, ss[k]) && AllFresh(builds, ss[k])
  {
    if k > 0 {
      FreshForever(builds, s, ss, ls, k - 1);
      var l := ls[k - 1];
      forall q: nat ensures Fresh(builds, ss[k], q) {
        FreshStep(builds, ss[k - 1], l, ss[k], q);
      }
      FileBuildStep(builds, ss[k - 1], l, ss[k]);
    }
  }

  /** Where losses do not show, every future counts as one of whole builds. */
  lemma UnseenIsWhole(builds: Builder, s: State, ss: seq<State>, ls: seq<Label>)
    requires LossesUnseen(builds, s.db) && Continues(builds, false, s, ss, ls)
    ensures Continues(builds, true, s, ss, ls)
  {
    forall m | 0 <= m < |ls|
      ensures Admits(builds, true, ss[m], ls[m])
    {
      DbStays(builds, ss, ls, 0, m);
      assert Step(builds, ss[m], ls[m], ss[m + 1]);
    }
  }

  // ------------------------------------------------------------ bad futures

  lemma Onward(builds: Builder, whole: bool, s: State, ss: seq<State>, ls: seq<Label>, l: Label, s': State)
    returns (ss': seq<State>, ls': seq<Label>)
    requires Continues(builds, whole, s, ss, ls)
    requires Step(builds, ss[|ls|], l, s') && Admits(builds, whole, ss[|ls|], l)
    ensures Continues(builds, whole, s, ss', ls') && |ls'| == |ls| + 1 && ss'[|ls'|] == s'
  {
    ss', ls' := ss + [s'], ls + [l];
  }

  /** The file mutex can be freed: its holder may fail to write. */
  lemma FreeFile(builds: Builder, whole: bool, s: State) returns (ss: seq<State>, ls: seq<Label>, s': State)
    requires FileHeld(s)
    ensures Continues(builds, whole, s, ss, ls) && ss[|ls|] == s' && s'.fileLock.None?
    ensures s'.db == s.db && s'.serviceLock == s.serviceLock
    ensures forall p :: p in s.syncs && !s.syncs[p].phase.Writing? ==> p in s'.syncs && s'.syncs[p] == s.syncs[p]
  {
    ss, ls, s' := [s], [], s;
    if s.fileLock.Some? {
      var q := s.fileLock.value;
      assert InFile(s, q);
      s' := Move(s, q, Done(false)).(fileLock := None);
      ss, ls := Onward(builds, whole, s, ss, ls, WriteFails(q), s');
    }
  }

  /** So can the service mutex: its holder may fail to build. */
  lemma FreeService(builds: Builder, s: State, ss0: seq<State>, ls0: seq<Label>)
    returns (ss: seq<State>, ls: seq<Label>, s': State)
    requires Continues(builds, false, s, ss0, ls0) && ss0[|ls0|].fileLock.None?
    requires ss0[|ls0|].serviceLock.Some? ==> At(ss0[|ls0|], ss0[|ls0|].serviceLock.value, Building)
    ensures Continues(builds, false, s, ss, ls) && ss[|ls|] == s' && s'.db == ss0[|ls0|].db
    ensures s'.fileLock.None? && s'.serviceLock.None?
  {
    ss, ls, s' := ss0, ls0, ss0[|ls0|];
    if s'.serviceLock.Some? {
      var q := s'.serviceLock.value;
      s' := Move(s', q, Done(false)).(serviceLock := None);
      ss, ls := Onward(builds, false, s, ss, ls, BuildFails(q), s');
    }
  }

  /** A sync that has found a change and has the file mutex before it can write what it carries. */
  lemma ChangedWrites(builds: Builder, whole: bool, s: State, ss0: seq<State>, ls0: seq<Label>, p: nat)
    returns (ss: seq<State>, ls: seq<Label>)
    requires Continues(builds, whole, s, ss0, ls0)
    requires var t := ss0[|ls0|]; t.fileLock.None? && p in t.syncs && t.syncs[p].phase.Changed?
    ensures Continues(builds, whole, s, ss, ls) && ss[|ls|].db == ss0[|ls0|].db
    ensures ss[|ls|].file == Some(ss0[|ls0|].syncs[p].phase.cfg)
  {
    var t := ss0[|ls0|];
    var cfg := t.syncs[p].phase.cfg;
    var t1 := Move(t, p, Writing(cfg)).(fileLock := Some(p));
    ss, ls := Onward(builds, whole, s, ss0, ls0, LockFile(p), t1);
    ss, ls := Onward(builds, whole, s, ss, ls, Write(p), Move(t1, p, Written).(file := Some(cfg), fileLock := None));
  }

  /** Stale bytes in any sync between build and write reach the file in some future, whoever holds the
      file mutex. */
  lemma StaleReachesFile(builds: Builder, whole: bool, s: State, p: nat) returns (ss: seq<State>, ls: seq<Label>)
    requires FileHeld(s) && !Fresh(builds, s, p)
    ensures Continues(builds, whole, s, ss, ls) && !FileIsBuild(builds, ss[|ls|])
  {
    var ph := s.syncs[p].phase;
    if ph.Writing? {
      var s' := Move(s, p, Written).(file := Some(ph.cfg), fileLock := None);
      ss, ls := Onward(builds, whole, s, [s], [], Write(p), s');
      return;
    }
    var s1;
    ss, ls, s1 := FreeFile(builds, whole, s);
    if ph.Built? {
      ss, ls := Onward(builds, whole, s, ss, ls, CompareFails(p), Move(s1, p, Changed(ph.cfg)));
    }
    ss, ls := ChangedWrites(builds, whole, s, ss, ls, p);
  }

  /** From a state with both mutexes free, a new sync can build with a loss and write. */
  lemma LossyWrites(builds: Builder, s: State, ss0: seq<State>, ls0: seq<Label>, lost: Losses, cfg: Bytes)
    returns (ss: seq<State>, ls: seq<Label>)
    requires Continues(builds, false, s, ss0, ls0) && builds(View(ss0[|ls0|].db, lost), cfg)
    requires ss0[|ls0|].fileLock.None? && ss0[|ls0|].serviceLock.None?
    ensures Continues(builds, false, s, ss, ls) && ss[|ls|].db == ss0[|ls0|].db && ss[|ls|].file == Some(cfg)
  {
    var t := ss0[|ls0|];
    var p := Unused(t.syncs.Keys);
    var t1 := t.(syncs := t.syncs[p := Sync(false, Started)]);
    var t2 := Move(t1, p, Building).(serviceLock := Some(p));
    var t3 := Move(t2, p, Built(cfg)).(serviceLock := None);
    ss, ls := Onward(builds, false, s, ss0, ls0, Begin(p, false), t1);
    ss, ls := Onward(builds, false, s, ss, ls, LockService(p), t2);
    ss, ls := Onward(builds, false, s, ss, ls, Build(p, cfg, lost), t3);
    ss, ls := Onward(builds, false, s, ss, ls, CompareFails(p), Move(t3, p, Changed(cfg)));
    ss, ls := ChangedWrites(builds, false, s, ss, ls, p);
  }

  /** A loss that shows reaches the file in some future of every state. */
  lemma LossReachesFile(builds: Builder, s: State, lost: Losses, cfg: Bytes) returns (ss: seq<State>, ls: seq<Label>)
    requires ServiceHeld(s) && FileHeld(s) && builds(View(s.db, lost), cfg)
    ensures Continues(builds, false, s, ss, ls) && ss[|ls|].db == s.db && ss[|ls|].file == Some(cfg)
  {
    var s1, s2;
    ss, ls, s1 := FreeFile(builds, false, s);
    if s.serviceLock.Some? {
      assert InService(s, s.serviceLock.value);
    }
    ss, ls, s2 := FreeService(builds, s, ss, ls);
    ss, ls := LossyWrites(builds, s, ss, ls, lost, cfg);
  }

  // ------------------------------------------------------------ both directions

  /** In futures of whole builds: exactly when a file that is a build stays one until the database changes. */
  lemma StaysBuildWholeIff(builds: Builder, s: State)
    requires FileHeld(s)
    ensures StaysBuild(builds, true, s) <==> FileIsBuild(builds, s) && AllFresh(builds, s)
  {
    if StaysBuild(builds, true, s) {
      var now: seq<Label> := [];
      assert Continues(builds, true, s, [s], now);
      if p: nat :| !Fresh(builds, s, p) {
        var ss, ls := StaleReachesFile(builds, true, s, p);
        assert false;
      }
    } else {
      var ss, ls :| Continues(builds, true, s, ss, ls) && !FileIsBuild(builds, ss[|ls|]);
      if FileIsBuild(builds, s) && AllFresh(builds, s) {
        FreshForever(builds, s, ss, ls, |ls|);
        assert false;
      }
    }
  }

  /** In all futures: it also takes that no loss of a later build can show. */
  lemma StaysBuildIff(builds: Builder, s: State)
    requires ServiceHeld(s) && FileHeld(s)
    ensures StaysBuild(builds, false, s) <==>
            FileIsBuild(builds, s) && AllFresh(builds, s) && LossesUnseen(builds, s.db)
  {
    StaysBuildWholeIff(builds, s);
    if StaysBuild(builds, false, s) {
      assert StaysBuild(builds, true, s) by {
        forall ss, ls | Continues(builds, true, s, ss, ls)
          ensures FileIsBuild(builds, ss[|ls|])
        {
          assert Continues(builds, false, s, ss, ls);
        }
      }
      if lost, cfg :| builds(View(s.db, lost), cfg) && !builds(s.db, cfg) {
        var ss, ls := LossReachesFile(builds, s, lost, cfg);
        assert false;
      }
    } else {
      var ss, ls :| Continues(builds, false, s, ss, ls) && !FileIsBuild(builds, ss[|ls|]);
      if FileIsBuild(builds, s) && AllFresh(builds, s) && LossesUnseen(builds, s.db) {
        UnseenIsWhole(builds, s, ss, ls);
        assert false;
      }
    }
  }

  /** A sync that settles a build of the current database leaves a file that stays a build exactly when no
      sync carries stale bytes at that moment and no loss can show; among whole builds the first suffices. */
  lemma NilReturnStaysBuildIff(builds: Builder, ss: seq<State>, ls: seq<Label>, c: nat, p: nat)
    requires IsRun(builds, ss, ls) && c < |ls| && Settles(ss[c], ls[c], p) && Fresh(builds, ss[c], p)
    ensures FileIsBuild(builds, ss[c + 1])
    ensures StaysBuild(builds, false, ss[c + 1]) <==>
            AllFresh(builds, ss[c + 1]) && LossesUnseen(builds, ss[c + 1].db)
    ensures StaysBuild(builds, true, ss[c + 1]) <==> AllFresh(builds, ss[c + 1])
  {
    assert Step(builds, ss[c], ls[c], ss[c + 1]);
    ExclusiveAlways(builds, ss, ls, c + 1);
    StaysBuildIff(builds, ss[c + 1]);
    StaysBuildWholeIff(builds, ss[c + 1]);
  }
}
