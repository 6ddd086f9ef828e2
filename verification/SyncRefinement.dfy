/** The sequential sync that ProxyService builds on is the concurrent protocol with one sync in it. The
    two have the same outcomes: every outcome of a SyncRun is reached by a run of SyncProtocol that
    starts at rest, and every such run of one sync ends as some SyncRun says.
 */
module SyncRefinement {
  import opened Wrappers
  import opened Records
  import opened SyncProtocol
  import opened ProxyService

  /** A run whose only sync stands at the given phase. */
  ghost predicate StandsAt(builds: Builder, ss: seq<State>, ls: seq<Label>, db: Db, file: Option<Bytes>,
      live: Option<Bytes>, phase: Phase) {
    IsRun(builds, ss, ls) && ss[|ls|] == Solo(db, file, live, phase)
  }

  lemma PostSteps(builds: Builder, run: SyncRun, ss0: seq<State>, ls0: seq<Label>, db: Db, live: Option<Bytes>,
      cfg: Bytes)
    returns (ss: seq<State>, ls: seq<Label>)
    requires StandsAt(builds, ss0, ls0, db, Some(cfg), live, Read(cfg))
    ensures ss != [] && ss[0] == ss0[0]
    ensures StandsAt(builds, ss, ls, db, Some(cfg), if run.postFails && !run.applied then live else Some(cfg),
        Done(!run.postFails))
  {
    if run.postFails {
      var live' := if run.applied then Some(cfg) else live;
      ss, ls := Extend(builds, ss0, ls0, PostFails(0, run.applied), Solo(db, Some(cfg), live', Done(false)));
    } else {
      ss, ls := Extend(builds, ss0, ls0, PostOk(0), Solo(db, Some(cfg), Some(cfg), Posted));
      ss, ls := Extend(builds, ss, ls, UnlockReloader(0), Solo(db, Some(cfg), Some(cfg), Done(true)));
    }
  }

  lemma ReadSteps(builds: Builder, run: SyncRun, ss0: seq<State>, ls0: seq<Label>, db: Db, live: Option<Bytes>,
      cfg: Bytes)
    returns (ss: seq<State>, ls: seq<Label>)
    requires StandsAt(builds, ss0, ls0, db, Some(cfg), live, Reloading)
    ensures ss != [] && ss[0] == ss0[0]
    ensures StandsAt(builds, ss, ls, db, Some(cfg), live,
                     if run.recheckFails || run.readFails then Done(false) else Read(cfg))
  {
    if run.recheckFails {
      ss, ls := Extend(builds, ss0, ls0, Recheck(0, false), Solo(db, Some(cfg), live, Done(false)));
    } else {
      ss, ls := Extend(builds, ss0, ls0, Recheck(0, true), Solo(db, Some(cfg), live, Rechecked));
      var phase := if run.readFails then Done(false) else Read(cfg);
      ss, ls := Extend(builds, ss, ls, ReadFile(0, !run.readFails), Solo(db, Some(cfg), live, phase));
    }
  }

  lemma ValidateSteps(builds: Builder, run: SyncRun, ss0: seq<State>, ls0: seq<Label>, db: Db, live: Option<Bytes>,
      cfg: Bytes)
    returns (ss: seq<State>, ls: seq<Label>)
    requires StandsAt(builds, ss0, ls0, db, Some(cfg), live, Written)
    ensures ss != [] && ss[0] == ss0[0]
    ensures StandsAt(builds, ss, ls, db, Some(cfg), live, if run.validateFails then Done(false) else Reloading)
  {
    if run.validateFails {
      ss, ls := Extend(builds, ss0, ls0, Validate(0, false), Solo(db, Some(cfg), live, Done(false)));
    } else {
      ss, ls := Extend(builds, ss0, ls0, Validate(0, true), Solo(db, Some(cfg), live, Validated));
      ss, ls := Extend(builds, ss, ls, LockReloader(0), Solo(db, Some(cfg), live, Reloading));
    }
  }

  /** The steps from the written file on. */
  lemma ReloadSteps(builds: Builder, run: SyncRun, ss0: seq<State>, ls0: seq<Label>, db: Db, live: Option<Bytes>,
      cfg: Bytes)
    returns (ss: seq<State>, ls: seq<Label>)
    requires StandsAt(builds, ss0, ls0, db, Some(cfg), live, Written)
    ensures ss != [] && ss[0] == ss0[0]
    ensures StandsAt(builds, ss, ls, db, Some(cfg), if run.Loads() then Some(cfg) else live, Done(!run.ReloadFails()))
  {
    ss, ls := ValidateSteps(builds, run, ss0, ls0, db, live, cfg);
    if !run.validateFails {
      ss, ls := ReadSteps(builds, run, ss, ls, db, live, cfg);
      if !run.recheckFails && !run.readFails {
        ss, ls := PostSteps(builds, run, ss, ls, db, live, cfg);
      }
    }
  }

  lemma FailedBuild(builds: Builder, db: Db, file: Option<Bytes>, live: Option<Bytes>) returns (ss: seq<State>,
      ls: seq<Label>)
    ensures StandsAt(builds, ss, ls, db, file, live, Done(false)) && ss[0] == Idle(db, file, live)
  {
    ss, ls := [Idle(db, file, live)], [];
    ss, ls := Extend(builds, ss, ls, Begin(0, false), Solo(db, file, live, Started));
    ss, ls := Extend(builds, ss, ls, LockService(0), Solo(db, file, live, Building));
    ss, ls := Extend(builds, ss, ls, BuildFails(0), Solo(db, file, live, Done(false)));
  }

  lemma CompareSteps(builds: Builder, run: SyncRun, ss0: seq<State>, ls0: seq<Label>, db: Db, file: Option<Bytes>,
      live: Option<Bytes>, cfg: Bytes)
    returns (ss: seq<State>, ls: seq<Label>)
    requires StandsAt(builds, ss0, ls0, db, file, live, Built(cfg))
    ensures ss != [] && ss[0] == ss0[0]
    ensures StandsAt(builds, ss, ls, db, file, live, if !run.compareFails && file == Some(cfg) then Done(true)
        else Changed(cfg))
  {
    if run.compareFails {
      ss, ls := Extend(builds, ss0, ls0, CompareFails(0), Solo(db, file, live, Changed(cfg)));
    } else {
      ss, ls := Extend(builds, ss0, ls0, Compare(0), Solo(db, file, live, if file == Some(cfg) then Done(true)
          else Changed(cfg)));
    }
  }

  lemma FailedWrite(builds: Builder, ss0: seq<State>, ls0: seq<Label>, db: Db, file: Option<Bytes>,
      live: Option<Bytes>, cfg: Bytes)
    returns (ss: seq<State>, ls: seq<Label>)
    requires StandsAt(builds, ss0, ls0, db, file, live, Changed(cfg))
    ensures StandsAt(builds, ss, ls, db, file, live, Done(false)) && ss[0] == ss0[0]
  {
    ss, ls := Extend(builds, ss0, ls0, LockFile(0), Solo(db, file, live, Writing(cfg)));
    ss, ls := Extend(builds, ss, ls, WriteFails(0), Solo(db, file, live, Done(false)));
  }

  /** Every outcome of the sequential model is one of the protocol. */
  lemma SequentialIsSolo(builds: Builder, run: SyncRun, db: Db, s: Stores) returns (ss: seq<State>, ls: seq<Label>)
    requires run.Builds(builds)
    ensures ss != [] && ss[0] == Idle(db, s.file, s.live)
    ensures var after := run.Effect(db, s);
            StandsAt(builds, ss, ls, db, after.file, after.live, Done(run.ReturnsNil(db, s.file)))
  {
    if run.Config(db).None? {
      ss, ls := FailedBuild(builds, db, s.file, s.live);
      return;
    }
    var cfg := run.Config(db).value;
    ss, ls := SoloRunToBuilt(builds, db, run.lost, s.file, s.live, cfg);
    ss, ls := CompareSteps(builds, run, ss, ls, db, s.file, s.live, cfg);
    if !run.compareFails && s.file == Some(cfg) {
      return;
    }
    if run.writeFails {
      ss, ls := FailedWrite(builds, ss, ls, db, s.file, s.live, cfg);
      return;
    }
    ss, ls := SoloRunToWritten(builds, ss, ls, db, s.file, s.live, cfg);
    ss, ls := ReloadSteps(builds, run, ss, ls, db, s.live, cfg);
  }

  /** A sync whose validation fails after its write leaves a quiet state with live different from the
      file, which no later skip repairs. */
  lemma StaleLiveReachable(builds: Builder, db: Db, cfg: Bytes, oldCfg: Bytes)
    requires cfg != oldCfg && forall c :: builds(db, c) <==> c == cfg
    ensures exists ss: seq<State>, ls: seq<Label> :: IsRun(builds, ss, ls) && Quiet(ss[|ls|])
              && FileIsOnlyBuild(builds, ss[|ls|]) && ss[|ls|].live != ss[|ls|].file
  {
    var run := SyncRun(d => if d == db then Some(cfg) else None, false, NO_LOSS,
                       false, false, true, false, false, false, false);
    WholeViewIff(db, NO_LOSS);
    var ss, ls := SequentialIsSolo(builds, run, db, Stores(Some(oldCfg), Some(oldCfg), true));
  }

  // ------------------------------------------------------------ the converse

  /** The step does not concern another sync, and nothing else touches database or file. */
  predicate Alone(l: Label, p: nat) {
    !l.DbChange? && !l.InitialWrite? && (l.Begin? ==> l.p == p)
  }

  ghost predicate Untouched(s: State, was: Stores) { s.file == was.file && s.live == was.live }

  /** Nothing has failed after the build so far. */
  predicate Spotless(run: SyncRun) { !run.compareFails && !run.writeFails && !run.ReloadFails() }

  ghost predicate WillWrite(run: SyncRun, s: State, was: Stores) {
    run.Writes(s.db, was.file) && !run.ReloadFails() && Untouched(s, was)
  }

  /** The run has written, and live is still as it was. */
  ghost predicate HasWritten(run: SyncRun, s: State, was: Stores) {
    run.Writes(s.db, was.file) && !run.ReloadFails() && s.file == run.Config(s.db) && s.live == was.live
  }

  /** The faults in `run` are those that sync p has met so far. */
  ghost predicate Explains(run: SyncRun, s: State, p: nat, was: Stores) {
    if p !in s.syncs then run.Config(s.db).None? && Spotless(run) && Untouched(s, was)
    else match s.syncs[p].phase
      case Started => run.Config(s.db).None? && Spotless(run) && Untouched(s, was)
      case Building => run.Config(s.db).None? && Spotless(run) && Untouched(s, was)
      case Built(cfg) => run.Config(s.db) == Some(cfg) && Spotless(run) && Untouched(s, was)
      case Changed(cfg) => run.Config(s.db) == Some(cfg) && WillWrite(run, s, was)
      case Writing(cfg) => run.Config(s.db) == Some(cfg) && WillWrite(run, s, was)
      case Written => HasWritten(run, s, was)
      case Validated => HasWritten(run, s, was)
      case Reloading => HasWritten(run, s, was)
      case Rechecked => HasWritten(run, s, was)
      case Read(data) => HasWritten(run, s, was) && s.file == Some(data)
      case Posted => run.Writes(s.db, was.file) && !run.ReloadFails() && s.file == s.live == run.Config(s.db)
      case Done(ok) => Ends(run, s, was, ok)
      case Returned => true
  }

  /** File, live server and answer are those of the run. */
  ghost predicate Ends(run: SyncRun, s: State, was: Stores, ok: bool) {
    var after := run.Effect(s.db, was);
    s.file == after.file && s.live == after.live && (ok <==> run.ReturnsNil(s.db, was.file))
  }

  /** The run once one more step of the sync is known. */
  ghost function Learn(run: SyncRun, s: State, l: Label): SyncRun {
    match l
    case Build(_, cfg, lost) =>
      run.(build := d => if d == View(s.db, lost) then Some(cfg) else None, listFails := false, lost := lost)
    case CompareFails(_) => run.(compareFails := true)
    case WriteFails(_) => run.(writeFails := true)
    case Validate(_, ok) => run.(validateFails := !ok)
    case Recheck(_, ok) => run.(recheckFails := !ok)
    case ReadFile(_, ok) => run.(readFails := !ok)
    case PostFails(_, applied) => run.(postFails := true, applied := applied)
    case _ => run
  }

  /** Begin to compare. */
  lemma LearnBuild(builds: Builder, run: SyncRun, s: State, l: Label, s': State, p: nat, was: Stores)
    requires Explains(run, s, p, was) && s.syncs.Keys <= {p} && Step(builds, s, l, s') && Alone(l, p)
    requires l.Begin? || l.LockService? || l.Build? || l.BuildFails? || l.Compare? || l.CompareFails?
    ensures Explains(Learn(run, s, l), s', p, was)
  {
    assert l.p == p;
  }

  /** Write to the reloader mutex. */
  lemma LearnWrite(builds: Builder, run: SyncRun, s: State, l: Label, s': State, p: nat, was: Stores)
    requires Explains(run, s, p, was) && s.syncs.Keys <= {p} && Step(builds, s, l, s')
    requires l.LockFile? || l.Write? || l.WriteFails? || l.Validate? || l.LockReloader?
    ensures Explains(Learn(run, s, l), s', p, was)
  {
    assert l.p == p;
  }

  lemma LearnReload(builds: Builder, run: SyncRun, s: State, l: Label, s': State, p: nat, was: Stores)
    requires Explains(run, s, p, was) && s.syncs.Keys <= {p} && Step(builds, s, l, s')
    requires l.Recheck? || l.ReadFile?
    ensures Explains(Learn(run, s, l), s', p, was)
  {
    assert l.p == p;
  }

  lemma LearnPost(builds: Builder, run: SyncRun, s: State, l: Label, s': State, p: nat, was: Stores)
    requires Explains(run, s, p, was) && s.syncs.Keys <= {p} && Step(builds, s, l, s')
    requires l.PostOk? || l.PostFails?
    ensures Explains(Learn(run, s, l), s', p, was)
  {
    assert l.p == p;
  }

  lemma LearnEnd(builds: Builder, run: SyncRun, s: State, l: Label, s': State, p: nat, was: Stores)
    requires Explains(run, s, p, was) && s.syncs.Keys <= {p} && Step(builds, s, l, s')
    requires l.UnlockReloader? || l.Return?
    ensures Explains(Learn(run, s, l), s', p, was)
  {
    assert l.p == p;
  }

  lemma AloneStep(builds: Builder, s: State, l: Label, s': State, p: nat)
    requires s.syncs.Keys <= {p} && Step(builds, s, l, s') && Alone(l, p)
    ensures s'.db == s.db && s'.syncs.Keys <= {p}
  {
  }

  /** What a lone sync does up to step k is what some sequential run does. */
  lemma {:induction false} SoloExplained(builds: Builder, ss: seq<State>, ls: seq<Label>, p: nat, was: Stores, k: nat)
    returns (run: SyncRun)
    requires IsRun(builds, ss, ls) && k <= |ls| && Untouched(ss[0], was)
    requires forall m {:trigger ls[m]} :: 0 <= m < |ls| ==> Alone(ls[m], p)
    ensures run.Builds(builds) && Explains(run, ss[k], p, was) && ss[k].db == ss[0].db && ss[k].syncs.Keys <= {p}
  {
    run := SyncRun(d => None, false, NO_LOSS, false, false, false, false, false, false, false);
    if k > 0 {
      run := SoloExplained(builds, ss, ls, p, was, k - 1);
      var s, l, s' := ss[k - 1], ls[k - 1], ss[k];
      assert Alone(l, p) && Step(builds, s, l, s');
      AloneStep(builds, s, l, s', p);
      if l.Begin? || l.LockService? || l.Build? || l.BuildFails? || l.Compare? || l.CompareFails? {
        LearnBuild(builds, run, s, l, s', p, was);
      } else if l.LockFile? || l.Write? || l.WriteFails? || l.Validate? || l.LockReloader? {
        LearnWrite(builds, run, s, l, s', p, was);
      } else if l.Recheck? || l.ReadFile? {
        LearnReload(builds, run, s, l, s', p, was);
      } else if l.PostOk? || l.PostFails? {
        LearnPost(builds, run, s, l, s', p, was);
      } else {
        LearnEnd(builds, run, s, l, s', p, was);
      }
      run := Learn(run, s, l);
    }
  }

  /** Every run of the protocol with one sync and no other change of database or file ends as a
      sequential run does, so what PerformFullSync promises holds of it. */
  lemma SoloIsSequential(builds: Builder, ss: seq<State>, ls: seq<Label>, p: nat, ok: bool, reloaded: bool)
    returns (run: SyncRun)
    requires IsRun(builds, ss, ls) && At(ss[|ls|], p, Done(ok))
    requires forall m {:trigger ls[m]} :: 0 <= m < |ls| ==> Alone(ls[m], p)
    ensures var s, s' := ss[0], ss[|ls|];
            var after := run.Effect(s.db, Stores(s.file, s.live, reloaded));
            && run.Builds(builds) && s'.db == s.db && s'.file == after.file && s'.live == after.live
            && (ok <==> run.ReturnsNil(s.db, s.file))
            && (ok ==> AsRead(builds, s'.db, run.lost, s'.file))
  {
    run := SoloExplained(builds, ss, ls, p, Stores(ss[0].file, ss[0].live, reloaded), |ls|);
    if ok {
      BuiltIsAsRead(builds, ss[0].db, run.lost, run.Config(ss[0].db).value);
    }
  }
}
