// From the untouched system through any series of recoveries, and the bound on their number: what it
// leaves unrecoverable.
module RecoveryBound {
  import opened Wrappers
  import opened GuardedFiles
  import opened RecoveryModel
  import opened RecoverySafety
  import opened ObjectCheck
  import opened RecoveryExecution
  import opened RecoveryRuns
  import opened RecoveryChain
  import opened RecoverySeries
  import GlobalMigration
  import MigrationSafety
  import MigrationRecovery
  import MigrationOutcome

  // ---- Starting from a migration ----

  function AfterMigration(files: Files, run: string, model: Result<Model>, hash: Hash): World {
    World(files, map[run := StoredMigration(model)], hash)
  }

  lemma MigrationIsConsistent(files: Files, o: Origin, run: string, m: Model, hash: Hash)
    requires Settled(m, files, o, {run})
    ensures var w := AfterMigration(files, run, Ok(m), hash);
      && Consistent(w, o, m, m)
      && Admit(w, o, run) == Ok(Chain(m, [run], [StoredMigration(Ok(m))]))
      && (!IsRecovery(run) ==> NamesBound(w))
      && forall surroundings :: Spent(w, o, surroundings, run)
  {
    hide Verified, StartSlots, Sited;
    var w := AfterMigration(files, run, Ok(m), hash);
    assert w.store.Keys == {run};
    assert LoadChain(w.store, hash, o, run, {}) == Ok(Chain(m, [run], [StoredMigration(Ok(m))]));
    SettledIsBehind(m, files, o, {run});
    CurrentIsAdmitted(w, o, run);
  }

  lemma SafeStartsSettled(m: Model, files: Files, o: Origin, run: string, target: string)
    requires Safe(m, files, o, {run, target}, target) && Sited(m, o, {run})
    ensures Settled(m, files, o, {run})
  {
    forall p | p in files && Watched(o, {run}, p) ensures IsRecorded(m, p) {
      assert Watched(o, {run, target}, p);
    }
  }

  // A migration whose first look fails stays the only run.
  lemma {:induction false} NothingBegins(w: World, o: Origin, run: string, attempts: seq<Attempted>)
    requires w.store.Keys == {run} && Admit(w, o, run).Err?
    ensures AfterAll(w, o, attempts) == w && forall a :: !Begins(w, o, a)
    decreases |attempts|
  {
    hide Admit, RunOf;
    forall a ensures !Begins(w, o, a) {
      if Begins(w, o, a) {
        SourceIsStored(w, o, a.source);
      }
    }
    if attempts != [] {
      NothingBegins(w, o, run, attempts[..|attempts| - 1]);
    }
  }

  /** Migrate, stop anywhere with a readable journal, recover any number of times, each time from any stored
      run, under any surroundings, and stopped in any way. The first recovery is accepted exactly if npm made
      no lock file. An attempt that is accepted and completes, as it does if every move is confirmed, brings
      the original objects home, and nothing else is live. */
  lemma MigrationThenSeriesRestores(o: Origin, files: Files, run: string, runId: string, target: string, source: string, seeds: seq<Tree>,
                                    script: seq<GlobalMigration.Event>, hash: Hash, attempts: seq<Attempted>, last: Attempted)
    requires MigrationSafety.ValidOrigin(o, run, target) && MigrationRecovery.Untouched(o, files, {run, target}, seeds)
    ensures var stopped := GlobalMigration.Drive(MigrationRecovery.StartMigration(o, files, seeds), o, run, runId, script);
      stopped.journal != [] && stopped.status in {GlobalMigration.Halted, GlobalMigration.Done, GlobalMigration.Unverified} ==>
      && var model := MigrationRecovery.LoadModel(stopped, o, run, source, seeds);
      && model.Ok?
      && var w := AfterMigration(stopped.files, run, model, hash);
      && (Admit(w, o, run).Ok? <==> GlobalMigration.LockVacant(o, stopped.files))
      && (FreshNames(w, o) ==>
            var before := AfterAll(w, o, attempts);
            Begins(before, o, last) ==>
              var end := RunOf(before, o, last);
              && (AllConfirm(last.script) && |last.script| > Outstanding(Admit(before, o, last.source).value.model) ==> end.status == Completed)
              && (end.status == Completed ==>
                    && (forall i :: 0 <= i < |o.objects| ==>
                          o.objects[i].live in end.files && SameObject(end.files[o.objects[i].live], seeds[i]))
                    && (forall j :: 0 <= j <= |o.leaves| && GeneratedPlace(o, j) in end.files ==>
                          exists i :: 0 <= i < |o.objects| && GeneratedPlace(o, j) == o.objects[i].live)))
  {
    hide Safe, Sited, GlobalMigration.Fold, GlobalMigration.Drive, RunOf, Admit, FreshNames, After, AfterAll, Settled, Consistent,
      MigrationRecovery.WithoutLock, GlobalMigration.LockVacant, Verified, StartSlots, Begins, NamesBound, Spent;
    var stopped := GlobalMigration.Drive(MigrationRecovery.StartMigration(o, files, seeds), o, run, runId, script);
    MigrationRecovery.StoppedMigrationHasModel(o, files, run, runId, target, source, seeds, script);
    if stopped.journal != [] && stopped.status in {GlobalMigration.Halted, GlobalMigration.Done, GlobalMigration.Unverified} {
      var model := MigrationRecovery.LoadModel(stopped, o, run, source, seeds).value;
      var w := AfterMigration(stopped.files, run, Ok(model), hash);
      if GlobalMigration.LockVacant(o, stopped.files) {
        SafeStartsSettled(model, stopped.files, o, run, target);
        MigrationIsConsistent(stopped.files, o, run, model, hash);
        if FreshNames(w, o) {
          SeriesRestores(w, o, model, model, attempts, last);
        }
      } else {
        OnlyMigration(stopped.files, o, run, model, hash);
        NothingBegins(w, o, run, attempts);
      }
    }
  }

  lemma OnlyMigration(files: Files, o: Origin, run: string, m: Model, hash: Hash)
    requires !Verified(m, files, StartSlots(m, o, [run]))
    ensures var w := AfterMigration(files, run, Ok(m), hash); w.store.Keys == {run} && Admit(w, o, run).Err?
  {
    hide Verified, StartSlots;
  }

  // ---- The first attempt may be the last ----

  /** Under unchanged surroundings: the first recovery is recorded unknown before its first rename, as when the
      process check after the intent fails. Nothing moved, and nothing can be recovered any more. */
  lemma PoisonedFirstStrands(files: Files, o: Origin, run: string, m: Model, hash: Hash, surroundings: string)
    requires Settled(m, files, o, {run}) && Outstanding(m) > 0 && !IsRecovery(run) && Injective(hash)
    requires FreshNames(AfterMigration(files, run, Ok(m), hash), o)
    ensures var w := AfterMigration(files, run, Ok(m), hash);
      var a := Attempted(run, surroundings, [Uncertain(BeforeRename, 0)]);
      && Recoverable(w, o, {surroundings}) && Begins(w, o, a)
      && RunOf(w, o, a).status == Poisoned && RunOf(w, o, a).files == files
      && !Recoverable(After(w, o, a), o, {surroundings})
  {
    hide Settled, FreshNames, Admit, After, RunOf, Consistent, Spent, NamesBound, Injective, Outstanding, FreshTarget;
    var w := AfterMigration(files, run, Ok(m), hash);
    var a := Attempted(run, surroundings, [Uncertain(BeforeRename, 0)]);
    MigrationIsConsistent(files, o, run, m, hash);
    RecoveryNameIsNew(w, o, run, a);
    assert CanBegin(w, o, run, surroundings);
    TargetIsFresh(w, o, a);
    DoubtBeforeRename(w, o, m, m, a);
    UnchangedSurroundings(w, o, m, m, surroundings, run, [], a);
  }

  // A migration's name is none of a recovery.
  lemma RecoveryNameIsNew(w: World, o: Origin, run: string, a: Attempted)
    requires w.store.Keys == {run} && !IsRecovery(run) && Admit(w, o, a.source).Ok?
    ensures Begins(w, o, a)
  {
    hide Admit, Evidence;
    RunNameIsRecovery(Evidence(w, o, a.source, a.surroundings));
  }

  lemma DoubtBeforeRename(w: World, o: Origin, was: Model, now: Model, a: Attempted)
    requires Consistent(w, o, was, now) && Begins(w, o, a) && FreshTarget(w, o, Target(w, o, a))
    requires a.script == [Uncertain(BeforeRename, 0)] && Outstanding(Admit(w, o, a.source).value.model) > 0
    ensures RunOf(w, o, a).status == Poisoned && RunOf(w, o, a).files == w.files
  {
    hide Consistent, FreshTarget, Admit, Settled, Advanced, Safe, SlotsWatched, Readable, SameOriginals, Target, Evidence, StartSlots, Outstanding;
    var next := AttemptSettles(w, o, was, now, a);
    var start := StartOf(w, o, a);
    SameOutstanding(start.model, Admit(w, o, a.source).value.model);
    PoisonedStep(start, o, w.store.Keys + {Target(w, o, a)}, Target(w, o, a));
  }

  lemma PoisonedStep(run: Run, o: Origin, roots: set<string>, target: string)
    requires run.status == Running && Safe(run.model, run.files, o, roots, target) && SlotsWatched(o, roots, run.slots)
    requires Outstanding(run.model) > 0
    ensures var final := Drive(run, o, target, [Uncertain(BeforeRename, 0)]);
      final.status == Poisoned && final.files == run.files
  {
    hide Safe, SlotsWatched, WellFormed, NextAction, Verified, Apply, Dictated, Outstanding;
    var e := Uncertain(BeforeRename, 0);
    SafeIsWellFormed(run.model, run.files, o, roots, target);
    StepCases(run, o, target, e);
    LooksPass(run, o, roots, target, NextAction(run.model, o, target).action, 0);
    DriveEnded(Step(run, o, target, e), o, target, [e][1..]);
  }

  lemma SameOutstanding(m: Model, now: Model)
    requires SameState(m, now)
    ensures Outstanding(m) == Outstanding(now)
  {
  }

  // ---- Eight runs ----

  // The newest run is accepted with n runs in its chain, and nothing was moved.
  ghost predicate StoppedChain(w: World, o: Origin, files: Files, m: Model, newest: string, n: nat, hash: Hash) {
    && w.files == files && w.hash == hash && FreshNames(w, o) && NamesBound(w)
    && (exists now :: Consistent(w, o, m, now))
    && var r := Admit(w, o, newest);
    && r.Ok? && |r.value.roots| == n && SameState(r.value.model, m)
  }

  // A run that gets no event ends as it started.
  lemma StopRuns(w: World, o: Origin, a: Attempted)
    requires Admit(w, o, a.source).Ok? && a.script == []
    ensures RunOf(w, o, a).status == RecoveryExecution.Stopped && RunOf(w, o, a).files == w.files
    ensures RunOf(w, o, a).model == Admit(w, o, a.source).value.model.(source := Evidence(w, o, a.source, a.surroundings))
  {
    hide LoadChain, StartSlots, Verified, Target, Evidence;
  }

  // One more attempt that is stopped before its first move: nothing but the chain has changed.
  lemma OneMoreStop(w: World, o: Origin, files: Files, m: Model, newest: string, n: nat, hash: Hash, a: Attempted)
    requires StoppedChain(w, o, files, m, newest, n, hash) && n <= 7 && Begins(w, o, a) && a.source == newest && a.script == []
    ensures StoppedChain(After(w, o, a), o, files, m, Target(w, o, a), n + 1, hash)
  {
    hide Consistent, FreshNames, NamesBound, RunOf, Admit, After, FreshTarget, Target, Evidence;
    var now :| Consistent(w, o, m, now);
    TargetIsFresh(w, o, a);
    StopRuns(w, o, a);
    NewestIsAdmitted(w, o, m, now, a);
    var next := AttemptKeepsConsistent(w, o, m, now, a);
    NamesStayFresh(w, o, a);
    AttemptIsBound(w, o, a);
    SameHash(w, o, a);
    AfterFiles(w, o, a);
  }

  lemma AfterFiles(w: World, o: Origin, a: Attempted)
    requires Begins(w, o, a)
    ensures After(w, o, a).files == RunOf(w, o, a).files
  {
    hide Admit, RunOf, Target, Evidence;
  }

  // Seven attempts under one and the same surroundings, each of the run before and each stopped at once.
  lemma {:induction false} StopsChain(files: Files, o: Origin, run: string, m: Model, hash: Hash, surroundings: string, n: nat)
    returns (attempts: seq<Attempted>, newest: string)
    requires Settled(m, files, o, {run}) && !IsRecovery(run) && Injective(hash) && 1 <= n <= 8
    requires FreshNames(AfterMigration(files, run, Ok(m), hash), o)
    ensures |attempts| == n - 1 && forall k :: 0 <= k < n - 1 ==> attempts[k].surroundings == surroundings && attempts[k].script == []
    ensures var w := AfterAll(AfterMigration(files, run, Ok(m), hash), o, attempts);
      StoppedChain(w, o, files, m, newest, n, hash) && CanBegin(w, o, newest, surroundings)
    decreases n
  {
    hide Settled, FreshNames, NamesBound, Consistent, After, Admit, Injective, CanBegin, Spent;
    var w := AfterMigration(files, run, Ok(m), hash);
    if n == 1 {
      attempts, newest := [], run;
      MigrationIsConsistent(files, o, run, m, hash);
      RecoveryNameIsNew(w, o, run, Attempted(run, surroundings, []));
    } else {
      var earlier, last := StopsChain(files, o, run, m, hash, surroundings, n - 1);
      var before := AfterAll(w, o, earlier);
      var a := Attempted(last, surroundings, []);
      attempts, newest := earlier + [a], Target(before, o, a);
      assert attempts[..n - 2] == earlier;
      OneMoreStop(before, o, files, m, last, n - 1, hash, a);
      StoppedCanBegin(before, o, files, m, last, n - 1, hash, a);
    }
  }

  lemma StoppedCanBegin(w: World, o: Origin, files: Files, m: Model, newest: string, n: nat, hash: Hash, a: Attempted)
    requires StoppedChain(w, o, files, m, newest, n, hash) && n <= 7 && Begins(w, o, a) && a.source == newest && a.script == [] && Injective(hash)
    ensures CanBegin(After(w, o, a), o, Target(w, o, a), a.surroundings)
  {
    hide Consistent, FreshNames, NamesBound, RunOf, Admit, After, FreshTarget, Target, Evidence, CanBegin, Injective;
    var now :| Consistent(w, o, m, now);
    TargetIsFresh(w, o, a);
    StopRuns(w, o, a);
    NewestCanBegin(w, o, m, now, a, a.surroundings);
  }

  // One confirmed move, and then the run is stopped.
  lemma OneMove(run: Run, o: Origin, roots: set<string>, target: string, changed: nat) returns (from: Place, to: Place)
    requires run.status == Running && Safe(run.model, run.files, o, roots, target) && SlotsWatched(o, roots, run.slots)
    requires Outstanding(run.model) > 0
    ensures var final := Drive(run, o, target, [Confirm(changed)]);
      && final.status == RecoveryExecution.Stopped && Outstanding(final.model) == Outstanding(run.model) - 1
      && CanMove(run.files, from, to) && final.files == Move(run.files, from, to, changed)
  {
    hide Safe, SlotsWatched, WellFormed, NextAction, Verified, Apply, Dictated, Outstanding;
    var e := Confirm(changed);
    SafeIsWellFormed(run.model, run.files, o, roots, target);
    StepCases(run, o, target, e);
    StepKeepsSafe(run, o, roots, target, e);
    var a := NextAction(run.model, o, target).action;
    LooksPass(run, o, roots, target, a, changed);
    MoveLowersOutstanding(run.model, o, target, a, changed);
    from, to := At(run.model, a.slot).value.place, a.destination;
    var next := Step(run, o, target, e);
    assert Drive(run, o, target, [e]) == Drive(next, o, target, [e][1..]);
    assert [e][1..] == [];
  }

  // An attempt on a chain of eight runs that makes one move and stops.
  lemma NinthRun(w: World, o: Origin, files: Files, m: Model, newest: string, hash: Hash, surroundings: string) returns (from: Place, to: Place)
    requires StoppedChain(w, o, files, m, newest, 8, hash) && CanBegin(w, o, newest, surroundings) && Outstanding(m) > 0
    ensures var a := Attempted(newest, surroundings, [Confirm(0)]);
      && Begins(w, o, a) && Outstanding(RunOf(w, o, a).model) == Outstanding(m) - 1
      && CanMove(files, from, to) && After(w, o, a).files == Move(files, from, to, 0)
      && forall source :: Admit(After(w, o, a), o, source).Err?
  {
    hide Consistent, FreshNames, NamesBound, Admit, After, FreshTarget, Target, Evidence, Settled, Advanced, Safe, SlotsWatched, Drive, Readable, Outstanding, StartSlots;
    var a := Attempted(newest, surroundings, [Confirm(0)]);
    var now :| Consistent(w, o, m, now);
    TargetIsFresh(w, o, a);
    var start := StartOf(w, o, a);
    SameOutstanding(Admit(w, o, newest).value.model, m);
    SameOutstanding(start.model, Admit(w, o, newest).value.model);
    var next := AttemptSettles(w, o, m, now, a);
    from, to := OneMove(start, o, w.store.Keys + {Target(w, o, a)}, Target(w, o, a), 0);
    assert from !in Move(files, from, to, 0);
    AfterFiles(w, o, a);
    NoneAdmitted(w, o, m, now, a, next);
  }

  lemma NoneAdmitted(w: World, o: Origin, was: Model, now: Model, a: Attempted, next: Model)
    requires Consistent(w, o, was, now) && Begins(w, o, a) && FreshTarget(w, o, Target(w, o, a))
    requires Advanced(StartOf(w, o, a), next, RunOf(w, o, a).files, o, w.store.Keys)
    requires RunOf(w, o, a).files != w.files && |Admit(w, o, a.source).value.roots| == 8
    ensures forall source :: Admit(After(w, o, a), o, source).Err?
  {
    hide Consistent, Admit, FreshTarget, Target, Evidence, RunOf, Advanced, StartOf;
    NewestIsAdmitted(w, o, was, now, a);
    forall source | Admit(After(w, o, a), o, source).Ok?
      ensures source == Target(w, o, a)
    {
      SourceIsStored(After(w, o, a), o, source);
      if source != Target(w, o, a) {
        OlderIsRefused(w, o, was, now, a, next, source);
      }
    }
  }

  /** Seven recoveries of one migration, each of the run before and each stopped before its first move, and an
      eighth that makes one move: all eight begin, and then no stored run is accepted any more, whatever the
      surroundings, although objects are outstanding. */
  lemma EighthPartialRecoveryStrands(files: Files, o: Origin, run: string, m: Model, hash: Hash, surroundings: string)
    returns (attempts: seq<Attempted>, newest: string, from: Place, to: Place)
    requires Settled(m, files, o, {run}) && !IsRecovery(run) && Injective(hash) && Outstanding(m) >= 2
    requires FreshNames(AfterMigration(files, run, Ok(m), hash), o)
    ensures |attempts| == 7 && forall k :: 0 <= k < 7 ==> attempts[k].surroundings == surroundings && attempts[k].script == []
    ensures var before := AfterAll(AfterMigration(files, run, Ok(m), hash), o, attempts);
      var last := Attempted(newest, surroundings, [Confirm(0)]);
      var end := After(before, o, last);
      && Begins(before, o, last) && |Admit(before, o, newest).value.roots| == 8
      && Outstanding(RunOf(before, o, last).model) >= 1
      && CanMove(files, from, to) && end.files == Move(files, from, to, 0)
      && forall source :: Admit(end, o, source).Err?
  {
    hide Settled, FreshNames, Admit, Outstanding, Drive, After, AfterAll, RunOf, CanBegin, Injective, NamesBound, Consistent;
    attempts, newest := StopsChain(files, o, run, m, hash, surroundings, 8);
    from, to := NinthRun(AfterAll(AfterMigration(files, run, Ok(m), hash), o, attempts), o, files, m, newest, hash, surroundings);
  }

  // ---- The bound is reached from the untouched system ----

  // One original is moved aside.
  lemma OneRetain(g: GlobalMigration.Migration, o: Origin, run: string, runId: string, target: string, source: string, seeds: seq<Tree>, i: nat)
    requires MigrationSafety.ValidOrigin(o, run, target) && MigrationOutcome.DistinctBackups(o)
    requires MigrationRecovery.Steady(g, o, run, target, source, seeds) && MigrationRecovery.Begun(g) && g.status == GlobalMigration.Advancing
    requires i < |g.saved| && GlobalMigration.IsUntouched(g.saved[i])
    requires forall k :: 0 <= k < i ==> !GlobalMigration.IsUntouched(g.saved[k])
    ensures i < |o.objects|
    ensures var next := GlobalMigration.Step(g, o, run, runId, GlobalMigration.Moved(0));
      var to := Place(run, o.objects[i].backupName);
      && MigrationRecovery.Steady(next, o, run, target, source, seeds) && MigrationRecovery.Begun(next)
      && next.status == GlobalMigration.Advancing && next.journal != []
      && |next.saved| == |g.saved| && next.saved[i].state == Preserved
      && (forall k :: 0 <= k < |g.saved| && k != i ==> next.saved[k] == g.saved[k])
      && CanMove(g.files, o.objects[i].live, to) && next.files == Move(g.files, o.objects[i].live, to, 0)
  {
    hide MigrationSafety.Sound, MigrationRecovery.Logged, GlobalMigration.StatusOf;
    FirstIndexIs(g.saved, GlobalMigration.IsUntouched, i);
    MigrationOutcome.RetainIsPossible(g, o, run, target, source, seeds, i);
    MigrationRecovery.StepSteady(g, o, run, runId, target, source, seeds, GlobalMigration.Moved(0));
  }

  lemma CountTwo<T>(s: seq<T>, p: T -> bool)
    requires |s| >= 2 && p(s[0]) && p(s[1])
    ensures Count(s, p) >= 2
  {
    assert s[1..][0] == s[1];
  }

  // The first two originals are moved aside, and the migration stops.
  lemma TwoRetained(o: Origin, files: Files, run: string, runId: string, target: string, source: string, seeds: seq<Tree>)
    requires MigrationSafety.ValidOrigin(o, run, target) && MigrationRecovery.Untouched(o, files, {run, target}, seeds)
    requires |seeds| >= 2 && MigrationOutcome.DistinctBackups(o)
    ensures |o.objects| == |seeds|
    ensures var script := [GlobalMigration.Moved(0), GlobalMigration.Moved(0)];
      var stopped := GlobalMigration.Drive(MigrationRecovery.StartMigration(o, files, seeds), o, run, runId, script);
      var model := MigrationRecovery.LoadModel(stopped, o, run, source, seeds);
      && stopped.status == GlobalMigration.Halted
      && model.Ok? && Settled(model.value, stopped.files, o, {run}) && Outstanding(model.value) >= 2
      && o.objects[0].live !in stopped.files && o.objects[1].live !in stopped.files
      && forall p :: p in stopped.files ==> p in files || p.directory == run
  {
    hide MigrationRecovery.Steady, MigrationSafety.Sound, GlobalMigration.Step, Settled, Outstanding, GlobalMigration.Fold, MigrationRecovery.LoadModel;
    var e := GlobalMigration.Moved(0);
    var g0 := MigrationRecovery.StartMigration(o, files, seeds);
    MigrationRecovery.StartIsSteady(o, files, run, target, source, seeds);
    OneRetain(g0, o, run, runId, target, source, seeds, 0);
    var g1 := GlobalMigration.Step(g0, o, run, runId, e);
    OneRetain(g1, o, run, runId, target, source, seeds, 1);
    var g2 := GlobalMigration.Step(g1, o, run, runId, e);
    assert GlobalMigration.Drive(g0, o, run, runId, [e, e]) == g2.(status := GlobalMigration.Halted) by {
      assert [e, e][1..] == [e] && [e][1..] == [];
      assert GlobalMigration.Drive(g1, o, run, runId, [e]) == GlobalMigration.Drive(g2, o, run, runId, []);
    }
    HaltedModel(g2, o, run, target, source, seeds);
  }

  lemma HaltedModel(g: GlobalMigration.Migration, o: Origin, run: string, target: string, source: string, seeds: seq<Tree>)
    requires MigrationSafety.ValidOrigin(o, run, target) && MigrationRecovery.Steady(g, o, run, target, source, seeds) && g.journal != []
    requires |g.saved| >= 2 && g.saved[0].state == Preserved && g.saved[1].state == Preserved
    ensures var stopped := g.(status := GlobalMigration.Halted);
      var model := MigrationRecovery.LoadModel(stopped, o, run, source, seeds);
      model.Ok? && Settled(model.value, stopped.files, o, {run}) && Outstanding(model.value) >= 2
  {
    hide MigrationSafety.Sound, Settled, GlobalMigration.Fold, MigrationRecovery.Logged, GlobalMigration.ModelFromMigration, MigrationRecovery.Latest, GlobalMigration.StatusOf;
    var stopped := g.(status := GlobalMigration.Halted);
    MigrationRecovery.HaltedSteady(g, o, run, target, source, seeds);
    MigrationRecovery.SteadyIsRecoverable(stopped, o, run, target, source, seeds);
    MigrationRecovery.SoundShape(stopped, o, run, target, source, seeds);
    MigrationRecovery.LatestModel(stopped, o, run, source, seeds);
    var m := MigrationSafety.ModelOf(stopped, o, run, source);
    MigrationSafety.SoundIsSafe(stopped, o, run, target, source, seeds);
    SafeStartsSettled(m, stopped.files, o, run, target);
    CountTwo(m.objects, IsPreserved);
  }

  // The directories of recoveries are apart from the plan's, and there are none yet.
  ghost predicate RoomForRecoveries(o: Origin, files: Files, run: string) {
    && !IsRecovery(run)
    && forall name :: IsRecovery(name) ==> PrivateName(o, name) && Unused(o, files, name)
  }

  lemma RoomIsFresh(o: Origin, files: Files, after: Files, run: string, m: Model, hash: Hash)
    requires RoomForRecoveries(o, files, run) && forall p :: p in after ==> p in files || p.directory == run
    ensures FreshNames(AfterMigration(after, run, Ok(m), hash), o)
  {
    hide PrivateName, IsRunName;
    var w := AfterMigration(after, run, Ok(m), hash);
    forall name | IsRecovery(name)
      ensures FreshTarget(w, o, name)
    {
      assert PrivateName(o, name) && Unused(o, files, name);
    }
  }

  // The stop both failures start from: the first two originals are moved aside.
  function StoppedEarly(o: Origin, files: Files, run: string, runId: string, seeds: seq<Tree>): GlobalMigration.Migration
    requires |seeds| == |o.objects|
  {
    GlobalMigration.Drive(MigrationRecovery.StartMigration(o, files, seeds), o, run, runId, [GlobalMigration.Moved(0), GlobalMigration.Moved(0)])
  }

  // A system with two or more originals, before its migration.
  ghost predicate TwoOriginals(o: Origin, files: Files, run: string, target: string, seeds: seq<Tree>) {
    && MigrationSafety.ValidOrigin(o, run, target) && MigrationRecovery.Untouched(o, files, {run, target}, seeds)
    && RoomForRecoveries(o, files, run) && |seeds| >= 2 && MigrationOutcome.DistinctBackups(o)
  }

  /** For every system with two or more originals: move two aside, stop, and recover eight times, the first
      seven stopped before their first move and the eighth after it. Every attempt begins; then no stored run
      is accepted any more, and an original is not at its live name. */
  lemma BoundIsReached(o: Origin, files: Files, run: string, runId: string, target: string, source: string, seeds: seq<Tree>, hash: Hash, surroundings: string)
    returns (attempts: seq<Attempted>, newest: string)
    requires TwoOriginals(o, files, run, target, seeds) && Injective(hash)
    ensures |attempts| == 7 && forall k :: 0 <= k < 7 ==> attempts[k].surroundings == surroundings && attempts[k].script == []
    ensures var stopped := StoppedEarly(o, files, run, runId, seeds);
      var model := MigrationRecovery.LoadModel(stopped, o, run, source, seeds);
      var before := AfterAll(AfterMigration(stopped.files, run, model, hash), o, attempts);
      var last := Attempted(newest, surroundings, [Confirm(0)]);
      var end := After(before, o, last);
      && model.Ok? && Begins(before, o, last) && |Admit(before, o, newest).value.roots| == 8
      && (forall attempt :: Admit(end, o, attempt).Err?)
      && exists i :: 0 <= i < |o.objects| && o.objects[i].live !in end.files
  {
    hide GlobalMigration.Drive, MigrationRecovery.LoadModel, Settled, Admit, After, AfterAll, RunOf, Begins, Outstanding, RoomForRecoveries, Injective;
    TwoRetained(o, files, run, runId, target, source, seeds);
    var stopped := StoppedEarly(o, files, run, runId, seeds);
    var model := MigrationRecovery.LoadModel(stopped, o, run, source, seeds);
    RoomIsFresh(o, files, stopped.files, run, model.value, hash);
    RoomNames(o, files, run);
    var from: Place, to: Place;
    attempts, newest, from, to := EighthPartialRecoveryStrands(stopped.files, o, run, model.value, hash, surroundings);
    assert o.objects[0].live != o.objects[1].live;
    assert o.objects[if to == o.objects[0].live then 1 else 0].live !in Move(stopped.files, from, to, 0);
  }

  lemma RoomNames(o: Origin, files: Files, run: string)
    requires RoomForRecoveries(o, files, run)
    ensures !IsRecovery(run)
  {
  }

  /** For every such system and unchanged surroundings: move two originals aside, stop, and let the check after
      the first recovery's first intent fail. Nothing moved, nothing can be recovered any more, and two
      originals are not at their live names. */
  lemma PoisonedIsReached(o: Origin, files: Files, run: string, runId: string, target: string, source: string, seeds: seq<Tree>, hash: Hash, surroundings: string)
    requires TwoOriginals(o, files, run, target, seeds) && Injective(hash)
    ensures var stopped := StoppedEarly(o, files, run, runId, seeds);
      var model := MigrationRecovery.LoadModel(stopped, o, run, source, seeds);
      var w := AfterMigration(stopped.files, run, model, hash);
      var a := Attempted(run, surroundings, [Uncertain(BeforeRename, 0)]);
      && model.Ok? && Recoverable(w, o, {surroundings}) && Begins(w, o, a)
      && !Recoverable(After(w, o, a), o, {surroundings})
      && After(w, o, a).files == stopped.files && |o.objects| >= 2
      && o.objects[0].live !in stopped.files && o.objects[1].live !in stopped.files
  {
    hide GlobalMigration.Drive, MigrationRecovery.LoadModel, Settled, Admit, After, RunOf, Begins, Outstanding, RoomForRecoveries, Injective, Recoverable;
    TwoRetained(o, files, run, runId, target, source, seeds);
    var stopped := StoppedEarly(o, files, run, runId, seeds);
    var model := MigrationRecovery.LoadModel(stopped, o, run, source, seeds);
    RoomIsFresh(o, files, stopped.files, run, model.value, hash);
    RoomNames(o, files, run);
    PoisonedFirstStrands(stopped.files, o, run, model.value, hash, surroundings);
    AfterFiles(AfterMigration(stopped.files, run, model, hash), o, Attempted(run, surroundings, [Uncertain(BeforeRename, 0)]));
  }

  // ---- A plan of the package, npm's lock file and one leaf with its wrapper ----

  const SMALL_PLAN := Origin([Spec("package", Package, Place("modules", "caveat-cli"), "original-package"),
                              Spec("management", Management, Place("modules", ".package-lock.json"), "original-management"),
                              Spec("caveat", Leaf, Place("bin", "caveat"), "original-caveat")],
                             ["caveat"], ["reviewed wrapper"], "managed", "bin", None)
  const SMALL_SEEDS := [Tree(1, 0, map["package.json" := "manifest"]), Tree(2, 0, map["" := "lock"]), Tree(3, 0, map["" := "launcher"])]
  const SMALL_FILES := map[SMALL_PLAN.objects[0].live := SMALL_SEEDS[0], SMALL_PLAN.objects[1].live := SMALL_SEEDS[1],
                           SMALL_PLAN.objects[2].live := SMALL_SEEDS[2]]
  const SMALL_RUN := "global-migration-0"

  // First letters tell the names of this plan apart.
  lemma SmallNames()
    ensures var o := SMALL_PLAN;
      && o.objects[0].step[0] == 'p' && o.objects[1].step[0] == 'm' && o.objects[2].step[0] == 'c'
      && o.objects[0].live.directory[0] == o.objects[1].live.directory[0] == 'm' && o.objects[2].live.directory[0] == 'b'
      && o.objects[0].live.name[0] == 'c' && o.objects[1].live.name[0] == '.'
      && o.objects[0].backupName[9] == 'p' && o.objects[1].backupName[9] == 'm' && o.objects[2].backupName[9] == 'c'
      && SMALL_RUN[0] == 'g' && RECOVERY[0] == 'g' && SMALL_RUN[7] == 'm' && RECOVERY[7] == 'r'
      && o.root[0] == 'm' && o.binDirectory[0] == 'b' && o.leaves[0][0] == 'c'
  {
  }

  lemma SmallPlanIsValid()
    ensures MigrationSafety.ValidOrigin(SMALL_PLAN, SMALL_RUN, RECOVERY)
  {
    SmallNames();
  }

  lemma SmallBackups()
    ensures MigrationOutcome.DistinctBackups(SMALL_PLAN)
  {
    SmallNames();
  }

  lemma SmallFiles(p: Place)
    requires p in SMALL_FILES
    ensures exists i :: 0 <= i < |SMALL_PLAN.objects| && p == SMALL_PLAN.objects[i].live
    ensures p.directory != "" && p.directory[0] != 'g'
  {
    SmallNames();
    assert p == SMALL_PLAN.objects[0].live || p == SMALL_PLAN.objects[1].live || p == SMALL_PLAN.objects[2].live;
  }

  lemma SmallSystemIsUntouched()
    ensures MigrationRecovery.Untouched(SMALL_PLAN, SMALL_FILES, {SMALL_RUN, RECOVERY}, SMALL_SEEDS)
  {
    hide Watched;
    SmallNames();
    forall p | p in SMALL_FILES && Watched(SMALL_PLAN, {SMALL_RUN, RECOVERY}, p)
      ensures exists i :: 0 <= i < |SMALL_PLAN.objects| && p == SMALL_PLAN.objects[i].live
    {
      SmallFiles(p);
    }
  }

  lemma SmallSystemHasRoom()
    ensures RoomForRecoveries(SMALL_PLAN, SMALL_FILES, SMALL_RUN)
  {
    hide IsRunName;
    SmallNames();
    forall name | IsRecovery(name)
      ensures PrivateName(SMALL_PLAN, name) && Unused(SMALL_PLAN, SMALL_FILES, name)
    {
      assert name[0] == 'g';
      forall p | p in SMALL_FILES ensures p.directory != name {
        SmallFiles(p);
      }
    }
  }

  /** Both failures on this plan: eight recoveries and a ninth run too many, or one recovery recorded unknown. */
  lemma SmallPlanIsStranded(hash: Hash, surroundings: string) returns (attempts: seq<Attempted>, newest: string)
    requires Injective(hash)
    ensures var stopped := StoppedEarly(SMALL_PLAN, SMALL_FILES, SMALL_RUN, "0", SMALL_SEEDS);
      var w := AfterMigration(stopped.files, SMALL_RUN, MigrationRecovery.LoadModel(stopped, SMALL_PLAN, SMALL_RUN, "", SMALL_SEEDS), hash);
      var first := Attempted(SMALL_RUN, surroundings, [Uncertain(BeforeRename, 0)]);
      var before := AfterAll(w, SMALL_PLAN, attempts);
      var last := Attempted(newest, surroundings, [Confirm(0)]);
      && Begins(w, SMALL_PLAN, first) && !Recoverable(After(w, SMALL_PLAN, first), SMALL_PLAN, {surroundings})
      && |attempts| == 7 && Begins(before, SMALL_PLAN, last)
      && (forall attempt :: Admit(After(before, SMALL_PLAN, last), SMALL_PLAN, attempt).Err?)
  {
    SmallPlanIsValid();
    SmallBackups();
    SmallSystemIsUntouched();
    SmallSystemHasRoom();
    hide GlobalMigration.Drive, MigrationRecovery.LoadModel, Admit, After, AfterAll, Begins, Recoverable, Injective, StoppedEarly,
      MigrationRecovery.Untouched, MigrationSafety.ValidOrigin, MigrationOutcome.DistinctBackups, RoomForRecoveries;
    PoisonedIsReached(SMALL_PLAN, SMALL_FILES, SMALL_RUN, "0", RECOVERY, "", SMALL_SEEDS, hash, surroundings);
    attempts, newest := BoundIsReached(SMALL_PLAN, SMALL_FILES, SMALL_RUN, "0", RECOVERY, "", SMALL_SEEDS, hash, surroundings);
  }

  // ---- A plan without npm's lock file ----

  const LOCKLESS_PLAN := Origin([Spec("package", Package, Place("modules", "caveat-cli"), "original-package")],
                                ["caveat"], ["reviewed wrapper"], "managed", "bin", Some(Place("modules", ".package-lock.json")))
  const LOCKLESS_SEEDS := [Tree(1, 0, map["package.json" := "manifest"])]
  const LOCKLESS_FILES := map[LOCKLESS_PLAN.objects[0].live := LOCKLESS_SEEDS[0]]

  // The package is moved aside and copied back; npm removes the copy and makes its lock file.
  const MAKES_LOCK := [GlobalMigration.Moved(0), GlobalMigration.Copied(2, 0),
                       GlobalMigration.Uninstalled([None], 1, true, Some(Tree(3, 0, map["" := "lock"])))]

  lemma LocklessIsValid()
    ensures MigrationSafety.ValidOrigin(LOCKLESS_PLAN, SMALL_RUN, RECOVERY)
    ensures MigrationRecovery.Untouched(LOCKLESS_PLAN, LOCKLESS_FILES, {SMALL_RUN, RECOVERY}, LOCKLESS_SEEDS)
  {
    var o := LOCKLESS_PLAN;
    assert o.objects[0].live.name[0] == 'c' && o.absentLock.value.name[0] == '.' && o.absentLock.value.directory[0] == 'm';
    assert SMALL_RUN[0] == 'g' && RECOVERY[0] == 'g' && SMALL_RUN[7] == 'm' && RECOVERY[7] == 'r';
    assert o.leaves[0][0] == 'c' && "shell"[0] == 's';
    assert GeneratedPlace(o, 0).directory[0] == 'b' && GeneratedPlace(o, 1).name[0] == 's';
    forall p | p in LOCKLESS_FILES ensures exists i :: 0 <= i < |o.objects| && p == o.objects[i].live {
      assert p == o.objects[0].live;
    }
  }

  const LOCKLESS_SAVED := Place(SMALL_RUN, "original-package")

  function LocklessStep(k: nat): GlobalMigration.Migration
    requires k <= 3
  {
    if k == 0 then MigrationRecovery.StartMigration(LOCKLESS_PLAN, LOCKLESS_FILES, LOCKLESS_SEEDS)
    else GlobalMigration.Step(LocklessStep(k - 1), LOCKLESS_PLAN, SMALL_RUN, "0", MAKES_LOCK[k - 1])
  }

  lemma LocklessRetained()
    ensures var g := LocklessStep(1);
      && g.status == GlobalMigration.Advancing && g.files.Keys == {LOCKLESS_SAVED}
      && g.saved == [GlobalMigration.Saved(LOCKLESS_PLAN.objects[0], Preserved, LOCKLESS_SEEDS[0], None)]
  {
    var g := LocklessStep(0);
    assert LOCKLESS_PLAN.objects[0].live.directory[0] == 'm' && LOCKLESS_SAVED.directory[0] == 'g';
    FirstIndexIs(g.saved, GlobalMigration.IsUntouched, 0);
    assert GlobalMigration.NextOperation(g) == GlobalMigration.Retain(0);
  }

  lemma LocklessCopied()
    ensures var g := LocklessStep(2);
      && g.status == GlobalMigration.Advancing && g.files.Keys == {LOCKLESS_SAVED, LOCKLESS_PLAN.objects[0].live}
      && |g.saved| == 1 && g.saved[0].spec == LOCKLESS_PLAN.objects[0] && g.saved[0].state == Preserved && GlobalMigration.HasKnownCopy(g.saved[0])
  {
    LocklessRetained();
    var g := LocklessStep(1);
    FirstIndexIs(g.saved, GlobalMigration.LacksCopy, 0);
    assert GlobalMigration.NextOperation(g) == GlobalMigration.MakeCopy(0);
    var staging := GlobalMigration.StagingName("0", g.saved[0].spec);
    assert staging[0] == 'w' && LOCKLESS_SAVED.name[0] == 'o';
    assert LOCKLESS_PLAN.objects[0].live.directory[0] == 'm' && LOCKLESS_SAVED.directory[0] == 'g';
  }

  lemma AccountedUninstall(g: GlobalMigration.Migration, o: Origin, e: GlobalMigration.Event)
    requires GlobalMigration.Accounted(g.saved, e) && g.status == GlobalMigration.Advancing
    ensures var after := GlobalMigration.UninstallStep(g, o, e);
      && after.files == GlobalMigration.AfterUninstall(g.files, g.saved, e.survivors) && after.journal != []
      && after.status in {GlobalMigration.Advancing, GlobalMigration.Halted}
  {
    hide GlobalMigration.AllObserved, GlobalMigration.AfterUninstall, GlobalMigration.Removed;
  }

  lemma LocklessGone()
    ensures var g, e := LocklessStep(2), MAKES_LOCK[2];
      && GlobalMigration.NextOperation(g) == GlobalMigration.Uninstall && GlobalMigration.Accounted(g.saved, e)
      && GlobalMigration.AfterUninstall(g.files, g.saved, e.survivors) == g.files - {LOCKLESS_PLAN.objects[0].live}
  {
    LocklessCopied();
    hide LocklessStep;
    var g, e := LocklessStep(2), MAKES_LOCK[2];
    assert GlobalMigration.Explained(g.saved[0], e.survivors[0]);
    assert g.saved[..0] == [] && e.survivors[..0] == [];
  }

  lemma LocklessLocked()
    ensures var g := LocklessStep(3);
      g.status == GlobalMigration.Halted && g.journal != [] && !GlobalMigration.LockVacant(LOCKLESS_PLAN, g.files)
  {
    var g, e := LocklessStep(2), MAKES_LOCK[2];
    LocklessCopied();
    LocklessGone();
    assert LocklessStep(3) == GlobalMigration.NpmStep(g, LOCKLESS_PLAN, e);
    hide LocklessStep, GlobalMigration.UninstallStep, GlobalMigration.Accounted, GlobalMigration.AfterUninstall;
    AccountedUninstall(g, LOCKLESS_PLAN, e);
    var live, lock := LOCKLESS_PLAN.objects[0].live, LOCKLESS_PLAN.absentLock.value;
    assert live.name[0] == 'c' && lock.name[0] == '.' && lock.directory[0] == 'm' && LOCKLESS_SAVED.directory[0] == 'g';
  }

  /** npm makes its lock file where there was none: the run stops with a readable journal, and its recovery is
      refused at its first look. */
  lemma LockStopsRecovery(hash: Hash)
    ensures var stopped := GlobalMigration.Drive(MigrationRecovery.StartMigration(LOCKLESS_PLAN, LOCKLESS_FILES, LOCKLESS_SEEDS), LOCKLESS_PLAN, SMALL_RUN, "0", MAKES_LOCK);
      var model := MigrationRecovery.LoadModel(stopped, LOCKLESS_PLAN, SMALL_RUN, "", LOCKLESS_SEEDS);
      && stopped.status == GlobalMigration.Halted && stopped.journal != [] && model.Ok?
      && Admit(AfterMigration(stopped.files, SMALL_RUN, model, hash), LOCKLESS_PLAN, SMALL_RUN).Err?
  {
    LocklessIsValid();
    LocklessDrive();
    LocklessLocked();
    hide LocklessStep, MigrationRecovery.Untouched, MigrationSafety.ValidOrigin, MigrationRecovery.LoadModel, Admit, GlobalMigration.LockVacant, FreshNames;
    MigrationThenSeriesRestores(LOCKLESS_PLAN, LOCKLESS_FILES, SMALL_RUN, "0", RECOVERY, "", LOCKLESS_SEEDS, MAKES_LOCK, hash, [], Attempted("", "", []));
  }

  lemma LocklessDrive()
    ensures GlobalMigration.Drive(MigrationRecovery.StartMigration(LOCKLESS_PLAN, LOCKLESS_FILES, LOCKLESS_SEEDS), LOCKLESS_PLAN, SMALL_RUN, "0", MAKES_LOCK)
      == LocklessStep(3)
  {
    var o := LOCKLESS_PLAN;
    LocklessRetained();
    LocklessCopied();
    LocklessLocked();
    assert LocklessStep(0).status == GlobalMigration.Advancing;
    hide GlobalMigration.Step;
    var script := MAKES_LOCK;
    assert GlobalMigration.Drive(LocklessStep(0), o, SMALL_RUN, "0", script) == GlobalMigration.Drive(LocklessStep(1), o, SMALL_RUN, "0", script[1..]);
    assert GlobalMigration.Drive(LocklessStep(1), o, SMALL_RUN, "0", script[1..]) == GlobalMigration.Drive(LocklessStep(2), o, SMALL_RUN, "0", script[1..][1..]);
    assert GlobalMigration.Drive(LocklessStep(2), o, SMALL_RUN, "0", script[1..][1..]) == GlobalMigration.Drive(LocklessStep(3), o, SMALL_RUN, "0", script[1..][1..][1..]);
  }
}
