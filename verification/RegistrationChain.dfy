// Chains of registration runs: what the newest history says about the disk, and what a recovery ends in.
module RegistrationChain {
  import opened Wrappers
  import opened Registration
  import opened RegistrationRuns

  datatype World = World(disk: seq<Content>, store: Store, newest: Option<RunName>)

  // One command: it performs some number of atomic steps and may die inside a journal line.
  datatype Attempt =
    | Migrate(name: RunName, steps: nat, torn: bool)
    | Recover(name: RunName, source: RunName, evidence: Evidence, steps: nat, torn: bool)

  function StartMigration(w: World, plan: Plan, name: RunName): Run {
    Run(name, false, plan, name, ALL_ORIGINAL, ALL_ORIGINAL, w.disk,
        w.store[name := Stored(plan, None, [], None, map[])], Backup(0))
  }

  function StartRecovery(w: World, plan: Plan, h: History, name: RunName, source: RunName): Run {
    Run(name, true, plan, h.origin, h.state, h.state, w.disk,
        w.store[name := Stored(plan, Some(Source(source, h.evidence, h.origin, h.state)), [], None, map[])], OpenJournal)
  }

  // Admission: a migration needs every file original; a recovery needs an accepted history, the evidence
  // the caller reviewed, and a disk that matches it.
  function Admit(w: World, plan: Plan, a: Attempt): Option<Run>
    requires ValidPlan(plan)
  {
    if a.name in w.store then None
    else match a
      case Migrate(name, _, _) =>
        if DiskMatches(w.disk, plan, ALL_ORIGINAL) then Some(StartMigration(w, plan, name)) else None
      case Recover(name, source, evidence, _, _) =>
        match LoadHistory(w.store, source, plan, {})
        case Err(_) => None
        case Ok(h) =>
          if h.evidence == evidence && DiskMatches(w.disk, plan, h.state) then Some(StartRecovery(w, plan, h, name, source)) else None
  }

  function Perform(w: World, plan: Plan, a: Attempt): World
    requires ValidPlan(plan)
  {
    match Admit(w, plan, a)
    case None => w
    case Some(run) =>
      var stopped := Stop(Drive(run, a.steps), a.torn);
      World(stopped.disk, stopped.store, Some(a.name))
  }

  function PerformAll(w: World, plan: Plan, attempts: seq<Attempt>): World
    requires ValidPlan(plan)
  {
    if attempts == [] then w
    else Perform(PerformAll(w, plan, attempts[..|attempts| - 1]), plan, attempts[|attempts| - 1])
  }

  // ---- The replayed state is the disk ----

  // An accepted history ends at a run that saved all seven originals.
  lemma {:induction false} OriginIsSaved(store: Store, run: RunName, plan: Plan, seen: set<RunName>)
    requires LoadHistory(store, run, plan, seen).Ok?
    ensures var h := LoadHistory(store, run, plan, seen).value;
      h.plan == plan && h.origin in store && store[h.origin].originals == plan.before
    decreases 8 - |seen|
  {
    if store[run].source.Some? {
      OriginIsSaved(store, store[run].source.value.run, plan, seen + {run});
    }
  }

  lemma AdmittedIsSound(w: World, plan: Plan, a: Attempt)
    requires ValidPlan(plan) && Admit(w, plan, a).Some?
    ensures var run := Admit(w, plan, a).value;
      && Sound(run) && run.name == a.name && run.plan == plan && run.restoring == a.Recover?
      && run.pc == (if a.Recover? then OpenJournal else Backup(0))
  {
    if a.Recover? {
      OriginIsSaved(w.store, a.source, plan, {});
    }
  }

  // Whatever step a run stops after: if its history is accepted, the replayed state is its own state.
  lemma StoppedHistory(run: Run, torn: bool)
    requires Sound(run)
    ensures var h := LoadHistory(Stop(run, torn).store, run.name, run.plan, {});
      h.Ok? ==> h.value.state == run.state && Stop(run, torn) == run && !run.pc.Backup? && !run.pc.OpenJournal?
    ensures Stop(run, torn).disk == run.disk && Stop(run, torn).state == run.state
  {
    hide FoldRows, DiskMatches;
    var store := Stop(run, torn).store;
    if LoadHistory(store, run.name, run.plan, {}).Ok? {
      var own := store[run.name];
      assert Readable(own.journal.value);
    }
  }

  ghost predicate StateIsDisk(w: World, plan: Plan)
    requires ValidPlan(plan)
  {
    w.newest.Some? && LoadHistory(w.store, w.newest.value, plan, {}).Ok? ==>
      var state := LoadHistory(w.store, w.newest.value, plan, {}).value.state;
      |w.disk| == FILES && forall i :: 0 <= i < FILES ==> w.disk[i] == if state[i] then plan.after[i] else plan.before[i]
  }

  lemma PerformKeepsStateIsDisk(w: World, plan: Plan, a: Attempt)
    requires ValidPlan(plan) && StateIsDisk(w, plan)
    ensures StateIsDisk(Perform(w, plan, a), plan)
  {
    if Admit(w, plan, a).Some? {
      var run := Admit(w, plan, a).value;
      AdmittedIsSound(w, plan, a);
      DriveKeepsSound(run, a.steps);
      var final := Drive(run, a.steps);
      StoppedHistory(final, a.torn);
      SoundIsTandem(final);
    }
  }

  lemma SoundIsTandem(run: Run)
    requires Sound(run)
    ensures DiskMatches(run.disk, run.plan, run.state)
    ensures forall k :: 0 <= k < Done(run.pc) && k < FILES ==> run.state[k] == !run.restoring
  {
  }

  /** Take any commands, each stopped after any atomic step, from any disk and any stored runs. If the
      history of the newest run is accepted, it says "replaced" for exactly the files that hold the
      edited bytes. */
  lemma {:induction false} NewestHistoryIsTheDisk(w: World, plan: Plan, attempts: seq<Attempt>)
    requires ValidPlan(plan) && w.newest.None?
    ensures var end := PerformAll(w, plan, attempts);
      end.newest.Some? && LoadHistory(end.store, end.newest.value, plan, {}).Ok? ==>
        var state := LoadHistory(end.store, end.newest.value, plan, {}).value.state;
        |end.disk| == FILES && forall i :: 0 <= i < FILES ==> (state[i] <==> end.disk[i] == plan.after[i])
  {
    hide Perform, LoadHistory;
    EveryWorldStateIsDisk(w, plan, attempts);
  }

  lemma {:induction false} EveryWorldStateIsDisk(w: World, plan: Plan, attempts: seq<Attempt>)
    requires ValidPlan(plan) && StateIsDisk(w, plan)
    ensures StateIsDisk(PerformAll(w, plan, attempts), plan)
  {
    hide StateIsDisk, Perform;
    if attempts != [] {
      EveryWorldStateIsDisk(w, plan, attempts[..|attempts| - 1]);
      PerformKeepsStateIsDisk(PerformAll(w, plan, attempts[..|attempts| - 1]), plan, attempts[|attempts| - 1]);
    }
  }

  // ---- Completion ----

  // Steps still to take, at most.
  function Fuel(pc: Pc): nat {
    match pc
    case Backup(i) => if i < FILES then 30 + FILES - i else 0
    case OpenJournal => 30
    case Announce(i) => if i < FILES then 4 * (FILES - i) + 1 else 0
    case Rewrite(i) => if i < FILES then 4 * (FILES - i) else 0
    case SaveState(i) => if i < FILES then 4 * (FILES - i) - 1 else 0
    case Confirm(i) => if i < FILES then 4 * (FILES - i) - 2 else 0
    case Checkpoint => 1
    case _ => 0
  }

  lemma StepBurnsFuel(run: Run)
    requires Sound(run) && !run.pc.Finished?
    ensures Fuel(Step(run).pc) < Fuel(run.pc)
  {
    StepNeverFails(run);
    match run.pc {
      case OpenJournal => NextIs(run.restoring, run.state, 0);
      case Confirm(i) => NextIs(run.restoring, run.state, i + 1);
      case _ =>
    }
  }

  lemma {:induction false} EnoughStepsFinish(run: Run, steps: nat)
    requires Sound(run) && ValidPlan(run.plan) && steps >= Fuel(run.pc)
    ensures Drive(run, steps).pc.Finished?
    decreases steps
  {
    hide Sound, Step;
    if !run.pc.Finished? {
      FuelLeft(run);
      StepBurnsFuel(run);
      SoundStep(run);
      EnoughStepsFinish(Step(run), steps - 1);
    }
  }

  lemma FuelLeft(run: Run)
    requires Sound(run) && !run.pc.Finished?
    ensures Fuel(run.pc) > 0
  {
  }

  /** A recovery started from any accepted history always runs to its end when it is not stopped, and then
      all seven files hold the originals that the first run of the chain saved. */
  lemma RecoveryRestoresOriginals(w: World, plan: Plan, a: Attempt)
    requires ValidPlan(plan) && a.Recover? && Admit(w, plan, a).Some?
    ensures var h := LoadHistory(w.store, a.source, plan, {}).value;
      var end := Drive(Admit(w, plan, a).value, a.steps);
      && (a.steps >= 30 ==> end.pc.Finished?)
      && (end.pc.Finished? ==>
            && h.origin in w.store && end.disk == w.store[h.origin].originals == plan.before
            && end.state == ALL_ORIGINAL)
  {
    var run := Admit(w, plan, a).value;
    AdmittedIsSound(w, plan, a);
    OriginIsSaved(w.store, a.source, plan, {});
    DriveKeepsSound(run, a.steps);
    if a.steps >= 30 {
      EnoughStepsFinish(run, a.steps);
    }
    var end := Drive(run, a.steps);
    SoundIsTandem(end);
    if end.pc.Finished? {
      assert end.disk == plan.before;
      assert end.state == ALL_ORIGINAL;
    }
  }

  /** A migration that is not stopped leaves all seven files edited. */
  lemma MigrationReplacesAll(w: World, plan: Plan, a: Attempt)
    requires ValidPlan(plan) && a.Migrate? && Admit(w, plan, a).Some?
    ensures var end := Drive(Admit(w, plan, a).value, a.steps);
      && (a.steps >= 37 ==> end.pc.Finished?)
      && (end.pc.Finished? ==> end.disk == plan.after)
  {
    var run := Admit(w, plan, a).value;
    AdmittedIsSound(w, plan, a);
    DriveKeepsSound(run, a.steps);
    if a.steps >= 37 {
      EnoughStepsFinish(run, a.steps);
    }
    var end := Drive(run, a.steps);
    SoundIsTandem(end);
    if end.pc.Finished? {
      assert end.disk == plan.after;
    }
  }

  // ---- Reading a completed recovery back ----

  // An accepted history is read the same way from a store that still holds its runs, unless the bound is hit.
  lemma {:induction false} HistoryReadAgain(store: Store, later: Store, run: RunName, plan: Plan, seen: set<RunName>, other: set<RunName>)
    requires LoadHistory(store, run, plan, seen).Ok?
    requires var runs := LoadHistory(store, run, plan, seen).value.runs;
      forall i :: 0 <= i < |runs| ==> runs[i] in store && runs[i] in later && later[runs[i]] == store[runs[i]] && runs[i] !in other
    ensures var h := LoadHistory(store, run, plan, seen);
      if |other| + |h.value.runs| <= 8 then LoadHistory(later, run, plan, other) == h
      else LoadHistory(later, run, plan, other).Err?
    decreases 8 - |seen|
  {
    AcceptedHistoryIsAcyclic(store, run, plan, seen);
    var h := LoadHistory(store, run, plan, seen).value;
    assert h.runs[|h.runs| - 1] == run;
    assert run in later && run !in other;
    if store[run].source.Some? {
      var parent := store[run].source.value.run;
      var below := LoadHistory(store, parent, plan, seen + {run}).value;
      assert h.runs == below.runs + [run];
      forall i | 0 <= i < |below.runs|
        ensures below.runs[i] in store && below.runs[i] in later && later[below.runs[i]] == store[below.runs[i]] && below.runs[i] !in other + {run}
      {
        assert h.runs[i] == below.runs[i];
      }
      HistoryReadAgain(store, later, parent, plan, seen + {run}, other + {run});
    }
  }

  /** The read-back after a completed recovery succeeds exactly when the source history has at most seven
      runs. From a history of eight, the files are restored but their history can no longer be read. */
  lemma CompletedRecoveryReadsBack(w: World, plan: Plan, a: Attempt)
    requires ValidPlan(plan) && a.Recover? && Admit(w, plan, a).Some?
    requires Drive(Admit(w, plan, a).value, a.steps).pc.Finished?
    ensures var source := LoadHistory(w.store, a.source, plan, {}).value;
      var again := LoadHistory(Drive(Admit(w, plan, a).value, a.steps).store, a.name, plan, {});
      && (again.Ok? <==> |source.runs| <= 7)
      && (again.Ok? ==>
            && again.value.state == ALL_ORIGINAL && again.value.origin == source.origin
            && again.value.runs == source.runs + [a.name])
  {
    var run := Admit(w, plan, a).value;
    var end := Drive(run, a.steps);
    var source := LoadHistory(w.store, a.source, plan, {}).value;
    AdmittedIsSound(w, plan, a);
    DriveKeepsSound(run, a.steps);
    RecoveryRestoresOriginals(w, plan, a);
    AcceptedHistoryIsAcyclic(w.store, a.source, plan, {});
    forall i | 0 <= i < |source.runs|
      ensures source.runs[i] in w.store && source.runs[i] in end.store && end.store[source.runs[i]] == w.store[source.runs[i]] && source.runs[i] !in {a.name}
    {
      assert source.runs[i] in w.store;
    }
    HistoryReadAgain(w.store, end.store, a.source, plan, {}, {a.name});
    assert {} + {a.name} == {a.name};
    FinishedFolds(end);
  }

  lemma FinishedFolds(run: Run)
    requires Sound(run) && run.pc.Finished?
    ensures Own(run).journal.Some? && Readable(Own(run).journal.value) && Own(run).plan == run.plan
    ensures FoldRows(run.start, Own(run).journal.value.rows, Own(run).states) == Ok(run.state)
    ensures Own(run).source.Some? ==> run.start == Own(run).source.value.start
  {
  }

  // ---- A completed migration reads back ----

  // A migration has saved its originals by the time it opens its journal.
  ghost predicate SavedSoFar(run: Run) {
    && run.name in run.store && ValidPlan(run.plan)
    && (!run.restoring ==>
          match run.pc
          case Backup(i) => i <= FILES && Own(run).originals == run.plan.before[..i]
          case _ => Own(run).originals == run.plan.before)
  }

  lemma StepKeepsSaved(run: Run)
    requires SavedSoFar(run) && !run.pc.Failed? && !run.pc.Finished?
    ensures Step(run).pc.Failed? || SavedSoFar(Step(run))
  {
    hide DiskMatches, FoldRows, Replacement, StepName, Checked;
    match run.pc {
      case Backup(i) =>
        if i < FILES {
          assert run.plan.before[..i + 1] == run.plan.before[..i] + [run.plan.before[i]];
          assert i + 1 == FILES ==> run.plan.before[..i + 1] == run.plan.before;
        }
      case OpenJournal => NextIs(run.restoring, run.state, 0);
      case Confirm(i) =>
        if i < FILES {
          NextIs(run.restoring, run.state, i + 1);
        }
      case _ =>
    }
  }

  lemma {:induction false} DriveKeepsSaved(run: Run, steps: nat)
    requires Sound(run) && SavedSoFar(run)
    ensures ValidPlan(run.plan) && SavedSoFar(Drive(run, steps))
    decreases steps
  {
    SoundIsValid(run);
    hide Sound, Step, SavedSoFar;
    if steps > 0 && !run.pc.Finished? && !run.pc.Failed? {
      SoundStep(run);
      SoundRuns(Step(run));
      StepKeepsSaved(run);
      DriveKeepsSaved(Step(run), steps - 1);
    }
  }

  lemma SoundRuns(run: Run)
    requires Sound(run)
    ensures !run.pc.Failed?
  {
  }

  // The history of a completed migration is accepted, is its own origin, and says every file is replaced.
  lemma CompletedMigrationReadsBack(w: World, plan: Plan, a: Attempt)
    requires ValidPlan(plan) && a.Migrate? && Admit(w, plan, a).Some?
    requires Drive(Admit(w, plan, a).value, a.steps).pc.Finished?
    ensures var end := Drive(Admit(w, plan, a).value, a.steps);
      var h := LoadHistory(end.store, a.name, plan, {});
      && h.Ok? && h.value.runs == [a.name] && h.value.origin == a.name
      && h.value.state == end.state && DiskMatches(end.disk, plan, end.state)
  {
    var run := Admit(w, plan, a).value;
    AdmittedIsSound(w, plan, a);
    assert run.plan.before[..0] == [];
    DriveKeepsSaved(run, a.steps);
    DriveKeepsSound(run, a.steps);
    var end := Drive(run, a.steps);
    SoundIsTandem(end);
    FinishedFolds(end);
    OwnHistory(end);
  }

  lemma OwnHistory(end: Run)
    requires Sound(end) && SavedSoFar(end) && end.pc.Finished? && !end.restoring && Own(end).source.None?
    requires Own(end).journal.Some? && Readable(Own(end).journal.value) && Own(end).plan == end.plan
    requires FoldRows(end.start, Own(end).journal.value.rows, Own(end).states) == Ok(end.state)
    ensures LoadHistory(end.store, end.name, end.plan, {})
      == Ok(History(end.plan, end.name, end.state, Evidence(None, Own(end), end.state), [end.name]))
  {
    assert end.start == ALL_ORIGINAL by {
      hide FoldRows, Readable;
    }
    hide Sound, FoldRows, Readable;
  }

  // ---- The bound is reached ----

  function Name(i: nat): (name: RunName)
    ensures |name| == i + 1
  {
    seq(i + 1, _ => 'r')
  }

  // The newest run is read back as a history of n runs that describes the disk.
  ghost predicate HasHistory(w: World, plan: Plan, n: nat) {
    && n > 0 && w.newest == Some(Name(n - 1))
    && (forall name :: name in w.store ==> |name| <= n)
    && var h := LoadHistory(w.store, Name(n - 1), plan, {});
    && h.Ok? && |h.value.runs| == n && DiskMatches(w.disk, plan, h.value.state)
  }

  function NextRecovery(w: World, plan: Plan, n: nat): Attempt
    requires n > 0 && LoadHistory(w.store, Name(n - 1), plan, {}).Ok?
  {
    Recover(Name(n), Name(n - 1), LoadHistory(w.store, Name(n - 1), plan, {}).value.evidence, 30, false)
  }

  // One more complete recovery: the files are original, and the history is read back up to eight runs.
  lemma OneMoreRecovery(w: World, plan: Plan, n: nat)
    requires ValidPlan(plan) && HasHistory(w, plan, n)
    ensures var a := NextRecovery(w, plan, n);
      && Admit(w, plan, a).Some? && Drive(Admit(w, plan, a).value, a.steps).pc.Finished?
      && var after := Perform(w, plan, a);
      && after.disk == plan.before && after.newest == Some(a.name)
      && (n <= 7 ==> HasHistory(after, plan, n + 1))
      && (n > 7 ==> LoadHistory(after.store, a.name, plan, {}).Err?)
  {
    var a := NextRecovery(w, plan, n);
    assert a.name !in w.store;
    RecoveryRestoresOriginals(w, plan, a);
    CompletedRecoveryReadsBack(w, plan, a);
    var run := Admit(w, plan, a).value;
    AdmittedIsSound(w, plan, a);
    DriveKeepsSound(run, a.steps);
    hide LoadHistory, Drive;
    assert Perform(w, plan, a).store.Keys == w.store.Keys + {a.name};
  }

  lemma {:induction false} GrowHistory(plan: Plan, n: nat) returns (attempts: seq<Attempt>)
    requires ValidPlan(plan) && 1 <= n <= 8
    ensures |attempts| == n && HasHistory(PerformAll(World(plan.before, map[], None), plan, attempts), plan, n)
    ensures forall i :: 0 <= i < n ==> (attempts[i].Migrate? <==> i == 0)
  {
    hide HasHistory, Perform;
    var start := World(plan.before, map[], None);
    if n == 1 {
      var a := Migrate(Name(0), 37, false);
      attempts := [a];
      FirstMigration(start, plan, a);
      assert attempts[..0] == [];
    } else {
      var before := GrowHistory(plan, n - 1);
      var w := PerformAll(start, plan, before);
      Loaded(w, plan, n - 1);
      OneMoreRecovery(w, plan, n - 1);
      attempts := before + [NextRecovery(w, plan, n - 1)];
      assert attempts[..n - 1] == before;
    }
  }

  lemma Loaded(w: World, plan: Plan, n: nat)
    requires HasHistory(w, plan, n)
    ensures n > 0 && LoadHistory(w.store, Name(n - 1), plan, {}).Ok?
  {
  }

  lemma FirstMigration(w: World, plan: Plan, a: Attempt)
    requires ValidPlan(plan) && w == World(plan.before, map[], None) && a == Migrate(Name(0), 37, false)
    ensures HasHistory(Perform(w, plan, a), plan, 1)
  {
    assert Admit(w, plan, a).Some?;
    MigrationReplacesAll(w, plan, a);
    CompletedMigrationReadsBack(w, plan, a);
    AdmittedIsSound(w, plan, a);
    DriveKeepsSound(Admit(w, plan, a).value, a.steps);
    hide LoadHistory, Drive;
  }

  /** For every plan: from the original files, one completed migration and seven completed recoveries, each
      from the run before it, are all read back. The eighth recovery is admitted and restores the files, and
      then its own history is refused. */
  lemma EighthRecoveryIsNotReadBack(plan: Plan) returns (attempts: seq<Attempt>, last: Attempt)
    requires ValidPlan(plan)
    ensures |attempts| == 8 && attempts[0].Migrate? && last.Recover?
    ensures forall i :: 1 <= i < 8 ==> attempts[i].Recover?
    ensures var w := PerformAll(World(plan.before, map[], None), plan, attempts);
      && w.newest.Some? && LoadHistory(w.store, w.newest.value, plan, {}).Ok?
      && |LoadHistory(w.store, w.newest.value, plan, {}).value.runs| == 8
      && Admit(w, plan, last).Some? && Drive(Admit(w, plan, last).value, last.steps).pc.Finished?
      && var after := Perform(w, plan, last);
      && after.disk == plan.before
      && LoadHistory(after.store, last.name, plan, {}).Err?
  {
    attempts := GrowHistory(plan, 8);
    var w := PerformAll(World(plan.before, map[], None), plan, attempts);
    last := NextRecovery(w, plan, 8);
    hide LoadHistory, Drive, PerformAll, Perform, Admit;
    OneMoreRecovery(w, plan, 8);
  }
}
