// What a forward migration that ends as done has achieved, said of the disk; and that it can end so.
module MigrationOutcome {
  import opened Wrappers
  import opened GuardedFiles
  import opened RecoveryModel
  import opened RecoverySafety
  import opened GlobalMigration
  import opened MigrationSafety
  import opened MigrationRecovery

  /** The migrated system: every generated file is published, the wrappers with their reviewed text; every
      original is under its backup name in the directory of the run; of the working copies only npm's own file
      may be left, another object than its original with nothing in it that the original does not hold; and npm's
      lock file is absent where it was. */
  ghost predicate IsMigrated(o: Origin, run: string, seeds: seq<Tree>, files: Files)
    requires |seeds| == |o.objects|
  {
    && (forall j :: 0 <= j <= |o.leaves| ==> GeneratedPlace(o, j) in files)
    && (forall j :: 0 <= j < |o.leaves| ==> files[GeneratedPlace(o, j)].contents == WrapperContents(o, j))
    && (forall i :: 0 <= i < |o.objects| ==>
          && Place(run, o.objects[i].backupName) in files
          && SameObject(files[Place(run, o.objects[i].backupName)], seeds[i]))
    && (forall i :: 0 <= i < |o.objects| && o.objects[i].live in files && !IsGenerated(o, o.objects[i].live) ==>
          && o.objects[i].role == Management && ContainedIn(files[o.objects[i].live], seeds[i])
          && files[o.objects[i].live].identity != seeds[i].identity)
    && LockVacant(o, files)
  }

  ghost predicate IsGenerated(o: Origin, p: Place) {
    exists j :: 0 <= j <= |o.leaves| && p == GeneratedPlace(o, j)
  }

  // npm was run, came to its end, and every object was looked at afterwards.
  ghost predicate NpmCompleted(script: seq<Event>, n: nat) {
    exists k :: 0 <= k < |script| && CompletedUninstall(script[k], n)
  }

  predicate CompletedUninstall(e: Event, n: nat) {
    e.Uninstalled? && e.completed && e.seen >= n && |e.survivors| == n
  }

  // ---- The stages of a run ----

  // The operations of a migration in the order of their phases: preserve the originals, make working copies, run
  // the uninstall, publish the wrappers and then the manifest.
  function PlannedStep(o: Origin, k: nat): string {
    var n := |o.objects|;
    if k < n then "retain." + o.objects[k].step
    else if k < 2 * n then "copy." + o.objects[k - n].step
    else if k == 2 * n then "npm-uninstall"
    else "publish.generated." + GeneratedName(o, k - 2 * n - 1)
  }

  function PlannedOperation(o: Origin, k: nat): Operation {
    var n := |o.objects|;
    if k < n then RetainOp else if k < 2 * n then WorkingCopyOp else if k == 2 * n then UninstallOp
    else if k - 2 * n - 1 < |o.leaves| then WrapperOp else ManifestOp
  }

  predicate Announces(rows: seq<Row>, o: Origin, k: nat) {
    && 2 * k + 1 < |rows|
    && rows[2 * k].IntentRow? && rows[2 * k].step == PlannedStep(o, k) && rows[2 * k].operation == PlannedOperation(o, k)
    && rows[2 * k + 1].ResultRow? && rows[2 * k + 1].step == PlannedStep(o, k) && rows[2 * k + 1].operation == PlannedOperation(o, k)
    && rows[2 * k + 1].confirmed
  }

  // The first k operations of the plan, each announced and confirmed, and nothing else.
  ghost predicate Performed(rows: seq<Row>, o: Origin, k: nat) {
    |rows| == 2 * k && forall j :: 0 <= j < k ==> Announces(rows, o, j)
  }

  ghost predicate PerformedAll(rows: seq<Row>, o: Origin) {
    |rows| > 0 && rows[|rows| - 1] == CompleteRow && Performed(rows[..|rows| - 1], o, 2 * |o.objects| + |o.leaves| + 2)
  }

  lemma OneMorePerformed(rows: seq<Row>, o: Origin, k: nat, intent: Row, result: Row)
    requires Performed(rows, o, k) && intent.IntentRow? && result.ResultRow? && result.confirmed
    requires intent.step == result.step == PlannedStep(o, k) && intent.operation == result.operation == PlannedOperation(o, k)
    ensures Performed(rows + [intent] + [result], o, k + 1)
  {
    var after := rows + [intent] + [result];
    forall j | 0 <= j <= k ensures Announces(after, o, j) {
      if j < k {
        assert Announces(rows, o, j);
      }
    }
  }

  // After k of the moves.
  ghost predicate Moving(g: Migration, k: nat) {
    && (forall i :: 0 <= i < |g.saved| ==> LacksCopy(g.saved[i]) && (IsUntouched(g.saved[i]) <==> k <= i))
    && (forall j :: 0 <= j < |g.shell| ==> IsUnpublished(g.shell[j]))
  }

  // After k of the copies.
  ghost predicate Copying(g: Migration, k: nat) {
    && (forall i :: 0 <= i < |g.saved| ==> !IsUntouched(g.saved[i]) && (LacksCopy(g.saved[i]) <==> k <= i))
    && (forall i :: 0 <= i < k && i < |g.saved| ==> HasKnownCopy(g.saved[i]))
    && (forall j :: 0 <= j < |g.shell| ==> IsUnpublished(g.shell[j]))
  }

  // After k of the publications.
  ghost predicate Publishing(g: Migration, k: nat) {
    && (forall i :: 0 <= i < |g.saved| ==> !IsUntouched(g.saved[i]) && !LacksCopy(g.saved[i]))
    && !AllKnown(g.saved) && Removed(g.saved)
    && (forall j :: 0 <= j < |g.shell| ==> (IsUnpublished(g.shell[j]) <==> k <= j))
  }

  // Where a run stands after k operations.
  ghost predicate InStage(g: Migration, o: Origin, k: nat) {
    var n := |o.objects|;
    && k <= 2 * n + |o.leaves| + 2
    && |g.saved| == n > 0 && |g.shell| == |o.leaves| + 1
    && (forall i :: 0 <= i < n ==> g.saved[i].spec == o.objects[i])
    && (forall j :: 0 <= j <= |o.leaves| ==> g.shell[j].name == GeneratedName(o, j))
    && (k <= n ==> Moving(g, k))
    && (n <= k <= 2 * n ==> Copying(g, k - n))
    && (2 * n < k ==> Publishing(g, k - 2 * n - 1))
  }

  // The operation a stage calls for.
  function Due(o: Origin, k: nat): Operate {
    var n := |o.objects|;
    if k < n then Retain(k) else if k < 2 * n then MakeCopy(k - n) else if k == 2 * n then Uninstall
    else if k - 2 * n - 1 <= |o.leaves| then Publish(k - 2 * n - 1) else Conclude
  }

  lemma StageDictates(g: Migration, o: Origin, k: nat)
    requires InStage(g, o, k)
    ensures NextOperation(g) == Due(o, k)
  {
    hide Removed;
    var n := |o.objects|;
    if k < n {
      FirstIndexIs(g.saved, IsUntouched, k);
    } else {
      assert FirstIndex(g.saved, IsUntouched) == n;
      if k < 2 * n {
        FirstIndexIs(g.saved, LacksCopy, k - n);
      } else {
        assert FirstIndex(g.saved, LacksCopy) == n;
        if k - 2 * n - 1 <= |o.leaves| && k > 2 * n {
          FirstIndexIs(g.shell, IsUnpublished, k - 2 * n - 1);
        } else if k > 2 * n {
          assert FirstIndex(g.shell, IsUnpublished) == |g.shell|;
        }
      }
    }
  }

  // A working copy that is not as it was made.
  predicate Handled(row: Saved) {
    row.working.Some? && row.working.value.status != Known
  }

  // An operation that lets the run go on was announced and confirmed.
  predicate Confirmed(g: Migration, after: Migration, step: string, operation: Operation) {
    && |after.journal| == |g.journal| + 2
    && after.journal[|g.journal|].IntentRow? && after.journal[|g.journal|].step == step && after.journal[|g.journal|].operation == operation
    && after.journal[|g.journal| + 1].ResultRow? && after.journal[|g.journal| + 1].step == step && after.journal[|g.journal| + 1].operation == operation
    && after.journal[|g.journal| + 1].confirmed
    && after.journal == g.journal + [after.journal[|g.journal|]] + [after.journal[|g.journal| + 1]]
  }

  lemma RetainGoesOn(g: Migration, run: string, i: nat, e: Event)
    requires i < |g.saved| && g.status == Advancing
    ensures var after := RetainStep(g, run, i, e);
      && after.status != Done
      && (after.status == Advancing ==>
            && Confirmed(g, after, "retain." + g.saved[i].spec.step, RetainOp) && after.shell == g.shell && |after.saved| == |g.saved|
            && after.saved[i] == g.saved[i].(state := Preserved, rows := after.saved[i].rows)
            && forall k :: 0 <= k < |g.saved| && k != i ==> after.saved[k] == g.saved[k])
  {
    hide MaybeMoved, BackupPlace;
  }

  lemma CopyGoesOn(g: Migration, run: string, runId: string, i: nat, e: Event)
    requires i < |g.saved| && g.status == Advancing
    ensures var after := CopyStep(g, run, runId, i, e);
      && after.status != Done
      && (after.status == Advancing ==>
            && Confirmed(g, after, "copy." + g.saved[i].spec.step, WorkingCopyOp) && after.shell == g.shell && |after.saved| == |g.saved|
            && after.saved[i] == g.saved[i].(working := after.saved[i].working) && HasKnownCopy(after.saved[i])
            && forall k :: 0 <= k < |g.saved| && k != i ==> after.saved[k] == g.saved[k])
  {
    hide BrokenFiles, StagingName;
  }

  lemma NpmGoesOn(g: Migration, o: Origin, e: Event)
    requires g.status == Advancing
    ensures var after := NpmStep(g, o, e);
      && after.status != Done
      && (after.status == Advancing ==>
            && Confirmed(g, after, "npm-uninstall", UninstallOp) && after.shell == g.shell && |after.saved| == |g.saved|
            && CompletedUninstall(e, |g.saved|) && Removed(after.saved)
            && forall k :: 0 <= k < |g.saved| ==> after.saved[k] == g.saved[k].(working := after.saved[k].working) && Handled(after.saved[k]))
  {
    hide AfterUninstall, Removed, BrokenFiles, PartlyObserved, PartlyReleased;
    if Accounted(g.saved, e) {
      forall k | 0 <= k < |g.saved| ensures Explained(g.saved[k], e.survivors[k]) {}
    }
  }

  lemma PublishGoesOn(g: Migration, o: Origin, run: string, j: nat, e: Event)
    requires j < |g.shell| && g.status == Advancing
    ensures var after := PublishStep(g, o, run, j, e);
      && after.status != Done
      && (after.status == Advancing ==>
            && Confirmed(g, after, "publish.generated." + g.shell[j].name, if g.shell[j].name == "shell" then ManifestOp else WrapperOp)
            && after.saved == g.saved && |after.shell| == |g.shell|
            && after.shell[j] == g.shell[j].(status := Installed, rows := after.shell[j].rows)
            && forall k :: 0 <= k < |g.shell| && k != j ==> after.shell[k] == g.shell[k])
  {
    hide BrokenFiles, GeneratedPlace, BackupName, PublishedTree;
  }

  lemma PlanIsFollowed(g: Migration, o: Origin, run: string, runId: string, k: nat, e: Event)
    requires InStage(g, o, k) && g.status == Advancing && "shell" !in o.leaves
    ensures var next := Step(g, o, run, runId, e);
      && (next.status == Advancing ==> Confirmed(g, next, PlannedStep(o, k), PlannedOperation(o, k)) && k < 2 * |o.objects| + |o.leaves| + 2)
      && (next.status == Advancing && k == 2 * |o.objects| ==> CompletedUninstall(e, |o.objects|))
      && (next.status == Done ==> k == 2 * |o.objects| + |o.leaves| + 2 && next == g.(journal := g.journal + [CompleteRow], status := Done))
  {
    hide RetainStep, CopyStep, NpmStep, PublishStep, Removed, NextOperation, Confirmed, AllKnown, Moving, Copying, Publishing, CompletedUninstall;
    StageDictates(g, o, k);
    match Due(o, k) {
      case Retain(i) => RetainGoesOn(g, run, i, e);
      case MakeCopy(i) => CopyGoesOn(g, run, runId, i, e);
      case Uninstall => NpmGoesOn(g, o, e);
      case Publish(j) =>
        PublishGoesOn(g, o, run, j, e);
        assert j < |o.leaves| ==> o.leaves[j] in o.leaves;
      case Conclude =>
    }
  }

  lemma StageGoesOn(g: Migration, o: Origin, run: string, runId: string, k: nat, e: Event)
    requires InStage(g, o, k) && g.status == Advancing && Step(g, o, run, runId, e).status == Advancing
    ensures InStage(Step(g, o, run, runId, e), o, k + 1)
  {
    hide RetainStep, CopyStep, NpmStep, PublishStep, Removed, NextOperation, Confirmed, CompletedUninstall;
    StageDictates(g, o, k);
    match Due(o, k) {
      case Retain(i) => RetainGoesOn(g, run, i, e);
      case MakeCopy(i) => CopyGoesOn(g, run, runId, i, e);
      case Uninstall =>
        NpmGoesOn(g, o, e);
        assert Handled(NpmStep(g, o, e).saved[0]);
      case Publish(j) => PublishGoesOn(g, o, run, j, e);
      case Conclude =>
    }
  }

  lemma StageAdvances(g: Migration, o: Origin, run: string, runId: string, k: nat, e: Event)
    requires InStage(g, o, k) && g.status == Advancing && Performed(g.journal, o, k) && "shell" !in o.leaves
    ensures var next := Step(g, o, run, runId, e);
      && (next.status == Advancing ==> InStage(next, o, k + 1) && Performed(next.journal, o, k + 1))
      && (next.status == Advancing && k == 2 * |o.objects| ==> CompletedUninstall(e, |o.objects|))
      && (next.status == Done ==> k == 2 * |o.objects| + |o.leaves| + 2 && next == g.(journal := g.journal + [CompleteRow], status := Done))
  {
    hide Step, InStage, Performed, PlannedStep, PlannedOperation, CompletedUninstall;
    PlanIsFollowed(g, o, run, runId, k, e);
    if Step(g, o, run, runId, e).status == Advancing {
      StageGoesOn(g, o, run, runId, k, e);
      var rows := Step(g, o, run, runId, e).journal;
      OneMorePerformed(g.journal, o, k, rows[|g.journal|], rows[|g.journal| + 1]);
    }
  }

  // Once every original is aside, what is at a name outside the directories of the runs is a working copy or
  // a published file.
  lemma Occupant(g: Migration, o: Origin, run: string, target: string, source: string, seeds: seq<Tree>, p: Place) returns (s: Slot)
    requires ValidOrigin(o, run, target) && Sound(g, o, run, target, source, seeds)
    requires forall i :: 0 <= i < |g.saved| ==> !IsUntouched(g.saved[i])
    requires p in g.files && Watched(o, {run, target}, p) && p.directory !in {run, target}
    ensures At(ModelOf(g, o, run, source), s) == Some(Entry(p, g.files[p]))
    ensures s.WorkingSlot? || s.GeneratedSlot?
    ensures s.WorkingSlot? ==> s.index < |o.objects| && p == o.objects[s.index].live && g.saved[s.index].working.Some?
    ensures s.GeneratedSlot? ==> s.index <= |o.leaves| && p == GeneratedPlace(o, s.index) && !IsUnpublished(g.shell[s.index])
  {
    hide LocationsDistinct, OwnDirectory, Watched, LiveScope;
    var m := ModelOf(g, o, run, source);
    s :| At(m, s).Some? && At(m, s).value.place == p;
    assert s.OriginalSlot? || s.WorkingSlot? ==> s.index < |g.saved|;
    if s.OriginalSlot? || s.WorkingSlot? {
      assert ForwardRow(g.saved[s.index], o.objects[s.index], seeds[s.index]) && !IsUntouched(g.saved[s.index]);
    } else {
      assert ForwardShellRow(g.shell[s.index], o, s.index);
    }
  }

  lemma LiveIsCopy(g: Migration, o: Origin, run: string, target: string, source: string, seeds: seq<Tree>, i: nat)
    requires ValidOrigin(o, run, target) && Sound(g, o, run, target, source, seeds)
    requires forall i :: 0 <= i < |g.saved| ==> !IsUntouched(g.saved[i])
    requires i < |o.objects| && o.objects[i].live in g.files && !IsGenerated(o, o.objects[i].live)
    ensures g.saved[i].working.Some? && g.saved[i].working.value.rows == Some(g.files[o.objects[i].live])
    ensures g.saved[i].working.value.status != Absent
  {
    hide Placed;
    var s := Occupant(g, o, run, target, source, seeds, o.objects[i].live);
    assert s == WorkingSlot(i);
    assert ForwardRow(g.saved[i], o.objects[i], seeds[i]);
  }

  // Working copies are objects of their own.
  ghost predicate CopiesApart(g: Migration, seeds: seq<Tree>) {
    && |g.saved| == |seeds|
    && forall i :: 0 <= i < |seeds| && g.saved[i].working.Some? && g.saved[i].working.value.rows.Some? ==>
         g.saved[i].working.value.rows.value.identity != seeds[i].identity
  }

  lemma CopyIsApart(g: Migration, run: string, runId: string, i: nat, e: Event, seeds: seq<Tree>)
    requires i < |g.saved| && CopiesApart(g, seeds) && g.saved[i].rows.identity == seeds[i].identity
    requires CopyStep(g, run, runId, i, e).status == g.status == Advancing
    ensures CopiesApart(CopyStep(g, run, runId, i, e), seeds)
  {
    hide BrokenFiles, StagingName;
  }

  // npm leaves rows of the copy it was given, and nothing else.
  lemma NpmLeavesApart(g: Migration, o: Origin, e: Event, seeds: seq<Tree>)
    requires CopiesApart(g, seeds) && NpmStep(g, o, e).status == g.status == Advancing
    ensures CopiesApart(NpmStep(g, o, e), seeds)
  {
    hide AfterUninstall, Removed, BrokenFiles, PartlyObserved, PartlyReleased;
    if Accounted(g.saved, e) {
      forall k | 0 <= k < |g.saved| ensures Explained(g.saved[k], e.survivors[k]) {}
    }
  }

  lemma StepKeepsApart(g: Migration, o: Origin, run: string, runId: string, seeds: seq<Tree>, e: Event)
    requires Shape(g, o, seeds) && CopiesApart(g, seeds) && g.status == Advancing && Step(g, o, run, runId, e).status == Advancing
    ensures CopiesApart(Step(g, o, run, runId, e), seeds)
  {
    hide RetainStep, CopyStep, NpmStep, PublishStep;
    match NextOperation(g)
    case Retain(i) => RetainGoesOn(g, run, i, e);
    case MakeCopy(i) =>
      assert ForwardRow(g.saved[i], o.objects[i], seeds[i]);
      CopyIsApart(g, run, runId, i, e, seeds);
    case Uninstall => NpmLeavesApart(g, o, e, seeds);
    case Publish(j) => PublishGoesOn(g, o, run, j, e);
    case Conclude =>
  }

  // The state a run concludes in.
  lemma ConcludedIsInstalled(g: Migration, o: Origin, run: string, target: string, source: string, seeds: seq<Tree>)
    requires ValidOrigin(o, run, target) && Sound(g, o, run, target, source, seeds)
    requires Publishing(g, |g.shell|) && CopiesApart(g, seeds)
    ensures IsMigrated(o, run, seeds, g.files)
  {
    hide Placed, LiveScope, Removed, AllKnown;
    var m := ModelOf(g, o, run, source);
    forall j | 0 <= j <= |o.leaves|
      ensures GeneratedPlace(o, j) in g.files && (j < |o.leaves| ==> g.files[GeneratedPlace(o, j)].contents == WrapperContents(o, j))
    {
      assert ForwardShellRow(g.shell[j], o, j) && !IsUnpublished(g.shell[j]);
      OnDiskAt(m, g.files, o, {run, target}, target, GeneratedSlot(j));
    }
    forall i | 0 <= i < |o.objects|
      ensures Place(run, o.objects[i].backupName) in g.files && SameObject(g.files[Place(run, o.objects[i].backupName)], seeds[i])
    {
      assert ForwardRow(g.saved[i], o.objects[i], seeds[i]) && !IsUntouched(g.saved[i]);
      OnDiskAt(m, g.files, o, {run, target}, target, OriginalSlot(i));
    }
    forall i | 0 <= i < |o.objects| && o.objects[i].live in g.files && !IsGenerated(o, o.objects[i].live)
      ensures o.objects[i].role == Management && ContainedIn(g.files[o.objects[i].live], seeds[i])
      ensures g.files[o.objects[i].live].identity != seeds[i].identity
    {
      LiveIsCopy(g, o, run, target, source, seeds, i);
      assert ForwardRow(g.saved[i], o.objects[i], seeds[i]);
      RemovedRow(g.saved, i);
    }
    SoundLockVacant(g, o, run, target, source, seeds);
  }

  lemma RemovedRow(saved: seq<Saved>, i: nat)
    requires Removed(saved) && i < |saved|
    ensures saved[i].spec.role != Management ==> saved[i].working.Some? && saved[i].working.value.status == Absent
  {
  }

  lemma {:induction false} RunEndsInstalled(g: Migration, o: Origin, run: string, runId: string, target: string, source: string, seeds: seq<Tree>, script: seq<Event>, k: nat)
    requires ValidOrigin(o, run, target) && Steady(g, o, run, target, source, seeds) && Begun(g) && g.status == Advancing
    requires InStage(g, o, k) && Performed(g.journal, o, k) && CopiesApart(g, seeds)
    ensures |seeds| == |o.objects|
    ensures var final := Drive(g, o, run, runId, script);
      final.status == Done ==>
        && IsMigrated(o, run, seeds, final.files) && PerformedAll(final.journal, o)
        && (k <= 2 * |o.objects| ==> NpmCompleted(script, |o.objects|))
    decreases |script|
  {
    hide Sound, Logged, Step, InStage, IsMigrated, NextOperation, CompletedUninstall, Performed, CopiesApart, Shape;
    SoundShape(g, o, run, target, source, seeds);
    if script != [] {
      var e, n := script[0], |o.objects|;
      var next := Step(g, o, run, runId, e);
      StageAdvances(g, o, run, runId, k, e);
      if next.status == Advancing {
        StepSteady(g, o, run, runId, target, source, seeds, e);
        StepKeepsApart(g, o, run, runId, seeds, e);
        RunEndsInstalled(next, o, run, runId, target, source, seeds, script[1..], k + 1);
        if NpmCompleted(script[1..], n) {
          var i :| 0 <= i < |script[1..]| && CompletedUninstall(script[1..][i], n);
          assert CompletedUninstall(script[i + 1], n);
        }
      } else if next.status == Done {
        LastStage(g, o);
        ConcludedIsInstalled(g, o, run, target, source, seeds);
        assert next.journal[..|g.journal|] == g.journal;
      }
    }
  }

  lemma LastStage(g: Migration, o: Origin)
    requires InStage(g, o, 2 * |o.objects| + |o.leaves| + 2)
    ensures Publishing(g, |g.shell|)
  {
  }

  lemma StartStage(o: Origin, files: Files, seeds: seq<Tree>)
    requires |seeds| == |o.objects| > 0
    ensures InStage(StartMigration(o, files, seeds), o, 0) && Performed(StartMigration(o, files, seeds).journal, o, 0)
    ensures CopiesApart(StartMigration(o, files, seeds), seeds)
  {
  }

  /** Whatever the environment did on the way: a migration that ends as done has announced and confirmed every
      operation of its plan, in the order of the phases, and npm was run and came to its end. It has published
      every generated file, keeps every original under its backup name, and has left no working copy but npm's
      own file and no new lock file. */
  lemma DoneIsInstalled(o: Origin, files: Files, run: string, runId: string, target: string, seeds: seq<Tree>, script: seq<Event>)
    requires ValidOrigin(o, run, target) && Untouched(o, files, {run, target}, seeds)
    ensures var final := Drive(StartMigration(o, files, seeds), o, run, runId, script);
      final.status == Done ==>
        IsMigrated(o, run, seeds, final.files) && PerformedAll(final.journal, o) && NpmCompleted(script, |o.objects|)
  {
    hide Steady, IsMigrated, Drive, InStage, Performed, CopiesApart;
    var g := StartMigration(o, files, seeds);
    StartIsSteady(o, files, run, target, "", seeds);
    StartStage(o, files, seeds);
    RunEndsInstalled(g, o, run, runId, target, "", seeds, script, 0);
  }

  // ---- A run in which everything is confirmed ----

  ghost predicate DistinctBackups(o: Origin) {
    forall i, k :: 0 <= i < k < |o.objects| ==> o.objects[i].backupName != o.objects[k].backupName
  }

  // During a migration only preserved originals are in its directory.
  lemma SlotInRun(g: Migration, o: Origin, run: string, target: string, source: string, seeds: seq<Tree>, s: Slot)
    requires ValidOrigin(o, run, target) && Shape(g, o, seeds)
    requires var e := At(ModelOf(g, o, run, source), s); e.Some? && e.value.place.directory == run
    ensures s.OriginalSlot? && s.index < |o.objects| && g.saved[s.index].state == Preserved
    ensures At(ModelOf(g, o, run, source), s).value.place == Place(run, o.objects[s.index].backupName)
  {
    forall i | 0 <= i < |g.saved| ensures ForwardRow(g.saved[i], o.objects[i], seeds[i]) {}
    forall j | 0 <= j < |g.shell| ensures ForwardShellRow(g.shell[j], o, j) {}
  }

  // With no other writer an original can always be moved aside.
  lemma RetainIsPossible(g: Migration, o: Origin, run: string, target: string, source: string, seeds: seq<Tree>, i: nat)
    requires ValidOrigin(o, run, target) && Sound(g, o, run, target, source, seeds) && DistinctBackups(o)
    requires i < |g.saved| && IsUntouched(g.saved[i])
    ensures i < |o.objects| && g.saved[i].spec == o.objects[i]
    ensures CanMove(g.files, o.objects[i].live, Place(run, o.objects[i].backupName))
  {
    var m := ModelOf(g, o, run, source);
    assert ForwardRow(g.saved[i], o.objects[i], seeds[i]);
    assert At(m, OriginalSlot(i)).Some?;
    var p := Place(run, o.objects[i].backupName);
    assert IsRunName(o, p.name) && Watched(o, {run, target}, p);
    forall s | At(m, s).Some?
      ensures At(m, s).value.place != p
    {
      if At(m, s).value.place.directory == run {
        SlotInRun(g, o, run, target, source, seeds, s);
      }
    }
  }

  // The plan's names in the directory of the run, and that directory new. npm's own file is no generated one.
  ghost predicate NewDirectory(o: Origin, files: Files, run: string) {
    && DistinctBackups(o)
    && (forall i :: 0 <= i < |o.objects| ==> "original-" <= o.objects[i].backupName)
    && (forall i :: 0 <= i < |o.objects| && o.objects[i].role == Management ==> !IsGenerated(o, o.objects[i].live))
    && (forall p :: p in files ==> p.directory != run)
  }

  // What npm leaves of a working copy: nothing, or of its own file some of what it held.
  ghost predicate LeftBehind(spec: Spec, copied: Event, seed: Tree, left: Option<Tree>) {
    left.Some? ==> spec.role == Management && copied.Copied? && left.value.identity == copied.identity && ContainedIn(left.value, seed)
  }

  /** Every operation is confirmed: each original moved, each copied to a new object, npm run to its end with
      nothing left but its own file, each generated file published and verified, and the checkpoint taken. */
  ghost predicate Smooth(o: Origin, seeds: seq<Tree>, script: seq<Event>)
    requires |seeds| == |o.objects|
  {
    var n, l := |o.objects|, |o.leaves|;
    && |script| > 2 * n + l + 2
    && (forall k :: 0 <= k < n ==> script[k].Moved?)
    && (forall k :: n <= k < 2 * n ==> script[k].Copied? && script[k].identity != seeds[k - n].identity)
    && CompletedUninstall(script[2 * n], n) && script[2 * n].created.None?
    && (forall i :: 0 <= i < n ==> LeftBehind(o.objects[i], script[n + i], seeds[i], script[2 * n].survivors[i]))
    && (forall k :: 2 * n < k <= 2 * n + l + 1 ==> script[k].Published? && script[k].verified)
    && script[2 * n + l + 2].Checkpoint?
  }

  // The state after the first k events.
  function StateAfter(g: Migration, o: Origin, run: string, runId: string, script: seq<Event>, k: nat): Migration
    requires k <= |script|
  {
    if k == 0 then g else Step(StateAfter(g, o, run, runId, script, k - 1), o, run, runId, script[k - 1])
  }

  lemma {:induction false} DriveFrom(g: Migration, o: Origin, run: string, runId: string, script: seq<Event>, k: nat)
    requires k <= |script|
    requires forall j :: 0 <= j < k ==> StateAfter(g, o, run, runId, script, j).status == Advancing
    ensures Drive(g, o, run, runId, script) == Drive(StateAfter(g, o, run, runId, script, k), o, run, runId, script[k..])
  {
    hide Step;
    if k > 0 {
      DriveFrom(g, o, run, runId, script, k - 1);
      assert script[k - 1..][0] == script[k - 1] && script[k - 1..][1..] == script[k..];
      assert StateAfter(g, o, run, runId, script, k - 1).status == Advancing;
    }
  }

  // In the directory of the run there is nothing but originals under their backup names.
  ghost predicate Tidy(g: Migration, o: Origin, run: string) {
    forall p :: p in g.files && p.directory == run ==> exists i :: 0 <= i < |o.objects| && p.name == o.objects[i].backupName
  }

  ghost predicate Holds(row: Saved, seed: Tree, copied: Event) {
    HasKnownCopy(row) && copied.Copied? && row.working.value.rows.value.identity == copied.identity && row.working.value.rows.value.contents == seed.contents
  }

  // The copies made so far are the ones the script made.
  ghost predicate CopiesHeld(g: Migration, o: Origin, seeds: seq<Tree>, script: seq<Event>, k: nat) {
    var n := |o.objects|;
    |g.saved| == |seeds| == n && 2 * n <= |script| && (k <= 2 * n ==> forall i :: 0 <= i < k - n ==> Holds(g.saved[i], seeds[i], script[n + i]))
  }

  // Where the run stands after k events.
  ghost predicate OnTheWay(g: Migration, o: Origin, run: string, target: string, seeds: seq<Tree>, script: seq<Event>, k: nat) {
    && Steady(g, o, run, target, "", seeds) && Begun(g) && g.status == Advancing
    && InStage(g, o, k) && Performed(g.journal, o, k)
    && Tidy(g, o, run) && CopiesHeld(g, o, seeds, script, k)
  }

  // No staging name is a backup name.
  lemma StagingIsFree(g: Migration, o: Origin, run: string, name: string)
    requires Tidy(g, o, run) && forall i :: 0 <= i < |o.objects| ==> "original-" <= o.objects[i].backupName
    requires |name| > 0 && name[0] != 'o'
    ensures Place(run, name) !in g.files
  {
    forall i | 0 <= i < |o.objects| ensures name != o.objects[i].backupName {
      assert o.objects[i].backupName[0] == "original-"[0];
    }
  }

  lemma StagingStarts(runId: string, spec: Spec)
    ensures |StagingName(runId, spec)| > 0 && StagingName(runId, spec)[0] == 'w'
  {
  }

  lemma MoveGoesThrough(g: Migration, o: Origin, run: string, i: nat, e: Event)
    requires i < |g.saved| && i < |o.objects| && g.saved[i].spec == o.objects[i] && e.Moved? && g.status == Advancing && Tidy(g, o, run)
    requires CanMove(g.files, o.objects[i].live, Place(run, o.objects[i].backupName))
    ensures RetainStep(g, run, i, e).status == Advancing && Tidy(RetainStep(g, run, i, e), o, run)
  {
  }

  // The live name of an object that is preserved and not yet copied.
  lemma CopySourceIsFree(g: Migration, o: Origin, run: string, target: string, seeds: seq<Tree>, k: nat)
    requires ValidOrigin(o, run, target) && Sound(g, o, run, target, "", seeds)
    requires Copying(g, k) && k < |g.saved|
    ensures g.saved[k].spec.live !in g.files && g.saved[k].spec.live.directory != run && SameObject(g.saved[k].rows, seeds[k])
  {
    hide Placed, HasKnownCopy;
    assert ForwardRow(g.saved[k], o.objects[k], seeds[k]);
    var live := o.objects[k].live;
    if live in g.files {
      var s := Occupant(g, o, run, target, "", seeds, live);
    }
  }

  lemma CopyGoesThrough(g: Migration, o: Origin, run: string, runId: string, i: nat, e: Event, seed: Tree)
    requires i < |g.saved| && e.Copied? && g.saved[i].spec.live !in g.files && Place(run, StagingName(runId, g.saved[i].spec)) !in g.files
    requires g.status == Advancing && SameObject(g.saved[i].rows, seed) && e.identity != seed.identity
    requires Tidy(g, o, run) && g.saved[i].spec.live.directory != run
    ensures var after := CopyStep(g, run, runId, i, e);
      after.status == Advancing && |after.saved| == |g.saved| && Holds(after.saved[i], seed, e) && Tidy(after, o, run)
  {
    hide StagingName, BrokenFiles;
  }

  lemma CopyIsMade(g: Migration, o: Origin, files: Files, run: string, runId: string, target: string, seeds: seq<Tree>, script: seq<Event>, i: nat)
    requires ValidOrigin(o, run, target) && NewDirectory(o, files, run) && |seeds| == |o.objects| && Smooth(o, seeds, script) && i < |o.objects|
    requires OnTheWay(g, o, run, target, seeds, script, |o.objects| + i)
    ensures var e := script[|o.objects| + i];
      var after := CopyStep(g, run, runId, i, e);
      && after.status == Advancing && Tidy(after, o, run)
      && CopiesHeld(after, o, seeds, script, |o.objects| + i + 1)
  {
    hide Sound, Logged, Performed, StagingName, NewDirectory, CompletedUninstall, LeftBehind, CopyStep, Holds, Tidy;
    var e := script[|o.objects| + i];
    assert g.saved[i].spec == o.objects[i];
    CopySourceIsFree(g, o, run, target, seeds, i);
    StagingStarts(runId, g.saved[i].spec);
    BackupsDiffer(o, files, run);
    StagingIsFree(g, o, run, StagingName(runId, g.saved[i].spec));
    CopyGoesThrough(g, o, run, runId, i, e, seeds[i]);
    CopyGoesOn(g, run, runId, i, e);
  }

  lemma LeftIsExplained(g: Migration, o: Origin, seeds: seq<Tree>, script: seq<Event>)
    requires |seeds| == |o.objects| && Smooth(o, seeds, script) && CopiesHeld(g, o, seeds, script, 2 * |o.objects|)
    requires forall i :: 0 <= i < |o.objects| ==> g.saved[i].spec == o.objects[i]
    ensures var e := script[2 * |o.objects|];
      Accounted(g.saved, e) && Removed(AllObserved(g.saved, e.survivors)) && e.completed && e.created.None?
  {
    hide Smooth, Holds, LeftBehind, Explained, Observed;
    SmoothLong(o, seeds, script);
    SmoothNpm(o, seeds, script);
    var e := script[2 * |o.objects|];
    forall i | 0 <= i < |g.saved|
      ensures Explained(g.saved[i], e.survivors[i])
      ensures e.survivors[i].Some? ==> g.saved[i].spec.role == Management
      ensures g.saved[i].working.Some?
      ensures var row := Observed(g.saved[i], e.survivors[i]);
        row.spec == g.saved[i].spec && row.working.Some? && (e.survivors[i].None? ==> row.working.value.status == Absent)
    {
      assert Holds(g.saved[i], seeds[i], script[|o.objects| + i]);
      LeftRow(g.saved[i], o.objects[i], script[|o.objects| + i], seeds[i], e.survivors[i]);
    }
  }

  lemma SmoothNpm(o: Origin, seeds: seq<Tree>, script: seq<Event>)
    requires |seeds| == |o.objects| && Smooth(o, seeds, script)
    ensures |script| > 2 * |o.objects|
    ensures var e, n := script[2 * |o.objects|], |o.objects|;
      && CompletedUninstall(e, n) && e.created.None?
      && forall i :: 0 <= i < n ==> LeftBehind(o.objects[i], script[n + i], seeds[i], e.survivors[i])
  {
    hide LeftBehind;
  }

  lemma LeftRow(row: Saved, spec: Spec, copied: Event, seed: Tree, left: Option<Tree>)
    requires row.spec == spec && Holds(row, seed, copied) && LeftBehind(spec, copied, seed, left)
    ensures row.working.Some? && Explained(row, left) && (left.Some? ==> spec.role == Management)
    ensures var after := Observed(row, left);
      after.spec == row.spec && after.working.Some? && (left.None? ==> after.working.value.status == Absent)
  {
  }

  lemma UninstallGoesThrough(g: Migration, o: Origin, run: string, target: string, seeds: seq<Tree>, e: Event)
    requires ValidOrigin(o, run, target) && Sound(g, o, run, target, "", seeds) && Tidy(g, o, run) && Accounted(g.saved, e)
    requires e.completed && e.created.None? && Removed(AllObserved(g.saved, e.survivors)) && g.status == Advancing
    ensures NpmStep(g, o, e).status == Advancing && Tidy(NpmStep(g, o, e), o, run)
  {
    hide Sound, Removed;
    forall i | 0 <= i < |g.saved| ensures g.saved[i].spec.live in g.files {
      WorkingThroughUninstall(g, o, run, target, "", seeds, e, i);
    }
    NothingAppears(g.files, g.saved, e.survivors);
  }

  // Where a generated file is made before it is moved to its name.
  function NewName(name: string, j: nat): string {
    if name == "shell" then "new-shell" else BackupName(name, j)
  }

  lemma NewNameIsFree(g: Migration, o: Origin, files: Files, run: string, j: nat)
    requires j < |g.shell| && Tidy(g, o, run) && NewDirectory(o, files, run)
    ensures Place(run, NewName(g.shell[j].name, j)) !in g.files
  {
    hide Tidy;
    BackupsDiffer(o, files, run);
    StagingIsFree(g, o, run, NewName(g.shell[j].name, j));
  }

  lemma PublicationGoesThrough(g: Migration, o: Origin, run: string, j: nat, e: Event)
    requires j < |g.shell| && e.Published? && e.verified && g.status == Advancing
    requires GeneratedPlace(o, j) !in g.files && Place(run, NewName(g.shell[j].name, j)) !in g.files
    requires Tidy(g, o, run) && o.root != run && o.binDirectory != run
    ensures PublishStep(g, o, run, j, e).status == Advancing && Tidy(PublishStep(g, o, run, j, e), o, run)
  {
    hide BackupName, BrokenFiles;
  }

  // Nothing but the file itself is ever at the name of a generated file once the uninstall has ended.
  lemma DestinationIsFree(g: Migration, o: Origin, run: string, target: string, seeds: seq<Tree>, files: Files, j: nat)
    requires ValidOrigin(o, run, target) && Sound(g, o, run, target, "", seeds) && NewDirectory(o, files, run)
    requires (forall i :: 0 <= i < |g.saved| ==> !IsUntouched(g.saved[i]) && !LacksCopy(g.saved[i])) && Removed(g.saved)
    requires j <= |o.leaves| && IsUnpublished(g.shell[j])
    ensures GeneratedPlace(o, j) !in g.files
  {
    hide Placed;
    var p := GeneratedPlace(o, j);
    if p in g.files {
      var s := Occupant(g, o, run, target, "", seeds, p);
      if s.WorkingSlot? {
        assert IsGenerated(o, o.objects[s.index].live);
        RemovedRow(g.saved, s.index);
      } else {
        GeneratedPlacesDiffer(o, s.index, j);
      }
    }
  }

  lemma GeneratedPlacesDiffer(o: Origin, j: nat, k: nat)
    requires j <= |o.leaves| && k <= |o.leaves| && GeneratedPlace(o, j) == GeneratedPlace(o, k)
    ensures GeneratedName(o, j) == GeneratedName(o, k)
  {
  }

  lemma BackupsDiffer(o: Origin, files: Files, run: string)
    requires NewDirectory(o, files, run)
    ensures DistinctBackups(o) && forall i :: 0 <= i < |o.objects| ==> "original-" <= o.objects[i].backupName
  {
  }

  lemma SmoothStep(g: Migration, o: Origin, files: Files, run: string, runId: string, target: string, seeds: seq<Tree>, script: seq<Event>, k: nat)
    requires ValidOrigin(o, run, target) && NewDirectory(o, files, run) && |seeds| == |o.objects|
    requires Smooth(o, seeds, script) && k < 2 * |o.objects| + |o.leaves| + 2
    requires OnTheWay(g, o, run, target, seeds, script, k)
    ensures var next := Step(g, o, run, runId, script[k]);
      next.status == Advancing && Tidy(next, o, run) && (k < 2 * |o.objects| ==> CopiesHeld(next, o, seeds, script, k + 1))
  {
    hide Steady, Performed, NewDirectory, CompletedUninstall, LeftBehind, Holds, Tidy, RetainStep, CopyStep, NpmStep, PublishStep, Removed, AllKnown, NextOperation,
      BackupName, GeneratedPlace, DistinctBackups;
    var n, e := |o.objects|, script[k];
    StageDictates(g, o, k);
    OnTheWaySound(g, o, run, target, seeds, script, k);
    if k < n {
      BackupsDiffer(o, files, run);
      RetainIsPossible(g, o, run, target, "", seeds, k);
      MoveGoesThrough(g, o, run, k, e);
      RetainGoesOn(g, run, k, e);
    } else if k < 2 * n {
      CopyIsMade(g, o, files, run, runId, target, seeds, script, k - n);
    } else if k == 2 * n {
      LeftIsExplained(g, o, seeds, script);
      UninstallGoesThrough(g, o, run, target, seeds, e);
    } else {
      var j := k - 2 * n - 1;
      DestinationIsFree(g, o, run, target, seeds, files, j);
      NewNameIsFree(g, o, files, run, j);
      PublicationGoesThrough(g, o, run, j, e);
    }
  }

  lemma OnTheWaySound(g: Migration, o: Origin, run: string, target: string, seeds: seq<Tree>, script: seq<Event>, k: nat)
    requires OnTheWay(g, o, run, target, seeds, script, k)
    ensures Sound(g, o, run, target, "", seeds)
  {
    hide Sound, Logged, InStage, Performed, Tidy, CopiesHeld;
  }

  lemma SmoothStart(o: Origin, files: Files, run: string, target: string, seeds: seq<Tree>, script: seq<Event>)
    requires ValidOrigin(o, run, target) && Untouched(o, files, {run, target}, seeds) && NewDirectory(o, files, run) && |script| >= 2 * |seeds|
    ensures OnTheWay(StartMigration(o, files, seeds), o, run, target, seeds, script, 0)
  {
    hide Steady, Watched;
    StartIsSteady(o, files, run, target, "", seeds);
    StartStage(o, files, seeds);
  }

  lemma {:induction false} SmoothState(o: Origin, files: Files, run: string, runId: string, target: string, seeds: seq<Tree>, script: seq<Event>, k: nat)
    requires ValidOrigin(o, run, target) && Untouched(o, files, {run, target}, seeds) && NewDirectory(o, files, run)
    requires Smooth(o, seeds, script) && k <= 2 * |o.objects| + |o.leaves| + 2
    ensures OnTheWay(StateAfter(StartMigration(o, files, seeds), o, run, runId, script, k), o, run, target, seeds, script, k)
    decreases k
  {
    hide Step, NewDirectory, Smooth, ValidOrigin, Steady, InStage, Performed, Tidy, CopiesHeld;
    var start := StartMigration(o, files, seeds);
    SmoothLong(o, seeds, script);
    if k == 0 {
      SmoothStart(o, files, run, target, seeds, script);
    } else {
      var before, e := StateAfter(start, o, run, runId, script, k - 1), script[k - 1];
      SmoothState(o, files, run, runId, target, seeds, script, k - 1);
      SmoothStep(before, o, files, run, runId, target, seeds, script, k - 1);
      NamesOf(o, run, target);
      StageAdvances(before, o, run, runId, k - 1, e);
      StepSteady(before, o, run, runId, target, "", seeds, e);
      if k > 2 * |o.objects| {
        NothingHeld(StateAfter(start, o, run, runId, script, k), o, seeds, script, k);
      }
    }
  }

  lemma NamesOf(o: Origin, run: string, target: string)
    requires ValidOrigin(o, run, target)
    ensures "shell" !in o.leaves
  {
  }

  lemma NothingHeld(g: Migration, o: Origin, seeds: seq<Tree>, script: seq<Event>, k: nat)
    requires InStage(g, o, k) && |seeds| == |o.objects| && k > 2 * |o.objects| && 2 * |o.objects| <= |script|
    ensures CopiesHeld(g, o, seeds, script, k)
  {
  }

  lemma SmoothLong(o: Origin, seeds: seq<Tree>, script: seq<Event>)
    requires |seeds| == |o.objects| && Smooth(o, seeds, script)
    ensures |script| > 2 * |o.objects| + |o.leaves| + 2
  {
  }

  /** And it can: in a new directory, whatever the plan and the system, the run in which every operation is
      confirmed ends as done. */
  lemma SmoothRunIsDone(o: Origin, files: Files, run: string, runId: string, target: string, seeds: seq<Tree>, script: seq<Event>)
    requires ValidOrigin(o, run, target) && Untouched(o, files, {run, target}, seeds) && NewDirectory(o, files, run)
    requires Smooth(o, seeds, script)
    ensures var final := Drive(StartMigration(o, files, seeds), o, run, runId, script);
      final.status == Done && IsMigrated(o, run, seeds, final.files)
  {
    hide NewDirectory, Step, InStage, Performed, PerformedAll, IsMigrated, Steady, Tidy, CopiesHeld, ValidOrigin;
    var start, n := StartMigration(o, files, seeds), 2 * |o.objects| + |o.leaves| + 2;
    forall k | 0 <= k <= n ensures StateAfter(start, o, run, runId, script, k).status == Advancing {
      SmoothState(o, files, run, runId, target, seeds, script, k);
    }
    SmoothState(o, files, run, runId, target, seeds, script, n);
    DriveFrom(start, o, run, runId, script, n);
    PublishedConcludes(StateAfter(start, o, run, runId, script, n), o, run, runId, script[n..]);
    DoneIsInstalled(o, files, run, runId, target, seeds, script);
  }

  lemma PublishedConcludes(g: Migration, o: Origin, run: string, runId: string, script: seq<Event>)
    requires g.status == Advancing && InStage(g, o, 2 * |o.objects| + |o.leaves| + 2) && script != [] && script[0].Checkpoint?
    ensures Drive(g, o, run, runId, script).status == Done
  {
    hide RetainStep, CopyStep, NpmStep, PublishStep, NextOperation, InStage;
    StageDictates(g, o, 2 * |o.objects| + |o.leaves| + 2);
    var next := Step(g, o, run, runId, script[0]);
    assert Drive(g, o, run, runId, script) == Drive(next, o, run, runId, script[1..]);
  }
}
