// Registration runs on files that do not hold what the plan and the state say of them, because somebody else
// has written them.
module RegistrationStops {
  import opened Wrappers
  import opened Registration
  import opened RegistrationRuns

  // File i holds neither what the state says of it nor, then, what a step may replace.
  predicate Foreign(run: Run, i: nat)
    requires ValidPlan(run.plan) && i < FILES && |run.disk| == FILES
  {
    run.disk[i] != if run.state[i] then run.plan.after[i] else run.plan.before[i]
  }

  /** Whatever the run and the disk: a step changes a file only while the run is at the replacement of that file and
      the file holds what the state says of it; then the file and its entry of the state change together, to the
      edit or back to the original, and nothing else does. */
  lemma StepReplacesOnlyKnown(run: Run, i: nat)
    requires ValidPlan(run.plan) && |run.disk| == FILES && i < FILES
    ensures var next := Step(run);
      && |next.disk| == FILES && next.plan == run.plan && next.restoring == run.restoring
      && (next.disk[i] != run.disk[i] || next.state[i] != run.state[i] ==>
            && run.pc == Rewrite(i) && !Foreign(run, i)
            && next.disk[i] == (if run.restoring then run.plan.before[i] else run.plan.after[i]) && next.state[i] == !run.restoring
            && forall k :: 0 <= k < FILES && k != i ==> next.disk[k] == run.disk[k] && next.state[k] == run.state[k])
  {
    hide FoldRows, StepName, Next, DiskMatches;
  }

  /** However long a run goes on, a file that somebody else has written is never changed. */
  lemma {:induction false} ForeignStays(run: Run, i: nat, steps: nat)
    requires ValidPlan(run.plan) && |run.disk| == FILES && i < FILES && Foreign(run, i)
    ensures var after := Drive(run, steps);
      |after.disk| == FILES && after.plan == run.plan && after.disk[i] == run.disk[i] && after.state[i] == run.state[i]
    decreases steps
  {
    hide Step;
    if steps > 0 && !run.pc.Finished? && !run.pc.Failed? {
      StepReplacesOnlyKnown(run, i);
      ForeignStays(Step(run), i, steps - 1);
    }
  }

  // An upper bound of the steps a run still makes.
  function StepsLeft(pc: Pc): nat {
    match pc
    case Backup(i) => 4 * FILES + 2 + (if i < FILES then FILES - i else 0)
    case OpenJournal => 4 * FILES + 2
    case Announce(i) => if i < FILES then 4 * (FILES - i) + 1 else 1
    case Rewrite(i) => if i < FILES then 4 * (FILES - i) else 1
    case SaveState(i) => if i < FILES then 4 * (FILES - i) - 1 else 1
    case Confirm(i) => if i < FILES then 4 * (FILES - i) - 2 else 1
    case Checkpoint => 1
    case Finished => 0
    case Failed => 0
  }

  lemma StepShortens(run: Run)
    requires ValidPlan(run.plan) && !run.pc.Finished? && !run.pc.Failed?
    ensures StepsLeft(Step(run).pc) < StepsLeft(run.pc)
  {
    hide FoldRows, StepName, DiskMatches, Next, Replacement;
    match run.pc {
      case OpenJournal => NextIs(run.restoring, run.state, 0);
      case Confirm(i) =>
        if i < FILES {
          NextIs(run.restoring, run.state, i + 1);
        }
      case _ =>
    }
  }

  // Every run comes to an end.
  lemma {:induction false} RunEnds(run: Run, steps: nat)
    requires ValidPlan(run.plan) && steps >= StepsLeft(run.pc)
    ensures Drive(run, steps).pc in {Finished, Failed}
    decreases steps
  {
    hide Step, StepsLeft;
    if !run.pc.Finished? && !run.pc.Failed? {
      StepShortens(run);
      StepKeepsPlan(run);
      RunEnds(Step(run), steps - 1);
    }
  }

  // File i is still to be replaced: by a migration every file, by a recovery each that is not restored yet.
  predicate Ahead(run: Run, i: nat)
    requires i < FILES
  {
    Done(run.pc) <= i && !run.pc.Failed? && (run.restoring ==> run.state[i])
  }

  lemma {:induction false} NextReaches(restoring: bool, state: State, j: nat, i: nat)
    requires j <= i < FILES && (restoring ==> state[i])
    ensures Next(restoring, state, j).Announce? && j <= Next(restoring, state, j).index <= i
    decreases FILES - j
  {
    if restoring && !state[j] {
      NextReaches(restoring, state, j + 1, i);
    }
  }

  lemma AheadStays(run: Run, i: nat)
    requires ValidPlan(run.plan) && |run.disk| == FILES && i < FILES && Foreign(run, i) && Ahead(run, i)
    ensures var next := Step(run);
      next.pc.Failed? || Ahead(next, i)
  {
    hide FoldRows, StepName, Next, Replacement, DiskMatches;
    if run.pc.OpenJournal? {
      NextReaches(run.restoring, run.state, 0, i);
    } else if run.pc.Confirm? && run.pc.index < i {
      NextReaches(run.restoring, run.state, run.pc.index + 1, i);
    }
    if run.pc == Announce(i) {
      ForeignIsSeen(run, i);
    }
  }

  lemma ForeignIsSeen(run: Run, i: nat)
    requires ValidPlan(run.plan) && |run.disk| == FILES && i < FILES && Foreign(run, i)
    ensures !Checked(run, i) && !DiskMatches(run.disk, run.plan, run.state)
  {
  }

  lemma {:induction false} ForeignIsNotPassed(run: Run, i: nat, steps: nat)
    requires ValidPlan(run.plan) && |run.disk| == FILES && i < FILES && Foreign(run, i) && Ahead(run, i)
    ensures !Drive(run, steps).pc.Finished?
    decreases steps
  {
    hide Step, Foreign, Ahead;
    AheadIsUnfinished(run, i);
    if steps > 0 && !run.pc.Failed? {
      StepReplacesOnlyKnown(run, i);
      AheadStays(run, i);
      if Step(run).pc.Failed? {
        assert Drive(Step(run), steps - 1) == Step(run);
      } else {
        ForeignKept(run, i);
        ForeignIsNotPassed(Step(run), i, steps - 1);
      }
    }
  }

  lemma AheadIsUnfinished(run: Run, i: nat)
    requires i < FILES && Ahead(run, i)
    ensures !run.pc.Finished? && !run.pc.Failed?
  {
  }

  lemma ForeignKept(run: Run, i: nat)
    requires ValidPlan(run.plan) && |run.disk| == FILES && i < FILES && Foreign(run, i)
    ensures var next := Step(run);
      |next.disk| == FILES && next.plan == run.plan && Foreign(next, i)
  {
    hide Step;
    StepReplacesOnlyKnown(run, i);
  }

  /** A run on its way to a file that somebody else has written ends failed, and the file is as it was. */
  lemma ForeignFails(run: Run, i: nat, steps: nat)
    requires ValidPlan(run.plan) && |run.disk| == FILES && i < FILES && Foreign(run, i) && Ahead(run, i)
    requires steps >= StepsLeft(run.pc)
    ensures var after := Drive(run, steps);
      after.pc.Failed? && |after.disk| == FILES && after.disk[i] == run.disk[i]
  {
    hide Step, Foreign, Ahead, StepsLeft;
    ForeignIsNotPassed(run, i, steps);
    RunEnds(run, steps);
    ForeignStays(run, i, steps);
  }

  // ---- Where exactly a run stops ----

  // The first k files edited, the others as they were.
  function EditedUpTo(plan: Plan, was: seq<Content>, k: nat): seq<Content>
    requires ValidPlan(plan) && |was| == FILES && k <= FILES
  {
    plan.after[..k] + was[k..]
  }

  // A migration that has found the files before k as planned, and is not past k.
  ghost predicate UpTo(run: Run, was: seq<Content>, k: nat)
    requires ValidPlan(run.plan) && |was| == FILES && k < FILES
  {
    && !run.restoring && |run.disk| == FILES
    && (run.pc.Failed? ==> run.disk == EditedUpTo(run.plan, was, k))
    && (!run.pc.Failed? ==>
          && InProgress(run) && Done(run.pc) <= k
          && run.disk == EditedUpTo(run.plan, was, Done(run.pc))
          && forall i :: 0 <= i < FILES ==> run.state[i] == (i < Done(run.pc)))
  }

  lemma UpToKept(run: Run, was: seq<Content>, k: nat)
    requires ValidPlan(run.plan) && |was| == FILES && k < FILES && UpTo(run, was, k) && !run.pc.Failed?
    requires was[k] != run.plan.before[k] && forall i :: 0 <= i < k ==> was[i] == run.plan.before[i]
    ensures Step(run).plan == run.plan && UpTo(Step(run), was, k)
  {
    hide FoldRows, StepName;
    if run.pc.Rewrite? {
      var i := run.pc.index;
      assert EditedUpTo(run.plan, was, i)[i := run.plan.after[i]] == EditedUpTo(run.plan, was, i + 1);
    }
  }

  lemma {:induction false} DriveUpTo(run: Run, was: seq<Content>, k: nat, steps: nat)
    requires ValidPlan(run.plan) && |was| == FILES && k < FILES && UpTo(run, was, k)
    requires was[k] != run.plan.before[k] && forall i :: 0 <= i < k ==> was[i] == run.plan.before[i]
    ensures Drive(run, steps).plan == run.plan && UpTo(Drive(run, steps), was, k)
    decreases steps
  {
    hide Step, UpTo;
    if steps > 0 && !run.pc.Finished? && !run.pc.Failed? {
      UpToKept(run, was, k);
      DriveUpTo(Step(run), was, k, steps - 1);
    }
  }

  /** A migration whose files were changed after its admission: it edits the files before the first changed one and
      ends failed there, with that file and all after it as they were. */
  lemma MigrationStopsAt(run: Run, k: nat, steps: nat)
    requires ValidPlan(run.plan) && InProgress(run) && !run.restoring && run.pc == Backup(0) && run.state == ALL_ORIGINAL
    requires k < FILES && run.disk[k] != run.plan.before[k] && forall i :: 0 <= i < k ==> run.disk[i] == run.plan.before[i]
    requires steps >= StepsLeft(run.pc)
    ensures var after := Drive(run, steps);
      after.pc.Failed? && after.disk == EditedUpTo(run.plan, run.disk, k)
  {
    hide Step, StepsLeft;
    assert run.plan.after[..0] + run.disk[0..] == run.disk;
    assert Foreign(run, k) && Ahead(run, k);
    DriveUpTo(run, run.disk, k, steps);
    ForeignFails(run, k, steps);
  }

  lemma FailedAnnounceChangesNothing(run: Run, i: nat)
    requires ValidPlan(run.plan) && |run.disk| == FILES && i < FILES && Foreign(run, i) && run.restoring && run.pc.Announce?
    ensures Step(run) == run.(pc := Failed)
  {
    ForeignIsSeen(run, i);
    hide DiskMatches;
  }

  /** A recovery looks at all seven files before each intent: with one of them changed, and any left to restore, it
      ends failed and has changed no file. */
  lemma RecoveryTouchesNothing(run: Run, i: nat, k: nat, steps: nat)
    requires ValidPlan(run.plan) && InProgress(run) && run.restoring && run.pc == OpenJournal
    requires i < FILES && Foreign(run, i) && k < FILES && run.state[k]
    requires steps >= StepsLeft(run.pc)
    ensures var after := Drive(run, steps);
      after.pc.Failed? && after.disk == run.disk
  {
    var next := Step(run);
    NextReaches(true, run.state, 0, k);
    assert next.pc.Announce? && next.disk == run.disk && next.state == run.state && next.plan == run.plan && next.restoring;
    FailedAnnounceChangesNothing(next, i);
    assert Drive(run, steps) == Drive(next, steps - 1) == Drive(Step(next), steps - 2);
  }
}
