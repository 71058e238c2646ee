// The registration commands as the source runs them: loops over the seven files, flipping entries of the
// state, replacing files and appending to the journal (registrationMigration.ts).
module RegistrationExecutor {
  import opened Wrappers
  import opened Registration
  import opened RegistrationRuns

  lemma DriveStep(run: Run, steps: nat)
    requires ValidPlan(run.plan) && steps > 0 && !run.pc.Finished? && !run.pc.Failed?
    ensures Drive(run, steps) == Drive(Step(run), steps - 1)
  {
  }

  lemma DriveEnded(run: Run, steps: nat)
    requires ValidPlan(run.plan) && (steps == 0 || run.pc.Finished? || run.pc.Failed?)
    ensures Drive(run, steps) == run
  {
  }

  lemma NextTurn(restoring: bool, state: State, i: nat)
    requires i < FILES
    ensures Next(restoring, state, i) == if !restoring || state[i] then Announce(i) else Next(restoring, state, i + 1)
  {
  }

  lemma NextEnds(restoring: bool, state: State)
    ensures Next(restoring, state, FILES) == Checkpoint
  {
  }

  class RegistrationRun {
    const name: RunName
    const restoring: bool
    const plan: Plan
    const origin: RunName
    const start: State
    var state: State
    var disk: seq<Content>
    var store: Store
    var budget: nat       // atomic steps before the process dies
    ghost var pc: Pc

    constructor (run: Run, budget: nat)
      ensures State() == run && this.budget == budget
    {
      name, restoring, plan, origin, start := run.name, run.restoring, run.plan, run.origin, run.start;
      state, disk, store, this.budget, pc := run.state, run.disk, run.store, budget, run.pc;
    }

    ghost function State(): Run
      reads this
    {
      Run(name, restoring, plan, origin, start, state, disk, store, pc)
    }

    ghost function Outcome(): Run
      reads this
      requires ValidPlan(plan)
    {
      Drive(State(), budget)
    }

    ghost predicate Ticking()
      reads this
    {
      ValidPlan(plan) && InProgress(State()) && budget > 0
    }

    method AppendRow(row: Row)
      requires name in store && store[name].journal.Some?
      modifies this`store
      ensures State() == WithRow(old(State()), row)
    {
      var own := store[name];
      var journal := own.journal.value;
      store := store[name := own.(journal := Some(journal.(rows := journal.rows + [row])))];
    }

    // One saved original.
    method WriteBackup(i: nat)
      requires Ticking() && pc == Backup(i)
      modifies this
      ensures State() == Step(old(State())) && budget == old(budget) - 1
      ensures InProgress(State()) && pc == if i + 1 < FILES then Backup(i + 1) else OpenJournal
    {
      budget := budget - 1;
      var own := store[name];
      store := store[name := own.(originals := own.originals + [plan.before[i]])];
      pc := if i + 1 < FILES then Backup(i + 1) else OpenJournal;
    }

    method CreateJournal()
      requires Ticking() && pc == OpenJournal
      modifies this
      ensures State() == Step(old(State())) && budget == old(budget) - 1
      ensures InProgress(State()) && pc == Next(restoring, state, 0)
    {
      budget := budget - 1;
      store := store[name := store[name].(journal := Some(Journal([], false)))];
      pc := Next(restoring, state, 0);
      NextIs(restoring, state, 0);
    }

    // `verifyCurrent`: every file against the state.
    method VerifyCurrent() returns (same: bool)
      requires ValidPlan(plan) && |disk| == FILES
      ensures same == DiskMatches(disk, plan, state)
    {
      for k := 0 to FILES
        invariant forall j :: 0 <= j < k ==> disk[j] == Expected(plan, state, j)
      {
        if disk[k] != (if state[k] then plan.after[k] else plan.before[k]) {
          return false;
        }
      }
      return true;
    }

    // The edited bytes, or the original saved by the first run of the chain.
    method ReadReplacement(i: nat) returns (bytes: Option<Content>)
      requires ValidPlan(plan) && i < FILES
      ensures bytes == Replacement(State(), i)
    {
      if !restoring {
        return Some(plan.after[i]);
      }
      if origin !in store || i >= |store[origin].originals| || store[origin].originals[i] != plan.before[i] {
        return None;
      }
      return Some(store[origin].originals[i]);
    }

    method AppendIntent(i: nat) returns (ok: bool)
      requires Ticking() && pc == Announce(i)
      modifies this
      ensures State() == Step(old(State())) && budget == old(budget) - 1
      ensures ok <==> !pc.Failed?
      ensures ok ==> InProgress(State()) && pc == Rewrite(i)
      ensures state == old(state)
    {
      var same := disk[i] == (if state[i] then plan.after[i] else plan.before[i]);
      if restoring {
        same := VerifyCurrent();
      }
      var bytes := ReadReplacement(i);
      budget := budget - 1;
      ok := same && bytes.Some?;
      if ok {
        AppendRow(Intent(StepName(restoring, i), OperationOf(restoring), state));
      }
      pc := if ok then Rewrite(i) else Failed;
    }

    method ReplaceFile(i: nat) returns (ok: bool)
      requires Ticking() && pc == Rewrite(i)
      modifies this
      ensures State() == Step(old(State())) && budget == old(budget) - 1
      ensures ok <==> !pc.Failed?
      ensures ok ==> InProgress(State()) && pc == SaveState(i)
      ensures forall k :: i < k < FILES ==> state[k] == old(state)[k]
    {
      var bytes := ReadReplacement(i);
      budget := budget - 1;
      ok := disk[i] == (if state[i] then plan.after[i] else plan.before[i]) && bytes.Some?;
      if ok {
        disk := disk[i := bytes.value];
        state := state[i := !restoring];
      }
      pc := if ok then SaveState(i) else Failed;
    }

    method WriteState(i: nat)
      requires Ticking() && pc == SaveState(i)
      modifies this
      ensures State() == Step(old(State())) && budget == old(budget) - 1
      ensures InProgress(State()) && pc == Confirm(i)
      ensures state == old(state)
    {
      budget := budget - 1;
      var own := store[name];
      store := store[name := own.(states := own.states[|own.journal.value.rows| + 1 := state])];
      pc := Confirm(i);
    }

    method AppendResult(i: nat)
      requires Ticking() && pc == Confirm(i)
      modifies this
      ensures State() == Step(old(State())) && budget == old(budget) - 1
      ensures InProgress(State()) && pc == Next(restoring, state, i + 1)
      ensures state == old(state)
    {
      budget := budget - 1;
      AppendRow(Result(StepName(restoring, i), OperationOf(restoring), true, state));
      pc := Next(restoring, state, i + 1);
      NextIs(restoring, state, i + 1);
    }

    method AppendCompletion()
      requires Ticking() && pc == Checkpoint
      modifies this
      ensures State() == Step(old(State())) && budget == old(budget) - 1
      ensures pc == Finished
    {
      budget := budget - 1;
      AppendRow(Complete(state));
      pc := Finished;
    }

    // One file: intent, atomic replacement, state evidence, result; the process may die in between.
    method RewriteOne(i: nat) returns (running: bool)
      requires ValidPlan(plan) && InProgress(State()) && pc == Announce(i)
      modifies this
      ensures Outcome() == old(Outcome())
      ensures !running ==> State() == Outcome()
      ensures running ==> InProgress(State()) && pc == Next(restoring, state, i + 1)
      ensures forall k :: i < k < FILES ==> state[k] == old(state)[k]
    {
      hide Drive, Next, Step, InProgress;
      ghost var was := state;
      if budget == 0 {
        DriveEnded(State(), budget);
        return false;
      }
      DriveStep(State(), budget);
      running := AppendIntent(i);
      if !running || budget == 0 {
        DriveEnded(State(), budget);
        return false;
      }
      DriveStep(State(), budget);
      running := ReplaceFile(i);
      if !running || budget == 0 {
        DriveEnded(State(), budget);
        return false;
      }
      DriveStep(State(), budget);
      WriteState(i);
      if budget == 0 {
        DriveEnded(State(), budget);
        return false;
      }
      DriveStep(State(), budget);
      AppendResult(i);
    }

    // The seven originals are saved before the journal of a migration opens.
    method SaveOriginals() returns (running: bool)
      requires ValidPlan(plan) && InProgress(State()) && pc == Backup(0)
      modifies this
      ensures Outcome() == old(Outcome())
      ensures !running ==> State() == Outcome()
      ensures running ==> InProgress(State()) && pc == OpenJournal
    {
      hide Drive, Next, Step, InProgress;
      for i := 0 to FILES
        invariant Outcome() == old(Outcome())
        invariant InProgress(State()) && pc == if i < FILES then Backup(i) else OpenJournal
      {
        if budget == 0 {
          DriveEnded(State(), budget);
          return false;
        }
        DriveStep(State(), budget);
        WriteBackup(i);
      }
      return true;
    }

    // The whole command. However many steps the process lives for, it does what the step rule does.
    method Execute()
      requires ValidPlan(plan) && InProgress(State()) && pc == if restoring then OpenJournal else Backup(0)
      modifies this
      ensures State() == old(Outcome())
    {
      hide Drive, Next, Step, InProgress;
      var running := true;
      if !restoring {
        running := SaveOriginals();
        if !running {
          return;
        }
      }
      if budget == 0 {
        DriveEnded(State(), budget);
        return;
      }
      DriveStep(State(), budget);
      CreateJournal();
      for i := 0 to FILES
        invariant Outcome() == old(Outcome())
        invariant InProgress(State()) && pc == Next(restoring, state, i)
      {
        NextTurn(restoring, state, i);
        if !restoring || state[i] {
          running := RewriteOne(i);
          if !running {
            return;
          }
        }
      }
      NextEnds(restoring, state);
      if budget == 0 {
        DriveEnded(State(), budget);
        return;
      }
      DriveStep(State(), budget);
      AppendCompletion();
      DriveEnded(State(), budget);
    }
  }
}
