// Registration runs as sequences of atomic steps, and chains of runs each stopped after any step.
module RegistrationRuns {
  import opened Wrappers
  import opened Registration

  // Where a run stands; each value but the last two names the next atomic step.
  datatype Pc =
    | Backup(index: nat)      // write one saved original
    | OpenJournal
    | Announce(index: nat)    // append the intent
    | Rewrite(index: nat)     // atomic replacement of the file
    | SaveState(index: nat)   // write the state file
    | Confirm(index: nat)     // append the result
    | Checkpoint              // append the completion
    | Finished
    | Failed

  datatype Run = Run(name: RunName, restoring: bool, plan: Plan, origin: RunName, start: State, state: State,
                     disk: seq<Content>, store: Store, pc: Pc)

  function Expected(plan: Plan, state: State, i: nat): Content
    requires ValidPlan(plan) && i < FILES
  {
    if state[i] then plan.after[i] else plan.before[i]
  }

  // Every file holds what the state says.
  predicate DiskMatches(disk: seq<Content>, plan: Plan, state: State) {
    ValidPlan(plan) && |disk| == FILES && forall i :: 0 <= i < FILES ==> disk[i] == Expected(plan, state, i)
  }

  // A migration rewrites every file, a recovery those that are still replaced.
  function Next(restoring: bool, state: State, i: nat): Pc
    requires i <= FILES
    decreases FILES - i
  {
    if i == FILES then Checkpoint
    else if !restoring || state[i] then Announce(i)
    else Next(restoring, state, i + 1)
  }

  function Own(run: Run): Stored
    requires run.name in run.store
  {
    run.store[run.name]
  }

  function WithRow(run: Run, row: Row): Run
    requires run.name in run.store && Own(run).journal.Some?
  {
    var journal := Own(run).journal.value;
    run.(store := run.store[run.name := Own(run).(journal := Some(journal.(rows := journal.rows + [row])))])
  }

  function OperationOf(restoring: bool): Operation {
    if restoring then RestoreOp else ManifestOp
  }

  // The bytes a file is replaced with: the edit, or the original saved by the first run of the chain.
  function Replacement(run: Run, i: nat): Option<Content>
    requires ValidPlan(run.plan) && i < FILES
  {
    if !run.restoring then Some(run.plan.after[i])
    else if run.origin in run.store && i < |run.store[run.origin].originals|
            && run.store[run.origin].originals[i] == run.plan.before[i] then
      Some(run.store[run.origin].originals[i])
    else None
  }

  // Before the intent a migration checks the file it is about to replace, a recovery all seven files.
  predicate Checked(run: Run, i: nat)
    requires ValidPlan(run.plan) && i < FILES && |run.disk| == FILES
  {
    if run.restoring then DiskMatches(run.disk, run.plan, run.state) else run.disk[i] == Expected(run.plan, run.state, i)
  }

  // The run's own directory and, past its start, its journal are there.
  predicate InProgress(run: Run) {
    && run.name in run.store
    && |run.disk| == FILES
    && (run.pc.Backup? || run.pc.OpenJournal? || Own(run).journal.Some?)
    && (run.pc.Backup? || run.pc.Announce? || run.pc.Rewrite? || run.pc.SaveState? || run.pc.Confirm? ==> run.pc.index < FILES)
  }

  // One atomic step. A failed check ends the run.
  function Step(run: Run): Run
    requires ValidPlan(run.plan)
  {
    if !InProgress(run) then run.(pc := Failed)
    else match run.pc
      case Backup(i) =>
        run.(store := run.store[run.name := Own(run).(originals := Own(run).originals + [run.plan.before[i]])],
             pc := if i + 1 < FILES then Backup(i + 1) else OpenJournal)
      case OpenJournal =>
        run.(store := run.store[run.name := Own(run).(journal := Some(Journal([], false)))], pc := Next(run.restoring, run.state, 0))
      case Announce(i) =>
        if !Checked(run, i) || Replacement(run, i).None? then run.(pc := Failed)
        else WithRow(run, Intent(StepName(run.restoring, i), OperationOf(run.restoring), run.state)).(pc := Rewrite(i))
      case Rewrite(i) =>
        if run.disk[i] != Expected(run.plan, run.state, i) || Replacement(run, i).None? then run.(pc := Failed)
        else run.(disk := run.disk[i := Replacement(run, i).value], state := run.state[i := !run.restoring], pc := SaveState(i))
      case SaveState(i) =>
        run.(store := run.store[run.name := Own(run).(states := Own(run).states[|Own(run).journal.value.rows| + 1 := run.state])], pc := Confirm(i))
      case Confirm(i) =>
        WithRow(run, Result(StepName(run.restoring, i), OperationOf(run.restoring), true, run.state))
          .(pc := Next(run.restoring, run.state, i + 1))
      case Checkpoint =>
        WithRow(run, Complete(run.state)).(pc := Finished)
      case _ => run
  }

  function Drive(run: Run, steps: nat): Run
    requires ValidPlan(run.plan)
    decreases steps
  {
    if steps == 0 || run.pc.Finished? || run.pc.Failed? then run else Drive(Step(run), steps - 1)
  }

  // The process ends, possibly in the middle of writing a journal line.
  function Stop(run: Run, torn: bool): Run {
    if torn && run.name in run.store && Own(run).journal.Some? && (run.pc.Announce? || run.pc.Confirm? || run.pc.Checkpoint?) then
      run.(store := run.store[run.name := Own(run).(journal := Some(Own(run).journal.value.(torn := true)))])
    else run
  }

  // ---- What every state of a run satisfies ----

  // The state recorded by the journal: one behind the disk between the replacement and its result.
  function RecordedState(run: Run): State {
    if (run.pc.SaveState? || run.pc.Confirm?) && run.pc.index < FILES then run.state[run.pc.index := run.restoring] else run.state
  }

  ghost predicate Logged(run: Run) {
    && run.name in run.store
    && Own(run).plan == run.plan
    && (Own(run).source.None? ==> run.start == ALL_ORIGINAL)
    && (Own(run).source.Some? ==> run.start == Own(run).source.value.start)
    && (run.pc.Backup? || run.pc.OpenJournal? ==> Own(run).journal.None? && run.state == run.start)
    && (Own(run).journal.None? ==> run.pc.Backup? || run.pc.OpenJournal?)
    && (Own(run).journal.Some? ==>
          var rows := Own(run).journal.value.rows;
          && !Own(run).journal.value.torn
          && FoldRows(run.start, rows, Own(run).states) == Ok(RecordedState(run))
          && (run.pc.Rewrite? || run.pc.SaveState? || run.pc.Confirm? ==> rows != [] && rows[|rows| - 1].Intent?)
          && (run.pc.Announce? || run.pc.Checkpoint? || run.pc.Finished? ==> Readable(Own(run).journal.value))
          && (run.pc.Confirm? ==> |rows| + 1 in Own(run).states && Own(run).states[|rows| + 1] == run.state))
  }

  ghost predicate Positioned(run: Run) {
    match run.pc
    case Backup(i) => i < FILES
    case Announce(i) => i < FILES && run.state[i] == run.restoring
    case Rewrite(i) => i < FILES && run.state[i] == run.restoring
    case SaveState(i) => i < FILES && run.state[i] == !run.restoring
    case Confirm(i) => i < FILES && run.state[i] == !run.restoring
    case _ => true
  }

  // How many files, from the first, are done.
  function Done(pc: Pc): nat {
    match pc
    case Announce(i) => i
    case Rewrite(i) => i
    case SaveState(i) => i + 1
    case Confirm(i) => i + 1
    case Checkpoint => FILES
    case Finished => FILES
    case _ => 0
  }

  ghost predicate Tandem(run: Run) {
    && ValidPlan(run.plan)
    && DiskMatches(run.disk, run.plan, run.state)
    && Positioned(run)
    && (forall k :: 0 <= k < Done(run.pc) && k < FILES ==> run.state[k] == !run.restoring)
    && (!run.restoring ==> forall k :: Done(run.pc) <= k < FILES ==> !run.state[k])
  }

  lemma {:induction false} NextIs(restoring: bool, state: State, i: nat)
    requires i <= FILES
    ensures var pc := Next(restoring, state, i);
      && (pc.Checkpoint? || (pc.Announce? && i <= pc.index < FILES && (!restoring || state[pc.index])))
      && (restoring ==> forall k :: i <= k < Done(pc) && k < FILES ==> !state[k])
      && (!restoring ==> pc == if i == FILES then Checkpoint else Announce(i))
    decreases FILES - i
  {
    if i < FILES && restoring && !state[i] {
      NextIs(restoring, state, i + 1);
    }
  }

  // The atomic replacement moves the file and its entry in the state together.
  lemma RewriteKeepsTandem(run: Run)
    requires Tandem(run) && run.pc.Rewrite?
    ensures Tandem(Step(run)) || Step(run) == run.(pc := Failed)
  {
    hide FoldRows, FoldRow, StepName;
  }

  // No other step touches a file or the state.
  lemma OtherStepKeepsTandem(run: Run)
    requires Tandem(run) && !run.pc.Failed? && !run.pc.Rewrite?
    ensures Tandem(Step(run)) || Step(run) == run.(pc := Failed)
  {
    hide FoldRows, FoldRow, StepName, DiskMatches;
    match run.pc {
      case OpenJournal => NextIs(run.restoring, run.state, 0);
      case Confirm(i) => NextIs(run.restoring, run.state, i + 1);
      case _ =>
    }
  }

  lemma StepKeepsTandem(run: Run)
    requires Tandem(run) && !run.pc.Failed?
    ensures Tandem(Step(run)) || Step(run) == run.(pc := Failed)
    ensures DiskMatches(Step(run).disk, run.plan, Step(run).state)
  {
    hide Step, Positioned, Done;
    if run.pc.Rewrite? {
      RewriteKeepsTandem(run);
    } else {
      OtherStepKeepsTandem(run);
    }
    StepKeepsPlan(run);
  }

  lemma StepKeepsPlan(run: Run)
    requires ValidPlan(run.plan)
    ensures Step(run).plan == run.plan
  {
    hide FoldRows, FoldRow, StepName, DiskMatches, Next;
  }

  lemma {:induction false} FoldIgnoresLater(start: State, rows: seq<Row>, states: map<nat, State>, k: nat, state: State)
    requires k > |rows|
    ensures FoldRows(start, rows, states[k := state]) == FoldRows(start, rows, states)
  {
    hide FoldRow;
    if rows != [] {
      FoldIgnoresLater(start, rows[..|rows| - 1], states, k, state);
      var before := FoldRows(start, rows[..|rows| - 1], states);
      if before.Ok? {
        FoldRowIgnoresLater(before.value, rows[|rows| - 1], |rows|, states, k, state);
      }
    }
  }

  lemma FoldRowIgnoresLater(mid: State, row: Row, sequence: nat, states: map<nat, State>, k: nat, state: State)
    requires k > sequence
    ensures FoldRow(mid, row, sequence, states[k := state]) == FoldRow(mid, row, sequence, states)
  {
  }

  lemma FoldExtends(start: State, rows: seq<Row>, row: Row, states: map<nat, State>)
    ensures FoldRows(start, rows + [row], states)
      == match FoldRows(start, rows, states)
         case Err(e) => Err(e)
         case Ok(mid) => FoldRow(mid, row, |rows| + 1, states)
  {
    hide FoldRow;
    assert (rows + [row])[..|rows|] == rows;
  }

  lemma ResultFolds(state: State, restoring: bool, i: nat, sequence: nat, states: map<nat, State>)
    requires i < FILES && state[i] == !restoring && sequence in states && states[sequence] == state
    ensures FoldRow(state[i := restoring], Result(StepName(restoring, i), OperationOf(restoring), true, state), sequence, states) == Ok(state)
  {
    StepIndexOfName(restoring, i);
    assert state[i := restoring][i := !restoring] == state;
  }

  // Appending a row that folds keeps the log.
  lemma RowKeepsLogged(run: Run, row: Row, pc: Pc)
    requires Logged(run) && Own(run).journal.Some?
    requires var after := WithRow(run, row).(pc := pc);
      && !pc.Backup? && !pc.OpenJournal?
      && FoldRow(RecordedState(run), row, |Own(run).journal.value.rows| + 1, Own(run).states) == Ok(RecordedState(after))
      && (pc.Rewrite? <==> row.Intent?) && !pc.SaveState? && !pc.Confirm?
      && (row.Result? ==> row.confirmed)
    ensures Logged(WithRow(run, row).(pc := pc))
  {
    hide FoldRow, FoldRows;
    FoldExtends(run.start, Own(run).journal.value.rows, row, Own(run).states);
  }

  lemma AnnounceKeepsLogged(run: Run)
    requires Tandem(run) && Logged(run) && run.pc.Announce?
    ensures Logged(Step(run)) || Step(run) == run.(pc := Failed)
  {
    hide FoldRow, FoldRows, StepName, Replacement, DiskMatches, Logged;
    var i := run.pc.index;
    LoggedIsStored(run);
    var row := Intent(StepName(run.restoring, i), OperationOf(run.restoring), run.state);
    if !Step(run).pc.Failed? {
      IntentFolds(run.state, StepName(run.restoring, i), OperationOf(run.restoring), |Own(run).journal.value.rows| + 1, Own(run).states);
      RowKeepsLogged(run, row, Rewrite(i));
    }
  }

  lemma ConfirmKeepsLogged(run: Run)
    requires Tandem(run) && Logged(run) && run.pc.Confirm?
    ensures Logged(Step(run)) || Step(run) == run.(pc := Failed)
  {
    hide FoldRow, FoldRows, StepName, DiskMatches, Next;
    var i := run.pc.index;
    var row := Result(StepName(run.restoring, i), OperationOf(run.restoring), true, run.state);
    NextIs(run.restoring, run.state, i + 1);
    ResultFolds(run.state, run.restoring, i, |Own(run).journal.value.rows| + 1, Own(run).states);
    RowKeepsLogged(run, row, Next(run.restoring, run.state, i + 1));
  }

  lemma CheckpointKeepsLogged(run: Run)
    requires Logged(run) && run.pc.Checkpoint?
    requires ValidPlan(run.plan)
    ensures Logged(Step(run)) || Step(run) == run.(pc := Failed)
  {
    hide FoldRow, FoldRows;
    CompleteFolds(run.state, |Own(run).journal.value.rows| + 1, Own(run).states);
    RowKeepsLogged(run, Complete(run.state), Finished);
  }

  lemma StepKeepsLogged(run: Run)
    requires Tandem(run) && Logged(run) && !run.pc.Failed?
    ensures Logged(Step(run)) || Step(run) == run.(pc := Failed)
  {
    match run.pc {
      case Announce(_) => AnnounceKeepsLogged(run);
      case Confirm(_) => ConfirmKeepsLogged(run);
      case Checkpoint => CheckpointKeepsLogged(run);
      case _ => QuietStepKeepsLogged(run);
    }
  }

  // Steps that append no row.
  lemma QuietStepKeepsLogged(run: Run)
    requires Tandem(run) && Logged(run) && !run.pc.Failed? && !run.pc.Announce? && !run.pc.Confirm? && !run.pc.Checkpoint?
    ensures Logged(Step(run)) || Step(run) == run.(pc := Failed)
  {
    hide FoldRow, FoldRows, Replacement, DiskMatches, Next;
    match run.pc {
      case OpenJournal =>
        NextIs(run.restoring, run.state, 0);
        EmptyFold(run.start, Own(run).states);
      case Rewrite(i) =>
        assert run.state[i := !run.restoring][i := run.restoring] == run.state;
      case SaveState(i) =>
        var rows := Own(run).journal.value.rows;
        FoldIgnoresLater(run.start, rows, Own(run).states, |rows| + 1, run.state);
      case _ =>
    }
  }

  lemma IntentFolds(state: State, step: string, operation: Operation, sequence: nat, states: map<nat, State>)
    ensures FoldRow(state, Intent(step, operation, state), sequence, states) == Ok(state)
  {
  }

  lemma CompleteFolds(state: State, sequence: nat, states: map<nat, State>)
    ensures FoldRow(state, Complete(state), sequence, states) == Ok(state)
  {
  }

  lemma EmptyFold(start: State, states: map<nat, State>)
    ensures FoldRows(start, [], states) == Ok(start)
  {
  }

  // A run with no other writer never fails a check, as long as its saved originals are there.
  ghost predicate Backed(run: Run) {
    run.restoring ==> run.origin != run.name && run.origin in run.store && run.store[run.origin].originals == run.plan.before
  }

  lemma StepNeverFails(run: Run)
    requires Tandem(run) && Logged(run) && Backed(run) && !run.pc.Failed?
    ensures !Step(run).pc.Failed? && Backed(Step(run))
  {
    match run.pc {
      case OpenJournal => NextIs(run.restoring, run.state, 0);
      case Confirm(i) => NextIs(run.restoring, run.state, i + 1);
      case _ =>
    }
  }

  ghost predicate Sound(run: Run) {
    !run.pc.Failed? && Tandem(run) && Logged(run) && Backed(run)
  }

  // After every number of steps the invariant holds; only the run's own record and the seven files change.
  lemma {:induction false} DriveKeepsSound(run: Run, steps: nat)
    requires Sound(run) && ValidPlan(run.plan)
    decreases steps
    ensures var after := Drive(run, steps);
      && Sound(after)
      && after.name == run.name && after.plan == run.plan && after.start == run.start && after.restoring == run.restoring
      && after.store.Keys == run.store.Keys
      && (forall other :: other in run.store && other != run.name ==> after.store[other] == run.store[other])
      && Own(after).source == Own(run).source
  {
    assert ValidPlan(run.plan);
    hide Tandem, Logged, Step;
    if steps > 0 && !run.pc.Finished? {
      SoundStep(run);
      DriveKeepsSound(Step(run), steps - 1);
    }
  }

  lemma SoundStep(run: Run)
    requires Sound(run)
    ensures var after := Step(run);
      && Sound(after)
      && after.name == run.name && after.plan == run.plan && after.start == run.start && after.restoring == run.restoring
      && after.store.Keys == run.store.Keys
      && (forall other :: other in run.store && other != run.name ==> after.store[other] == run.store[other])
      && Own(after).source == Own(run).source
  {
    StepNeverFails(run);
    StepKeepsTandem(run);
    StepKeepsLogged(run);
    LoggedIsStored(run);
    SoundIsValid(run);
    hide Tandem, Logged, Backed, Step;
    StepFrame(run);
  }

  lemma StepFrame(run: Run)
    requires ValidPlan(run.plan) && run.name in run.store
    ensures var after := Step(run);
      && after.name == run.name && after.plan == run.plan && after.start == run.start && after.restoring == run.restoring
      && after.store.Keys == run.store.Keys
      && (forall other :: other in run.store && other != run.name ==> after.store[other] == run.store[other])
      && Own(after).source == Own(run).source
  {
    hide DiskMatches, FoldRows, Replacement, Next, StepName;
  }

  lemma SoundIsValid(run: Run)
    requires Sound(run)
    ensures ValidPlan(run.plan)
  {
  }

  lemma LoggedIsStored(run: Run)
    requires Logged(run)
    ensures run.name in run.store
  {
  }
}
