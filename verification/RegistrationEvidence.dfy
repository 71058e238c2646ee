// What the registration loader accepts, said of the stored rows and states alone.
module RegistrationEvidence {
  import opened Wrappers
  import opened Registration

  /** What one row says of the state before and after it: an intent and the checkpoint carry it unchanged; a result is
      the step of one of the seven files, and its own state file holds the state with that file's entry turned. */
  ghost predicate RowHolds(state: State, row: Row, sequence: nat, states: map<nat, State>, after: State) {
    match row
    case Intent(_, _, recorded) => recorded == state == after
    case Complete(recorded) => recorded == state == after
    case Result(step, operation, _, recorded) =>
      exists restoring, i :: 0 <= i < FILES && Turns(state, step, operation, recorded, restoring, i, after)
                             && sequence in states && states[sequence] == after
  }

  ghost predicate Turns(state: State, step: string, operation: Operation, recorded: State, restoring: bool, i: nat, after: State)
    requires i < FILES
  {
    && step == StepName(restoring, i) && operation == (if restoring then RestoreOp else ManifestOp)
    && recorded == after && after[i] == !restoring
    && forall k :: 0 <= k < FILES && k != i ==> after[k] == state[k]
  }

  // The states a journal goes through.
  ghost predicate IsHistory(path: seq<State>, rows: seq<Row>, states: map<nat, State>) {
    |path| == |rows| + 1 && forall k :: 0 <= k < |rows| ==> RowHolds(path[k], rows[k], k + 1, states, path[k + 1])
  }

  // A step name is read back as what it was written from, and nothing else is a step.
  lemma StepIsName(step: string)
    ensures StepIndex(step).Some? ==> step == StepName(StepIndex(step).value.0, StepIndex(step).value.1)
  {
    if StepIndex(step).Some? {
      var (restoring, i) := StepIndex(step).value;
      assert step[..8] == if restoring then "restore." else "replace.";
      assert "0123456"[i] == step[8];
      assert step == step[..8] + [step[8]];
    }
  }

  lemma RowIsAccepted(state: State, row: Row, sequence: nat, states: map<nat, State>, after: State)
    ensures FoldRow(state, row, sequence, states) == Ok(after) <==> RowHolds(state, row, sequence, states, after)
  {
    if row.Result? {
      StepIsName(row.step);
      if FoldRow(state, row, sequence, states) == Ok(after) {
        var (restoring, i) := StepIndex(row.step).value;
        assert Turns(state, row.step, row.operation, row.state, restoring, i, after);
      }
      forall restoring, i: nat | i < FILES && Turns(state, row.step, row.operation, row.state, restoring, i, after)
        ensures StepIndex(row.step) == Some((restoring, i)) && after == state[i := !restoring]
      {
        StepIndexOfName(restoring, i);
        assert after == state[i := !restoring];
      }
    }
  }

  lemma {:induction false} FoldIsHistory(start: State, rows: seq<Row>, states: map<nat, State>) returns (path: seq<State>)
    requires FoldRows(start, rows, states).Ok?
    ensures IsHistory(path, rows, states) && path[0] == start && path[|rows|] == FoldRows(start, rows, states).value
    decreases |rows|
  {
    hide FoldRow, RowHolds;
    if rows == [] {
      path := [start];
    } else {
      var n := |rows| - 1;
      var before := FoldIsHistory(start, rows[..n], states);
      var after := FoldRows(start, rows, states).value;
      RowIsAccepted(before[n], rows[n], n + 1, states, after);
      path := before + [after];
      forall k | 0 <= k < |rows| ensures RowHolds(path[k], rows[k], k + 1, states, path[k + 1]) {
        if k < n {
          assert RowHolds(before[k], rows[..n][k], k + 1, states, before[k + 1]);
        }
      }
    }
  }

  lemma {:induction false} HistoryFolds(path: seq<State>, rows: seq<Row>, states: map<nat, State>)
    requires path != [] && IsHistory(path, rows, states)
    ensures FoldRows(path[0], rows, states) == Ok(path[|rows|])
    decreases |rows|
  {
    hide FoldRow, RowHolds;
    if rows != [] {
      var n := |rows| - 1;
      forall k | 0 <= k < n ensures RowHolds(path[..|rows|][k], rows[..n][k], k + 1, states, path[..|rows|][k + 1]) {
        assert RowHolds(path[k], rows[k], k + 1, states, path[k + 1]);
      }
      HistoryFolds(path[..|rows|], rows[..n], states);
      assert RowHolds(path[n], rows[n], n + 1, states, path[n + 1]);
      RowIsAccepted(path[n], rows[n], n + 1, states, path[n + 1]);
    }
  }

  /** Rows are accepted, with a state, exactly if they go through states that end there: each result turns the entry of
      one file, under its own step and with its own state file, and nothing else. */
  lemma AcceptedExactly(start: State, rows: seq<Row>, states: map<nat, State>, end: State)
    ensures FoldRows(start, rows, states) == Ok(end)
      <==> (exists path :: IsHistory(path, rows, states) && path[0] == start && path[|rows|] == end)
  {
    hide FoldRows, FoldRow, RowHolds;
    if FoldRows(start, rows, states) == Ok(end) {
      var path := FoldIsHistory(start, rows, states);
    }
    forall path | IsHistory(path, rows, states) && path[0] == start && path[|rows|] == end
      ensures FoldRows(start, rows, states) == Ok(end)
    {
      HistoryFolds(path, rows, states);
    }
  }

  // Neither torn nor pending, and the last result is confirmed.
  predicate Settled(journal: Journal) {
    && !journal.torn
    && (journal.rows != [] ==> !journal.rows[|journal.rows| - 1].Intent?
                               && (journal.rows[|journal.rows| - 1].Result? ==> journal.rows[|journal.rows| - 1].confirmed))
  }

  // A first run is what its plan and its saved originals say; a later one starts where its source ended, with the
  // evidence it was reviewed on.
  ghost predicate Vouched(own: Stored, plan: Plan, source: Option<History>, end: State) {
    && own.plan == plan && own.journal.Some? && Settled(own.journal.value)
    && (own.source.None? <==> source.None?)
    && (source.None? ==> own.originals == plan.before)
    && (source.Some? ==>
          && own.source.value.evidence == source.value.evidence && own.source.value.start == source.value.state
          && own.source.value.origin == source.value.origin)
    && exists path :: IsHistory(path, own.journal.value.rows, own.states)
         && path[0] == (if source.None? then ALL_ORIGINAL else source.value.state) && path[|own.journal.value.rows|] == end
  }

  lemma SettledIsReadable(journal: Journal)
    ensures Settled(journal) <==> Readable(journal)
  {
  }

  // The history a run goes on with.
  function Extended(own: Stored, plan: Plan, run: RunName, source: Option<History>, end: State): History {
    if source.None? then History(plan, run, end, Evidence(None, own, end), [run])
    else History(plan, source.value.origin, end, Evidence(Some(source.value.evidence), own, end), source.value.runs + [run])
  }

  lemma FirstExactly(store: Store, run: RunName, plan: Plan, seen: set<RunName>, end: State)
    requires |seen| < 8 && run !in seen && run in store && store[run].source.None?
    ensures LoadHistory(store, run, plan, seen) == Ok(Extended(store[run], plan, run, None, end)) <==> Vouched(store[run], plan, None, end)
    ensures LoadHistory(store, run, plan, seen).Ok? ==>
      LoadHistory(store, run, plan, seen).value == Extended(store[run], plan, run, None, LoadHistory(store, run, plan, seen).value.state)
  {
    hide FoldRows, IsHistory, Readable, Settled;
    var own := store[run];
    if own.journal.Some? {
      SettledIsReadable(own.journal.value);
      AcceptedExactly(ALL_ORIGINAL, own.journal.value.rows, own.states, end);
    }
  }

  lemma LaterExactly(store: Store, run: RunName, plan: Plan, seen: set<RunName>, end: State)
    requires |seen| < 8 && run !in seen && run in store && store[run].source.Some?
    requires LoadHistory(store, store[run].source.value.run, plan, seen + {run}).Ok?
    ensures var source := LoadHistory(store, store[run].source.value.run, plan, seen + {run}).value;
      LoadHistory(store, run, plan, seen) == Ok(Extended(store[run], plan, run, Some(source), end)) <==> Vouched(store[run], plan, Some(source), end)
    ensures LoadHistory(store, run, plan, seen).Ok? ==>
      var source := LoadHistory(store, store[run].source.value.run, plan, seen + {run}).value;
      LoadHistory(store, run, plan, seen).value == Extended(store[run], plan, run, Some(source), LoadHistory(store, run, plan, seen).value.state)
  {
    hide FoldRows, IsHistory, Readable, Settled;
    var own := store[run];
    if own.journal.Some? {
      SettledIsReadable(own.journal.value);
      AcceptedExactly(own.source.value.start, own.journal.value.rows, own.states, end);
    }
  }

  // The history of the run a run was started from, if any.
  function SourceOf(store: Store, run: RunName, plan: Plan, seen: set<RunName>): Result<Option<History>>
    requires run in store && |seen| < 8 && run !in seen
  {
    if store[run].source.None? then Ok(None)
    else
      var source :- LoadHistory(store, store[run].source.value.run, plan, seen + {run});
      Ok(Some(source))
  }

  /** Whatever was stored: within the bound, a run is accepted exactly if it is vouched for by its plan, its saved
      originals or the history of its source, and its rows; and then the history goes on with it. */
  lemma HistoryExactly(store: Store, run: RunName, plan: Plan, seen: set<RunName>, end: State)
    requires |seen| < 8 && run !in seen && run in store && SourceOf(store, run, plan, seen).Ok?
    ensures var source := SourceOf(store, run, plan, seen).value;
      LoadHistory(store, run, plan, seen) == Ok(Extended(store[run], plan, run, source, end)) <==> Vouched(store[run], plan, source, end)
    ensures LoadHistory(store, run, plan, seen).Ok? ==>
      var source := SourceOf(store, run, plan, seen).value;
      LoadHistory(store, run, plan, seen).value == Extended(store[run], plan, run, source, LoadHistory(store, run, plan, seen).value.state)
  {
    hide Vouched, LoadHistory;
    if store[run].source.None? {
      FirstExactly(store, run, plan, seen, end);
    } else {
      LaterExactly(store, run, plan, seen, end);
    }
  }
}
