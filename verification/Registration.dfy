// Registration migration and its recovery chain (registrationMigration.ts): seven configuration files,
// atomic replacement, and runs that may stop after any atomic step.
module Registration {
  import opened Wrappers

  const FILES: nat := 7

  type Content = string
  type RunName = string

  // Which of the seven files hold the edited bytes.
  type State = s: seq<bool> | |s| == 7 witness [false, false, false, false, false, false, false]

  const ALL_ORIGINAL: State := [false, false, false, false, false, false, false]

  datatype Plan = Plan(before: seq<Content>, after: seq<Content>)

  // Seven files, each changed by its edit.
  predicate ValidPlan(plan: Plan) {
    |plan.before| == FILES && |plan.after| == FILES && forall i :: 0 <= i < FILES ==> plan.before[i] != plan.after[i]
  }

  // ---- What a run stores ----

  datatype Operation = ManifestOp | RestoreOp | OtherOp

  // Digests are treated as injective, so a row carries the value it was taken of.
  datatype Row =
    | Intent(step: string, operation: Operation, state: State)
    | Result(step: string, operation: Operation, confirmed: bool, state: State)
    | Complete(state: State)

  datatype Journal = Journal(rows: seq<Row>, torn: bool)

  datatype Source = Source(run: RunName, evidence: Evidence, origin: RunName, start: State)

  datatype Stored = Stored(plan: Plan, source: Option<Source>, originals: seq<Content>, journal: Option<Journal>, states: map<nat, State>)

  // The digest over everything a history was read from, and the state it led to.
  datatype Evidence = Evidence(parent: Option<Evidence>, read: Stored, state: State)

  type Store = map<RunName, Stored>

  // ---- loadHistory ----

  predicate Readable(journal: Journal) {
    && !journal.torn
    && (journal.rows == [] || match journal.rows[|journal.rows| - 1]
                              case Intent(_, _, _) => false
                              case Result(_, _, confirmed, _) => confirmed
                              case Complete(_) => true)
  }

  function StepName(restoring: bool, i: nat): string
    requires i < FILES
  {
    (if restoring then "restore." else "replace.") + ["0123456"[i]]
  }

  // The step pattern: replace or restore, and one digit up to six.
  function StepIndex(step: string): (r: Option<(bool, nat)>)
    ensures r.Some? ==> r.value.1 < FILES
  {
    if |step| == 9 && '0' <= step[8] <= '6' && step[..8] in ["replace.", "restore."] then
      Some((step[..8] == "restore.", step[8] as int - '0' as int))
    else None
  }

  lemma StepIndexOfName(restoring: bool, i: nat)
    requires i < FILES
    ensures StepIndex(StepName(restoring, i)) == Some((restoring, i))
  {
    var step := StepName(restoring, i);
    var prefix := if restoring then "restore." else "replace.";
    assert step[..8] == prefix;
    assert "0123456"[i] as int - '0' as int == i;
    assert prefix[2] == if restoring then 's' else 'p';
    assert ["replace.", "restore."][if restoring then 1 else 0] == prefix;
  }

  function FoldRow(state: State, row: Row, sequence: nat, states: map<nat, State>): Result<State> {
    match row
    case Intent(_, _, recorded) => if recorded == state then Ok(state) else Err("registration_source_intent_changed")
    case Complete(recorded) => if recorded == state then Ok(state) else Err("registration_checkpoint_changed")
    case Result(step, operation, _, recorded) =>
      match StepIndex(step)
      case None => Err("registration_source_step_invalid")
      case Some((restoring, i)) =>
        if operation != (if restoring then RestoreOp else ManifestOp) then Err("registration_source_operation_invalid")
        else
          var next := state[i := !restoring];
          if sequence in states && recorded == states[sequence] && states[sequence] == next then Ok(next)
          else Err("registration_source_state_changed")
  }

  function FoldRows(start: State, rows: seq<Row>, states: map<nat, State>): Result<State> {
    if rows == [] then Ok(start)
    else
      var before :- FoldRows(start, rows[..|rows| - 1], states);
      FoldRow(before, rows[|rows| - 1], |rows|, states)
  }

  datatype History = History(plan: Plan, origin: RunName, state: State, evidence: Evidence, runs: seq<RunName>)

  /** Reads a run over the run it was started from. A run is read at most once, and at most eight are. */
  function LoadHistory(store: Store, run: RunName, plan: Plan, seen: set<RunName>): Result<History>
    decreases 8 - |seen|
  {
    if |seen| >= 8 || run in seen then Err("registration_source_cycle_or_bound")
    else if run !in store || store[run].journal.None? then Err("global_journal_missing")
    else
      var own := store[run];
      if own.plan != plan then Err("registration_source_plan_changed")
      else if !Readable(own.journal.value) then Err("registration_source_pending_torn_or_unknown")
      else match own.source
        case None =>
          var state :- FoldRows(ALL_ORIGINAL, own.journal.value.rows, own.states);
          if own.originals != plan.before then Err("registration_file_changed")
          else Ok(History(plan, run, state, Evidence(None, own, state), [run]))
        case Some(source) =>
          var parent :- LoadHistory(store, source.run, plan, seen + {run});
          if parent.evidence != source.evidence then Err("registration_source_evidence_changed")
          else if source.start != parent.state then Err("registration_source_seed_changed")
          else if source.origin != parent.origin then Err("registration_source_origin_changed")
          else
            var state :- FoldRows(source.start, own.journal.value.rows, own.states);
            Ok(History(plan, parent.origin, state, Evidence(Some(parent.evidence), own, state), parent.runs + [run]))
  }

  // One turn of the loop below: the checks on a journal row, in the order the source makes them.
  method ReplayRow(state: State, row: Row, sequence: nat, states: map<nat, State>) returns (outcome: Result<State>)
    ensures outcome == FoldRow(state, row, sequence, states)
  {
    match row {
      case Intent(_, _, recorded) =>
        return if recorded == state then Ok(state) else Err("registration_source_intent_changed");
      case Complete(recorded) =>
        return if recorded == state then Ok(state) else Err("registration_checkpoint_changed");
      case Result(step, operation, _, recorded) =>
        var index := StepIndex(step);
        if index.None? {
          return Err("registration_source_step_invalid");
        }
        var (restoring, i) := index.value;
        if operation != (if restoring then RestoreOp else ManifestOp) {
          return Err("registration_source_operation_invalid");
        }
        var next: State := state[i := !restoring];
        if sequence !in states || recorded != states[sequence] || states[sequence] != next {
          return Err("registration_source_state_changed");
        }
        return Ok(next);
    }
  }

  /** The loop of loadHistory, flipping entries of the replayed state in place. */
  method ReplayRows(start: State, rows: seq<Row>, states: map<nat, State>) returns (outcome: Result<State>)
    ensures outcome == FoldRows(start, rows, states)
  {
    hide FoldRow;
    var state := start;
    var k := 0;
    assert rows[..0] == [];
    while k < |rows|
      invariant 0 <= k <= |rows|
      invariant FoldRows(start, rows[..k], states) == Ok(state)
    {
      assert rows[..k + 1][..k] == rows[..k];
      var replayed := ReplayRow(state, rows[k], k + 1, states);
      if replayed.Err? {
        FailedRow(start, rows, states, k);
        return replayed;
      }
      state := replayed.value;
      k := k + 1;
    }
    assert rows[..k] == rows;
    return Ok(state);
  }

  lemma {:induction false} FailedRow(start: State, rows: seq<Row>, states: map<nat, State>, k: nat)
    requires k < |rows| && FoldRows(start, rows[..k + 1], states).Err?
    ensures FoldRows(start, rows, states) == FoldRows(start, rows[..k + 1], states)
    decreases |rows|
  {
    if k + 1 == |rows| {
      assert rows[..k + 1] == rows;
    } else {
      assert rows[..|rows| - 1][..k + 1] == rows[..k + 1];
      FailedRow(start, rows[..|rows| - 1], states, k);
    }
  }

  /** The recursive loader as the source runs it. */
  method Load(store: Store, run: RunName, plan: Plan, seen: set<RunName>) returns (outcome: Result<History>)
    ensures outcome == LoadHistory(store, run, plan, seen)
    decreases 8 - |seen|
  {
    if |seen| >= 8 || run in seen {
      return Err("registration_source_cycle_or_bound");
    }
    if run !in store || store[run].journal.None? {
      return Err("global_journal_missing");
    }
    var own := store[run];
    if own.plan != plan {
      return Err("registration_source_plan_changed");
    }
    if !Readable(own.journal.value) {
      return Err("registration_source_pending_torn_or_unknown");
    }
    var start: State := ALL_ORIGINAL;
    var parent: Option<History> := None;
    if own.source.Some? {
      var source := own.source.value;
      var loaded := Load(store, source.run, plan, seen + {run});
      if loaded.Err? {
        return loaded;
      }
      if loaded.value.evidence != source.evidence {
        return Err("registration_source_evidence_changed");
      }
      if source.start != loaded.value.state {
        return Err("registration_source_seed_changed");
      }
      if source.origin != loaded.value.origin {
        return Err("registration_source_origin_changed");
      }
      parent, start := Some(loaded.value), source.start;
    }
    var replayed := ReplayRows(start, own.journal.value.rows, own.states);
    if replayed.Err? {
      return Err(replayed.error);
    }
    var state := replayed.value;
    if parent.None? {
      if own.originals != plan.before {
        return Err("registration_file_changed");
      }
      return Ok(History(plan, run, state, Evidence(None, own, state), [run]));
    }
    return Ok(History(plan, parent.value.origin, state, Evidence(Some(parent.value.evidence), own, state), parent.value.runs + [run]));
  }

  // The runs an accepted history visits, oldest first.
  ghost predicate Linked(store: Store, runs: seq<RunName>) {
    && runs != []
    && (forall i :: 0 <= i < |runs| ==> runs[i] in store)
    && store[runs[0]].source.None?
    && (forall i :: 0 < i < |runs| ==> store[runs[i]].source.Some? && store[runs[i]].source.value.run == runs[i - 1])
    && (forall i, k :: 0 <= i < k < |runs| ==> runs[i] != runs[k])
  }

  /** On any graph of source links, cyclic ones included, loading ends; an accepted history is a path of
      at most eight different runs down to a migration, which is its origin. */
  lemma {:induction false} AcceptedHistoryIsAcyclic(store: Store, run: RunName, plan: Plan, seen: set<RunName>)
    requires LoadHistory(store, run, plan, seen).Ok?
    ensures var h := LoadHistory(store, run, plan, seen).value;
      && Linked(store, h.runs) && h.runs[0] == h.origin && h.runs[|h.runs| - 1] == run
      && |seen| + |h.runs| <= 8
      && forall i :: 0 <= i < |h.runs| ==> h.runs[i] !in seen
    decreases 8 - |seen|
  {
    if store[run].source.Some? {
      var parent := store[run].source.value.run;
      AcceptedHistoryIsAcyclic(store, parent, plan, seen + {run});
      var below := LoadHistory(store, parent, plan, seen + {run}).value.runs;
      forall i, k | 0 <= i < k < |below + [run]| ensures (below + [run])[i] != (below + [run])[k] {
        if k == |below| {
          assert below[i] !in seen + {run};
        }
      }
    }
  }
}
