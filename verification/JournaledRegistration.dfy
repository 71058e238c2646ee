// A registration run through the hash-chained journal (registrationMigration.ts, managedGlobalJournal.ts).
module JournaledRegistration {
  import opened Wrappers
  import opened Registration
  import opened RegistrationRuns
  import M = MutationJournal
  import JournalLaws

  // Files are rewritten under "manifest" and restored under "restore".
  function OperationName(op: Operation): M.Operation {
    if op.RestoreOp? then M.Restore else M.Manifest
  }

  // `hash` stands for SHA-256 of the JSON of a state.
  function EventOf(row: Row, hash: State -> string): M.Event {
    match row
    case Intent(step, operation, state) => M.IntentEvent(step, OperationName(operation), hash(state))
    case Result(step, operation, confirmed, state) => M.ResultEvent(step, OperationName(operation), confirmed, Some(hash(state)))
    case Complete(state) => M.CompleteEvent(hash(state))
  }

  function EventsOf(rows: seq<Row>, hash: State -> string): (events: seq<M.Event>)
    ensures |events| == |rows|
  {
    seq(|rows|, i requires 0 <= i < |rows| => EventOf(rows[i], hash))
  }

  ghost predicate Hashes(c: M.Codec, hash: State -> string) {
    forall x :: c.isDigest(hash(x))
  }

  lemma EventsExtend(rows: seq<Row>, row: Row, hash: State -> string)
    ensures EventsOf(rows + [row], hash) == EventsOf(rows, hash) + [EventOf(row, hash)]
  {
  }

  ghost predicate LegalAs(c: M.Codec, rows: seq<Row>, hash: State -> string, status: M.Status) {
    JournalLaws.Legal(c, EventsOf(rows, hash)) && JournalLaws.StatusOf(EventsOf(rows, hash)) == status
  }

  // Every announced step is that of one of the first n files.
  predicate Below(rows: seq<Row>, restoring: bool, n: nat) {
    forall k :: 0 <= k < |rows| && rows[k].Intent? ==>
      StepIndex(rows[k].step).Some? && StepIndex(rows[k].step).value.0 == restoring && StepIndex(rows[k].step).value.1 < n
  }

  // What a run's position says about its journal.
  ghost predicate Written(c: M.Codec, rows: seq<Row>, hash: State -> string, restoring: bool, pc: Pc) {
    match pc
    case Backup(_) => false
    case OpenJournal => false
    case Announce(i) => i < FILES && LegalAs(c, rows, hash, M.Ready) && Below(rows, restoring, i) && |rows| <= 2 * i
    case Checkpoint => LegalAs(c, rows, hash, M.Ready) && |rows| <= 2 * FILES
    case Finished => LegalAs(c, rows, hash, M.Completed) && |rows| <= 2 * FILES + 1
    case Failed => JournalLaws.Legal(c, EventsOf(rows, hash)) && |rows| <= 2 * FILES + 1
    case _ =>
      && pc.index < FILES && LegalAs(c, rows, hash, M.Pending) && Below(rows, restoring, pc.index + 1) && |rows| <= 2 * pc.index + 1
      && rows != [] && rows[|rows| - 1].Intent? && rows[|rows| - 1].step == StepName(restoring, pc.index)
      && rows[|rows| - 1].operation == OperationOf(restoring)
  }

  ghost predicate Journaled(c: M.Codec, hash: State -> string, run: Run) {
    run.name in run.store && (Own(run).journal.Some? ==> Written(c, Own(run).journal.value.rows, hash, run.restoring, run.pc))
  }

  lemma StepNameIsStep(restoring: bool, i: nat)
    requires i < FILES
    ensures M.ValidStep(StepName(restoring, i))
  {
    var digits := "0123456";
    assert digits == ['0', '1', '2', '3', '4', '5', '6'];
    assert "replace." == ['r', 'e', 'p', 'l', 'a', 'c', 'e', '.'] && "restore." == ['r', 'e', 's', 't', 'o', 'r', 'e', '.'];
  }

  lemma BelowIsUnannounced(rows: seq<Row>, hash: State -> string, restoring: bool, i: nat)
    requires i < FILES && Below(rows, restoring, i)
    ensures !JournalLaws.Announced(EventsOf(rows, hash), StepName(restoring, i))
  {
    hide StepIndex, StepName;
    StepIndexOfName(restoring, i);
    assert forall k :: 0 <= k < |rows| ==> EventsOf(rows, hash)[k] == EventOf(rows[k], hash);
  }

  lemma AnnounceIsWritten(c: M.Codec, hash: State -> string, rows: seq<Row>, restoring: bool, i: nat, state: State)
    requires Written(c, rows, hash, restoring, Announce(i)) && Hashes(c, hash) && i < FILES
    ensures Written(c, rows + [Intent(StepName(restoring, i), OperationOf(restoring), state)], hash, restoring, Rewrite(i))
  {
    hide M.ValidStep, JournalLaws.Legal, JournalLaws.StatusOf, JournalLaws.Announced, EventsOf, StepIndex, StepName;
    var intent := Intent(StepName(restoring, i), OperationOf(restoring), state);
    StepNameIsStep(restoring, i);
    StepIndexOfName(restoring, i);
    EventsExtend(rows, intent, hash);
    BelowIsUnannounced(rows, hash, restoring, i);
    JournalLaws.IntentIsLegal(c, EventsOf(rows, hash), EventOf(intent, hash));
  }

  lemma ConfirmIsWritten(c: M.Codec, hash: State -> string, rows: seq<Row>, restoring: bool, i: nat, state: State, next: Pc)
    requires Written(c, rows, hash, restoring, Confirm(i)) && Hashes(c, hash)
    requires next.Checkpoint? || (next.Announce? && i < next.index < FILES)
    ensures Written(c, rows + [Result(StepName(restoring, i), OperationOf(restoring), true, state)], hash, restoring, next)
  {
    hide M.ValidStep, JournalLaws.Legal, JournalLaws.Announced, StepIndex, StepName;
    var result := Result(StepName(restoring, i), OperationOf(restoring), true, state);
    StepNameIsStep(restoring, i);
    EventsExtend(rows, result, hash);
    var events := EventsOf(rows, hash);
    assert events[|events| - 1] == EventOf(rows[|rows| - 1], hash);
    JournalLaws.LegalExtends(c, events, EventOf(result, hash));
  }

  lemma CheckpointIsWritten(c: M.Codec, hash: State -> string, rows: seq<Row>, restoring: bool, state: State)
    requires Written(c, rows, hash, restoring, Checkpoint) && Hashes(c, hash)
    ensures Written(c, rows + [Complete(state)], hash, restoring, Finished)
  {
    hide JournalLaws.Legal, JournalLaws.StatusOf, EventsOf;
    EventsExtend(rows, Complete(state), hash);
    JournalLaws.CompleteIsLegal(c, EventsOf(rows, hash), EventOf(Complete(state), hash));
  }

  lemma OpenIsWritten(c: M.Codec, hash: State -> string, restoring: bool, next: Pc)
    requires next.Checkpoint? || (next.Announce? && next.index < FILES)
    ensures Written(c, [], hash, restoring, next)
  {
  }

  lemma StepIsJournaled(c: M.Codec, hash: State -> string, run: Run)
    requires ValidPlan(run.plan) && Journaled(c, hash, run) && Hashes(c, hash)
    requires !run.pc.Failed? && !run.pc.Finished?
    ensures Journaled(c, hash, Step(run))
  {
    hide LegalAs, Below, Replacement, Checked, DiskMatches, Expected, Next, Hashes, JournalLaws.Legal, StepName;
    if InProgress(run) {
      match run.pc {
        case OpenJournal =>
          NextIs(run.restoring, run.state, 0);
          OpenIsWritten(c, hash, run.restoring, Next(run.restoring, run.state, 0));
        case Announce(i) =>
          AnnounceIsWritten(c, hash, Own(run).journal.value.rows, run.restoring, i, run.state);
        case Confirm(i) =>
          NextIs(run.restoring, run.state, i + 1);
          ConfirmIsWritten(c, hash, Own(run).journal.value.rows, run.restoring, i, run.state, Next(run.restoring, run.state, i + 1));
        case Checkpoint =>
          CheckpointIsWritten(c, hash, Own(run).journal.value.rows, run.restoring, run.state);
        case _ =>
      }
    }
    FailedIsWritten(c, hash, run);
  }

  // A failed check leaves the journal as it is.
  lemma FailedIsWritten(c: M.Codec, hash: State -> string, run: Run)
    requires Journaled(c, hash, run)
    ensures Journaled(c, hash, run.(pc := Failed))
  {
    hide Below, StepName, JournalLaws.Legal, JournalLaws.StatusOf;
  }

  lemma {:induction false} RunIsJournaled(c: M.Codec, hash: State -> string, run: Run, steps: nat)
    requires ValidPlan(run.plan) && Journaled(c, hash, run) && Hashes(c, hash)
    ensures Journaled(c, hash, Drive(run, steps))
    decreases steps
  {
    hide Journaled, Hashes, Step;
    if steps > 0 && !run.pc.Finished? && !run.pc.Failed? {
      StepIsJournaled(c, hash, run);
      StepKeepsPlan(run);
      RunIsJournaled(c, hash, Step(run), steps - 1);
    }
  }

  function StatusName(pc: Pc): M.Status {
    if pc.Finished? then M.Completed else if pc.Rewrite? || pc.SaveState? || pc.Confirm? then M.Pending else M.Ready
  }

  /** However many steps a registration run lives, the writer accepts every row, and the bytes parse to exactly
      those rows with the status of where the run stood. */
  lemma RegistrationIsJournaled(c: M.Codec, header: M.Header, plan: string, hash: State -> string, run: Run, steps: nat)
    requires JournalLaws.Compact(c) && M.ValidHeader(c, header, plan) && Hashes(c, hash)
    requires ValidPlan(run.plan) && run.name in run.store && Own(run).journal.None?
    ensures var end := Drive(run, steps);
      && end.name in end.store
      && (Own(end).journal.Some? ==>
            var events := EventsOf(Own(end).journal.value.rows, hash);
            var (bytes, accepted) := M.WriteAll(c, M.HeaderBytes(c, header), plan, events);
            && accepted == events
            && M.Parse(c, bytes, plan).Ok?
            && M.EventsOf(M.Parse(c, bytes, plan).value.records) == events
            && (!end.pc.Failed? ==> M.Parse(c, bytes, plan).value.status == StatusName(end.pc)))
  {
    hide Drive, JournalLaws.Compact, M.ValidHeader, M.WriteAll, M.Parse, Hashes, M.HeaderBytes, JournalLaws.Legal, JournalLaws.StatusOf, Below, StepName;
    RunIsJournaled(c, hash, run, steps);
    var end := Drive(run, steps);
    if Own(end).journal.Some? {
      JournalLaws.WriterAcceptsLegal(c, header, plan, EventsOf(Own(end).journal.value.rows, hash));
    }
  }
}
