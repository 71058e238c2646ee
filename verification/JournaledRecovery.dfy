// A recovery run through the hash-chained journal: the writer takes every row, and the bytes read back say
// how the run ended (managedGlobalRecoveryExecution.ts, managedGlobalJournal.ts).
module JournaledRecovery {
  import opened Wrappers
  import opened GuardedFiles
  import opened RecoveryModel
  import opened RecoverySafety
  import opened ObjectCheck
  import opened RecoveryExecution
  import opened RecoveryRuns
  import M = MutationJournal
  import JournalLaws

  function OperationName(op: Operation): M.Operation {
    match op
    case RetainOp => M.Retain
    case WorkingCopyOp => M.WorkingCopy
    case UninstallOp => M.Uninstall
    case WrapperOp => M.Wrapper
    case RestoreOp => M.Restore
    case ManifestOp => M.Manifest
  }

  // `hash` stands for SHA-256 of the JSON of what a digest is taken of.
  function EventOf(row: JournalRow, hash: Digest -> string): M.Event {
    match row
    case Intent(step, operation, digest) => M.IntentEvent(step, OperationName(operation), hash(digest))
    case Result(step, operation, confirmed, digest) => M.ResultEvent(step, OperationName(operation), confirmed, Some(hash(digest)))
    case Complete(digest) => M.CompleteEvent(hash(digest))
  }

  function EventsOf(rows: seq<JournalRow>, hash: Digest -> string): (events: seq<M.Event>)
    ensures |events| == |rows|
  {
    seq(|rows|, i requires 0 <= i < |rows| => EventOf(rows[i], hash))
  }

  function StatusName(status: Status): M.Status {
    match status
    case Running => M.Ready
    case Stopped => M.Ready
    case Interrupted => M.Pending
    case Poisoned => M.Unknown
    case Completed => M.Completed
  }

  ghost predicate Hashes(c: M.Codec, hash: Digest -> string) {
    forall x :: c.isDigest(hash(x))
  }

  // Every step a run of this model can announce is a step name.
  ghost predicate StepsAreNames(m: Model) {
    forall s :: InModel(m, s) ==> M.ValidStep(SlotStep(m, s))
  }

  lemma ApplyKeepsNames(m: Model, o: Origin, target: string, a: Action, changed: nat)
    requires Dictated(m, o, target, a) && Applicable(m, a) && StepsAreNames(m)
    ensures StepsAreNames(Apply(m, a, changed)) && M.ValidStep(a.step)
  {
    hide M.ValidStep;
    var after := Apply(m, a, changed);
    assert InModel(m, a.slot) && SlotStep(m, a.slot) == a.step;
    forall s | InModel(after, s)
      ensures InModel(m, s) && SlotStep(after, s) == SlotStep(m, s)
    {
    }
  }

  // ---- One move ----

  lemma EventsExtend(rows: seq<JournalRow>, row: JournalRow, hash: Digest -> string)
    ensures EventsOf(rows + [row], hash) == EventsOf(rows, hash) + [EventOf(row, hash)]
  {
  }

  // A journal to which a new operation may be added.
  ghost predicate Open(c: M.Codec, rows: seq<JournalRow>, hash: Digest -> string) {
    JournalLaws.Open(c, EventsOf(rows, hash))
  }

  ghost predicate Unannounced(rows: seq<JournalRow>, step: string) {
    forall i :: 0 <= i < |rows| && rows[i].Intent? ==> rows[i].step != step
  }

  lemma NotAnnounced(rows: seq<JournalRow>, hash: Digest -> string, step: string)
    requires Unannounced(rows, step)
    ensures !JournalLaws.Announced(EventsOf(rows, hash), step)
  {
    assert forall i :: 0 <= i < |rows| ==> EventsOf(rows, hash)[i] == EventOf(rows[i], hash);
  }

  lemma MoveIsLegal(c: M.Codec, rows: seq<JournalRow>, hash: Digest -> string, step: string, op: Operation, before: Digest, confirmed: bool, after: Digest)
    requires Open(c, rows, hash) && Hashes(c, hash) && M.ValidStep(step) && Unannounced(rows, step)
    ensures var events := EventsOf(rows + [Intent(step, op, before)], hash);
      JournalLaws.Legal(c, events) && JournalLaws.StatusOf(events) == M.Pending
    ensures var events := EventsOf(rows + [Intent(step, op, before)] + [Result(step, op, confirmed, after)], hash);
      JournalLaws.Legal(c, events) && JournalLaws.StatusOf(events) == if confirmed then M.Ready else M.Unknown
  {
    hide M.ValidStep, JournalLaws.Legal, JournalLaws.StatusOf, JournalLaws.Announced, EventsOf, JournalLaws.Open;
    var intent, result := Intent(step, op, before), Result(step, op, confirmed, after);
    EventsExtend(rows, intent, hash);
    EventsExtend(rows + [intent], result, hash);
    NotAnnounced(rows, hash, step);
    JournalLaws.OperationIsLegal(c, EventsOf(rows, hash), EventOf(intent, hash), EventOf(result, hash));
  }

  lemma AttemptIsLegal(c: M.Codec, hash: Digest -> string, run: Run, o: Origin, target: string, a: Action, e: Event)
    requires run.status == Running && Open(c, run.journal, hash) && Hashes(c, hash)
    requires Applicable(run.model, a) && M.ValidStep(a.step) && Unannounced(run.journal, a.step)
    ensures var next := Attempt(run, a, e);
      && JournalLaws.Legal(c, EventsOf(next.journal, hash))
      && JournalLaws.StatusOf(EventsOf(next.journal, hash)) == StatusName(next.status)
      && |next.journal| <= |run.journal| + 2
  {
    hide Verified, Apply, M.ValidStep, JournalLaws.Legal, JournalLaws.StatusOf, EventsOf, EndsAt, UnconfirmedRecord, ConfirmedRecord, Unannounced, Hashes;
    if !e.Refuse? {
      var at := EndsAt(run, a, e);
      var record := if at.None? then ConfirmedRecord(run.model, a, e.changed) else UnconfirmedRecord(run.model, a, at.value, e.changed);
      MoveIsLegal(c, run.journal, hash, a.step, a.operation, OfModel(run.model), at.None?, OfRecord(record));
    }
  }

  lemma CheckpointIsLegal(c: M.Codec, rows: seq<JournalRow>, hash: Digest -> string, digest: Digest)
    requires Open(c, rows, hash) && Hashes(c, hash)
    ensures var events := EventsOf(rows + [Complete(digest)], hash);
      JournalLaws.Legal(c, events) && JournalLaws.StatusOf(events) == M.Completed
  {
    hide JournalLaws.Legal, EventsOf;
    EventsExtend(rows, Complete(digest), hash);
    JournalLaws.CompleteIsLegal(c, EventsOf(rows, hash), EventOf(Complete(digest), hash));
  }

  // ---- A whole run ----

  lemma UsedIsNotDictated(run: Run, o: Origin, target: string, a: Action)
    requires WellFormed(run.model, o) && DistinctLeaves(o) && Dictated(run.model, o, target, a) && StepsUsed(run.model, run.journal)
    ensures Unannounced(run.journal, a.step)
  {
    hide WellFormed, Dictated, UsedBy;
    forall i | 0 <= i < |run.journal| && run.journal[i].Intent?
      ensures run.journal[i].step != a.step
    {
      DictatedStepIsNew(run.model, o, target, a, run.journal[i].step);
    }
  }

  lemma {:induction false} RunIsLegal(c: M.Codec, hash: Digest -> string, run: Run, o: Origin, target: string, script: seq<Event>)
    requires run.status == Running && Open(c, run.journal, hash) && Hashes(c, hash)
    requires WellFormed(run.model, o) && DistinctLeaves(o) && StepsAreNames(run.model)
    requires StepsUnique(run.journal) && StepsUsed(run.model, run.journal)
    ensures var final := Drive(run, o, target, script);
      && JournalLaws.Legal(c, EventsOf(final.journal, hash))
      && JournalLaws.StatusOf(EventsOf(final.journal, hash)) == StatusName(final.status)
      && |final.journal| <= |run.journal| + 2 * Outstanding(run.model) + 1
    decreases |script|
  {
    hide WellFormed, NextAction, StepsUnique, StepsUsed, Attempt, Dictated, JournalLaws.Legal, JournalLaws.StatusOf, EventsOf, StepsAreNames, M.ValidStep, Outstanding, Hashes, Verified, Applicable;
    if script != [] {
      var next := Step(run, o, target, script[0]);
      StepCases(run, o, target, script[0]);
      StepKeepsWellFormed(run, o, target, script[0]);
      if Outstanding(run.model) > 0 {
        DictatedIsLegal(c, hash, run, o, target, NextAction(run.model, o, target).action, script[0]);
      } else {
        CheckpointIsLegal(c, run.journal, hash, OfModel(run.model));
        assert next.status != Running;
      }
      if next.status == Running {
        RunIsLegal(c, hash, next, o, target, script[1..]);
      } else {
        DriveEnded(next, o, target, script[1..]);
      }
    }
  }

  lemma DictatedIsLegal(c: M.Codec, hash: Digest -> string, run: Run, o: Origin, target: string, a: Action, e: Event)
    requires run.status == Running && Open(c, run.journal, hash) && Hashes(c, hash)
    requires WellFormed(run.model, o) && DistinctLeaves(o) && StepsAreNames(run.model)
    requires StepsUnique(run.journal) && StepsUsed(run.model, run.journal)
    requires Dictated(run.model, o, target, a) && Applicable(run.model, a)
    ensures var next := Attempt(run, a, e);
      && JournalLaws.Legal(c, EventsOf(next.journal, hash))
      && JournalLaws.StatusOf(EventsOf(next.journal, hash)) == StatusName(next.status)
      && |next.journal| <= |run.journal| + 2
      && (next.status == Running ==>
            && StepsUnique(next.journal) && StepsUsed(next.model, next.journal) && StepsAreNames(next.model)
            && Outstanding(next.model) == Outstanding(run.model) - 1)
  {
    hide WellFormed, StepsUnique, StepsUsed, Dictated, JournalLaws.Legal, JournalLaws.StatusOf, EventsOf, StepsAreNames, M.ValidStep,
      Outstanding, Hashes, Verified, Apply, EndsAt, UnconfirmedRecord, Unannounced, Open, Applicable;
    UsedIsNotDictated(run, o, target, a);
    ApplyKeepsNames(run.model, o, target, a, if e.Confirm? then e.changed else 0);
    AttemptIsLegal(c, hash, run, o, target, a, e);
    AttemptKeepsUnique(run, o, target, a, e);
    AttemptRuns(run, a, e);
    MoveLowersOutstanding(run.model, o, target, a, if e.Confirm? then e.changed else 0);
  }

  /** A recovery run never stops because of its journal: whatever happens, the writer accepts every row the
      run writes, and the bytes parse to exactly those rows with the status that says how the run ended. */
  lemma RecoveryIsJournaled(c: M.Codec, header: M.Header, plan: string, hash: Digest -> string,
                            m: Model, files: Files, slots: set<Place>, o: Origin, target: string, script: seq<Event>)
    requires JournalLaws.Compact(c) && M.ValidHeader(c, header, plan) && Hashes(c, hash)
    requires WellFormed(m, o) && DistinctLeaves(o) && StepsAreNames(m) && 2 * Outstanding(m) + 2 <= M.LINE_BOUND
    ensures var final := Drive(StartRun(m, files, slots), o, target, script);
      var events := EventsOf(final.journal, hash);
      var (bytes, accepted) := M.WriteAll(c, M.HeaderBytes(c, header), plan, events);
      && accepted == events
      && M.Parse(c, bytes, plan).Ok?
      && M.EventsOf(M.Parse(c, bytes, plan).value.records) == events
      && M.Parse(c, bytes, plan).value.status == StatusName(final.status)
  {
    hide WellFormed, NextAction, JournalLaws.Compact, M.ValidHeader, M.WriteAll, M.Parse, Hashes, StepsAreNames, Outstanding;
    var start := StartRun(m, files, slots);
    RunIsLegal(c, hash, start, o, target, script);
    JournalLaws.WriterAcceptsLegal(c, header, plan, EventsOf(Drive(start, o, target, script).journal, hash));
  }
}
