// The automatic sync cycle: failure counting, backoff and notices (autoSync.ts). The cycle runs alone under its
// lock; what the sync itself answers is an input.
module AutoSync {
  import opened Wrappers

  type Time = int

  const SUSPEND_THRESHOLD := 3
  const DEGRADED_RETRY_MS: Time := 6 * 60 * 60 * 1000
  const NOTICE_REPEAT_MS: Time := 24 * 60 * 60 * 1000

  datatype Code =
    | NOT_A_REPO | NO_REMOTE | EXTERNAL_TOPLEVEL | DETACHED_HEAD | OWN_REPO_EXISTS | BOTH_HAVE_ENTRIES
    | WORKTREE_DIRTY | SYNC_BUSY
    | REMOTE_PUBLIC | SYNC_CONFLICT | REBASE_IN_PROGRESS | CAVEAT_GIT_ENV_UNSAFE | CAVEAT_GITHUB_CONFIG_UNSUPPORTED
    | CAVEAT_GITHUB_USER_INVALID | CAVEAT_GITHUB_USER_UNAVAILABLE | CAVEAT_GITHUB_USERNAME_MISMATCH
    | CAVEAT_GITHUB_TARGET_UNSUPPORTED | CAVEAT_GITHUB_CREDENTIAL_UNAVAILABLE | CAVEAT_GITHUB_CLI_UNAVAILABLE
    | CAVEAT_GITHUB_CLI_UNSUPPORTED | CAVEAT_GITHUB_CREDENTIAL_EXPIRED
    | REMOTE_VISIBILITY_INDETERMINATE

  datatype Failure = Coded(code: Code) | Remote(phase: string) | Recovery | Unknown

  // `probeFailed`: the last probe was indeterminate because its request failed.
  datatype Answer = Synced(pulled: bool) | Threw(error: Failure, probeFailed: bool)

  datatype Disposition = Success | Skip | NetworkSkip | Fail

  function ClassifyOwnSyncOutcome(error: Failure, probeFailed: bool): Disposition {
    match error
    case Coded(code) =>
      (match code
       case NOT_A_REPO => Skip
       case NO_REMOTE => Skip
       case EXTERNAL_TOPLEVEL => Skip
       case DETACHED_HEAD => Skip
       case OWN_REPO_EXISTS => Skip
       case BOTH_HAVE_ENTRIES => Skip
       case WORKTREE_DIRTY => Skip
       case SYNC_BUSY => Skip
       case REMOTE_VISIBILITY_INDETERMINATE => if probeFailed then NetworkSkip else Fail
       case _ => Fail)
    case _ => Fail
  }

  datatype OwnState = OwnState(signature: Option<Failure>, count: nat, lastAttemptAt: Option<Time>)

  // What the notice says, line by line; its hash is the stored signature.
  datatype Line = Pulled | BackedOff | OwnFailed(error: Failure) | CommunityFailed(handles: set<string>)

  datatype State = State(finishedAt: Time, startedAt: Option<Time>, context: Option<string>, signature: Option<seq<Line>>,
                         lastNotifiedAt: Option<Time>, own: OwnState)

  datatype Own = Own(disposition: Disposition, error: Option<Failure>, pulled: bool, suspended: bool, escalated: bool, degraded: bool)

  // One cycle: its clock, its context, why it was started, and what the outside answers.
  datatype Cycle = Cycle(now: Time, context: string, writeRequestedAt: Option<Time>, debounceMs: Option<nat>,
                         answer: Answer, failedHandles: set<string>, indexed: bool)

  datatype SkipReason = WriteAlreadySynced | IntervalWait
  datatype Report =
    | Skipped(reason: SkipReason)
    | Refused(own: Own)                  // dirty or busy: nothing is stored
    | CycleFailed
    | Ran(own: Own, notified: bool)

  // An absent time reads as never.
  function Stamp(t: Option<Time>): Time {
    if t.None? then 0 else t.value
  }

  function OwnOf(state: Option<State>): OwnState {
    if state.None? then OwnState(None, 0, None) else state.value.own
  }

  predicate CoversWrite(state: Option<State>, c: Cycle) {
    && c.writeRequestedAt.Some? && state.Some? && state.value.startedAt.Some?
    && state.value.context == Some(c.context) && state.value.startedAt.value > c.writeRequestedAt.value
  }

  predicate TooSoon(state: Option<State>, c: Cycle) {
    c.writeRequestedAt.None? && c.debounceMs.Some? && state.Some? && c.now - state.value.finishedAt < c.debounceMs.value
  }

  // At the threshold own sync is attempted only once the backoff is over.
  predicate Suspends(own: OwnState, now: Time) {
    own.count >= SUSPEND_THRESHOLD && now - Stamp(own.lastAttemptAt) < DEGRADED_RETRY_MS
  }

  function Failed(own: OwnState, error: Failure, now: Time): OwnState {
    OwnState(Some(error), if own.signature == Some(error) then own.count + 1 else 1, Some(now))
  }

  function OwnAfter(own: OwnState, c: Cycle): OwnState {
    if Suspends(own, c.now) then own
    else match c.answer
         case Synced(_) => OwnState(None, 0, None)
         case Threw(error, probeFailed) =>
           if ClassifyOwnSyncOutcome(error, probeFailed).Fail? then Failed(own, error, c.now)
           else own.(lastAttemptAt := Some(c.now))
  }

  function OwnReport(own: OwnState, c: Cycle): Own {
    var after := OwnAfter(own, c);
    var degraded := after.count >= SUSPEND_THRESHOLD;
    if Suspends(own, c.now) then Own(Skip, None, false, true, false, degraded)
    else match c.answer
         case Synced(pulled) => Own(Success, None, pulled, false, false, degraded)
         case Threw(error, probeFailed) =>
           var disposition := ClassifyOwnSyncOutcome(error, probeFailed);
           Own(disposition, Some(error), false, false, disposition.Fail? && after.count == SUSPEND_THRESHOLD, degraded)
  }

  function Lines(own: Own, failedHandles: set<string>): seq<Line> {
    (if own.pulled then [Pulled] else [])
    + (if own.degraded then [BackedOff] else if own.disposition.Fail? && own.error.Some? then [OwnFailed(own.error.value)] else [])
    + (if failedHandles != {} then [CommunityFailed(failedHandles)] else [])
  }

  predicate IsRefusal(own: Own) {
    own.error == Some(Coded(WORKTREE_DIRTY)) || own.error == Some(Coded(SYNC_BUSY))
  }

  function LastNotified(state: Option<State>): Option<Time> {
    if state.None? then None else state.value.lastNotifiedAt
  }

  // A changed message speaks; a degraded sync also speaks again after the repeat interval.
  predicate Notifies(state: Option<State>, own: Own, lines: seq<Line>, now: Time) {
    lines != []
    && ((if state.None? then None else state.value.signature) != Some(lines)
        || (own.degraded && now - Stamp(LastNotified(state)) >= NOTICE_REPEAT_MS))
  }

  function ReportOf(state: Option<State>, c: Cycle): Report {
    var own := OwnReport(OwnOf(state), c);
    if CoversWrite(state, c) then Skipped(WriteAlreadySynced)
    else if TooSoon(state, c) then Skipped(IntervalWait)
    else if IsRefusal(own) then Refused(own)
    else if !c.indexed then CycleFailed
    else Ran(own, Notifies(state, own, Lines(own, c.failedHandles), c.now))
  }

  function StateAfter(state: Option<State>, c: Cycle): Option<State> {
    var report := ReportOf(state, c);
    if !report.Ran? then state
    else Some(State(c.now, Some(c.now), Some(c.context), Some(Lines(report.own, c.failedHandles)),
                    if report.notified then Some(c.now) else LastNotified(state), OwnAfter(OwnOf(state), c)))
  }

  // A manual sync clears the failure state and nothing else.
  function Reset(state: Option<State>): Option<State> {
    var own := OwnState(None, 0, None);
    if state.None? then Some(State(0, None, None, None, None, own)) else Some(state.value.(own := own))
  }

  class AutoSyncer {
    var state: Option<State>

    constructor ()
      ensures state == None
    {
      state := None;
    }

    method ResetAutoSyncFailureState()
      modifies this
      ensures state == Reset(old(state))
    {
      var own := OwnState(None, 0, None);
      if state.None? {
        state := Some(State(0, None, None, None, None, own));
      } else {
        state := Some(state.value.(own := own));
      }
    }

    // Attempt own sync unless it is suspended, and count what comes of it.
    method SyncOwn(stored: OwnState, c: Cycle) returns (own: Own, ownState: OwnState)
      ensures own == OwnReport(stored, c) && ownState == OwnAfter(stored, c)
    {
      ownState := stored;
      var degraded := ownState.count >= SUSPEND_THRESHOLD;
      var retryDue := c.now - Stamp(ownState.lastAttemptAt) >= DEGRADED_RETRY_MS;
      if degraded && !retryDue {
        own := Own(Skip, None, false, true, false, false);
      } else {
        ownState := ownState.(lastAttemptAt := Some(c.now));
        match c.answer {
          case Synced(pulled) =>
            own := Own(Success, None, pulled, false, false, false);
            ownState := OwnState(None, 0, None);
          case Threw(error, probeFailed) =>
            var disposition := ClassifyOwnSyncOutcome(error, probeFailed);
            own := Own(disposition, Some(error), false, false, false, false);
            if disposition.Fail? {
              var count := if ownState.signature == Some(error) then ownState.count + 1 else 1;
              ownState := OwnState(Some(error), count, Some(c.now));
              if count == SUSPEND_THRESHOLD {
                own := own.(escalated := true);
              }
            }
        }
      }
      if ownState.count >= SUSPEND_THRESHOLD {
        own := own.(degraded := true);
      }
    }

    method RunAutoSyncCycle(c: Cycle) returns (report: Report)
      modifies this
      ensures report == ReportOf(old(state), c) && state == StateAfter(old(state), c)
    {
      var previous := state;
      if c.writeRequestedAt.Some? && previous.Some? && previous.value.startedAt.Some?
         && previous.value.context == Some(c.context) && previous.value.startedAt.value > c.writeRequestedAt.value {
        return Skipped(WriteAlreadySynced);
      }
      if c.writeRequestedAt.None? && c.debounceMs.Some? && previous.Some? && c.now - previous.value.finishedAt < c.debounceMs.value {
        return Skipped(IntervalWait);
      }
      var own, ownState := SyncOwn(if previous.Some? then previous.value.own else OwnState(None, 0, None), c);
      if own.error == Some(Coded(WORKTREE_DIRTY)) || own.error == Some(Coded(SYNC_BUSY)) {
        return Refused(own);
      }
      if !c.indexed {
        return CycleFailed;
      }
      var lines := Lines(own, c.failedHandles);
      var repeatDue := own.degraded && c.now - Stamp(LastNotified(previous)) >= NOTICE_REPEAT_MS;
      var notified := lines != [] && ((if previous.None? then None else previous.value.signature) != Some(lines) || repeatDue);
      state := Some(State(c.now, Some(c.now), Some(c.context), Some(lines), if notified then Some(c.now) else LastNotified(previous), ownState));
      return Ran(own, notified);
    }
  }

  // ---- Histories ----

  datatype Op = Auto(cycle: Cycle) | ManualSync

  function After(ops: seq<Op>): Option<State> {
    if ops == [] then None
    else
      var before := After(ops[..|ops| - 1]);
      match ops[|ops| - 1]
      case Auto(c) => StateAfter(before, c)
      case ManualSync => Reset(before)
  }

  // What an operation means for the count of failures.
  datatype Mark = Clears | Fails(error: Failure) | Quiet

  function MarkOf(state: Option<State>, op: Op): Mark {
    match op
    case ManualSync => Clears
    case Auto(c) =>
      var report := ReportOf(state, c);
      if !report.Ran? || report.own.suspended then Quiet
      else match report.own.disposition
           case Success => Clears
           case Fail => if report.own.error.Some? then Fails(report.own.error.value) else Quiet
           case _ => Quiet
  }

  function Marks(ops: seq<Op>): (r: seq<Mark>)
    ensures |r| == |ops|
  {
    if ops == [] then [] else Marks(ops[..|ops| - 1]) + [MarkOf(After(ops[..|ops| - 1]), ops[|ops| - 1])]
  }

  // The last failure, looking back over quiet operations; None when the failures were cleared.
  function LastFailure(marks: seq<Mark>): Option<Failure> {
    if marks == [] then None
    else match marks[|marks| - 1]
         case Clears => None
         case Fails(error) => Some(error)
         case Quiet => LastFailure(marks[..|marks| - 1])
  }

  // How many failures with this error in a row end here, quiet operations aside.
  function TrailingRun(marks: seq<Mark>, error: Failure): nat {
    if marks == [] then 0
    else match marks[|marks| - 1]
         case Clears => 0
         case Fails(e) => if e == error then 1 + TrailingRun(marks[..|marks| - 1], error) else 0
         case Quiet => TrailingRun(marks[..|marks| - 1], error)
  }

  // The stored count is the length of the trailing run of failures with the stored signature.
  lemma {:induction false} CountIsTrailingRun(ops: seq<Op>)
    ensures var own := OwnOf(After(ops));
      && own.signature == LastFailure(Marks(ops))
      && own.count == (if own.signature.None? then 0 else TrailingRun(Marks(ops), own.signature.value))
    decreases |ops|
  {
    if ops != [] {
      var k := |ops| - 1;
      CountIsTrailingRun(ops[..k]);
      assert Marks(ops)[..k] == Marks(ops[..k]);
      var before := After(ops[..k]);
      MarkMoves(before, ops[k]);
      OtherErrorEnds(Marks(ops[..k]));
    }
  }

  // How an operation moves the stored failure state.
  lemma MarkMoves(state: Option<State>, op: Op)
    ensures var own, after := OwnOf(state), OwnOf(if op.Auto? then StateAfter(state, op.cycle) else Reset(state));
      match MarkOf(state, op)
      case Clears => after.signature == None && after.count == 0
      case Quiet => after.signature == own.signature && after.count == own.count
      case Fails(error) =>
        after.signature == Some(error) && after.count == if own.signature == Some(error) then own.count + 1 else 1
  {
  }

  // A run of failures that ends with another error, or was cleared, has length 0.
  lemma {:induction false} OtherErrorEnds(marks: seq<Mark>)
    ensures forall error :: LastFailure(marks) != Some(error) ==> TrailingRun(marks, error) == 0
  {
    if marks != [] {
      OtherErrorEnds(marks[..|marks| - 1]);
    }
  }

  // ---- Backoff ----

  // A stored cycle that tried own sync.
  predicate Attempts(state: Option<State>, op: Op) {
    op.Auto? && ReportOf(state, op.cycle).Ran? && !ReportOf(state, op.cycle).own.suspended
  }

  predicate AttemptedAt(ops: seq<Op>, i: nat)
    requires i < |ops|
  {
    Attempts(After(ops[..i]), ops[i])
  }

  ghost predicate Monotone(ops: seq<Op>) {
    forall i, j :: 0 <= i < j < |ops| && ops[i].Auto? && ops[j].Auto? ==> ops[i].cycle.now <= ops[j].cycle.now
  }

  // While failures are counted, the stored attempt is the last one made.
  lemma {:induction false} StoredAttempt(ops: seq<Op>, i: nat)
    requires Monotone(ops) && i < |ops| && AttemptedAt(ops, i) && OwnOf(After(ops)).count > 0
    ensures OwnOf(After(ops)).lastAttemptAt.Some? && OwnOf(After(ops)).lastAttemptAt.value >= ops[i].cycle.now
    decreases |ops|
  {
    hide ReportOf, StateAfter;
    var k := |ops| - 1;
    var front := ops[..k];
    AttemptMoves(After(front), ops[k]);
    if i < k {
      assert front[..i] == ops[..i];
      if !AttemptedAt(ops, k) {
        StoredAttempt(front, i);
      }
    }
  }

  lemma AttemptMoves(state: Option<State>, op: Op)
    ensures var after := OwnOf(if op.Auto? then StateAfter(state, op.cycle) else Reset(state));
      && (Attempts(state, op) && after.count > 0 ==> after.lastAttemptAt == Some(op.cycle.now))
      && (!Attempts(state, op) && after.count > 0 ==> after == OwnOf(state))
  {
  }

  // Once the count is at the threshold, an attempt comes at least the degraded interval after every earlier one.
  lemma BackoffHolds(ops: seq<Op>, i: nat, j: nat)
    requires Monotone(ops) && i < j < |ops| && AttemptedAt(ops, i) && AttemptedAt(ops, j)
    requires OwnOf(After(ops[..j])).count >= SUSPEND_THRESHOLD
    ensures ops[j].cycle.now - ops[i].cycle.now >= DEGRADED_RETRY_MS
  {
    var front := ops[..j];
    assert front[..i] == ops[..i];
    StoredAttempt(front, i);
  }

  // ---- Writes ----

  lemma {:induction false} StartedIsStored(ops: seq<Op>) returns (k: nat)
    requires After(ops).Some? && After(ops).value.startedAt.Some?
    ensures k < |ops| && ops[k].Auto? && ReportOf(After(ops[..k]), ops[k].cycle).Ran?
    ensures After(ops).value.startedAt == Some(ops[k].cycle.now) && After(ops).value.context == Some(ops[k].cycle.context)
    decreases |ops|
  {
    hide ReportOf;
    var last := |ops| - 1;
    if ops[last].Auto? && ReportOf(After(ops[..last]), ops[last].cycle).Ran? {
      k := last;
    } else {
      k := StartedIsStored(ops[..last]);
      assert ops[..last][..k] == ops[..k];
    }
  }

  // A write reported already synced is covered by a stored cycle of the same context that started strictly later.
  lemma SyncedWriteIsCovered(ops: seq<Op>, c: Cycle)
    requires ReportOf(After(ops), c) == Skipped(WriteAlreadySynced)
    ensures c.writeRequestedAt.Some? && exists k ::
      && 0 <= k < |ops| && ops[k].Auto? && ReportOf(After(ops[..k]), ops[k].cycle).Ran?
      && ops[k].cycle.context == c.context && ops[k].cycle.now > c.writeRequestedAt.value
  {
    var k := StartedIsStored(ops);
  }

  // ---- Notices ----

  // A stored message has been notified at least once.
  lemma {:induction false} MessageWasHeard(ops: seq<Op>)
    ensures var state := After(ops);
      state.Some? && state.value.signature.Some? && state.value.signature.value != [] ==> state.value.lastNotifiedAt.Some?
    decreases |ops|
  {
    hide OwnReport, OwnAfter, Lines;
    if ops != [] {
      MessageWasHeard(ops[..|ops| - 1]);
    }
  }

  // A degraded sync never stays silent for the repeat interval: after every stored degraded cycle, the last
  // notice is less than the interval old.
  lemma DegradedIsHeard(ops: seq<Op>, c: Cycle)
    requires ReportOf(After(ops), c).Ran? && ReportOf(After(ops), c).own.degraded
    ensures var after := StateAfter(After(ops), c).value;
      after.lastNotifiedAt.Some? && c.now - after.lastNotifiedAt.value < NOTICE_REPEAT_MS
  {
    hide OwnReport, OwnAfter;
    MessageWasHeard(ops);
    assert BackedOff in Lines(ReportOf(After(ops), c).own, c.failedHandles);
  }
}
