// What automatic sync answers after any history, said of its stored cycles.
module AutoSyncHistories {
  import opened Wrappers
  import opened AutoSync

  // The k-th operation is a cycle that ran to its end and was stored.
  predicate Stored(ops: seq<Op>, k: nat)
    requires k < |ops|
  {
    ops[k].Auto? && ReportOf(After(ops[..k]), ops[k].cycle).Ran?
  }

  function Message(ops: seq<Op>, k: nat): seq<Line>
    requires k < |ops| && Stored(ops, k)
  {
    Lines(ReportOf(After(ops[..k]), ops[k].cycle).own, ops[k].cycle.failedHandles)
  }

  // A stored cycle that sent a notice.
  predicate Noticed(ops: seq<Op>, k: nat)
    requires k < |ops|
  {
    Stored(ops, k) && ReportOf(After(ops[..k]), ops[k].cycle).notified
  }

  ghost predicate IsLastStored(ops: seq<Op>, k: nat) {
    k < |ops| && Stored(ops, k) && forall m :: k < m < |ops| ==> !Stored(ops, m)
  }

  ghost predicate NoneStored(ops: seq<Op>) {
    forall k :: 0 <= k < |ops| ==> !Stored(ops, k)
  }

  ghost predicate IsLastNoticed(ops: seq<Op>, k: nat) {
    k < |ops| && Noticed(ops, k) && forall m :: k < m < |ops| ==> !Noticed(ops, m)
  }

  ghost predicate NoneNoticed(ops: seq<Op>) {
    forall k :: 0 <= k < |ops| ==> !Noticed(ops, k)
  }

  lemma FrontIs(ops: seq<Op>, n: nat)
    requires n <= |ops|
    ensures forall k :: 0 <= k < n ==> Stored(ops[..n], k) == Stored(ops, k) && Noticed(ops[..n], k) == Noticed(ops, k)
    ensures forall k :: 0 <= k < n && Stored(ops, k) ==> Message(ops[..n], k) == Message(ops, k)
  {
    hide ReportOf, Lines;
    forall k | 0 <= k < n ensures ops[..n][..k] == ops[..k] {}
  }

  // A state without a stored cycle: at most what a manual sync leaves.
  predicate Bare(state: Option<State>) {
    state.Some? ==> state.value == State(0, None, None, None, None, OwnState(None, 0, None))
  }

  lemma StepIs(ops: seq<Op>)
    requires ops != []
    ensures var n := |ops| - 1;
      After(ops) == match ops[n] { case Auto(c) => StateAfter(After(ops[..n]), c) case ManualSync => Reset(After(ops[..n])) }
  {
  }

  // What one operation does to what is remembered.
  lemma StateMoves(ops: seq<Op>)
    requires ops != []
    ensures var n := |ops| - 1;
      var before, after := After(ops[..n]), After(ops);
      if Stored(ops, n) then
        && after.Some? && after.value.finishedAt == ops[n].cycle.now && after.value.startedAt == Some(ops[n].cycle.now)
        && after.value.context == Some(ops[n].cycle.context) && after.value.signature == Some(Message(ops, n))
        && LastNotified(after) == if Noticed(ops, n) then Some(ops[n].cycle.now) else LastNotified(before)
      else
        && !Noticed(ops, n)
        && (Bare(before) ==> Bare(after)) && LastNotified(after) == LastNotified(before)
        && (before.Some? ==>
              && after.Some? && after.value.finishedAt == before.value.finishedAt && after.value.startedAt == before.value.startedAt
              && after.value.context == before.value.context && after.value.signature == before.value.signature)
  {
    hide OwnAfter, Lines, OwnReport, TooSoon, CoversWrite, Notifies;
    StepIs(ops);
  }

  // The state says when the last stored cycle ran, under which context, and what it said.
  lemma {:induction false} CycleRemembered(ops: seq<Op>, k: nat)
    requires IsLastStored(ops, k)
    ensures ops[k].Auto?
    ensures var state := After(ops);
      && state.Some? && state.value.finishedAt == ops[k].cycle.now && state.value.startedAt == Some(ops[k].cycle.now)
      && state.value.context == Some(ops[k].cycle.context) && state.value.signature == Some(Message(ops, k))
    decreases |ops|
  {
    hide After, ReportOf, Lines, Noticed;
    var n := |ops| - 1;
    StoredIsCycle(ops, k);
    StateMoves(ops);
    if k < n {
      hide Stored, Message;
      LastOf(ops);
      FrontIs(ops, n);
      CycleRemembered(ops[..n], k);
    }
  }

  lemma {:induction false} NoCycleRemembered(ops: seq<Op>)
    requires NoneStored(ops)
    ensures Bare(After(ops))
    decreases |ops|
  {
    if ops != [] {
      hide ReportOf, Lines, Stored, Noticed;
      LastOf(ops);
      StateMoves(ops);
      NoCycleRemembered(ops[..|ops| - 1]);
    }
  }

  // And when the last notice was sent.
  lemma {:induction false} NoticeRemembered(ops: seq<Op>, k: nat)
    requires IsLastNoticed(ops, k)
    ensures ops[k].Auto? && LastNotified(After(ops)) == Some(ops[k].cycle.now)
    decreases |ops|
  {
    hide After, ReportOf, Lines, Message;
    var n := |ops| - 1;
    StoredIsCycle(ops, k);
    StateMoves(ops);
    if k < n {
      LastOf(ops);
      FrontIs(ops, n);
      NoticeRemembered(ops[..n], k);
    }
  }

  lemma {:induction false} NoNoticeRemembered(ops: seq<Op>)
    requires NoneNoticed(ops)
    ensures LastNotified(After(ops)) == None
    decreases |ops|
  {
    if ops != [] {
      hide ReportOf, Lines, Stored, Noticed, Message;
      LastOf(ops);
      StateMoves(ops);
      NoNoticeRemembered(ops[..|ops| - 1]);
    }
  }

  lemma StoredIsCycle(ops: seq<Op>, k: nat)
    requires k < |ops| && Stored(ops, k)
    ensures ops[k].Auto?
  {
  }

  // The last stored cycle and the last notice, one operation later.
  lemma LastOf(ops: seq<Op>)
    requires ops != []
    ensures var n := |ops| - 1;
      && (NoneStored(ops) <==> !Stored(ops, n) && NoneStored(ops[..n]))
      && (NoneNoticed(ops) <==> !Noticed(ops, n) && NoneNoticed(ops[..n]))
      && (forall k: nat :: IsLastStored(ops, k) <==> if Stored(ops, n) then k == n else IsLastStored(ops[..n], k))
      && (forall k: nat :: IsLastNoticed(ops, k) <==> if Noticed(ops, n) then k == n else IsLastNoticed(ops[..n], k))
  {
    hide Stored, Noticed;
    FrontIs(ops, |ops| - 1);
  }

  lemma {:induction false} LastStoredExists(ops: seq<Op>) returns (k: nat)
    requires !NoneStored(ops)
    ensures IsLastStored(ops, k)
    decreases |ops|
  {
    hide Stored;
    var n := |ops| - 1;
    if Stored(ops, n) {
      k := n;
    } else {
      LastOf(ops);
      k := LastStoredExists(ops[..n]);
    }
  }

  lemma {:induction false} LastNoticedExists(ops: seq<Op>) returns (k: nat)
    requires !NoneNoticed(ops)
    ensures IsLastNoticed(ops, k)
    decreases |ops|
  {
    hide Noticed;
    var n := |ops| - 1;
    if Noticed(ops, n) {
      k := n;
    } else {
      LastOf(ops);
      k := LastNoticedExists(ops[..n]);
    }
  }

  ghost predicate AnyManual(ops: seq<Op>) {
    exists k :: 0 <= k < |ops| && ops[k].ManualSync?
  }

  // There is a state once a cycle was stored or a manual sync was made.
  lemma {:induction false} StateExists(ops: seq<Op>)
    ensures After(ops).Some? <==> !NoneStored(ops) || AnyManual(ops)
    decreases |ops|
  {
    if ops != [] {
      hide ReportOf, OwnAfter, Lines, Stored, AnyManual, NoneStored, After;
      var n := |ops| - 1;
      StateExists(ops[..n]);
      LastOf(ops);
      StepSome(ops);
      ManualOf(ops);
    }
  }

  lemma ManualOf(ops: seq<Op>)
    requires ops != []
    ensures AnyManual(ops) <==> ops[|ops| - 1].ManualSync? || AnyManual(ops[..|ops| - 1])
  {
    forall k | 0 <= k < |ops| - 1 ensures ops[..|ops| - 1][k] == ops[k] {}
  }

  lemma StepSome(ops: seq<Op>)
    requires ops != []
    ensures var n := |ops| - 1; After(ops).Some? <==> After(ops[..n]).Some? || Stored(ops, n) || ops[n].ManualSync?
  {
    hide OwnAfter, OwnReport, Lines, TooSoon, CoversWrite, Notifies;
    StepIs(ops);
  }

  // A stored cycle less than the debounce ago.
  ghost predicate RecentlyStored(ops: seq<Op>, now: Time, debounce: nat) {
    exists k :: 0 <= k < |ops| && Stored(ops, k) && now - ops[k].cycle.now < debounce
  }

  /** A scheduled cycle waits exactly if some stored cycle ended less than the debounce before it. (A manual sync with
      no stored cycle before it leaves a state that ended at time 0.) */
  lemma WaitsExactly(ops: seq<Op>, c: Cycle)
    requires Monotone(ops) && c.writeRequestedAt.None? && c.debounceMs.Some?
    ensures ReportOf(After(ops), c) == Skipped(IntervalWait) <==>
      if NoneStored(ops) then AnyManual(ops) && c.now < c.debounceMs.value else RecentlyStored(ops, c.now, c.debounceMs.value)
  {
    hide OwnReport, OwnAfter, Lines, Notifies, Stored;
    StateExists(ops);
    if NoneStored(ops) {
      NoCycleRemembered(ops);
    } else {
      var k := LastStoredExists(ops);
      CycleRemembered(ops, k);
      forall i | 0 <= i < |ops| && Stored(ops, i) ensures ops[i].Auto? && ops[i].cycle.now <= ops[k].cycle.now {
        StoredIsCycle(ops, i);
      }
    }
  }

  /** Two stored cycles, the later one scheduled, are at least its debounce apart. */
  lemma StoredApart(ops: seq<Op>, i: nat, j: nat)
    requires Monotone(ops) && i < j < |ops| && Stored(ops, i) && Stored(ops, j)
    ensures ops[i].Auto? && ops[j].Auto?
    ensures ops[j].cycle.writeRequestedAt.None? && ops[j].cycle.debounceMs.Some? ==>
      ops[j].cycle.now - ops[i].cycle.now >= ops[j].cycle.debounceMs.value
  {
    var c := ops[j].cycle;
    FrontIs(ops, j);
    if c.writeRequestedAt.None? && c.debounceMs.Some? && c.now - ops[i].cycle.now < c.debounceMs.value {
      assert Stored(ops[..j], i);
      assert RecentlyStored(ops[..j], c.now, c.debounceMs.value);
      WaitsExactly(ops[..j], c);
    }
  }

  /** A write is reported already synced exactly if the last stored cycle has the same context and started strictly
      later than the write was asked for; otherwise it is not. */
  lemma SyncedExactly(ops: seq<Op>, c: Cycle)
    requires c.writeRequestedAt.Some?
    ensures ReportOf(After(ops), c) == Skipped(WriteAlreadySynced) <==>
      exists k: nat :: IsLastStored(ops, k) && ops[k].cycle.context == c.context && ops[k].cycle.now > c.writeRequestedAt.value
  {
    hide OwnReport, OwnAfter, Lines, Notifies, Stored;
    if NoneStored(ops) {
      NoCycleRemembered(ops);
    } else {
      var k := LastStoredExists(ops);
      CycleRemembered(ops, k);
    }
  }

  // No notice was sent in the repeat interval before `now`.
  ghost predicate RepeatDue(ops: seq<Op>, now: Time) {
    forall i :: 0 <= i < |ops| && Noticed(ops, i) ==> now - ops[i].cycle.now >= NOTICE_REPEAT_MS
  }

  /** A stored cycle sends a notice exactly if it has something to say and either that is not what the last stored
      cycle said, or sync is degraded and every notice so far is at least the repeat interval old. */
  lemma NoticeExactly(ops: seq<Op>, c: Cycle)
    requires Monotone(ops) && ReportOf(After(ops), c).Ran?
    ensures var report := ReportOf(After(ops), c);
      var message := Lines(report.own, c.failedHandles);
      report.notified <==>
        && message != []
        && (!(exists k: nat :: IsLastStored(ops, k) && Message(ops, k) == message)
            || (report.own.degraded && RepeatDue(ops, c.now)))
  {
    hide OwnReport, OwnAfter, Lines, Stored, Noticed, TooSoon, CoversWrite;
    var report := ReportOf(After(ops), c);
    var message := Lines(report.own, c.failedHandles);
    MessageWasHeard(ops);
    if NoneStored(ops) {
      NoCycleRemembered(ops);
    } else {
      var k := LastStoredExists(ops);
      CycleRemembered(ops, k);
    }
    LastNoticeDecides(ops, c.now);
  }

  // The last notice is the newest.
  lemma LastNoticeDecides(ops: seq<Op>, now: Time)
    requires Monotone(ops)
    ensures LastNotified(After(ops)).Some? ==> (RepeatDue(ops, now) <==> now - LastNotified(After(ops)).value >= NOTICE_REPEAT_MS)
  {
    hide Noticed, After, Stored;
    if NoneNoticed(ops) {
      NoNoticeRemembered(ops);
    } else {
      var k := LastNoticedExists(ops);
      NoticeRemembered(ops, k);
      forall i | 0 <= i < |ops| && Noticed(ops, i) ensures ops[i].Auto? && ops[i].cycle.now <= ops[k].cycle.now {
        NoticedIsCycle(ops, i);
      }
    }
  }

  lemma NoticedIsCycle(ops: seq<Op>, k: nat)
    requires k < |ops| && Noticed(ops, k)
    ensures ops[k].Auto?
  {
  }

  // ---- Backoff ----

  ghost predicate RecentlyAttempted(ops: seq<Op>, now: Time) {
    exists i :: 0 <= i < |ops| && AttemptedAt(ops, i) && now - ops[i].cycle.now < DEGRADED_RETRY_MS
  }

  // While failures are counted, the stored attempt was made.
  lemma {:induction false} StoredAttemptExists(ops: seq<Op>) returns (i: nat)
    requires OwnOf(After(ops)).count > 0
    ensures i < |ops| && AttemptedAt(ops, i) && ops[i].Auto? && OwnOf(After(ops)).lastAttemptAt == Some(ops[i].cycle.now)
    decreases |ops|
  {
    hide ReportOf, StateAfter;
    var n := |ops| - 1;
    StepIs(ops);
    AttemptMoves(After(ops[..n]), ops[n]);
    if AttemptedAt(ops, n) {
      i := n;
    } else {
      i := StoredAttemptExists(ops[..n]);
      assert ops[..n][..i] == ops[..i];
    }
  }

  lemma AttemptIsCycle(ops: seq<Op>, i: nat)
    requires i < |ops| && AttemptedAt(ops, i)
    ensures ops[i].Auto?
  {
  }

  /** Own sync is held back exactly after three or more failures in a row with the same error, and less than the
      degraded interval after some attempt. */
  lemma SuspendedExactly(ops: seq<Op>, c: Cycle)
    requires Monotone(ops)
    ensures OwnReport(OwnOf(After(ops)), c).suspended <==>
      && LastFailure(Marks(ops)).Some? && TrailingRun(Marks(ops), LastFailure(Marks(ops)).value) >= SUSPEND_THRESHOLD
      && RecentlyAttempted(ops, c.now)
  {
    hide After, Marks, TrailingRun, LastFailure, AttemptedAt;
    CountIsTrailingRun(ops);
    var own := OwnOf(After(ops));
    if own.count > 0 {
      var i := StoredAttemptExists(ops);
      forall k | 0 <= k < |ops| && AttemptedAt(ops, k)
        ensures ops[k].Auto? && own.lastAttemptAt.value >= ops[k].cycle.now
      {
        AttemptIsCycle(ops, k);
        StoredAttempt(ops, k);
      }
    }
  }

  // ---- What a notice says ----

  // Three or more failures in a row with the same error end here.
  ghost predicate BacksOff(ops: seq<Op>) {
    LastFailure(Marks(ops)).Some? && TrailingRun(Marks(ops), LastFailure(Marks(ops)).value) >= SUSPEND_THRESHOLD
  }

  lemma OneMore(ops: seq<Op>, c: Cycle)
    requires ReportOf(After(ops), c).Ran?
    ensures OwnOf(After(ops + [Auto(c)])) == OwnAfter(OwnOf(After(ops)), c)
  {
    hide OwnAfter, OwnReport, Lines;
    assert (ops + [Auto(c)])[..|ops|] == ops;
  }

  /** A stored cycle says that it pulled, that sync backs off, or else which error its own attempt failed with, and which
      community repositories failed: each exactly when it is so, and nothing else. */
  lemma MessageSays(ops: seq<Op>, c: Cycle)
    requires ReportOf(After(ops), c).Ran?
    ensures var message := Lines(ReportOf(After(ops), c).own, c.failedHandles);
      var attempted := !ReportOf(After(ops), c).own.suspended;
      && (Pulled in message <==> attempted && c.answer == Synced(true))
      && (BackedOff in message <==> BacksOff(ops + [Auto(c)]))
      && (forall e :: OwnFailed(e) in message <==> MarkOf(After(ops), Auto(c)) == Fails(e) && !BacksOff(ops + [Auto(c)]))
      && (forall handles :: CommunityFailed(handles) in message <==> handles == c.failedHandles != {})
  {
    hide After, Marks, TrailingRun, LastFailure, ClassifyOwnSyncOutcome;
    OneMore(ops, c);
    CountIsTrailingRun(ops + [Auto(c)]);
    LinesAre(ReportOf(After(ops), c).own, c.failedHandles);
  }

  lemma LinesAre(own: Own, handles: set<string>)
    ensures var message := Lines(own, handles);
      && (Pulled in message <==> own.pulled) && (BackedOff in message <==> own.degraded)
      && (forall e :: OwnFailed(e) in message <==> !own.degraded && own.disposition.Fail? && own.error == Some(e))
      && (forall h :: CommunityFailed(h) in message <==> h == handles != {})
  {
  }

  // What is wrong with the local repository, or is only busy: nothing that a retry would count against.
  const LOCAL_CONDITIONS: set<Code> :=
    {NOT_A_REPO, NO_REMOTE, EXTERNAL_TOPLEVEL, DETACHED_HEAD, OWN_REPO_EXISTS, BOTH_HAVE_ENTRIES, WORKTREE_DIRTY, SYNC_BUSY}

  // The attempt threw, and neither the local repository was the reason nor a probe that could not be made.
  predicate FailsWith(own: Own, c: Cycle, error: Failure)
    requires c.answer.Threw?
  {
    && !own.suspended && c.answer.error == error
    && !(error.Coded? && error.code in LOCAL_CONDITIONS)
    && !(error == Coded(REMOTE_VISIBILITY_INDETERMINATE) && c.answer.probeFailed)
  }

  /** A cycle reports a failure exactly if its attempt failed so, and counts it exactly if it is stored. */
  lemma FailureIsCounted(ops: seq<Op>, c: Cycle, error: Failure)
    ensures var own := OwnReport(OwnOf(After(ops)), c);
      && (own.disposition.Fail? && own.error == Some(error) <==> c.answer.Threw? && FailsWith(own, c, error))
      && (MarkOf(After(ops), Auto(c)) == Fails(error) <==> ReportOf(After(ops), c).Ran? && c.answer.Threw? && FailsWith(own, c, error))
  {
    hide After, Lines;
  }
}
