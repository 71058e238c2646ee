// Properties of whole recovery runs: every script of events, every stopping point.
module RecoveryRuns {
  import opened Wrappers
  import opened GuardedFiles
  import opened RecoveryModel
  import opened RecoverySafety
  import opened ObjectCheck
  import opened RecoveryExecution

  // Dictated actions come with every fact the step lemmas need.
  lemma StepCases(run: Run, o: Origin, target: string, e: Event)
    requires WellFormed(run.model, o)
    ensures Outstanding(run.model) == 0 ==>
      && NextAction(run.model, o, target).Finished?
      && Step(run, o, target, e) == (if e.Confirm? && Verified(run.model, run.files, run.slots) then run.(journal := run.journal + [Complete(OfModel(run.model))], status := Completed)
                                     else run.(status := Stopped))
    ensures Outstanding(run.model) > 0 ==>
      && NextAction(run.model, o, target).Perform?
      && var a := NextAction(run.model, o, target).action;
      && Dictated(run.model, o, target, a) && Applicable(run.model, a)
      && Step(run, o, target, e) == Attempt(run, a, e)
  {
    hide Attempt, Verified;
    NextActionIsDecisive(run.model, o, target);
  }

  lemma ApplyKeepsOriginals(m: Model, a: Action, changed: nat)
    requires Applicable(m, a)
    ensures SameOriginals(m, Apply(m, a, changed))
  {
  }

  // ---- Safety ----

  // The three looks at the objects around a dictated move all pass: before the intent, before the rename with
  // the destination among the slots, and after it.
  lemma LooksPass(run: Run, o: Origin, roots: set<string>, target: string, a: Action, changed: nat)
    requires Safe(run.model, run.files, o, roots, target) && SlotsWatched(o, roots, run.slots)
    requires Dictated(run.model, o, target, a) && Applicable(run.model, a)
    ensures Watched(o, roots, a.destination)
    ensures Verified(run.model, run.files, run.slots) && Verified(run.model, run.files, run.slots + {a.destination})
    ensures CanMove(run.files, At(run.model, a.slot).value.place, a.destination)
    ensures var m, files := Apply(run.model, a, changed), Move(run.files, At(run.model, a.slot).value.place, a.destination, changed);
      Safe(m, files, o, roots, target) && Verified(m, files, run.slots + {a.destination})
  {
    hide Verified, Safe, Apply, Dictated;
    DestinationIsWatched(run.model, run.files, o, roots, target, a);
    DestinationIsVacant(run.model, run.files, o, roots, target, a);
    SafeIsVerified(run.model, run.files, o, roots, target, run.slots);
    SafeIsVerified(run.model, run.files, o, roots, target, run.slots + {a.destination});
    ApplyKeepsSafe(run.model, run.files, o, roots, target, a, changed);
    SafeIsVerified(Apply(run.model, a, changed), Move(run.files, At(run.model, a.slot).value.place, a.destination, changed),
                   o, roots, target, run.slots + {a.destination});
  }

  /** With no other writer the executor's looks at the objects never refuse a move: one step keeps the
      invariant unless it ends inside a move, and a confirmed event is always carried out. */
  lemma StepKeepsSafe(run: Run, o: Origin, roots: set<string>, target: string, e: Event)
    requires run.status == Running && Safe(run.model, run.files, o, roots, target) && SlotsWatched(o, roots, run.slots)
    ensures var next := Step(run, o, target, e);
      && (next.status in {Running, Stopped, Completed} ==> Safe(next.model, next.files, o, roots, target))
      && SlotsWatched(o, roots, next.slots)
      && SameOriginals(run.model, next.model)
      && (e.Confirm? ==> next.status in {Running, Completed})
  {
    hide Verified, Dictated, Watched, Apply;
    SafeIsWellFormed(run.model, run.files, o, roots, target);
    StepCases(run, o, target, e);
    if Outstanding(run.model) > 0 {
      var a := NextAction(run.model, o, target).action;
      hide Safe, NextAction;
      var changed := if e.Refuse? then 0 else e.changed;
      LooksPass(run, o, roots, target, a, changed);
      ApplyKeepsOriginals(run.model, a, changed);
    } else {
      SafeIsVerified(run.model, run.files, o, roots, target, run.slots);
    }
  }

  lemma SafeIsWellFormed(m: Model, files: Files, o: Origin, roots: set<string>, target: string)
    requires Safe(m, files, o, roots, target)
    ensures WellFormed(m, o)
  {
  }

  lemma DestinationIsWatched(m: Model, files: Files, o: Origin, roots: set<string>, target: string, a: Action)
    requires Safe(m, files, o, roots, target) && Dictated(m, o, target, a)
    ensures Watched(o, roots, a.destination)
  {
    if a.slot.OriginalSlot? {
      assert a.destination == o.objects[a.slot.index].live;
    } else {
      RetirementPlace(m, o, target, a);
    }
  }

  /** In every state a recovery run can stop in, the recorded locations are distinct, hold exactly the
      recorded objects, lie where the states say, and a last look at the objects passes; the same originals
      are recorded throughout. */
  lemma {:induction false} RunKeepsSafe(run: Run, o: Origin, roots: set<string>, target: string, script: seq<Event>)
    requires Safe(run.model, run.files, o, roots, target) && SlotsWatched(o, roots, run.slots)
    ensures var final := Drive(run, o, target, script);
      && (final.status in {Stopped, Completed} && run.status !in {Interrupted, Poisoned} ==>
            Safe(final.model, final.files, o, roots, target) && Verified(final.model, final.files, final.slots))
      && SameOriginals(run.model, final.model)
    decreases |script|
  {
    hide Verified, Step, Safe, SlotsWatched;
    if run.status == Running && script != [] {
      var next := Step(run, o, target, script[0]);
      StepKeepsSafe(run, o, roots, target, script[0]);
      if next.status == Running {
        RunKeepsSafe(next, o, roots, target, script[1..]);
      } else {
        DriveEnded(next, o, target, script[1..]);
        if next.status in {Stopped, Completed} {
          SafeIsVerified(next.model, next.files, o, roots, target, next.slots);
        }
      }
    } else {
      SafeIsVerified(run.model, run.files, o, roots, target, run.slots);
    }
  }

  /** However a run ends, even in the middle of a move, no object is lost or overwritten. */
  lemma {:induction false} RunLosesNothing(run: Run, o: Origin, target: string, script: seq<Event>, tree: Tree)
    requires Survives(run.files, tree)
    ensures Survives(Drive(run, o, target, script).files, tree)
    decreases |script|
  {
    if run.status == Running && script != [] {
      var next := Step(run, o, target, script[0]);
      var action := NextAction(run.model, o, target);
      if action.Perform? && Applicable(run.model, action.action) {
        AttemptLosesNothing(run, action.action, script[0], tree);
      }
      RunLosesNothing(next, o, target, script[1..], tree);
    }
  }

  lemma AttemptLosesNothing(run: Run, a: Action, e: Event, tree: Tree)
    requires Applicable(run.model, a) && Survives(run.files, tree)
    ensures Survives(Attempt(run, a, e).files, tree)
  {
    hide Verified, Survives;
    var from := At(run.model, a.slot).value.place;
    if CanMove(run.files, from, a.destination) && !e.Refuse? {
      MoveLosesNothing(run.files, from, a.destination, e.changed, tree);
    }
  }

  // ---- Completion ----

  predicate AllConfirm(script: seq<Event>) {
    forall i :: 0 <= i < |script| ==> script[i].Confirm?
  }

  /** With no failure from the environment, a run completes after exactly one event for each outstanding
      object and one for the checkpoint. */
  lemma {:induction false} ConfirmedRunCompletes(run: Run, o: Origin, roots: set<string>, target: string, script: seq<Event>)
    requires run.status == Running && Safe(run.model, run.files, o, roots, target) && SlotsWatched(o, roots, run.slots)
    requires AllConfirm(script)
    ensures Drive(run, o, target, script).status == if |script| > Outstanding(run.model) then Completed else Stopped
    decreases |script|
  {
    hide WellFormed, NextAction, Verified, SlotsWatched, Apply, Dictated;
    if script != [] {
      var next := Step(run, o, target, script[0]);
      SafeIsWellFormed(run.model, run.files, o, roots, target);
      StepCases(run, o, target, script[0]);
      StepKeepsSafe(run, o, roots, target, script[0]);
      if next.status == Running {
        var a := NextAction(run.model, o, target).action;
        MoveLowersOutstanding(run.model, o, target, a, script[0].changed);
        ConfirmedRunCompletes(next, o, roots, target, script[1..]);
      } else {
        DriveEnded(next, o, target, script[1..]);
      }
    }
  }

  // A run completes only once nothing is outstanding.
  lemma {:induction false} CompletionMeansNothingLeft(run: Run, o: Origin, target: string, script: seq<Event>)
    requires WellFormed(run.model, o) && run.status == Running
    requires Drive(run, o, target, script).status == Completed
    ensures Outstanding(Drive(run, o, target, script).model) == 0
    decreases |script|
  {
    hide WellFormed, NextAction, Verified, EndsAt, UnconfirmedRecord, Apply, Outstanding, Dictated;
    if script != [] {
      StepCases(run, o, target, script[0]);
      StepKeepsWellFormed(run, o, target, script[0]);
      var next := Step(run, o, target, script[0]);
      if next.status == Running {
        CompletionMeansNothingLeft(next, o, target, script[1..]);
      } else {
        DriveEnded(next, o, target, script[1..]);
      }
    }
  }

  // A run whose first look at the objects fails does nothing.
  lemma UnverifiedStops(run: Run, o: Origin, target: string, script: seq<Event>)
    requires run.status == Running && !Verified(run.model, run.files, run.slots)
    ensures Drive(run, o, target, script) == run.(status := Stopped)
  {
    hide Verified, NextAction, Apply;
    if script != [] {
      DriveEnded(Step(run, o, target, script[0]), o, target, script[1..]);
    }
  }

  /** A completed recovery leaves every original at its own name, the same object as before the run, and
      nothing generated or working under any live name. */
  lemma CompletedRunRestores(m: Model, files: Files, slots: set<Place>, o: Origin, roots: set<string>, target: string, script: seq<Event>)
    requires Safe(m, files, o, roots, target) && SlotsWatched(o, roots, slots)
    requires Drive(StartRun(m, files, slots), o, target, script).status == Completed
    ensures OriginalsHome(m, Drive(StartRun(m, files, slots), o, target, script).files, o)
  {
    var run := StartRun(m, files, slots);
    var final := Drive(run, o, target, script);
    RunKeepsSafe(run, o, roots, target, script);
    CompletionMeansNothingLeft(run, o, target, script);
    NothingLeftMeansHome(m, final.model, final.files, o, roots, target);
  }

  // ---- Replay ----

  // The rows whose effect is confirmed: an intent without result, and a result "unknown" with its intent,
  // are left out.
  function ConfirmedRows(run: Run): seq<JournalRow> {
    if run.status == Interrupted && |run.journal| >= 1 then run.journal[..|run.journal| - 1]
    else if run.status == Poisoned && |run.journal| >= 2 then run.journal[..|run.journal| - 2]
    else run.journal
  }

  ghost predicate Replays(source: Model, rows: seq<JournalRow>, states: map<nat, Record>, m: Model, o: Origin, target: string)
    requires WellFormed(source, o)
  {
    Replay(source, rows, 1, states, o, target) == Ok(m)
  }

  // Appending an intent, and a confirmed result with its evidence, replays to the moved model.
  lemma ConfirmedMoveReplays(source: Model, run: Run, o: Origin, target: string, a: Action, changed: nat)
    requires WellFormed(source, o) && WellFormed(run.model, o)
    requires Replays(source, run.journal, run.states, run.model, o, target)
    requires NextAction(run.model, o, target) == Perform(a) && Applicable(run.model, a)
    ensures var record := ConfirmedRecord(run.model, a, changed);
      var intent := Intent(a.step, a.operation, OfModel(run.model));
      && Replays(source, run.journal + [intent], run.states, run.model, o, target)
      && Replays(source, run.journal + [intent] + [Result(a.step, a.operation, true, OfRecord(record))],
                 run.states[|run.journal| + 2 := record], record.state, o, target)
  {
    hide WellFormed, NextAction, Replay, Apply, ApplyConfirmedRecord;
    RecordApplies(run.model, o, target, a, changed);
    var record := ConfirmedRecord(run.model, a, changed);
    var intent := Intent(a.step, a.operation, OfModel(run.model));
    var sequence := |run.journal| + 2;
    var states := run.states[sequence := record];
    ReplayExtends(source, run.journal, intent, 1, run.states, o, target);
    var rows := run.journal + [intent];
    ReplayIgnoresLaterStates(source, rows, 1, run.states, sequence, record, o, target);
    var result := Result(a.step, a.operation, true, OfRecord(record));
    ReplayExtends(source, rows, result, 1, states, o, target);
  }

  lemma RecordApplies(m: Model, o: Origin, target: string, a: Action, changed: nat)
    requires WellFormed(m, o) && NextAction(m, o, target) == Perform(a) && Applicable(m, a)
    ensures ApplyConfirmedRecord(m, ConfirmedRecord(m, a, changed), o, target) == Ok(Apply(m, a, changed))
  {
    hide WellFormed, NextAction;
  }

  lemma StepReplays(source: Model, run: Run, o: Origin, target: string, e: Event)
    requires WellFormed(source, o) && WellFormed(run.model, o) && run.status == Running
    requires Replays(source, run.journal, run.states, run.model, o, target)
    ensures var next := Step(run, o, target, e);
      Replays(source, ConfirmedRows(next), next.states, next.model, o, target)
  {
    hide WellFormed, NextAction, Replay, Apply, Verified;
    var next := Step(run, o, target, e);
    StepCases(run, o, target, e);
    if Outstanding(run.model) == 0 {
      ReplayExtends(source, run.journal, Complete(OfModel(run.model)), 1, run.states, o, target);
    } else {
      AttemptReplays(source, run, o, target, NextAction(run.model, o, target).action, e);
    }
  }

  lemma AttemptReplays(source: Model, run: Run, o: Origin, target: string, a: Action, e: Event)
    requires WellFormed(source, o) && WellFormed(run.model, o) && run.status == Running
    requires Replays(source, run.journal, run.states, run.model, o, target)
    requires NextAction(run.model, o, target) == Perform(a) && Applicable(run.model, a)
    ensures var next := Attempt(run, a, e);
      Replays(source, ConfirmedRows(next), next.states, next.model, o, target)
  {
    hide WellFormed, NextAction, Replay, Apply, Verified, EndsAt, Replays;
    var next := Attempt(run, a, e);
    AttemptRuns(run, a, e);
    if e.Confirm? {
      ConfirmedMoveReplays(source, run, o, target, a, e.changed);
    }
    if next.status == Poisoned {
      var at := EndsAt(run, a, e).value;
      assert next.journal[..|next.journal| - 2] == run.journal;
      LaterStateReplays(source, run, o, target, |run.journal| + 2, UnconfirmedRecord(run.model, a, at, e.changed));
    } else if next.status == Interrupted {
      assert next.journal[..|next.journal| - 1] == run.journal;
    }
  }

  lemma LaterStateReplays(source: Model, run: Run, o: Origin, target: string, k: nat, record: Record)
    requires WellFormed(source, o) && Replays(source, run.journal, run.states, run.model, o, target) && k > |run.journal|
    ensures Replays(source, run.journal, run.states[k := record], run.model, o, target)
  {
    hide WellFormed, Replay;
    ReplayIgnoresLaterStates(source, run.journal, 1, run.states, k, record, o, target);
  }

  /** Replaying the confirmed part of a run's journal from the source model is always accepted and
      rebuilds exactly the model the executor was in, however the run ended. */
  lemma {:induction false} RunReplays(source: Model, run: Run, o: Origin, target: string, script: seq<Event>)
    requires WellFormed(source, o) && WellFormed(run.model, o) && run.status == Running
    requires Replays(source, run.journal, run.states, run.model, o, target)
    ensures var final := Drive(run, o, target, script);
      Replays(source, ConfirmedRows(final), final.states, final.model, o, target)
    decreases |script|
  {
    hide WellFormed, Step, Replays;
    if script != [] {
      var next := Step(run, o, target, script[0]);
      StepReplays(source, run, o, target, script[0]);
      StepKeepsWellFormed(run, o, target, script[0]);
      if next.status == Running {
        RunReplays(source, next, o, target, script[1..]);
      } else {
        DriveEnded(next, o, target, script[1..]);
      }
    }
  }

  // A prefix of an accepted journal is accepted.
  lemma {:induction false} PrefixReplays(m: Model, rows: seq<JournalRow>, k: nat, first: nat, states: map<nat, Record>, o: Origin, target: string)
    requires WellFormed(m, o) && k <= |rows|
    requires Replay(m, rows, first, states, o, target).Ok?
    ensures Replay(m, rows[..k], first, states, o, target).Ok?
    decreases |rows|
  {
    if k > 0 {
      assert rows[..k][1..] == rows[1..][..k - 1];
      var next := ReplayRow(m, rows[0], first, states, o, target);
      PrefixReplays(next.value, rows[1..], k - 1, first + 1, states, o, target);
    }
  }

  /** The two implementations agree on every run: the validator accepts every prefix of the executor's
      confirmed journal, and the whole of it leads to the executor's own model. */
  lemma ExecutorAndValidatorAgree(m: Model, files: Files, slots: set<Place>, o: Origin, target: string, script: seq<Event>)
    requires WellFormed(m, o)
    ensures var final := Drive(StartRun(m, files, slots), o, target, script);
      var rows := ConfirmedRows(final);
      && Replay(m, rows, 1, final.states, o, target) == Ok(final.model)
      && forall k :: 0 <= k <= |rows| ==> Replay(m, rows[..k], 1, final.states, o, target).Ok?
  {
    var final := Drive(StartRun(m, files, slots), o, target, script);
    var rows := ConfirmedRows(final);
    RunReplays(m, StartRun(m, files, slots), o, target, script);
    forall k | 0 <= k <= |rows| ensures Replay(m, rows[..k], 1, final.states, o, target).Ok? {
      PrefixReplays(m, rows, k, 1, final.states, o, target);
    }
  }

  // ---- Unique steps ----

  predicate InModel(m: Model, s: Slot) {
    if s.GeneratedSlot? then s.index < |m.generated| else s.index < |m.objects|
  }

  // The step a slot is moved under.
  function SlotStep(m: Model, s: Slot): string
    requires InModel(m, s)
  {
    match s
    case GeneratedSlot(j) => "retire.generated." + m.generated[j].name
    case WorkingSlot(i) => "retire.working." + m.objects[i].step
    case OriginalSlot(i) => "restore." + m.objects[i].step
  }

  predicate SlotOutstanding(m: Model, s: Slot)
    requires InModel(m, s)
  {
    match s
    case GeneratedSlot(j) => IsInstalled(m.generated[j])
    case WorkingSlot(i) => HasLiveWorking(m.objects[i])
    case OriginalSlot(i) => IsPreserved(m.objects[i])
  }

  ghost predicate DistinctLeaves(o: Origin) {
    forall j, k :: 0 <= j < k < |o.leaves| ==> o.leaves[j] != o.leaves[k]
  }

  lemma SlotStepsDiffer(m: Model, o: Origin, s: Slot, t: Slot)
    requires WellFormed(m, o) && DistinctLeaves(o) && InModel(m, s) && InModel(m, t) && s != t
    ensures SlotStep(m, s) != SlotStep(m, t)
  {
    if s.GeneratedSlot? && t.GeneratedSlot? {
      assert CoherentGenerated(m.generated[s.index], o, s.index) && CoherentGenerated(m.generated[t.index], o, t.index);
      assert s.index < |o.leaves| ==> o.leaves[s.index] in o.leaves;
      assert t.index < |o.leaves| ==> o.leaves[t.index] in o.leaves;
      PrefixDiffers("retire.generated.", m.generated[s.index].name, m.generated[t.index].name);
    } else if s.WorkingSlot? && t.WorkingSlot? {
      assert CoherentObject(m.objects[s.index], o.objects[s.index]) && CoherentObject(m.objects[t.index], o.objects[t.index]);
      PrefixDiffers("retire.working.", m.objects[s.index].step, m.objects[t.index].step);
    } else if s.OriginalSlot? && t.OriginalSlot? {
      assert CoherentObject(m.objects[s.index], o.objects[s.index]) && CoherentObject(m.objects[t.index], o.objects[t.index]);
      PrefixDiffers("restore.", m.objects[s.index].step, m.objects[t.index].step);
    } else {
      var a, b := SlotStep(m, s), SlotStep(m, t);
      assert s.OriginalSlot? ==> a[2] == 's';
      assert t.OriginalSlot? ==> b[2] == 's';
      assert !s.OriginalSlot? ==> a[2] == 't' && a[7] == (if s.GeneratedSlot? then 'g' else 'w');
      assert !t.OriginalSlot? ==> b[2] == 't' && b[7] == (if t.GeneratedSlot? then 'g' else 'w');
    }
  }

  ghost predicate UsedBy(m: Model, step: string) {
    exists s :: InModel(m, s) && !SlotOutstanding(m, s) && SlotStep(m, s) == step
  }

  ghost predicate StepsUnique(rows: seq<JournalRow>) {
    forall i, k :: 0 <= i < k < |rows| && rows[i].Intent? && rows[k].Intent? ==> rows[i].step != rows[k].step
  }

  ghost predicate StepsUsed(m: Model, rows: seq<JournalRow>) {
    forall i :: 0 <= i < |rows| && rows[i].Intent? ==> UsedBy(m, rows[i].step)
  }

  // A dictated move's step is not used yet; once it is made it is, and no used step is freed.
  lemma DictatedStepIsNew(m: Model, o: Origin, target: string, a: Action, step: string)
    requires WellFormed(m, o) && DistinctLeaves(o) && Dictated(m, o, target, a) && UsedBy(m, step)
    ensures step != a.step
  {
    var s :| InModel(m, s) && !SlotOutstanding(m, s) && SlotStep(m, s) == step;
    assert InModel(m, a.slot) && SlotOutstanding(m, a.slot) && SlotStep(m, a.slot) == a.step;
    SlotStepsDiffer(m, o, s, a.slot);
  }

  lemma MoveUsesStep(m: Model, o: Origin, target: string, a: Action, changed: nat, step: string)
    requires WellFormed(m, o) && Dictated(m, o, target, a) && Applicable(m, a) && (UsedBy(m, step) || step == a.step)
    ensures UsedBy(Apply(m, a, changed), step)
  {
    var after := Apply(m, a, changed);
    if step == a.step {
      assert InModel(after, a.slot) && !SlotOutstanding(after, a.slot) && SlotStep(after, a.slot) == step;
    } else {
      var s :| InModel(m, s) && !SlotOutstanding(m, s) && SlotStep(m, s) == step;
      assert InModel(after, s) && !SlotOutstanding(after, s) && SlotStep(after, s) == step;
    }
  }

  lemma AttemptKeepsUnique(run: Run, o: Origin, target: string, a: Action, e: Event)
    requires WellFormed(run.model, o) && DistinctLeaves(o) && Dictated(run.model, o, target, a) && Applicable(run.model, a)
    requires StepsUnique(run.journal) && StepsUsed(run.model, run.journal)
    ensures var next := Attempt(run, a, e);
      StepsUnique(next.journal) && (next.status == Running && e.Confirm? ==> StepsUsed(next.model, next.journal))
  {
    hide Dictated, WellFormed, Applicable, Apply, UsedBy, Verified, EndsAt, UnconfirmedRecord;
    var next := Attempt(run, a, e);
    var n := |run.journal|;
    assert forall i :: 0 <= i < n ==> next.journal[i] == run.journal[i];
    forall i | 0 <= i < n && run.journal[i].Intent?
      ensures run.journal[i].step != a.step
    {
      DictatedStepIsNew(run.model, o, target, a, run.journal[i].step);
    }
    if e.Confirm? && next.model == Apply(run.model, a, e.changed) {
      forall i | 0 <= i < |next.journal| && next.journal[i].Intent?
        ensures UsedBy(Apply(run.model, a, e.changed), next.journal[i].step)
      {
        MoveUsesStep(run.model, o, target, a, e.changed, next.journal[i].step);
      }
    }
  }

  /** No run announces one step twice, so the journal's rule that steps are unique never stops it. */
  lemma {:induction false} RunStepsUnique(run: Run, o: Origin, target: string, script: seq<Event>)
    requires WellFormed(run.model, o) && DistinctLeaves(o)
    requires StepsUnique(run.journal) && StepsUsed(run.model, run.journal)
    ensures StepsUnique(Drive(run, o, target, script).journal)
    decreases |script|
  {
    hide WellFormed, NextAction, StepsUnique, StepsUsed, Attempt, Dictated;
    if run.status == Running && script != [] {
      var next := Step(run, o, target, script[0]);
      StepCases(run, o, target, script[0]);
      StepKeepsWellFormed(run, o, target, script[0]);
      if Outstanding(run.model) > 0 {
        AttemptKeepsUnique(run, o, target, NextAction(run.model, o, target).action, script[0]);
        AttemptRuns(run, NextAction(run.model, o, target).action, script[0]);
      } else {
        CompleteIsNoStep(run.journal, Complete(OfModel(run.model)));
      }
      if next.status == Running {
        RunStepsUnique(next, o, target, script[1..]);
      } else {
        DriveEnded(next, o, target, script[1..]);
      }
    }
  }

  lemma AttemptRuns(run: Run, a: Action, e: Event)
    requires Applicable(run.model, a) && run.status == Running
    ensures Attempt(run, a, e).status == Running ==> e.Confirm?
  {
    hide Verified;
  }

  lemma CompleteIsNoStep(rows: seq<JournalRow>, row: JournalRow)
    requires StepsUnique(rows) && row.Complete?
    ensures StepsUnique(rows + [row])
  {
  }
}
