// What the replay validator accepts, said of the stored rows and records alone.
module RecoveryValidation {
  import opened Wrappers
  import opened GuardedFiles
  import opened RecoveryModel
  import opened RecoverySafety
  import opened RecoveryRuns

  // The operation a slot is moved under, and where it goes.
  function SlotOperation(m: Model, s: Slot): Operation {
    match s
    case GeneratedSlot(j) => if j + 1 == |m.generated| then ManifestOp else WrapperOp
    case WorkingSlot(_) => WorkingCopyOp
    case OriginalSlot(_) => RestoreOp
  }

  function Goal(o: Origin, target: string, s: Slot): Place {
    if s.OriginalSlot? && s.index < |o.objects| then o.objects[s.index].live else RetiredPlace(o, target, s)
  }

  // The order of a recovery: the manifest, the wrappers, the working copies, then the originals, packages first
  // and leaves last.
  function Phase(m: Model, s: Slot): nat
    requires InModel(m, s)
  {
    match s
    case GeneratedSlot(j) => if j + 1 == |m.generated| then 0 else 1
    case WorkingSlot(_) => 2
    case OriginalSlot(i) => match m.objects[i].role { case Package => 3 case Management => 4 case Leaf => 5 }
  }

  predicate Before(m: Model, s: Slot, t: Slot)
    requires InModel(m, s) && InModel(m, t)
  {
    Phase(m, s) < Phase(m, t) || (Phase(m, s) == Phase(m, t) && s.index < t.index)
  }

  predicate IsLeft(m: Model, s: Slot) {
    InModel(m, s) && SlotOutstanding(m, s)
  }

  // The object whose turn it is.
  ghost predicate IsDue(m: Model, s: Slot) {
    IsLeft(m, s) && forall t :: IsLeft(m, t) && t != s ==> Before(m, s, t)
  }

  // One object is moved and marked so, and everything else is as before.
  predicate MovesOnly(m: Model, after: Model, s: Slot, moved: Entry) {
    && InModel(m, s)
    && after.source == m.source && after.confirmed == m.confirmed
    && |after.objects| == |m.objects| && |after.generated| == |m.generated|
    && (forall i :: 0 <= i < |m.objects| && (s.GeneratedSlot? || s.index != i) ==> after.objects[i] == m.objects[i])
    && (forall j :: 0 <= j < |m.generated| && (!s.GeneratedSlot? || s.index != j) ==> after.generated[j] == m.generated[j])
    && match s
       case OriginalSlot(i) => after.objects[i] == m.objects[i].(state := Restored, original := moved)
       case WorkingSlot(i) =>
         && m.objects[i].working.Some?
         && after.objects[i] == m.objects[i].(working := Some(Working(Quarantined, Some(moved.tree), m.objects[i].working.value.stagingName)),
                                              workingEntry := Some(moved))
       case GeneratedSlot(j) => after.generated[j] == GeneratedRow(m.generated[j].name, Retired, Some(moved))
  }

  /** A record of one confirmed move: of the object whose turn it is, under its own step and operation, from the
      recorded tree, to its own place, changing nothing of the tree but its root change time, and carrying the
      model in which this object and nothing else has moved. */
  ghost predicate RecordsMove(m: Model, record: Record, o: Origin, target: string, s: Slot) {
    && IsDue(m, s) && At(m, s).Some?
    && record.source == m.source && record.renameAttempted && record.renameIssued == Some(true)
    && record.step == SlotStep(m, s) && record.operation == SlotOperation(m, s)
    && record.result.Some? && record.result.value.Renamed?
    && record.result.value.treeBefore == At(m, s).value.tree
    && SameObject(record.result.value.treeAfter, At(m, s).value.tree)
    && MovesOnly(m, record.state, s, Entry(Goal(o, target, s), record.result.value.treeAfter))
  }

  lemma DueIsOne(m: Model, s: Slot, t: Slot)
    requires IsDue(m, s) && IsDue(m, t)
    ensures s == t
  {
    assert s != t ==> Before(m, s, t);
  }

  lemma NamesByPlace(m: Model, o: Origin, j: nat)
    requires WellFormed(m, o) && j < |m.generated|
    ensures m.generated[j].name == GeneratedName(o, j) && (m.generated[j].name == "shell" <==> j + 1 == |m.generated|)
  {
    assert CoherentGenerated(m.generated[j], o, j);
    assert j < |o.leaves| ==> o.leaves[j] in o.leaves;
  }

  lemma DictatedForm(m: Model, o: Origin, target: string, a: Action)
    requires WellFormed(m, o) && Dictated(m, o, target, a)
    ensures InModel(m, a.slot) && a == Action(a.slot, SlotStep(m, a.slot), SlotOperation(m, a.slot), Goal(o, target, a.slot))
  {
    if a.slot.GeneratedSlot? {
      NamesByPlace(m, o, a.slot.index);
    } else {
      assert CoherentObject(m.objects[a.slot.index], o.objects[a.slot.index]);
    }
  }

  lemma FirstGenerated(m: Model)
    requires NextInstalled(m.generated) < |m.generated|
    ensures IsDue(m, GeneratedSlot(NextInstalled(m.generated)))
  {
  }

  lemma FirstWorking(m: Model)
    requires NextInstalled(m.generated) >= |m.generated| && FirstIndex(m.objects, HasLiveWorking) < |m.objects|
    ensures IsDue(m, WorkingSlot(FirstIndex(m.objects, HasLiveWorking)))
  {
    hide NextInstalled, FirstIndex;
  }

  lemma FirstOriginal(m: Model, role: Role)
    requires NextInstalled(m.generated) >= |m.generated| && FirstIndex(m.objects, HasLiveWorking) == |m.objects|
    requires role != Package ==> NextPreserved(m.objects, Package) == |m.objects|
    requires role == Leaf ==> NextPreserved(m.objects, Management) == |m.objects|
    requires NextPreserved(m.objects, role) < |m.objects|
    ensures IsDue(m, OriginalSlot(NextPreserved(m.objects, role)))
  {
    hide NextInstalled, FirstIndex, NextPreserved;
  }

  // The dictated move is that of the object whose turn it is.
  lemma DictatedIsDue(m: Model, o: Origin, target: string)
    requires WellFormed(m, o) && NextAction(m, o, target).Perform?
    ensures var a := NextAction(m, o, target).action;
      IsDue(m, a.slot) && a == Action(a.slot, SlotStep(m, a.slot), SlotOperation(m, a.slot), Goal(o, target, a.slot))
  {
    hide IsDue, WellFormed, Dictated, NextInstalled, FirstIndex, NextPreserved, AllHome;
    NextActionIsDecisive(m, o, target);
    DictatedForm(m, o, target, NextAction(m, o, target).action);
    if NextInstalled(m.generated) < |m.generated| {
      FirstGenerated(m);
    } else if FirstIndex(m.objects, HasLiveWorking) < |m.objects| {
      FirstWorking(m);
    } else if NextPreserved(m.objects, Package) < |m.objects| {
      FirstOriginal(m, Package);
    } else if NextPreserved(m.objects, Management) < |m.objects| {
      FirstOriginal(m, Management);
    } else if NextPreserved(m.objects, Leaf) < |m.objects| {
      FirstOriginal(m, Leaf);
    }
  }

  lemma LeftIsOutstanding(m: Model, o: Origin, s: Slot)
    requires WellFormed(m, o) && IsLeft(m, s)
    ensures Outstanding(m) > 0
  {
    CountZero(m.generated, IsInstalled);
    CountZero(m.objects, HasLiveWorking);
    CountZero(m.objects, IsPreserved);
  }

  // An object has its turn exactly if the next action moves it.
  lemma TurnIsDictated(m: Model, o: Origin, target: string, s: Slot)
    requires WellFormed(m, o)
    ensures IsDue(m, s) <==> NextAction(m, o, target).Perform? && NextAction(m, o, target).action.slot == s
    ensures NextAction(m, o, target).Perform? ==> IsDue(m, NextAction(m, o, target).action.slot)
  {
    hide WellFormed, NextAction, Outstanding, Dictated;
    NextActionIsDecisive(m, o, target);
    if NextAction(m, o, target).Perform? {
      DictatedIsDue(m, o, target);
      if IsDue(m, s) {
        DueIsOne(m, s, NextAction(m, o, target).action.slot);
      }
    } else if IsDue(m, s) {
      LeftIsOutstanding(m, o, s);
    }
  }

  // A move of one object is determined by the object, its new place and its tree.
  lemma OnlyMove(m: Model, after: Model, a: Action, tree: Tree)
    requires Applicable(m, a) && SameObject(tree, At(m, a.slot).value.tree)
    ensures MovesOnly(m, after, a.slot, Entry(a.destination, tree)) <==> after == Apply(m, a, tree.changed)
  {
    var applied := Apply(m, a, tree.changed);
    assert tree == At(m, a.slot).value.tree.(changed := tree.changed);
    if MovesOnly(m, after, a.slot, Entry(a.destination, tree)) {
      assert after.objects == applied.objects;
      assert after.generated == applied.generated;
    }
  }

  /** A record is accepted exactly if it records the move of the object whose turn it is; every other record is
      refused. An accepted record leaves its own state as the model. */
  lemma AcceptedRecord(m: Model, record: Record, o: Origin, target: string)
    requires WellFormed(m, o)
    ensures ApplyConfirmedRecord(m, record, o, target).Ok? <==> exists s :: RecordsMove(m, record, o, target, s)
    ensures ApplyConfirmedRecord(m, record, o, target).Ok? ==> ApplyConfirmedRecord(m, record, o, target).value == record.state
  {
    hide WellFormed, NextAction, Apply, MovesOnly, IsDue, Dictated, Applicable;
    NextActionIsDecisive(m, o, target);
    var next := NextAction(m, o, target);
    forall s | RecordsMove(m, record, o, target, s) ensures next.Perform? && next.action.slot == s {
      TurnIsDictated(m, o, target, s);
    }
    if next.Perform? {
      var a := next.action;
      DictatedIsDue(m, o, target);
      ApplicableAt(m, a);
      if record.result.Some? && record.result.value.Renamed? && SameObject(record.result.value.treeAfter, At(m, a.slot).value.tree) {
        OnlyMove(m, record.state, a, record.result.value.treeAfter);
      }
      assert ApplyConfirmedRecord(m, record, o, target).Ok? <==> RecordsMove(m, record, o, target, a.slot);
    }
  }

  lemma ApplicableAt(m: Model, a: Action)
    requires Applicable(m, a)
    ensures At(m, a.slot).Some?
  {
  }

  // ---- Whole journals ----

  // What one row says of the model before and after it.
  ghost predicate RowHolds(m: Model, row: JournalRow, sequence: nat, states: map<nat, Record>, o: Origin, target: string, after: Model) {
    match row
    case Intent(_, _, digest) => digest == OfModel(m) && after == m
    case Result(_, _, _, _) => sequence in states && after == states[sequence].state && exists s :: RecordsMove(m, states[sequence], o, target, s)
    case Complete(digest) => (forall s :: !IsLeft(m, s)) && digest == OfModel(m) && after == m
  }

  /** The models a journal goes through: each intent and the checkpoint name the model they were written at, each
      result moves the object whose turn it is, and the checkpoint is taken with nothing left to move. */
  ghost predicate IsHistory(models: seq<Model>, rows: seq<JournalRow>, first: nat, states: map<nat, Record>, o: Origin, target: string) {
    && |models| == |rows| + 1
    && forall k :: 0 <= k < |rows| ==> RowHolds(models[k], rows[k], first + k, states, o, target, models[k + 1])
  }

  lemma NothingLeft(m: Model, o: Origin, target: string)
    requires WellFormed(m, o)
    ensures NextAction(m, o, target).Finished? <==> forall s :: !IsLeft(m, s)
    ensures NextAction(m, o, target).Finished? <==> Outstanding(m) == 0
  {
    hide WellFormed, NextAction, Outstanding, Dictated;
    NextActionIsDecisive(m, o, target);
    if NextAction(m, o, target).Perform? {
      DictatedIsDue(m, o, target);
      assert IsLeft(m, NextAction(m, o, target).action.slot);
    }
    forall s | IsLeft(m, s) ensures Outstanding(m) > 0 {
      LeftIsOutstanding(m, o, s);
    }
  }

  lemma RowIsAccepted(m: Model, row: JournalRow, sequence: nat, states: map<nat, Record>, o: Origin, target: string, after: Model)
    requires WellFormed(m, o)
    ensures ReplayRow(m, row, sequence, states, o, target) == Ok(after) <==> RowHolds(m, row, sequence, states, o, target, after)
  {
    hide WellFormed, NextAction, Outstanding, ApplyConfirmedRecord, RecordsMove, IsLeft;
    NothingLeft(m, o, target);
    if row.Result? && sequence in states {
      AcceptedRecord(m, states[sequence], o, target);
    }
  }

  lemma {:induction false} AcceptedIsHistory(m: Model, rows: seq<JournalRow>, first: nat, states: map<nat, Record>, o: Origin, target: string) returns (models: seq<Model>)
    requires WellFormed(m, o) && Replay(m, rows, first, states, o, target).Ok?
    ensures IsHistory(models, rows, first, states, o, target)
    ensures models[0] == m && models[|rows|] == Replay(m, rows, first, states, o, target).value
    decreases |rows|
  {
    hide WellFormed, ReplayRow, RowHolds;
    if rows == [] {
      models := [m];
    } else {
      var next := ReplayRow(m, rows[0], first, states, o, target).value;
      RowIsAccepted(m, rows[0], first, states, o, target, next);
      var later := AcceptedIsHistory(next, rows[1..], first + 1, states, o, target);
      models := [m] + later;
      forall k | 0 <= k < |rows| ensures RowHolds(models[k], rows[k], first + k, states, o, target, models[k + 1]) {
        if k > 0 {
          assert RowHolds(later[k - 1], rows[1..][k - 1], first + 1 + (k - 1), states, o, target, later[k]);
        }
      }
    }
  }

  lemma {:induction false} HistoryIsAccepted(models: seq<Model>, rows: seq<JournalRow>, first: nat, states: map<nat, Record>, o: Origin, target: string)
    requires models != [] && WellFormed(models[0], o) && IsHistory(models, rows, first, states, o, target)
    ensures Replay(models[0], rows, first, states, o, target) == Ok(models[|rows|])
    decreases |rows|
  {
    hide WellFormed, ReplayRow, RowHolds;
    if rows != [] {
      assert RowHolds(models[0], rows[0], first + 0, states, o, target, models[1]);
      RowIsAccepted(models[0], rows[0], first, states, o, target, models[1]);
      forall k | 0 <= k < |rows[1..]|
        ensures RowHolds(models[1..][k], rows[1..][k], first + 1 + k, states, o, target, models[1..][k + 1])
      {
        assert RowHolds(models[k + 1], rows[k + 1], first + (k + 1), states, o, target, models[k + 2]);
      }
      HistoryIsAccepted(models[1..], rows[1..], first + 1, states, o, target);
    }
  }

  /** A journal is accepted, with a model, exactly if it goes through models that end there: every other journal is
      refused. */
  lemma AcceptedExactly(m: Model, rows: seq<JournalRow>, first: nat, states: map<nat, Record>, o: Origin, target: string, after: Model)
    requires WellFormed(m, o)
    ensures Replay(m, rows, first, states, o, target) == Ok(after)
      <==> (exists models :: IsHistory(models, rows, first, states, o, target) && models[0] == m && models[|rows|] == after)
  {
    hide WellFormed, ReplayRow, RowHolds, Replay;
    if Replay(m, rows, first, states, o, target) == Ok(after) {
      var models := AcceptedIsHistory(m, rows, first, states, o, target);
    }
    forall models | IsHistory(models, rows, first, states, o, target) && models[0] == m && models[|rows|] == after
      ensures Replay(m, rows, first, states, o, target) == Ok(after)
    {
      HistoryIsAccepted(models, rows, first, states, o, target);
    }
  }

  function Moves(rows: seq<JournalRow>): nat {
    Count(rows, (row: JournalRow) => row.Result?)
  }

  lemma RecordLowers(m: Model, record: Record, o: Origin, target: string, s: Slot)
    requires WellFormed(m, o) && RecordsMove(m, record, o, target, s)
    ensures WellFormed(record.state, o) && Outstanding(record.state) == Outstanding(m) - 1 && SameOriginals(m, record.state)
  {
    hide WellFormed, NextAction, Apply, MovesOnly, IsDue, Dictated, Applicable, Outstanding;
    TurnIsDictated(m, o, target, s);
    NextActionIsDecisive(m, o, target);
    var a := NextAction(m, o, target).action;
    DictatedIsDue(m, o, target);
    OnlyMove(m, record.state, a, record.result.value.treeAfter);
    MoveLowersOutstanding(m, o, target, a, record.result.value.treeAfter.changed);
    ApplyKeepsWellFormed(m, o, target, a, record.result.value.treeAfter.changed);
    ApplyKeepsOriginals(m, a, record.result.value.treeAfter.changed);
  }

  /** An accepted journal has moved one object for each of its results: what is outstanding fell by their number,
      the same originals are recorded, and a checkpoint only comes with nothing outstanding. */
  lemma {:induction false} AcceptedLowers(m: Model, rows: seq<JournalRow>, first: nat, states: map<nat, Record>, o: Origin, target: string)
    requires WellFormed(m, o) && Replay(m, rows, first, states, o, target).Ok?
    ensures var after := Replay(m, rows, first, states, o, target).value;
      && Outstanding(after) + Moves(rows) == Outstanding(m)
      && SameOriginals(m, after)
      && (forall k :: 0 <= k < |rows| && rows[k].Complete? ==> Outstanding(m) == Moves(rows[..k]) && Outstanding(after) == 0)
    decreases |rows|
  {
    hide WellFormed, ReplayRow, RecordsMove, Outstanding, NextAction;
    if rows != [] {
      var next := ReplayRow(m, rows[0], first, states, o, target).value;
      RowIsAccepted(m, rows[0], first, states, o, target, next);
      if rows[0].Result? {
        var s :| RecordsMove(m, states[first], o, target, s);
        RecordLowers(m, states[first], o, target, s);
      }
      AcceptedLowers(next, rows[1..], first + 1, states, o, target);
      NothingLeft(m, o, target);
      forall k | 0 <= k < |rows| && rows[k].Complete?
        ensures Outstanding(m) == Moves(rows[..k]) && Outstanding(Replay(m, rows, first, states, o, target).value) == 0
      {
        if k > 0 {
          assert rows[1..][k - 1] == rows[k];
          assert rows[..k][1..] == rows[1..][..k - 1];
        }
      }
    }
  }
}
