// The recovery model and its replay validator (managedGlobalRecoveryModel.ts): which object a recovery
// run must move next, and how a recorded move rebuilds the model from the source run.
module RecoveryModel {
  import opened Wrappers
  import opened GuardedFiles

  datatype Role = Package | Management | Leaf
  datatype ObjectState = Original | Preserved | Restored | UnknownOriginal
  datatype WorkingStatus = Known | Released | AfterKnown | Absent | UnknownWorking | Quarantined
  datatype GeneratedStatus = NotInstalled | Installed | Retired | UnknownGenerated
  datatype Operation = RetainOp | WorkingCopyOp | UninstallOp | WrapperOp | RestoreOp | ManifestOp

  datatype Working = Working(status: WorkingStatus, rows: Option<Tree>, stagingName: string)
  datatype Entry = Entry(place: Place, tree: Tree)
  datatype ObjectRow = ObjectRow(step: string, role: Role, state: ObjectState, original: Entry,
                                 working: Option<Working>, workingEntry: Option<Entry>)
  datatype GeneratedRow = GeneratedRow(name: string, status: GeneratedStatus, entry: Option<Entry>)
  datatype Model = Model(source: string, confirmed: bool, objects: seq<ObjectRow>, generated: seq<GeneratedRow>)

  // What the migration plan fixes: where each original belongs, which wrappers are published and the digest
  // of each wrapper's reviewed text, and npm's own lock file when there was none.
  datatype Spec = Spec(step: string, role: Role, live: Place, backupName: string)
  datatype Origin = Origin(objects: seq<Spec>, leaves: seq<string>, wrappers: seq<string>, root: string, binDirectory: string, absentLock: Option<Place>)

  function GeneratedName(o: Origin, j: nat): string {
    if j < |o.leaves| then o.leaves[j] else "shell"
  }

  function GeneratedPlace(o: Origin, j: nat): Place {
    if j < |o.leaves| then Place(o.binDirectory, o.leaves[j]) else Place(o.root, "shell")
  }

  function BackupName(name: string, index: nat): string {
    if name == "shell" then "generated-shell" else "generated-" + Decimal(index)
  }

  // One recorded object of a model: an original, its working copy, or a generated file.
  datatype Slot = OriginalSlot(index: nat) | WorkingSlot(index: nat) | GeneratedSlot(index: nat)

  function At(m: Model, slot: Slot): Option<Entry> {
    match slot
    case OriginalSlot(i) => if i < |m.objects| then Some(m.objects[i].original) else None
    case WorkingSlot(i) => if i < |m.objects| then m.objects[i].workingEntry else None
    case GeneratedSlot(j) => if j < |m.generated| then m.generated[j].entry else None
  }

  predicate IsInstalled(row: GeneratedRow) {
    row.status == Installed
  }

  predicate IsLive(w: Option<Working>) {
    w.Some? && (w.value.status == Known || w.value.status == AfterKnown)
  }

  predicate HasLiveWorking(row: ObjectRow) {
    IsLive(row.working)
  }

  predicate IsPreserved(row: ObjectRow) {
    row.state == Preserved
  }

  predicate IsHome(state: ObjectState) {
    state == Original || state == Restored
  }

  predicate AllHome(objects: seq<ObjectRow>) {
    forall i :: 0 <= i < |objects| ==> IsHome(objects[i].state)
  }

  // Evidence that the migration loader has already checked: row counts, names, known statuses, and a
  // recorded location exactly for the objects that exist.
  predicate CoherentObject(row: ObjectRow, spec: Spec) {
    && row.step == spec.step
    && row.role == spec.role
    && row.state != UnknownOriginal
    && (row.working.Some? ==> row.working.value.status in {Known, AfterKnown, Absent, Quarantined})
    && (row.workingEntry.Some? <==> row.working.Some? && row.working.value.status != Absent)
    && (row.state == Preserved || !IsLive(row.working))
  }

  predicate CoherentGenerated(row: GeneratedRow, o: Origin, j: nat) {
    && row.name == GeneratedName(o, j)
    && row.status != UnknownGenerated
    && (row.entry.Some? <==> row.status != NotInstalled)
  }

  predicate WellFormed(m: Model, o: Origin) {
    && m.confirmed
    && |m.objects| == |o.objects|
    && |m.generated| == |o.leaves| + 1
    && (forall i :: 0 <= i < |m.objects| ==> CoherentObject(m.objects[i], o.objects[i]))
    && (forall j :: 0 <= j < |m.generated| ==> CoherentGenerated(m.generated[j], o, j))
    && (forall i, k :: 0 <= i < k < |o.objects| ==> o.objects[i].step != o.objects[k].step)
    && "shell" !in o.leaves
  }

  // assertGlobalRestoreOrder: packages come home before npm management, and both before leaves.
  predicate RestoreOrder(objects: seq<ObjectRow>, role: Role) {
    && (role != Package ==> forall i :: 0 <= i < |objects| && objects[i].role == Package ==> IsHome(objects[i].state))
    && (role == Leaf ==> forall i :: 0 <= i < |objects| && objects[i].role == Management ==> IsHome(objects[i].state))
  }

  datatype Action = Action(slot: Slot, step: string, operation: Operation, destination: Place)
  datatype Next = Perform(action: Action) | Finished | Violated(error: string)

  function RetireGenerated(m: Model, target: string, j: nat): Action
    requires j < |m.generated|
  {
    var name := m.generated[j].name;
    Action(GeneratedSlot(j), "retire.generated." + name, if name == "shell" then ManifestOp else WrapperOp,
           Place(target, "used-" + BackupName(name, j)))
  }

  function RetireWorking(m: Model, target: string, i: nat): Action
    requires i < |m.objects|
  {
    var step := m.objects[i].step;
    Action(WorkingSlot(i), "retire.working." + step, WorkingCopyOp, Place(target, "used-working-" + step))
  }

  function RestoreOriginal(m: Model, i: nat, live: Place): Action
    requires i < |m.objects|
  {
    Action(OriginalSlot(i), "restore." + m.objects[i].step, RestoreOp, live)
  }

  // The manifest is looked at first, then the wrappers in order.
  function NextInstalled(generated: seq<GeneratedRow>): (j: nat)
    ensures j < |generated| ==> IsInstalled(generated[j])
    ensures j < |generated| - 1 ==> !IsInstalled(generated[|generated| - 1]) && forall k :: 0 <= k < j ==> !IsInstalled(generated[k])
    ensures j >= |generated| ==> forall k :: 0 <= k < |generated| ==> !IsInstalled(generated[k])
  {
    if generated != [] && IsInstalled(generated[|generated| - 1]) then |generated| - 1
    else FirstIndex(generated, IsInstalled)
  }

  function NextPreserved(objects: seq<ObjectRow>, role: Role): (i: nat)
    ensures i <= |objects|
    ensures i < |objects| ==> objects[i].role == role && IsPreserved(objects[i])
    ensures forall k :: 0 <= k < i ==> !(objects[k].role == role && IsPreserved(objects[k]))
  {
    FirstIndex(objects, (row: ObjectRow) => row.role == role && IsPreserved(row))
  }

  function SpecFor(o: Origin, step: string): (spec: Option<Spec>)
    ensures spec.Some? ==> spec.value in o.objects && spec.value.step == step
    ensures spec.None? ==> forall i :: 0 <= i < |o.objects| ==> o.objects[i].step != step
  {
    var i := FirstIndex(o.objects, (s: Spec) => s.step == step);
    if i < |o.objects| then Some(o.objects[i]) else None
  }

  function RestoreNext(m: Model, o: Origin, role: Role, i: nat): Next
    requires i < |m.objects|
  {
    if !RestoreOrder(m.objects, role) then Violated("global_preservation_restore_required")
    else match SpecFor(o, m.objects[i].step)
      case None => Violated("global_recovery_spec_missing")
      case Some(spec) => Perform(RestoreOriginal(m, i, spec.live))
  }

  function NextAction(m: Model, o: Origin, target: string): Next {
    var j := NextInstalled(m.generated);
    var w := FirstIndex(m.objects, HasLiveWorking);
    var p := NextPreserved(m.objects, Package);
    var n := NextPreserved(m.objects, Management);
    var l := NextPreserved(m.objects, Leaf);
    if j < |m.generated| then Perform(RetireGenerated(m, target, j))
    else if w < |m.objects| then Perform(RetireWorking(m, target, w))
    else if p < |m.objects| then RestoreNext(m, o, Package, p)
    else if n < |m.objects| then RestoreNext(m, o, Management, n)
    else if l < |m.objects| then RestoreNext(m, o, Leaf, l)
    else if AllHome(m.objects) then Finished
    else Violated("global_recovery_model_not_terminal")
  }

  predicate Applicable(m: Model, action: Action) {
    && At(m, action.slot).Some?
    && (action.slot.WorkingSlot? ==> m.objects[action.slot.index].working.Some?)
  }

  // The model after the action's object was moved to its destination.
  function Apply(m: Model, action: Action, changed: nat): Model
    requires Applicable(m, action)
  {
    var known := At(m, action.slot).value;
    var moved := Entry(action.destination, known.tree.(changed := changed));
    match action.slot
    case GeneratedSlot(j) =>
      m.(generated := m.generated[j := m.generated[j].(status := Retired, entry := Some(moved))])
    case WorkingSlot(i) =>
      var row := m.objects[i];
      var working := row.working.value.(status := Quarantined, rows := Some(moved.tree));
      m.(objects := m.objects[i := row.(working := Some(working), workingEntry := Some(moved))])
    case OriginalSlot(i) =>
      m.(objects := m.objects[i := m.objects[i].(state := Restored, original := moved)])
  }

  // ---- What is still to be done ----

  function Outstanding(m: Model): nat {
    Count(m.generated, IsInstalled) + Count(m.objects, HasLiveWorking) + Count(m.objects, IsPreserved)
  }

  // Facts about the action that nextAction dictates.
  ghost predicate Dictated(m: Model, o: Origin, target: string, a: Action) {
    match a.slot
    case GeneratedSlot(j) =>
      j < |m.generated| && IsInstalled(m.generated[j]) && a == RetireGenerated(m, target, j)
    case WorkingSlot(i) =>
      && i < |m.objects| && HasLiveWorking(m.objects[i]) && a == RetireWorking(m, target, i)
      && forall j :: 0 <= j < |m.generated| ==> !IsInstalled(m.generated[j])
    case OriginalSlot(i) =>
      && i < |m.objects| == |o.objects| && IsPreserved(m.objects[i]) && a == RestoreOriginal(m, i, o.objects[i].live)
      && (forall j :: 0 <= j < |m.generated| ==> !IsInstalled(m.generated[j]))
      && (forall k :: 0 <= k < |m.objects| ==> !HasLiveWorking(m.objects[k]))
      && RestoreOrder(m.objects, m.objects[i].role)
  }

  lemma SpecForRow(m: Model, o: Origin, i: nat)
    requires WellFormed(m, o) && i < |m.objects|
    ensures SpecFor(o, m.objects[i].step) == Some(o.objects[i])
  {
    assert CoherentObject(m.objects[i], o.objects[i]);
    var spec := SpecFor(o, m.objects[i].step);
    assert o.objects[i].step == m.objects[i].step;
    var k :| 0 <= k < |o.objects| && o.objects[k] == spec.value;
  }

  // The restore-order assertion never fires: roles are restored in the order it demands.
  lemma RestoreOrderHolds(m: Model, o: Origin, role: Role)
    requires WellFormed(m, o)
    requires role != Package ==> NextPreserved(m.objects, Package) == |m.objects|
    requires role == Leaf ==> NextPreserved(m.objects, Management) == |m.objects|
    ensures RestoreOrder(m.objects, role)
  {
    forall i | 0 <= i < |m.objects| && !IsHome(m.objects[i].state)
      ensures role != Package ==> m.objects[i].role != Package
      ensures role == Leaf ==> m.objects[i].role != Management
    {
      assert CoherentObject(m.objects[i], o.objects[i]);
      assert IsPreserved(m.objects[i]);
    }
  }

  // Once nothing generated or working is live, restoring the first preserved object of a role is allowed.
  lemma RestoreNextPerforms(m: Model, o: Origin, target: string, role: Role)
    requires WellFormed(m, o)
    requires NextInstalled(m.generated) >= |m.generated|
    requires forall k :: 0 <= k < |m.objects| ==> !HasLiveWorking(m.objects[k])
    requires role != Package ==> NextPreserved(m.objects, Package) == |m.objects|
    requires role == Leaf ==> NextPreserved(m.objects, Management) == |m.objects|
    requires NextPreserved(m.objects, role) < |m.objects|
    ensures var next := RestoreNext(m, o, role, NextPreserved(m.objects, role));
      next.Perform? && Dictated(m, o, target, next.action)
  {
    var i := NextPreserved(m.objects, role);
    SpecForRow(m, o, i);
    RestoreOrderHolds(m, o, role);
  }

  lemma NoneOutstanding(m: Model, o: Origin)
    requires WellFormed(m, o)
    ensures Outstanding(m) == 0 <==>
      && NextInstalled(m.generated) >= |m.generated|
      && FirstIndex(m.objects, HasLiveWorking) == |m.objects|
      && NextPreserved(m.objects, Package) == |m.objects|
      && NextPreserved(m.objects, Management) == |m.objects|
      && NextPreserved(m.objects, Leaf) == |m.objects|
    ensures Outstanding(m) == 0 ==> AllHome(m.objects)
  {
    CountZero(m.generated, IsInstalled);
    CountZero(m.objects, HasLiveWorking);
    CountZero(m.objects, IsPreserved);
    if Outstanding(m) == 0 {
      forall i | 0 <= i < |m.objects| ensures IsHome(m.objects[i].state) {
        assert CoherentObject(m.objects[i], o.objects[i]);
        assert !IsPreserved(m.objects[i]);
      }
    }
  }

  /** nextAction never fails on a well-formed model; it dictates one move, or nothing exactly when every
      original is home and nothing generated or working is live. */
  lemma NextActionIsDecisive(m: Model, o: Origin, target: string)
    requires WellFormed(m, o)
    ensures !NextAction(m, o, target).Violated?
    ensures NextAction(m, o, target).Finished? <==> Outstanding(m) == 0
    ensures NextAction(m, o, target).Perform? ==>
      var a := NextAction(m, o, target).action; Dictated(m, o, target, a) && Applicable(m, a)
  {
    NoneOutstanding(m, o);
    var j := NextInstalled(m.generated);
    var w := FirstIndex(m.objects, HasLiveWorking);
    if j < |m.generated| {
      assert CoherentGenerated(m.generated[j], o, j);
    } else if w < |m.objects| {
      assert CoherentObject(m.objects[w], o.objects[w]);
    } else if NextPreserved(m.objects, Package) < |m.objects| {
      RestoreNextPerforms(m, o, target, Package);
    } else if NextPreserved(m.objects, Management) < |m.objects| {
      RestoreNextPerforms(m, o, target, Management);
    } else if NextPreserved(m.objects, Leaf) < |m.objects| {
      RestoreNextPerforms(m, o, target, Leaf);
    }
  }

  lemma ApplyKeepsWellFormed(m: Model, o: Origin, target: string, a: Action, changed: nat)
    requires WellFormed(m, o) && Dictated(m, o, target, a) && Applicable(m, a)
    ensures WellFormed(Apply(m, a, changed), o)
  {
    var after := Apply(m, a, changed);
    forall i | 0 <= i < |after.objects| ensures CoherentObject(after.objects[i], o.objects[i]) {
      assert CoherentObject(m.objects[i], o.objects[i]);
    }
    forall j | 0 <= j < |after.generated| ensures CoherentGenerated(after.generated[j], o, j) {
      assert CoherentGenerated(m.generated[j], o, j);
    }
  }

  /** Every recorded move lowers the number of outstanding objects by exactly one. */
  lemma MoveLowersOutstanding(m: Model, o: Origin, target: string, a: Action, changed: nat)
    requires WellFormed(m, o) && Dictated(m, o, target, a) && Applicable(m, a)
    ensures Outstanding(Apply(m, a, changed)) == Outstanding(m) - 1
  {
    var after := Apply(m, a, changed);
    match a.slot
    case GeneratedSlot(j) =>
      CountUpdate(m.generated, IsInstalled, j, after.generated[j]);
    case WorkingSlot(i) =>
      CountUpdate(m.objects, HasLiveWorking, i, after.objects[i]);
      CountUpdate(m.objects, IsPreserved, i, after.objects[i]);
    case OriginalSlot(i) =>
      CountUpdate(m.objects, HasLiveWorking, i, after.objects[i]);
      CountUpdate(m.objects, IsPreserved, i, after.objects[i]);
  }

  // ---- Recorded moves and their replay ----

  // What the path guard returns: the move, or that it is not confirmed and whether a rename was issued.
  datatype MoveResult = Renamed(treeBefore: Tree, treeAfter: Tree) | NotRenamed(treeBefore: Tree, issued: bool)
  datatype Record = Record(source: string, step: string, operation: Operation, state: Model,
                           renameAttempted: bool, renameIssued: Option<bool>, result: Option<MoveResult>)

  // A digest names exactly the value it was taken of: the hash is treated as injective.
  datatype Digest = OfModel(model: Model) | OfRecord(record: Record)

  datatype JournalRow =
    | Intent(step: string, operation: Operation, digest: Digest)
    | Result(step: string, operation: Operation, confirmed: bool, digest: Digest)
    | Complete(digest: Digest)

  /** Replay is validation of recorded data only: the record must name the dictated action, describe a
      confirmed move that changed nothing but the root change time, and carry the resulting model. */
  function ApplyConfirmedRecord(m: Model, record: Record, o: Origin, target: string): (r: Result<Model>)
    requires WellFormed(m, o)
    ensures r.Ok? ==> WellFormed(r.value, o) && record.state == r.value
  {
    if !(record.source == m.source && record.renameAttempted && record.renameIssued == Some(true)) then
      Err("global_recovery_record_unconfirmed")
    else
      NextActionIsDecisive(m, o, target);
      match NextAction(m, o, target)
      case Finished => Err("global_recovery_transition_out_of_scope")
      case Perform(action) =>
        if !(record.step == action.step && record.operation == action.operation) then
          Err("global_recovery_transition_out_of_scope")
        else if record.result.None? || record.result.value.NotRenamed? then
          Err("global_recovery_move_result_unknown")
        else if record.result.value.treeBefore != At(m, action.slot).value.tree then
          Err("global_recovery_move_source_changed")
        else if record.result.value.treeAfter
                != record.result.value.treeBefore.(changed := record.result.value.treeAfter.changed) then
          Err("global_recovery_move_identity_changed")
        else
          var after := Apply(m, action, record.result.value.treeAfter.changed);
          ApplyKeepsWellFormed(m, o, target, action, record.result.value.treeAfter.changed);
          if record.state != after then Err("global_recovery_record_paths_or_state_changed") else Ok(after)
  }

  function ReplayRow(m: Model, row: JournalRow, sequence: nat, states: map<nat, Record>, o: Origin, target: string): (r: Result<Model>)
    requires WellFormed(m, o)
    ensures r.Ok? ==> WellFormed(r.value, o)
  {
    match row
    case Intent(_, _, digest) =>
      if digest == OfModel(m) then Ok(m) else Err("global_recovery_intent_state_changed")
    case Result(_, _, _, _) =>
      if sequence !in states then Err("global_recovery_record_required")
      else ApplyConfirmedRecord(m, states[sequence], o, target)
    case Complete(digest) =>
      if !NextAction(m, o, target).Finished? then Err("global_recovery_completion_is_partial")
      else if digest == OfModel(m) then Ok(m) else Err("global_recovery_checkpoint_changed")
  }

  // Replays the rows in order; `first` is the sequence number of the first one.
  function Replay(m: Model, rows: seq<JournalRow>, first: nat, states: map<nat, Record>, o: Origin, target: string): (r: Result<Model>)
    requires WellFormed(m, o)
    ensures r.Ok? ==> WellFormed(r.value, o)
    decreases |rows|
  {
    if rows == [] then Ok(m)
    else
      var next :- ReplayRow(m, rows[0], first, states, o, target);
      Replay(next, rows[1..], first + 1, states, o, target)
  }

  lemma {:induction false} ReplayExtends(m: Model, rows: seq<JournalRow>, row: JournalRow, first: nat, states: map<nat, Record>, o: Origin, target: string)
    requires WellFormed(m, o)
    ensures Replay(m, rows + [row], first, states, o, target)
      == match Replay(m, rows, first, states, o, target)
         case Err(e) => Err(e)
         case Ok(mid) => ReplayRow(mid, row, first + |rows|, states, o, target)
    decreases |rows|
  {
    hide ReplayRow, WellFormed;
    if rows == [] {
      assert rows + [row] == [row];
      assert [row][1..] == [];
    } else {
      assert (rows + [row])[1..] == rows[1..] + [row];
      var next := ReplayRow(m, rows[0], first, states, o, target);
      if next.Ok? {
        ReplayExtends(next.value, rows[1..], row, first + 1, states, o, target);
      }
    }
  }

  // Replay looks only at the evidence of the rows it reads.
  lemma {:induction false} ReplayIgnoresLaterStates(m: Model, rows: seq<JournalRow>, first: nat, states: map<nat, Record>, k: nat, record: Record, o: Origin, target: string)
    requires WellFormed(m, o) && k >= first + |rows|
    ensures Replay(m, rows, first, states[k := record], o, target) == Replay(m, rows, first, states, o, target)
    decreases |rows|
  {
    hide WellFormed, ApplyConfirmedRecord, NextAction;
    if rows != [] {
      var next := ReplayRow(m, rows[0], first, states, o, target);
      if next.Ok? {
        ReplayIgnoresLaterStates(next.value, rows[1..], first + 1, states, k, record, o, target);
      }
    }
  }

  /** validateRecoveryJournalState: the loop over journal rows, updating the model as it goes. */
  method ValidateRecoveryJournalState(source: Model, rows: seq<JournalRow>, states: map<nat, Record>, o: Origin, target: string)
    returns (outcome: Result<Model>)
    requires WellFormed(source, o)
    ensures outcome == Replay(source, rows, 1, states, o, target)
  {
    hide WellFormed, NextAction, ApplyConfirmedRecord;
    var model := source;
    var k := 0;
    while k < |rows|
      invariant 0 <= k <= |rows|
      invariant WellFormed(model, o)
      invariant Replay(source, rows, 1, states, o, target) == Replay(model, rows[k..], k + 1, states, o, target)
    {
      var row := rows[k];
      assert rows[k..][0] == row && rows[k..][1..] == rows[k + 1..];
      match row {
        case Intent(_, _, digest) =>
          if digest != OfModel(model) {
            return Err("global_recovery_intent_state_changed");
          }
        case Result(_, _, _, _) =>
          if k + 1 !in states {
            return Err("global_recovery_record_required");
          }
          var applied := ApplyConfirmedRecord(model, states[k + 1], o, target);
          if applied.Err? {
            return Err(applied.error);
          }
          model := applied.value;
        case Complete(digest) =>
          if !NextAction(model, o, target).Finished? {
            return Err("global_recovery_completion_is_partial");
          }
          if digest != OfModel(model) {
            return Err("global_recovery_checkpoint_changed");
          }
      }
      k := k + 1;
    }
    return Ok(model);
  }
}
