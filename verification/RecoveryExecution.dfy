// The recovery executor (managedGlobalRecoveryExecution.ts) and its refinement to the one-step rule
// that follows nextAction.
module RecoveryExecution {
  import opened Wrappers
  import opened GuardedFiles
  import opened RecoveryModel
  import opened RecoverySafety
  import opened ObjectCheck

  // What the environment allows at the next step of a run. The executor's own look at the objects is not
  // among it: that is part of the step rule.
  datatype Event =
    | Refuse                                  // a check before the intent fails, or the process ends there
    | Interrupt(moved: bool, changed: nat)    // the process ends between the intent and the result
    | Uncertain(at: Point, changed: nat)      // the move is not confirmed: an "unknown" result is recorded
    | Confirm(changed: nat)                   // the rename is confirmed with this root change time

  // Where an unconfirmed move stood: a check before the rename failed, the rename itself was not confirmed (it
  // did or did not happen, and the guard failed or returned whether it was issued), or it was confirmed and a
  // check after it failed.
  datatype Point = BeforeRename | AtRename(moved: bool, issued: Option<bool>) | AfterRename

  datatype Status = Running | Stopped | Interrupted | Poisoned | Completed

  // `model` is what the last confirmed row says; `slots` are the names looked at for unknown objects.
  datatype Run = Run(model: Model, files: Files, slots: set<Place>, journal: seq<JournalRow>, states: map<nat, Record>, status: Status)

  function StartRun(m: Model, files: Files, slots: set<Place>): Run {
    Run(m, files, slots, [], map[], Running)
  }

  function MoveIf(files: Files, from: Place, to: Place, changed: nat, moved: bool): Files {
    if moved && CanMove(files, from, to) then Move(files, from, to, changed) else files
  }

  function ConfirmedRecord(m: Model, a: Action, changed: nat): Record
    requires Applicable(m, a)
  {
    var before := At(m, a.slot).value.tree;
    Record(m.source, a.step, a.operation, Apply(m, a, changed), true, Some(true),
           Some(Renamed(before, before.(changed := changed))))
  }

  // What the guard returned of a rename that is not confirmed; it may have failed instead.
  function Returned(before: Tree, issued: Option<bool>): Option<MoveResult> {
    if issued.None? then None else Some(NotRenamed(before, issued.value))
  }

  // `renameIssued` of a record: what the result says, else unknown once a rename was attempted.
  function Issued(attempted: bool, result: Option<MoveResult>): Option<bool> {
    match result
    case None => if attempted then None else Some(false)
    case Some(Renamed(_, _)) => Some(true)
    case Some(NotRenamed(_, issued)) => Some(issued)
  }

  // The evidence of a move that was not confirmed: it may already show the moved object.
  function UnconfirmedRecord(m: Model, a: Action, at: Point, changed: nat): Record
    requires Applicable(m, a)
  {
    match at
    case BeforeRename => Record(m.source, a.step, a.operation, m.(confirmed := false), false, Some(false), None)
    case AtRename(_, issued) =>
      Record(m.source, a.step, a.operation, m.(confirmed := false), true, issued, Returned(At(m, a.slot).value.tree, issued))
    case AfterRename =>
      var record := ConfirmedRecord(m, a, changed);
      record.(state := record.state.(confirmed := false))
  }

  // A move that ended unconfirmed at some point.
  function Unconfirmed(run: Run, a: Action, at: Point, changed: nat): Run
    requires Applicable(run.model, a)
  {
    var record := UnconfirmedRecord(run.model, a, at, changed);
    var from := At(run.model, a.slot).value.place;
    run.(files := MoveIf(run.files, from, a.destination, changed, at.AfterRename? || (at.AtRename? && at.moved)),
         slots := run.slots + {a.destination},
         journal := run.journal + [Intent(a.step, a.operation, OfModel(run.model))] + [Result(a.step, a.operation, false, OfRecord(record))],
         states := run.states[|run.journal| + 2 := record],
         status := Poisoned)
  }

  function IssuedBy(e: Event): Option<bool> {
    if e.Uncertain? && e.at.AtRename? then e.at.issued else None
  }

  // Where a move the environment would confirm, or doubt, really ends: the executor looks at the objects
  // before the rename, with the destination among the slots, and again after it.
  function EndsAt(run: Run, a: Action, e: Event): Option<Point>
    requires Applicable(run.model, a)
  {
    var from := At(run.model, a.slot).value.place;
    var slots := run.slots + {a.destination};
    if !Verified(run.model, run.files, slots) || (e.Uncertain? && e.at.BeforeRename?) then Some(BeforeRename)
    else if !CanMove(run.files, from, a.destination) then Some(AtRename(false, IssuedBy(e)))
    else if e.Uncertain? then Some(e.at)
    else if e.Confirm? && Verified(Apply(run.model, a, e.changed), Move(run.files, from, a.destination, e.changed), slots) then None
    else Some(AfterRename)
  }

  // One journaled move: intent, rename, private state evidence, result.
  function Attempt(run: Run, a: Action, e: Event): Run
    requires Applicable(run.model, a)
  {
    var from := At(run.model, a.slot).value.place;
    var intent := Intent(a.step, a.operation, OfModel(run.model));
    if e.Refuse? || !Verified(run.model, run.files, run.slots) then
      run.(status := Stopped)
    else if e.Interrupt? then
      run.(journal := run.journal + [intent], slots := run.slots + {a.destination},
           files := MoveIf(run.files, from, a.destination, e.changed, e.moved), status := Interrupted)
    else match EndsAt(run, a, e)
      case Some(at) => Unconfirmed(run, a, at, e.changed)
      case None =>
        var record := ConfirmedRecord(run.model, a, e.changed);
        Run(record.state, Move(run.files, from, a.destination, e.changed), run.slots + {a.destination},
            run.journal + [intent] + [Result(a.step, a.operation, true, OfRecord(record))],
            run.states[|run.journal| + 2 := record], Running)
  }

  // The step rule: nextAction alone decides what happens next. A violated assertion ends the run.
  function Step(run: Run, o: Origin, target: string, e: Event): Run {
    match NextAction(run.model, o, target)
    case Violated(_) => run.(status := Stopped)
    case Finished =>
      if e.Confirm? && Verified(run.model, run.files, run.slots) then
        run.(journal := run.journal + [Complete(OfModel(run.model))], status := Completed)
      else run.(status := Stopped)
    case Perform(a) =>
      if Applicable(run.model, a) then Attempt(run, a, e) else run.(status := Stopped)
  }

  // A whole run. It ends when the script does, or at the first event that is not a confirmation.
  function Drive(run: Run, o: Origin, target: string, script: seq<Event>): (r: Run)
    ensures r.status != Running
    decreases |script|
  {
    if run.status != Running then run
    else if script == [] then run.(status := Stopped)
    else Drive(Step(run, o, target, script[0]), o, target, script[1..])
  }

  lemma StepKeepsWellFormed(run: Run, o: Origin, target: string, e: Event)
    requires WellFormed(run.model, o)
    ensures WellFormed(Step(run, o, target, e).model, o)
  {
    hide Verified;
    NextActionIsDecisive(run.model, o, target);
    var next := NextAction(run.model, o, target);
    if next.Perform? && e.Confirm? {
      ApplyKeepsWellFormed(run.model, o, target, next.action, e.changed);
    }
  }

  /** recoverGlobalMigration: the rows it updates in place, the journal it writes, and the order of its loops. */
  class RecoveryExecutor {
    const origin: Origin
    const target: string
    const source: string
    var objects: seq<ObjectRow>
    var generated: seq<GeneratedRow>
    var files: Files
    var slots: set<Place>
    var journal: seq<JournalRow>
    var states: map<nat, Record>
    var status: Status
    var script: seq<Event>
    ghost var confirmedModel: Model    // the rows before a move that was not confirmed

    constructor (m: Model, files: Files, slots: set<Place>, o: Origin, target: string, script: seq<Event>)
      requires WellFormed(m, o)
      ensures State() == StartRun(m, files, slots)
      ensures origin == o && this.target == target && this.script == script
    {
      origin, this.target, source := o, target, m.source;
      objects, generated := m.objects, m.generated;
      this.files, this.slots, journal, states, status, this.script := files, slots, [], map[], Running, script;
      confirmedModel := m;
    }

    function Snapshot(): Model
      reads this
    {
      Model(source, true, objects, generated)
    }

    ghost function State(): Run
      reads this
    {
      Run(if status == Poisoned then confirmedModel else Snapshot(), files, slots, journal, states, status)
    }

    // What the rest of the run will come to, if it follows the step rule.
    ghost function Outcome(): Run
      reads this
    {
      Drive(State(), origin, target, script)
    }

    // The row update that belongs to a moved object's slot.
    method Relocate(slot: Slot, destination: Place, changed: nat)
      requires Applicable(Snapshot(), Action(slot, "", RestoreOp, destination))
      modifies this`objects, this`generated
      ensures Snapshot() == Apply(old(Snapshot()), Action(slot, "", RestoreOp, destination), changed)
    {
      match slot {
        case GeneratedSlot(j) =>
          var row := generated[j];
          generated := generated[j := row.(status := Retired, entry := Some(Entry(destination, row.entry.value.tree.(changed := changed))))];
        case WorkingSlot(i) =>
          var row := objects[i];
          var moved := Entry(destination, row.workingEntry.value.tree.(changed := changed));
          var working := row.working.value.(status := Quarantined, rows := Some(moved.tree));
          objects := objects[i := row.(working := Some(working), workingEntry := Some(moved))];
        case OriginalSlot(i) =>
          var row := objects[i];
          objects := objects[i := row.(state := Restored, original := Entry(destination, row.original.tree.(changed := changed)))];
      }
    }

    // The `move` closure: one journaled move and its row update.
    method MoveObject(slot: Slot, step: string, operation: Operation, destination: Place)
      requires status == Running && Applicable(Snapshot(), Action(slot, step, operation, destination))
      modifies this
      ensures old(script) == [] ==> State() == old(State()).(status := Stopped) && script == []
      ensures old(script) != [] ==>
        && State() == Attempt(old(State()), Action(slot, step, operation, destination), old(script)[0])
        && script == old(script)[1..]
    {
      hide Verified, EndsAt, Apply, UnconfirmedRecord, ConfirmedRecord;
      if script == [] {
        status := Stopped;
        return;
      }
      var event := script[0];
      script := script[1..];
      if event.Refuse? {
        status := Stopped;
        return;
      }
      var same := VerifyObjects(Snapshot(), files, slots);
      if !same {
        status := Stopped;
        return;
      }
      var known := At(Snapshot(), slot).value;
      slots := slots + {destination};
      confirmedModel := Snapshot();
      journal := journal + [Intent(step, operation, OfModel(Snapshot()))];
      if event.Interrupt? {
        if event.moved && CanMove(files, known.place, destination) {
          files := Move(files, known.place, destination, event.changed);
        }
        status := Interrupted;
        return;
      }
      ghost var action := Action(slot, step, operation, destination);
      EndsAtFrame(old(State()), State(), action, event);
      var attempted, result, poisoned := TryRename(Action(slot, step, operation, destination), event);
      WriteResult(step, operation, attempted, result, poisoned);
      AttemptEnds(old(State()), action, event);
    }

    // The private state evidence, then the result.
    method WriteResult(step: string, operation: Operation, attempted: bool, result: Option<MoveResult>, poisoned: bool)
      modifies this`states, this`journal, this`status
      ensures var record := Record(source, step, operation, Snapshot().(confirmed := !poisoned), attempted, Issued(attempted, result), result);
        && states == old(states)[|old(journal)| + 1 := record]
        && journal == old(journal) + [Result(step, operation, !poisoned, OfRecord(record))]
        && status == (if poisoned then Poisoned else old(status))
    {
      var record := Record(source, step, operation, Snapshot().(confirmed := !poisoned), attempted, Issued(attempted, result), result);
      states := states[|journal| + 1 := record];
      journal := journal + [Result(step, operation, !poisoned, OfRecord(record))];
      if poisoned {
        status := Poisoned;
      }
    }

    // The rename between two looks at the objects.
    method TryRename(a: Action, event: Event) returns (attempted: bool, result: Option<MoveResult>, poisoned: bool)
      requires status == Running && Applicable(Snapshot(), a) && a.destination in slots
      requires event.Confirm? || event.Uncertain?
      modifies this`files, this`objects, this`generated
      ensures var run, from := old(State()), old(At(Snapshot(), a.slot).value);
        var at := EndsAt(run, a, event);
        && poisoned == at.Some?
        && attempted == (at != Some(BeforeRename))
        && (at.None? || at.value.AfterRename? ==> CanMove(run.files, from.place, a.destination))
        && files == (if at.None? || at.value.AfterRename? then Move(run.files, from.place, a.destination, event.changed)
                     else MoveIf(run.files, from.place, a.destination, event.changed, at.value.AtRename? && at.value.moved))
        && Snapshot() == (if at.None? || at.value.AfterRename? then Apply(run.model, a, event.changed) else run.model)
        && result == (if at.None? || at.value.AfterRename? then Some(Renamed(from.tree, from.tree.(changed := event.changed)))
                      else if at.value.AtRename? then Returned(from.tree, at.value.issued) else None)
    {
      hide Verified, Apply;
      assert slots + {a.destination} == slots;
      var known := At(Snapshot(), a.slot).value;
      var same := VerifyObjects(Snapshot(), files, slots);
      if !same || (event.Uncertain? && event.at.BeforeRename?) {
        return false, None, true;
      }
      if !CanMove(files, known.place, a.destination) || (event.Uncertain? && event.at.AtRename? && !event.at.moved) {
        return true, Returned(known.tree, IssuedBy(event)), true;
      }
      files := Move(files, known.place, a.destination, event.changed);
      if event.Uncertain? && event.at.AtRename? {
        return true, Returned(known.tree, event.at.issued), true;
      }
      ApplyByPlace(Snapshot(), a, event.changed);
      Relocate(a.slot, a.destination, event.changed);
      result := Some(Renamed(known.tree, known.tree.(changed := event.changed)));
      same := VerifyObjects(Snapshot(), files, slots);
      return true, result, event.Uncertain? || !same;
    }

    // A move that nextAction dictates is one step of the rule.
    method MoveDictated(slot: Slot, step: string, operation: Operation, destination: Place)
      requires status == Running && Applicable(Snapshot(), Action(slot, step, operation, destination))
      requires NextAction(Snapshot(), origin, target) == Perform(Action(slot, step, operation, destination))
      requires WellFormed(Snapshot(), origin)
      modifies this
      ensures Outcome() == old(Outcome())
      ensures status == Running ==> WellFormed(Snapshot(), origin)
      ensures status != Running ==> State() == Outcome()
      ensures status == Running ==>
        exists changed :: Snapshot() == Apply(old(Snapshot()), Action(slot, step, operation, destination), changed)
    {
      hide Drive, Attempt, Apply, NextAction, WellFormed;
      ghost var before, events := State(), script;
      ghost var action := Action(slot, step, operation, destination);
      MoveObject(slot, step, operation, destination);
      DictatedAttempt(before, origin, target, action, events);
      DriveEnded(before.(status := Stopped), origin, target, []);
    }

    /** The three loops of the executor (generated files, working copies, originals role by role) make
        exactly the moves nextAction dictates, for every script of events. */
    method Recover()
      requires WellFormed(Snapshot(), origin) && status == Running
      modifies this
      ensures State() == old(Drive(State(), origin, target, script))
    {
      hide Drive, NextAction, WellFormed;
      HasManifest(Snapshot(), origin);
      RetireManifest();
      if status != Running {
        return;
      }
      RetireWrappers();
      if status != Running {
        return;
      }
      RetireWorkingCopies();
      if status != Running {
        return;
      }
      RestoreRole(Package);
      if status != Running {
        return;
      }
      RestoreRole(Management);
      if status != Running {
        return;
      }
      RestoreRole(Leaf);
      if status != Running {
        return;
      }
      NothingLeft(Snapshot(), origin, target);
      Checkpoint();
    }

    method Checkpoint()
      requires WellFormed(Snapshot(), origin) && status == Running
      requires NextAction(Snapshot(), origin, target).Finished?
      modifies this
      ensures State() == old(Outcome())
    {
      hide Verified, Attempt, NextAction, WellFormed, AllHome;
      ghost var before, events := State(), script;
      FinishedMeansHome(Snapshot(), origin, target);
      assert AllHome(objects);
      if script == [] {
        status := Stopped;
        return;
      }
      var same := VerifyObjects(Snapshot(), files, slots);
      if script[0].Confirm? && same {
        journal := journal + [Complete(OfModel(Snapshot()))];
        status := Completed;
      } else {
        status := Stopped;
      }
      script := script[1..];
      assert State() == Step(before, origin, target, events[0]);
      DriveEnded(State(), origin, target, events[1..]);
    }

    method RetireManifest()
      requires WellFormed(Snapshot(), origin) && status == Running && |generated| > 0
      modifies this
      ensures Outcome() == old(Outcome()) && (status == Running ==> WellFormed(Snapshot(), origin))
      ensures status != Running ==> State() == Outcome()
      ensures status == Running ==> |generated| == old(|generated|) && !IsInstalled(generated[|generated| - 1])
    {
      hide Drive, WellFormed;
      var last := |generated| - 1;
      if generated[last].status == Installed {
        RetireGeneratedFile(last);
      }
    }

    method RetireWrappers()
      requires WellFormed(Snapshot(), origin) && status == Running
      requires |generated| > 0 && !IsInstalled(generated[|generated| - 1])
      modifies this
      ensures Outcome() == old(Outcome()) && (status == Running ==> WellFormed(Snapshot(), origin))
      ensures status != Running ==> State() == Outcome()
      ensures status == Running ==> NoneInstalled(generated)
    {
      hide Drive, WellFormed;
      var j := 0;
      while j < |generated| - 1
        invariant 0 <= j < |generated|
        invariant WellFormed(Snapshot(), origin) && status == Running && Outcome() == old(Outcome())
        invariant !IsInstalled(generated[|generated| - 1])
        invariant forall n :: 0 <= n < j ==> !IsInstalled(generated[n])
      {
        if generated[j].status == Installed {
          RetireGeneratedFile(j);
          if status != Running {
            return;
          }
        }
        j := j + 1;
      }
    }

    method RetireGeneratedFile(j: nat)
      requires WellFormed(Snapshot(), origin) && status == Running
      requires j < |generated| && IsInstalled(generated[j])
      requires j < |generated| - 1 ==> !IsInstalled(generated[|generated| - 1])
      requires j < |generated| - 1 ==> forall n :: 0 <= n < j ==> !IsInstalled(generated[n])
      modifies this
      ensures Outcome() == old(Outcome()) && (status == Running ==> WellFormed(Snapshot(), origin))
      ensures status != Running ==> State() == Outcome()
      ensures status == Running ==> |generated| == old(|generated|)
      ensures status == Running ==>
        forall n :: 0 <= n < |generated| ==> if n == j then !IsInstalled(generated[n]) else generated[n] == old(generated)[n]
    {
      hide Drive, NextAction, WellFormed, BackupName;
      GeneratedTurn(Snapshot(), origin, target, j);
      var row := generated[j];
      var operation := if row.name == "shell" then ManifestOp else WrapperOp;
      MoveDictated(GeneratedSlot(j), "retire.generated." + row.name, operation, Place(target, "used-" + BackupName(row.name, j)));
    }

    method RetireWorkingCopies()
      requires WellFormed(Snapshot(), origin) && status == Running && NoneInstalled(generated)
      modifies this
      ensures Outcome() == old(Outcome()) && (status == Running ==> WellFormed(Snapshot(), origin))
      ensures status != Running ==> State() == Outcome()
      ensures status == Running ==> NoneInstalled(generated) && NoneLive(objects)
    {
      hide Drive, NextAction, WellFormed;
      var i := 0;
      while i < |objects|
        invariant 0 <= i <= |objects|
        invariant WellFormed(Snapshot(), origin) && status == Running && Outcome() == old(Outcome())
        invariant NoneInstalled(generated)
        invariant forall k :: 0 <= k < i ==> !HasLiveWorking(objects[k])
      {
        var row := objects[i];
        if row.working.Some? && (row.working.value.status == Known || row.working.value.status == AfterKnown) {
          WorkingTurn(Snapshot(), origin, target, i);
          MoveDictated(WorkingSlot(i), "retire.working." + row.step, WorkingCopyOp, Place(target, "used-working-" + row.step));
          if status != Running {
            return;
          }
        }
        i := i + 1;
      }
    }

    method RestoreRole(role: Role)
      requires WellFormed(Snapshot(), origin) && status == Running
      requires NoneInstalled(generated) && NoneLive(objects)
      requires role != Package ==> NonePreserved(objects, Package)
      requires role == Leaf ==> NonePreserved(objects, Management)
      modifies this
      ensures Outcome() == old(Outcome()) && (status == Running ==> WellFormed(Snapshot(), origin))
      ensures status != Running ==> State() == Outcome()
      ensures status == Running ==> NoneInstalled(generated) && NoneLive(objects) && NonePreserved(objects, role)
      ensures status == Running ==> forall other :: old(NonePreserved(objects, other)) ==> NonePreserved(objects, other)
    {
      hide Drive, NextAction, WellFormed;
      var i := 0;
      while i < |objects|
        invariant 0 <= i <= |objects|
        invariant WellFormed(Snapshot(), origin) && status == Running && Outcome() == old(Outcome())
        invariant NoneInstalled(generated) && NoneLive(objects)
        invariant forall k :: 0 <= k < i ==> !(objects[k].role == role && IsPreserved(objects[k]))
        invariant forall other :: old(NonePreserved(objects, other)) ==> NonePreserved(objects, other)
      {
        var row := objects[i];
        if row.role == role && row.state == Preserved {
          RestoreTurn(Snapshot(), origin, target, role, i);
          assert RestoreOrder(objects, role);
          var spec := SpecFor(origin, row.step);
          MoveDictated(OriginalSlot(i), "restore." + row.step, RestoreOp, spec.value.live);
          if status != Running {
            return;
          }
        }
        i := i + 1;
      }
    }
  }

  // One dictated attempt is one step of the run.
  lemma DictatedAttempt(before: Run, o: Origin, target: string, a: Action, events: seq<Event>)
    requires before.status == Running && WellFormed(before.model, o) && Applicable(before.model, a)
    requires NextAction(before.model, o, target) == Perform(a)
    ensures events == [] ==> Drive(before, o, target, events) == before.(status := Stopped)
    ensures events != [] ==>
      var after := Attempt(before, a, events[0]);
      && Drive(before, o, target, events) == Drive(after, o, target, events[1..])
      && WellFormed(after.model, o)
      && (after.status == Running ==> events[0].Confirm? && after.model == Apply(before.model, a, events[0].changed))
      && (after.status != Running ==> Drive(after, o, target, events[1..]) == after)
  {
    hide WellFormed, NextAction, Verified, UnconfirmedRecord;
    if events != [] {
      StepKeepsWellFormed(before, o, target, events[0]);
    }
  }

  // A move that gets past its intent, field by field.
  lemma AttemptEnds(run: Run, a: Action, e: Event)
    requires Applicable(run.model, a) && !e.Refuse? && !e.Interrupt? && Verified(run.model, run.files, run.slots)
    ensures var at, next := EndsAt(run, a, e), Attempt(run, a, e);
      var known := At(run.model, a.slot).value;
      var moved := at.None? || at.value.AfterRename?;
      var state := if moved then Apply(run.model, a, e.changed) else run.model;
      var attempted := at != Some(BeforeRename);
      var result := if moved then Some(Renamed(known.tree, known.tree.(changed := e.changed)))
                    else if at.value.AtRename? then Returned(known.tree, at.value.issued) else None;
      var record := Record(run.model.source, a.step, a.operation, if at.None? then state else state.(confirmed := false),
                           attempted, Issued(attempted, result), result);
      && next.model == (if at.None? then state else run.model)
      && next.files == (if at.None? then Move(run.files, known.place, a.destination, e.changed)
                        else MoveIf(run.files, known.place, a.destination, e.changed, moved || (at.value.AtRename? && at.value.moved)))
      && next.slots == run.slots + {a.destination}
      && next.journal == run.journal + [Intent(a.step, a.operation, OfModel(run.model))] + [Result(a.step, a.operation, at.None?, OfRecord(record))]
      && next.states == run.states[|run.journal| + 2 := record]
      && next.status == (if at.None? then Running else Poisoned)
  {
    hide Verified, Apply, CanMove;
  }

  lemma FinishedMeansHome(m: Model, o: Origin, target: string)
    requires NextAction(m, o, target).Finished?
    ensures AllHome(m.objects)
  {
    hide AllHome;
  }

  // Where a move ends depends on the rows, the files and the names looked at.
  lemma EndsAtFrame(before: Run, run: Run, a: Action, e: Event)
    requires Applicable(before.model, a) && run.model == before.model && run.files == before.files
    requires run.slots == before.slots + {a.destination}
    ensures EndsAt(run, a, e) == EndsAt(before, a, e)
  {
    hide Verified, Apply;
    assert run.slots + {a.destination} == before.slots + {a.destination};
  }

  // Only the slot and the destination matter to the rows.
  lemma ApplyByPlace(m: Model, a: Action, changed: nat)
    requires Applicable(m, a)
    ensures Apply(m, Action(a.slot, "", RestoreOp, a.destination), changed) == Apply(m, a, changed)
  {
  }

  lemma DriveEnded(run: Run, o: Origin, target: string, script: seq<Event>)
    requires run.status != Running
    ensures Drive(run, o, target, script) == run
  {
  }

  predicate NoneInstalled(generated: seq<GeneratedRow>) {
    forall j :: 0 <= j < |generated| ==> !IsInstalled(generated[j])
  }

  predicate NoneLive(objects: seq<ObjectRow>) {
    forall k :: 0 <= k < |objects| ==> !HasLiveWorking(objects[k])
  }

  predicate NonePreserved(objects: seq<ObjectRow>, role: Role) {
    forall k :: 0 <= k < |objects| ==> !(objects[k].role == role && IsPreserved(objects[k]))
  }

  lemma HasManifest(m: Model, o: Origin)
    requires WellFormed(m, o)
    ensures |m.generated| > 0
  {
  }

  // After the three loops there is nothing left to dictate.
  lemma NothingLeft(m: Model, o: Origin, target: string)
    requires WellFormed(m, o) && NoneInstalled(m.generated) && NoneLive(m.objects)
    requires NonePreserved(m.objects, Package) && NonePreserved(m.objects, Management) && NonePreserved(m.objects, Leaf)
    ensures NextAction(m, o, target).Finished? && AllHome(m.objects)
  {
    NoneOutstanding(m, o);
    NextActionIsDecisive(m, o, target);
  }

  // The first installed file, working copy or preserved original the loops meet is what nextAction dictates.
  lemma GeneratedTurn(m: Model, o: Origin, target: string, j: nat)
    requires WellFormed(m, o) && j < |m.generated| && IsInstalled(m.generated[j])
    requires j < |m.generated| - 1 ==> !IsInstalled(m.generated[|m.generated| - 1])
    requires j < |m.generated| - 1 ==> forall n :: 0 <= n < j ==> !IsInstalled(m.generated[n])
    ensures Applicable(m, RetireGenerated(m, target, j))
    ensures NextAction(m, o, target) == Perform(RetireGenerated(m, target, j))
  {
    assert NextInstalled(m.generated) == j;
    assert CoherentGenerated(m.generated[j], o, j);
  }

  lemma WorkingTurn(m: Model, o: Origin, target: string, i: nat)
    requires WellFormed(m, o) && NoneInstalled(m.generated) && i < |m.objects| && HasLiveWorking(m.objects[i])
    requires forall k :: 0 <= k < i ==> !HasLiveWorking(m.objects[k])
    ensures Applicable(m, RetireWorking(m, target, i))
    ensures NextAction(m, o, target) == Perform(RetireWorking(m, target, i))
  {
    assert FirstIndex(m.objects, HasLiveWorking) == i;
    assert CoherentObject(m.objects[i], o.objects[i]);
  }

  lemma RestoreTurn(m: Model, o: Origin, target: string, role: Role, i: nat)
    requires WellFormed(m, o) && NoneInstalled(m.generated) && NoneLive(m.objects)
    requires role != Package ==> NonePreserved(m.objects, Package)
    requires role == Leaf ==> NonePreserved(m.objects, Management)
    requires i < |m.objects| && m.objects[i].role == role && IsPreserved(m.objects[i])
    requires forall k :: 0 <= k < i ==> !(m.objects[k].role == role && IsPreserved(m.objects[k]))
    ensures RestoreOrder(m.objects, role)
    ensures SpecFor(o, m.objects[i].step) == Some(o.objects[i])
    ensures NextAction(m, o, target) == Perform(RestoreOriginal(m, i, o.objects[i].live))
  {
    assert NextPreserved(m.objects, role) == i;
    RestoreNextPerforms(m, o, target, role);
    SpecForRow(m, o, i);
  }
}
