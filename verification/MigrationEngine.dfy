// The forward engine as the sources run it: closures over `saved`, `shell` and the journal, and the
// coordinator's phase loop. Every method is proved to follow the step rule of GlobalMigration.
module MigrationEngine {
  import opened Wrappers
  import opened GuardedFiles
  import opened RecoveryModel
  import opened GlobalMigration

  predicate NoneUntouched(saved: seq<Saved>) {
    forall i :: 0 <= i < |saved| ==> !IsUntouched(saved[i])
  }

  predicate NoneLacking(saved: seq<Saved>) {
    forall i :: 0 <= i < |saved| ==> !LacksCopy(saved[i])
  }

  // One dictated operation is one step of the run.
  lemma DictatedStep(before: Migration, o: Origin, run: string, runId: string, script: seq<Event>)
    requires before.status == Advancing
    ensures script == [] ==> Drive(before, o, run, runId, script) == before.(status := Halted)
    ensures script != [] ==>
      Drive(before, o, run, runId, script) == Drive(Step(before, o, run, runId, script[0]), o, run, runId, script[1..])
  {
  }

  lemma DriveEnded(g: Migration, o: Origin, run: string, runId: string, script: seq<Event>)
    requires g.status != Advancing
    ensures Drive(g, o, run, runId, script) == g
  {
  }

  class GlobalMigrationRun {
    const origin: Origin
    const run: string
    const runId: string
    var saved: seq<Saved>
    var shell: seq<ShellRow>
    var files: Files
    var journal: seq<Row>
    var evidence: map<nat, Evidence>
    var status: Status
    var script: seq<Event>

    constructor (g: Migration, o: Origin, run: string, runId: string, script: seq<Event>)
      ensures State() == g && origin == o && this.run == run && this.runId == runId && this.script == script
    {
      origin, this.run, this.runId, this.script := o, run, runId, script;
      saved, shell, files, journal, evidence, status := g.saved, g.shell, g.files, g.journal, g.evidence, g.status;
    }

    function State(): Migration
      reads this
    {
      Migration(saved, shell, files, journal, evidence, status)
    }

    // What the rest of the run will come to, if it follows the step rule.
    ghost function Outcome(): Migration
      reads this
    {
      Drive(State(), origin, run, runId, script)
    }

    // `journal.intent`, then the private state file, then `journal.result`.
    method Record(step: string, operation: Operation, digest: StateDigest, confirmed: bool, state: Evidence)
      modifies this`journal, this`evidence
      ensures State() == Recorded(old(State()), step, operation, digest, confirmed, state)
    {
      evidence := evidence[|journal| + 2 := state];
      journal := journal + [IntentRow(step, operation, digest)];
      journal := journal + [ResultRow(step, operation, confirmed, OfEvidence(state))];
    }

    method Take() returns (event: Event)
      requires script != []
      modifies this`script
      ensures event == old(script)[0] && script == old(script)[1..]
    {
      event := script[0];
      script := script[1..];
    }

    // Move one original to its private backup name.
    method RetainObject(i: nat)
      requires status == Advancing && i < |saved| && script != []
      modifies this
      ensures State() == RetainStep(old(State()), run, i, old(script)[0]) && script == old(script)[1..]
    {
      var event := Take();
      var row := saved[i];
      var step, before := "retain." + row.spec.step, OfObjects(saved);
      var to := BackupPlace(run, row.spec);
      if event.Moved? && CanMove(files, row.spec.live, to) {
        files := Move(files, row.spec.live, to, event.changed);
        saved := saved[i := row.(state := Preserved, rows := row.rows.(changed := event.changed))];
        Record(step, RetainOp, before, true, ObjectEvidence(step, RetainOp, saved));
      } else if event.Moved? || (event.Break? && event.recorded) {
        if event.Break? {
          files := MaybeMoved(files, row.spec.live, to, event.after);
        }
        saved := saved[i := row.(state := UnknownOriginal)];
        Record(step, RetainOp, before, false, ObjectEvidence(step, RetainOp, saved));
        status := Doubtful;
      } else if event.Break? {
        journal := journal + [IntentRow(step, RetainOp, before)];
        files := MaybeMoved(files, row.spec.live, to, event.after);
        status := Cut;
      } else {
        status := Halted;
      }
    }

    // Copy one original back to its live name, through a private stage.
    method CopyObject(i: nat)
      requires status == Advancing && i < |saved| && script != []
      modifies this
      ensures State() == CopyStep(old(State()), run, runId, i, old(script)[0]) && script == old(script)[1..]
    {
      var event := Take();
      var row := saved[i];
      var step, before := "copy." + row.spec.step, OfObjects(saved);
      var staging := StagingName(runId, row.spec);
      var scope := {row.spec.live, Place(run, staging)};
      var vacant := scope !! files.Keys;
      if event.Copied? && vacant && event.identity != row.rows.identity {
        var tree := Tree(event.identity, event.changed, row.rows.contents);
        files := files[row.spec.live := tree];
        saved := saved[i := row.(working := Some(Working(Known, Some(tree), staging)))];
        Record(step, WorkingCopyOp, before, true, ObjectEvidence(step, WorkingCopyOp, saved));
      } else if event.Copied? || (event.Break? && event.recorded) {
        files := BrokenFiles(files, event, if vacant then scope else {});
        saved := saved[i := row.(working := Some(Working(UnknownWorking, None, staging)))];
        Record(step, WorkingCopyOp, before, false, ObjectEvidence(step, WorkingCopyOp, saved));
        status := Doubtful;
      } else if event.Break? {
        journal := journal + [IntentRow(step, WorkingCopyOp, before)];
        files := BrokenFiles(files, event, if vacant then scope else {});
        status := Cut;
      } else {
        status := Halted;
      }
    }

    // After npm has ended: look at every live name and accept only removal of known rows. What was already looked
    // at is kept when a look fails; the rest is unknown.
    method ObserveSurvivors(event: Event) returns (explained: bool, after: seq<Saved>)
      requires event.Uninstalled?
      ensures explained == Accounted(saved, event)
      ensures explained ==> after == AllObserved(saved, event.survivors)
      ensures !explained ==> after == PartlyObserved(saved, event)
    {
      if |event.survivors| != |saved| {
        return false, Forgotten(saved);
      }
      after := [];
      var i := 0;
      while i < |saved|
        invariant 0 <= i == |after| <= |saved| && i <= event.seen
        invariant forall k :: 0 <= k < i ==> Explained(saved[k], event.survivors[k]) && after[k] == Observed(saved[k], event.survivors[k])
        invariant Reached(saved, event.survivors, event.seen) == Reached(saved, event.survivors, event.seen, i)
      {
        if i >= event.seen || !Explained(saved[i], event.survivors[i]) {
          return false, after + Forgotten(saved[i..]);
        }
        after := after + [Observed(saved[i], event.survivors[i])];
        i := i + 1;
      }
      explained := true;
    }

    method UninstallWorking()
      requires status == Advancing && script != []
      modifies this
      ensures State() == NpmStep(old(State()), origin, old(script)[0]) && script == old(script)[1..]
    {
      hide UninstallStep;
      var event := Take();
      RunUninstall(event);
      VerifyLock(event);
    }

    // Release the working copies, run npm, observe, and record.
    method RunUninstall(event: Event)
      requires status == Advancing
      modifies this`saved, this`files, this`journal, this`evidence, this`status
      ensures State() == UninstallStep(old(State()), origin, event)
    {
      hide AllExplained, AllObserved, PartlyObserved, PartlyReleased, Removed, AfterUninstall, BrokenFiles;
      var step, before := "npm-uninstall", OfObjects(saved);
      var explained, after := false, [];
      if event.Uninstalled? {
        explained, after := ObserveSurvivors(event);
      }
      if explained {
        ExplainedCounts(saved, event.survivors);
        files := AfterUninstall(files, saved, event.survivors);
        saved := after;
        Record(step, UninstallOp, before, true, ObjectEvidence(step, UninstallOp, saved));
        status := if event.completed && Removed(saved) then Advancing else Halted;
      } else if event.Uninstalled? || (event.Break? && event.recorded) {
        files := if event.Uninstalled? && |event.survivors| == |saved| then AfterUninstall(files, saved, event.survivors)
                 else BrokenFiles(files, event, LivePlaces(saved) + LockPlaces(origin));
        saved := if event.Uninstalled? then after else Forgotten(saved);
        Record(step, UninstallOp, before, false, ObjectEvidence(step, UninstallOp, saved));
        status := Doubtful;
      } else if event.Break? {
        journal := journal + [IntentRow(step, UninstallOp, before)];
        files := BrokenFiles(files, event, LivePlaces(saved) + LockPlaces(origin));
        status := Cut;
      } else if event.ReleaseFailed? && event.recorded {
        saved := PartlyReleased(saved, event.released);
        Record(step, UninstallOp, before, false, ObjectEvidence(step, UninstallOp, saved));
        status := Doubtful;
      } else if event.ReleaseFailed? {
        journal := journal + [IntentRow(step, UninstallOp, before)];
        status := Cut;
      } else {
        status := Halted;
      }
    }

    // The check after the uninstall: npm's lock file may be there now.
    method VerifyLock(event: Event)
      modifies this`files, this`status
      ensures State() == MadeLock(old(State()), origin, event)
    {
      if event.Uninstalled? && event.created.Some? && origin.absentLock.Some? && LockVacant(origin, files) {
        files := files[origin.absentLock.value := event.created.value];
        if status == Advancing {
          status := Halted;
        }
      }
    }

    // `perform` around the publication of one wrapper or the manifest.
    method PublishFile(j: nat)
      requires status == Advancing && j < |shell| && script != []
      modifies this
      ensures State() == PublishStep(old(State()), origin, run, j, old(script)[0]) && script == old(script)[1..]
    {
      hide BrokenFiles, BackupName, GeneratedPlace, PublishedTree;
      var event := Take();
      var row := shell[j];
      var operation := if row.name == "shell" then ManifestOp else WrapperOp;
      var step, before := "publish.generated." + row.name, OfShell(shell);
      var to := GeneratedPlace(origin, j);
      var scope := {to, Place(run, if row.name == "shell" then "new-shell" else BackupName(row.name, j))};
      var vacant := scope !! files.Keys;
      if event.Published? && vacant {
        var tree := PublishedTree(origin, j, event);
        files := files[to := tree];
        shell := shell[j := row.(status := Installed, rows := Some(tree))];
        Record(step, operation, before, true, Evidence(step, operation, saved, Some(shell), false));
        if !event.verified {
          shell := shell[j := shell[j].(status := UnknownGenerated)];
          var check := "verify." + step;
          Record(check, operation, OfShell(shell), false, Evidence(check, operation, saved, Some(shell), true));
          status := Unverified;
        }
      } else if event.Published? || (event.Break? && event.recorded) {
        files := BrokenFiles(files, event, if vacant then scope else {});
        shell := shell[j := row.(status := UnknownGenerated)];
        Record(step, operation, before, false, Evidence(step, operation, saved, Some(shell), false));
        status := Doubtful;
      } else if event.Break? {
        journal := journal + [IntentRow(step, operation, before)];
        files := BrokenFiles(files, event, if vacant then scope else {});
        status := Cut;
      } else {
        status := Halted;
      }
    }

    // An operation that cannot start: the script has ended.
    method Halt()
      requires status == Advancing && script == []
      modifies this`status
      ensures State() == old(Outcome()) == Outcome()
    {
      DictatedStep(State(), origin, run, runId, script);
      status := Halted;
      DriveEnded(State(), origin, run, runId, script);
    }

    /** coordinateGlobalMigration: preserve, copy, uninstall, publish, in that order, each phase only after
        the one before it ended as expected. For every script this is the run of the step rule. */
    method Coordinate()
      requires status == Advancing
      requires forall i :: 0 <= i < |saved| ==> IsUntouched(saved[i]) && LacksCopy(saved[i])
      requires forall j :: 0 <= j < |shell| ==> IsUnpublished(shell[j])
      requires |saved| > 0
      modifies this
      ensures State() == old(Drive(State(), origin, run, runId, script))
    {
      hide Drive;
      PreserveAll();
      if status != Advancing {
        return;
      }
      CreateWorkingCopies();
      if status != Advancing {
        return;
      }
      if script == [] {
        Halt();
        return;
      }
      ghost var before, events := State(), script;
      DictatedStep(before, origin, run, runId, events);
      assert NextOperation(before) == Uninstall by {
        NextIs(before);
      }
      UninstallWorking();
      if status != Advancing {
        DriveEnded(State(), origin, run, runId, script);
        return;
      }
      RemovedIsNotKnown(before, origin, events[0]);
      Install();
    }

    method PreserveAll()
      requires status == Advancing
      requires forall i :: 0 <= i < |saved| ==> IsUntouched(saved[i]) && LacksCopy(saved[i])
      modifies this
      ensures Outcome() == old(Outcome()) && (status != Advancing ==> State() == Outcome())
      ensures |saved| == old(|saved|) && shell == old(shell)
      ensures status == Advancing ==> NoneUntouched(saved) && forall i :: 0 <= i < |saved| ==> LacksCopy(saved[i])
    {
      hide Drive;
      var i := 0;
      while i < |saved|
        invariant 0 <= i <= |saved| == old(|saved|) && shell == old(shell)
        invariant status == Advancing && Outcome() == old(Outcome())
        invariant forall k :: 0 <= k < |saved| ==> LacksCopy(saved[k]) && (IsUntouched(saved[k]) <==> i <= k)
      {
        if script == [] {
          Halt();
          return;
        }
        DictatedStep(State(), origin, run, runId, script);
        assert NextOperation(State()) == Retain(i) by {
          FirstIndexIs(saved, IsUntouched, i);
        }
        RetainObject(i);
        if status != Advancing {
          DriveEnded(State(), origin, run, runId, script);
          return;
        }
        i := i + 1;
      }
    }

    method CreateWorkingCopies()
      requires status == Advancing && NoneUntouched(saved) && forall i :: 0 <= i < |saved| ==> LacksCopy(saved[i])
      modifies this
      ensures Outcome() == old(Outcome()) && (status != Advancing ==> State() == Outcome())
      ensures |saved| == old(|saved|) && shell == old(shell)
      ensures status == Advancing ==> NoneUntouched(saved) && NoneLacking(saved) && AllKnown(saved)
    {
      hide Drive;
      var i := 0;
      while i < |saved|
        invariant 0 <= i <= |saved| == old(|saved|) && shell == old(shell)
        invariant status == Advancing && Outcome() == old(Outcome())
        invariant NoneUntouched(saved)
        invariant forall k :: 0 <= k < |saved| ==> (LacksCopy(saved[k]) <==> i <= k) && (k < i ==> HasKnownCopy(saved[k]))
      {
        if script == [] {
          Halt();
          return;
        }
        DictatedStep(State(), origin, run, runId, script);
        assert NextOperation(State()) == MakeCopy(i) by {
          assert FirstIndex(saved, IsUntouched) == |saved|;
          FirstIndexIs(saved, LacksCopy, i);
        }
        CopyObject(i);
        if status != Advancing {
          DriveEnded(State(), origin, run, runId, script);
          return;
        }
        i := i + 1;
      }
    }

    method Install()
      requires status == Advancing && NoneUntouched(saved) && NoneLacking(saved) && !AllKnown(saved)
      requires forall j :: 0 <= j < |shell| ==> IsUnpublished(shell[j])
      modifies this
      ensures State() == old(Outcome())
    {
      hide Drive;
      var j := 0;
      while j < |shell|
        invariant 0 <= j <= |shell|
        invariant status == Advancing && Outcome() == old(Outcome())
        invariant saved == old(saved)
        invariant forall k :: 0 <= k < |shell| ==> (IsUnpublished(shell[k]) <==> j <= k)
      {
        if script == [] {
          Halt();
          return;
        }
        DictatedStep(State(), origin, run, runId, script);
        assert NextOperation(State()) == Publish(j) by {
          NextIs(State());
          FirstIndexIs(shell, IsUnpublished, j);
        }
        PublishFile(j);
        if status != Advancing {
          DriveEnded(State(), origin, run, runId, script);
          return;
        }
        j := j + 1;
      }
      if script == [] {
        Halt();
        return;
      }
      DictatedStep(State(), origin, run, runId, script);
      assert NextOperation(State()) == Conclude by {
        NextIs(State());
        assert FirstIndex(shell, IsUnpublished) == |shell|;
      }
      var event := Take();
      if event.Checkpoint? {
        journal := journal + [CompleteRow];
        status := Done;
      } else {
        status := Halted;
      }
      DriveEnded(State(), origin, run, runId, script);
    }
  }

  lemma NextIs(g: Migration)
    requires NoneUntouched(g.saved) && NoneLacking(g.saved)
    ensures FirstIndex(g.saved, IsUntouched) == |g.saved| && FirstIndex(g.saved, LacksCopy) == |g.saved|
  {
  }

  lemma ExplainedCounts(saved: seq<Saved>, survivors: seq<Option<Tree>>)
    requires AllExplained(saved, survivors)
    ensures |survivors| == |saved|
  {
  }

  // Once the uninstall removed the package there is no known working copy of it left.
  lemma RemovedIsNotKnown(before: Migration, o: Origin, e: Event)
    requires NoneUntouched(before.saved) && NoneLacking(before.saved) && AllKnown(before.saved)
    requires |before.saved| > 0
    requires NpmStep(before, o, e).status == Advancing && before.status == Advancing
    ensures var after := NpmStep(before, o, e);
      NoneUntouched(after.saved) && NoneLacking(after.saved) && !AllKnown(after.saved) && after.shell == before.shell
  {
    var after := NpmStep(before, o, e);
    assert after.saved == AllObserved(before.saved, e.survivors);
    assert after.saved[0] == Observed(before.saved[0], e.survivors[0]);
    assert !HasKnownCopy(after.saved[0]);
  }
}
