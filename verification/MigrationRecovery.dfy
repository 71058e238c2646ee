// A forward migration stopped anywhere, then recovered: what the evidence says, and where everything ends.
module MigrationRecovery {
  import opened Wrappers
  import opened GuardedFiles
  import opened RecoveryModel
  import opened RecoverySafety
  import opened GlobalMigration
  import opened MigrationSafety
  import ObjectCheck
  import RecoveryExecution
  import RecoveryRuns

  // ---- The evidence of a journal without a final unknown result ----

  function PlainRow(row: Row, k: nat, evidence: map<nat, Evidence>, o: Origin, seeds: seq<Tree>, h: History): Result<History> {
    if !row.ResultRow? then Ok(h)
    else if k + 1 !in evidence || row.digest != OfEvidence(evidence[k + 1]) then Err("global_recovery_state_hash_changed")
    else
      var e := evidence[k + 1];
      if e.step != row.step || e.operation != row.operation then Err("global_recovery_state_binding_invalid")
      else if !BoundToSeeds(e.objects, o, seeds) then Err("global_recovery_original_identity_changed")
      else if h.eligible && !KnownObjects(e.objects) then Err("global_recovery_original_unknown")
      else if e.shell.Some? && !BoundShell(e.shell.value, o) then Err("global_recovery_shell_scope_invalid")
      else if h.eligible && e.shell.Some? && !KnownShell(e.shell.value) then Err("global_recovery_shell_unknown")
      else Ok(History(Some(e.objects), if e.shell.Some? then e.shell else h.shell, h.eligible))
  }

  function PlainFold(rows: seq<Row>, evidence: map<nat, Evidence>, o: Origin, seeds: seq<Tree>, h: History): Result<History> {
    if rows == [] then Ok(h)
    else
      var before :- PlainFold(rows[..|rows| - 1], evidence, o, seeds, h);
      PlainRow(rows[|rows| - 1], |rows| - 1, evidence, o, seeds, before)
  }

  lemma PlainFoldExtends(rows: seq<Row>, row: Row, evidence: map<nat, Evidence>, o: Origin, seeds: seq<Tree>, h: History)
    ensures PlainFold(rows + [row], evidence, o, seeds, h)
      == match PlainFold(rows, evidence, o, seeds, h)
         case Err(e) => Err(e)
         case Ok(mid) => PlainRow(row, |rows|, evidence, o, seeds, mid)
  {
    assert (rows + [row])[..|rows + [row]| - 1] == rows;
  }

  lemma {:induction false} PlainFoldIgnoresLater(rows: seq<Row>, evidence: map<nat, Evidence>, k: nat, e: Evidence, o: Origin, seeds: seq<Tree>, h: History)
    requires k > |rows|
    ensures PlainFold(rows, evidence[k := e], o, seeds, h) == PlainFold(rows, evidence, o, seeds, h)
  {
    if rows != [] {
      PlainFoldIgnoresLater(rows[..|rows| - 1], evidence, k, e, o, seeds, h);
    }
  }

  // The source's loop over all rows is the plain fold up to the last row.
  lemma {:induction false} FoldIsPlain(rows: seq<Row>, k: nat, evidence: map<nat, Evidence>, o: Origin, seeds: seq<Tree>, h: History, mid: History)
    requires k <= |rows| && (StatusOf(rows) != UnknownResult || k < |rows|)
    requires PlainFold(rows[..k], evidence, o, seeds, h) == Ok(mid)
    ensures Fold(rows, 0, evidence, o, seeds, h) == Fold(rows, k, evidence, o, seeds, mid)
  {
    if k > 0 {
      assert rows[..k][..k - 1] == rows[..k - 1];
      var earlier := PlainFold(rows[..k - 1], evidence, o, seeds, h);
      FoldIsPlain(rows, k - 1, evidence, o, seeds, h, earlier.value);
      assert rows[..k][k - 1] == rows[k - 1];
      assert FoldRow(rows, k - 1, evidence, o, seeds, earlier.value) == PlainRow(rows[k - 1], k - 1, evidence, o, seeds, earlier.value);
    }
  }

  // What the evidence written so far amounts to.
  function Latest(g: Migration, eligible: bool): History {
    History(if g.journal == [] then None else Some(g.saved),
            if forall j :: 0 <= j < |g.shell| ==> IsUnpublished(g.shell[j]) then None else Some(g.shell), eligible)
  }

  ghost predicate Logged(g: Migration, o: Origin, seeds: seq<Tree>) {
    forall eligible :: PlainFold(g.journal, g.evidence, o, seeds, History(None, None, eligible)) == Ok(Latest(g, eligible))
  }

  lemma RecordedFolds(g: Migration, o: Origin, seeds: seq<Tree>, step: string, operation: Operation, digest: StateDigest, confirmed: bool, e: Evidence, eligible: bool)
    requires Logged(g, o, seeds)
    requires e.step == step && e.operation == operation && BoundToSeeds(e.objects, o, seeds)
    requires KnownObjects(e.objects) && (e.shell.Some? ==> BoundShell(e.shell.value, o) && KnownShell(e.shell.value))
    ensures var r := Recorded(g, step, operation, digest, confirmed, e);
      PlainFold(r.journal, r.evidence, o, seeds, History(None, None, eligible))
        == Ok(History(Some(e.objects), if e.shell.Some? then e.shell else Latest(g, eligible).shell, eligible))
  {
    var r := Recorded(g, step, operation, digest, confirmed, e);
    var h := History(None, None, eligible);
    var intent := IntentRow(step, operation, digest);
    PlainFoldIgnoresLater(g.journal, g.evidence, |g.journal| + 2, e, o, seeds, h);
    PlainFoldExtends(g.journal, intent, r.evidence, o, seeds, h);
    PlainFoldExtends(g.journal + [intent], ResultRow(step, operation, confirmed, OfEvidence(e)), r.evidence, o, seeds, h);
  }

  // ---- Invariant of the whole forward run ----

  ghost predicate Steady(g: Migration, o: Origin, run: string, target: string, source: string, seeds: seq<Tree>) {
    && Sound(g, o, run, target, source, seeds)
    && Logged(g, o, seeds)
    && StatusOf(g.journal) in {Ready, Concluded}
  }

  lemma ShapeIsKnown(g: Migration, o: Origin, seeds: seq<Tree>)
    requires Shape(g, o, seeds)
    ensures KnownObjects(g.saved) && KnownShell(g.shell) && BoundToSeeds(g.saved, o, seeds) && BoundShell(g.shell, o)
  {
    forall i | 0 <= i < |g.saved| ensures ForwardRow(g.saved[i], o.objects[i], seeds[i]) {}
    forall j | 0 <= j < |g.shell| ensures ForwardShellRow(g.shell[j], o, j) {}
  }

  // A confirmed operation on the originals or their copies.
  lemma ObjectStepSteady(g: Migration, after: Migration, o: Origin, run: string, target: string, source: string, seeds: seq<Tree>,
                         step: string, operation: Operation, digest: StateDigest)
    requires Steady(g, o, run, target, source, seeds) && Sound(after, o, run, target, source, seeds)
    requires after.shell == g.shell
    requires var r := Recorded(g, step, operation, digest, true, ObjectEvidence(step, operation, after.saved));
      after.journal == r.journal && after.evidence == r.evidence
    ensures Steady(after, o, run, target, source, seeds)
  {
    hide Sound;
    assert Shape(after, o, seeds) by {
      SoundShape(after, o, run, target, source, seeds);
    }
    ShapeIsKnown(after, o, seeds);
    forall eligible ensures PlainFold(after.journal, after.evidence, o, seeds, History(None, None, eligible)) == Ok(Latest(after, eligible)) {
      RecordedFolds(g, o, seeds, step, operation, digest, true, ObjectEvidence(step, operation, after.saved), eligible);
    }
  }

  lemma SoundShape(g: Migration, o: Origin, run: string, target: string, source: string, seeds: seq<Tree>)
    requires Sound(g, o, run, target, source, seeds)
    ensures Shape(g, o, seeds)
  {
  }

  lemma RetainSteady(g: Migration, o: Origin, run: string, target: string, source: string, seeds: seq<Tree>, i: nat, e: Event)
    requires ValidOrigin(o, run, target) && Steady(g, o, run, target, source, seeds) && g.status == Advancing
    requires i < |g.saved| && IsUntouched(g.saved[i])
    requires RetainStep(g, run, i, e).status in {Advancing, Halted, Done}
    ensures Steady(RetainStep(g, run, i, e), o, run, target, source, seeds)
  {
    hide Sound, Logged;
    var after := RetainStep(g, run, i, e);
    if after.status == Advancing {
      RetainKeepsSound(g, o, run, target, source, seeds, i, e);
      ObjectStepSteady(g, after, o, run, target, source, seeds, "retain." + g.saved[i].spec.step, RetainOp, OfObjects(g.saved));
    } else {
      SoundIgnoresStatus(g, after, o, run, target, source, seeds);
    }
  }

  lemma SoundIgnoresStatus(g: Migration, after: Migration, o: Origin, run: string, target: string, source: string, seeds: seq<Tree>)
    requires after == g.(status := after.status) || after == g.(status := after.status, journal := g.journal + [CompleteRow])
    requires StatusOf(g.journal) in {Ready, Concluded}
    ensures Sound(g, o, run, target, source, seeds) ==> Sound(after, o, run, target, source, seeds)
    ensures Logged(g, o, seeds) && (after.journal == [CompleteRow] ==> g.journal != []) ==> Logged(after, o, seeds)
    ensures StatusOf(after.journal) in {Ready, Concluded}
  {
    hide Sound, Logged;
    if Sound(g, o, run, target, source, seeds) {
      SoundIgnoresJournal(g, after, o, run, target, source, seeds);
    }
    if Logged(g, o, seeds) && (after.journal == [CompleteRow] ==> g.journal != []) {
      LoggedIgnoresStatus(g, after, o, seeds);
    }
  }

  lemma LoggedIgnoresStatus(g: Migration, after: Migration, o: Origin, seeds: seq<Tree>)
    requires after == g.(status := after.status) || after == g.(status := after.status, journal := g.journal + [CompleteRow])
    requires Logged(g, o, seeds) && (after.journal == [CompleteRow] ==> g.journal != [])
    ensures Logged(after, o, seeds)
  {
    hide PlainFold, PlainRow;
    forall eligible ensures PlainFold(after.journal, after.evidence, o, seeds, History(None, None, eligible)) == Ok(Latest(after, eligible)) {
      if after.journal != g.journal {
        PlainFoldExtends(g.journal, CompleteRow, g.evidence, o, seeds, History(None, None, eligible));
        CompleteIsPlain(|g.journal|, g.evidence, o, seeds, Latest(g, eligible));
      }
    }
  }

  lemma CompleteIsPlain(k: nat, evidence: map<nat, Evidence>, o: Origin, seeds: seq<Tree>, h: History)
    ensures PlainRow(CompleteRow, k, evidence, o, seeds, h) == Ok(h)
  {
  }

  lemma CopySteady(g: Migration, o: Origin, run: string, runId: string, target: string, source: string, seeds: seq<Tree>, i: nat, e: Event)
    requires ValidOrigin(o, run, target) && Steady(g, o, run, target, source, seeds) && g.status == Advancing
    requires i < |g.saved| && !IsUntouched(g.saved[i]) && LacksCopy(g.saved[i])
    requires CopyStep(g, run, runId, i, e).status in {Advancing, Halted, Done}
    ensures Steady(CopyStep(g, run, runId, i, e), o, run, target, source, seeds)
  {
    hide Sound, Logged;
    var after := CopyStep(g, run, runId, i, e);
    if after.status == Advancing {
      SoundShape(g, o, run, target, source, seeds);
      assert ForwardRow(g.saved[i], o.objects[i], seeds[i]);
      CopyKeepsSound(g, o, run, runId, target, source, seeds, i, e);
      ObjectStepSteady(g, after, o, run, target, source, seeds, "copy." + g.saved[i].spec.step, WorkingCopyOp, OfObjects(g.saved));
    } else {
      SoundIgnoresStatus(g, after, o, run, target, source, seeds);
    }
  }

  lemma UninstallSteady(g: Migration, o: Origin, run: string, target: string, source: string, seeds: seq<Tree>, e: Event)
    requires ValidOrigin(o, run, target) && Steady(g, o, run, target, source, seeds) && g.status == Advancing
    requires UninstallStep(g, o, e).status in {Advancing, Halted, Done}
    ensures Steady(UninstallStep(g, o, e), o, run, target, source, seeds)
  {
    hide Sound, Logged;
    var after := UninstallStep(g, o, e);
    if e.Uninstalled? {
      UninstallKeepsSound(g, o, run, target, source, seeds, e);
      ObjectStepSteady(g, after, o, run, target, source, seeds, "npm-uninstall", UninstallOp, OfObjects(g.saved));
    } else {
      SoundIgnoresStatus(g, after, o, run, target, source, seeds);
    }
  }

  // The state a publication leaves, whether or not its verification succeeds.
  function Publication(g: Migration, o: Origin, run: string, j: nat, e: Event): Migration
    requires j < |g.shell| && e.Published?
  {
    PublishStep(g, o, run, j, e.(verified := true))
  }

  lemma PublishSteady(g: Migration, o: Origin, run: string, target: string, source: string, seeds: seq<Tree>, j: nat, e: Event)
    requires ValidOrigin(o, run, target) && Steady(g, o, run, target, source, seeds) && g.status == Advancing
    requires j < |g.shell| && IsUnpublished(g.shell[j]) && e.Published?
    requires Publication(g, o, run, j, e).status == Advancing
    ensures Steady(Publication(g, o, run, j, e), o, run, target, source, seeds)
    ensures Latest(Publication(g, o, run, j, e), false).shell.Some?
  {
    hide Sound, GeneratedPlace;
    var after := Publication(g, o, run, j, e);
    SoundShape(g, o, run, target, source, seeds);
    assert ForwardShellRow(g.shell[j], o, j);
    PublishKeepsSound(g, o, run, target, source, seeds, j, PublishedTree(o, j, e));
    var shell := g.shell[j := g.shell[j].(status := Installed, rows := Some(PublishedTree(o, j, e)))];
    var bare := g.(shell := shell, files := g.files[GeneratedPlace(o, j) := PublishedTree(o, j, e)]);
    SoundIgnoresJournal(bare, after, o, run, target, source, seeds);
    SoundShape(after, o, run, target, source, seeds);
    ShapeIsKnown(after, o, seeds);
    assert !IsUnpublished(after.shell[j]);
    var operation := if g.shell[j].name == "shell" then ManifestOp else WrapperOp;
    var step := "publish.generated." + g.shell[j].name;
    forall eligible ensures PlainFold(after.journal, after.evidence, o, seeds, History(None, None, eligible)) == Ok(Latest(after, eligible)) {
      RecordedFolds(g, o, seeds, step, operation, OfShell(g.shell), true, Evidence(step, operation, g.saved, Some(shell), false), eligible);
    }
  }

  lemma SoundIgnoresJournal(g: Migration, after: Migration, o: Origin, run: string, target: string, source: string, seeds: seq<Tree>)
    requires Sound(g, o, run, target, source, seeds)
    requires after.saved == g.saved && after.shell == g.shell && after.files == g.files
    ensures Sound(after, o, run, target, source, seeds)
  {
  }

  // ---- Every stopping point ----

  lemma StepSteady(g: Migration, o: Origin, run: string, runId: string, target: string, source: string, seeds: seq<Tree>, e: Event)
    requires ValidOrigin(o, run, target) && Steady(g, o, run, target, source, seeds) && Begun(g) && g.status == Advancing
    requires Step(g, o, run, runId, e).status in {Advancing, Halted, Done}
    ensures var next := Step(g, o, run, runId, e);
      && Begun(next)
      && (next.status == Advancing || LockVacant(o, next.files) ==> Steady(next, o, run, target, source, seeds))
  {
    hide Sound, Logged, RetainStep, CopyStep, UninstallStep, PublishStep;
    StepIsBegun(g, o, run, runId, e);
    match NextOperation(g)
    case Retain(i) => RetainSteady(g, o, run, target, source, seeds, i, e);
    case MakeCopy(i) => CopySteady(g, o, run, runId, target, source, seeds, i, e);
    case Uninstall =>
      if NpmStep(g, o, e) == UninstallStep(g, o, e) {
        UninstallSteady(g, o, run, target, source, seeds, e);
      }
    case Publish(j) =>
      if e.Published? {
        PublishedStatus(g, o, run, j, e);
        PublishSteady(g, o, run, target, source, seeds, j, e);
      } else {
        HaltedPublish(g, o, run, j, e);
        SoundIgnoresStatus(g, Step(g, o, run, runId, e), o, run, target, source, seeds);
      }
    case Conclude =>
      SoundIgnoresStatus(g, Step(g, o, run, runId, e), o, run, target, source, seeds);
  }

  // Until something is recorded the first original is untouched.
  predicate Begun(g: Migration) {
    g.journal != [] || (g.saved != [] && IsUntouched(g.saved[0]))
  }

  lemma StepIsBegun(g: Migration, o: Origin, run: string, runId: string, e: Event)
    requires Begun(g) && g.status == Advancing
    ensures Begun(Step(g, o, run, runId, e))
    ensures NextOperation(g).Conclude? ==> g.journal != []
  {
    hide RetainStep, CopyStep, NpmStep, PublishStep;
    match NextOperation(g)
    case Retain(i) => RetainBegins(g, run, i, e);
    case MakeCopy(i) => CopyBegins(g, run, runId, i, e);
    case Uninstall => UninstallBegins(g, o, e);
    case Publish(j) => PublishBegins(g, o, run, j, e);
    case Conclude =>
  }

  // An operation either records something or leaves the objects alone.
  lemma RetainBegins(g: Migration, run: string, i: nat, e: Event)
    requires i < |g.saved|
    ensures var after := RetainStep(g, run, i, e); after.journal != [] || (after.saved == g.saved && after.journal == g.journal)
  {
    hide MaybeMoved, BackupPlace;
  }

  lemma CopyBegins(g: Migration, run: string, runId: string, i: nat, e: Event)
    requires i < |g.saved|
    ensures var after := CopyStep(g, run, runId, i, e); after.journal != [] || (after.saved == g.saved && after.journal == g.journal)
  {
    hide BrokenFiles;
  }

  lemma UninstallBegins(g: Migration, o: Origin, e: Event)
    ensures var after := NpmStep(g, o, e); after.journal != [] || (after.saved == g.saved && after.journal == g.journal)
  {
    hide BrokenFiles, AfterUninstall, AllObserved, Forgotten, Removed, PartlyObserved, PartlyReleased;
  }

  lemma PublishBegins(g: Migration, o: Origin, run: string, j: nat, e: Event)
    requires j < |g.shell|
    ensures var after := PublishStep(g, o, run, j, e); after.journal != [] || (after.saved == g.saved && after.journal == g.journal)
  {
    hide BrokenFiles, GeneratedPlace, BackupName;
  }

  lemma PublishedStatus(g: Migration, o: Origin, run: string, j: nat, e: Event)
    requires j < |g.shell| && e.Published? && g.status == Advancing
    ensures PublishStep(g, o, run, j, e).status in {Advancing, Unverified} ==> Publication(g, o, run, j, e).status == Advancing
    ensures PublishStep(g, o, run, j, e).status in {Advancing, Halted, Done} ==>
      PublishStep(g, o, run, j, e) == Publication(g, o, run, j, e) && PublishStep(g, o, run, j, e).status == Advancing
    ensures PublishStep(g, o, run, j, e).status == Unverified ==> !e.verified
  {
  }

  lemma HaltedPublish(g: Migration, o: Origin, run: string, j: nat, e: Event)
    requires j < |g.shell| && !e.Published? && g.status == Advancing
    requires PublishStep(g, o, run, j, e).status in {Advancing, Halted, Done}
    ensures PublishStep(g, o, run, j, e) == g.(status := Halted)
  {
  }

  function WithoutLock(files: Files, o: Origin): Files {
    files - LockPlaces(o)
  }

  lemma VacantIsWithout(files: Files, o: Origin)
    requires LockVacant(o, files)
    ensures WithoutLock(files, o) == files
  {
    assert WithoutLock(files, o).Keys == files.Keys;
  }

  // Up to the uninstall nothing makes npm's lock file.
  lemma SoundLockVacant(g: Migration, o: Origin, run: string, target: string, source: string, seeds: seq<Tree>)
    requires ValidOrigin(o, run, target) && Sound(g, o, run, target, source, seeds)
    ensures LockVacant(o, g.files) && WithoutLock(g.files, o) == g.files
  {
    var m := ModelOf(g, o, run, source);
    forall i | 0 <= i < |g.saved| ensures ForwardRow(g.saved[i], o.objects[i], seeds[i]) {}
    forall j | 0 <= j < |g.shell| ensures ForwardShellRow(g.shell[j], o, j) {}
    forall s | At(m, s).Some? && o.absentLock.Some?
      ensures At(m, s).value.place != o.absentLock.value
    {
    }
    assert o.absentLock.Some? ==> Watched(o, {run, target}, o.absentLock.value);
    VacantIsWithout(g.files, o);
  }

  // What the loader makes of a stopped migration: the state it recovers, or None when it may not.
  ghost predicate Recoverable(g: Migration, settled: Migration, o: Origin, run: string, target: string, source: string, seeds: seq<Tree>) {
    && Sound(settled, o, run, target, source, seeds)
    && settled.files == WithoutLock(g.files, o)
    && Fold(g.journal, 0, g.evidence, o, seeds, StartHistory(g.journal)) == Ok(Latest(settled, true))
    && settled.journal != []
  }

  lemma SteadyIsRecoverable(g: Migration, o: Origin, run: string, target: string, source: string, seeds: seq<Tree>)
    requires ValidOrigin(o, run, target) && Steady(g, o, run, target, source, seeds) && g.journal != []
    ensures Recoverable(g, g, o, run, target, source, seeds)
  {
    hide Sound, WithoutLock;
    SoundLockVacant(g, o, run, target, source, seeds);
    var h := History(None, None, true);
    assert g.journal[..|g.journal|] == g.journal;
    FoldIsPlain(g.journal, |g.journal|, g.evidence, o, seeds, h, Latest(g, true));
  }

  /** A publication whose verification failed is read back as published: the loader returns exactly the
      state before the failed verification, and admits recovery. */
  lemma UnverifiedIsRecoverable(g: Migration, o: Origin, run: string, target: string, source: string, seeds: seq<Tree>, j: nat, e: Event)
    requires ValidOrigin(o, run, target) && Steady(g, o, run, target, source, seeds) && g.status == Advancing
    requires j < |g.shell| && IsUnpublished(g.shell[j]) && e.Published?
    requires PublishStep(g, o, run, j, e).status == Unverified
    ensures Recoverable(PublishStep(g, o, run, j, e), Publication(g, o, run, j, e), o, run, target, source, seeds)
  {
    hide Sound, Logged, Fold, PlainFold, Latest, PublishStep, Reclassified;
    var after, p := PublishStep(g, o, run, j, e), Publication(g, o, run, j, e);
    PublishedStatus(g, o, run, j, e);
    PublishSteady(g, o, run, target, source, seeds, j, e);
    SoundLockVacant(p, o, run, target, source, seeds);
    UnverifiedShape(g, o, run, j, e);
    var operation := if g.shell[j].name == "shell" then ManifestOp else WrapperOp;
    var check := "verify." + ("publish.generated." + g.shell[j].name);
    var doubted := p.shell[j := p.shell[j].(status := UnknownGenerated)];
    var evidence := Evidence(check, operation, g.saved, Some(doubted), true);
    var rows := after.journal;
    var n := |rows|;
    var h := History(None, None, false);
    SoundShape(p, o, run, target, source, seeds);
    ShapeIsKnown(p, o, seeds);
    PublishedHistory(p, j);
    PlainUpToVerification(p, o, seeds, check, operation, OfShell(doubted), evidence);
    assert rows[..n - 1] == p.journal + [IntentRow(check, operation, OfShell(doubted))];
    FoldIsPlain(rows, n - 1, after.evidence, o, seeds, h, Latest(p, false));
    VerificationTakenBack(p, o, seeds, j, operation);
    FoldReclassified(rows, after.evidence, o, seeds, Latest(p, false), p.shell);
  }

  lemma PublishedHistory(p: Migration, j: nat)
    requires p.journal != [] && j < |p.shell| && p.shell[j].status == Installed
    ensures forall eligible :: Latest(p, eligible) == History(Some(p.saved), Some(p.shell), eligible)
  {
    assert !IsUnpublished(p.shell[j]);
  }

  lemma LoggedAt(g: Migration, o: Origin, seeds: seq<Tree>, eligible: bool)
    requires Logged(g, o, seeds)
    ensures PlainFold(g.journal, g.evidence, o, seeds, History(None, None, eligible)) == Ok(Latest(g, eligible))
  {
  }

  lemma PlainUpToVerification(p: Migration, o: Origin, seeds: seq<Tree>, step: string, operation: Operation, digest: StateDigest, e: Evidence)
    requires Logged(p, o, seeds)
    ensures PlainFold(p.journal + [IntentRow(step, operation, digest)], p.evidence[|p.journal| + 2 := e], o, seeds, History(None, None, false))
      == Ok(Latest(p, false))
  {
    var h := History(None, None, false);
    PlainFoldIgnoresLater(p.journal, p.evidence, |p.journal| + 2, e, o, seeds, h);
    PlainFoldExtends(p.journal, IntentRow(step, operation, digest), p.evidence[|p.journal| + 2 := e], o, seeds, h);
    LoggedAt(p, o, seeds, false);
  }

  lemma FoldReclassified(rows: seq<Row>, evidence: map<nat, Evidence>, o: Origin, seeds: seq<Tree>, h: History, shell: seq<ShellRow>)
    requires |rows| > 0 && rows[|rows| - 1].ResultRow? && StatusOf(rows) == UnknownResult
    requires |rows| in evidence && rows[|rows| - 1].digest == OfEvidence(evidence[|rows|])
    requires var e := evidence[|rows|];
      && e.step == rows[|rows| - 1].step && e.operation == rows[|rows| - 1].operation
      && BoundToSeeds(e.objects, o, seeds) && KnownObjects(e.objects) && BoundShell(shell, o) && KnownShell(shell)
      && Reclassified(rows, h, e) == Ok(Some(shell))
    ensures Fold(rows, |rows| - 1, evidence, o, seeds, h) == Ok(History(Some(evidence[|rows|].objects), Some(shell), true))
  {
    hide Reclassified;
  }

  lemma UnverifiedShape(g: Migration, o: Origin, run: string, j: nat, e: Event)
    requires j < |g.shell| && e.Published? && PublishStep(g, o, run, j, e).status == Unverified && g.status == Advancing
    ensures var after, p := PublishStep(g, o, run, j, e), Publication(g, o, run, j, e);
      var operation := if g.shell[j].name == "shell" then ManifestOp else WrapperOp;
      var step := "publish.generated." + g.shell[j].name;
      var check := "verify." + step;
      && |p.shell| == |g.shell| && p.saved == g.saved && p.files == after.files
      && p.shell[j].name == g.shell[j].name && p.shell[j].status == Installed
      && |p.journal| > 0 && p.journal[|p.journal| - 1].ResultRow? && p.journal[|p.journal| - 1].confirmed
      && p.journal[|p.journal| - 1].step == step && p.journal[|p.journal| - 1].operation == operation
      && var doubted := p.shell[j := p.shell[j].(status := UnknownGenerated)];
      && var evidence := Evidence(check, operation, g.saved, Some(doubted), true);
      && after.journal == p.journal + [IntentRow(check, operation, OfShell(doubted))] + [ResultRow(check, operation, false, OfEvidence(evidence))]
      && after.evidence == p.evidence[|p.journal| + 2 := evidence]
  {
    hide GeneratedPlace, BackupName, BrokenFiles;
  }

  lemma PublishedName(shell: seq<ShellRow>, o: Origin, j: nat)
    requires |shell| == |o.leaves| + 1 && j < |shell|
    requires forall k :: 0 <= k < |shell| ==> shell[k].name == GeneratedName(o, k)
    requires forall a, b :: 0 <= a < b <= |o.leaves| ==> GeneratedName(o, a) != GeneratedName(o, b)
    ensures NamedIndex(shell, shell[j].name) == j
  {
    assert GeneratedName(o, j) == shell[j].name;
  }

  // The record of the failed verification is taken back to the publication before it.
  lemma VerificationTakenBack(p: Migration, o: Origin, seeds: seq<Tree>, j: nat, operation: Operation)
    requires Shape(p, o, seeds) && j < |p.shell| && p.shell[j].status == Installed
    requires forall a, b :: 0 <= a < b <= |o.leaves| ==> GeneratedName(o, a) != GeneratedName(o, b)
    requires |p.journal| > 0 && p.journal[|p.journal| - 1].ResultRow? && p.journal[|p.journal| - 1].confirmed
    requires p.journal[|p.journal| - 1].step == "publish.generated." + p.shell[j].name
    requires p.journal[|p.journal| - 1].operation == operation
    requires Latest(p, false).shell.Some?
    ensures var check := "verify." + ("publish.generated." + p.shell[j].name);
      var doubted := p.shell[j := p.shell[j].(status := UnknownGenerated)];
      var e := Evidence(check, operation, p.saved, Some(doubted), true);
      var rows := p.journal + [IntentRow(check, operation, OfShell(doubted))] + [ResultRow(check, operation, false, OfEvidence(e))];
      Reclassified(rows, Latest(p, false), e) == Ok(Some(p.shell))
  {
    var doubted := p.shell[j := p.shell[j].(status := UnknownGenerated)];
    forall k | 0 <= k < |p.shell| ensures p.shell[k].name == GeneratedName(o, k) && doubted[k].name == GeneratedName(o, k) {
      assert ForwardShellRow(p.shell[k], o, k);
    }
    PublishedName(p.shell, o, j);
    PublishedName(doubted, o, j);
    NameAfterPrefix(p.shell[j].name);
    assert doubted[j := doubted[j].(status := Installed)] == p.shell;
  }

  lemma NameAfterPrefix(name: string)
    ensures var step := "verify." + ("publish.generated." + name);
      VERIFY_PUBLISH <= step && step[|VERIFY_PUBLISH|..] == name
  {
    assert "verify." + ("publish.generated." + name) == VERIFY_PUBLISH + name;
  }

  // The forward run up to its end; `settled` is the state a recovery starts from.
  lemma {:induction false} StoppedRunIsRecoverable(g: Migration, o: Origin, run: string, runId: string, target: string, source: string, seeds: seq<Tree>, script: seq<Event>)
    returns (settled: Migration)
    requires ValidOrigin(o, run, target) && Steady(g, o, run, target, source, seeds) && Begun(g) && g.status == Advancing
    ensures var final := Drive(g, o, run, runId, script);
      final.journal != [] && final.status in {Halted, Done, Unverified} ==> Recoverable(final, settled, o, run, target, source, seeds)
    decreases |script|
  {
    hide Steady, Recoverable;
    if script == [] {
      settled := g.(status := Halted);
      if g.journal != [] {
        HaltedSteady(g, o, run, target, source, seeds);
        SteadyIsRecoverable(settled, o, run, target, source, seeds);
      }
    } else {
      var next := Step(g, o, run, runId, script[0]);
      settled := next;
      if next.status == Advancing {
        StepSteady(g, o, run, runId, target, source, seeds, script[0]);
        settled := StoppedRunIsRecoverable(next, o, run, runId, target, source, seeds, script[1..]);
      } else {
        assert Drive(next, o, run, runId, script[1..]) == next;
        if next.status == Halted || next.status == Done {
          StepSteady(g, o, run, runId, target, source, seeds, script[0]);
          if next.journal != [] && LockVacant(o, next.files) {
            SteadyIsRecoverable(next, o, run, target, source, seeds);
          } else if next.journal != [] {
            settled := LockedIsRecoverable(g, o, run, runId, target, source, seeds, script[0]);
          }
        } else if next.status == Unverified {
          var j := NextOperation(g).index;
          UnverifiedIsRecoverable(g, o, run, target, source, seeds, j, script[0]);
          settled := Publication(g, o, run, j, script[0]);
        }
      }
    }
  }

  // npm made its lock file: the records are those of the uninstall, and only the lock file is unknown.
  lemma LockedIsRecoverable(g: Migration, o: Origin, run: string, runId: string, target: string, source: string, seeds: seq<Tree>, e: Event)
    returns (settled: Migration)
    requires ValidOrigin(o, run, target) && Steady(g, o, run, target, source, seeds) && g.status == Advancing
    requires Step(g, o, run, runId, e).status in {Halted, Done} && !LockVacant(o, Step(g, o, run, runId, e).files)
    requires Step(g, o, run, runId, e).journal != []
    ensures Recoverable(Step(g, o, run, runId, e), settled, o, run, target, source, seeds)
  {
    hide Sound, Logged, RetainStep, CopyStep, UninstallStep, PublishStep, WithoutLock, Fold;
    var next := Step(g, o, run, runId, e);
    OnlyNpmMakesLock(g, o, run, runId, target, source, seeds, e);
    settled := UninstallStep(g, o, e);
    UninstallSteady(g, o, run, target, source, seeds, e);
    SoundLockVacant(settled, o, run, target, source, seeds);
    SteadyIsRecoverable(settled, o, run, target, source, seeds);
    assert WithoutLock(next.files, o) == settled.files by {
      LockRemoved(settled.files, o, e.created.value);
    }
  }

  lemma LockRemoved(files: Files, o: Origin, lock: Tree)
    requires o.absentLock.Some? && o.absentLock.value !in files
    ensures WithoutLock(files[o.absentLock.value := lock], o) == files
  {
    assert WithoutLock(files[o.absentLock.value := lock], o).Keys == files.Keys;
  }

  lemma OnlyNpmMakesLock(g: Migration, o: Origin, run: string, runId: string, target: string, source: string, seeds: seq<Tree>, e: Event)
    requires ValidOrigin(o, run, target) && Steady(g, o, run, target, source, seeds) && g.status == Advancing
    requires Step(g, o, run, runId, e).status in {Halted, Done} && !LockVacant(o, Step(g, o, run, runId, e).files)
    ensures NextOperation(g).Uninstall? && Step(g, o, run, runId, e) != UninstallStep(g, o, e)
    ensures UninstallStep(g, o, e).status in {Advancing, Halted}
  {
    hide Sound, Logged, GeneratedPlace, BackupName, PublishedTree, RetainStep, CopyStep, PublishStep, UninstallStep;
    SoundLockVacant(g, o, run, target, source, seeds);
    match NextOperation(g)
    case Retain(i) => HaltedRetain(g, run, i, e);
    case MakeCopy(i) => HaltedCopy(g, run, runId, i, e);
    case Uninstall =>
      UninstallEnds(g, o, e);
      if UninstallStep(g, o, e).status in {Advancing, Halted} {
        UninstallSteady(g, o, run, target, source, seeds, e);
        SoundLockVacant(UninstallStep(g, o, e), o, run, target, source, seeds);
      }
    case Publish(j) => HaltedPublication(g, o, run, j, e);
    case Conclude =>
  }

  lemma UninstallEnds(g: Migration, o: Origin, e: Event)
    requires g.status == Advancing
    ensures UninstallStep(g, o, e).status in {Advancing, Halted, Doubtful, Cut}
  {
    hide BrokenFiles, AfterUninstall, AllObserved, PartlyObserved, PartlyReleased, Removed, Accounted;
  }

  lemma HaltedRetain(g: Migration, run: string, i: nat, e: Event)
    requires i < |g.saved| && g.status == Advancing && RetainStep(g, run, i, e).status in {Halted, Done}
    ensures RetainStep(g, run, i, e).files == g.files
  {
    hide MaybeMoved, BackupPlace;
  }

  lemma HaltedCopy(g: Migration, run: string, runId: string, i: nat, e: Event)
    requires i < |g.saved| && g.status == Advancing && CopyStep(g, run, runId, i, e).status in {Halted, Done}
    ensures CopyStep(g, run, runId, i, e).files == g.files
  {
    hide BrokenFiles, StagingName;
  }

  lemma HaltedPublication(g: Migration, o: Origin, run: string, j: nat, e: Event)
    requires j < |g.shell| && g.status == Advancing && PublishStep(g, o, run, j, e).status in {Halted, Done}
    ensures PublishStep(g, o, run, j, e).files == g.files
  {
    hide BrokenFiles, GeneratedPlace, BackupName, PublishedTree;
  }

  lemma HaltedSteady(g: Migration, o: Origin, run: string, target: string, source: string, seeds: seq<Tree>)
    requires Steady(g, o, run, target, source, seeds)
    ensures Steady(g.(status := Halted), o, run, target, source, seeds)
  {
    hide Sound, Logged;
    SoundIgnoresStatus(g, g.(status := Halted), o, run, target, source, seeds);
  }

  // ---- No run loses an original ----

  lemma SoundSurvives(g: Migration, o: Origin, run: string, target: string, source: string, seeds: seq<Tree>, i: nat)
    requires Sound(g, o, run, target, source, seeds) && i < |seeds|
    ensures Survives(g.files, seeds[i])
  {
    hide Placed;
    assert ForwardRow(g.saved[i], o.objects[i], seeds[i]);
    var m := ModelOf(g, o, run, source);
    OnDiskAt(m, g.files, o, {run, target}, target, OriginalSlot(i));
    assert SameObject(g.files[At(m, OriginalSlot(i)).value.place], seeds[i]);
  }

  // Work in vacant names cannot reach an existing object.
  lemma VacantScopeSurvives(files: Files, e: Event, scope: set<Place>, tree: Tree)
    requires Survives(files, tree)
    ensures Survives(BrokenFiles(files, e, if scope !! files.Keys then scope else {}), tree)
  {
    var p :| p in files && SameObject(files[p], tree);
    var after := BrokenFiles(files, e, if scope !! files.Keys then scope else {});
    assert p in after && SameObject(after[p], tree);
  }

  lemma MaybeMovedSurvives(files: Files, from: Place, to: Place, after: Files, tree: Tree)
    requires Survives(files, tree)
    ensures Survives(MaybeMoved(files, from, to, after), tree)
  {
    if CanMove(files, from, to) && from !in after && to in after {
      MoveLosesNothing(files, from, to, after[to].changed, tree);
    }
  }

  // Once preserved, an original is out of the uninstall's reach.
  lemma UninstallSurvives(g: Migration, o: Origin, run: string, target: string, source: string, seeds: seq<Tree>, e: Event, i: nat)
    requires ValidOrigin(o, run, target) && Sound(g, o, run, target, source, seeds) && i < |seeds|
    requires forall k :: 0 <= k < |g.saved| ==> !IsUntouched(g.saved[k])
    ensures Survives(BrokenFiles(g.files, e, LivePlaces(g.saved) + LockPlaces(o)), seeds[i])
    ensures e.Uninstalled? && |e.survivors| == |g.saved| ==> Survives(AfterUninstall(g.files, g.saved, e.survivors), seeds[i])
  {
    hide Placed;
    assert ForwardRow(g.saved[i], o.objects[i], seeds[i]);
    var m := ModelOf(g, o, run, source);
    OnDiskAt(m, g.files, o, {run, target}, target, OriginalSlot(i));
    var p := At(m, OriginalSlot(i)).value.place;
    assert p.directory == run;
    forall k | 0 <= k < |g.saved| ensures g.saved[k].spec.live != p {
      assert ForwardRow(g.saved[k], o.objects[k], seeds[k]);
    }
    assert p !in LivePlaces(g.saved) + LockPlaces(o);
    assert SameObject(BrokenFiles(g.files, e, LivePlaces(g.saved) + LockPlaces(o))[p], seeds[i]);
    if e.Uninstalled? && |e.survivors| == |g.saved| {
      assert SameObject(AfterUninstall(g.files, g.saved, e.survivors)[p], seeds[i]);
    }
  }

  lemma StepSurvives(g: Migration, o: Origin, run: string, runId: string, target: string, source: string, seeds: seq<Tree>, e: Event, i: nat)
    requires ValidOrigin(o, run, target) && Sound(g, o, run, target, source, seeds) && i < |seeds| && g.status == Advancing
    ensures Survives(Step(g, o, run, runId, e).files, seeds[i])
  {
    hide Sound, Survives, BrokenFiles, MaybeMoved, AfterUninstall, GeneratedPlace, BackupName, UninstallStep, MadeLock;
    var files, tree := g.files, seeds[i];
    SoundSurvives(g, o, run, target, source, seeds, i);
    match NextOperation(g)
    case Retain(k) =>
      RetainFiles(g, run, k, e, tree);
    case MakeCopy(k) =>
      CopyFiles(g, run, runId, k, e, tree);
    case Uninstall =>
      UninstallSurvives(g, o, run, target, source, seeds, e, i);
      UninstallFiles(g, o, e, tree);
      LockSurvives(UninstallStep(g, o, e), o, e, tree);
    case Publish(j) =>
      PublishFiles(g, o, run, j, e, tree);
    case Conclude =>
  }

  lemma UninstallFiles(g: Migration, o: Origin, e: Event, tree: Tree)
    requires Survives(g.files, tree) && Survives(BrokenFiles(g.files, e, LivePlaces(g.saved) + LockPlaces(o)), tree)
    requires e.Uninstalled? && |e.survivors| == |g.saved| ==> Survives(AfterUninstall(g.files, g.saved, e.survivors), tree)
    ensures Survives(UninstallStep(g, o, e).files, tree)
  {
    hide Survives, BrokenFiles, AfterUninstall, AllObserved, PartlyObserved, PartlyReleased, Removed;
  }

  lemma LockSurvives(g: Migration, o: Origin, e: Event, tree: Tree)
    requires Survives(g.files, tree)
    ensures Survives(MadeLock(g, o, e).files, tree)
  {
    hide Survives;
    if e.Uninstalled? && e.created.Some? && o.absentLock.Some? && LockVacant(o, g.files) {
      AddedSurvives(g.files, o.absentLock.value, e.created.value, tree);
    }
  }

  lemma RetainFiles(g: Migration, run: string, i: nat, e: Event, tree: Tree)
    requires i < |g.saved| && Survives(g.files, tree)
    ensures Survives(RetainStep(g, run, i, e).files, tree)
  {
    hide Survives, MaybeMoved, BackupPlace;
    var from, to := g.saved[i].spec.live, BackupPlace(run, g.saved[i].spec);
    if e.Moved? && CanMove(g.files, from, to) {
      MoveLosesNothing(g.files, from, to, e.changed, tree);
    } else if e.Break? {
      MaybeMovedSurvives(g.files, from, to, e.after, tree);
    }
  }

  lemma CopyFiles(g: Migration, run: string, runId: string, i: nat, e: Event, tree: Tree)
    requires i < |g.saved| && Survives(g.files, tree)
    ensures Survives(CopyStep(g, run, runId, i, e).files, tree)
  {
    hide Survives, BrokenFiles;
    var live := g.saved[i].spec.live;
    VacantScopeSurvives(g.files, e, {live, Place(run, StagingName(runId, g.saved[i].spec))}, tree);
    if e.Copied? && live !in g.files {
      AddedSurvives(g.files, live, Tree(e.identity, e.changed, g.saved[i].rows.contents), tree);
    }
  }

  lemma PublishFiles(g: Migration, o: Origin, run: string, j: nat, e: Event, tree: Tree)
    requires j < |g.shell| && Survives(g.files, tree)
    ensures Survives(PublishStep(g, o, run, j, e).files, tree)
  {
    hide Survives, BrokenFiles, GeneratedPlace, BackupName;
    var to := GeneratedPlace(o, j);
    var name := g.shell[j].name;
    VacantScopeSurvives(g.files, e, {to, Place(run, if name == "shell" then "new-shell" else BackupName(name, j))}, tree);
    if e.Published? && to !in g.files {
      AddedSurvives(g.files, to, PublishedTree(o, j, e), tree);
    }
  }

  lemma AddedSurvives(files: Files, at: Place, added: Tree, tree: Tree)
    requires Survives(files, tree) && at !in files
    ensures Survives(files[at := added], tree)
  {
    var p :| p in files && SameObject(files[p], tree);
    assert p in files[at := added] && SameObject(files[at := added][p], tree);
  }

  lemma {:induction false} RunKeepsOriginals(g: Migration, o: Origin, run: string, runId: string, target: string, source: string, seeds: seq<Tree>, script: seq<Event>, i: nat)
    requires ValidOrigin(o, run, target) && Steady(g, o, run, target, source, seeds) && Begun(g) && g.status == Advancing && i < |seeds|
    ensures Survives(Drive(g, o, run, runId, script).files, seeds[i])
    decreases |script|
  {
    hide Sound, Survives, Step, Logged;
    if script == [] {
      SoundSurvives(g, o, run, target, source, seeds, i);
    } else {
      var next := Step(g, o, run, runId, script[0]);
      if next.status == Advancing {
        StepSteady(g, o, run, runId, target, source, seeds, script[0]);
        RunKeepsOriginals(next, o, run, runId, target, source, seeds, script[1..], i);
      } else {
        StepSurvives(g, o, run, runId, target, source, seeds, script[0], i);
      }
    }
  }

  // ---- From the untouched system to the recovered one ----

  function StartMigration(o: Origin, files: Files, seeds: seq<Tree>): Migration
    requires |seeds| == |o.objects|
  {
    Migration(seq(|o.objects|, i requires 0 <= i < |o.objects| => Saved(o.objects[i], Original, seeds[i], None)),
              EmptyShell(o), files, [], map[], Advancing)
  }

  /** Before the migration: each original at its live name, and no other object at a watched name. */
  ghost predicate Untouched(o: Origin, files: Files, roots: set<string>, seeds: seq<Tree>) {
    && |seeds| == |o.objects| > 0
    && (forall i :: 0 <= i < |o.objects| ==> o.objects[i].live in files && files[o.objects[i].live] == seeds[i])
    && (forall p :: p in files && Watched(o, roots, p) ==> exists i :: 0 <= i < |o.objects| && p == o.objects[i].live)
  }

  // Before anything is done, the model is the originals at their live names.
  lemma StartModel(o: Origin, files: Files, run: string, source: string, seeds: seq<Tree>)
    requires |seeds| == |o.objects|
    ensures var m := ModelOf(StartMigration(o, files, seeds), o, run, source);
      forall s :: At(m, s) == if s.OriginalSlot? && s.index < |seeds| then Some(Entry(o.objects[s.index].live, seeds[s.index])) else None
  {
  }

  lemma StartIsSteady(o: Origin, files: Files, run: string, target: string, source: string, seeds: seq<Tree>)
    requires ValidOrigin(o, run, target) && Untouched(o, files, {run, target}, seeds)
    ensures Steady(StartMigration(o, files, seeds), o, run, target, source, seeds)
    ensures Begun(StartMigration(o, files, seeds))
  {
    hide ModelOf, Watched;
    var g := StartMigration(o, files, seeds);
    var m := ModelOf(g, o, run, source);
    StartModel(o, files, run, source, seeds);
    forall p | p in files && Watched(o, {run, target}, p) ensures IsRecorded(m, p) {
      var i :| 0 <= i < |o.objects| && p == o.objects[i].live;
      assert At(m, OriginalSlot(i)).Some? && At(m, OriginalSlot(i)).value.place == p;
    }
    forall i | 0 <= i < |g.saved| ensures ForwardRow(g.saved[i], o.objects[i], seeds[i]) {}
    forall j | 0 <= j < |g.shell| ensures ForwardShellRow(g.shell[j], o, j) {}
  }

  /** However the forward run ends, also inside an operation or with an unknown result, every original
      object still exists under some name. */
  lemma MigrationLosesNoOriginal(o: Origin, files: Files, run: string, runId: string, target: string, seeds: seq<Tree>, script: seq<Event>, i: nat)
    requires ValidOrigin(o, run, target) && Untouched(o, files, {run, target}, seeds) && i < |seeds|
    ensures Survives(Drive(StartMigration(o, files, seeds), o, run, runId, script).files, seeds[i])
  {
    hide Sound, Survives, Step;
    StartIsSteady(o, files, run, target, "", seeds);
    RunKeepsOriginals(StartMigration(o, files, seeds), o, run, runId, target, "", seeds, script, i);
  }

  // The first look of a recovery passes exactly while npm's lock file is absent.
  lemma OnlyLockIsUnknown(m: Model, files: Files, o: Origin, run: string, target: string)
    requires Safe(m, WithoutLock(files, o), o, {run, target}, target)
    ensures ObjectCheck.Verified(m, files, ObjectCheck.StartSlots(m, o, [run])) <==> LockVacant(o, files)
  {
    hide ObjectCheck.Verified, WellFormed, Sited;
    var slots := ObjectCheck.StartSlots(m, o, [run]);
    ObjectCheck.VerifiedIs(m, files, slots);
    if LockVacant(o, files) {
      VacantIsWithout(files, o);
      ObjectCheck.StartSlotsAreWatched(m, o, [run], {run, target});
      ObjectCheck.SafeIsVerified(m, files, o, {run, target}, target, slots);
    } else {
      assert o.absentLock.value in slots;
      forall s | At(m, s).Some? ensures At(m, s).value.place != o.absentLock.value {
        assert At(m, s).value.place in WithoutLock(files, o);
      }
    }
  }

  /** Stop the forward migration anywhere it leaves a readable journal (after any confirmed operation, at
      its end, or at a failed verification): the recovery model is defined, describes the disk exactly but
      for a lock file npm may have made, and records the same originals. A recovery's first look passes
      exactly if npm made no lock file. */
  lemma StoppedMigrationHasModel(o: Origin, files: Files, run: string, runId: string, target: string, source: string, seeds: seq<Tree>, script: seq<Event>)
    requires ValidOrigin(o, run, target) && Untouched(o, files, {run, target}, seeds)
    ensures var final := Drive(StartMigration(o, files, seeds), o, run, runId, script);
      final.journal != [] && final.status in {Halted, Done, Unverified} ==>
      && var h := Fold(final.journal, 0, final.evidence, o, seeds, StartHistory(final.journal));
      && h.Ok?
      && var model := ModelFromMigration(h.value, o, run, source);
      && model.Ok?
      && Safe(model.value, WithoutLock(final.files, o), o, {run, target}, target) && Sited(model.value, o, {run})
      && (LockVacant(o, final.files) ==> WithoutLock(final.files, o) == final.files)
      && (ObjectCheck.Verified(model.value, final.files, ObjectCheck.StartSlots(model.value, o, [run])) <==> LockVacant(o, final.files))
      && |model.value.objects| == |seeds|
      && forall i :: 0 <= i < |seeds| ==> SameObject(model.value.objects[i].original.tree, seeds[i])
  {
    hide Sound, Safe, Fold, Drive, ObjectCheck.Verified, ObjectCheck.StartSlots, LockVacant, WithoutLock;
    var g := StartMigration(o, files, seeds);
    var final := Drive(g, o, run, runId, script);
    StartIsSteady(o, files, run, target, source, seeds);
    var settled := StoppedRunIsRecoverable(g, o, run, runId, target, source, seeds, script);
    if final.journal != [] && final.status in {Halted, Done, Unverified} {
      SoundIsSafe(settled, o, run, target, source, seeds);
      SoundShape(settled, o, run, target, source, seeds);
      LatestModel(settled, o, run, source, seeds);
      OnlyLockIsUnknown(ModelOf(settled, o, run, source), final.files, o, run, target);
      if LockVacant(o, final.files) {
        VacantIsWithout(final.files, o);
      }
    }
  }

  lemma LatestModel(g: Migration, o: Origin, run: string, source: string, seeds: seq<Tree>)
    requires Shape(g, o, seeds) && g.journal != []
    ensures ModelFromMigration(Latest(g, true), o, run, source) == Ok(ModelOf(g, o, run, source))
    ensures forall i :: 0 <= i < |seeds| ==> SameObject(ModelOf(g, o, run, source).objects[i].original.tree, seeds[i])
  {
    forall i | 0 <= i < |g.saved| ensures ForwardRow(g.saved[i], o.objects[i], seeds[i]) {}
    forall j | 0 <= j < |g.shell| ensures ForwardShellRow(g.shell[j], o, j) {}
    if forall j :: 0 <= j < |g.shell| ==> IsUnpublished(g.shell[j]) {
      assert g.shell == EmptyShell(o);
    }
  }

  // What the recovery command loads from a stopped migration.
  function LoadModel(g: Migration, o: Origin, run: string, source: string, seeds: seq<Tree>): Result<Model> {
    var h :- Fold(g.journal, 0, g.evidence, o, seeds, StartHistory(g.journal));
    ModelFromMigration(h, o, run, source)
  }

  /** The whole promise: migrate, stop anywhere with a readable journal, recover to completion. Then every
      original is at its own name with its own identity and contents, and no generated file or working
      copy is left at a live name. With every move confirmed the recovery completes exactly if npm made no
      lock file where there was none; otherwise it stops at its first look. */
  lemma MigrationThenRecoveryRestores(o: Origin, files: Files, run: string, runId: string, target: string, source: string, seeds: seq<Tree>,
                                      script: seq<Event>, recovery: seq<RecoveryExecution.Event>)
    requires ValidOrigin(o, run, target) && Untouched(o, files, {run, target}, seeds)
    ensures var stopped := Drive(StartMigration(o, files, seeds), o, run, runId, script);
      stopped.journal != [] && stopped.status in {Halted, Done, Unverified} ==>
      && var model := LoadModel(stopped, o, run, source, seeds);
      && model.Ok?
      && var slots := ObjectCheck.StartSlots(model.value, o, [run]);
      && var end := RecoveryExecution.Drive(RecoveryExecution.StartRun(model.value, stopped.files, slots), o, target, recovery);
      && (RecoveryRuns.AllConfirm(recovery) && |recovery| > Outstanding(model.value) ==>
            (end.status == RecoveryExecution.Completed <==> LockVacant(o, stopped.files)))
      && (!LockVacant(o, stopped.files) ==> end.status == RecoveryExecution.Stopped && end.files == stopped.files)
      && (end.status == RecoveryExecution.Completed ==>
            && (forall i :: 0 <= i < |o.objects| ==> o.objects[i].live in end.files && SameObject(end.files[o.objects[i].live], seeds[i]))
            && (forall j :: 0 <= j <= |o.leaves| && GeneratedPlace(o, j) in end.files ==>
                  exists i :: 0 <= i < |o.objects| && GeneratedPlace(o, j) == o.objects[i].live))
  {
    hide Safe, Fold, Drive, RecoveryExecution.Drive, ObjectCheck.Verified, ObjectCheck.StartSlots, LockVacant, WithoutLock;
    StoppedMigrationHasModel(o, files, run, runId, target, source, seeds, script);
    var stopped := Drive(StartMigration(o, files, seeds), o, run, runId, script);
    if stopped.journal != [] && stopped.status in {Halted, Done, Unverified} {
      var model := LoadModel(stopped, o, run, source, seeds).value;
      var slots := ObjectCheck.StartSlots(model, o, [run]);
      ObjectCheck.StartSlotsAreWatched(model, o, [run], {run, target});
      var start := RecoveryExecution.StartRun(model, stopped.files, slots);
      if !LockVacant(o, stopped.files) {
        RecoveryRuns.UnverifiedStops(start, o, target, recovery);
      } else {
        if RecoveryRuns.AllConfirm(recovery) {
          RecoveryRuns.ConfirmedRunCompletes(start, o, {run, target}, target, recovery);
        }
        if RecoveryExecution.Drive(start, o, target, recovery).status == RecoveryExecution.Completed {
          RecoveryRuns.CompletedRunRestores(model, stopped.files, slots, o, {run, target}, target, recovery);
        }
      }
    }
  }
}
