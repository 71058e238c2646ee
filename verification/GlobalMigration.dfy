// The forward migration: preserve the originals, make working copies, run the uninstall, publish the
// wrappers (managedGlobalPreservation.ts, managedGlobalShell.ts, managedGlobalCoordinator.ts).
module GlobalMigration {
  import opened Wrappers
  import opened GuardedFiles
  import opened RecoveryModel

  datatype Saved = Saved(spec: Spec, state: ObjectState, rows: Tree, working: Option<Working>)
  datatype ShellRow = ShellRow(name: string, status: GeneratedStatus, rows: Option<Tree>)

  // The private state file behind one journal result.
  datatype Evidence = Evidence(step: string, operation: Operation, objects: seq<Saved>,
                               shell: Option<seq<ShellRow>>, verificationFailed: bool)

  datatype StateDigest = OfObjects(objects: seq<Saved>) | OfShell(shell: seq<ShellRow>) | OfEvidence(evidence: Evidence)

  datatype Row =
    | IntentRow(step: string, operation: Operation, digest: StateDigest)
    | ResultRow(step: string, operation: Operation, confirmed: bool, digest: StateDigest)
    | CompleteRow

  datatype Status =
    | Advancing
    | Halted        // stopped between two operations: the journal is ready
    | Cut           // the process ended between an intent and its result
    | Doubtful      // an operation was recorded as unknown
    | Unverified    // a confirmed publication whose verification failed, recorded as unknown
    | Done

  datatype Migration = Migration(saved: seq<Saved>, shell: seq<ShellRow>, files: Files, journal: seq<Row>,
                                 evidence: map<nat, Evidence>, status: Status)

  // What the environment does at the next step.
  datatype Event =
    | Refuse                                                            // a check fails before the intent
    | Break(recorded: bool, after: Files)                               // the operation is not confirmed
    | Moved(changed: nat)
    | Copied(identity: nat, changed: nat)
    // npm ended: what it left behind, how many objects could be looked at, and the lock file it may have made.
    | Uninstalled(survivors: seq<Option<Tree>>, seen: nat, completed: bool, created: Option<Tree>)
    | ReleaseFailed(released: nat, recorded: bool)                      // npm was not started
    | Published(identity: nat, changed: nat, manifest: map<string, string>, verified: bool)
    | Checkpoint

  datatype Operate = Retain(index: nat) | MakeCopy(index: nat) | Uninstall | Publish(index: nat) | Conclude

  predicate IsUntouched(row: Saved) {
    row.state == Original
  }

  predicate LacksCopy(row: Saved) {
    row.working.None?
  }

  predicate IsUnpublished(row: ShellRow) {
    row.status == NotInstalled
  }

  predicate HasKnownCopy(row: Saved) {
    row.working.Some? && row.working.value.status == Known && row.working.value.rows.Some?
  }

  predicate AllKnown(saved: seq<Saved>) {
    forall i :: 0 <= i < |saved| ==> HasKnownCopy(saved[i])
  }

  // Everything but npm's own management file is gone after the uninstall.
  predicate Removed(saved: seq<Saved>) {
    forall i :: 0 <= i < |saved| && saved[i].spec.role != Management ==>
      saved[i].working.Some? && saved[i].working.value.status == Absent
  }

  // The phase order of the coordinator, as a function of the recorded state.
  function NextOperation(g: Migration): Operate {
    var r := FirstIndex(g.saved, IsUntouched);
    var c := FirstIndex(g.saved, LacksCopy);
    var p := FirstIndex(g.shell, IsUnpublished);
    if r < |g.saved| then Retain(r)
    else if c < |g.saved| then MakeCopy(c)
    else if AllKnown(g.saved) then Uninstall
    else if p < |g.shell| then Publish(p)
    else Conclude
  }

  function BackupPlace(run: string, spec: Spec): Place {
    Place(run, spec.backupName)
  }

  function StagingName(runId: string, spec: Spec): string {
    "work-" + runId + "-" + spec.step
  }

  function ObjectEvidence(step: string, operation: Operation, saved: seq<Saved>): Evidence {
    Evidence(step, operation, saved, None, false)
  }

  // Intent, result and state evidence of one operation.
  function Recorded(g: Migration, step: string, operation: Operation, digest: StateDigest, confirmed: bool, e: Evidence): Migration {
    g.(journal := g.journal + [IntentRow(step, operation, digest)] + [ResultRow(step, operation, confirmed, OfEvidence(e))],
       evidence := g.evidence[|g.journal| + 2 := e])
  }

  // Only an intent: the process ended, or the evidence could not be written.
  function Pending(g: Migration, step: string, operation: Operation, digest: StateDigest, files: Files): Migration {
    g.(journal := g.journal + [IntentRow(step, operation, digest)], files := files, status := Cut)
  }

  // An unconfirmed operation may have changed only the names in its scope.
  predicate WithinScope(files: Files, after: Files, scope: set<Place>) {
    forall p :: p in files.Keys + after.Keys && p !in scope ==> p in files && p in after && files[p] == after[p]
  }

  function Disturbed(files: Files, after: Files, scope: set<Place>): Files {
    if WithinScope(files, after, scope) then after else files
  }

  // An unconfirmed rename either happened or did not.
  function MaybeMoved(files: Files, from: Place, to: Place, after: Files): Files {
    if CanMove(files, from, to) && from !in after && to in after then Move(files, from, to, after[to].changed) else files
  }

  function BrokenFiles(files: Files, e: Event, scope: set<Place>): Files {
    if e.Break? then Disturbed(files, e.after, scope) else files
  }

  // ---- One operation of each phase ----

  function RetainStep(g: Migration, run: string, i: nat, e: Event): Migration
    requires i < |g.saved|
  {
    var row := g.saved[i];
    var step, digest := "retain." + row.spec.step, OfObjects(g.saved);
    var to := BackupPlace(run, row.spec);
    if e.Moved? && CanMove(g.files, row.spec.live, to) then
      var saved := g.saved[i := row.(state := Preserved, rows := row.rows.(changed := e.changed))];
      Recorded(g, step, RetainOp, digest, true, ObjectEvidence(step, RetainOp, saved))
        .(saved := saved, files := Move(g.files, row.spec.live, to, e.changed))
    else if e.Moved? || (e.Break? && e.recorded) then
      var saved := g.saved[i := row.(state := UnknownOriginal)];
      Recorded(g, step, RetainOp, digest, false, ObjectEvidence(step, RetainOp, saved))
        .(saved := saved, files := if e.Break? then MaybeMoved(g.files, row.spec.live, to, e.after) else g.files, status := Doubtful)
    else if e.Break? then
      Pending(g, step, RetainOp, digest, MaybeMoved(g.files, row.spec.live, to, e.after))
    else
      g.(status := Halted)
  }

  function CopyStep(g: Migration, run: string, runId: string, i: nat, e: Event): Migration
    requires i < |g.saved|
  {
    var row := g.saved[i];
    var step, digest := "copy." + row.spec.step, OfObjects(g.saved);
    var staging := StagingName(runId, row.spec);
    var scope := {row.spec.live, Place(run, staging)};
    if e.Copied? && scope !! g.files.Keys && e.identity != row.rows.identity then
      var tree := Tree(e.identity, e.changed, row.rows.contents);
      var saved := g.saved[i := row.(working := Some(Working(Known, Some(tree), staging)))];
      Recorded(g, step, WorkingCopyOp, digest, true, ObjectEvidence(step, WorkingCopyOp, saved))
        .(saved := saved, files := g.files[row.spec.live := tree])
    else if e.Copied? || (e.Break? && e.recorded) then
      var saved := g.saved[i := row.(working := Some(Working(UnknownWorking, None, staging)))];
      Recorded(g, step, WorkingCopyOp, digest, false, ObjectEvidence(step, WorkingCopyOp, saved))
        .(saved := saved, files := BrokenFiles(g.files, e, if scope !! g.files.Keys then scope else {}), status := Doubtful)
    else if e.Break? then
      Pending(g, step, WorkingCopyOp, digest, BrokenFiles(g.files, e, if scope !! g.files.Keys then scope else {}))
    else
      g.(status := Halted)
  }

  // npm may only remove rows of a working copy: what is left must be known rows of the same object.
  predicate KnownRemainder(before: Tree, left: Tree) {
    && left.identity == before.identity
    && forall path :: path in left.contents ==> path in before.contents && left.contents[path] == before.contents[path]
  }

  predicate Explained(row: Saved, left: Option<Tree>) {
    HasKnownCopy(row) && (left.Some? ==> KnownRemainder(row.working.value.rows.value, left.value))
  }

  function Observed(row: Saved, left: Option<Tree>): Saved
    requires row.working.Some?
  {
    var w := row.working.value;
    row.(working := Some(if left.None? then w.(status := Absent, rows := None) else w.(status := AfterKnown, rows := left)))
  }

  predicate AllExplained(saved: seq<Saved>, survivors: seq<Option<Tree>>) {
    |survivors| == |saved| && forall i :: 0 <= i < |saved| ==> Explained(saved[i], survivors[i])
  }

  // Every object was looked at, and what is left of it is known.
  predicate Accounted(saved: seq<Saved>, e: Event) {
    e.Uninstalled? && e.seen >= |saved| && AllExplained(saved, e.survivors)
  }

  function AllObserved(saved: seq<Saved>, survivors: seq<Option<Tree>>): (after: seq<Saved>)
    requires AllExplained(saved, survivors)
    ensures |after| == |saved|
    ensures forall i :: 0 <= i < |saved| ==> after[i] == Observed(saved[i], survivors[i])
  {
    seq(|saved|, i requires 0 <= i < |saved| => Observed(saved[i], survivors[i]))
  }

  function AfterUninstall(files: Files, saved: seq<Saved>, survivors: seq<Option<Tree>>): (after: Files)
    requires |saved| == |survivors|
    ensures forall p :: (forall i :: 0 <= i < |saved| ==> saved[i].spec.live != p) ==>
              (p in after <==> p in files) && (p in files ==> after[p] == files[p])
  {
    if saved == [] then files
    else
      var rest := AfterUninstall(files, saved[..|saved| - 1], survivors[..|saved| - 1]);
      var live := saved[|saved| - 1].spec.live;
      match survivors[|saved| - 1]
      case None => rest - {live}
      case Some(tree) => rest[live := tree]
  }

  function LivePlaces(saved: seq<Saved>): set<Place> {
    set i | 0 <= i < |saved| :: saved[i].spec.live
  }

  function Forget(row: Saved): Saved {
    if row.working.Some? then row.(working := Some(row.working.value.(status := UnknownWorking))) else row
  }

  function Forgotten(saved: seq<Saved>): seq<Saved> {
    seq(|saved|, i requires 0 <= i < |saved| => Forget(saved[i]))
  }

  // How many objects were looked at and explained before the first that was not.
  function Reached(saved: seq<Saved>, survivors: seq<Option<Tree>>, seen: nat, from: nat := 0): (k: nat)
    requires |survivors| == |saved| && from <= |saved|
    ensures from <= k <= |saved|
    ensures forall i :: from <= i < k ==> Explained(saved[i], survivors[i])
    decreases |saved| - from
  {
    if from < |saved| && from < seen && Explained(saved[from], survivors[from]) then Reached(saved, survivors, seen, from + 1) else from
  }

  // What is recorded of a failed uninstall: what was already looked at, and nothing of the rest.
  function PartlyObserved(saved: seq<Saved>, e: Event): (after: seq<Saved>)
    requires e.Uninstalled?
  {
    if |e.survivors| != |saved| then Forgotten(saved)
    else
      var k := Reached(saved, e.survivors, e.seen);
      seq(k, i requires 0 <= i < k => Observed(saved[i], e.survivors[i])) + Forgotten(saved[k..])
  }

  function PartlyReleased(saved: seq<Saved>, released: nat): seq<Saved> {
    if released >= |saved| then Forgotten(saved) else Forgotten(saved[..released]) + saved[released..]
  }

  function LockPlaces(o: Origin): set<Place> {
    if o.absentLock.Some? then {o.absentLock.value} else {}
  }

  // npm's own lock file is absent where it was absent before.
  predicate LockVacant(o: Origin, files: Files) {
    o.absentLock.Some? ==> o.absentLock.value !in files
  }

  function UninstallStep(g: Migration, o: Origin, e: Event): Migration {
    var step, digest := "npm-uninstall", OfObjects(g.saved);
    if Accounted(g.saved, e) then
      var saved := AllObserved(g.saved, e.survivors);
      Recorded(g, step, UninstallOp, digest, true, ObjectEvidence(step, UninstallOp, saved))
        .(saved := saved, files := AfterUninstall(g.files, g.saved, e.survivors),
          status := if e.completed && Removed(saved) then Advancing else Halted)
    else if e.Uninstalled? || (e.Break? && e.recorded) then
      var saved := if e.Uninstalled? then PartlyObserved(g.saved, e) else Forgotten(g.saved);
      Recorded(g, step, UninstallOp, digest, false, ObjectEvidence(step, UninstallOp, saved))
        .(saved := saved, status := Doubtful,
          files := if e.Uninstalled? && |e.survivors| == |g.saved| then AfterUninstall(g.files, g.saved, e.survivors)
                   else BrokenFiles(g.files, e, LivePlaces(g.saved) + LockPlaces(o)))
    else if e.Break? then
      Pending(g, step, UninstallOp, digest, BrokenFiles(g.files, e, LivePlaces(g.saved) + LockPlaces(o)))
    else if e.ReleaseFailed? && e.recorded then
      var saved := PartlyReleased(g.saved, e.released);
      Recorded(g, step, UninstallOp, digest, false, ObjectEvidence(step, UninstallOp, saved)).(saved := saved, status := Doubtful)
    else if e.ReleaseFailed? then
      Pending(g, step, UninstallOp, digest, g.files)
    else
      g.(status := Halted)
  }

  // npm may have made its lock file where there was none: the uninstall is recorded as it ended, and the check
  // after it stops the run.
  function MadeLock(after: Migration, o: Origin, e: Event): Migration {
    if e.Uninstalled? && e.created.Some? && o.absentLock.Some? && LockVacant(o, after.files) then
      after.(files := after.files[o.absentLock.value := e.created.value], status := if after.status == Advancing then Halted else after.status)
    else after
  }

  function NpmStep(g: Migration, o: Origin, e: Event): Migration {
    MadeLock(UninstallStep(g, o, e), o, e)
  }

  // A wrapper is a file with its reviewed text; the manifest is a directory.
  function WrapperContents(o: Origin, j: nat): map<string, string> {
    map["" := if j < |o.wrappers| then o.wrappers[j] else ""]
  }

  function PublishedTree(o: Origin, j: nat, e: Event): Tree
    requires e.Published?
  {
    Tree(e.identity, e.changed, if j < |o.leaves| then WrapperContents(o, j) else e.manifest)
  }

  function PublishStep(g: Migration, o: Origin, run: string, j: nat, e: Event): Migration
    requires j < |g.shell|
  {
    var row := g.shell[j];
    var operation := if row.name == "shell" then ManifestOp else WrapperOp;
    var step, digest := "publish.generated." + row.name, OfShell(g.shell);
    var to := GeneratedPlace(o, j);
    var scope := {to, Place(run, if row.name == "shell" then "new-shell" else BackupName(row.name, j))};
    if e.Published? && scope !! g.files.Keys then
      var shell := g.shell[j := row.(status := Installed, rows := Some(PublishedTree(o, j, e)))];
      var published := Recorded(g, step, operation, digest, true, Evidence(step, operation, g.saved, Some(shell), false))
        .(shell := shell, files := g.files[to := PublishedTree(o, j, e)]);
      if e.verified then published
      else
        // The publication stays; its failed verification is recorded as an operation of its own.
        var doubted := shell[j := shell[j].(status := UnknownGenerated)];
        var check := "verify." + step;
        Recorded(published, check, operation, OfShell(doubted), false, Evidence(check, operation, g.saved, Some(doubted), true))
          .(shell := doubted, status := Unverified)
    else if e.Published? || (e.Break? && e.recorded) then
      var shell := g.shell[j := row.(status := UnknownGenerated)];
      Recorded(g, step, operation, digest, false, Evidence(step, operation, g.saved, Some(shell), false))
        .(shell := shell, files := BrokenFiles(g.files, e, if scope !! g.files.Keys then scope else {}), status := Doubtful)
    else if e.Break? then
      Pending(g, step, operation, digest, BrokenFiles(g.files, e, if scope !! g.files.Keys then scope else {}))
    else
      g.(status := Halted)
  }

  function Step(g: Migration, o: Origin, run: string, runId: string, e: Event): Migration {
    match NextOperation(g)
    case Retain(i) => RetainStep(g, run, i, e)
    case MakeCopy(i) => CopyStep(g, run, runId, i, e)
    case Uninstall => NpmStep(g, o, e)
    case Publish(j) => PublishStep(g, o, run, j, e)
    case Conclude =>
      if e.Checkpoint? then g.(journal := g.journal + [CompleteRow], status := Done) else g.(status := Halted)
  }

  function Drive(g: Migration, o: Origin, run: string, runId: string, script: seq<Event>): (r: Migration)
    ensures r.status != Advancing
    decreases |script|
  {
    if g.status != Advancing then g
    else if script == [] then g.(status := Halted)
    else Drive(Step(g, o, run, runId, script[0]), o, run, runId, script[1..])
  }

  // ---- Reading the evidence back (withGlobalMigrationEvidence) ----

  datatype JournalStatus = Ready | PendingIntent | UnknownResult | Concluded

  function StatusOf(rows: seq<Row>): JournalStatus {
    if rows == [] then Ready
    else match rows[|rows| - 1]
      case IntentRow(_, _, _) => PendingIntent
      case ResultRow(_, _, confirmed, _) => if confirmed then Ready else UnknownResult
      case CompleteRow => Concluded
  }

  datatype History = History(objects: Option<seq<Saved>>, shell: Option<seq<ShellRow>>, eligible: bool)

  function NamedIndex(shell: seq<ShellRow>, name: string): (i: nat)
    ensures i <= |shell|
    ensures i < |shell| ==> shell[i].name == name
    ensures forall k :: 0 <= k < i ==> shell[k].name != name
  {
    FirstIndex(shell, (row: ShellRow) => row.name == name)
  }

  const VERIFY_PUBLISH := "verify.publish.generated."

  // A failed read-only verification cannot undo the immediately preceding confirmed publication: the
  // record is taken back to the published state it must then agree with.
  function Reclassified(rows: seq<Row>, h: History, e: Evidence): (r: Result<Option<seq<ShellRow>>>)
    requires |rows| >= 1 && rows[|rows| - 1].ResultRow?
  {
    var n := |rows|;
    var result := rows[n - 1];
    if !(!result.confirmed && n >= 3 && rows[n - 3].ResultRow? && rows[n - 3].confirmed
         && result.step == "verify." + rows[n - 3].step && result.operation == rows[n - 3].operation
         && e.verificationFailed && h.objects.Some? && h.shell.Some? && e.shell.Some?
         && VERIFY_PUBLISH <= result.step) then Ok(None)
    else
      var name := result.step[|VERIFY_PUBLISH|..];
      var current := NamedIndex(e.shell.value, name);
      var before := NamedIndex(h.shell.value, name);
      if current < |e.shell.value| && e.shell.value[current].status == UnknownGenerated
         && before < |h.shell.value| && h.shell.value[before].status == Installed then
        var candidate := e.shell.value[current := e.shell.value[current].(status := Installed)];
        if !(rows[n - 2].IntentRow? && rows[n - 2].digest == OfShell(e.shell.value)) then Err("global_recovery_verify_intent_unbound")
        else if e.objects != h.objects.value then Err("global_recovery_verify_originals_changed")
        else if candidate != h.shell.value then Err("global_recovery_verify_publication_changed")
        else Ok(Some(candidate))
      else Ok(None)
  }

  // Nothing in a working copy but what the saved original holds.
  predicate ContainedIn(left: Tree, seed: Tree) {
    forall path :: path in left.contents ==> path in seed.contents && left.contents[path] == seed.contents[path]
  }

  // Every object is the plan's, every original has the identity and contents saved before anything was moved,
  // and every working copy is contained in its original.
  predicate BoundToSeeds(objects: seq<Saved>, o: Origin, seeds: seq<Tree>) {
    && |objects| == |seeds| == |o.objects|
    && forall i :: 0 <= i < |objects| ==>
         && objects[i].spec == o.objects[i] && SameObject(objects[i].rows, seeds[i])
         && (objects[i].working.Some? && objects[i].working.value.rows.Some? ==> ContainedIn(objects[i].working.value.rows.value, seeds[i]))
  }

  // Every generated file is the plan's, and every wrapper holds its reviewed text.
  predicate BoundShell(shell: seq<ShellRow>, o: Origin) {
    && |shell| == |o.leaves| + 1
    && forall j :: 0 <= j < |shell| ==>
         && shell[j].name == GeneratedName(o, j)
         && (j < |o.leaves| && shell[j].rows.Some? ==> shell[j].rows.value.contents == WrapperContents(o, j))
  }

  predicate KnownObjects(objects: seq<Saved>) {
    forall i :: 0 <= i < |objects| ==>
      && objects[i].state != UnknownOriginal
      && (objects[i].working.Some? ==>
            && objects[i].working.value.status in {Known, AfterKnown, Absent, Quarantined}
            && (objects[i].working.value.rows.None? <==> objects[i].working.value.status == Absent))
  }

  predicate KnownShell(shell: seq<ShellRow>) {
    forall j :: 0 <= j < |shell| ==>
      shell[j].status != UnknownGenerated && (shell[j].rows.None? <==> shell[j].status == NotInstalled)
  }

  function FoldRow(rows: seq<Row>, k: nat, evidence: map<nat, Evidence>, o: Origin, seeds: seq<Tree>, h: History): (r: Result<History>)
    requires k < |rows|
  {
    if !rows[k].ResultRow? then Ok(h)
    else if k + 1 !in evidence || rows[k].digest != OfEvidence(evidence[k + 1]) then Err("global_recovery_state_hash_changed")
    else
      var e := evidence[k + 1];
      if e.step != rows[k].step || e.operation != rows[k].operation then Err("global_recovery_state_binding_invalid")
      else
        var saved :- if k == |rows| - 1 && StatusOf(rows) == UnknownResult then Reclassified(rows, h, e) else Ok(None);
        var eligible := h.eligible || saved.Some?;
        var shell := if saved.Some? then saved else e.shell;
        if !BoundToSeeds(e.objects, o, seeds) then Err("global_recovery_original_identity_changed")
        else if eligible && !KnownObjects(e.objects) then Err("global_recovery_original_unknown")
        else if shell.Some? && !BoundShell(shell.value, o) then Err("global_recovery_shell_scope_invalid")
        else if eligible && shell.Some? && !KnownShell(shell.value) then Err("global_recovery_shell_unknown")
        else Ok(History(Some(e.objects), if shell.Some? then shell else h.shell, eligible))
  }

  function Fold(rows: seq<Row>, k: nat, evidence: map<nat, Evidence>, o: Origin, seeds: seq<Tree>, h: History): Result<History>
    requires k <= |rows|
    decreases |rows| - k
  {
    if k == |rows| then Ok(h)
    else
      var next :- FoldRow(rows, k, evidence, o, seeds, h);
      Fold(rows, k + 1, evidence, o, seeds, next)
  }

  function StartHistory(rows: seq<Row>): History {
    History(None, None, StatusOf(rows) in {Ready, Concluded})
  }

  /** The loop over journal results, reassigning the recovered objects and shell as it goes. */
  method ReadMigrationEvidence(rows: seq<Row>, evidence: map<nat, Evidence>, o: Origin, seeds: seq<Tree>) returns (outcome: Result<History>)
    ensures outcome == Fold(rows, 0, evidence, o, seeds, StartHistory(rows))
  {
    var original: Option<seq<Saved>> := None;
    var shell: Option<seq<ShellRow>> := None;
    var status := StatusOf(rows);
    var eligible := status in {Ready, Concluded};
    var k := 0;
    while k < |rows|
      invariant 0 <= k <= |rows|
      invariant Fold(rows, 0, evidence, o, seeds, StartHistory(rows)) == Fold(rows, k, evidence, o, seeds, History(original, shell, eligible))
    {
      if rows[k].ResultRow? {
        if k + 1 !in evidence || rows[k].digest != OfEvidence(evidence[k + 1]) {
          return Err("global_recovery_state_hash_changed");
        }
        var value := evidence[k + 1];
        if value.step != rows[k].step || value.operation != rows[k].operation {
          return Err("global_recovery_state_binding_invalid");
        }
        var current := value.shell;
        if k == |rows| - 1 && status == UnknownResult {
          var candidate := Reclassified(rows, History(original, shell, eligible), value);
          if candidate.Err? {
            return Err(candidate.error);
          }
          if candidate.value.Some? {
            current := candidate.value;
            eligible := true;
          }
        }
        if !BoundToSeeds(value.objects, o, seeds) {
          return Err("global_recovery_original_identity_changed");
        }
        if eligible && !KnownObjects(value.objects) {
          return Err("global_recovery_original_unknown");
        }
        if current.Some? && !BoundShell(current.value, o) {
          return Err("global_recovery_shell_scope_invalid");
        }
        if eligible && current.Some? && !KnownShell(current.value) {
          return Err("global_recovery_shell_unknown");
        }
        original := Some(value.objects);
        if current.Some? {
          shell := current;
        }
      }
      k := k + 1;
    }
    return Ok(History(original, shell, eligible));
  }

  // ---- The recovery model of a migration (recoveryModelFromMigration) ----

  function ProjectObject(row: Saved, run: string): ObjectRow {
    ObjectRow(row.spec.step, row.spec.role, row.state,
              Entry(if row.state == Preserved then BackupPlace(run, row.spec) else row.spec.live, row.rows),
              row.working,
              if row.working.None? || row.working.value.status == Absent || row.working.value.rows.None? then None
              else Some(Entry(if row.working.value.status == Quarantined then Place(run, "used-" + row.working.value.stagingName) else row.spec.live,
                              row.working.value.rows.value)))
  }

  function ProjectGenerated(row: ShellRow, o: Origin, run: string, j: nat): GeneratedRow {
    GeneratedRow(row.name, row.status,
                 if row.status == NotInstalled || row.rows.None? then None
                 else Some(Entry(if row.status == Retired then Place(run, "used-" + BackupName(row.name, j)) else GeneratedPlace(o, j), row.rows.value)))
  }

  function Project(saved: seq<Saved>, shell: seq<ShellRow>, o: Origin, run: string, source: string): Model {
    Model(source, true,
          seq(|saved|, i requires 0 <= i < |saved| => ProjectObject(saved[i], run)),
          seq(|shell|, j requires 0 <= j < |shell| => ProjectGenerated(shell[j], o, run, j)))
  }

  function EmptyShell(o: Origin): seq<ShellRow> {
    seq(|o.leaves| + 1, (j: nat) => ShellRow(GeneratedName(o, j), NotInstalled, None))
  }

  predicate Conflicting(row: Saved) {
    row.state != Preserved && row.working.Some? && row.working.value.status !in {Absent, Quarantined}
  }

  function ModelFromMigration(h: History, o: Origin, run: string, source: string): Result<Model> {
    if h.objects.None? || !h.eligible then Err("global_recovery_source_journal_unconfirmed")
    else
      var objects := h.objects.value;
      if exists i :: 0 <= i < |objects| && (objects[i].state == UnknownOriginal
           || (objects[i].working.Some? && objects[i].working.value.status in {UnknownWorking, Released})) then
        Err("global_recovery_model_unknown")
      else if exists i :: 0 <= i < |objects| && Conflicting(objects[i]) then
        Err("global_recovery_model_conflicting_working")
      else
        Ok(Project(objects, if h.shell.Some? then h.shell.value else EmptyShell(o), o, run, source))
  }
}
