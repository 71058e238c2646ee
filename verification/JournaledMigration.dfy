// A forward migration through the hash-chained journal (managedGlobalPreservation.ts, managedGlobalShell.ts,
// managedGlobalJournal.ts): no step is announced twice, the writer takes every row, and the bytes read back
// say how the run ended.
module JournaledMigration {
  import opened Wrappers
  import opened GuardedFiles
  import opened RecoveryModel
  import opened GlobalMigration
  import M = MutationJournal
  import JournalLaws
  import JournaledRecovery

  // `hash` stands for SHA-256 of the JSON of what a digest is taken of, `last` for that of the checkpoint.
  function EventOf(row: Row, hash: StateDigest -> string, last: string): M.Event {
    match row
    case IntentRow(step, operation, digest) => M.IntentEvent(step, JournaledRecovery.OperationName(operation), hash(digest))
    case ResultRow(step, operation, confirmed, digest) =>
      M.ResultEvent(step, JournaledRecovery.OperationName(operation), confirmed, Some(hash(digest)))
    case CompleteRow => M.CompleteEvent(last)
  }

  function EventsOf(rows: seq<Row>, hash: StateDigest -> string, last: string): (events: seq<M.Event>)
    ensures |events| == |rows|
  {
    seq(|rows|, i requires 0 <= i < |rows| => EventOf(rows[i], hash, last))
  }

  function StatusName(status: Status): M.Status {
    match status
    case Advancing => M.Ready
    case Halted => M.Ready
    case Cut => M.Pending
    case Doubtful => M.Unknown
    case Unverified => M.Unknown
    case Done => M.Completed
  }

  ghost predicate Hashes(c: M.Codec, hash: StateDigest -> string, last: string) {
    c.isDigest(last) && forall x :: c.isDigest(hash(x))
  }

  lemma EventsExtend(rows: seq<Row>, row: Row, hash: StateDigest -> string, last: string)
    ensures EventsOf(rows + [row], hash, last) == EventsOf(rows, hash, last) + [EventOf(row, hash, last)]
  {
  }

  ghost predicate Unannounced(rows: seq<Row>, step: string) {
    forall i :: 0 <= i < |rows| && rows[i].IntentRow? ==> rows[i].step != step
  }

  lemma NotAnnounced(rows: seq<Row>, hash: StateDigest -> string, last: string, step: string)
    requires Unannounced(rows, step)
    ensures !JournalLaws.Announced(EventsOf(rows, hash, last), step)
  {
    assert forall i :: 0 <= i < |rows| ==> EventsOf(rows, hash, last)[i] == EventOf(rows[i], hash, last);
  }

  ghost predicate LegalAs(c: M.Codec, rows: seq<Row>, hash: StateDigest -> string, last: string, status: M.Status) {
    JournalLaws.Legal(c, EventsOf(rows, hash, last)) && JournalLaws.StatusOf(EventsOf(rows, hash, last)) == status
  }

  lemma OperationIsLegal(c: M.Codec, rows: seq<Row>, hash: StateDigest -> string, last: string,
                         step: string, op: Operation, digest: StateDigest, confirmed: bool, e: Evidence)
    requires LegalAs(c, rows, hash, last, M.Ready) && Hashes(c, hash, last) && M.ValidStep(step) && Unannounced(rows, step)
    ensures LegalAs(c, rows + [IntentRow(step, op, digest)], hash, last, M.Pending)
    ensures LegalAs(c, rows + [IntentRow(step, op, digest)] + [ResultRow(step, op, confirmed, OfEvidence(e))], hash, last,
                    if confirmed then M.Ready else M.Unknown)
  {
    hide M.ValidStep, JournalLaws.Legal, JournalLaws.StatusOf, JournalLaws.Announced, EventsOf;
    var intent, result := IntentRow(step, op, digest), ResultRow(step, op, confirmed, OfEvidence(e));
    EventsExtend(rows, intent, hash, last);
    EventsExtend(rows + [intent], result, hash, last);
    NotAnnounced(rows, hash, last, step);
    JournalLaws.OperationIsLegal(c, EventsOf(rows, hash, last), EventOf(intent, hash, last), EventOf(result, hash, last));
  }

  lemma CheckpointIsLegal(c: M.Codec, rows: seq<Row>, hash: StateDigest -> string, last: string)
    requires LegalAs(c, rows, hash, last, M.Ready) && Hashes(c, hash, last)
    ensures LegalAs(c, rows + [CompleteRow], hash, last, M.Completed)
  {
    hide JournalLaws.Legal, EventsOf;
    EventsExtend(rows, CompleteRow, hash, last);
    JournalLaws.CompleteIsLegal(c, EventsOf(rows, hash, last), EventOf(CompleteRow, hash, last));
  }

  // ---- Steps ----

  function RetainName(row: Saved): string {
    "retain." + row.spec.step
  }

  function CopyName(row: Saved): string {
    "copy." + row.spec.step
  }

  function PublishName(row: ShellRow): string {
    "publish.generated." + row.name
  }

  const UNINSTALL := "npm-uninstall"

  predicate Uninstalled(row: Saved) {
    row.working.Some? && row.working.value.status in {AfterKnown, Absent}
  }

  // What a state says about a step that was announced: it was taken.
  ghost predicate Taken(g: Migration, step: string) {
    || (exists i :: 0 <= i < |g.saved| && step == RetainName(g.saved[i]) && !IsUntouched(g.saved[i]))
    || (exists i :: 0 <= i < |g.saved| && step == CopyName(g.saved[i]) && !LacksCopy(g.saved[i]))
    || (step == UNINSTALL && exists i :: 0 <= i < |g.saved| && Uninstalled(g.saved[i]))
    || (exists j :: 0 <= j < |g.shell| && step == PublishName(g.shell[j]) && !IsUnpublished(g.shell[j]))
  }

  ghost predicate AllTaken(g: Migration) {
    forall i :: 0 <= i < |g.journal| && g.journal[i].IntentRow? ==> Taken(g, g.journal[i].step)
  }

  // Distinct names, each giving steps the journal admits.
  ghost predicate Named(g: Migration) {
    && g.saved != []
    && (forall i, k :: 0 <= i < k < |g.saved| ==> g.saved[i].spec.step != g.saved[k].spec.step)
    && (forall j, k :: 0 <= j < k < |g.shell| ==> g.shell[j].name != g.shell[k].name)
    && (forall i :: 0 <= i < |g.saved| ==> M.ValidStep(RetainName(g.saved[i])) && M.ValidStep(CopyName(g.saved[i])))
    && (forall j :: 0 <= j < |g.shell| ==> M.ValidStep(PublishName(g.shell[j])) && M.ValidStep("verify." + PublishName(g.shell[j])))
  }

  // The first letter tells the kinds of steps apart.
  lemma FirstLetters(g: Migration)
    ensures forall i :: 0 <= i < |g.saved| ==> RetainName(g.saved[i])[0] == 'r' && CopyName(g.saved[i])[0] == 'c'
    ensures forall j :: 0 <= j < |g.shell| ==> PublishName(g.shell[j])[0] == 'p'
    ensures UNINSTALL[0] == 'n'
  {
  }

  lemma SavedNamesDiffer(g: Migration, i: nat, k: nat)
    requires Named(g) && i < |g.saved| && k < |g.saved| && i != k
    ensures RetainName(g.saved[i]) != RetainName(g.saved[k]) && CopyName(g.saved[i]) != CopyName(g.saved[k])
  {
    hide M.ValidStep;
    PrefixDiffers("retain.", g.saved[i].spec.step, g.saved[k].spec.step);
    PrefixDiffers("copy.", g.saved[i].spec.step, g.saved[k].spec.step);
  }

  lemma ShellNamesDiffer(g: Migration, j: nat, k: nat)
    requires Named(g) && j < |g.shell| && k < |g.shell| && j != k
    ensures PublishName(g.shell[j]) != PublishName(g.shell[k])
  {
    hide M.ValidStep;
    PrefixDiffers("publish.generated.", g.shell[j].name, g.shell[k].name);
  }

  // The step of the next operation was not taken.
  lemma RetainIsNew(g: Migration, i: nat)
    requires Named(g) && i < |g.saved| && IsUntouched(g.saved[i])
    ensures !Taken(g, RetainName(g.saved[i]))
  {
    hide Named, RetainName, CopyName, PublishName;
    FirstLetters(g);
    forall k | 0 <= k < |g.saved| && k != i ensures RetainName(g.saved[i]) != RetainName(g.saved[k]) {
      SavedNamesDiffer(g, i, k);
    }
  }

  lemma CopyIsNew(g: Migration, i: nat)
    requires Named(g) && i < |g.saved| && LacksCopy(g.saved[i])
    ensures !Taken(g, CopyName(g.saved[i]))
  {
    hide Named, RetainName, CopyName, PublishName;
    FirstLetters(g);
    forall k | 0 <= k < |g.saved| && k != i ensures CopyName(g.saved[i]) != CopyName(g.saved[k]) {
      SavedNamesDiffer(g, i, k);
    }
  }

  lemma UninstallIsNew(g: Migration)
    requires AllKnown(g.saved)
    ensures !Taken(g, UNINSTALL)
  {
    hide RetainName, CopyName, PublishName;
    FirstLetters(g);
  }

  lemma PublishIsNew(g: Migration, j: nat)
    requires Named(g) && j < |g.shell| && IsUnpublished(g.shell[j])
    ensures !Taken(g, PublishName(g.shell[j]))
  {
    hide Named, RetainName, CopyName, PublishName;
    FirstLetters(g);
    forall k | 0 <= k < |g.shell| && k != j ensures PublishName(g.shell[j]) != PublishName(g.shell[k]) {
      ShellNamesDiffer(g, j, k);
    }
  }

  lemma VerifyIsNew(g: Migration, step: string)
    ensures !Taken(g, "verify." + step)
  {
    hide RetainName, CopyName, PublishName;
    FirstLetters(g);
    assert ("verify." + step)[0] == 'v';
  }

  lemma NewIsUnannounced(g: Migration, step: string)
    requires AllTaken(g) && !Taken(g, step)
    ensures Unannounced(g.journal, step)
  {
    hide Taken;
  }

  lemma UninstallIsStep()
    ensures M.ValidStep(UNINSTALL)
  {
    assert UNINSTALL == ['n', 'p', 'm', '-', 'u', 'n', 'i', 'n', 's', 't', 'a', 'l', 'l'];
  }

  // ---- What is still to be done ----

  function Remaining(g: Migration): nat {
    Count(g.saved, IsUntouched) + Count(g.saved, LacksCopy)
    + (if exists i :: 0 <= i < |g.saved| && Uninstalled(g.saved[i]) then 0 else 1) + Count(g.shell, IsUnpublished)
  }

  // Names are kept and nothing that was done is undone.
  ghost predicate Grows(g: Migration, next: Migration) {
    && |next.saved| == |g.saved| && |next.shell| == |g.shell|
    && (forall i :: 0 <= i < |g.saved| ==>
          && next.saved[i].spec == g.saved[i].spec
          && (IsUntouched(next.saved[i]) ==> IsUntouched(g.saved[i])) && (LacksCopy(next.saved[i]) ==> LacksCopy(g.saved[i]))
          && (Uninstalled(g.saved[i]) ==> Uninstalled(next.saved[i])))
    && (forall j :: 0 <= j < |g.shell| ==>
          next.shell[j].name == g.shell[j].name && (IsUnpublished(next.shell[j]) ==> IsUnpublished(g.shell[j])))
  }

  lemma GrowsNamed(g: Migration, next: Migration)
    requires Grows(g, next) && Named(g)
    ensures Named(next)
  {
    hide M.ValidStep;
    forall i | 0 <= i < |next.saved|
      ensures RetainName(next.saved[i]) == RetainName(g.saved[i]) && CopyName(next.saved[i]) == CopyName(g.saved[i])
    {
    }
    forall j | 0 <= j < |next.shell| ensures PublishName(next.shell[j]) == PublishName(g.shell[j]) {}
  }

  lemma GrowsTaken(g: Migration, next: Migration, step: string)
    requires Grows(g, next) && Taken(g, step)
    ensures Taken(next, step)
  {
    if i :| 0 <= i < |g.saved| && step == RetainName(g.saved[i]) && !IsUntouched(g.saved[i]) {
      assert step == RetainName(next.saved[i]) && !IsUntouched(next.saved[i]);
    } else if i :| 0 <= i < |g.saved| && step == CopyName(g.saved[i]) && !LacksCopy(g.saved[i]) {
      assert step == CopyName(next.saved[i]) && !LacksCopy(next.saved[i]);
    } else if j :| 0 <= j < |g.shell| && step == PublishName(g.shell[j]) && !IsUnpublished(g.shell[j]) {
      assert step == PublishName(next.shell[j]) && !IsUnpublished(next.shell[j]);
    } else {
      var i :| 0 <= i < |g.saved| && Uninstalled(g.saved[i]);
      assert Uninstalled(next.saved[i]);
    }
  }

  // One confirmed operation.
  ghost predicate Advances(g: Migration, next: Migration, step: string) {
    && Grows(g, next) && Taken(next, step)
    && |next.journal| == |g.journal| + 2 && next.journal[..|g.journal|] == g.journal
    && next.journal[|g.journal|].IntentRow? && next.journal[|g.journal|].step == step && next.journal[|g.journal| + 1].ResultRow?
  }

  lemma AdvancesTaken(g: Migration, next: Migration, step: string)
    requires Advances(g, next, step) && AllTaken(g)
    ensures AllTaken(next)
  {
    hide Taken, Grows;
    forall i | 0 <= i < |next.journal| && next.journal[i].IntentRow?
      ensures Taken(next, next.journal[i].step)
    {
      if i < |g.journal| {
        assert next.journal[..|g.journal|][i] == g.journal[i];
        GrowsTaken(g, next, g.journal[i].step);
      }
    }
  }

  lemma RetainAdvances(g: Migration, run: string, i: nat, e: Event)
    requires g.status == Advancing && i < |g.saved| && IsUntouched(g.saved[i])
    ensures var next := RetainStep(g, run, i, e);
      next.status == Advancing ==> Advances(g, next, RetainName(g.saved[i])) && Remaining(next) <= Remaining(g) - 1
  {
    var next := RetainStep(g, run, i, e);
    if next.status == Advancing {
      CountUpdate(g.saved, IsUntouched, i, next.saved[i]);
      CountUpdate(g.saved, LacksCopy, i, next.saved[i]);
      assert RetainName(g.saved[i]) == RetainName(next.saved[i]) && !IsUntouched(next.saved[i]);
      assert forall k :: 0 <= k < |g.saved| && Uninstalled(g.saved[k]) ==> Uninstalled(next.saved[k]);
    }
  }

  lemma CopyAdvances(g: Migration, run: string, runId: string, i: nat, e: Event)
    requires g.status == Advancing && i < |g.saved| && LacksCopy(g.saved[i])
    ensures var next := CopyStep(g, run, runId, i, e);
      next.status == Advancing ==> Advances(g, next, CopyName(g.saved[i])) && Remaining(next) <= Remaining(g) - 1
  {
    hide StagingName;
    var next := CopyStep(g, run, runId, i, e);
    if next.status == Advancing {
      CountUpdate(g.saved, IsUntouched, i, next.saved[i]);
      CountUpdate(g.saved, LacksCopy, i, next.saved[i]);
      assert CopyName(g.saved[i]) == CopyName(next.saved[i]) && !LacksCopy(next.saved[i]);
      assert forall k :: 0 <= k < |g.saved| && Uninstalled(g.saved[k]) ==> Uninstalled(next.saved[k]);
    }
  }

  lemma UninstallAdvances(g: Migration, o: Origin, e: Event)
    requires g.status == Advancing && g.saved != [] && AllKnown(g.saved)
    requires forall i :: 0 <= i < |g.saved| ==> !IsUntouched(g.saved[i])
    ensures var next := NpmStep(g, o, e);
      next.status == Advancing ==> Advances(g, next, UNINSTALL) && Remaining(next) <= Remaining(g) - 1
  {
    hide AfterUninstall;
    var next := NpmStep(g, o, e);
    if next.status == Advancing {
      CountZero(next.saved, IsUntouched);
      CountZero(next.saved, LacksCopy);
      assert Uninstalled(next.saved[0]);
      assert forall i :: 0 <= i < |g.saved| ==> HasKnownCopy(g.saved[i]) && !Uninstalled(g.saved[i]);
    }
  }

  lemma PublishAdvances(g: Migration, o: Origin, run: string, j: nat, e: Event)
    requires g.status == Advancing && j < |g.shell| && IsUnpublished(g.shell[j])
    ensures var next := PublishStep(g, o, run, j, e);
      next.status == Advancing ==> Advances(g, next, PublishName(g.shell[j])) && Remaining(next) <= Remaining(g) - 1
  {
    hide BackupName, GeneratedPlace, PublishedTree;
    var next := PublishStep(g, o, run, j, e);
    if next.status == Advancing {
      CountUpdate(g.shell, IsUnpublished, j, next.shell[j]);
      assert PublishName(g.shell[j]) == PublishName(next.shell[j]) && !IsUnpublished(next.shell[j]);
    }
  }

  // ---- One step is legal ----

  ghost predicate LegalStep(c: M.Codec, g: Migration, next: Migration, hash: StateDigest -> string, last: string) {
    LegalAs(c, next.journal, hash, last, StatusName(next.status)) && |next.journal| <= |g.journal| + 4
  }

  lemma RetainIsLegal(c: M.Codec, hash: StateDigest -> string, last: string, g: Migration, run: string, i: nat, e: Event)
    requires LegalAs(c, g.journal, hash, last, M.Ready) && Hashes(c, hash, last) && g.status == Advancing
    requires i < |g.saved| && M.ValidStep(RetainName(g.saved[i])) && Unannounced(g.journal, RetainName(g.saved[i]))
    ensures LegalStep(c, g, RetainStep(g, run, i, e), hash, last)
  {
    hide LegalAs, M.ValidStep, Hashes, Unannounced, MaybeMoved, BackupPlace;
    var next := RetainStep(g, run, i, e);
    var step := RetainName(g.saved[i]);
    OperationIsLegal(c, g.journal, hash, last, step, RetainOp, OfObjects(g.saved), next.status == Advancing,
                     ObjectEvidence(step, RetainOp, next.saved));
  }

  lemma CopyIsLegal(c: M.Codec, hash: StateDigest -> string, last: string, g: Migration, run: string, runId: string, i: nat, e: Event)
    requires LegalAs(c, g.journal, hash, last, M.Ready) && Hashes(c, hash, last) && g.status == Advancing
    requires i < |g.saved| && M.ValidStep(CopyName(g.saved[i])) && Unannounced(g.journal, CopyName(g.saved[i]))
    ensures LegalStep(c, g, CopyStep(g, run, runId, i, e), hash, last)
  {
    hide LegalAs, M.ValidStep, Hashes, Unannounced, BrokenFiles, StagingName;
    var next := CopyStep(g, run, runId, i, e);
    var step := CopyName(g.saved[i]);
    OperationIsLegal(c, g.journal, hash, last, step, WorkingCopyOp, OfObjects(g.saved), next.status == Advancing,
                     ObjectEvidence(step, WorkingCopyOp, next.saved));
  }

  lemma UninstallIsLegal(c: M.Codec, hash: StateDigest -> string, last: string, g: Migration, o: Origin, e: Event)
    requires LegalAs(c, g.journal, hash, last, M.Ready) && Hashes(c, hash, last) && g.status == Advancing
    requires Unannounced(g.journal, UNINSTALL)
    ensures LegalStep(c, g, NpmStep(g, o, e), hash, last)
  {
    hide LegalAs, M.ValidStep, Hashes, Unannounced, BrokenFiles, AfterUninstall, AllObserved, AllExplained, Forgotten, Removed, LivePlaces, PartlyObserved, PartlyReleased;
    UninstallIsStep();
    var next := NpmStep(g, o, e);
    OperationIsLegal(c, g.journal, hash, last, UNINSTALL, UninstallOp, OfObjects(g.saved), next.status in {Advancing, Halted},
                     ObjectEvidence(UNINSTALL, UninstallOp, next.saved));
  }

  lemma PublishIsLegal(c: M.Codec, hash: StateDigest -> string, last: string, g: Migration, o: Origin, run: string, j: nat, e: Event)
    requires LegalAs(c, g.journal, hash, last, M.Ready) && Hashes(c, hash, last) && g.status == Advancing
    requires j < |g.shell| && M.ValidStep(PublishName(g.shell[j])) && M.ValidStep("verify." + PublishName(g.shell[j]))
    requires Unannounced(g.journal, PublishName(g.shell[j])) && Unannounced(g.journal, "verify." + PublishName(g.shell[j]))
    ensures LegalStep(c, g, PublishStep(g, o, run, j, e), hash, last)
  {
    hide LegalAs, M.ValidStep, Hashes, Unannounced, BrokenFiles, BackupName, GeneratedPlace, PublishedTree, PublishName;
    var next := PublishStep(g, o, run, j, e);
    var row := g.shell[j];
    var step := PublishName(row);
    var operation := if row.name == "shell" then ManifestOp else WrapperOp;
    assert step == "publish.generated." + row.name by {
      PublishNameIs(row);
    }
    if next.status == Unverified {
      var shell := g.shell[j := row.(status := Installed, rows := Some(PublishedTree(o, j, e)))];
      var doubted := shell[j := shell[j].(status := UnknownGenerated)];
      var published := Evidence(step, operation, g.saved, Some(shell), false);
      OperationIsLegal(c, g.journal, hash, last, step, operation, OfShell(g.shell), true, published);
      var rows := g.journal + [IntentRow(step, operation, OfShell(g.shell))] + [ResultRow(step, operation, true, OfEvidence(published))];
      VerifyUnannounced(g.journal, rows, step);
      OperationIsLegal(c, rows, hash, last, "verify." + step, operation, OfShell(doubted), false,
                       Evidence("verify." + step, operation, g.saved, Some(doubted), true));
    } else {
      OperationIsLegal(c, g.journal, hash, last, step, operation, OfShell(g.shell), next.status == Advancing,
                       Evidence(step, operation, g.saved, Some(next.shell), false));
    }
  }

  lemma PublishNameIs(row: ShellRow)
    ensures PublishName(row) == "publish.generated." + row.name
  {
  }

  lemma VerifyUnannounced(rows: seq<Row>, more: seq<Row>, step: string)
    requires Unannounced(rows, "verify." + step)
    requires |more| == |rows| + 2 && more[..|rows|] == rows && more[|rows|].IntentRow? && more[|rows|].step == step && more[|rows| + 1].ResultRow?
    ensures Unannounced(more, "verify." + step)
  {
    assert |"verify." + step| == |step| + 7;
    assert forall i :: 0 <= i < |rows| ==> more[i] == rows[i];
  }

  // ---- The whole run ----

  lemma StepIsLegal(c: M.Codec, hash: StateDigest -> string, last: string, g: Migration, o: Origin, run: string, runId: string, e: Event)
    requires LegalAs(c, g.journal, hash, last, M.Ready) && Hashes(c, hash, last) && g.status == Advancing
    requires Named(g) && AllTaken(g)
    ensures LegalStep(c, g, Step(g, o, run, runId, e), hash, last)
  {
    hide LegalAs, Hashes, Unannounced, AllTaken, Taken, RetainStep, CopyStep, NpmStep, PublishStep, RetainName, CopyName, PublishName, M.ValidStep;
    match NextOperation(g)
    case Retain(i) =>
      RetainIsNew(g, i);
      NewIsUnannounced(g, RetainName(g.saved[i]));
      RetainIsLegal(c, hash, last, g, run, i, e);
    case MakeCopy(i) =>
      CopyIsNew(g, i);
      NewIsUnannounced(g, CopyName(g.saved[i]));
      CopyIsLegal(c, hash, last, g, run, runId, i, e);
    case Uninstall =>
      UninstallIsNew(g);
      NewIsUnannounced(g, UNINSTALL);
      UninstallIsLegal(c, hash, last, g, o, e);
    case Publish(j) =>
      PublishIsNew(g, j);
      NewIsUnannounced(g, PublishName(g.shell[j]));
      VerifyIsNew(g, PublishName(g.shell[j]));
      NewIsUnannounced(g, "verify." + PublishName(g.shell[j]));
      PublishIsLegal(c, hash, last, g, o, run, j, e);
    case Conclude =>
      CheckpointIsLegal(c, g.journal, hash, last);
  }

  lemma StepAdvances(g: Migration, o: Origin, run: string, runId: string, e: Event)
    requires Named(g) && AllTaken(g) && g.status == Advancing && Step(g, o, run, runId, e).status == Advancing
    ensures var next := Step(g, o, run, runId, e);
      Named(next) && AllTaken(next) && Remaining(next) <= Remaining(g) - 1 && |next.journal| == |g.journal| + 2
  {
    hide AllTaken, Taken, RetainStep, CopyStep, NpmStep, PublishStep, RetainName, CopyName, PublishName, M.ValidStep, Remaining;
    var next := Step(g, o, run, runId, e);
    match NextOperation(g) {
      case Retain(i) =>
        RetainAdvances(g, run, i, e);
        AdvancesTaken(g, next, RetainName(g.saved[i]));
      case MakeCopy(i) =>
        CopyAdvances(g, run, runId, i, e);
        AdvancesTaken(g, next, CopyName(g.saved[i]));
      case Uninstall =>
        UninstallAdvances(g, o, e);
        AdvancesTaken(g, next, UNINSTALL);
      case Publish(j) =>
        PublishAdvances(g, o, run, j, e);
        AdvancesTaken(g, next, PublishName(g.shell[j]));
      case Conclude =>
    }
    GrowsNamed(g, next);
  }

  lemma {:induction false} RunIsLegal(c: M.Codec, hash: StateDigest -> string, last: string, g: Migration, o: Origin, run: string, runId: string, script: seq<Event>)
    requires LegalAs(c, g.journal, hash, last, M.Ready) && Hashes(c, hash, last) && g.status == Advancing
    requires Named(g) && AllTaken(g)
    ensures var final := Drive(g, o, run, runId, script);
      LegalAs(c, final.journal, hash, last, StatusName(final.status)) && |final.journal| <= |g.journal| + 2 * Remaining(g) + 4
    decreases |script|
  {
    hide LegalAs, Hashes, Named, AllTaken, Step, Remaining;
    if script != [] {
      var next := Step(g, o, run, runId, script[0]);
      StepIsLegal(c, hash, last, g, o, run, runId, script[0]);
      if next.status == Advancing {
        StepAdvances(g, o, run, runId, script[0]);
        RunIsLegal(c, hash, last, next, o, run, runId, script[1..]);
      } else {
        assert Drive(next, o, run, runId, script[1..]) == next;
      }
    }
  }

  /** A forward migration never stops because of its journal, nor announces a step twice: the writer accepts
      every row, and the bytes parse to exactly those rows with the status that says how the run ended. */
  lemma MigrationIsJournaled(c: M.Codec, header: M.Header, plan: string, hash: StateDigest -> string, last: string,
                             g: Migration, o: Origin, run: string, runId: string, script: seq<Event>)
    requires JournalLaws.Compact(c) && M.ValidHeader(c, header, plan) && Hashes(c, hash, last)
    requires g.status == Advancing && g.journal == [] && Named(g) && 2 * Remaining(g) + 5 <= M.LINE_BOUND
    ensures var final := Drive(g, o, run, runId, script);
      var events := EventsOf(final.journal, hash, last);
      var (bytes, accepted) := M.WriteAll(c, M.HeaderBytes(c, header), plan, events);
      && accepted == events
      && M.Parse(c, bytes, plan).Ok?
      && M.EventsOf(M.Parse(c, bytes, plan).value.records) == events
      && M.Parse(c, bytes, plan).value.status == StatusName(final.status)
  {
    hide Drive, JournalLaws.Compact, M.ValidHeader, M.WriteAll, M.Parse, Hashes, Named, Remaining, M.HeaderBytes;
    RunIsLegal(c, hash, last, g, o, run, runId, script);
    JournalLaws.WriterAcceptsLegal(c, header, plan, EventsOf(Drive(g, o, run, runId, script).journal, hash, last));
  }
}
