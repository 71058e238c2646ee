// What the two loaders accept, said of the stored evidence: the fold over a migration's evidence, and the chain
// of recovery attempts.
module RecoveryEvidence {
  import opened Wrappers
  import opened GuardedFiles
  import opened RecoveryModel
  import opened GlobalMigration
  import RecoveryChain
  import RecoveryValidation

  // ---- Migrations ----

  // The evidence of a result row: its own digest, its step and operation, the plan's objects with the originals
  // that were saved, and generated files with their reviewed text.
  ghost predicate RowBound(row: Row, sequence: nat, evidence: map<nat, Evidence>, o: Origin, seeds: seq<Tree>) {
    row.ResultRow? ==>
      && sequence in evidence && row.digest == OfEvidence(evidence[sequence])
      && evidence[sequence].step == row.step && evidence[sequence].operation == row.operation
      && BoundToSeeds(evidence[sequence].objects, o, seeds)
      && (evidence[sequence].shell.Some? ==> BoundShell(evidence[sequence].shell.value, o))
  }

  // The last two operations are a confirmed publication and its failed verification, and the evidence of the second
  // is the state after the first with the one published file marked unknown.
  ghost predicate TakenBack(rows: seq<Row>, evidence: map<nat, Evidence>) {
    var n := |rows|;
    && n >= 3 && rows[n - 3].ResultRow? && rows[n - 3].confirmed && rows[n - 2].IntentRow? && rows[n - 1].ResultRow?
    && rows[n - 1].step == "verify." + rows[n - 3].step && rows[n - 1].operation == rows[n - 3].operation
    && n in evidence && evidence[n].verificationFailed && evidence[n].shell.Some?
    && rows[n - 2].digest == OfShell(evidence[n].shell.value)
  }

  // What the history is taken from: the newest result, and the newest that has generated files.
  ghost predicate IsLastResult(rows: seq<Row>, k: nat, n: nat) {
    k < n <= |rows| && rows[k].ResultRow? && forall i :: k < i < n ==> !rows[i].ResultRow?
  }

  ghost predicate Accepted(rows: seq<Row>, n: nat, evidence: map<nat, Evidence>, o: Origin, seeds: seq<Tree>, h: History)
    requires n <= |rows|
  {
    && (forall k :: 0 <= k < n ==> RowBound(rows[k], k + 1, evidence, o, seeds))
    && (h.objects.None? <==> forall k :: 0 <= k < n ==> !rows[k].ResultRow?)
    && (forall k: nat :: IsLastResult(rows, k, n) ==> k + 1 in evidence && h.objects == Some(evidence[k + 1].objects))
    && (h.objects.Some? ==> BoundToSeeds(h.objects.value, o, seeds))
    && (h.shell.Some? ==> h.objects.Some? && BoundShell(h.shell.value, o))
    && (h.eligible ==> (h.objects.Some? ==> KnownObjects(h.objects.value)) && (h.shell.Some? ==> KnownShell(h.shell.value)))
    && (h.eligible ==> StatusOf(rows) in {Ready, Concluded} || (n == |rows| && StatusOf(rows) == UnknownResult && TakenBack(rows, evidence)))
  }

  lemma ReclassifiedIs(rows: seq<Row>, h: History, evidence: map<nat, Evidence>, o: Origin)
    requires |rows| >= 1 && rows[|rows| - 1].ResultRow? && |rows| in evidence
    requires var r := Reclassified(rows, h, evidence[|rows|]); r.Ok? && r.value.Some?
    ensures TakenBack(rows, evidence)
    ensures var shell := Reclassified(rows, h, evidence[|rows|]).value.value;
      BoundShell(shell, o) <==> BoundShell(evidence[|rows|].shell.value, o)
  {
    hide NamedIndex;
    var e, shell := evidence[|rows|], Reclassified(rows, h, evidence[|rows|]).value.value;
    assert |shell| == |e.shell.value| && forall j :: 0 <= j < |shell| ==> shell[j].name == e.shell.value[j].name && shell[j].rows == e.shell.value[j].rows;
  }

  // What one accepted row adds.
  lemma RowAdds(rows: seq<Row>, k: nat, evidence: map<nat, Evidence>, o: Origin, seeds: seq<Tree>, h: History)
    requires k < |rows| && rows[k].ResultRow? && FoldRow(rows, k, evidence, o, seeds, h).Ok?
    ensures var next := FoldRow(rows, k, evidence, o, seeds, h).value;
      && RowBound(rows[k], k + 1, evidence, o, seeds)
      && next.objects == Some(evidence[k + 1].objects)
      && (next.shell == h.shell || (next.shell.Some? && BoundShell(next.shell.value, o) && (next.eligible ==> KnownShell(next.shell.value))))
      && (next.eligible ==> KnownObjects(evidence[k + 1].objects))
      && (next.eligible ==> h.eligible || (k == |rows| - 1 && StatusOf(rows) == UnknownResult && TakenBack(rows, evidence) && next.shell.Some? && KnownShell(next.shell.value)))
  {
    hide Reclassified, BoundShell, BoundToSeeds, KnownObjects, KnownShell, TakenBack;
    if k == |rows| - 1 && StatusOf(rows) == UnknownResult && k + 1 in evidence {
      var saved := Reclassified(rows, h, evidence[k + 1]);
      if saved.Ok? && saved.value.Some? {
        ReclassifiedIs(rows, h, evidence, o);
        ReclassifiedHasShell(rows, h, evidence[k + 1]);
      }
    }
  }

  lemma ReclassifiedHasShell(rows: seq<Row>, h: History, e: Evidence)
    requires |rows| >= 1 && rows[|rows| - 1].ResultRow?
    requires Reclassified(rows, h, e).Ok? && Reclassified(rows, h, e).value.Some?
    ensures e.shell.Some?
  {
    hide NamedIndex;
  }

  lemma AcceptedStep(rows: seq<Row>, k: nat, evidence: map<nat, Evidence>, o: Origin, seeds: seq<Tree>, h: History)
    requires k < |rows| && Accepted(rows, k, evidence, o, seeds, h) && FoldRow(rows, k, evidence, o, seeds, h).Ok?
    ensures Accepted(rows, k + 1, evidence, o, seeds, FoldRow(rows, k, evidence, o, seeds, h).value)
  {
    hide BoundShell, BoundToSeeds, KnownObjects, KnownShell, TakenBack, FoldRow;
    if rows[k].ResultRow? {
      RowAdds(rows, k, evidence, o, seeds, h);
    } else {
      SkippedRow(rows, k, evidence, o, seeds, h);
      var n := k + 1;
      forall i: nat | IsLastResult(rows, i, n) ensures i + 1 in evidence && h.objects == Some(evidence[i + 1].objects) {
        assert IsLastResult(rows, i, k);
      }
    }
  }

  lemma SkippedRow(rows: seq<Row>, k: nat, evidence: map<nat, Evidence>, o: Origin, seeds: seq<Tree>, h: History)
    requires k < |rows| && !rows[k].ResultRow?
    ensures FoldRow(rows, k, evidence, o, seeds, h) == Ok(h)
  {
  }

  lemma {:induction false} FoldAccepts(rows: seq<Row>, k: nat, evidence: map<nat, Evidence>, o: Origin, seeds: seq<Tree>, h: History)
    requires k <= |rows| && Accepted(rows, k, evidence, o, seeds, h) && Fold(rows, k, evidence, o, seeds, h).Ok?
    ensures Accepted(rows, |rows|, evidence, o, seeds, Fold(rows, k, evidence, o, seeds, h).value)
    decreases |rows| - k
  {
    hide Accepted, FoldRow;
    if k < |rows| {
      AcceptedStep(rows, k, evidence, o, seeds, h);
      FoldAccepts(rows, k + 1, evidence, o, seeds, FoldRow(rows, k, evidence, o, seeds, h).value);
    }
  }

  /** Whatever was stored: evidence that is accepted is bound row by row to its digest, its step and operation, the
      saved originals and the reviewed text; the history is that of the last result; and a recovery is only allowed
      on known objects, after a last result that was confirmed or a failed verification of a confirmed publication. */
  lemma AcceptedEvidence(rows: seq<Row>, evidence: map<nat, Evidence>, o: Origin, seeds: seq<Tree>)
    requires Fold(rows, 0, evidence, o, seeds, StartHistory(rows)).Ok?
    ensures Accepted(rows, |rows|, evidence, o, seeds, Fold(rows, 0, evidence, o, seeds, StartHistory(rows)).value)
  {
    hide Fold;
    FoldAccepts(rows, 0, evidence, o, seeds, StartHistory(rows));
  }

  // ---- Attempts ----

  // An attempt that is what its name, its admission and its records say: of the same chain as its source, with
  // every result confirmed and bound to its record, nothing pending, and rows that lead from the source's model,
  // each result moving the object whose turn it was.
  ghost predicate Vouched(own: RecoveryChain.StoredRun, hash: RecoveryChain.Hash, o: Origin, run: string, source: RecoveryChain.Chain, m: Model)
    requires own.StoredAttempt? && source.data != []
  {
    && run == RecoveryChain.RunName(own.evidence) && own.evidence == hash(own.admission)
    && own.admission == RecoveryChain.Fresh(source, own.sourceRun, own.admission.surroundings)
    && RecoveryChain.StatesBound(own.journal, own.states, own.evidence)
    && RecoveryChain.Readable(own.journal)
    && exists models :: RecoveryValidation.IsHistory(models, own.journal, 1, own.states, o, run)
         && models[0] == source.model.(source := own.evidence) && models[|own.journal|] == m
  }

  /** Whatever was stored: an attempt on a chain that loads is accepted, within the bound, exactly if it is vouched
      for; and then the chain goes on with it. */
  lemma AcceptedAttempt(store: map<string, RecoveryChain.StoredRun>, hash: RecoveryChain.Hash, o: Origin, run: string, seen: set<string>, m: Model)
    requires |seen| < 8 && run !in seen && run in store && store[run].StoredAttempt?
    requires RecoveryChain.LoadChain(store, hash, o, store[run].sourceRun, seen + {run}).Ok?
    ensures var own := store[run];
      var source := RecoveryChain.LoadChain(store, hash, o, own.sourceRun, seen + {run}).value;
      && (RecoveryChain.LoadChain(store, hash, o, run, seen) == Ok(RecoveryChain.Chain(m, source.roots + [run], source.data + [own]))
          <==> Vouched(own, hash, o, run, source, m))
    ensures RecoveryChain.LoadChain(store, hash, o, run, seen).Ok? ==>
      var source := RecoveryChain.LoadChain(store, hash, o, store[run].sourceRun, seen + {run}).value;
      var chain := RecoveryChain.LoadChain(store, hash, o, run, seen).value;
      chain == RecoveryChain.Chain(chain.model, source.roots + [run], source.data + [store[run]])
  {
    hide WellFormed, Replay, RecoveryChain.RunName, RecoveryChain.StatesFault, RecoveryChain.StatesBound, RecoveryChain.Readable, RecoveryValidation.IsHistory;
    var own := store[run];
    var source := RecoveryChain.LoadChain(store, hash, o, own.sourceRun, seen + {run}).value;
    RecoveryChain.FaultlessIsBound(own.journal, own.states, own.evidence);
    RecoveryChain.CheckedIsFresh(own.admission, own.sourceRun, source);
    RecoveryChain.SourceIsFree(source.model, o, own.evidence);
    RecoveryValidation.AcceptedExactly(source.model.(source := own.evidence), own.journal, 1, own.states, o, run, m);
  }
}
