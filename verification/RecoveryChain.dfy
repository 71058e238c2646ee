// The chain of runs behind a recovery run, loaded from what each of them stored (managedGlobalRecoveryChain.ts).
module RecoveryChain {
  import opened Wrappers
  import opened GuardedFiles
  import opened RecoveryModel

  // What an attempt was admitted on: the whole evidence of its source, and what else its plan looked at
  // (protected files, directories).
  datatype Admission =
    | OfMigration(evidence: StoredRun, surroundings: string)
    | OfRun(source: string, data: seq<StoredRun>, state: Model, surroundings: string)

  datatype StoredRun =
    | StoredMigration(model: Result<Model>)
    | StoredAttempt(sourceRun: string, evidence: string, admission: Admission, journal: seq<JournalRow>, states: map<nat, Record>)

  // SHA-256 of the JSON of an admission.
  type Hash = Admission -> string

  ghost predicate Injective(hash: Hash) {
    forall a, b :: hash(a) == hash(b) ==> a == b
  }

  const RECOVERY := "global-recovery-"

  // A run's directory is named by its evidence.
  function RunName(evidence: string): string {
    RECOVERY + evidence
  }

  // `data` is what the runs of the chain stored, in order.
  datatype Chain = Chain(model: Model, roots: seq<string>, data: seq<StoredRun>)

  // The admission a new attempt on a loaded chain takes.
  function Fresh(chain: Chain, source: string, surroundings: string): Admission
    requires chain.data != []
  {
    if |chain.roots| == 1 then OfMigration(chain.data[0], surroundings) else OfRun(source, chain.data, chain.model, surroundings)
  }

  // Whether a stored admission is one on this chain.
  function CheckAdmission(admission: Admission, source: string, chain: Chain): (r: Result<Chain>)
    requires chain.data != []
    ensures r.Ok? ==> r.value == chain
  {
    if |chain.roots| == 1 then
      if !admission.OfMigration? then Err("global_recovery_chain_migration_admission_invalid")
      else if admission.evidence != chain.data[0] then Err("global_recovery_chain_source_changed")
      else Ok(chain)
    else if !admission.OfRun? then Err("global_recovery_chain_admission_required")
    else if admission.source != source || admission.data != chain.data then Err("global_recovery_chain_admission_unbound")
    else if admission.state != chain.model then Err("global_recovery_chain_admission_state_changed")
    else Ok(chain)
  }

  // An accepted admission is the fresh one, for some surroundings.
  lemma CheckedIsFresh(admission: Admission, source: string, chain: Chain)
    requires chain.data != []
    ensures CheckAdmission(admission, source, chain).Ok? <==> admission == Fresh(chain, source, admission.surroundings)
  {
  }

  const CYCLE_OR_BOUND := "global_recovery_chain_cycle_or_bound"

  // Ready or complete, with every result confirmed: nothing pending, nothing unknown.
  predicate Readable(rows: seq<JournalRow>) {
    && (rows != [] ==> !rows[|rows| - 1].Intent?)
    && forall i :: 0 <= i < |rows| && rows[i].Result? ==> rows[i].confirmed
  }

  // The state file of a result row: its own digest, and the step, the operation and the evidence of the run.
  predicate StateMatches(row: JournalRow, record: Record, evidence: string) {
    row.Result? ==> record.source == record.state.source == evidence && record.step == row.step && record.operation == row.operation
  }

  // The first fault of the state files, if any.
  function StatesFault(rows: seq<JournalRow>, states: map<nat, Record>, evidence: string, k: nat := 0): (fault: Option<string>)
    requires k <= |rows|
    decreases |rows| - k
  {
    if k == |rows| then None
    else if rows[k].Result? && (k + 1 !in states || rows[k].digest != OfRecord(states[k + 1])) then Some("global_recovery_attempt_state_changed")
    else if rows[k].Result? && !StateMatches(rows[k], states[k + 1], evidence) then Some("global_recovery_attempt_state_invalid")
    else StatesFault(rows, states, evidence, k + 1)
  }

  // Every result row has its own record, bound to it by digest, step, operation and evidence.
  ghost predicate StatesBound(rows: seq<JournalRow>, states: map<nat, Record>, evidence: string) {
    forall k :: 0 <= k < |rows| && rows[k].Result? ==>
      k + 1 in states && rows[k].digest == OfRecord(states[k + 1]) && StateMatches(rows[k], states[k + 1], evidence)
  }

  lemma {:induction false} FaultlessFrom(rows: seq<JournalRow>, states: map<nat, Record>, evidence: string, k: nat)
    requires k <= |rows|
    ensures StatesFault(rows, states, evidence, k).None? <==>
      forall i :: k <= i < |rows| && rows[i].Result? ==>
        i + 1 in states && rows[i].digest == OfRecord(states[i + 1]) && StateMatches(rows[i], states[i + 1], evidence)
    decreases |rows| - k
  {
    if k < |rows| {
      FaultlessFrom(rows, states, evidence, k + 1);
    }
  }

  lemma FaultlessIsBound(rows: seq<JournalRow>, states: map<nat, Record>, evidence: string)
    ensures StatesFault(rows, states, evidence).None? <==> StatesBound(rows, states, evidence)
  {
    FaultlessFrom(rows, states, evidence, 0);
  }

  lemma SourceIsFree(m: Model, o: Origin, evidence: string)
    requires WellFormed(m, o)
    ensures WellFormed(m.(source := evidence), o)
  {
    forall i | 0 <= i < |m.objects| ensures CoherentObject(m.objects[i], o.objects[i]) {}
    forall j | 0 <= j < |m.generated| ensures CoherentGenerated(m.generated[j], o, j) {}
  }

  /** Replays a run over its parent run. A run may be visited once, and at most eight runs are visited. */
  function LoadChain(store: map<string, StoredRun>, hash: Hash, o: Origin, run: string, seen: set<string>): (r: Result<Chain>)
    ensures r.Ok? ==> WellFormed(r.value.model, o) && r.value.roots != [] && |r.value.data| == |r.value.roots| && run in store
    decreases 8 - |seen|
  {
    if |seen| >= 8 || run in seen then Err(CYCLE_OR_BOUND)
    else if run !in store then Err("global_recovery_source_unconfirmed")
    else match store[run]
      case StoredMigration(model) =>
        var m :- model;
        if WellFormed(m, o) then Ok(Chain(m, [run], [store[run]])) else Err("global_recovery_source_unconfirmed")
      case StoredAttempt(parent, evidence, admission, journal, states) =>
        if run != RunName(evidence) then Err("global_recovery_attempt_name_unbound")
        else if StatesFault(journal, states, evidence).Some? then Err(StatesFault(journal, states, evidence).value)
        else if !Readable(journal) then Err("global_recovery_chain_unconfirmed_intent")
        else
          var loaded :- LoadChain(store, hash, o, parent, seen + {run});
          if hash(admission) != evidence then Err("global_recovery_chain_admission_digest_changed")
          else
            var chain :- CheckAdmission(admission, parent, loaded);
            SourceIsFree(chain.model, o, evidence);
            var model :- Replay(chain.model.(source := evidence), journal, 1, states, o, run);
            Ok(Chain(model, chain.roots + [run], chain.data + [store[run]]))
  }

  // The runs an accepted chain visits: each the source of the next, down to a migration.
  ghost predicate Linked(store: map<string, StoredRun>, roots: seq<string>) {
    && roots != []
    && (forall i :: 0 <= i < |roots| ==> roots[i] in store)
    && store[roots[0]].StoredMigration?
    && (forall i :: 0 < i < |roots| ==> store[roots[i]].StoredAttempt? && store[roots[i]].sourceRun == roots[i - 1])
    && (forall i, k :: 0 <= i < k < |roots| ==> roots[i] != roots[k])
  }

  /** Whatever links the stored runs have, cyclic ones included, an accepted chain is acyclic, has at most
      eight runs and ends at a migration. */
  lemma {:induction false} AcceptedChainIsAcyclic(store: map<string, StoredRun>, hash: Hash, o: Origin, run: string, seen: set<string>)
    requires LoadChain(store, hash, o, run, seen).Ok?
    ensures var roots := LoadChain(store, hash, o, run, seen).value.roots;
      && Linked(store, roots) && roots[|roots| - 1] == run
      && |seen| + |roots| <= 8
      && forall i :: 0 <= i < |roots| ==> roots[i] !in seen
    decreases 8 - |seen|
  {
    hide WellFormed, Replay, Readable, RunName, StatesFault;
    if store[run].StoredAttempt? {
      var parent := store[run].sourceRun;
      AcceptedChainIsAcyclic(store, hash, o, parent, seen + {run});
      var chain := LoadChain(store, hash, o, parent, seen + {run}).value;
      var roots := chain.roots + [run];
      forall i, k | 0 <= i < k < |roots| ensures roots[i] != roots[k] {
        if k == |roots| - 1 {
          assert chain.roots[i] !in seen + {run};
        }
      }
    }
  }

  /** Once a run loads, only the bound and what was visited before decide whether it loads again: with the
      same result, or with the cycle-or-bound error. */
  lemma {:induction false} LoadsAgain(store: map<string, StoredRun>, hash: Hash, o: Origin, run: string, seen: set<string>, again: set<string>)
    requires LoadChain(store, hash, o, run, seen).Ok?
    ensures var chain := LoadChain(store, hash, o, run, seen).value;
      LoadChain(store, hash, o, run, again)
        == if |again| + |chain.roots| <= 8 && Unvisited(chain.roots, again) then Ok(chain) else Err(CYCLE_OR_BOUND)
    decreases 8 - |seen|
  {
    hide WellFormed, Replay, Readable, StatesFault;
    AcceptedChainIsAcyclic(store, hash, o, run, seen);
    var chain := LoadChain(store, hash, o, run, seen).value;
    assert chain.roots[|chain.roots| - 1] == run;
    if run !in again && |again| < 8 && store[run].StoredAttempt? {
      var parent := store[run].sourceRun;
      AcceptedChainIsAcyclic(store, hash, o, parent, seen + {run});
      LoadsAgain(store, hash, o, parent, seen + {run}, again + {run});
      var before := LoadChain(store, hash, o, parent, seen + {run}).value;
      LastRoot(before.roots, run, seen, again);
    }
  }

  // No run of the chain was visited before.
  ghost predicate Unvisited(roots: seq<string>, seen: set<string>) {
    forall i :: 0 <= i < |roots| ==> roots[i] !in seen
  }

  lemma LastRoot(roots: seq<string>, run: string, seen: set<string>, again: set<string>)
    requires Unvisited(roots, seen + {run}) && run !in again
    ensures Unvisited(roots + [run], again) <==> Unvisited(roots, again + {run})
  {
    if Unvisited(roots + [run], again) {
      forall i | 0 <= i < |roots| ensures roots[i] !in again + {run} {
        assert (roots + [run])[i] == roots[i];
      }
    }
  }

  // Every source run of a stored attempt is stored.
  ghost predicate Closed(store: map<string, StoredRun>) {
    forall run :: run in store && store[run].StoredAttempt? ==> store[run].sourceRun in store
  }

  // A new run changes no load of an older one.
  lemma {:induction false} LoadIgnoresLater(store: map<string, StoredRun>, hash: Hash, o: Origin, run: string, seen: set<string>, target: string, later: StoredRun)
    requires Closed(store) && run in store && target !in store
    ensures LoadChain(store[target := later], hash, o, run, seen) == LoadChain(store, hash, o, run, seen)
    decreases 8 - |seen|
  {
    hide WellFormed, Replay, Readable, StatesFault;
    if |seen| < 8 && run !in seen && store[run].StoredAttempt? {
      LoadIgnoresLater(store, hash, o, store[run].sourceRun, seen + {run}, target, later);
    }
  }

  /** What an attempt stores loads exactly if its journal is readable, its source chain has at most seven runs
      (less those visited before), and its rows replay over that chain. */
  lemma NewRunLoads(store: map<string, StoredRun>, hash: Hash, o: Origin, source: string, surroundings: string,
                    journal: seq<JournalRow>, states: map<nat, Record>, seen: set<string>)
    requires Closed(store) && LoadChain(store, hash, o, source, {}).Ok?
    requires var evidence := hash(Fresh(LoadChain(store, hash, o, source, {}).value, source, surroundings));
      RunName(evidence) !in store && RunName(evidence) !in seen
    ensures LoadChain(store, hash, o, source, {}).Ok?
    ensures var chain := LoadChain(store, hash, o, source, {}).value;
      var admission := Fresh(chain, source, surroundings);
      var evidence := hash(admission);
      var stored := StoredAttempt(source, evidence, admission, journal, states);
      && WellFormed(chain.model.(source := evidence), o)
      && LoadChain(store[RunName(evidence) := stored], hash, o, RunName(evidence), seen)
        == if |seen| >= 8 then Err(CYCLE_OR_BOUND)
           else if StatesFault(journal, states, evidence).Some? then Err(StatesFault(journal, states, evidence).value)
           else if !Readable(journal) then Err("global_recovery_chain_unconfirmed_intent")
           else if |seen| + |chain.roots| + 1 > 8 || !Unvisited(chain.roots, seen) then Err(CYCLE_OR_BOUND)
           else match Replay(chain.model.(source := evidence), journal, 1, states, o, RunName(evidence))
             case Err(e) => Err(e)
             case Ok(model) => Ok(Chain(model, chain.roots + [RunName(evidence)], chain.data + [stored]))
  {
    hide WellFormed, Replay, Readable, RunName, StatesFault;
    var chain := LoadChain(store, hash, o, source, {}).value;
    var admission := Fresh(chain, source, surroundings);
    var evidence := hash(admission);
    var target := RunName(evidence);
    SourceIsFree(chain.model, o, evidence);
    var after := store[target := StoredAttempt(source, evidence, admission, journal, states)];
    LoadIgnoresLater(store, hash, o, source, {}, target, after[target]);
    AcceptedChainIsAcyclic(store, hash, o, source, {});
    LoadsAgain(after, hash, o, source, {}, seen + {target});
    forall i | 0 <= i < |chain.roots| ensures chain.roots[i] != target {
      assert chain.roots[i] in store;
    }
    assert Unvisited(chain.roots, seen + {target}) <==> Unvisited(chain.roots, seen);
    CheckedIsFresh(admission, source, chain);
  }

  // The loop of `withGlobalRecoveryAttemptEvidence` over the result rows.
  method ReadStates(rows: seq<JournalRow>, states: map<nat, Record>, evidence: string) returns (fault: Option<string>)
    ensures fault == StatesFault(rows, states, evidence)
  {
    for k := 0 to |rows|
      invariant StatesFault(rows, states, evidence) == StatesFault(rows, states, evidence, k)
    {
      var row := rows[k];
      if row.Result? {
        if k + 1 !in states || row.digest != OfRecord(states[k + 1]) {
          return Some("global_recovery_attempt_state_changed");
        }
        var record := states[k + 1];
        if record.source != evidence || record.state.source != evidence || record.step != row.step || record.operation != row.operation {
          return Some("global_recovery_attempt_state_invalid");
        }
      }
    }
    return None;
  }

  /** The loader as the source runs it: recursive, with the set of visited runs, and replaying each run
      by updating a copy of its parent's model in place. */
  method WithRecoveryChain(store: map<string, StoredRun>, hash: Hash, o: Origin, run: string, seen: set<string>) returns (r: Result<Chain>)
    ensures r == LoadChain(store, hash, o, run, seen)
    decreases 8 - |seen|
  {
    if |seen| >= 8 || run in seen {
      return Err(CYCLE_OR_BOUND);
    }
    if run !in store {
      return Err("global_recovery_source_unconfirmed");
    }
    match store[run] {
      case StoredMigration(loaded) =>
        if loaded.Err? {
          return Err(loaded.error);
        }
        if !WellFormed(loaded.value, o) {
          return Err("global_recovery_source_unconfirmed");
        }
        return Ok(Chain(loaded.value, [run], [store[run]]));
      case StoredAttempt(parent, evidence, admission, journal, states) =>
        if run != RunName(evidence) {
          return Err("global_recovery_attempt_name_unbound");
        }
        var fault := ReadStates(journal, states, evidence);
        if fault.Some? {
          return Err(fault.value);
        }
        if !Readable(journal) {
          return Err("global_recovery_chain_unconfirmed_intent");
        }
        var loaded := WithRecoveryChain(store, hash, o, parent, seen + {run});
        if loaded.Err? {
          return loaded;
        }
        if hash(admission) != evidence {
          return Err("global_recovery_chain_admission_digest_changed");
        }
        var checked := CheckAdmission(admission, parent, loaded.value);
        if checked.Err? {
          return checked;
        }
        var chain := checked.value;
        SourceIsFree(chain.model, o, evidence);
        var replayed := ValidateRecoveryJournalState(chain.model.(source := evidence), journal, states, o, run);
        if replayed.Err? {
          return Err(replayed.error);
        }
        return Ok(Chain(replayed.value, chain.roots + [run], chain.data + [store[run]]));
    }
  }
}
