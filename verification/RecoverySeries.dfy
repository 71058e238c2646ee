// Recoveries started one after another, each from any stored run, and only when the loader and the first
// look at the disk accept it (managedGlobalRecoveryChain.ts, managedGlobalRecoveryExecution.ts).
module RecoverySeries {
  import opened Wrappers
  import opened GuardedFiles
  import opened RecoveryModel
  import opened RecoverySafety
  import opened ObjectCheck
  import opened RecoveryExecution
  import opened RecoveryRuns
  import opened RecoveryChain

  // `hash` stands for SHA-256 of the JSON of an admission.
  datatype World = World(files: Files, store: map<string, StoredRun>, hash: Hash)

  // One recovery command: the run to recover, what else the command looks at when it is planned (protected
  // files, directories), and what happens.
  datatype Attempted = Attempted(source: string, surroundings: string, script: seq<Event>)

  // `withGlobalRecoverySourceSnapshot` and the executor's first look: the chain loads and describes the disk.
  function Admit(w: World, o: Origin, source: string): (r: Result<Chain>)
    ensures r.Ok? ==> r == LoadChain(w.store, w.hash, o, source, {}) && r.value.roots != [] && r.value.data != []
  {
    var chain :- LoadChain(w.store, w.hash, o, source, {});
    if Verified(chain.model, w.files, StartSlots(chain.model, o, chain.roots)) then Ok(chain)
    else Err("global_recovery_chain_unknown_name")
  }

  // The digest of everything the attempt is admitted on, which also names its directory.
  function Evidence(w: World, o: Origin, source: string, surroundings: string): string {
    var r := Admit(w, o, source);
    if r.Ok? then w.hash(Fresh(r.value, source, surroundings)) else ""
  }

  function Target(w: World, o: Origin, a: Attempted): string {
    RunName(Evidence(w, o, a.source, a.surroundings))
  }

  function Start(w: World, o: Origin, chain: Chain, evidence: string): Run
    requires chain.roots != []
  {
    StartRun(chain.model.(source := evidence), w.files, StartSlots(chain.model, o, chain.roots))
  }

  function StartOf(w: World, o: Origin, a: Attempted): Run
    requires Admit(w, o, a.source).Ok?
  {
    Start(w, o, Admit(w, o, a.source).value, Evidence(w, o, a.source, a.surroundings))
  }

  function RunOf(w: World, o: Origin, a: Attempted): Run
    requires Admit(w, o, a.source).Ok?
  {
    Drive(StartOf(w, o, a), o, Target(w, o, a), a.script)
  }

  // A refused attempt writes nothing; neither does one whose directory exists.
  predicate CanBegin(w: World, o: Origin, source: string, surroundings: string) {
    Admit(w, o, source).Ok? && RunName(Evidence(w, o, source, surroundings)) !in w.store
  }

  predicate Begins(w: World, o: Origin, a: Attempted) {
    CanBegin(w, o, a.source, a.surroundings)
  }

  function After(w: World, o: Origin, a: Attempted): World {
    if !Begins(w, o, a) then w
    else
      var run := RunOf(w, o, a);
      var evidence := Evidence(w, o, a.source, a.surroundings);
      w.(files := run.files,
         store := w.store[Target(w, o, a) := StoredAttempt(a.source, evidence, Fresh(Admit(w, o, a.source).value, a.source, a.surroundings),
                                                           run.journal, run.states)])
  }

  function AfterAll(w: World, o: Origin, attempts: seq<Attempted>): World {
    if attempts == [] then w
    else After(AfterAll(w, o, attempts[..|attempts| - 1]), o, attempts[|attempts| - 1])
  }

  // ---- What holds between attempts ----

  // Everything of Safe but the run's own directory.
  ghost predicate Settled(m: Model, files: Files, o: Origin, roots: set<string>) {
    && WellFormed(m, o)
    && LiveScope(o, roots)
    && Sited(m, o, roots)
    && LocationsDistinct(m)
    && OnDisk(m, files)
    && NothingUnknown(m, files, o, roots)
  }

  // Two models that differ only in the evidence digest of their source.
  ghost predicate SameState(m: Model, now: Model) {
    m.(source := now.source) == now
  }

  ghost predicate KnownDirectory(o: Origin, roots: set<string>, directory: string) {
    || directory in roots || directory == o.root || directory == o.binDirectory
    || exists i :: 0 <= i < |o.objects| && o.objects[i].live.directory == directory
  }

  // A preserved original the model knows of has left the directory of its run: nothing ever goes back there.
  ghost predicate OriginalGone(m: Model, files: Files, roots: set<string>) {
    exists i :: 0 <= i < |m.objects| && m.objects[i].original.place.directory in roots && m.objects[i].original.place !in files
  }

  ghost predicate EntryGone(m: Model, files: Files, o: Origin, roots: set<string>) {
    exists s :: At(m, s).Some? && KnownDirectory(o, roots, At(m, s).value.place.directory) && At(m, s).value.place !in files
  }

  ghost predicate OriginalsAsNow(m: Model, now: Model) {
    && |m.objects| == |now.objects|
    && forall i :: 0 <= i < |m.objects| ==> m.objects[i].state == now.objects[i].state && m.objects[i].original == now.objects[i].original
  }

  // A move has left the model behind for good.
  ghost predicate Left(m: Model, now: Model, files: Files, o: Origin, roots: set<string>) {
    OriginalGone(m, files, roots) || (EntryGone(m, files, o, roots) && OriginalsAsNow(m, now))
  }

  // A stored run's model is what the disk holds now, or it was and moves have left it behind.
  ghost predicate Behind(m: Model, now: Model, files: Files, o: Origin, roots: set<string>) {
    WellFormed(m, o) && Sited(m, o, roots) && (SameState(m, now) || Left(m, now, files, o, roots))
  }

  ghost predicate LoadedBehind(w: World, o: Origin, now: Model, run: string) {
    var r := LoadChain(w.store, w.hash, o, run, {});
    r.Ok? ==> Behind(r.value.model, now, w.files, o, w.store.Keys)
  }

  // `now` describes the disk, whether or not any stored run does; `was` are the originals to bring home.
  ghost predicate Consistent(w: World, o: Origin, was: Model, now: Model) {
    && Closed(w.store)
    && Settled(now, w.files, o, w.store.Keys)
    && SameOriginals(was, now)
    && forall run :: run in w.store ==> LoadedBehind(w, o, now, run)
  }

  // A new run's directory is none of the plan's, and holds none of the names runs use before the run starts.
  ghost predicate PrivateName(o: Origin, target: string) {
    target != o.root && target != o.binDirectory && forall i :: 0 <= i < |o.objects| ==> o.objects[i].live.directory != target
  }

  ghost predicate Unused(o: Origin, files: Files, directory: string) {
    forall p :: p in files && p.directory == directory ==> !IsRunName(o, p.name)
  }

  ghost predicate FreshTarget(w: World, o: Origin, target: string) {
    PrivateName(o, target) && (target !in w.store ==> Unused(o, w.files, target))
  }

  predicate IsRecovery(name: string) {
    RECOVERY <= name
  }

  ghost predicate FreshNames(w: World, o: Origin) {
    forall name :: IsRecovery(name) ==> FreshTarget(w, o, name)
  }

  lemma TargetIsFresh(w: World, o: Origin, a: Attempted)
    requires FreshNames(w, o)
    ensures FreshTarget(w, o, Target(w, o, a))
  {
    hide FreshTarget, Evidence;
    assert IsRecovery(Target(w, o, a));
  }

  // ---- Settled and safe ----

  lemma SlotSite(m: Model, o: Origin, roots: set<string>, s: Slot)
    requires WellFormed(m, o) && Sited(m, o, roots) && At(m, s).Some?
    ensures KnownDirectory(o, roots, At(m, s).value.place.directory)
  {
    SlotBounds(m, o, s);
  }

  lemma SitedInMore(m: Model, o: Origin, roots: set<string>, more: set<string>)
    requires WellFormed(m, o) && Sited(m, o, roots) && roots <= more
    ensures Sited(m, o, more)
  {
  }

  lemma SettledStartsSafe(m: Model, files: Files, o: Origin, roots: set<string>, target: string, evidence: string)
    requires Settled(m, files, o, roots) && target !in roots && PrivateName(o, target) && Unused(o, files, target)
    ensures Safe(m.(source := evidence), files, o, roots + {target}, target)
  {
    var m' := m.(source := evidence);
    forall s ensures At(m', s) == At(m, s) {}
    forall i | 0 <= i < |m'.objects| ensures CoherentObject(m'.objects[i], o.objects[i]) {
      assert CoherentObject(m.objects[i], o.objects[i]);
    }
    forall j | 0 <= j < |m'.generated| ensures CoherentGenerated(m'.generated[j], o, j) {
      assert CoherentGenerated(m.generated[j], o, j);
    }
    forall p | p in files && Watched(o, roots + {target}, p) ensures IsRecorded(m', p) {
      assert Watched(o, roots, p);
      var s :| At(m, s).Some? && At(m, s).value.place == p;
      assert At(m', s).Some? && At(m', s).value.place == p;
    }
    forall s | At(m', s).Some? ensures At(m', s).value.place.directory != target {
      SlotSite(m, o, roots, s);
    }
  }

  lemma SafeIsSettled(m: Model, files: Files, o: Origin, roots: set<string>, target: string)
    requires Safe(m, files, o, roots, target)
    ensures Settled(m, files, o, roots)
  {
  }

  lemma SettledIsVerified(m: Model, files: Files, o: Origin, roots: set<string>, chain: seq<string>)
    requires Settled(m, files, o, roots) && chain != [] && forall k :: 0 <= k < |chain| ==> chain[k] in roots
    ensures Verified(m, files, StartSlots(m, o, chain))
  {
    hide Verified, StartSlots, Sited, WellFormed, Watched;
    StartSlotsAreWatched(m, o, chain, roots);
    VerifiedIs(m, files, StartSlots(m, o, chain));
  }

  lemma SettledIgnoresSource(m: Model, now: Model, files: Files, o: Origin, roots: set<string>)
    requires Settled(now, files, o, roots) && SameState(m, now)
    ensures Settled(m, files, o, roots)
  {
    forall s ensures At(m, s) == At(now, s) {}
    forall i | 0 <= i < |m.objects| ensures CoherentObject(m.objects[i], o.objects[i]) {
      assert CoherentObject(now.objects[i], o.objects[i]);
    }
    forall j | 0 <= j < |m.generated| ensures CoherentGenerated(m.generated[j], o, j) {
      assert CoherentGenerated(now.generated[j], o, j);
    }
    forall p | p in files && Watched(o, roots, p) ensures IsRecorded(m, p) {
      var s :| At(now, s).Some? && At(now, s).value.place == p;
      assert At(m, s).Some? && At(m, s).value.place == p;
    }
  }

  // ---- Moves leave stored models behind ----

  lemma LeftIsNotOnDisk(m: Model, now: Model, files: Files, o: Origin, roots: set<string>)
    requires Left(m, now, files, o, roots)
    ensures !OnDisk(m, files)
    ensures exists s :: At(m, s).Some? && At(m, s).value.place !in files
  {
    if OriginalGone(m, files, roots) {
      var i :| 0 <= i < |m.objects| && m.objects[i].original.place.directory in roots && m.objects[i].original.place !in files;
      assert At(m, OriginalSlot(i)).Some? && At(m, OriginalSlot(i)).value.place !in files;
    }
  }

  // Whatever state a stored model was in, one more move leaves it behind.
  lemma MoveLeaves(m: Model, now: Model, files: Files, o: Origin, roots: set<string>, target: string, a: Action, changed: nat)
    requires Behind(m, now, files, o, roots)
    requires LiveScope(o, roots) && target !in roots && PrivateName(o, target)
    requires WellFormed(now, o) && Dictated(now, o, target, a) && Applicable(now, a)
    requires CanMove(files, At(now, a.slot).value.place, a.destination)
    ensures Left(m, Apply(now, a, changed), Move(files, At(now, a.slot).value.place, a.destination, changed), o, roots)
  {
    var from := At(now, a.slot).value.place;
    var after := Move(files, from, a.destination, changed);
    if OriginalGone(m, files, roots) {
      GoneStays(m, roots, files, after, a.destination);
    } else if a.slot.OriginalSlot? {
      var i := a.slot.index;
      assert m.objects[i].state == now.objects[i].state && m.objects[i].original == now.objects[i].original;
      assert m.objects[i].original.place.directory in roots && m.objects[i].original.place !in after;
    } else if SameState(m, now) {
      assert At(m, a.slot) == At(now, a.slot);
      SlotSite(m, o, roots, a.slot);
      assert At(m, a.slot).Some? && At(m, a.slot).value.place !in after;
      assert EntryGone(m, after, o, roots);
    } else {
      var s :| At(m, s).Some? && KnownDirectory(o, roots, At(m, s).value.place.directory) && At(m, s).value.place !in files;
      assert At(m, s).Some? && At(m, s).value.place !in after;
      assert EntryGone(m, after, o, roots);
    }
  }

  lemma GoneStays(m: Model, roots: set<string>, files: Files, after: Files, added: Place)
    requires OriginalGone(m, files, roots) && added.directory !in roots
    requires forall p :: p in after ==> p in files || p == added
    ensures OriginalGone(m, after, roots)
  {
    var i :| 0 <= i < |m.objects| && m.objects[i].original.place.directory in roots && m.objects[i].original.place !in files;
    assert m.objects[i].original.place !in after;
  }

  // Every model that was current or behind is left behind.
  ghost predicate AllLeft(before: Run, now: Model, files: Files, o: Origin, roots: set<string>) {
    forall m :: Behind(m, before.model, before.files, o, roots) ==> Left(m, now, files, o, roots)
  }

  // Nothing moved, or something did and every stored model is left behind.
  ghost predicate Advanced(before: Run, now: Model, files: Files, o: Origin, roots: set<string>) {
    (now == before.model && files == before.files) || AllLeft(before, now, files, o, roots)
  }

  lemma AttemptAdvances(run: Run, o: Origin, roots: set<string>, target: string, a: Action, e: Event) returns (now: Model)
    requires run.status == Running && Safe(run.model, run.files, o, roots + {target}, target) && SlotsWatched(o, roots + {target}, run.slots)
    requires LiveScope(o, roots) && target !in roots && PrivateName(o, target)
    requires Dictated(run.model, o, target, a) && Applicable(run.model, a)
    ensures var next := Attempt(run, a, e);
      && Safe(now, next.files, o, roots + {target}, target) && SameOriginals(run.model, now)
      && (next.status in {Running, Stopped, Completed} ==> now == next.model)
      && Advanced(run, now, next.files, o, roots)
  {
    hide Verified, Safe, Apply, Dictated, LiveScope, SlotsWatched, PrivateName, Behind, Left, UnconfirmedRecord;
    now := run.model;
    if !e.Refuse? {
      var from := At(run.model, a.slot).value.place;
      LooksPass(run, o, roots + {target}, target, a, e.changed);
      SafeIsWellFormed(run.model, run.files, o, roots + {target}, target);
      if e.Confirm? || (e.Interrupt? && e.moved) || (e.Uncertain? && (e.at.AfterRename? || (e.at.AtRename? && e.at.moved))) {
        now := Apply(run.model, a, e.changed);
        ApplyKeepsOriginals(run.model, a, e.changed);
        forall m | Behind(m, run.model, run.files, o, roots)
          ensures Left(m, now, Move(run.files, from, a.destination, e.changed), o, roots)
        {
          MoveLeaves(m, run.model, run.files, o, roots, target, a, e.changed);
        }
      }
    }
  }

  // A whole run: what describes the disk afterwards, and what that does to the models stored before.
  lemma {:induction false} RunAdvances(run: Run, o: Origin, roots: set<string>, target: string, script: seq<Event>) returns (now: Model)
    requires run.status == Running && Safe(run.model, run.files, o, roots + {target}, target) && SlotsWatched(o, roots + {target}, run.slots)
    requires LiveScope(o, roots) && target !in roots && PrivateName(o, target)
    ensures var final := Drive(run, o, target, script);
      && Safe(now, final.files, o, roots + {target}, target) && SameOriginals(run.model, now)
      && (final.status in {Stopped, Completed} ==> now == final.model)
      && Advanced(run, now, final.files, o, roots)
    decreases |script|
  {
    hide Safe, LiveScope, SlotsWatched, PrivateName, Advanced, NextAction, Attempt, Verified, Dictated, WellFormed;
    now := run.model;
    if script == [] {
      StillAdvanced(run, o, roots);
    } else {
      var next := Step(run, o, target, script[0]);
      SafeIsWellFormed(run.model, run.files, o, roots + {target}, target);
      StepCases(run, o, target, script[0]);
      StepKeepsSafe(run, o, roots + {target}, target, script[0]);
      if Outstanding(run.model) > 0 {
        now := AttemptAdvances(run, o, roots, target, NextAction(run.model, o, target).action, script[0]);
      } else {
        StillAdvanced(run, o, roots);
      }
      if next.status == Running {
        var last := RunAdvances(next, o, roots, target, script[1..]);
        AdvancedTwice(run, next, last, Drive(next, o, target, script[1..]).files, o, roots);
        now := last;
      } else {
        DriveEnded(next, o, target, script[1..]);
      }
    }
  }

  lemma StillAdvanced(run: Run, o: Origin, roots: set<string>)
    ensures Advanced(run, run.model, run.files, o, roots)
  {
  }

  lemma AdvancedTwice(run: Run, next: Run, now: Model, files: Files, o: Origin, roots: set<string>)
    requires Advanced(run, next.model, next.files, o, roots) && Advanced(next, now, files, o, roots)
    ensures Advanced(run, now, files, o, roots)
  {
    hide Left, Sited, WellFormed;
    if !(next.model == run.model && next.files == run.files) && AllLeft(next, now, files, o, roots) {
      forall m | Behind(m, run.model, run.files, o, roots)
        ensures Left(m, now, files, o, roots)
      {
        assert Behind(m, next.model, next.files, o, roots);
      }
    } else if next.model == run.model && next.files == run.files {
      forall m | AllLeft(next, now, files, o, roots) && Behind(m, run.model, run.files, o, roots)
        ensures Left(m, now, files, o, roots)
      {
        assert Behind(m, next.model, next.files, o, roots);
      }
    }
  }

  // ---- One attempt ----

  /** The loader and the first look at the disk accept a run only if its model is what the disk holds. */
  lemma AdmittedIsCurrent(w: World, o: Origin, was: Model, now: Model, source: string)
    requires Consistent(w, o, was, now) && Admit(w, o, source).Ok?
    ensures var chain := Admit(w, o, source).value;
      && SameState(chain.model, now) && Settled(chain.model, w.files, o, w.store.Keys) && SameOriginals(was, chain.model)
      && forall k :: 0 <= k < |chain.roots| ==> chain.roots[k] in w.store
  {
    hide WellFormed, Sited, Verified, StartSlots, Settled, LoadChain;
    var chain := Admit(w, o, source).value;
    assert LoadedBehind(w, o, now, source);
    VerifiedIs(chain.model, w.files, StartSlots(chain.model, o, chain.roots));
    if Left(chain.model, now, w.files, o, w.store.Keys) {
      LeftIsNotOnDisk(chain.model, now, w.files, o, w.store.Keys);
    }
    SettledIgnoresSource(chain.model, now, w.files, o, w.store.Keys);
    AcceptedChainIsAcyclic(w.store, w.hash, o, source, {});
  }

  /** Conversely a loaded chain that describes the disk is accepted. */
  lemma CurrentIsAdmitted(w: World, o: Origin, source: string)
    requires LoadChain(w.store, w.hash, o, source, {}).Ok?
    requires Settled(LoadChain(w.store, w.hash, o, source, {}).value.model, w.files, o, w.store.Keys)
    ensures Admit(w, o, source).Ok?
  {
    hide Settled, Verified, StartSlots, LoadChain;
    var chain := LoadChain(w.store, w.hash, o, source, {}).value;
    AcceptedChainIsAcyclic(w.store, w.hash, o, source, {});
    SettledIsVerified(chain.model, w.files, o, w.store.Keys, chain.roots);
  }

  // A run stops with a readable journal exactly when it stops between moves; then all its rows are confirmed.
  lemma {:induction false} ReadableWhenStopped(run: Run, o: Origin, target: string, script: seq<Event>)
    requires WellFormed(run.model, o) && run.status == Running && Readable(run.journal)
    ensures var final := Drive(run, o, target, script);
      && (Readable(final.journal) <==> final.status in {Stopped, Completed})
      && (Readable(final.journal) ==> ConfirmedRows(final) == final.journal)
    decreases |script|
  {
    hide WellFormed, NextAction, Verified, Attempt, Readable;
    if script != [] {
      var next := Step(run, o, target, script[0]);
      StepCases(run, o, target, script[0]);
      StepKeepsWellFormed(run, o, target, script[0]);
      if Outstanding(run.model) > 0 {
        AttemptReadable(run, NextAction(run.model, o, target).action, script[0]);
      } else {
        CompleteIsReadable(run.journal, OfModel(run.model));
      }
      if next.status == Running {
        ReadableWhenStopped(next, o, target, script[1..]);
      } else {
        DriveEnded(next, o, target, script[1..]);
      }
    }
  }

  lemma AttemptReadable(run: Run, a: Action, e: Event)
    requires Applicable(run.model, a) && run.status == Running && Readable(run.journal)
    ensures Readable(Attempt(run, a, e).journal) <==> Attempt(run, a, e).status in {Running, Stopped, Completed}
  {
    hide Verified, Apply, UnconfirmedRecord, EndsAt;
    var next := Attempt(run, a, e);
    assert |next.journal| > |run.journal| ==> next.journal[|run.journal|].Intent?;
  }

  lemma CompleteIsReadable(rows: seq<JournalRow>, digest: Digest)
    requires Readable(rows)
    ensures Readable(rows + [Complete(digest)])
  {
  }

  // An attempt that begins: it starts safe, and what describes the disk when it has ended.
  lemma AttemptSettles(w: World, o: Origin, was: Model, now: Model, a: Attempted) returns (next: Model)
    requires Consistent(w, o, was, now) && Begins(w, o, a) && FreshTarget(w, o, Target(w, o, a))
    ensures var chain, run, roots := Admit(w, o, a.source).value, RunOf(w, o, a), w.store.Keys + {Target(w, o, a)};
      var start := StartOf(w, o, a);
      && Safe(start.model, w.files, o, roots, Target(w, o, a)) && SlotsWatched(o, roots, start.slots) && SameOriginals(was, start.model)
      && Settled(next, run.files, o, roots) && SameOriginals(was, next)
      && (run.status in {Stopped, Completed} ==> next == run.model)
      && (Readable(run.journal) <==> run.status in {Stopped, Completed})
      && Advanced(start, next, run.files, o, w.store.Keys)
  {
    hide WellFormed, Sited, Verified, StartSlots, LoadChain, Drive, Advanced, Safe, SlotsWatched, Placed, PrivateName, Unused;
    var chain := Admit(w, o, a.source).value;
    var start := StartOf(w, o, a);
    var roots := w.store.Keys + {Target(w, o, a)};
    AdmittedIsCurrent(w, o, was, now, a.source);
    SettledStartsSafe(chain.model, w.files, o, w.store.Keys, Target(w, o, a), Evidence(w, o, a.source, a.surroundings));
    StartSlotsAreWatched(chain.model, o, chain.roots, roots);
    hide Consistent, Settled;
    SettledScope(w, o, was, now);
    next := RunAdvances(start, o, w.store.Keys, Target(w, o, a), a.script);
    SafeIsSettled(next, RunOf(w, o, a).files, o, roots, Target(w, o, a));
    SafeIsWellFormed(start.model, w.files, o, roots, Target(w, o, a));
    ReadableWhenStopped(start, o, Target(w, o, a), a.script);
  }

  lemma SettledScope(w: World, o: Origin, was: Model, now: Model)
    requires Consistent(w, o, was, now)
    ensures LiveScope(o, w.store.Keys)
  {
  }

  // Every record a run writes is bound to its result row and to the evidence of the run.
  lemma AttemptBindsStates(run: Run, a: Action, e: Event)
    requires Applicable(run.model, a) && StatesBound(run.journal, run.states, run.model.source)
    ensures var next := Attempt(run, a, e);
      next.model.source == run.model.source && StatesBound(next.journal, next.states, run.model.source)
  {
    hide Verified, EndsAt;
    var next := Attempt(run, a, e);
    forall k | 0 <= k < |next.journal| && next.journal[k].Result?
      ensures k + 1 in next.states && next.journal[k].digest == OfRecord(next.states[k + 1])
      ensures StateMatches(next.journal[k], next.states[k + 1], run.model.source)
    {
      if k < |run.journal| {
        assert next.journal[k] == run.journal[k];
      }
    }
  }

  lemma {:induction false} RunBindsStates(run: Run, o: Origin, target: string, script: seq<Event>)
    requires WellFormed(run.model, o) && run.status == Running && StatesBound(run.journal, run.states, run.model.source)
    ensures var final := Drive(run, o, target, script);
      StatesBound(final.journal, final.states, run.model.source)
    decreases |script|
  {
    hide WellFormed, NextAction, Verified, Attempt, Dictated, StateMatches;
    if script != [] {
      var next := Step(run, o, target, script[0]);
      StepCases(run, o, target, script[0]);
      StepKeepsWellFormed(run, o, target, script[0]);
      if Outstanding(run.model) > 0 {
        AttemptBindsStates(run, NextAction(run.model, o, target).action, script[0]);
      }
      if next.status == Running {
        RunBindsStates(next, o, target, script[1..]);
      } else {
        DriveEnded(next, o, target, script[1..]);
      }
    }
  }

  /** What an attempt stored: its run loads exactly when it stopped between moves and its chain, with the runs
      visited before, stays within eight; and then as the model the run ended in. */
  lemma AttemptLoads(w: World, o: Origin, was: Model, now: Model, a: Attempted, seen: set<string>)
    requires Consistent(w, o, was, now) && Begins(w, o, a)
    requires Target(w, o, a) !in seen && Unvisited(Admit(w, o, a.source).value.roots, seen)
    ensures var chain, run := Admit(w, o, a.source).value, RunOf(w, o, a);
      LoadChain(After(w, o, a).store, w.hash, o, Target(w, o, a), seen)
        == if |seen| < 8 && run.status !in {Stopped, Completed} then Err("global_recovery_chain_unconfirmed_intent")
           else if |seen| + |chain.roots| + 1 <= 8 then Ok(Chain(run.model, chain.roots + [Target(w, o, a)], chain.data + [After(w, o, a).store[Target(w, o, a)]]))
           else Err(CYCLE_OR_BOUND)
  {
    hide WellFormed, Verified, StartSlots, LoadChain, Drive, Settled, LoadedBehind, Replay, ConfirmedRows, StatesFault;
    var chain, run := Admit(w, o, a.source).value, RunOf(w, o, a);
    var start := StartOf(w, o, a);
    NewRunLoads(w.store, w.hash, o, a.source, a.surroundings, run.journal, run.states, seen);
    RunBindsStates(start, o, Target(w, o, a), a.script);
    FaultlessIsBound(run.journal, run.states, start.model.source);
    ReadableWhenStopped(start, o, Target(w, o, a), a.script);
    ExecutorAndValidatorAgree(start.model, w.files, start.slots, o, Target(w, o, a), a.script);
  }

  lemma BehindInMore(m: Model, now: Model, files: Files, o: Origin, roots: set<string>, more: set<string>)
    requires Behind(m, now, files, o, roots) && roots <= more
    ensures Behind(m, now, files, o, more)
  {
    SitedInMore(m, o, roots, more);
    if OriginalGone(m, files, roots) {
      var i :| 0 <= i < |m.objects| && m.objects[i].original.place.directory in roots && m.objects[i].original.place !in files;
      assert m.objects[i].original.place.directory in more && m.objects[i].original.place !in files;
      assert OriginalGone(m, files, more);
    } else if EntryGone(m, files, o, roots) {
      var s :| At(m, s).Some? && KnownDirectory(o, roots, At(m, s).value.place.directory) && At(m, s).value.place !in files;
      assert At(m, s).Some? && KnownDirectory(o, more, At(m, s).value.place.directory) && At(m, s).value.place !in files;
      assert EntryGone(m, files, o, more);
    }
  }

  // What an attempt does to a model that was current or behind.
  lemma StaysBehind(m: Model, start: Run, next: Model, files: Files, o: Origin, roots: set<string>)
    requires Behind(m, start.model, start.files, o, roots) && Advanced(start, next, files, o, roots)
    ensures Behind(m, next, files, o, roots)
  {
    hide Left, Sited, WellFormed;
  }

  // The source digest is no part of what is compared.
  lemma BehindIgnoresSource(m: Model, a: Model, b: Model, files: Files, o: Origin, roots: set<string>)
    requires Behind(m, a, files, o, roots) && SameState(b, a)
    ensures Behind(m, b, files, o, roots)
  {
    hide Sited, WellFormed;
  }

  // A run stored before the attempt.
  lemma OlderStaysBehind(w: World, o: Origin, was: Model, now: Model, a: Attempted, next: Model, run: string)
    requires Consistent(w, o, was, now) && Begins(w, o, a) && run in w.store
    requires Advanced(StartOf(w, o, a), next, RunOf(w, o, a).files, o, w.store.Keys)
    ensures LoadChain(After(w, o, a).store, w.hash, o, run, {}) == LoadChain(w.store, w.hash, o, run, {})
    ensures LoadedBehind(After(w, o, a), o, next, run)
  {
    AdmittedIsCurrent(w, o, was, now, a.source);
    assert LoadedBehind(w, o, now, run);
    hide WellFormed, Sited, Verified, StartSlots, LoadChain, Drive, Settled, Left, Admit, Behind, Advanced;
    var after := After(w, o, a);
    var chain := Admit(w, o, a.source).value;
    var start := StartOf(w, o, a);
    LoadIgnoresLater(w.store, w.hash, o, run, {}, Target(w, o, a), after.store[Target(w, o, a)]);
    var r := LoadChain(w.store, w.hash, o, run, {});
    if r.Ok? {
      BehindIgnoresSource(r.value.model, now, start.model, w.files, o, w.store.Keys);
      StaysBehind(r.value.model, start, next, after.files, o, w.store.Keys);
      BehindInMore(r.value.model, next, after.files, o, w.store.Keys, after.store.Keys);
    }
  }

  lemma SettledIsBehind(m: Model, files: Files, o: Origin, roots: set<string>)
    requires Settled(m, files, o, roots)
    ensures Behind(m, m, files, o, roots)
  {
    hide WellFormed, Sited;
  }

  /** One recovery attempt, from any stored run and ended in any way, keeps the records and the disk
      consistent: something still describes the disk, and every stored run that loads is that or is left
      behind for good. */
  lemma AttemptKeepsConsistent(w: World, o: Origin, was: Model, now: Model, a: Attempted) returns (next: Model)
    requires Consistent(w, o, was, now) && FreshTarget(w, o, Target(w, o, a))
    ensures Consistent(After(w, o, a), o, was, next)
  {
    hide Consistent, Begins, FreshTarget, RunOf, Settled, Advanced, Safe, SlotsWatched, Readable;
    if Begins(w, o, a) {
      next := AttemptSettles(w, o, was, now, a);
      AfterIsConsistent(w, o, was, now, a, next);
    } else {
      next := now;
    }
  }

  lemma AfterIsConsistent(w: World, o: Origin, was: Model, now: Model, a: Attempted, next: Model)
    requires Consistent(w, o, was, now) && Begins(w, o, a)
    requires var run := RunOf(w, o, a);
      && Settled(next, run.files, o, w.store.Keys + {Target(w, o, a)}) && SameOriginals(was, next)
      && (run.status in {Stopped, Completed} ==> next == run.model)
      && Advanced(StartOf(w, o, a), next, run.files, o, w.store.Keys)
    ensures Consistent(After(w, o, a), o, was, next)
  {
    hide Verified, Settled, Advanced, LoadedBehind, LoadChain, Admit, RunOf, Start, SameOriginals;
    var after := After(w, o, a);
    forall run | run in after.store
      ensures LoadedBehind(after, o, next, run)
    {
      if run == Target(w, o, a) {
        NewestIsCurrent(w, o, was, now, a, next);
      } else {
        OlderStaysBehind(w, o, was, now, a, next, run);
      }
    }
    SourceIsStored(w, o, a.source);
    assert after.store.Keys == w.store.Keys + {Target(w, o, a)};
  }

  lemma SourceIsStored(w: World, o: Origin, source: string)
    requires Admit(w, o, source).Ok?
    ensures source in w.store
  {
    hide Verified, StartSlots, LoadChain;
  }

  lemma NewestIsCurrent(w: World, o: Origin, was: Model, now: Model, a: Attempted, next: Model)
    requires Consistent(w, o, was, now) && Begins(w, o, a)
    requires Settled(next, RunOf(w, o, a).files, o, w.store.Keys + {Target(w, o, a)})
    requires RunOf(w, o, a).status in {Stopped, Completed} ==> next == RunOf(w, o, a).model
    ensures LoadedBehind(After(w, o, a), o, next, Target(w, o, a))
  {
    hide WellFormed, Sited, Verified, StartSlots, Drive, Settled, Left, Advanced, LoadChain, Behind, Readable;
    AttemptLoads(w, o, was, now, a, {});
    assert After(w, o, a).store.Keys == w.store.Keys + {Target(w, o, a)};
    SettledIsBehind(next, RunOf(w, o, a).files, o, w.store.Keys + {Target(w, o, a)});
  }

  // ---- When something can still be recovered ----

  // After an attempt that moved something, no run stored before it is admitted.
  lemma OlderIsRefused(w: World, o: Origin, was: Model, now: Model, a: Attempted, next: Model, run: string)
    requires Consistent(w, o, was, now) && Begins(w, o, a) && run in w.store
    requires Advanced(StartOf(w, o, a), next, RunOf(w, o, a).files, o, w.store.Keys)
    requires RunOf(w, o, a).files != w.files
    ensures Admit(After(w, o, a), o, run).Err?
  {
    AdmittedIsCurrent(w, o, was, now, a.source);
    assert LoadedBehind(w, o, now, run);
    hide WellFormed, Sited, StartSlots, LoadChain, Drive, Settled, Left, Behind, Verified;
    var after := After(w, o, a);
    var start := StartOf(w, o, a);
    LoadIgnoresLater(w.store, w.hash, o, run, {}, Target(w, o, a), after.store[Target(w, o, a)]);
    var r := LoadChain(w.store, w.hash, o, run, {});
    if r.Ok? {
      BehindIgnoresSource(r.value.model, now, start.model, w.files, o, w.store.Keys);
      LeftIsNotOnDisk(r.value.model, next, after.files, o, w.store.Keys);
      VerifiedIs(r.value.model, after.files, StartSlots(r.value.model, o, r.value.roots));
    }
  }

  // An attempt that stopped between moves can itself be recovered while the bound allows it.
  lemma NewestIsAdmitted(w: World, o: Origin, was: Model, now: Model, a: Attempted)
    requires Consistent(w, o, was, now) && Begins(w, o, a) && FreshTarget(w, o, Target(w, o, a))
    ensures var chain, run, newest := Admit(w, o, a.source).value, RunOf(w, o, a), Admit(After(w, o, a), o, Target(w, o, a));
      && (newest.Ok? <==> run.status in {Stopped, Completed} && |chain.roots| <= 7)
      && (newest.Ok? ==> newest.value == Chain(run.model, chain.roots + [Target(w, o, a)], chain.data + [After(w, o, a).store[Target(w, o, a)]]))
  {
    hide Verified, StartSlots, Consistent, FreshTarget, Settled, LoadChain, RunOf, Start, SameOriginals, Advanced, Safe, SlotsWatched, Readable;
    var after := After(w, o, a);
    var next := AttemptSettles(w, o, was, now, a);
    AttemptLoads(w, o, was, now, a, {});
    assert after.store.Keys == w.store.Keys + {Target(w, o, a)};
    var loaded := LoadChain(after.store, after.hash, o, Target(w, o, a), {});
    if loaded.Ok? {
      CurrentIsAdmitted(after, o, Target(w, o, a));
    }
  }

  // ---- Names ----

  // Every attempt's directory is named by its admission, which is on a run stored before it.
  ghost predicate NamesBound(w: World) {
    forall run :: run in w.store ==> NameBound(w, run)
  }

  ghost predicate NameBound(w: World, run: string)
    requires run in w.store
  {
    match w.store[run]
    case StoredMigration(_) => !IsRecovery(run)
    case StoredAttempt(_, _, admission, _, _) =>
      run == RunName(w.hash(admission)) && (admission.OfRun? ==> admission.source in w.store && admission.source != run)
  }

  lemma AttemptIsBound(w: World, o: Origin, a: Attempted)
    requires NamesBound(w)
    ensures NamesBound(After(w, o, a))
  {
    hide Admit, RunOf, RunName;
    if Begins(w, o, a) {
      SourceIsStored(w, o, a.source);
      var after := After(w, o, a);
      forall run | run in after.store ensures NameBound(after, run) {
        assert run in w.store ==> NameBound(w, run);
      }
    }
  }

  lemma {:induction false} SeriesIsBound(w: World, o: Origin, attempts: seq<Attempted>)
    requires NamesBound(w)
    ensures NamesBound(AfterAll(w, o, attempts))
    decreases |attempts|
  {
    hide NamesBound, After;
    if attempts != [] {
      var k := |attempts| - 1;
      SeriesIsBound(w, o, attempts[..k]);
      AttemptIsBound(AfterAll(w, o, attempts[..k]), o, attempts[k]);
    }
  }

  lemma NamesDiffer(hash: Hash, a: Admission, b: Admission)
    requires Injective(hash) && a != b
    ensures RunName(hash(a)) != RunName(hash(b))
  {
    PrefixDiffers(RECOVERY, hash(a), hash(b));
  }

  // The directory of a recovery of the newest run is not taken, whatever the surroundings.
  lemma NewestNameIsFree(w: World, o: Origin, a: Attempted, chain: Chain, surroundings: string)
    requires NamesBound(w) && Injective(w.hash) && Begins(w, o, a)
    requires chain.data != [] && |chain.roots| > 1
    ensures RunName(w.hash(Fresh(chain, Target(w, o, a), surroundings))) !in After(w, o, a).store
  {
    hide Admit, RunOf, RunName, Target;
    AttemptIsBound(w, o, a);
    SourceIsStored(w, o, a.source);
    var after, target := After(w, o, a), Target(w, o, a);
    var admission := Fresh(chain, target, surroundings);
    var name := RunName(w.hash(admission));
    assert name in w.store ==> NameBound(w, name);
    if name in after.store {
      assert NameBound(after, name);
      RunNameIsRecovery(w.hash(admission));
      var stored := after.store[name].admission;
      if stored != admission {
        NamesDiffer(w.hash, stored, admission);
      }
    }
  }

  lemma RunNameIsRecovery(evidence: string)
    ensures IsRecovery(RunName(evidence))
  {
  }

  // ---- What can still be recovered ----

  /** Something can be recovered if some attempt can begin: a stored run the loader and the first look accept,
      whose new directory, under surroundings there may be, does not exist. */
  ghost predicate Recoverable(w: World, o: Origin, available: set<string>) {
    exists source, surroundings :: surroundings in available && CanBegin(w, o, source, surroundings)
  }

  // Before the attempt another one could have begun, under a name of its own.
  ghost predicate HadAnother(w: World, o: Origin, a: Attempted, available: set<string>) {
    exists source, surroundings :: surroundings in available && CanBegin(w, o, source, surroundings)
      && Target(w, o, Attempted(source, surroundings, [])) != Target(w, o, a)
  }

  // After an attempt that moved nothing the older runs are accepted as before.
  lemma OlderAsBefore(w: World, o: Origin, was: Model, now: Model, a: Attempted, run: string)
    requires Consistent(w, o, was, now) && Begins(w, o, a) && RunOf(w, o, a).files == w.files && run in w.store
    ensures Admit(After(w, o, a), o, run) == Admit(w, o, run)
  {
    hide Verified, StartSlots, LoadChain, RunOf, Settled, LoadedBehind, Evidence, RunName;
    LoadIgnoresLater(w.store, w.hash, o, run, {}, Target(w, o, a), After(w, o, a).store[Target(w, o, a)]);
  }

  // The newest run can be recovered under any surroundings, if it can at all.
  lemma NewestCanBegin(w: World, o: Origin, was: Model, now: Model, a: Attempted, surroundings: string)
    requires Consistent(w, o, was, now) && Begins(w, o, a) && FreshTarget(w, o, Target(w, o, a))
    requires NamesBound(w) && Injective(w.hash)
    ensures CanBegin(After(w, o, a), o, Target(w, o, a), surroundings)
      <==> RunOf(w, o, a).status in {Stopped, Completed} && |Admit(w, o, a.source).value.roots| <= 7
  {
    hide Consistent, FreshTarget, Admit, RunOf, NamesBound, RunName, Target, After;
    NewestIsAdmitted(w, o, was, now, a);
    var newest := Admit(After(w, o, a), o, Target(w, o, a));
    SameHash(w, o, a);
    if newest.Ok? {
      NewestNameIsFree(w, o, a, newest.value, surroundings);
    }
  }

  lemma SameHash(w: World, o: Origin, a: Attempted)
    ensures After(w, o, a).hash == w.hash
  {
  }

  /** After an attempt something can still be recovered exactly if the attempt stopped between moves on a chain
      of at most seven runs, or it moved nothing and before it another attempt could have begun. */
  lemma RecoverableExactly(w: World, o: Origin, was: Model, now: Model, a: Attempted, available: set<string>)
    requires Consistent(w, o, was, now) && Begins(w, o, a) && FreshTarget(w, o, Target(w, o, a))
    requires NamesBound(w) && Injective(w.hash) && available != {}
    ensures var chain, run, after := Admit(w, o, a.source).value, RunOf(w, o, a), After(w, o, a);
      && (Recoverable(after, o, available)
          <==> (run.status in {Stopped, Completed} && |chain.roots| <= 7)
               || (run.files == w.files && HadAnother(w, o, a, available)))
  {
    hide Consistent, FreshTarget, NamesBound, Injective;
    var run, after := RunOf(w, o, a), After(w, o, a);
    if Recoverable(after, o, available) {
      var source, surroundings :| surroundings in available && CanBegin(after, o, source, surroundings);
      BeginsAfter(w, o, was, now, a, source, surroundings);
    }
    if run.status in {Stopped, Completed} && |Admit(w, o, a.source).value.roots| <= 7 {
      var surroundings :| surroundings in available;
      NewestCanBegin(w, o, was, now, a, surroundings);
      assert CanBegin(after, o, Target(w, o, a), surroundings);
    } else if run.files == w.files && HadAnother(w, o, a, available) {
      var source, surroundings :| surroundings in available && CanBegin(w, o, source, surroundings)
        && Target(w, o, Attempted(source, surroundings, [])) != Target(w, o, a);
      BeganBefore(w, o, was, now, a, source, surroundings);
      assert CanBegin(after, o, source, surroundings);
    }
  }

  lemma BeginsAfter(w: World, o: Origin, was: Model, now: Model, a: Attempted, source: string, surroundings: string)
    requires Consistent(w, o, was, now) && Begins(w, o, a) && FreshTarget(w, o, Target(w, o, a))
    requires NamesBound(w) && Injective(w.hash) && CanBegin(After(w, o, a), o, source, surroundings)
    ensures source == Target(w, o, a) ==> RunOf(w, o, a).status in {Stopped, Completed} && |Admit(w, o, a.source).value.roots| <= 7
    ensures source != Target(w, o, a) ==>
      && RunOf(w, o, a).files == w.files && CanBegin(w, o, source, surroundings)
      && Target(w, o, Attempted(source, surroundings, [])) != Target(w, o, a)
  {
    hide Consistent, FreshTarget, NamesBound, Injective, Admit, RunOf, Settled, Advanced, Safe, SlotsWatched, Readable, SameOriginals, RunName, StartOf;
    if source == Target(w, o, a) {
      NewestCanBegin(w, o, was, now, a, surroundings);
    } else {
      SourceIsStored(After(w, o, a), o, source);
      if RunOf(w, o, a).files != w.files {
        var next := AttemptSettles(w, o, was, now, a);
        OlderIsRefused(w, o, was, now, a, next, source);
      } else {
        OlderAsBefore(w, o, was, now, a, source);
      }
    }
  }

  lemma BeganBefore(w: World, o: Origin, was: Model, now: Model, a: Attempted, source: string, surroundings: string)
    requires Consistent(w, o, was, now) && Begins(w, o, a) && RunOf(w, o, a).files == w.files
    requires CanBegin(w, o, source, surroundings) && Target(w, o, Attempted(source, surroundings, [])) != Target(w, o, a)
    ensures CanBegin(After(w, o, a), o, source, surroundings)
  {
    hide Consistent, Admit, RunOf, RunName;
    SourceIsStored(w, o, source);
    OlderAsBefore(w, o, was, now, a, source);
  }

  // ---- Series of attempts ----

  // A run touches only live names and its own directory.
  lemma {:induction false} RunLeavesOtherDirectories(run: Run, o: Origin, target: string, script: seq<Event>, other: string)
    requires WellFormed(run.model, o) && other != target && PrivateName(o, other) && Unused(o, run.files, other)
    ensures Unused(o, Drive(run, o, target, script).files, other)
    decreases |script|
  {
    hide WellFormed, NextAction, Attempt, Dictated, PrivateName, Verified, IsRunName;
    if run.status == Running && script != [] {
      var next := Step(run, o, target, script[0]);
      StepCases(run, o, target, script[0]);
      StepKeepsWellFormed(run, o, target, script[0]);
      if Outstanding(run.model) > 0 {
        var a := NextAction(run.model, o, target).action;
        DictatedDirectory(run.model, o, target, a, other);
        AttemptAdds(run, a, script[0]);
      }
      RunLeavesOtherDirectories(next, o, target, script[1..], other);
    }
  }

  lemma DictatedDirectory(m: Model, o: Origin, target: string, a: Action, other: string)
    requires Dictated(m, o, target, a) && other != target && PrivateName(o, other)
    ensures a.destination.directory != other
  {
  }

  lemma AttemptAdds(run: Run, a: Action, e: Event)
    requires Applicable(run.model, a)
    ensures forall p :: p in Attempt(run, a, e).files ==> p in run.files || p == a.destination
  {
    hide Verified, Apply;
  }

  lemma FreshStaysFresh(w: World, o: Origin, a: Attempted, target: string)
    requires FreshTarget(w, o, target)
    ensures FreshTarget(After(w, o, a), o, target)
  {
    hide Verified, StartSlots, LoadChain, IsRunName;
    if Begins(w, o, a) && target !in w.store && target != Target(w, o, a) {
      var chain := Admit(w, o, a.source).value;
      SourceIsFree(chain.model, o, Evidence(w, o, a.source, a.surroundings));
      RunLeavesOtherDirectories(StartOf(w, o, a), o, Target(w, o, a), a.script, target);
    }
  }

  lemma NamesStayFresh(w: World, o: Origin, a: Attempted)
    requires FreshNames(w, o)
    ensures FreshNames(After(w, o, a), o)
  {
    hide FreshTarget, After;
    forall name | IsRecovery(name)
      ensures FreshTarget(After(w, o, a), o, name)
    {
      FreshStaysFresh(w, o, a, name);
    }
  }

  /** Any number of attempts, each from any stored run, under any surroundings and ended in any way, keeps
      records and disk consistent and the same originals recorded. */
  lemma {:induction false} SeriesKeepsConsistent(w: World, o: Origin, was: Model, now: Model, attempts: seq<Attempted>) returns (next: Model)
    requires Consistent(w, o, was, now) && FreshNames(w, o)
    ensures Consistent(AfterAll(w, o, attempts), o, was, next) && FreshNames(AfterAll(w, o, attempts), o)
    decreases |attempts|
  {
    hide FreshNames, After, Consistent;
    next := now;
    if attempts != [] {
      var k := |attempts| - 1;
      next := SeriesKeepsConsistent(w, o, was, now, attempts[..k]);
      TargetIsFresh(AfterAll(w, o, attempts[..k]), o, attempts[k]);
      NamesStayFresh(AfterAll(w, o, attempts[..k]), o, attempts[k]);
      next := AttemptKeepsConsistent(AfterAll(w, o, attempts[..k]), o, was, next, attempts[k]);
    }
  }

  lemma HomeOfSame(a: Model, b: Model, files: Files, o: Origin)
    requires |a.objects| == |o.objects| && SameOriginals(a, b) && OriginalsHome(b, files, o)
    ensures OriginalsHome(a, files, o)
  {
  }

  lemma ConsistentCounts(w: World, o: Origin, was: Model, now: Model)
    requires Consistent(w, o, was, now)
    ensures |was.objects| == |o.objects|
  {
  }

  /** Whatever attempts came before, an attempt that the loader and the first look at the disk accept, and
      that completes, brings every original home; and it completes when the environment confirms every move. */
  lemma AdmittedAttemptRestores(w: World, o: Origin, was: Model, now: Model, a: Attempted)
    requires Consistent(w, o, was, now) && Begins(w, o, a) && FreshTarget(w, o, Target(w, o, a))
    ensures |was.objects| == |o.objects|
    ensures var run, model := RunOf(w, o, a), Admit(w, o, a.source).value.model;
      && (run.status == Completed ==> OriginalsHome(was, run.files, o))
      && (AllConfirm(a.script) ==> run.status == if |a.script| > Outstanding(model) then Completed else Stopped)
  {
    ConsistentCounts(w, o, was, now);
    hide Consistent, FreshTarget, Settled, Advanced, Safe, SlotsWatched, Readable, SameOriginals, OriginalsHome, StartSlots, Verified, LoadChain, Drive;
    var next := AttemptSettles(w, o, was, now, a);
    var start := StartOf(w, o, a);
    var roots := w.store.Keys + {Target(w, o, a)};
    if AllConfirm(a.script) {
      ConfirmedRunCompletes(start, o, roots, Target(w, o, a), a.script);
    }
    if RunOf(w, o, a).status == Completed {
      CompletedRunRestores(start.model, w.files, start.slots, o, roots, Target(w, o, a), a.script);
      SameCounts(was, start.model);
      HomeOfSame(was, start.model, RunOf(w, o, a).files, o);
    }
  }

  lemma SameCounts(a: Model, b: Model)
    requires SameOriginals(a, b)
    ensures |a.objects| == |b.objects|
  {
  }

  /** The same after any series of attempts. */
  lemma SeriesRestores(w: World, o: Origin, was: Model, now: Model, attempts: seq<Attempted>, last: Attempted)
    requires Consistent(w, o, was, now) && FreshNames(w, o)
    ensures |was.objects| == |o.objects|
    ensures var before := AfterAll(w, o, attempts);
      Begins(before, o, last) ==>
        var run, model := RunOf(before, o, last), Admit(before, o, last.source).value.model;
        && (run.status == Completed ==> OriginalsHome(was, run.files, o))
        && (AllConfirm(last.script) && |last.script| > Outstanding(model) ==> run.status == Completed)
  {
    ConsistentCounts(w, o, was, now);
    hide Consistent, FreshNames, After, RunOf, Admit, OriginalsHome;
    var next := SeriesKeepsConsistent(w, o, was, now, attempts);
    var before := AfterAll(w, o, attempts);
    TargetIsFresh(before, o, last);
    if Begins(before, o, last) {
      AdmittedAttemptRestores(before, o, was, next, last);
    }
  }

  // ---- Unchanged surroundings ----

  // Under these surroundings every stored run that loads, but the newest, has had its attempt.
  ghost predicate Spent(w: World, o: Origin, surroundings: string, newest: string) {
    && newest in w.store
    && forall run :: run in w.store && run != newest ==> HadAttempt(w, o, surroundings, run)
  }

  ghost predicate HadAttempt(w: World, o: Origin, surroundings: string, run: string) {
    var r := LoadChain(w.store, w.hash, o, run, {});
    r.Ok? ==> RunName(w.hash(Fresh(r.value, run, surroundings))) in w.store
  }

  // So only the newest run can have another.
  lemma OnlyNewestBegins(w: World, o: Origin, surroundings: string, newest: string, source: string)
    requires Spent(w, o, surroundings, newest) && CanBegin(w, o, source, surroundings)
    ensures source == newest
  {
    hide LoadChain, Verified, StartSlots, RunName;
    SourceIsStored(w, o, source);
    assert source != newest ==> HadAttempt(w, o, surroundings, source);
  }

  lemma AttemptSpends(w: World, o: Origin, surroundings: string, newest: string, a: Attempted)
    requires Closed(w.store) && Spent(w, o, surroundings, newest) && a.surroundings == surroundings
    ensures Begins(w, o, a) ==> Spent(After(w, o, a), o, surroundings, Target(w, o, a))
    ensures !Begins(w, o, a) ==> After(w, o, a) == w
  {
    hide Admit, RunOf, Evidence, RunName, LoadChain;
    if Begins(w, o, a) {
      OnlyNewestBegins(w, o, surroundings, newest, a.source);
      var after, target := After(w, o, a), Target(w, o, a);
      forall run | run in after.store && run != target
        ensures HadAttempt(after, o, surroundings, run)
      {
        LoadIgnoresLater(w.store, w.hash, o, run, {}, target, after.store[target]);
        if run == newest {
          EvidenceIs(w, o, a);
        } else {
          assert HadAttempt(w, o, surroundings, run);
        }
      }
    }
  }

  lemma EvidenceIs(w: World, o: Origin, a: Attempted)
    requires Admit(w, o, a.source).Ok?
    ensures var r := LoadChain(w.store, w.hash, o, a.source, {});
      r.Ok? && r.value.data != [] && Target(w, o, a) == RunName(w.hash(Fresh(r.value, a.source, a.surroundings)))
  {
    hide LoadChain, Verified, StartSlots, RunName;
  }

  ghost predicate AllUnder(attempts: seq<Attempted>, surroundings: string) {
    forall k :: 0 <= k < |attempts| ==> attempts[k].surroundings == surroundings
  }

  lemma {:induction false} SeriesSpends(w: World, o: Origin, was: Model, now: Model, surroundings: string, first: string, attempts: seq<Attempted>)
    returns (newest: string)
    requires Consistent(w, o, was, now) && FreshNames(w, o) && Spent(w, o, surroundings, first) && AllUnder(attempts, surroundings)
    ensures Spent(AfterAll(w, o, attempts), o, surroundings, newest)
    decreases |attempts|
  {
    hide Consistent, FreshNames, Spent, After, Begins;
    newest := first;
    if attempts != [] {
      var k := |attempts| - 1;
      newest := SeriesSpends(w, o, was, now, surroundings, first, attempts[..k]);
      var before := AfterAll(w, o, attempts[..k]);
      var next := SeriesKeepsConsistent(w, o, was, now, attempts[..k]);
      ConsistentIsClosed(before, o, was, next);
      AttemptSpends(before, o, surroundings, newest, attempts[k]);
      if Begins(before, o, attempts[k]) {
        newest := Target(before, o, attempts[k]);
      }
    }
  }

  lemma ConsistentIsClosed(w: World, o: Origin, was: Model, now: Model)
    requires Consistent(w, o, was, now)
    ensures Closed(w.store)
  {
  }

  /** While the surroundings stay the same every run is attempted at most once. So after any series of attempts
      and one more, something can still be recovered exactly if that one stopped between moves on a chain of at
      most seven runs: an attempt that ends inside a move, or is recorded unknown, even before its first
      rename, is the last. */
  lemma UnchangedSurroundings(w: World, o: Origin, was: Model, now: Model, surroundings: string, first: string,
                              attempts: seq<Attempted>, a: Attempted)
    requires Consistent(w, o, was, now) && FreshNames(w, o) && NamesBound(w) && Injective(w.hash)
    requires Spent(w, o, surroundings, first) && AllUnder(attempts, surroundings) && a.surroundings == surroundings
    ensures var before := AfterAll(w, o, attempts);
      Begins(before, o, a) ==>
        (Recoverable(After(before, o, a), o, {surroundings}) <==>
           RunOf(before, o, a).status in {Stopped, Completed} && |Admit(before, o, a.source).value.roots| <= 7)
  {
    hide Consistent, FreshNames, NamesBound, Injective, Spent, After, FreshTarget, Admit, RunOf, Target, CanBegin;
    var before := AfterAll(w, o, attempts);
    var next := SeriesKeepsConsistent(w, o, was, now, attempts);
    var newest := SeriesSpends(w, o, was, now, surroundings, first, attempts);
    SeriesIsBound(w, o, attempts);
    SameHashAfterAll(w, o, attempts);
    TargetIsFresh(before, o, a);
    if Begins(before, o, a) {
      RecoverableExactly(before, o, was, next, a, {surroundings});
      if HadAnother(before, o, a, {surroundings}) {
        var source, s :| s in {surroundings} && CanBegin(before, o, source, s)
          && Target(before, o, Attempted(source, s, [])) != Target(before, o, a);
        OnlyNewestBegins(before, o, surroundings, newest, source);
        OnlyNewestBegins(before, o, surroundings, newest, a.source);
        TargetIgnoresScript(before, o, a);
      }
    }
  }

  lemma TargetIgnoresScript(w: World, o: Origin, a: Attempted)
    ensures Target(w, o, Attempted(a.source, a.surroundings, [])) == Target(w, o, a)
  {
  }

  lemma {:induction false} SameHashAfterAll(w: World, o: Origin, attempts: seq<Attempted>)
    ensures AfterAll(w, o, attempts).hash == w.hash
    decreases |attempts|
  {
    hide After;
    if attempts != [] {
      var k := |attempts| - 1;
      SameHashAfterAll(w, o, attempts[..k]);
      SameHash(AfterAll(w, o, attempts[..k]), o, attempts[k]);
    }
  }
}
