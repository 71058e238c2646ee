// Every place where the forward migration can stop leaves a state that recovery can start from.
module MigrationSafety {
  import opened Wrappers
  import opened GuardedFiles
  import opened RecoveryModel
  import opened RecoverySafety
  import opened GlobalMigration

  // The model that the recorded objects stand for.
  function ModelOf(g: Migration, o: Origin, run: string, source: string): Model {
    Project(g.saved, g.shell, o, run, source)
  }

  ghost predicate ForwardRow(row: Saved, spec: Spec, seed: Tree) {
    && row.spec == spec
    && SameObject(row.rows, seed)
    && row.state in {Original, Preserved}
    && (row.working.Some? ==>
          && row.state == Preserved
          && row.working.value.status in {Known, AfterKnown, Absent}
          && (row.working.value.rows.None? <==> row.working.value.status == Absent)
          && (row.working.value.rows.Some? ==> ContainedIn(row.working.value.rows.value, seed)))
  }

  ghost predicate ForwardShellRow(row: ShellRow, o: Origin, j: nat) {
    && row.name == GeneratedName(o, j)
    && row.status in {NotInstalled, Installed}
    && (row.rows.None? <==> row.status == NotInstalled)
    && (j < |o.leaves| && row.rows.Some? ==> row.rows.value.contents == WrapperContents(o, j))
  }

  ghost predicate Shape(g: Migration, o: Origin, seeds: seq<Tree>) {
    && |g.saved| == |o.objects| == |seeds|
    && |g.shell| == |o.leaves| + 1
    && (forall i :: 0 <= i < |g.saved| ==> ForwardRow(g.saved[i], o.objects[i], seeds[i]))
    && (forall j :: 0 <= j < |g.shell| ==> ForwardShellRow(g.shell[j], o, j))
  }

  // npm's lock file, where there was none, is no object of the plan and in no directory of a run.
  ghost predicate LockApart(o: Origin, roots: set<string>) {
    o.absentLock.Some? ==>
      && o.absentLock.value.directory !in roots
      && (forall i :: 0 <= i < |o.objects| ==> o.objects[i].live != o.absentLock.value)
      && (forall j :: 0 <= j <= |o.leaves| ==> GeneratedPlace(o, j) != o.absentLock.value)
  }

  ghost predicate ValidOrigin(o: Origin, run: string, target: string) {
    && LiveScope(o, {run, target})
    && run != target
    && LockApart(o, {run, target})
    && (forall i, k :: 0 <= i < k < |o.objects| ==> o.objects[i].step != o.objects[k].step)
    && (forall j, k :: 0 <= j < k <= |o.leaves| ==> GeneratedName(o, j) != GeneratedName(o, k))
    && "shell" !in o.leaves
  }

  // Shape, and every recorded object on disk where the record says.
  ghost predicate Sound(g: Migration, o: Origin, run: string, target: string, source: string, seeds: seq<Tree>) {
    Shape(g, o, seeds) && Placed(ModelOf(g, o, run, source), g.files, o, {run, target}, target)
  }

  lemma SoundIsSafe(g: Migration, o: Origin, run: string, target: string, source: string, seeds: seq<Tree>)
    requires ValidOrigin(o, run, target) && Sound(g, o, run, target, source, seeds)
    ensures Safe(ModelOf(g, o, run, source), g.files, o, {run, target}, target)
    ensures Sited(ModelOf(g, o, run, source), o, {run})
  {
    var m := ModelOf(g, o, run, source);
    forall i | 0 <= i < |m.objects| ensures CoherentObject(m.objects[i], o.objects[i]) {
      assert ForwardRow(g.saved[i], o.objects[i], seeds[i]);
    }
    forall j | 0 <= j < |m.generated| ensures CoherentGenerated(m.generated[j], o, j) {
      assert ForwardShellRow(g.shell[j], o, j);
    }
    assert WellFormed(m, o);
    forall i | 0 <= i < |m.objects|
      ensures if IsPreserved(m.objects[i]) then m.objects[i].original.place.directory == run
              else m.objects[i].original.place == o.objects[i].live
      ensures m.objects[i].workingEntry.Some? ==> IsLive(m.objects[i].working) && m.objects[i].workingEntry.value.place == o.objects[i].live
    {
      assert ForwardRow(g.saved[i], o.objects[i], seeds[i]);
    }
    forall j | 0 <= j < |m.generated| && m.generated[j].entry.Some?
      ensures IsInstalled(m.generated[j]) && m.generated[j].entry.value.place == GeneratedPlace(o, j)
    {
      assert ForwardShellRow(g.shell[j], o, j);
    }
  }

  // ---- Each confirmed operation ----

  lemma RetainKeepsSound(g: Migration, o: Origin, run: string, target: string, source: string, seeds: seq<Tree>, i: nat, e: Event)
    requires ValidOrigin(o, run, target) && Sound(g, o, run, target, source, seeds)
    requires i < |g.saved| && g.saved[i].state == Original && e.Moved?
    requires CanMove(g.files, g.saved[i].spec.live, BackupPlace(run, g.saved[i].spec))
    ensures Sound(RetainStep(g, run, i, e), o, run, target, source, seeds)
  {
    hide Placed;
    var after := RetainStep(g, run, i, e);
    var row := g.saved[i];
    assert ForwardRow(row, o.objects[i], seeds[i]);
    var m, m' := ModelOf(g, o, run, source), ModelOf(after, o, run, source);
    var moved := Entry(BackupPlace(run, row.spec), row.rows.(changed := e.changed));
    forall t ensures At(m', t) == if t == OriginalSlot(i) then Some(moved) else At(m, t) {}
    assert At(m, OriginalSlot(i)) == Some(Entry(row.spec.live, row.rows));
    assert g.files[row.spec.live] == row.rows by {
      OnDiskAt(m, g.files, o, {run, target}, target, OriginalSlot(i));
    }
    PutEntry(m, g.files, m', after.files, o, {run, target}, target, OriginalSlot(i), moved);
  }

  lemma OnDiskAt(m: Model, files: Files, o: Origin, roots: set<string>, target: string, s: Slot)
    requires Placed(m, files, o, roots, target) && At(m, s).Some?
    ensures At(m, s).value.place in files && files[At(m, s).value.place] == At(m, s).value.tree
  {
  }

  lemma CopyKeepsSound(g: Migration, o: Origin, run: string, runId: string, target: string, source: string, seeds: seq<Tree>, i: nat, e: Event)
    requires ValidOrigin(o, run, target) && Sound(g, o, run, target, source, seeds)
    requires i < |g.saved| && g.saved[i].state == Preserved && g.saved[i].working.None? && e.Copied?
    requires g.saved[i].spec.live !in g.files
    requires CopyStep(g, run, runId, i, e).status == g.status == Advancing
    ensures Sound(CopyStep(g, run, runId, i, e), o, run, target, source, seeds)
  {
    hide Placed;
    var after := CopyStep(g, run, runId, i, e);
    var row := g.saved[i];
    assert ForwardRow(row, o.objects[i], seeds[i]);
    var m, m' := ModelOf(g, o, run, source), ModelOf(after, o, run, source);
    var copy := Entry(row.spec.live, Tree(e.identity, e.changed, row.rows.contents));
    forall t ensures At(m', t) == if t == WorkingSlot(i) then Some(copy) else At(m, t) {}
    PutEntry(m, g.files, m', after.files, o, {run, target}, target, WorkingSlot(i), copy);
  }

  lemma PublishKeepsSound(g: Migration, o: Origin, run: string, target: string, source: string, seeds: seq<Tree>, j: nat, tree: Tree)
    requires ValidOrigin(o, run, target) && Sound(g, o, run, target, source, seeds)
    requires j < |g.shell| && g.shell[j].status == NotInstalled
    requires GeneratedPlace(o, j) !in g.files && (j < |o.leaves| ==> tree.contents == WrapperContents(o, j))
    ensures Sound(g.(shell := g.shell[j := g.shell[j].(status := Installed, rows := Some(tree))],
                     files := g.files[GeneratedPlace(o, j) := tree]), o, run, target, source, seeds)
  {
    hide Placed;
    var after := g.(shell := g.shell[j := g.shell[j].(status := Installed, rows := Some(tree))],
                    files := g.files[GeneratedPlace(o, j) := tree]);
    assert ForwardShellRow(g.shell[j], o, j);
    var m, m' := ModelOf(g, o, run, source), ModelOf(after, o, run, source);
    var wrapper := Entry(GeneratedPlace(o, j), tree);
    forall t ensures At(m', t) == if t == GeneratedSlot(j) then Some(wrapper) else At(m, t) {}
    PutEntry(m, g.files, m', after.files, o, {run, target}, target, GeneratedSlot(j), wrapper);
  }

  // What the uninstall leaves at each live name.
  lemma {:induction false} UninstallAt(files: Files, saved: seq<Saved>, survivors: seq<Option<Tree>>, i: nat)
    requires |saved| == |survivors| && i < |saved|
    requires forall a, b :: 0 <= a < b < |saved| ==> saved[a].spec.live != saved[b].spec.live
    ensures var after := AfterUninstall(files, saved, survivors);
      match survivors[i]
      case None => saved[i].spec.live !in after
      case Some(tree) => saved[i].spec.live in after && after[saved[i].spec.live] == tree
  {
    var n := |saved| - 1;
    if i < n {
      UninstallAt(files, saved[..n], survivors[..n], i);
      assert saved[n].spec.live != saved[i].spec.live;
    }
  }

  // The working copy of object i before and after the uninstall.
  lemma WorkingThroughUninstall(g: Migration, o: Origin, run: string, target: string, source: string, seeds: seq<Tree>, e: Event, i: nat)
    requires ValidOrigin(o, run, target) && Sound(g, o, run, target, source, seeds)
    requires Accounted(g.saved, e) && i < |g.saved|
    ensures var after := UninstallStep(g, o, e);
      var live := o.objects[i].live;
      && g.saved[i].spec.live == live && live in g.files
      && ForwardRow(after.saved[i], o.objects[i], seeds[i])
      && At(ModelOf(g, o, run, source), WorkingSlot(i)) == Some(Entry(live, g.saved[i].working.value.rows.value))
      && At(ModelOf(after, o, run, source), WorkingSlot(i)) == (match e.survivors[i] { case None => None case Some(left) => Some(Entry(live, left)) })
      && At(ModelOf(after, o, run, source), OriginalSlot(i)) == At(ModelOf(g, o, run, source), OriginalSlot(i))
  {
    hide Placed;
    assert ForwardRow(g.saved[i], o.objects[i], seeds[i]);
    assert Explained(g.saved[i], e.survivors[i]);
    assert HasKnownCopy(g.saved[i]);
    OnDiskAt(ModelOf(g, o, run, source), g.files, o, {run, target}, target, WorkingSlot(i));
  }

  lemma DistinctLives(g: Migration, o: Origin, run: string, target: string, seeds: seq<Tree>)
    requires ValidOrigin(o, run, target) && Shape(g, o, seeds)
    ensures forall a, b :: 0 <= a < b < |g.saved| ==> g.saved[a].spec.live != g.saved[b].spec.live
  {
    forall a, b | 0 <= a < b < |g.saved| ensures g.saved[a].spec.live != g.saved[b].spec.live {
      assert ForwardRow(g.saved[a], o.objects[a], seeds[a]) && ForwardRow(g.saved[b], o.objects[b], seeds[b]);
    }
  }

  // Originals and generated files are not where the uninstall works.
  lemma OtherSlotsUntouched(g: Migration, o: Origin, run: string, target: string, source: string, seeds: seq<Tree>, e: Event, t: Slot)
    requires ValidOrigin(o, run, target) && Sound(g, o, run, target, source, seeds)
    requires Accounted(g.saved, e)
    requires !t.WorkingSlot? && At(ModelOf(g, o, run, source), t).Some?
    ensures var after := UninstallStep(g, o, e);
      var place := At(ModelOf(g, o, run, source), t).value.place;
      && At(ModelOf(after, o, run, source), t) == At(ModelOf(g, o, run, source), t)
      && place in after.files && after.files[place] == g.files[place]
      && g.files[place] == At(ModelOf(g, o, run, source), t).value.tree
  {
    var m := ModelOf(g, o, run, source);
    if t.OriginalSlot? {
      WorkingThroughUninstall(g, o, run, target, source, seeds, e, t.index);
    }
    OnDiskAt(m, g.files, o, {run, target}, target, t);
    forall i | 0 <= i < |g.saved| ensures g.saved[i].spec.live != At(m, t).value.place {
      WorkingThroughUninstall(g, o, run, target, source, seeds, e, i);
      PlacesDiffer(m, g.files, o, {run, target}, target, WorkingSlot(i), t);
    }
  }

  lemma PlacesDiffer(m: Model, files: Files, o: Origin, roots: set<string>, target: string, s: Slot, t: Slot)
    requires Placed(m, files, o, roots, target) && s != t && At(m, s).Some? && At(m, t).Some?
    ensures At(m, s).value.place != At(m, t).value.place
  {
  }

  lemma NothingAppears(files: Files, saved: seq<Saved>, survivors: seq<Option<Tree>>)
    requires |saved| == |survivors|
    requires forall i :: 0 <= i < |saved| ==> saved[i].spec.live in files
    ensures forall p :: p in AfterUninstall(files, saved, survivors) ==> p in files
  {
    forall p | p in AfterUninstall(files, saved, survivors) ensures p in files {
      if i :| 0 <= i < |saved| && saved[i].spec.live == p {
        assert p in files;
      }
    }
  }

  lemma UninstallKeepsSound(g: Migration, o: Origin, run: string, target: string, source: string, seeds: seq<Tree>, e: Event)
    requires ValidOrigin(o, run, target) && Sound(g, o, run, target, source, seeds)
    requires Accounted(g.saved, e)
    ensures Sound(UninstallStep(g, o, e), o, run, target, source, seeds)
  {
    hide Placed, ForwardRow;
    var after := UninstallStep(g, o, e);
    var m, m' := ModelOf(g, o, run, source), ModelOf(after, o, run, source);
    forall i | 0 <= i < |g.saved|
      ensures g.saved[i].spec.live in g.files && ForwardRow(after.saved[i], o.objects[i], seeds[i])
    {
      WorkingThroughUninstall(g, o, run, target, source, seeds, e, i);
    }
    DistinctLives(g, o, run, target, seeds);
    NothingAppears(g.files, g.saved, e.survivors);
    forall t | At(m, t).Some?
      ensures At(m', t).Some? ==>
        && At(m, t).value.place == At(m', t).value.place
        && At(m', t).value.place in after.files && after.files[At(m', t).value.place] == At(m', t).value.tree
      ensures At(m', t).None? ==> At(m, t).value.place !in after.files
    {
      if t.WorkingSlot? {
        WorkingThroughUninstall(g, o, run, target, source, seeds, e, t.index);
        UninstallAt(g.files, g.saved, e.survivors, t.index);
      } else {
        OtherSlotsUntouched(g, o, run, target, source, seeds, e, t);
      }
    }
    forall t | At(m, t).None? ensures At(m', t).None? {
      if t.WorkingSlot? && t.index < |g.saved| {
        WorkingThroughUninstall(g, o, run, target, source, seeds, e, t.index);
      }
    }
    RemoveEntries(m, g.files, m', after.files, o, {run, target}, target);
  }
}
