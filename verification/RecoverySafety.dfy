// Where a recovery run's objects are on disk: the invariant every reachable state keeps.
module RecoverySafety {
  import opened Wrappers
  import opened GuardedFiles
  import opened RecoveryModel

  /** The plan's live names are pairwise distinct and lie outside every private run directory. */
  ghost predicate LiveScope(o: Origin, roots: set<string>) {
    && (forall i, k :: 0 <= i < k < |o.objects| ==> o.objects[i].live != o.objects[k].live)
    && (forall i :: 0 <= i < |o.objects| ==> o.objects[i].live.directory !in roots)
    && o.root !in roots && o.binDirectory !in roots
  }

  // Where a row's entry may be: live while it is in use, in a run directory once moved aside.
  ghost predicate Sited(m: Model, o: Origin, roots: set<string>)
    requires WellFormed(m, o)
  {
    && (forall i :: 0 <= i < |m.objects| ==>
          if IsPreserved(m.objects[i]) then m.objects[i].original.place.directory in roots
          else m.objects[i].original.place == o.objects[i].live)
    && (forall i :: 0 <= i < |m.objects| && m.objects[i].workingEntry.Some? ==>
          if IsLive(m.objects[i].working) then m.objects[i].workingEntry.value.place == o.objects[i].live
          else m.objects[i].workingEntry.value.place.directory in roots)
    && (forall j :: 0 <= j < |m.generated| && m.generated[j].entry.Some? ==>
          if IsInstalled(m.generated[j]) then m.generated[j].entry.value.place == GeneratedPlace(o, j)
          else m.generated[j].entry.value.place.directory in roots)
  }

  ghost predicate LocationsDistinct(m: Model) {
    forall s, t :: At(m, s).Some? && At(m, t).Some? && s != t ==> At(m, s).value.place != At(m, t).value.place
  }

  ghost predicate OnDisk(m: Model, files: Files) {
    forall s :: At(m, s).Some? ==> At(m, s).value.place in files && files[At(m, s).value.place] == At(m, s).value.tree
  }

  // Names the runs use in their private directories: retired objects and preserved originals.
  ghost predicate IsRunName(o: Origin, name: string) {
    "used-" <= name || exists i :: 0 <= i < |o.objects| && name == o.objects[i].backupName
  }

  // The names a run watches: every live name, npm's lock file when there was none, and in the directory of
  // every run every name that runs use there.
  ghost predicate Watched(o: Origin, roots: set<string>, p: Place) {
    || (exists i :: 0 <= i < |o.objects| && p == o.objects[i].live)
    || (exists j :: 0 <= j <= |o.leaves| && p == GeneratedPlace(o, j))
    || o.absentLock == Some(p)
    || (p.directory in roots && IsRunName(o, p.name))
  }

  ghost predicate IsRecorded(m: Model, p: Place) {
    exists s :: At(m, s).Some? && At(m, s).value.place == p
  }

  ghost predicate NothingUnknown(m: Model, files: Files, o: Origin, roots: set<string>) {
    forall p :: p in files && Watched(o, roots, p) ==> IsRecorded(m, p)
  }

  // Where this run puts an object it retires.
  function RetiredPlace(o: Origin, target: string, s: Slot): Place {
    match s
    case GeneratedSlot(j) => Place(target, "used-" + BackupName(GeneratedName(o, j), j))
    case WorkingSlot(i) => Place(target, "used-working-" + if i < |o.objects| then o.objects[i].step else "")
    case OriginalSlot(_) => Place(target, "")
  }

  // Whatever already is in the run's own directory was put there by this run.
  ghost predicate OwnDirectory(m: Model, o: Origin, target: string) {
    forall s :: At(m, s).Some? && At(m, s).value.place.directory == target ==> At(m, s).value.place == RetiredPlace(o, target, s)
  }

  // Locations are distinct, hold exactly the recorded objects, and no watched name holds anything else.
  ghost predicate Placed(m: Model, files: Files, o: Origin, roots: set<string>, target: string) {
    && LocationsDistinct(m)
    && OnDisk(m, files)
    && NothingUnknown(m, files, o, roots)
    && OwnDirectory(m, o, target)
  }

  ghost predicate Safe(m: Model, files: Files, o: Origin, roots: set<string>, target: string) {
    && WellFormed(m, o)
    && target in roots
    && LiveScope(o, roots)
    && Sited(m, o, roots)
    && Placed(m, files, o, roots, target)
  }

  // One object changes its place: nothing stood there before, and nothing stays behind.
  lemma PutEntry(m: Model, files: Files, after: Model, files': Files, o: Origin, roots: set<string>, target: string, s: Slot, e: Entry)
    requires Placed(m, files, o, roots, target)
    requires forall t :: At(after, t) == if t == s then Some(e) else At(m, t)
    requires e.place !in files
    requires files' == (if At(m, s).Some? then files - {At(m, s).value.place} else files)[e.place := e.tree]
    requires e.place.directory == target ==> e.place == RetiredPlace(o, target, s)
    ensures Placed(after, files', o, roots, target)
  {
    forall t | At(after, t).Some?
      ensures At(after, t).value.place in files' && files'[At(after, t).value.place] == At(after, t).value.tree
    {
      if t != s && At(m, s).Some? {
        assert At(m, t).value.place != At(m, s).value.place;
      }
    }
    forall p | p in files' && Watched(o, roots, p) ensures IsRecorded(after, p) {
      if p == e.place {
        assert At(after, s).Some? && At(after, s).value.place == p;
      } else {
        var t :| At(m, t).Some? && At(m, t).value.place == p;
        assert At(after, t).Some? && At(after, t).value.place == p;
      }
    }
  }

  // Some objects vanish or change in place; everything else is as before.
  lemma RemoveEntries(m: Model, files: Files, after: Model, files': Files, o: Origin, roots: set<string>, target: string)
    requires Placed(m, files, o, roots, target)
    requires forall p :: p in files' ==> p in files
    requires forall t :: At(after, t).Some? ==>
      && At(m, t).Some? && At(m, t).value.place == At(after, t).value.place
      && At(after, t).value.place in files' && files'[At(after, t).value.place] == At(after, t).value.tree
    requires forall t :: At(m, t).Some? && At(after, t).None? ==> At(m, t).value.place !in files'
    ensures Placed(after, files', o, roots, target)
  {
    forall p | p in files' && Watched(o, roots, p) ensures IsRecorded(after, p) {
      var t :| At(m, t).Some? && At(m, t).value.place == p;
      assert At(after, t).Some?;
    }
    forall s, t | At(after, s).Some? && At(after, t).Some? && s != t
      ensures At(after, s).value.place != At(after, t).value.place
    {
      assert At(m, s).value.place != At(m, t).value.place;
    }
    forall s | At(after, s).Some? && At(after, s).value.place.directory == target
      ensures At(after, s).value.place == RetiredPlace(o, target, s)
    {
      assert At(m, s).Some?;
    }
  }

  lemma RetiredPlacesDiffer(o: Origin, target: string, s: Slot, t: Slot)
    requires s != t && !s.OriginalSlot? && !t.OriginalSlot?
    requires s.WorkingSlot? ==> s.index < |o.objects|
    requires t.WorkingSlot? ==> t.index < |o.objects|
    requires s.GeneratedSlot? ==> s.index <= |o.leaves|
    requires t.GeneratedSlot? ==> t.index <= |o.leaves|
    requires "shell" !in o.leaves
    requires forall i, k :: 0 <= i < k < |o.objects| ==> o.objects[i].step != o.objects[k].step
    ensures RetiredPlace(o, target, s) != RetiredPlace(o, target, t)
  {
    if s.GeneratedSlot? && t.GeneratedSlot? {
      BackupNamesDiffer(o, s.index, t.index);
      PrefixDiffers("used-", BackupName(GeneratedName(o, s.index), s.index), BackupName(GeneratedName(o, t.index), t.index));
    } else if s.WorkingSlot? && t.WorkingSlot? {
      PrefixDiffers("used-working-", o.objects[s.index].step, o.objects[t.index].step);
    } else {
      var g := RetiredPlace(o, target, if s.GeneratedSlot? then s else t).name;
      var w := RetiredPlace(o, target, if s.GeneratedSlot? then t else s).name;
      assert g[5] == 'g' && w[5] == 'w';
    }
  }

  lemma BackupNamesDiffer(o: Origin, j: nat, k: nat)
    requires j <= |o.leaves| && k <= |o.leaves| && j != k && "shell" !in o.leaves
    ensures BackupName(GeneratedName(o, j), j) != BackupName(GeneratedName(o, k), k)
  {
    assert j < |o.leaves| ==> o.leaves[j] in o.leaves;
    assert k < |o.leaves| ==> o.leaves[k] in o.leaves;
    DecimalDigits(j);
    DecimalDigits(k);
    var shell := "shell";
    assert shell[0] == 's';
    PrefixDiffers("generated-", Decimal(j), shell);
    PrefixDiffers("generated-", Decimal(k), shell);
    DecimalDiffers(j, k);
    PrefixDiffers("generated-", Decimal(j), Decimal(k));
    assert "generated-shell" == "generated-" + shell;
  }

  lemma RetirementPlace(m: Model, o: Origin, target: string, a: Action)
    requires WellFormed(m, o) && Dictated(m, o, target, a) && !a.slot.OriginalSlot?
    ensures a.destination == RetiredPlace(o, target, a.slot)
    ensures "used-" <= a.destination.name
  {
    if a.slot.GeneratedSlot? {
      assert CoherentGenerated(m.generated[a.slot.index], o, a.slot.index);
    } else {
      assert CoherentObject(m.objects[a.slot.index], o.objects[a.slot.index]);
      assert a.destination.name == "used-" + ("working-" + o.objects[a.slot.index].step);
    }
  }

  // Which slots exist in a well-formed model.
  lemma SlotBounds(m: Model, o: Origin, s: Slot)
    requires WellFormed(m, o) && At(m, s).Some?
    ensures s.GeneratedSlot? ==> s.index <= |o.leaves|
    ensures !s.GeneratedSlot? ==> s.index < |o.objects|
  {
  }

  // Nothing but an original is live once nothing generated or working is.
  lemma OnlyOriginalsLive(m: Model, o: Origin, roots: set<string>, s: Slot)
    requires WellFormed(m, o) && Sited(m, o, roots) && At(m, s).Some?
    requires forall j :: 0 <= j < |m.generated| ==> !IsInstalled(m.generated[j])
    requires forall k :: 0 <= k < |m.objects| ==> !HasLiveWorking(m.objects[k])
    ensures !s.OriginalSlot? ==> At(m, s).value.place.directory in roots
  {
  }

  // No recorded object stands where the dictated move goes.
  lemma DestinationUnrecorded(m: Model, files: Files, o: Origin, roots: set<string>, target: string, a: Action, t: Slot)
    requires Safe(m, files, o, roots, target) && Dictated(m, o, target, a)
    requires At(m, t).Some?
    ensures At(m, t).value.place != a.destination
  {
    SlotBounds(m, o, t);
    if a.slot.OriginalSlot? {
      // A restore: everything else that was ever live is home or in a run directory.
      OnlyOriginalsLive(m, o, roots, t);
      assert a.destination.directory !in roots;
    } else {
      RetirementPlace(m, o, target, a);
      SlotBounds(m, o, a.slot);
      assert At(m, a.slot).Some? && At(m, a.slot).value.place.directory !in roots by {
        if a.slot.GeneratedSlot? {
          assert CoherentGenerated(m.generated[a.slot.index], o, a.slot.index);
        } else {
          assert CoherentObject(m.objects[a.slot.index], o.objects[a.slot.index]);
        }
      }
      if At(m, t).value.place.directory == target {
        assert At(m, t).value.place == RetiredPlace(o, target, t);
        if !t.OriginalSlot? {
          RetiredPlacesDiffer(o, target, t, a.slot);
        }
      }
    }
  }

  /** Every move a recovery run makes has a vacant destination. */
  lemma DestinationIsVacant(m: Model, files: Files, o: Origin, roots: set<string>, target: string, a: Action)
    requires Safe(m, files, o, roots, target) && Dictated(m, o, target, a)
    ensures At(m, a.slot).Some?
    ensures CanMove(files, At(m, a.slot).value.place, a.destination)
  {
    if a.slot.GeneratedSlot? {
      assert CoherentGenerated(m.generated[a.slot.index], o, a.slot.index);
    } else {
      assert CoherentObject(m.objects[a.slot.index], o.objects[a.slot.index]);
      if a.slot.OriginalSlot? {
        assert a.destination == o.objects[a.slot.index].live;
      }
    }
    if !a.slot.OriginalSlot? {
      RetirementPlace(m, o, target, a);
    }
    assert Watched(o, roots, a.destination);
    if a.destination in files {
      var t :| At(m, t).Some? && At(m, t).value.place == a.destination;
      DestinationUnrecorded(m, files, o, roots, target, a, t);
    }
  }

  lemma ApplyAt(m: Model, a: Action, changed: nat, s: Slot)
    requires Applicable(m, a)
    ensures At(Apply(m, a, changed), s)
      == if s == a.slot then Some(Entry(a.destination, At(m, a.slot).value.tree.(changed := changed))) else At(m, s)
  {
  }

  /** A dictated move keeps the locations distinct, on disk, and where their states say they are. */
  lemma ApplyKeepsSafe(m: Model, files: Files, o: Origin, roots: set<string>, target: string, a: Action, changed: nat)
    requires Safe(m, files, o, roots, target) && Dictated(m, o, target, a) && Applicable(m, a)
    requires CanMove(files, At(m, a.slot).value.place, a.destination)
    ensures Safe(Apply(m, a, changed), Move(files, At(m, a.slot).value.place, a.destination, changed), o, roots, target)
  {
    var after := Apply(m, a, changed);
    var known := At(m, a.slot).value;
    var moved := Entry(a.destination, known.tree.(changed := changed));
    forall t ensures At(after, t) == if t == a.slot then Some(moved) else At(m, t) {
      ApplyAt(m, a, changed, t);
    }
    assert a.destination.directory == target ==> a.destination == RetiredPlace(o, target, a.slot) by {
      if a.slot.OriginalSlot? {
        assert a.destination == o.objects[a.slot.index].live;
      } else {
        RetirementPlace(m, o, target, a);
      }
    }
    PutEntry(m, files, after, Move(files, known.place, a.destination, changed), o, roots, target, a.slot, moved);
    ApplyKeepsSited(m, o, roots, target, a, changed);
  }

  lemma ApplyKeepsSited(m: Model, o: Origin, roots: set<string>, target: string, a: Action, changed: nat)
    requires WellFormed(m, o) && target in roots && Sited(m, o, roots)
    requires Dictated(m, o, target, a) && Applicable(m, a)
    ensures WellFormed(Apply(m, a, changed), o)
    ensures Sited(Apply(m, a, changed), o, roots)
  {
    ApplyKeepsWellFormed(m, o, target, a, changed);
    var after := Apply(m, a, changed);
    forall i | 0 <= i < |m.objects| ensures CoherentObject(m.objects[i], o.objects[i]) {}
  }

  // ---- The end of a completed run ----

  /** Every original is at its own name with the identity and contents `was` recorded for it, and no
      other object is at a live name. */
  ghost predicate OriginalsHome(was: Model, files: Files, o: Origin)
    requires |was.objects| == |o.objects|
  {
    && (forall i :: 0 <= i < |o.objects| ==>
          o.objects[i].live in files && SameObject(files[o.objects[i].live], was.objects[i].original.tree))
    && (forall j :: 0 <= j <= |o.leaves| && GeneratedPlace(o, j) in files ==>
          exists i :: 0 <= i < |o.objects| && GeneratedPlace(o, j) == o.objects[i].live)
  }

  // The same originals, up to the root change time of the last rename.
  ghost predicate SameOriginals(a: Model, b: Model) {
    && |a.objects| == |b.objects|
    && forall i :: 0 <= i < |a.objects| ==> SameObject(a.objects[i].original.tree, b.objects[i].original.tree)
  }

  lemma NothingLeftMeansHome(was: Model, m: Model, files: Files, o: Origin, roots: set<string>, target: string)
    requires Safe(m, files, o, roots, target) && Outstanding(m) == 0 && SameOriginals(was, m)
    ensures OriginalsHome(was, files, o)
  {
    NoneOutstanding(m, o);
    forall i | 0 <= i < |o.objects|
      ensures o.objects[i].live in files && SameObject(files[o.objects[i].live], was.objects[i].original.tree)
    {
      assert IsHome(m.objects[i].state);
      assert At(m, OriginalSlot(i)) == Some(m.objects[i].original);
    }
    forall j | 0 <= j <= |o.leaves| && GeneratedPlace(o, j) in files
      ensures exists i :: 0 <= i < |o.objects| && GeneratedPlace(o, j) == o.objects[i].live
    {
      var p := GeneratedPlace(o, j);
      assert Watched(o, roots, p);
      var s :| At(m, s).Some? && At(m, s).value.place == p;
      OnlyOriginalsLive(m, o, roots, s);
      assert IsHome(m.objects[s.index].state);
    }
  }
}
