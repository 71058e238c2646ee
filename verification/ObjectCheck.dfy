// The executor's own look at the disk before and after every move (managedGlobalRecoveryExecution.ts): each
// recorded object is where the record says, and no watched name holds anything else.
module ObjectCheck {
  import opened Wrappers
  import opened GuardedFiles
  import opened RecoveryModel
  import opened RecoverySafety

  function ObjectLocations(row: ObjectRow): seq<Entry> {
    [row.original] + if row.workingEntry.Some? then [row.workingEntry.value] else []
  }

  function AllObjectLocations(rows: seq<ObjectRow>): seq<Entry> {
    if rows == [] then [] else AllObjectLocations(rows[..|rows| - 1]) + ObjectLocations(rows[|rows| - 1])
  }

  function GeneratedLocations(rows: seq<GeneratedRow>): seq<Entry> {
    if rows == [] then []
    else
      var last := rows[|rows| - 1].entry;
      GeneratedLocations(rows[..|rows| - 1]) + (if last.Some? then [last.value] else [])
  }

  // `recoveryLocations`
  function RecoveryLocations(m: Model): seq<Entry> {
    AllObjectLocations(m.objects) + GeneratedLocations(m.generated)
  }

  function LivePlaces(o: Origin): set<Place> {
    set i | 0 <= i < |o.objects| :: o.objects[i].live
  }

  function BackupPlaces(o: Origin, migration: string): set<Place> {
    set i | 0 <= i < |o.objects| :: Place(migration, o.objects[i].backupName)
  }

  function StagedPlaces(m: Model, migration: string): set<Place> {
    set i | 0 <= i < |m.objects| && m.objects[i].working.Some? :: Place(migration, "used-" + m.objects[i].working.value.stagingName)
  }

  function GeneratedPlaces(o: Origin): set<Place> {
    set j | 0 <= j <= |o.leaves| :: GeneratedPlace(o, j)
  }

  // What a run retires into its own directory.
  function RetiredPlaces(o: Origin, root: string): set<Place> {
    (set i | 0 <= i < |o.objects| :: Place(root, "used-working-" + o.objects[i].step))
    + (set j | 0 <= j <= |o.leaves| :: Place(root, "used-" + BackupName(GeneratedName(o, j), j)))
  }

  function AllRetiredPlaces(o: Origin, roots: seq<string>): set<Place> {
    if roots == [] then {} else AllRetiredPlaces(o, roots[..|roots| - 1]) + RetiredPlaces(o, roots[|roots| - 1])
  }

  // `recoveryVacancySlots`: the names that hold a recorded object or nothing. The first run is the migration.
  function RecoveryVacancySlots(m: Model, o: Origin, roots: seq<string>): set<Place>
    requires roots != []
  {
    LivePlaces(o) + BackupPlaces(o, roots[0]) + StagedPlaces(m, roots[0]) + GeneratedPlaces(o)
    + (if o.absentLock.Some? then {o.absentLock.value} else {}) + AllRetiredPlaces(o, roots)
  }

  // What an executor starts from: also the staging names moved aside in the directory of its source run.
  function StartSlots(m: Model, o: Origin, roots: seq<string>): set<Place>
    requires roots != []
  {
    RecoveryVacancySlots(m, o, roots) + StagedPlaces(m, roots[|roots| - 1])
  }

  predicate IsOccupied(entries: seq<Entry>, p: Place) {
    exists i :: 0 <= i < |entries| && entries[i].place == p
  }

  predicate EntriesHold(entries: seq<Entry>, files: Files) {
    && (forall i, k :: 0 <= i < k < |entries| ==> entries[i].place != entries[k].place)
    && (forall i :: 0 <= i < |entries| ==> entries[i].place in files && files[entries[i].place] == entries[i].tree)
  }

  predicate SlotsVacant(entries: seq<Entry>, files: Files, slots: set<Place>) {
    forall p :: p in slots && p in files ==> IsOccupied(entries, p)
  }

  predicate Verified(m: Model, files: Files, slots: set<Place>) {
    EntriesHold(RecoveryLocations(m), files) && SlotsVacant(RecoveryLocations(m), files, slots)
  }

  // `verifyObjects`: the loop over recorded objects, then the loop over slots.
  method VerifyObjects(m: Model, files: Files, slots: set<Place>) returns (ok: bool)
    ensures ok == Verified(m, files, slots)
  {
    hide RecoveryLocations;
    var entries := RecoveryLocations(m);
    var occupied: set<Place> := {};
    for i := 0 to |entries|
      invariant forall p :: p in occupied <==> IsOccupied(entries[..i], p)
      invariant EntriesHold(entries[..i], files)
    {
      var known := entries[i];
      EntriesStep(entries, i, files);
      if known.place in occupied || known.place !in files || files[known.place] != known.tree {
        return false;
      }
      occupied := occupied + {known.place};
    }
    assert entries[..|entries|] == entries;
    var left := slots;
    while left != {}
      invariant left <= slots
      invariant forall p :: p in slots && p !in left && p in files ==> p in occupied
      decreases left
    {
      var p :| p in left;
      if p !in occupied && p in files {
        return false;
      }
      left := left - {p};
    }
    return true;
  }

  lemma EntriesStep(entries: seq<Entry>, i: nat, files: Files)
    requires i < |entries|
    ensures forall p :: IsOccupied(entries[..i + 1], p) <==> IsOccupied(entries[..i], p) || p == entries[i].place
    ensures EntriesHold(entries[..i + 1], files)
      <==> && EntriesHold(entries[..i], files) && !IsOccupied(entries[..i], entries[i].place)
           && entries[i].place in files && files[entries[i].place] == entries[i].tree
    ensures EntriesHold(entries, files) ==> EntriesHold(entries[..i + 1], files)
  {
    var more, less := entries[..i + 1], entries[..i];
    assert more[i] == entries[i] && forall k :: 0 <= k < i ==> more[k] == less[k] == entries[k];
    forall p
      ensures IsOccupied(more, p) <==> IsOccupied(less, p) || p == entries[i].place
    {
      if IsOccupied(less, p) {
        var k :| 0 <= k < i && less[k].place == p;
        assert more[k].place == p;
      }
    }
  }

  // ---- The list of locations and the recorded slots ----

  // One slot for every entry of the list.
  function ObjectSlots(rows: seq<ObjectRow>): (r: seq<Slot>)
    ensures |r| == |AllObjectLocations(rows)|
  {
    if rows == [] then []
    else
      var k := |rows| - 1;
      ObjectSlots(rows[..k]) + [OriginalSlot(k)] + if rows[k].workingEntry.Some? then [WorkingSlot(k)] else []
  }

  function GeneratedSlots(rows: seq<GeneratedRow>): (r: seq<Slot>)
    ensures |r| == |GeneratedLocations(rows)|
  {
    if rows == [] then []
    else
      var k := |rows| - 1;
      GeneratedSlots(rows[..k]) + if rows[k].entry.Some? then [GeneratedSlot(k)] else []
  }

  function LocationSlots(m: Model): (r: seq<Slot>)
    ensures |r| == |RecoveryLocations(m)|
  {
    ObjectSlots(m.objects) + GeneratedSlots(m.generated)
  }

  ghost predicate ObjectSlotAt(rows: seq<ObjectRow>, s: Slot, e: Entry) {
    match s
    case OriginalSlot(i) => i < |rows| && rows[i].original == e
    case WorkingSlot(i) => i < |rows| && rows[i].workingEntry == Some(e)
    case GeneratedSlot(_) => false
  }

  ghost predicate DistinctSlots(slots: seq<Slot>) {
    forall i, k :: 0 <= i < k < |slots| ==> slots[i] != slots[k]
  }

  lemma {:induction false} ObjectSlotsAre(rows: seq<ObjectRow>)
    ensures DistinctSlots(ObjectSlots(rows))
    ensures forall i :: 0 <= i < |ObjectSlots(rows)| ==> ObjectSlotAt(rows, ObjectSlots(rows)[i], AllObjectLocations(rows)[i])
  {
    if rows != [] {
      var k := |rows| - 1;
      var front := rows[..k];
      ObjectSlotsAre(front);
      var slots, entries := ObjectSlots(front), AllObjectLocations(front);
      forall i | 0 <= i < |slots|
        ensures ObjectSlotAt(rows, slots[i], entries[i]) && slots[i] != OriginalSlot(k) && slots[i] != WorkingSlot(k)
      {
        assert ObjectSlotAt(front, slots[i], entries[i]);
      }
      hide ObjectSlots, AllObjectLocations;
      LastSlots(rows);
      LastSlotsDistinct(slots, rows, k);
    }
  }

  function SlotsOf(row: ObjectRow, k: nat): seq<Slot> {
    [OriginalSlot(k)] + if row.workingEntry.Some? then [WorkingSlot(k)] else []
  }

  lemma LastSlots(rows: seq<ObjectRow>)
    requires rows != []
    ensures var k := |rows| - 1;
      && ObjectSlots(rows) == ObjectSlots(rows[..k]) + SlotsOf(rows[k], k)
      && AllObjectLocations(rows) == AllObjectLocations(rows[..k]) + ObjectLocations(rows[k])
  {
  }

  lemma LastSlotsDistinct(slots: seq<Slot>, rows: seq<ObjectRow>, k: nat)
    requires k < |rows| && DistinctSlots(slots)
    requires forall i :: 0 <= i < |slots| ==> slots[i] != OriginalSlot(k) && slots[i] != WorkingSlot(k)
    ensures DistinctSlots(slots + SlotsOf(rows[k], k))
  {
  }

  lemma {:induction false} ObjectSlotsHold(rows: seq<ObjectRow>, i: nat)
    requires i < |rows|
    ensures OriginalSlot(i) in ObjectSlots(rows) && (rows[i].workingEntry.Some? ==> WorkingSlot(i) in ObjectSlots(rows))
  {
    hide ObjectSlots;
    LastSlots(rows);
    var k := |rows| - 1;
    if i < k {
      ObjectSlotsHold(rows[..k], i);
    } else {
      assert OriginalSlot(k) in SlotsOf(rows[k], k);
      assert rows[k].workingEntry.Some? ==> WorkingSlot(k) in SlotsOf(rows[k], k);
    }
  }

  ghost predicate GeneratedSlotAt(rows: seq<GeneratedRow>, s: Slot, e: Entry) {
    s.GeneratedSlot? && s.index < |rows| && rows[s.index].entry == Some(e)
  }

  lemma LastGenerated(rows: seq<GeneratedRow>)
    requires rows != []
    ensures var k := |rows| - 1;
      && GeneratedSlots(rows) == GeneratedSlots(rows[..k]) + (if rows[k].entry.Some? then [GeneratedSlot(k)] else [])
      && GeneratedLocations(rows) == GeneratedLocations(rows[..k]) + (if rows[k].entry.Some? then [rows[k].entry.value] else [])
  {
  }

  lemma {:induction false} GeneratedSlotsAre(rows: seq<GeneratedRow>)
    ensures DistinctSlots(GeneratedSlots(rows))
    ensures forall i :: 0 <= i < |GeneratedSlots(rows)| ==> GeneratedSlotAt(rows, GeneratedSlots(rows)[i], GeneratedLocations(rows)[i])
  {
    if rows != [] {
      var k := |rows| - 1;
      var front := rows[..k];
      GeneratedSlotsAre(front);
      var slots, entries := GeneratedSlots(front), GeneratedLocations(front);
      forall i | 0 <= i < |slots|
        ensures GeneratedSlotAt(rows, slots[i], entries[i]) && slots[i] != GeneratedSlot(k)
      {
        assert GeneratedSlotAt(front, slots[i], entries[i]);
      }
      hide GeneratedSlots, GeneratedLocations;
      LastGenerated(rows);
    }
  }

  lemma {:induction false} GeneratedSlotsHold(rows: seq<GeneratedRow>, i: nat)
    requires i < |rows| && rows[i].entry.Some?
    ensures GeneratedSlot(i) in GeneratedSlots(rows)
  {
    hide GeneratedSlots, GeneratedLocations;
    LastGenerated(rows);
    var k := |rows| - 1;
    if i < k {
      GeneratedSlotsHold(rows[..k], i);
    }
  }

  // The list holds every recorded slot once, with its entry.
  lemma LocationSlotsAre(m: Model)
    ensures DistinctSlots(LocationSlots(m))
    ensures forall i :: 0 <= i < |LocationSlots(m)| ==> At(m, LocationSlots(m)[i]) == Some(RecoveryLocations(m)[i])
    ensures forall s :: At(m, s).Some? ==> s in LocationSlots(m)
  {
    hide ObjectSlots, AllObjectLocations, GeneratedSlots, GeneratedLocations;
    ObjectSlotsAre(m.objects);
    forall i | 0 <= i < |m.objects|
      ensures OriginalSlot(i) in ObjectSlots(m.objects) && (m.objects[i].workingEntry.Some? ==> WorkingSlot(i) in ObjectSlots(m.objects))
    {
      ObjectSlotsHold(m.objects, i);
    }
    GeneratedSlotsAre(m.generated);
    forall i | 0 <= i < |m.generated| && m.generated[i].entry.Some?
      ensures GeneratedSlot(i) in GeneratedSlots(m.generated)
    {
      GeneratedSlotsHold(m.generated, i);
    }
    forall i | 0 <= i < |GeneratedSlots(m.generated)|
      ensures At(m, GeneratedSlots(m.generated)[i]) == Some(GeneratedLocations(m.generated)[i]) && GeneratedSlots(m.generated)[i].GeneratedSlot?
    {
      assert GeneratedSlotAt(m.generated, GeneratedSlots(m.generated)[i], GeneratedLocations(m.generated)[i]);
    }
    var n := |ObjectSlots(m.objects)|;
    forall i | 0 <= i < n
      ensures At(m, ObjectSlots(m.objects)[i]) == Some(AllObjectLocations(m.objects)[i]) && !ObjectSlots(m.objects)[i].GeneratedSlot?
    {
      assert ObjectSlotAt(m.objects, ObjectSlots(m.objects)[i], AllObjectLocations(m.objects)[i]);
    }
  }

  // The look at the disk says exactly that recorded locations are distinct and hold their objects, and that
  // no slot holds anything unrecorded.
  lemma VerifiedIs(m: Model, files: Files, slots: set<Place>)
    ensures Verified(m, files, slots)
      <==> LocationsDistinct(m) && OnDisk(m, files) && forall p :: p in slots && p in files ==> IsRecorded(m, p)
  {
    hide LocationSlots, RecoveryLocations;
    LocationSlotsAre(m);
    var at, entries := LocationSlots(m), RecoveryLocations(m);
    forall p
      ensures IsRecorded(m, p) <==> IsOccupied(entries, p)
    {
      if IsRecorded(m, p) {
        var s :| At(m, s).Some? && At(m, s).value.place == p;
        var i :| 0 <= i < |at| && at[i] == s;
        assert entries[i].place == p;
      }
      if IsOccupied(entries, p) {
        var i :| 0 <= i < |entries| && entries[i].place == p;
        assert At(m, at[i]).Some? && At(m, at[i]).value.place == p;
      }
    }
    HoldIs(m, files, at, entries);
  }

  lemma HoldIs(m: Model, files: Files, at: seq<Slot>, entries: seq<Entry>)
    requires |at| == |entries| && DistinctSlots(at)
    requires forall i :: 0 <= i < |at| ==> At(m, at[i]) == Some(entries[i])
    requires forall s :: At(m, s).Some? ==> s in at
    ensures EntriesHold(entries, files) <==> LocationsDistinct(m) && OnDisk(m, files)
  {
    if EntriesHold(entries, files) {
      forall s | At(m, s).Some?
        ensures At(m, s).value.place in files && files[At(m, s).value.place] == At(m, s).value.tree
      {
        var i :| 0 <= i < |at| && at[i] == s;
        assert entries[i].place in files;
      }
      forall s, t | At(m, s).Some? && At(m, t).Some? && s != t
        ensures At(m, s).value.place != At(m, t).value.place
      {
        var i :| 0 <= i < |at| && at[i] == s;
        var k :| 0 <= k < |at| && at[k] == t;
        assert if i < k then entries[i].place != entries[k].place else entries[k].place != entries[i].place;
      }
    }
    if LocationsDistinct(m) && OnDisk(m, files) {
      forall i | 0 <= i < |entries|
        ensures entries[i].place in files && files[entries[i].place] == entries[i].tree
      {
        assert At(m, at[i]).Some?;
      }
      forall i, k | 0 <= i < k < |entries|
        ensures entries[i].place != entries[k].place
      {
        assert At(m, at[i]).Some? && At(m, at[k]).Some? && at[i] != at[k];
      }
    }
  }

  // ---- With no other writer ----

  ghost predicate SlotsWatched(o: Origin, roots: set<string>, slots: set<Place>) {
    forall p :: p in slots ==> Watched(o, roots, p)
  }

  // In a safe state the look at the disk passes, for any slots the run watches.
  lemma SafeIsVerified(m: Model, files: Files, o: Origin, roots: set<string>, target: string, slots: set<Place>)
    requires Safe(m, files, o, roots, target) && SlotsWatched(o, roots, slots)
    ensures Verified(m, files, slots)
  {
    VerifiedIs(m, files, slots);
    hide Verified, WellFormed, Sited;
  }

  lemma RetiredIsRunName(o: Origin, root: string, p: Place)
    requires p in RetiredPlaces(o, root)
    ensures p.directory == root && IsRunName(o, p.name)
  {
    hide BackupName;
    if i :| 0 <= i < |o.objects| && p == Place(root, "used-working-" + o.objects[i].step) {
      assert p.name == "used-" + ("working-" + o.objects[i].step);
    }
    assert "used-" <= p.name;
  }

  lemma {:induction false} RetiredAreWatched(o: Origin, roots: seq<string>, within: set<string>)
    requires forall k :: 0 <= k < |roots| ==> roots[k] in within
    ensures SlotsWatched(o, within, AllRetiredPlaces(o, roots))
  {
    hide RetiredPlaces, IsRunName;
    if roots != [] {
      var root := roots[|roots| - 1];
      RetiredAreWatched(o, roots[..|roots| - 1], within);
      forall p | p in RetiredPlaces(o, root)
        ensures Watched(o, within, p)
      {
        RetiredIsRunName(o, root, p);
      }
    }
  }

  // Every vacancy slot of a chain of runs is a name those runs watch.
  lemma VacancySlotsAreWatched(m: Model, o: Origin, roots: seq<string>, within: set<string>)
    requires roots != [] && forall k :: 0 <= k < |roots| ==> roots[k] in within
    ensures SlotsWatched(o, within, RecoveryVacancySlots(m, o, roots))
  {
    hide AllRetiredPlaces;
    RetiredAreWatched(o, roots, within);
    assert roots[0] in within;
    forall p | p in RecoveryVacancySlots(m, o, roots)
      ensures Watched(o, within, p)
    {
      if p in BackupPlaces(o, roots[0]) {
        assert IsRunName(o, p.name);
      } else if p in StagedPlaces(m, roots[0]) {
        assert "used-" <= p.name;
      } else if p in GeneratedPlaces(o) {
        var j :| 0 <= j <= |o.leaves| && p == GeneratedPlace(o, j);
      }
    }
  }

  lemma StartSlotsAreWatched(m: Model, o: Origin, roots: seq<string>, within: set<string>)
    requires roots != [] && forall k :: 0 <= k < |roots| ==> roots[k] in within
    ensures SlotsWatched(o, within, StartSlots(m, o, roots))
  {
    hide RecoveryVacancySlots;
    VacancySlotsAreWatched(m, o, roots, within);
    assert roots[|roots| - 1] in within;
    forall p | p in StagedPlaces(m, roots[|roots| - 1])
      ensures Watched(o, within, p)
    {
      assert "used-" <= p.name;
    }
  }
}
