// The loops over files and sources: a scan updates the table in place, a savepoint takes a failed scan back
// (indexer.ts, autoReindex.ts).
module Reindex {
  import opened Wrappers
  import opened Indexer

  // A source with something to scan; None when its directory or its key is missing.
  datatype Origin = Origin(source: Source, files: Option<seq<File>>)

  predicate IsCommunity(source: Source) {
    |source| >= 10 && source[..10] == "community/"
  }

  // One source: a failed scan leaves the table as it was.
  function ReindexOne(t: Table, o: Origin, force: bool): Table {
    if o.files.None? then t
    else match ScanFiles(t, o.source, o.files.value, force)
         case Err(_) => t
         case Ok(s) => DeleteUntouched(s, o.source)
  }

  function ReindexSources(t: Table, origins: seq<Origin>, force: bool): Table {
    if origins == [] then t
    else ReindexOne(ReindexSources(t, origins[..|origins| - 1], force), origins[|origins| - 1], force)
  }

  predicate Present(origins: seq<Origin>, source: Source) {
    exists i :: 0 <= i < |origins| && origins[i].source == source
  }

  // Community sources whose directory is gone lose their rows.
  function DropAbsent(t: Table, origins: seq<Origin>): Table {
    t.(entries := map k | k in t.entries && (IsCommunity(k.source) ==> Present(origins, k.source)) :: t.entries[k])
  }

  class Index {
    var table: Table

    constructor (t: Table)
      ensures table == t
    {
      table := t;
    }

    method UpsertEntry(source: Source, f: File) returns (rowid: RowId)
      requires f.body.Parsed?
      modifies this
      ensures table == Upsert(old(table), source, f) && rowid == table.entries[Key(source, f.body.id)].rowid
    {
      var key := Key(source, f.body.id);
      if key in table.entries {
        var e := table.entries[key];
        table := table.(entries := table.entries[key := Entry(e.rowid, f.path, f.mtime, f.body.content, f.readAt, e.lastHit)]);
        return e.rowid;
      }
      rowid := table.next;
      table := Table(table.entries[key := Entry(rowid, f.path, f.mtime, f.body.content, f.readAt, None)], rowid + 1);
    }

    // The scan itself; on failure the table keeps what was written so far.
    method ScanSource(source: Source, files: seq<File>, force: bool) returns (r: Result<Counts>)
      requires Valid(table) && DistinctPaths(files)
      modifies this
      ensures r.Ok? <==> Scannable(old(table), source, files)
      ensures r.Ok? ==>
        && var s := ScanFiles(old(table), source, files, force);
        && s.Ok? && table == DeleteUntouched(s.value, source)
        && r.value.added == s.value.added && r.value.updated == s.value.updated
        && IsScanned(old(table), source, files, force, table)
        && |table.entries| == |old(table).entries| + r.value.added - r.value.deleted
    {
      hide ScanFile, IsScanned, Scannable, Valid, DistinctPaths, Upsert, Progress;
      var touched: set<RowId> := {};
      var added, updated := 0, 0;
      ghost var t := table;
      ScanProgress(t, source, files, force);
      ScanNothing(t, source, force);
      for k := 0 to |files|
        invariant ScanFiles(t, source, files[..k], force) == Ok(Scan(table, touched, added, updated))
      {
        var f := files[k];
        ScanStep(t, source, files, k, force);
        ghost var s := Scan(table, touched, added, updated);
        FileResult(s, source, f, force);
        match f.body {
          case Broken =>
            ScanStops(t, source, files, k, force);
            return Err("entry cannot be parsed");
          case Refused =>
            var rows := RowsAt(table, source, f.path);
            if rows * touched != {} {
              ScanStops(t, source, files, k, force);
              return Err("UNIQUE constraint failed: touched.rowid");
            }
            touched := touched + rows;
          case Parsed(id, _) =>
            var key := Key(source, id);
            var existing := key in table.entries;
            var current := !force && existing && Current(table.entries[key], f);
            var rowid;
            if current {
              rowid := table.entries[key].rowid;
            } else {
              rowid := UpsertEntry(source, f);
            }
            if rowid in touched {
              ScanStops(t, source, files, k, force);
              return Err("UNIQUE constraint failed: touched.rowid");
            }
            touched := touched + {rowid};
            added := if existing then added else added + 1;
            updated := if existing && !current then updated + 1 else updated;
        }
      }
      assert files[..|files|] == files;
      ghost var s := Scan(table, touched, added, updated);
      SweepScans(t, source, files, force, s);
      AddedCounts(t, source, files, force);
      var before := |table.entries|;
      table := table.(entries := map k | k in table.entries && (k.source == source ==> table.entries[k].rowid in touched) :: table.entries[k]);
      DeletedIs(s, source, table);
      return Ok(Counts(added, updated, before - |table.entries|));
    }

    // `withSourceSavepoint` around the scan: a failed scan changes nothing.
    method ReindexSource(o: Origin, force: bool) returns (ok: bool)
      requires Valid(table) && (o.files.Some? ==> DistinctPaths(o.files.value))
      modifies this
      ensures table == ReindexOne(old(table), o, force) && Valid(table)
      ensures ok <==> o.files.Some? && Scannable(old(table), o.source, o.files.value)
      ensures !ok ==> table == old(table)
    {
      hide ScanFiles, DeleteUntouched, Scannable, Valid, DistinctPaths;
      if o.files.None? {
        return false;
      }
      var savepoint := table;
      ScanProgress(table, o.source, o.files.value, force);
      var r := ScanSource(o.source, o.files.value, force);
      if r.Err? {
        table := savepoint;
        return false;
      }
      return true;
    }

    method ReindexAllSources(origins: seq<Origin>, force: bool)
      requires Valid(table) && forall i :: 0 <= i < |origins| && origins[i].files.Some? ==> DistinctPaths(origins[i].files.value)
      modifies this
      ensures table == DropAbsent(ReindexSources(old(table), origins, force), origins)
    {
      hide ReindexOne, Valid, DistinctPaths;
      ghost var t := table;
      for k := 0 to |origins|
        invariant Valid(table) && table == ReindexSources(t, origins[..k], force)
      {
        assert origins[..k + 1][..k] == origins[..k];
        var ok := ReindexSource(origins[k], force);
      }
      assert origins[..|origins|] == origins;
      table := DropAbsent(table, origins);
    }
  }

  lemma ScanNothing(t: Table, source: Source, force: bool)
    ensures ScanFiles(t, source, [], force) == Ok(Scan(t, {}, 0, 0))
  {
  }

  lemma ScanStep(t: Table, source: Source, files: seq<File>, k: nat, force: bool)
    requires k < |files| && ScanFiles(t, source, files[..k], force).Ok?
    ensures ScanFiles(t, source, files[..k + 1], force) == ScanFile(ScanFiles(t, source, files[..k], force).value, source, files[k], force)
  {
    hide ScanFile;
    assert files[..k + 1][..k] == files[..k];
  }

  // A scan that fails at a file fails.
  lemma {:induction false} ScanStops(t: Table, source: Source, files: seq<File>, k: nat, force: bool)
    requires k < |files| && ScanFiles(t, source, files[..k + 1], force).Err?
    ensures ScanFiles(t, source, files, force).Err?
    decreases |files|
  {
    hide ScanFile;
    if k + 1 == |files| {
      assert files[..k + 1] == files;
    } else {
      var front := files[..|files| - 1];
      assert front[..k + 1] == files[..k + 1];
      ScanStops(t, source, front, k, force);
    }
  }

  lemma FileResult(s: Scan, source: Source, f: File, force: bool)
    ensures match f.body
      case Broken => ScanFile(s, source, f, force).Err?
      case Refused =>
        && var rows := RowsAt(s.table, source, f.path);
        && (rows * s.touched != {} ==> ScanFile(s, source, f, force).Err?)
        && (rows * s.touched == {} ==> ScanFile(s, source, f, force) == Ok(s.(touched := s.touched + rows)))
      case Parsed(id, _) =>
        && var key := Key(source, id);
        && var existing := key in s.table.entries;
        && var current := !force && existing && Current(s.table.entries[key], f);
        && var table := if current then s.table else Upsert(s.table, source, f);
        && key in table.entries
        && var rowid := table.entries[key].rowid;
        && (rowid in s.touched ==> ScanFile(s, source, f, force).Err?)
        && (rowid !in s.touched ==>
              ScanFile(s, source, f, force)
                == Ok(Scan(table, s.touched + {rowid}, if existing then s.added else s.added + 1,
                           if existing && !current then s.updated + 1 else s.updated)))
  {
    hide RowsAt;
  }

  lemma DeletedIs(s: Scan, source: Source, after: Table)
    requires after == s.table.(entries := map k | k in s.table.entries && (k.source == source ==> s.table.entries[k].rowid in s.touched) :: s.table.entries[k])
    ensures after == DeleteUntouched(s, source) && |after.entries| <= |s.table.entries|
  {
    assert after.entries == DeleteUntouched(s, source).entries;
    assert after.entries.Keys <= s.table.entries.Keys;
    SubsetSize(after.entries.Keys, s.table.entries.Keys);
  }

  lemma SubsetSize(a: set<Key>, b: set<Key>)
    requires a <= b
    ensures |a| <= |b|
  {
    assert b == a + (b - a);
  }

  // ---- Sources do not disturb each other ----

  ghost predicate SourceSame(a: Table, b: Table, source: Source) {
    forall k: Key :: k.source == source ==> (k in a.entries <==> k in b.entries) && (k in a.entries ==> a.entries[k] == b.entries[k])
  }

  ghost predicate Ready(origins: seq<Origin>) {
    && (forall i :: 0 <= i < |origins| && origins[i].files.Some? ==> DistinctPaths(origins[i].files.value))
    && (forall i, j :: 0 <= i < j < |origins| ==> origins[i].source != origins[j].source)
  }

  lemma OneKeepsOthers(t: Table, o: Origin, force: bool, source: Source)
    requires Valid(t) && (o.files.Some? ==> DistinctPaths(o.files.value))
    ensures Valid(ReindexOne(t, o, force))
    ensures source != o.source ==> SourceSame(t, ReindexOne(t, o, force), source)
    ensures o.files.Some? && Scannable(t, o.source, o.files.value) ==> IsScanned(t, o.source, o.files.value, force, ReindexOne(t, o, force))
    ensures o.files.None? || !Scannable(t, o.source, o.files.value) ==> ReindexOne(t, o, force) == t
  {
    hide Scannable, DistinctPaths, Progress, RowsDone, IsParsed, IsRefused, ScanFiles, DeleteUntouched, Valid;
    if o.files.Some? {
      ScanProgress(t, o.source, o.files.value, force);
      if Scannable(t, o.source, o.files.value) {
        SweepScans(t, o.source, o.files.value, force, ScanFiles(t, o.source, o.files.value, force).value);
      }
    }
  }

  lemma ScannableSame(a: Table, b: Table, source: Source, files: seq<File>)
    requires SourceSame(a, b, source)
    ensures Scannable(a, source, files) <==> Scannable(b, source, files)
  {
    forall j | 0 <= j < |files| && files[j].body.Parsed?
      ensures var k := Key(source, files[j].body.id);
        (k in a.entries <==> k in b.entries) && (k in a.entries ==> a.entries[k] == b.entries[k])
    {
    }
  }

  // Up to some origin, the rows of a source that is not among them are the same.
  lemma {:induction false} OthersSame(t: Table, origins: seq<Origin>, force: bool, from: nat, source: Source)
    requires Valid(t) && Ready(origins) && from <= |origins| && forall i :: from <= i < |origins| ==> origins[i].source != source
    ensures Valid(ReindexSources(t, origins, force)) && Valid(ReindexSources(t, origins[..from], force))
    ensures SourceSame(ReindexSources(t, origins[..from], force), ReindexSources(t, origins, force), source)
    decreases |origins|
  {
    hide Valid, ReindexOne, DistinctPaths;
    if from == |origins| {
      assert origins[..from] == origins;
      if origins != [] {
        AllValid(t, origins, force);
      }
    } else {
      var k := |origins| - 1;
      assert origins[..k][..from] == origins[..from];
      OthersSame(t, origins[..k], force, from, source);
      OneKeepsOthers(ReindexSources(t, origins[..k], force), origins[k], force, source);
    }
  }

  lemma {:induction false} AllValid(t: Table, origins: seq<Origin>, force: bool)
    requires Valid(t) && Ready(origins)
    ensures Valid(ReindexSources(t, origins, force))
    decreases |origins|
  {
    hide Valid, ReindexOne, DistinctPaths;
    if origins != [] {
      var k := |origins| - 1;
      AllValid(t, origins[..k], force);
      OneKeepsOthers(ReindexSources(t, origins[..k], force), origins[k], force, origins[k].source);
    }
  }

  lemma SameTwice(a: Table, b: Table, d: Table, source: Source)
    requires SourceSame(a, b, source) && SourceSame(b, d, source)
    ensures SourceSame(a, d, source)
  {
  }

  lemma DropKeepsPresent(t: Table, origins: seq<Origin>, source: Source)
    requires Present(origins, source)
    ensures SourceSame(t, DropAbsent(t, origins), source)
  {
  }

  // What reindexing everything does to one source: a source that cannot be scanned keeps its rows, a scanned
  // source has the rows of its own scan, a community source without a directory loses its rows.
  lemma SourceOutcome(t: Table, origins: seq<Origin>, force: bool, i: nat)
    requires Valid(t) && Ready(origins) && i < |origins|
    ensures var o, final := origins[i], DropAbsent(ReindexSources(t, origins, force), origins);
      var mid := ReindexSources(t, origins[..i], force);
      && SourceSame(t, mid, o.source)
      && (o.files.None? || !Scannable(t, o.source, o.files.value) ==> SourceSame(t, final, o.source))
      && (o.files.Some? && Scannable(t, o.source, o.files.value) ==>
            && IsScanned(mid, o.source, o.files.value, force, ReindexOne(mid, o, force))
            && SourceSame(ReindexOne(mid, o, force), final, o.source))
  {
    hide Valid, ReindexOne, DistinctPaths, IsScanned, Scannable, SourceSame, DropAbsent;
    var o, front := origins[i], origins[..i];
    var mid, all := ReindexSources(t, front, force), ReindexSources(t, origins, force);
    assert front[..0] == [];
    OthersSame(t, front, force, 0, o.source);
    OneKeepsOthers(mid, o, force, o.source);
    assert origins[..i + 1][..i] == front;
    OthersSame(t, origins, force, i + 1, o.source);
    if o.files.Some? {
      ScannableSame(t, mid, o.source, o.files.value);
    }
    assert Present(origins, o.source);
    DropKeepsPresent(all, origins, o.source);
    SameTwice(ReindexOne(mid, o, force), all, DropAbsent(all, origins), o.source);
    if o.files.None? || !Scannable(t, o.source, o.files.value) {
      SameTwice(t, mid, DropAbsent(all, origins), o.source);
    }
  }

  lemma AbsentOutcome(t: Table, origins: seq<Origin>, force: bool, source: Source)
    requires Valid(t) && Ready(origins) && !Present(origins, source)
    ensures var final := DropAbsent(ReindexSources(t, origins, force), origins);
      if IsCommunity(source) then forall k :: k in final.entries ==> k.source != source else SourceSame(t, final, source)
  {
    hide Valid, ReindexOne, DistinctPaths;
    assert origins[..0] == [];
    OthersSame(t, origins, force, 0, source);
  }
}
