// The mark-and-sweep index of one source (indexer.ts) and the savepoint around it (autoReindex.ts).
module Indexer {
  import opened Wrappers

  type Source = string
  type Id = string
  type RelPath = string
  type Time = int
  type RowId = nat
  type Content(==)

  // What the row of a file holds besides its keys, and what becomes of a file that is read.
  datatype Body = Parsed(id: Id, content: Content) | Refused | Broken
  datatype File = File(path: RelPath, mtime: Time, body: Body, readAt: Time)

  datatype Entry = Entry(rowid: RowId, path: RelPath, mtime: Time, content: Content, indexedAt: Time, lastHit: Option<Time>)
  datatype Key = Key(source: Source, id: Id)
  // The table, unique in (source, id), with the next row number.
  datatype Table = Table(entries: map<Key, Entry>, next: RowId)

  ghost predicate Valid(t: Table) {
    && (forall k :: k in t.entries ==> t.entries[k].rowid < t.next)
    && (forall k, l :: k in t.entries && l in t.entries && k != l ==> t.entries[k].rowid != t.entries[l].rowid)
  }

  // A scan in progress: the table, the rows it has touched, and its counters.
  datatype Scan = Scan(table: Table, touched: set<RowId>, added: nat, updated: nat)

  // The rows of one path, touched when its file is refused.
  function RowsAt(t: Table, source: Source, path: RelPath): set<RowId> {
    set k | k in t.entries && k.source == source && t.entries[k].path == path :: t.entries[k].rowid
  }

  predicate Current(e: Entry, f: File) {
    e.mtime == f.mtime && e.path == f.path
  }

  // `upsertEntry`: the row keeps its number and its last hit.
  function Upsert(t: Table, source: Source, f: File): Table
    requires f.body.Parsed?
  {
    var key := Key(source, f.body.id);
    if key in t.entries then
      var e := t.entries[key];
      t.(entries := t.entries[key := Entry(e.rowid, f.path, f.mtime, f.body.content, f.readAt, e.lastHit)])
    else
      Table(t.entries[key := Entry(t.next, f.path, f.mtime, f.body.content, f.readAt, None)], t.next + 1)
  }

  // One file. Marking a row a second time violates the primary key of the touched rows.
  function ScanFile(s: Scan, source: Source, f: File, force: bool): Result<Scan> {
    match f.body
    case Broken => Err("entry cannot be parsed")
    case Refused =>
      var rows := RowsAt(s.table, source, f.path);
      if rows * s.touched != {} then Err("UNIQUE constraint failed: touched.rowid")
      else Ok(s.(touched := s.touched + rows))
    case Parsed(id, _) =>
      var key := Key(source, id);
      var existing := key in s.table.entries;
      var current := !force && existing && Current(s.table.entries[key], f);
      var table := if current then s.table else Upsert(s.table, source, f);
      var rowid := table.entries[key].rowid;
      if rowid in s.touched then Err("UNIQUE constraint failed: touched.rowid")
      else Ok(Scan(table, s.touched + {rowid}, if existing then s.added else s.added + 1,
                   if existing && !current then s.updated + 1 else s.updated))
  }

  function ScanFiles(t: Table, source: Source, files: seq<File>, force: bool): Result<Scan> {
    if files == [] then Ok(Scan(t, {}, 0, 0))
    else match ScanFiles(t, source, files[..|files| - 1], force)
         case Err(e) => Err(e)
         case Ok(s) => ScanFile(s, source, files[|files| - 1], force)
  }

  predicate Survives(s: Scan, source: Source, k: Key)
    requires k in s.table.entries
  {
    k.source == source ==> s.table.entries[k].rowid in s.touched
  }

  function DeleteUntouched(s: Scan, source: Source): Table {
    s.table.(entries := map k | k in s.table.entries && Survives(s, source, k) :: s.table.entries[k])
  }

  datatype Counts = Counts(added: nat, updated: nat, deleted: nat)

  // ---- What a scan does, said of the table before it and the files ----

  predicate IsParsed(files: seq<File>, id: Id) {
    exists i :: 0 <= i < |files| && files[i].body.Parsed? && files[i].body.id == id
  }

  predicate IsRefused(files: seq<File>, path: RelPath) {
    exists i :: 0 <= i < |files| && files[i].body.Refused? && files[i].path == path
  }

  predicate DistinctPaths(files: seq<File>) {
    forall i, j :: 0 <= i < j < |files| ==> files[i].path != files[j].path
  }

  // A scan succeeds when every file can be read, no two hold one id, and no refused file comes before a
  // file that holds the id of the row indexed under the refused path.
  ghost predicate Scannable(t: Table, source: Source, files: seq<File>) {
    && (forall i :: 0 <= i < |files| ==> !files[i].body.Broken?)
    && (forall i, j :: 0 <= i < j < |files| && files[i].body.Parsed? && files[j].body.Parsed? ==> files[i].body.id != files[j].body.id)
    && (forall i, j :: 0 <= i < j < |files| && files[i].body.Refused? && files[j].body.Parsed? ==>
          !(Key(source, files[j].body.id) in t.entries && t.entries[Key(source, files[j].body.id)].path == files[i].path))
  }

  // The row of a parsed file: its number and last hit survive; unless it is current, its content is the file's.
  ghost predicate RowOf(t: Table, key: Key, f: File, force: bool, e: Entry)
    requires f.body.Parsed?
  {
    && e.path == f.path && e.mtime == f.mtime
    && (key in t.entries ==> e.rowid == t.entries[key].rowid && e.lastHit == t.entries[key].lastHit)
    && (key !in t.entries ==> e.rowid >= t.next && e.lastHit == None)
    && if !force && key in t.entries && Current(t.entries[key], f) then e == t.entries[key]
       else e.content == f.body.content && e.indexedAt == f.readAt
  }

  predicate Marked(source: Source, files: seq<File>, k: Key, path: RelPath) {
    k.source == source && (IsParsed(files, k.id) || IsRefused(files, path))
  }

  ghost predicate KeysDone(t: Table, source: Source, files: seq<File>, after: Table) {
    forall k :: k in after.entries <==> k in t.entries || (k.source == source && IsParsed(files, k.id))
  }

  ghost predicate RowsDone(t: Table, source: Source, files: seq<File>, force: bool, after: Table) {
    forall i :: 0 <= i < |files| && files[i].body.Parsed? ==>
      var key := Key(source, files[i].body.id); key in after.entries && RowOf(t, key, files[i], force, after.entries[key])
  }

  ghost predicate OthersKept(t: Table, source: Source, files: seq<File>, after: Table) {
    forall k :: k in t.entries && !(k.source == source && IsParsed(files, k.id)) ==> k in after.entries && after.entries[k] == t.entries[k]
  }

  ghost predicate MarksDone(source: Source, files: seq<File>, s: Scan) {
    && (forall k :: k in s.table.entries ==> (s.table.entries[k].rowid in s.touched <==> Marked(source, files, k, s.table.entries[k].path)))
    && (forall r :: r in s.touched ==> r < s.table.next)
  }

  // Where a scan stands after some files.
  ghost predicate Progress(t: Table, source: Source, files: seq<File>, force: bool, s: Scan) {
    && Valid(s.table) && s.table.next >= t.next
    && KeysDone(t, source, files, s.table) && RowsDone(t, source, files, force, s.table)
    && OthersKept(t, source, files, s.table) && MarksDone(source, files, s)
  }

  lemma MoreFiles(files: seq<File>, f: File)
    ensures forall id :: IsParsed(files + [f], id) <==> IsParsed(files, id) || (f.body.Parsed? && f.body.id == id)
    ensures forall path :: IsRefused(files + [f], path) <==> IsRefused(files, path) || (f.body.Refused? && f.path == path)
  {
    var all := files + [f];
    assert all[|files|] == f;
    forall id | IsParsed(files, id)
      ensures IsParsed(all, id)
    {
      var i :| 0 <= i < |files| && files[i].body.Parsed? && files[i].body.id == id;
      assert all[i] == files[i];
    }
    forall path | IsRefused(files, path)
      ensures IsRefused(all, path)
    {
      var i :| 0 <= i < |files| && files[i].body.Refused? && files[i].path == path;
      assert all[i] == files[i];
    }
  }

  // A refused file never meets a touched row: no other file has its path.
  lemma RefusedProgress(t: Table, source: Source, files: seq<File>, f: File, force: bool, s: Scan)
    requires Valid(t) && Progress(t, source, files, force, s) && DistinctPaths(files + [f]) && f.body.Refused?
    ensures ScanFile(s, source, f, force).Ok? && Progress(t, source, files + [f], force, ScanFile(s, source, f, force).value)
  {
    hide RowOf, IsParsed, IsRefused;
    MoreFiles(files, f);
    PathIsNew(t, source, files, f, force, s);
    var rows := RowsAt(s.table, source, f.path);
    var all := files + [f];
    forall i | 0 <= i < |all| && all[i].body.Parsed?
      ensures all[i] == files[i]
    {
    }
  }

  lemma PathIsNew(t: Table, source: Source, files: seq<File>, f: File, force: bool, s: Scan)
    requires Progress(t, source, files, force, s) && DistinctPaths(files + [f])
    ensures !IsRefused(files, f.path)
    ensures forall k :: k in s.table.entries && k.source == source && IsParsed(files, k.id) ==> s.table.entries[k].path != f.path
  {
    var all := files + [f];
    assert all[|files|] == f && forall i :: 0 <= i < |files| ==> all[i] == files[i];
    forall k | k in s.table.entries && k.source == source && IsParsed(files, k.id)
      ensures s.table.entries[k].path != f.path
    {
      var i :| 0 <= i < |files| && files[i].body.Parsed? && files[i].body.id == k.id;
      assert k == Key(source, files[i].body.id);
    }
  }

  // An id is taken when a file held it already, or when its indexed row was kept for a refused file.
  ghost predicate Taken(t: Table, source: Source, files: seq<File>, id: Id) {
    IsParsed(files, id) || (Key(source, id) in t.entries && IsRefused(files, t.entries[Key(source, id)].path))
  }

  lemma ParsedRow(t: Table, source: Source, files: seq<File>, force: bool, s: Scan, id: Id)
    requires Progress(t, source, files, force, s)
    ensures var key := Key(source, id);
      && (key in s.table.entries ==> (s.table.entries[key].rowid in s.touched <==> Taken(t, source, files, id)))
      && (key !in s.table.entries ==> !Taken(t, source, files, id) && key !in t.entries)
      && (key in s.table.entries && !IsParsed(files, id) ==> key in t.entries && s.table.entries[key] == t.entries[key])
      && (!IsParsed(files, id) && key in t.entries ==> key in s.table.entries)
  {
    hide RowOf, IsParsed, IsRefused;
    var key := Key(source, id);
    if key in s.table.entries && IsParsed(files, id) {
      assert Marked(source, files, key, s.table.entries[key].path);
    }
  }

  lemma ParsedSucceeds(t: Table, source: Source, files: seq<File>, f: File, force: bool, s: Scan)
    requires Progress(t, source, files, force, s) && f.body.Parsed?
    ensures ScanFile(s, source, f, force).Ok? <==> !Taken(t, source, files, f.body.id)
  {
    hide RowOf, IsParsed, IsRefused, Taken;
    ParsedRow(t, source, files, force, s, f.body.id);
  }

  lemma UpsertEffect(t: Table, source: Source, f: File)
    requires Valid(t) && f.body.Parsed?
    ensures var after, key := Upsert(t, source, f), Key(source, f.body.id);
      && Valid(after) && after.next >= t.next
      && after.entries.Keys == t.entries.Keys + {key}
      && (forall k :: k in t.entries && k != key ==> after.entries[k] == t.entries[k])
      && after.entries[key].rowid == (if key in t.entries then t.entries[key].rowid else t.next)
  {
  }

  // What one parsed file changes.
  ghost predicate Effect(s: Scan, after: Scan, key: Key) {
    && Valid(after.table) && after.table.next >= s.table.next
    && after.table.entries.Keys == s.table.entries.Keys + {key}
    && (forall k :: k in s.table.entries && k != key ==> after.table.entries[k] == s.table.entries[k])
    && after.touched == s.touched + {after.table.entries[key].rowid}
    && (key in s.table.entries ==> after.table.entries[key].rowid == s.table.entries[key].rowid)
  }

  lemma ParsedEffect(s: Scan, source: Source, f: File, force: bool)
    requires Valid(s.table) && f.body.Parsed? && ScanFile(s, source, f, force).Ok?
    ensures Effect(s, ScanFile(s, source, f, force).value, Key(source, f.body.id))
  {
    hide Upsert, Valid;
    UpsertEffect(s.table, source, f);
    var key := Key(source, f.body.id);
    assert key in s.table.entries ==> s.table.entries.Keys + {key} == s.table.entries.Keys;
  }

  lemma ParsedRowOf(t: Table, source: Source, files: seq<File>, f: File, force: bool, s: Scan)
    requires Valid(t) && Progress(t, source, files, force, s) && f.body.Parsed? && ScanFile(s, source, f, force).Ok?
    ensures var after, key := ScanFile(s, source, f, force).value, Key(source, f.body.id);
      key in after.table.entries && RowOf(t, key, f, force, after.table.entries[key])
  {
    ParsedSucceeds(t, source, files, f, force, s);
    ParsedRow(t, source, files, force, s, f.body.id);
    hide IsParsed, IsRefused, Valid, KeysDone, RowsDone, OthersKept, MarksDone;
  }

  lemma EffectKeys(t: Table, source: Source, files: seq<File>, f: File, s: Scan, after: Scan)
    requires KeysDone(t, source, files, s.table) && OthersKept(t, source, files, s.table)
    requires f.body.Parsed? && Effect(s, after, Key(source, f.body.id))
    ensures KeysDone(t, source, files + [f], after.table) && OthersKept(t, source, files + [f], after.table)
  {
    hide IsParsed, Valid;
    MoreFiles(files, f);
    forall k
      ensures k in after.table.entries <==> k in s.table.entries || k == Key(source, f.body.id)
    {
      assert k in after.table.entries <==> k in after.table.entries.Keys;
    }
  }

  lemma EffectRows(t: Table, source: Source, files: seq<File>, f: File, force: bool, s: Scan, after: Scan)
    requires RowsDone(t, source, files, force, s.table) && f.body.Parsed? && !IsParsed(files, f.body.id)
    requires var key := Key(source, f.body.id);
      Effect(s, after, key) && key in after.table.entries && RowOf(t, key, f, force, after.table.entries[key])
    ensures RowsDone(t, source, files + [f], force, after.table)
  {
    hide IsParsed, Valid, RowOf;
    var all := files + [f];
    forall i | 0 <= i < |all| && all[i].body.Parsed?
      ensures var k := Key(source, all[i].body.id); k in after.table.entries && RowOf(t, k, all[i], force, after.table.entries[k])
    {
      if i < |files| {
        assert all[i] == files[i];
        IsParsedAt(files, i);
        assert Key(source, files[i].body.id) in after.table.entries.Keys;
      }
    }
  }

  lemma EffectMarks(source: Source, files: seq<File>, f: File, s: Scan, after: Scan)
    requires MarksDone(source, files, s) && Valid(s.table) && f.body.Parsed? && Effect(s, after, Key(source, f.body.id))
    ensures MarksDone(source, files + [f], after)
  {
    hide IsParsed, IsRefused;
    MoreFiles(files, f);
    var key := Key(source, f.body.id);
    forall k | k in after.table.entries
      ensures after.table.entries[k].rowid in after.touched <==> Marked(source, files + [f], k, after.table.entries[k].path)
    {
      assert k in after.table.entries.Keys;
    }
  }

  lemma ParsedProgress(t: Table, source: Source, files: seq<File>, f: File, force: bool, s: Scan)
    requires Valid(t) && Progress(t, source, files, force, s) && f.body.Parsed? && ScanFile(s, source, f, force).Ok?
    ensures Progress(t, source, files + [f], force, ScanFile(s, source, f, force).value)
  {
    hide RowOf, IsParsed, IsRefused, ScanFile, KeysDone, RowsDone, OthersKept, MarksDone, Valid;
    var after := ScanFile(s, source, f, force).value;
    ParsedSucceeds(t, source, files, f, force, s);
    ParsedEffect(s, source, f, force);
    ParsedRowOf(t, source, files, f, force, s);
    EffectKeys(t, source, files, f, s, after);
    EffectRows(t, source, files, f, force, s, after);
    EffectMarks(source, files, f, s, after);
  }

  lemma IsParsedAt(files: seq<File>, i: nat)
    requires i < |files| && files[i].body.Parsed?
    ensures IsParsed(files, files[i].body.id)
  {
  }

  lemma NothingDone(t: Table, source: Source, force: bool)
    requires Valid(t)
    ensures Progress(t, source, [], force, Scan(t, {}, 0, 0))
  {
  }

  lemma ScannableStep(t: Table, source: Source, files: seq<File>, f: File)
    ensures Scannable(t, source, files + [f])
      <==> && Scannable(t, source, files) && !f.body.Broken?
           && (f.body.Parsed? ==> !Taken(t, source, files, f.body.id))
  {
    var all := files + [f];
    assert all[|files|] == f && forall i :: 0 <= i < |files| ==> all[i] == files[i];
    if Scannable(t, source, files) && !f.body.Broken? && (f.body.Parsed? ==> !Taken(t, source, files, f.body.id)) {
      assert Scannable(t, source, all);
    }
    if Scannable(t, source, all) {
      assert Scannable(t, source, files);
    }
  }

  // A scan gets through exactly when the files are scannable.
  lemma {:induction false} ScanProgress(t: Table, source: Source, files: seq<File>, force: bool)
    requires Valid(t) && DistinctPaths(files)
    ensures ScanFiles(t, source, files, force).Ok? <==> Scannable(t, source, files)
    ensures ScanFiles(t, source, files, force).Ok? ==> Progress(t, source, files, force, ScanFiles(t, source, files, force).value)
    decreases |files|
  {
    hide Progress, ScanFile, Valid, Taken, Scannable, IsParsed, IsRefused;
    if files == [] {
      NothingDone(t, source, force);
      NothingScannable(t, source);
    } else {
      var k := |files| - 1;
      var f := files[k];
      ScanProgress(t, source, files[..k], force);
      assert files == files[..k] + [f];
      ScannableStep(t, source, files[..k], f);
      if Scannable(t, source, files[..k]) {
        var s := ScanFiles(t, source, files[..k], force).value;
        BrokenFails(s, source, f, force);
        if f.body.Refused? {
          RefusedProgress(t, source, files[..k], f, force, s);
        } else if f.body.Parsed? {
          ParsedSucceeds(t, source, files[..k], f, force, s);
          if ScanFile(s, source, f, force).Ok? {
            ParsedProgress(t, source, files[..k], f, force, s);
          }
        }
      }
    }
  }

  lemma NothingScannable(t: Table, source: Source)
    ensures Scannable(t, source, [])
  {
  }

  lemma BrokenFails(s: Scan, source: Source, f: File, force: bool)
    ensures f.body.Broken? ==> ScanFile(s, source, f, force).Err?
  {
  }

  // ---- Scans that fail on readable files ----

  // Two files that hold one id: whatever is indexed, the scan fails.
  lemma OneIdTwiceFails(t: Table, source: Source, id: Id, a: Content, b: Content, force: bool)
    requires Valid(t)
    ensures var files := [File("a.md", 0, Parsed(id, a), 0), File("b.md", 0, Parsed(id, b), 0)];
      DistinctPaths(files) && ScanFiles(t, source, files, force).Err?
  {
    var files := [File("a.md", 0, Parsed(id, a), 0), File("b.md", 0, Parsed(id, b), 0)];
    assert files[0].path[0] != files[1].path[0];
    assert files[0].body.id == files[1].body.id;
    ScanProgress(t, source, files, force);
  }

  // A file was renamed and its old path now holds a file that is refused: the scan fails when the refused
  // file is met first, and gets through when it is met last.
  lemma RefusedFirstFails(source: Source, id: Id, content: Content, force: bool)
    ensures var t := Table(map[Key(source, id) := Entry(0, "a.md", 0, content, 0, None)], 1);
      var refused, renamed := File("a.md", 0, Refused, 0), File("b.md", 0, Parsed(id, content), 0);
      && Valid(t) && DistinctPaths([refused, renamed]) && DistinctPaths([renamed, refused])
      && ScanFiles(t, source, [refused, renamed], force).Err?
      && ScanFiles(t, source, [renamed, refused], force).Ok?
  {
    var t := Table(map[Key(source, id) := Entry(0, "a.md", 0, content, 0, None)], 1);
    var refused, renamed := File("a.md", 0, Refused, 0), File("b.md", 0, Parsed(id, content), 0);
    assert refused.path[0] != renamed.path[0];
    var bad, good := [refused, renamed], [renamed, refused];
    assert bad[0].body.Refused? && bad[1].body.Parsed? && t.entries[Key(source, bad[1].body.id)].path == bad[0].path;
    ScanProgress(t, source, bad, force);
    ScanProgress(t, source, good, force);
  }

  // ---- The table after a scan ----

  // Rows of other sources are the same; the source's rows are those of its parsed files, and the rows
  // indexed under the paths of refused files.
  ghost predicate IsScanned(t: Table, source: Source, files: seq<File>, force: bool, after: Table) {
    && Valid(after) && after.next >= t.next
    && (forall k :: k in after.entries
          <==> if k.source != source then k in t.entries
               else IsParsed(files, k.id) || (k in t.entries && IsRefused(files, t.entries[k].path)))
    && RowsDone(t, source, files, force, after)
    && (forall k :: k in after.entries && !(k.source == source && IsParsed(files, k.id)) ==> k in t.entries && after.entries[k] == t.entries[k])
  }

  lemma SweepScans(t: Table, source: Source, files: seq<File>, force: bool, s: Scan)
    requires Progress(t, source, files, force, s)
    ensures IsScanned(t, source, files, force, DeleteUntouched(s, source))
  {
    hide RowOf, IsParsed, IsRefused;
    var after := DeleteUntouched(s, source);
    assert forall k :: k in s.table.entries ==> (k in after.entries <==> Survives(s, source, k));
    forall i | 0 <= i < |files| && files[i].body.Parsed?
      ensures Key(source, files[i].body.id) in after.entries
    {
      IsParsedAt(files, i);
      var key := Key(source, files[i].body.id);
      assert Marked(source, files, key, s.table.entries[key].path);
    }
  }

  // Rows added are rows the table did not hold.
  lemma {:induction false} AddedCounts(t: Table, source: Source, files: seq<File>, force: bool)
    requires Valid(t) && ScanFiles(t, source, files, force).Ok?
    ensures var s := ScanFiles(t, source, files, force).value; Valid(s.table) && |s.table.entries| == |t.entries| + s.added
    decreases |files|
  {
    hide Valid, Upsert;
    if files != [] {
      AddedCounts(t, source, files[..|files| - 1], force);
      var s, f := ScanFiles(t, source, files[..|files| - 1], force).value, files[|files| - 1];
      if f.body.Parsed? {
        UpsertEffect(s.table, source, f);
        KeysCount(s.table, Upsert(s.table, source, f), Key(source, f.body.id));
      }
    }
  }

  lemma KeysCount(t: Table, after: Table, key: Key)
    requires after.entries.Keys == t.entries.Keys + {key}
    ensures |after.entries| == |t.entries| + if key in t.entries then 0 else 1
  {
    assert |after.entries| == |after.entries.Keys| && |t.entries| == |t.entries.Keys|;
    if key in t.entries {
      assert after.entries.Keys == t.entries.Keys;
    }
  }

  // ---- Incremental and forced ----

  ghost predicate SameUpToIndexedAt(a: Table, b: Table) {
    && a.next == b.next && a.entries.Keys == b.entries.Keys
    && forall k :: k in a.entries ==> a.entries[k] == b.entries[k].(indexedAt := a.entries[k].indexedAt)
  }

  // A row indexed from the same id, path and time holds the file's content.
  ghost predicate TimesFixContent(t: Table, source: Source, files: seq<File>) {
    forall i :: 0 <= i < |files| && files[i].body.Parsed? ==>
      var key := Key(source, files[i].body.id);
      key in t.entries && Current(t.entries[key], files[i]) ==> t.entries[key].content == files[i].body.content
  }

  ghost predicate Similar(a: Scan, b: Scan) {
    SameUpToIndexedAt(a.table, b.table) && a.touched == b.touched && a.added == b.added
  }

  lemma SimilarRefused(source: Source, f: File, a: Scan, b: Scan)
    requires Similar(a, b) && f.body.Refused?
    ensures ScanFile(a, source, f, false).Ok? <==> ScanFile(b, source, f, true).Ok?
    ensures ScanFile(a, source, f, false).Ok? ==> Similar(ScanFile(a, source, f, false).value, ScanFile(b, source, f, true).value)
  {
    RowsAtSame(a.table, b.table, source, f.path);
    hide RowsAt, SameUpToIndexedAt;
  }

  lemma RowsAtSame(a: Table, b: Table, source: Source, path: RelPath)
    requires SameUpToIndexedAt(a, b)
    ensures RowsAt(a, source, path) == RowsAt(b, source, path)
  {
    forall r | r in RowsAt(a, source, path)
      ensures r in RowsAt(b, source, path)
    {
      var k :| k in a.entries && k.source == source && a.entries[k].path == path && a.entries[k].rowid == r;
      assert k in a.entries.Keys;
      assert k in b.entries;
    }
    forall r | r in RowsAt(b, source, path)
      ensures r in RowsAt(a, source, path)
    {
      var k :| k in b.entries && k.source == source && b.entries[k].path == path && b.entries[k].rowid == r;
      assert k in b.entries.Keys;
      assert k in a.entries;
    }
  }

  lemma SimilarParsed(source: Source, f: File, a: Scan, b: Scan)
    requires Similar(a, b) && f.body.Parsed?
    requires var key := Key(source, f.body.id);
      key in a.table.entries && Current(a.table.entries[key], f) ==> a.table.entries[key].content == f.body.content
    requires ScanFile(a, source, f, false).Ok? && ScanFile(b, source, f, true).Ok?
    ensures Similar(ScanFile(a, source, f, false).value, ScanFile(b, source, f, true).value)
  {
    var key := Key(source, f.body.id);
    assert key in a.table.entries.Keys <==> key in b.table.entries.Keys;
    assert key in a.table.entries ==> a.table.entries.Keys + {key} == a.table.entries.Keys;
  }

  lemma {:induction false} ScansSimilar(t: Table, source: Source, files: seq<File>)
    requires Valid(t) && DistinctPaths(files) && TimesFixContent(t, source, files) && Scannable(t, source, files)
    ensures ScanFiles(t, source, files, false).Ok? && ScanFiles(t, source, files, true).Ok?
    ensures Similar(ScanFiles(t, source, files, false).value, ScanFiles(t, source, files, true).value)
    decreases |files|
  {
    hide Progress, ScanFile, Valid, Taken, Scannable, IsParsed, IsRefused, Similar, Current;
    ScanProgress(t, source, files, false);
    ScanProgress(t, source, files, true);
    if files == [] {
      SimilarStart(t);
    } else {
      var k := |files| - 1;
      var f := files[k];
      assert files == files[..k] + [f];
      ScannableStep(t, source, files[..k], f);
      ScansSimilar(t, source, files[..k]);
      var a, b := ScanFiles(t, source, files[..k], false).value, ScanFiles(t, source, files[..k], true).value;
      if f.body.Refused? {
        SimilarRefused(source, f, a, b);
      } else {
        assert f.body.Parsed? by {
          BrokenFails(a, source, f, false);
        }
        ScanProgress(t, source, files[..k], false);
        TakenOnce(t, source, files[..k], f, a);
        SimilarParsed(source, f, a, b);
      }
    }
  }

  // The row a scannable file meets is the one from before the scan.
  lemma TakenOnce(t: Table, source: Source, files: seq<File>, f: File, s: Scan)
    requires Progress(t, source, files, false, s) && f.body.Parsed? && !Taken(t, source, files, f.body.id)
    ensures var key := Key(source, f.body.id);
      key in s.table.entries ==> key in t.entries && s.table.entries[key] == t.entries[key]
  {
    ParsedRow(t, source, files, false, s, f.body.id);
    hide IsParsed, IsRefused, Progress;
  }

  lemma SimilarStart(t: Table)
    ensures Similar(Scan(t, {}, 0, 0), Scan(t, {}, 0, 0))
  {
  }

  // When id, path and time fix the content, an incremental scan and a forced one fail together, and leave
  // the same rows up to the time they were indexed, the same row numbers, and the same number of added rows.
  lemma IncrementalIsForced(t: Table, source: Source, files: seq<File>)
    requires Valid(t) && DistinctPaths(files) && TimesFixContent(t, source, files)
    ensures ScanFiles(t, source, files, false).Ok? <==> ScanFiles(t, source, files, true).Ok?
    ensures ScanFiles(t, source, files, false).Ok? ==>
      && var a, b := ScanFiles(t, source, files, false).value, ScanFiles(t, source, files, true).value;
      && SameUpToIndexedAt(DeleteUntouched(a, source), DeleteUntouched(b, source)) && a.added == b.added
  {
    hide ScanFile, Valid, Scannable, Progress, DeleteUntouched, SameUpToIndexedAt, ScanFiles, TimesFixContent, DistinctPaths;
    ScanProgress(t, source, files, false);
    ScanProgress(t, source, files, true);
    if Scannable(t, source, files) {
      ScansSimilar(t, source, files);
      SweepSimilar(source, ScanFiles(t, source, files, false).value, ScanFiles(t, source, files, true).value);
    }
  }

  lemma SweepSimilar(source: Source, a: Scan, b: Scan)
    requires Similar(a, b)
    ensures SameUpToIndexedAt(DeleteUntouched(a, source), DeleteUntouched(b, source))
  {
    forall k | k in a.table.entries
      ensures k in b.table.entries && a.table.entries[k].rowid == b.table.entries[k].rowid
    {
      assert k in a.table.entries.Keys;
    }
    forall k | k in b.table.entries
      ensures k in a.table.entries
    {
      assert k in b.table.entries.Keys;
    }
    var x, y := DeleteUntouched(a, source), DeleteUntouched(b, source);
    assert x.entries.Keys == y.entries.Keys;
  }
}
