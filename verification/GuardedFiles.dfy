// The part of the path guard that the global migration and its recovery rely on: names hold whole
// objects, a move never overwrites, and a moved object keeps everything but its root change time.
module GuardedFiles {
  datatype Place = Place(directory: string, name: string)

  // A retained tree. `contents` stands for the nested rows (relative path to content identity);
  // `changed` is the root change time, the only attribute a rename may alter.
  datatype Tree = Tree(identity: nat, changed: nat, contents: map<string, string>)

  type Files = map<Place, Tree>

  predicate SameObject(a: Tree, b: Tree) {
    a.identity == b.identity && a.contents == b.contents
  }

  predicate CanMove(files: Files, from: Place, to: Place) {
    from in files && to !in files
  }

  function Move(files: Files, from: Place, to: Place, changed: nat): Files
    requires CanMove(files, from, to)
  {
    (files - {from})[to := files[from].(changed := changed)]
  }

  // Some name still holds the object, whatever its change time.
  ghost predicate Survives(files: Files, tree: Tree) {
    exists p :: p in files && SameObject(files[p], tree)
  }

  lemma MoveLosesNothing(files: Files, from: Place, to: Place, changed: nat, tree: Tree)
    requires CanMove(files, from, to) && Survives(files, tree)
    ensures Survives(Move(files, from, to, changed), tree)
  {
    var after := Move(files, from, to, changed);
    var p :| p in files && SameObject(files[p], tree);
    var q := if p == from then to else p;
    assert q in after && SameObject(after[q], tree);
  }
}
