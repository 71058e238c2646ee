// The edit as a whole: targets are located, their encoded prefixes measured, and the new prefixes spliced in
// from the last to the first (registrationNodeCodec.ts).
module NodeEdit {
  import opened Wrappers
  import opened Units
  import opened HookCommands
  import opened JsonText
  import opened NodeCodec

  // `saved` says whether the hashes of the command lines and arguments saved with the target agree.
  datatype Target = Target(mcp: bool, path: Path, suffix: Text, saved: bool)

  const COMMAND: Text := [0x63, 0x6F, 0x6D, 0x6D, 0x61, 0x6E, 0x64]
  const ARGS: Text := [0x61, 0x72, 0x67, 0x73]
  const TARGETS_BOUND := 4

  function Prefix(t: Target, node: Text): Text {
    if t.mcp then node else QuoteCommandPath(node)
  }

  function Command(t: Target, node: Text): Text {
    if t.mcp then node else QuoteCommandPath(node) + t.suffix
  }

  function NodePath(t: Target): Path {
    if t.mcp then t.path + [Name(COMMAND)] else t.path
  }

  predicate ThreeStrings(v: Option<Json>) {
    && v.Some? && v.value.Composite? && v.value.isArray
    && var f := v.value.fields;
    && f.Field? && f.value.String? && f.rest.Field? && f.rest.value.String? && f.rest.rest.Field?
    && f.rest.rest.value.String? && f.rest.rest.rest.NoFields?
  }

  // The value a target needs before the edit.
  predicate TargetHolds(v: Json, t: Target, before: Text) {
    && t.saved && NodePath(t) != []
    && At(v, NodePath(t)) == Some(String(Command(t, before)))
    && (t.mcp ==> ThreeStrings(At(v, t.path + [Name(ARGS)])))
  }

  // What the edit of one target does to the text and to its leaf.
  function EditOf(doc: Node, t: Target, before: Text, proposed: Text): (e: Edit)
    requires IsLeaf(doc, NodePath(t))
    ensures e.path == NodePath(t)
  {
    var place := Find(doc, NodePath(t)).value;
    var length := PrefixEnd(place.node.raw, |Prefix(t, before)|);
    var content := Escape(Prefix(t, proposed));
    Edit(NodePath(t), place.offset + 1, length, content,
         if length <= |place.node.raw| then content + place.node.raw[length..] else content)
  }

  predicate AllHold(doc: Node, targets: seq<Target>, before: Text)
    requires WellFormed(doc)
  {
    forall i :: 0 <= i < |targets| ==> TargetHolds(Decode(doc), targets[i], before)
  }

  lemma HoldsIsLeaf(doc: Node, t: Target, before: Text)
    requires WellFormed(doc) && TargetHolds(Decode(doc), t, before)
    ensures IsLeaf(doc, NodePath(t)) && Unescape(RawAt(doc, NodePath(t))) == Some(Command(t, before))
  {
    hide Unescape, Render, Find, At, NodePath, Command, ThreeStrings;
    FindIsAt(doc, NodePath(t));
  }

  function Edits(doc: Node, targets: seq<Target>, before: Text, proposed: Text): (r: seq<Edit>)
    requires WellFormed(doc) && AllHold(doc, targets, before)
    ensures |r| == |targets|
    ensures forall i :: 0 <= i < |r| ==> IsLeaf(doc, NodePath(targets[i])) && r[i] == EditOf(doc, targets[i], before, proposed)
  {
    hide EditOf, IsLeaf, NodePath, TargetHolds, Decode, WellFormed;
    if targets == [] then [] else
      var k := |targets| - 1;
      HoldsIsLeaf(doc, targets[k], before);
      Edits(doc, targets[..k], before, proposed) + [EditOf(doc, targets[k], before, proposed)]
  }

  // `replaceAt`, target after target.
  function ReplaceTargets(v: Json, targets: seq<Target>, proposed: Text): Json {
    if targets == [] then v
    else
      var t := targets[|targets| - 1];
      ReplaceAt(ReplaceTargets(v, targets[..|targets| - 1], proposed), NodePath(t), Command(t, proposed))
  }

  // ---- Descending splices ----

  predicate Descending(edits: seq<Edit>) {
    forall i :: 0 < i < |edits| ==> edits[i - 1].offset >= edits[i].offset
  }

  // The library's sort by descending offset, which keeps equal offsets in order.
  function Insert(sorted: seq<Edit>, e: Edit): (r: seq<Edit>)
    ensures |r| == |sorted| + 1 && (r[0] == e || (sorted != [] && r[0] == sorted[0]))
  {
    if sorted == [] || sorted[0].offset < e.offset then [e] + sorted else [sorted[0]] + Insert(sorted[1..], e)
  }

  function Sort(edits: seq<Edit>): (r: seq<Edit>)
    ensures |r| == |edits|
  {
    if edits == [] then [] else Insert(Sort(edits[..|edits| - 1]), edits[|edits| - 1])
  }

  lemma {:induction false} InsertDescends(sorted: seq<Edit>, e: Edit)
    requires Descending(sorted)
    ensures Descending(Insert(sorted, e))
  {
    if sorted != [] && sorted[0].offset >= e.offset {
      assert Descending(sorted[1..]);
      InsertDescends(sorted[1..], e);
      var rest := Insert(sorted[1..], e);
      assert Insert(sorted, e) == [sorted[0]] + rest && sorted[0].offset >= rest[0].offset by {
        assert sorted[1..] != [] ==> sorted[0].offset >= sorted[1].offset;
      }
    }
  }

  lemma {:induction false} InsertAdds(sorted: seq<Edit>, e: Edit)
    ensures multiset(Insert(sorted, e)) == multiset(sorted) + multiset{e}
  {
    if sorted != [] && sorted[0].offset >= e.offset {
      InsertAdds(sorted[1..], e);
      assert sorted == [sorted[0]] + sorted[1..];
    }
  }

  lemma {:induction false} SortSorts(edits: seq<Edit>)
    ensures Descending(Sort(edits)) && multiset(Sort(edits)) == multiset(edits)
  {
    hide Insert;
    if edits != [] {
      var k := |edits| - 1;
      SortSorts(edits[..k]);
      InsertDescends(Sort(edits[..k]), edits[k]);
      InsertAdds(Sort(edits[..k]), edits[k]);
      assert edits == edits[..k] + [edits[k]];
    }
  }

  // One replacement of all ranges at once, for ranges listed from the last to the first.
  function Simultaneous(text: Text, edits: seq<Edit>, end: nat): Text
    requires end <= |text| && Apart(edits, end)
  {
    if edits == [] then text[..end]
    else
      var e := edits[0];
      Simultaneous(text, edits[1..], e.offset) + e.content + text[e.offset + e.length..end]
  }

  // Each range ends where the one after it in the text begins, or before.
  predicate Apart(edits: seq<Edit>, end: nat) {
    edits == [] || (edits[0].offset + edits[0].length <= end && Apart(edits[1..], edits[0].offset))
  }

  // ---- What one edit does ----

  function Suffix(t: Target): Text {
    if t.mcp then [] else t.suffix
  }

  lemma CommandSplits(t: Target, node: Text)
    requires node != []
    ensures Command(t, node) == Prefix(t, node) + Suffix(t) && Prefix(t, node) != []
  {
    assert node + [] == node;
  }

  // The edit takes a non-empty encoded prefix and leaves the leaf with the proposed command.
  lemma EditIs(doc: Node, t: Target, before: Text, proposed: Text)
    requires WellFormed(doc) && TargetHolds(Decode(doc), t, before) && before != [] && proposed != []
    requires IsLeaf(doc, NodePath(t))
    ensures var e := EditOf(doc, t, before, proposed);
      && 0 < e.length <= |RawAt(doc, NodePath(t))|
      && e.raw == e.content + RawAt(doc, NodePath(t))[e.length..]
      && Unescape(e.raw) == Some(Command(t, proposed))
  {
    hide Unescape, Find, PrefixEnd, Escape, NodePath, TargetHolds, Prefix, Command, Suffix, Decode, WellFormed;
    HoldsIsLeaf(doc, t, before);
    CommandSplits(t, before);
    CommandSplits(t, proposed);
    PrefixExchange(RawAt(doc, NodePath(t)), Prefix(t, before), Suffix(t), Prefix(t, proposed));
  }

  predicate DistinctNodes(targets: seq<Target>) {
    forall i, j :: 0 <= i < j < |targets| ==> NodePath(targets[i]) != NodePath(targets[j])
  }

  predicate DistinctTargets(targets: seq<Target>) {
    forall i, j :: 0 <= i < j < |targets| ==> targets[i].path != targets[j].path
  }

  predicate Acceptable(doc: Node, targets: seq<Target>, before: Text, proposed: Text)
    requires WellFormed(doc)
  {
    && 0 < |targets| <= TARGETS_BOUND
    && before != proposed && before != [] && proposed != []
    && AllHold(doc, targets, before)
    && DistinctTargets(targets) && DistinctNodes(targets)
  }

  lemma EditsDistinct(doc: Node, targets: seq<Target>, before: Text, proposed: Text)
    requires WellFormed(doc) && AllHold(doc, targets, before)
    ensures LeafEdits(doc, Edits(doc, targets, before, proposed))
    ensures DistinctPaths(Edits(doc, targets, before, proposed)) <==> DistinctNodes(targets)
  {
    hide Decode, WellFormed, TargetHolds, IsLeaf, EditOf, NodePath;
    var edits := Edits(doc, targets, before, proposed);
    assert forall i :: 0 <= i < |edits| ==> edits[i].path == NodePath(targets[i]);
  }

  lemma LastEdit(doc: Node, targets: seq<Target>, before: Text, proposed: Text)
    requires WellFormed(doc) && AllHold(doc, targets, before) && targets != []
    ensures var k := |targets| - 1;
      && IsLeaf(doc, NodePath(targets[k]))
      && Edits(doc, targets, before, proposed) == Edits(doc, targets[..k], before, proposed) + [EditOf(doc, targets[k], before, proposed)]
  {
    hide Decode, WellFormed, TargetHolds, EditOf, NodePath, Find;
    HoldsIsLeaf(doc, targets[|targets| - 1], before);
  }

  lemma SetAllStep(doc: Node, edits: seq<Edit>, e: Edit)
    ensures SetAll(doc, edits + [e]) == SetRaw(SetAll(doc, edits), e.path, e.raw)
  {
    hide SetRaw;
    assert (edits + [e])[..|edits|] == edits;
  }

  // Decoding the edited document is replacing the targets' values in the decoded document.
  lemma {:induction false} EditDecodes(doc: Node, targets: seq<Target>, before: Text, proposed: Text)
    requires WellFormed(doc) && AllHold(doc, targets, before) && DistinctNodes(targets) && before != [] && proposed != []
    ensures var after := SetAll(doc, Edits(doc, targets, before, proposed));
      WellFormed(after) && Decode(after) == ReplaceTargets(Decode(doc), targets, proposed)
  {
    hide Decode, SetRaw, ReplaceAt, WellFormed, Find, TargetHolds, NodePath, Command, EditOf, Unescape, IsLeaf, DistinctPaths, LeafEdits, RawAt;
    if targets != [] {
      hide SetAll, Edits;
      var k := |targets| - 1;
      var t := targets[k];
      EditDecodes(doc, targets[..k], before, proposed);
      var edits := Edits(doc, targets[..k], before, proposed);
      LastEdit(doc, targets, before, proposed);
      EditIs(doc, t, before, proposed);
      EditsDistinct(doc, targets[..k], before, proposed);
      var e := EditOf(doc, t, before, proposed);
      assert DistinctNodes(targets[..k]);
      SetOneMore(doc, edits, e.path, e.raw);
      SetAllStep(doc, edits, e);
    }
  }

  lemma SetOneMore(doc: Node, edits: seq<Edit>, path: Path, raw: Text)
    requires LeafEdits(doc, edits) && DistinctPaths(edits) && IsLeaf(doc, path)
    requires WellFormed(SetAll(doc, edits)) && Unescape(raw).Some?
    ensures WellFormed(SetRaw(SetAll(doc, edits), path, raw))
      && Decode(SetRaw(SetAll(doc, edits), path, raw)) == ReplaceAt(Decode(SetAll(doc, edits)), path, Unescape(raw).value)
  {
    hide Decode, SetRaw, ReplaceAt, WellFormed, Find, IsLeaf, Unescape, SetAll;
    SetAllKeepsLeaf(doc, edits, path);
    SetIsReplace(SetAll(doc, edits), path, raw);
  }

  lemma {:induction false} EditsConcat(doc: Node, x: seq<Target>, y: seq<Target>, before: Text, proposed: Text)
    requires WellFormed(doc) && AllHold(doc, x, before) && AllHold(doc, y, before)
    ensures AllHold(doc, x + y, before)
    ensures Edits(doc, x + y, before, proposed) == Edits(doc, x, before, proposed) + Edits(doc, y, before, proposed)
    decreases |y|
  {
    hide Decode, WellFormed, TargetHolds, EditOf, IsLeaf, NodePath;
    if y == [] {
      assert x + y == x;
    } else {
      var k := |y| - 1;
      EditsConcat(doc, x, y[..k], before, proposed);
      assert (x + y)[..|x + y| - 1] == x + y[..k];
      assert (x + y)[|x + y| - 1] == y[k];
    }
  }

  lemma HoldParts(doc: Node, a: seq<Target>, t: Target, b: seq<Target>, before: Text)
    requires WellFormed(doc) && AllHold(doc, a + [t] + b, before)
    ensures AllHold(doc, a, before) && AllHold(doc, [t], before) && AllHold(doc, b, before)
  {
    hide Decode, WellFormed, TargetHolds;
    var all := a + [t] + b;
    assert all[|a|] == t;
    assert forall i :: 0 <= i < |a| ==> a[i] == all[i];
    assert forall i :: 0 <= i < |b| ==> b[i] == all[|a| + 1 + i];
  }

  lemma EditsOne(doc: Node, t: Target, before: Text, proposed: Text)
    requires WellFormed(doc) && AllHold(doc, [t], before)
    ensures IsLeaf(doc, NodePath(t)) && Edits(doc, [t], before, proposed) == [EditOf(doc, t, before, proposed)]
  {
    hide Decode, WellFormed, TargetHolds, EditOf, IsLeaf, NodePath;
    assert [t][0] == t;
    HoldsIsLeaf(doc, t, before);
  }

  lemma EditsSplit(doc: Node, a: seq<Target>, t: Target, b: seq<Target>, before: Text, proposed: Text)
    requires WellFormed(doc) && AllHold(doc, a + [t] + b, before)
    ensures AllHold(doc, a, before) && AllHold(doc, b, before) && AllHold(doc, a + b, before) && IsLeaf(doc, NodePath(t))
    ensures Edits(doc, a + [t] + b, before, proposed)
      == Edits(doc, a, before, proposed) + [EditOf(doc, t, before, proposed)] + Edits(doc, b, before, proposed)
    ensures Edits(doc, a + b, before, proposed) == Edits(doc, a, before, proposed) + Edits(doc, b, before, proposed)
  {
    hide *;
    HoldParts(doc, a, t, b, before);
    EditsOne(doc, t, before, proposed);
    EditsConcat(doc, a, [t], before, proposed);
    EditsConcat(doc, a + [t], b, before, proposed);
    EditsConcat(doc, a, b, before, proposed);
  }

  lemma {:induction false} EditsPermute(doc: Node, x: seq<Target>, y: seq<Target>, before: Text, proposed: Text)
    requires WellFormed(doc) && AllHold(doc, x, before) && AllHold(doc, y, before) && multiset(x) == multiset(y)
    ensures multiset(Edits(doc, x, before, proposed)) == multiset(Edits(doc, y, before, proposed))
    decreases |x|
  {
    hide Decode, WellFormed, TargetHolds, EditOf, IsLeaf, AllHold, NodePath;
    if x == [] {
      assert |y| == |multiset(y)| == 0;
    } else {
      var k := |x| - 1;
      var a: seq<Target>, b: seq<Target> := TakeOut(x, y);
      assert x == x[..k] + [x[k]] + [];
      EditsSplit(doc, x[..k], x[k], [], before, proposed);
      EditsSplit(doc, a, x[k], b, before, proposed);
      EditsPermute(doc, x[..k], a + b, before, proposed);
      MultisetOf(Edits(doc, a, before, proposed), EditOf(doc, x[k], before, proposed), Edits(doc, b, before, proposed));
      MultisetOf(Edits(doc, x[..k], before, proposed), EditOf(doc, x[k], before, proposed), []);
      assert Edits(doc, x[..k], before, proposed) + [] == Edits(doc, x[..k], before, proposed);
      assert Edits(doc, [], before, proposed) == [];
    }
  }

  // Whatever order the targets come in, the document and the values it decodes to are the same.
  lemma AnyTargetOrder(doc: Node, x: seq<Target>, y: seq<Target>, before: Text, proposed: Text)
    requires WellFormed(doc) && multiset(x) == multiset(y)
    requires Acceptable(doc, x, before, proposed) && Acceptable(doc, y, before, proposed)
    ensures SetAll(doc, Edits(doc, x, before, proposed)) == SetAll(doc, Edits(doc, y, before, proposed))
    ensures ReplaceTargets(Decode(doc), x, proposed) == ReplaceTargets(Decode(doc), y, proposed)
  {
    hide Decode, WellFormed, SetAll, TargetHolds, NodePath, IsLeaf;
    EditsPermute(doc, x, y, before, proposed);
    AnyOrder(doc, Edits(doc, x, before, proposed), Edits(doc, y, before, proposed));
    EditDecodes(doc, x, before, proposed);
    EditDecodes(doc, y, before, proposed);
  }

  // ---- The loops ----

  lemma SpliceTail(text: Text, e: Edit, previous: nat, tail: Text)
    requires previous <= |text| && e.offset + e.length <= previous
    ensures Splice(text[..previous] + tail, e.offset, e.length, e.content)
      == text[..e.offset] + (e.content + text[e.offset + e.length..previous] + tail)
  {
    var all := text[..previous] + tail;
    assert all[..e.offset] == text[..e.offset];
    assert all[e.offset + e.length..] == text[e.offset + e.length..previous] + tail;
  }

  // What holds of a list of edits made for a document.
  ghost predicate EditFit(doc: Node, e: Edit) {
    && IsLeaf(doc, e.path)
    && e.offset == Find(doc, e.path).value.offset + 1
    && 0 < e.length <= |RawAt(doc, e.path)|
    && e.raw == e.content + RawAt(doc, e.path)[e.length..]
  }

  ghost predicate EditsFit(doc: Node, edits: seq<Edit>) {
    forall i :: 0 <= i < |edits| ==> EditFit(doc, edits[i])
  }

  lemma {:induction false} OffsetsDescend(edits: seq<Edit>, i: nat, j: nat)
    requires Descending(edits) && i <= j < |edits|
    ensures edits[i].offset >= edits[j].offset
    decreases j - i
  {
    if i < j {
      OffsetsDescend(edits, i, j - 1);
    }
  }

  // Two neighbours in the descending order are apart exactly when they are different leaves.
  lemma NeighboursApart(doc: Node, late: Edit, early: Edit)
    requires EditFit(doc, late) && EditFit(doc, early) && late.offset >= early.offset
    ensures early.offset + early.length <= late.offset <==> late.path != early.path
  {
    hide Find, SetRaw;
    if late.path != early.path {
      LeavesApart(doc, late.path, early.path, []);
    }
  }

  lemma FirstInside(doc: Node, e: Edit)
    requires EditFit(doc, e)
    ensures e.offset + e.length <= |Render(doc)|
  {
    hide Find, Render;
    LeafInside(doc, e.path);
  }

  // How far the splice loop has come: in the text, and in the document the text is a rendering of.
  ghost predicate TextSpliced(text: Text, edits: seq<Edit>, k: nat, previous: nat, tail: Text)
    requires k <= |edits|
  {
    && previous <= |text|
    && (Apart(edits, |text|) <==> Apart(edits[k..], previous))
    && (Apart(edits, |text|) ==> Simultaneous(text, edits, |text|) == Simultaneous(text, edits[k..], previous) + tail)
  }

  ghost predicate TreeSpliced(doc: Node, edits: seq<Edit>, k: nat, tree: Node)
    requires k <= |edits|
  {
    && tree == SetAll(doc, edits[..k])
    && (forall j :: k <= j < |edits| && (k == 0 || edits[j].offset < edits[k - 1].offset) ==> Find(tree, edits[j].path) == Find(doc, edits[j].path))
  }

  lemma TextStep(text: Text, edits: seq<Edit>, k: nat, previous: nat, tail: Text)
    requires k < |edits| && TextSpliced(text, edits, k, previous, tail) && edits[k].offset + edits[k].length <= previous
    ensures var e := edits[k];
      TextSpliced(text, edits, k + 1, e.offset, e.content + text[e.offset + e.length..previous] + tail)
  {
    hide Simultaneous;
    SimultaneousStep(text, edits[k..], previous, tail);
    assert edits[k..][1..] == edits[k + 1..];
  }

  lemma TextStart(text: Text, edits: seq<Edit>)
    ensures TextSpliced(text, edits, 0, |text|, []) && text[..|text|] + [] == text
  {
    hide Simultaneous;
    assert edits[0..] == edits;
    assert Apart(edits, |text|) ==> Simultaneous(text, edits, |text|) + [] == Simultaneous(text, edits, |text|);
  }

  lemma TextEnd(text: Text, edits: seq<Edit>, previous: nat, tail: Text)
    requires TextSpliced(text, edits, |edits|, previous, tail)
    ensures Apart(edits, |text|) && Simultaneous(text, edits, |text|) == text[..previous] + tail
  {
    hide Simultaneous;
    SimultaneousStep(text, [], previous, tail);
  }

  lemma TreeStep(doc: Node, edits: seq<Edit>, k: nat, tree: Node)
    requires k < |edits| && EditsFit(doc, edits) && TreeSpliced(doc, edits, k, tree) && Descending(edits)
    requires k > 0 ==> edits[k].offset < edits[k - 1].offset
    ensures TreeSpliced(doc, edits, k + 1, SetRaw(tree, edits[k].path, edits[k].raw))
  {
    hide SetRaw, Find;
    var e := edits[k];
    forall j | k < j < |edits| && edits[j].offset < e.offset
      ensures Find(SetRaw(tree, e.path, e.raw), edits[j].path) == Find(doc, edits[j].path)
    {
      LeavesApart(tree, e.path, edits[j].path, e.raw);
    }
    assert edits[..k + 1][..k] == edits[..k];
  }

  lemma TreeSplice(doc: Node, edits: seq<Edit>, k: nat, tree: Node)
    requires k < |edits| && EditsFit(doc, edits) && TreeSpliced(doc, edits, k, tree)
    requires k > 0 ==> edits[k].offset < edits[k - 1].offset
    ensures var e := edits[k];
      && e.offset + e.length <= |Render(tree)|
      && Splice(Render(tree), e.offset, e.length, e.content) == Render(SetRaw(tree, e.path, e.raw))
  {
    hide SetRaw, Render, Splice, Find;
    SpliceIsSet(tree, edits[k].path, edits[k].length, edits[k].content);
  }

  lemma DescentIsDistinct(doc: Node, edits: seq<Edit>)
    requires EditsFit(doc, edits) && Descending(edits) && forall i :: 0 < i < |edits| ==> edits[i].offset < edits[i - 1].offset
    ensures DistinctPaths(edits)
  {
    hide Find;
    forall i, j | 0 <= i < j < |edits|
      ensures edits[i].path != edits[j].path
    {
      OffsetsDescend(edits, i, j - 1);
    }
  }

  // The splice loop: from the last edit to the first, each in the text the later ones left.
  method SpliceEdits(doc: Node, edits: seq<Edit>) returns (r: Result<Text>, tree: Node)
    requires EditsFit(doc, edits) && Descending(edits)
    ensures r.Ok? <==> DistinctPaths(edits)
    ensures r.Ok? ==>
      && tree == SetAll(doc, edits) && r.value == Render(tree)
      && Apart(edits, |Render(doc)|) && r.value == Simultaneous(Render(doc), edits, |Render(doc)|)
  {
    hide Render, SetRaw, Find, Simultaneous, Splice, TextSpliced, TreeSpliced, Apart, IsLeaf, EditFit;
    var text := Render(doc);
    var afterText, previous := text, |text|;
    tree := doc;
    ghost var tail: Text := [];
    TextStart(text, edits);
    TreeStart(doc, edits);
    for k := 0 to |edits|
      invariant previous == if k == 0 then |text| else edits[k - 1].offset
      invariant previous <= |text| && afterText == text[..previous] + tail && afterText == Render(tree)
      invariant TextSpliced(text, edits, k, previous, tail) && TreeSpliced(doc, edits, k, tree)
      invariant forall i :: 0 < i < k ==> edits[i].offset < edits[i - 1].offset
    {
      var e := edits[k];
      FitLength(doc, e);
      if e.offset + e.length > previous {
        if k == 0 {
          FirstInside(doc, e);
        } else {
          assert EditFit(doc, edits[k - 1]);
          NeighboursApart(doc, edits[k - 1], e);
        }
        return Err("registration_edit_overlap"), tree;
      }
      SpliceTail(text, e, previous, tail);
      TreeSplice(doc, edits, k, tree);
      TextStep(text, edits, k, previous, tail);
      TreeStep(doc, edits, k, tree);
      afterText := Splice(afterText, e.offset, e.length, e.content);
      tail := e.content + text[e.offset + e.length..previous] + tail;
      tree := SetRaw(tree, e.path, e.raw);
      previous := e.offset;
    }
    TextEnd(text, edits, previous, tail);
    TreeEnd(doc, edits, tree);
    DescentIsDistinct(doc, edits);
    r := Ok(afterText);
  }

  lemma FitLength(doc: Node, e: Edit)
    requires EditFit(doc, e)
    ensures e.length > 0
  {
  }

  lemma TreeStart(doc: Node, edits: seq<Edit>)
    ensures TreeSpliced(doc, edits, 0, doc)
  {
  }

  lemma TreeEnd(doc: Node, edits: seq<Edit>, tree: Node)
    requires TreeSpliced(doc, edits, |edits|, tree)
    ensures tree == SetAll(doc, edits)
  {
    assert edits[..|edits|] == edits;
  }

  lemma SimultaneousStep(text: Text, edits: seq<Edit>, previous: nat, tail: Text)
    requires previous <= |text|
    ensures edits == [] ==> Simultaneous(text, edits, previous) == text[..previous]
    ensures edits != [] && Apart(edits, previous) ==>
      Simultaneous(text, edits, previous) + tail
        == Simultaneous(text, edits[1..], edits[0].offset)
           + (edits[0].content + text[edits[0].offset + edits[0].length..previous] + tail)
  {
  }

  lemma EditsFitAll(doc: Node, targets: seq<Target>, before: Text, proposed: Text)
    requires WellFormed(doc) && AllHold(doc, targets, before) && before != [] && proposed != []
    ensures EditsFit(doc, Edits(doc, targets, before, proposed))
  {
    hide Decode, WellFormed, TargetHolds, EditFit, IsLeaf, EditOf, NodePath;
    var edits := Edits(doc, targets, before, proposed);
    forall i | 0 <= i < |edits|
      ensures EditFit(doc, edits[i])
    {
      EditIsFit(doc, targets[i], before, proposed);
    }
  }

  lemma EditIsFit(doc: Node, t: Target, before: Text, proposed: Text)
    requires WellFormed(doc) && TargetHolds(Decode(doc), t, before) && before != [] && proposed != []
    requires IsLeaf(doc, NodePath(t))
    ensures EditFit(doc, EditOf(doc, t, before, proposed))
  {
    hide Decode, WellFormed, TargetHolds, NodePath, Find, PrefixEnd, Escape, Unescape, Prefix;
    EditIs(doc, t, before, proposed);
  }

  lemma FitPermutes(doc: Node, x: seq<Edit>, y: seq<Edit>)
    requires EditsFit(doc, x) && multiset(x) == multiset(y)
    ensures EditsFit(doc, y) && LeafEdits(doc, x) && LeafEdits(doc, y)
  {
    hide Find, IsLeaf, RawAt;
    forall i | 0 <= i < |y|
      ensures y[i] in x
    {
      assert y[i] in multiset(x);
    }
  }

  // Locate every target and measure its encoded prefix.
  method LocateEdits(doc: Node, targets: seq<Target>, before: Text, proposed: Text) returns (r: Result<seq<Edit>>)
    requires WellFormed(doc)
    ensures r.Ok? <==> AllHold(doc, targets, before) && DistinctTargets(targets)
    ensures r.Ok? ==> r.value == Edits(doc, targets, before, proposed)
  {
    hide Decode, WellFormed, Find, Unescape, EditOf, IsLeaf, NodePath, RawAt, TargetHolds, Prefix, AllHold, DistinctTargets;
    var edits: seq<Edit> := [];
    NoTargets(doc, targets, before);
    for k := 0 to |targets|
      invariant AllHold(doc, targets[..k], before) && DistinctTargets(targets[..k])
      invariant edits == Edits(doc, targets[..k], before, proposed)
    {
      var t := targets[k];
      LocateStep(doc, targets, before, k);
      if exists j :: 0 <= j < k && targets[j].path == t.path {
        return Err("registration_duplicate_target");
      }
      if !TargetHolds(Decode(doc), t, before) {
        return Err("registration_target_value_changed");
      }
      MeasureIs(doc, t, before);
      var measured := JsonPrefixLength(RawAt(doc, NodePath(t)), Prefix(t, before));
      var edit := MakeEdit(doc, t, measured.value, before, proposed);
      edits := edits + [edit];
    }
    assert targets[..|targets|] == targets;
    return Ok(edits);
  }

  lemma NoTargets(doc: Node, targets: seq<Target>, before: Text)
    requires WellFormed(doc)
    ensures AllHold(doc, targets[..0], before) && DistinctTargets(targets[..0])
  {
  }

  lemma LocateStep(doc: Node, targets: seq<Target>, before: Text, k: nat)
    requires WellFormed(doc) && k < |targets|
    ensures AllHold(doc, targets[..k + 1], before) <==> AllHold(doc, targets[..k], before) && TargetHolds(Decode(doc), targets[k], before)
    ensures AllHold(doc, targets, before) ==> AllHold(doc, targets[..k + 1], before)
    ensures DistinctTargets(targets[..k + 1])
      <==> DistinctTargets(targets[..k]) && !(exists j :: 0 <= j < k && targets[j].path == targets[k].path)
    ensures DistinctTargets(targets) ==> DistinctTargets(targets[..k + 1])
    ensures targets[..k + 1][..k] == targets[..k] && targets[..k + 1] == targets[..k] + [targets[k]]
  {
    hide WellFormed, Decode, TargetHolds;
    var more := targets[..k + 1];
    assert more[..k] == targets[..k] && more[k] == targets[k];
    assert forall j :: 0 <= j < k ==> more[j] == targets[..k][j];
  }

  lemma SortedSame(doc: Node, edits: seq<Edit>)
    requires EditsFit(doc, edits)
    ensures EditsFit(doc, Sort(edits)) && Descending(Sort(edits))
    ensures DistinctPaths(Sort(edits)) <==> DistinctPaths(edits)
    ensures DistinctPaths(edits) ==> SetAll(doc, Sort(edits)) == SetAll(doc, edits)
  {
    hide EditFit, IsLeaf, SetAll, Sort, DistinctPaths, LeafEdits, EditsFit, Descending;
    SortSorts(edits);
    FitPermutes(doc, edits, Sort(edits));
    if DistinctPaths(edits) {
      DistinctPermutes(edits, Sort(edits));
      AnyOrder(doc, Sort(edits), edits);
    }
    if DistinctPaths(Sort(edits)) {
      DistinctPermutes(Sort(edits), edits);
    }
  }

  // The edit is accepted exactly when every target holds and no two name the same string; the result is one
  // simultaneous replacement in the text, and the rendering of the document with the new leaves.
  method EditRegistrationNode(doc: Node, targets: seq<Target>, before: Text, proposed: Text) returns (r: Result<Text>)
    requires WellFormed(doc)
    ensures r.Ok? <==> Acceptable(doc, targets, before, proposed)
    ensures r.Ok? ==>
      var edits := Edits(doc, targets, before, proposed);
      && r.value == Render(SetAll(doc, edits))
      && Apart(Sort(edits), |Render(doc)|) && r.value == Simultaneous(Render(doc), Sort(edits), |Render(doc)|)
  {
    hide AllHold, DistinctTargets, DistinctNodes, DistinctPaths, EditsFit, WellFormed, Render, SetAll, Sort, Apart, Simultaneous, Edits, Descending, Decode, ReplaceTargets;
    if !(0 < |targets| <= TARGETS_BOUND) || before == proposed || before == [] || proposed == [] {
      return Err("registration_codec_bound");
    }
    var located := LocateEdits(doc, targets, before, proposed);
    if located.Err? {
      return Err(located.error);
    }
    var edits := located.value;
    EditsFitAll(doc, targets, before, proposed);
    EditsDistinct(doc, targets, before, proposed);
    SortedSame(doc, edits);
    var spliced, tree := SpliceEdits(doc, Sort(edits));
    if spliced.Err? {
      return spliced;
    }
    EditDecodes(doc, targets, before, proposed);
    if Decode(tree) != ReplaceTargets(Decode(doc), targets, proposed) {
      return Err("registration_other_values_changed");
    }
    return spliced;
  }

  // A target that holds starts with the measured prefix.
  lemma MeasureIs(doc: Node, t: Target, before: Text)
    requires WellFormed(doc) && TargetHolds(Decode(doc), t, before)
    ensures IsLeaf(doc, NodePath(t)) && Unescape(RawAt(doc, NodePath(t))).Some?
      && Prefix(t, before) <= Unescape(RawAt(doc, NodePath(t))).value
  {
    hide Decode, WellFormed, Unescape, TargetHolds, NodePath, Find;
    HoldsIsLeaf(doc, t, before);
    assert Command(t, before) == Prefix(t, before) + Suffix(t) by {
      if t.mcp {
        assert before + [] == before;
      }
    }
  }

  method MakeEdit(doc: Node, t: Target, length: nat, before: Text, proposed: Text) returns (e: Edit)
    requires IsLeaf(doc, NodePath(t)) && length == PrefixEnd(RawAt(doc, NodePath(t)), |Prefix(t, before)|) <= |RawAt(doc, NodePath(t))|
    ensures e == EditOf(doc, t, before, proposed)
  {
    hide PrefixEnd, Prefix, Escape, NodePath;
    var place := Find(doc, NodePath(t)).value;
    var content := Escape(Prefix(t, proposed));
    e := Edit(NodePath(t), place.offset + 1, length, content, content + place.node.raw[length..]);
  }

  // The accepted edit changes the targets' strings and no other: every other string token keeps its raw
  // text, and everything between the tokens is the same.
  lemma OnlyTargetsChange(doc: Node, targets: seq<Target>, before: Text, proposed: Text, q: Path)
    requires WellFormed(doc) && Acceptable(doc, targets, before, proposed) && IsLeaf(doc, q)
    ensures var after := SetAll(doc, Edits(doc, targets, before, proposed));
      && Skeleton(after) == Skeleton(doc) && IsLeaf(after, q)
      && (forall i :: 0 <= i < |targets| && NodePath(targets[i]) == q ==>
            Unescape(RawAt(after, q)) == Some(Command(targets[i], proposed)))
      && ((forall i :: 0 <= i < |targets| ==> NodePath(targets[i]) != q) ==> RawAt(after, q) == RawAt(doc, q))
  {
    hide Decode, WellFormed, TargetHolds, Find, Unescape, NodePath, Skeleton, SetAll, Command, Prefix, Escape, EditOf, IsLeaf, RawAt;
    var edits := Edits(doc, targets, before, proposed);
    EditsDistinct(doc, targets, before, proposed);
    SetAllReads(doc, edits, q);
    forall i | 0 <= i < |targets| && NodePath(targets[i]) == q
      ensures edits[i].path == q && Unescape(edits[i].raw) == Some(Command(targets[i], proposed))
    {
      EditIs(doc, targets[i], before, proposed);
    }
  }

  /** Taken apart as a command line, an edited hook command differs from the old one in its first token alone: the
      proposed node stands where the old one stood. */
  lemma OnlyNodeTokenChanges(t: Target, before: Text, proposed: Text)
    requires !t.mcp && (t.suffix == [] || IsSpace(t.suffix[0]))
    requires before != [] && QUOTE !in before && proposed != [] && QUOTE !in proposed
    ensures Tokens(Command(t, before)) == Prepended([before], Tokens(t.suffix))
    ensures Tokens(Command(t, proposed)) == Prepended([proposed], Tokens(t.suffix))
  {
    hide QuoteCommandPath, Tokens;
    PathIsFirstToken(before, t.suffix);
    PathIsFirstToken(proposed, t.suffix);
  }
}
