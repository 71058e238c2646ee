// The byte-preserving edit of a JSON registration file (registrationNodeCodec.ts). A document is the tree the
// parser locates in the text; rendering the tree gives the text back.
module NodeCodec {
  import opened Wrappers
  import opened Units
  import opened JsonText

  datatype Key = Name(name: Text) | Index(index: nat)
  type Path = seq<Key>

  // A slot's lead is everything before its value: separators, blanks and, in an object, the encoded key.
  datatype Node =
    | Plain(text: Text)
    | StringNode(raw: Text)
    | Container(isArray: bool, open: Text, slots: Slots)
  datatype Slots = End(close: Text) | Slot(lead: Text, key: Key, node: Node, rest: Slots)

  datatype Json = Scalar(text: Text) | String(value: Text) | Composite(isArray: bool, fields: Fields)
  datatype Fields = NoFields | Field(key: Key, value: Json, rest: Fields)

  function QuotedRaw(raw: Text): Text {
    [QUOTE] + raw + [QUOTE]
  }

  function Render(n: Node): Text {
    match n
    case Plain(text) => text
    case StringNode(raw) => QuotedRaw(raw)
    case Container(_, open, slots) => open + RenderSlots(slots)
  }

  function RenderSlots(s: Slots): Text {
    match s
    case End(close) => close
    case Slot(lead, _, node, rest) => lead + Render(node) + RenderSlots(rest)
  }

  // Every string token holds the text of a JSON string.
  predicate WellFormed(n: Node) {
    match n
    case Plain(_) => true
    case StringNode(raw) => Unescape(raw).Some?
    case Container(_, _, slots) => WellFormedSlots(slots)
  }

  predicate WellFormedSlots(s: Slots) {
    match s
    case End(_) => true
    case Slot(_, _, node, rest) => WellFormed(node) && WellFormedSlots(rest)
  }

  function Decode(n: Node): Json
    requires WellFormed(n)
  {
    match n
    case Plain(text) => Scalar(text)
    case StringNode(raw) => String(Unescape(raw).value)
    case Container(isArray, _, slots) => Composite(isArray, DecodeSlots(slots))
  }

  function DecodeSlots(s: Slots): Fields
    requires WellFormedSlots(s)
  {
    match s
    case End(_) => NoFields
    case Slot(_, key, node, rest) => Field(key, Decode(node), DecodeSlots(rest))
  }

  // ---- Values: `at` and `replaceAt` ----

  function At(v: Json, path: Path): Option<Json> {
    if path == [] then Some(v) else if v.Composite? then AtFields(v.fields, path) else None
  }

  function AtFields(f: Fields, path: Path): Option<Json>
    requires path != []
  {
    match f
    case NoFields => None
    case Field(key, value, rest) => if key == path[0] then At(value, path[1..]) else AtFields(rest, path)
  }

  function ReplaceAt(v: Json, path: Path, next: Text): Json {
    if path == [] then String(next) else if v.Composite? then v.(fields := ReplaceField(v.fields, path, next)) else v
  }

  function ReplaceField(f: Fields, path: Path, next: Text): Fields
    requires path != []
  {
    match f
    case NoFields => NoFields
    case Field(key, value, rest) =>
      if key == path[0] then Field(key, ReplaceAt(value, path[1..], next), rest)
      else Field(key, value, ReplaceField(rest, path, next))
  }

  // ---- Locations in the text ----

  datatype Found = Found(offset: nat, node: Node)

  function Shift(f: Option<Found>, width: nat): Option<Found> {
    if f.None? then None else Some(Found(f.value.offset + width, f.value.node))
  }

  function Find(n: Node, path: Path): Option<Found> {
    if path == [] then Some(Found(0, n)) else if n.Container? then Shift(FindSlot(n.slots, path), |n.open|) else None
  }

  function FindSlot(s: Slots, path: Path): Option<Found>
    requires path != []
  {
    match s
    case End(_) => None
    case Slot(lead, key, node, rest) =>
      if key == path[0] then Shift(Find(node, path[1..]), |lead|)
      else Shift(FindSlot(rest, path), |lead| + |Render(node)|)
  }

  predicate IsLeaf(n: Node, path: Path) {
    Find(n, path).Some? && Find(n, path).value.node.StringNode?
  }

  function RawAt(n: Node, path: Path): Text
    requires IsLeaf(n, path)
  {
    Find(n, path).value.node.raw
  }

  // The document with another raw text in one string token.
  function SetRaw(n: Node, path: Path, raw: Text): Node {
    if path == [] then (if n.StringNode? then StringNode(raw) else n)
    else if n.Container? then n.(slots := SetSlot(n.slots, path, raw)) else n
  }

  function SetSlot(s: Slots, path: Path, raw: Text): Slots
    requires path != []
  {
    match s
    case End(_) => s
    case Slot(lead, key, node, rest) =>
      if key == path[0] then Slot(lead, key, SetRaw(node, path[1..], raw), rest)
      else Slot(lead, key, node, SetSlot(rest, path, raw))
  }

  // ---- Text and value agree on where a leaf is ----

  lemma {:induction false} FindIsAt(n: Node, path: Path)
    requires WellFormed(n)
    ensures Find(n, path).Some? <==> At(Decode(n), path).Some?
    ensures Find(n, path).Some? ==>
      WellFormed(Find(n, path).value.node) && At(Decode(n), path) == Some(Decode(Find(n, path).value.node))
    decreases n
  {
    hide Unescape, Render;
    if path != [] && n.Container? {
      FindSlotIsAt(n.slots, path);
    }
  }

  lemma {:induction false} FindSlotIsAt(s: Slots, path: Path)
    requires path != [] && WellFormedSlots(s)
    ensures FindSlot(s, path).Some? <==> AtFields(DecodeSlots(s), path).Some?
    ensures FindSlot(s, path).Some? ==>
      WellFormed(FindSlot(s, path).value.node) && AtFields(DecodeSlots(s), path) == Some(Decode(FindSlot(s, path).value.node))
    decreases s
  {
    hide Unescape, Render;
    if s.Slot? {
      if s.key == path[0] {
        FindIsAt(s.node, path[1..]);
      } else {
        FindSlotIsAt(s.rest, path);
      }
    }
  }

  // Giving a leaf another raw text is `replaceAt` on the value.
  lemma {:induction false} SetIsReplace(n: Node, path: Path, raw: Text)
    requires WellFormed(n) && IsLeaf(n, path) && Unescape(raw).Some?
    ensures WellFormed(SetRaw(n, path, raw)) && Decode(SetRaw(n, path, raw)) == ReplaceAt(Decode(n), path, Unescape(raw).value)
    decreases n
  {
    hide Unescape, Render;
    if path != [] {
      SetSlotIsReplace(n.slots, path, raw);
    }
  }

  lemma {:induction false} SetSlotIsReplace(s: Slots, path: Path, raw: Text)
    requires path != [] && WellFormedSlots(s) && Unescape(raw).Some?
    requires FindSlot(s, path).Some? && FindSlot(s, path).value.node.StringNode?
    ensures WellFormedSlots(SetSlot(s, path, raw))
      && DecodeSlots(SetSlot(s, path, raw)) == ReplaceField(DecodeSlots(s), path, Unescape(raw).value)
    decreases s
  {
    hide Unescape, Render;
    if s.key == path[0] {
      SetIsReplace(s.node, path[1..], raw);
    } else {
      SetSlotIsReplace(s.rest, path, raw);
    }
  }

  // ---- Text around a leaf ----

  function Before(n: Node, path: Path): Text {
    if path == [] || !n.Container? then [] else n.open + BeforeSlot(n.slots, path)
  }

  function BeforeSlot(s: Slots, path: Path): Text
    requires path != []
  {
    match s
    case End(_) => []
    case Slot(lead, key, node, rest) =>
      if key == path[0] then lead + Before(node, path[1..]) else lead + Render(node) + BeforeSlot(rest, path)
  }

  function After(n: Node, path: Path): Text {
    if path == [] || !n.Container? then [] else AfterSlot(n.slots, path)
  }

  function AfterSlot(s: Slots, path: Path): Text
    requires path != []
  {
    match s
    case End(_) => []
    case Slot(lead, key, node, rest) =>
      if key == path[0] then After(node, path[1..]) + RenderSlots(rest) else AfterSlot(rest, path)
  }

  // Whatever raw text a leaf has, the text before and after it is the same.
  lemma {:induction false} SetRenders(n: Node, path: Path, raw: Text)
    requires IsLeaf(n, path)
    ensures Render(SetRaw(n, path, raw)) == Before(n, path) + (QuotedRaw(raw) + After(n, path))
    ensures |Before(n, path)| == Find(n, path).value.offset
    decreases n
  {
    hide QuotedRaw;
    if path == [] {
      assert [] + (QuotedRaw(raw) + []) == QuotedRaw(raw);
    } else {
      SetSlotRenders(n.slots, path, raw);
      assert n.open + (BeforeSlot(n.slots, path) + (QuotedRaw(raw) + AfterSlot(n.slots, path)))
        == n.open + BeforeSlot(n.slots, path) + (QuotedRaw(raw) + AfterSlot(n.slots, path));
    }
  }

  lemma {:induction false} SetSlotRenders(s: Slots, path: Path, raw: Text)
    requires path != [] && FindSlot(s, path).Some? && FindSlot(s, path).value.node.StringNode?
    ensures RenderSlots(SetSlot(s, path, raw)) == BeforeSlot(s, path) + (QuotedRaw(raw) + AfterSlot(s, path))
    ensures |BeforeSlot(s, path)| == FindSlot(s, path).value.offset
    decreases s
  {
    hide QuotedRaw;
    if s.key == path[0] {
      var tail := path[1..];
      SetRenders(s.node, tail, raw);
      var a, q, b := Before(s.node, tail), QuotedRaw(raw), After(s.node, tail);
      assert s.lead + (a + (q + b)) + RenderSlots(s.rest) == s.lead + a + (q + (b + RenderSlots(s.rest)));
    } else {
      SetSlotRenders(s.rest, path, raw);
      var a, q, b := BeforeSlot(s.rest, path), QuotedRaw(raw), AfterSlot(s.rest, path);
      assert s.lead + Render(s.node) + (a + (q + b)) == s.lead + Render(s.node) + a + (q + b);
    }
  }

  lemma {:induction false} SetSame(n: Node, path: Path)
    requires IsLeaf(n, path)
    ensures SetRaw(n, path, RawAt(n, path)) == n
    decreases n
  {
    hide Render;
    if path != [] {
      SetSlotSame(n.slots, path);
    }
  }

  lemma {:induction false} SetSlotSame(s: Slots, path: Path)
    requires path != [] && FindSlot(s, path).Some? && FindSlot(s, path).value.node.StringNode?
    ensures SetSlot(s, path, FindSlot(s, path).value.node.raw) == s
    decreases s
  {
    hide Render;
    if s.key == path[0] {
      SetSame(s.node, path[1..]);
    } else {
      SetSlotSame(s.rest, path);
    }
  }

  function Splice(text: Text, offset: nat, length: nat, content: Text): Text
    requires offset + length <= |text|
  {
    text[..offset] + content + text[offset + length..]
  }

  // Replacing the first units of a leaf's raw text in the document text is giving the leaf another raw text.
  lemma SpliceIsSet(n: Node, path: Path, length: nat, content: Text)
    requires IsLeaf(n, path) && length <= |RawAt(n, path)|
    ensures var offset := Find(n, path).value.offset + 1;
      && offset + |RawAt(n, path)| < |Render(n)|
      && Splice(Render(n), offset, length, content) == Render(SetRaw(n, path, content + RawAt(n, path)[length..]))
  {
    hide Render, Find, SetRaw, Before, After;
    var raw, before, after := RawAt(n, path), Before(n, path), After(n, path);
    SetRenders(n, path, raw);
    SetSame(n, path);
    SetRenders(n, path, content + raw[length..]);
    SpliceText(before, raw, after, length, content);
  }

  lemma SpliceText(before: Text, raw: Text, after: Text, length: nat, content: Text)
    requires length <= |raw|
    ensures Splice(before + (QuotedRaw(raw) + after), |before| + 1, length, content)
      == before + (QuotedRaw(content + raw[length..]) + after)
  {
    var text := before + (QuotedRaw(raw) + after);
    assert text[..|before| + 1] == before + [QUOTE];
    assert text[|before| + 1 + length..] == raw[length..] + [QUOTE] + after;
  }

  // ---- Two leaves ----

  // Different leaves do not overlap; changing the later one leaves the earlier one where it is.
  lemma {:induction false} LeavesApart(n: Node, p: Path, q: Path, raw: Text)
    requires IsLeaf(n, p) && IsLeaf(n, q) && p != q
    ensures var a, b := Find(n, p).value.offset, Find(n, q).value.offset;
      a + |RawAt(n, p)| + 2 <= b || b + |RawAt(n, q)| + 2 <= a
    ensures IsLeaf(SetRaw(n, p, raw), q) && RawAt(SetRaw(n, p, raw), q) == RawAt(n, q)
    ensures Find(n, q).value.offset < Find(n, p).value.offset ==> Find(SetRaw(n, p, raw), q) == Find(n, q)
    decreases n
  {
    hide QuotedRaw;
    SlotsApart(n.slots, p, q, raw);
  }

  ghost predicate IsLeafSlot(s: Slots, path: Path) {
    path != [] && FindSlot(s, path).Some? && FindSlot(s, path).value.node.StringNode?
  }

  lemma {:induction false} SlotsApart(s: Slots, p: Path, q: Path, raw: Text)
    requires IsLeafSlot(s, p) && IsLeafSlot(s, q) && p != q
    ensures var a, b := FindSlot(s, p).value, FindSlot(s, q).value;
      a.offset + |a.node.raw| + 2 <= b.offset || b.offset + |b.node.raw| + 2 <= a.offset
    ensures IsLeafSlot(SetSlot(s, p, raw), q) && FindSlot(SetSlot(s, p, raw), q).value.node.raw == FindSlot(s, q).value.node.raw
    ensures FindSlot(s, q).value.offset < FindSlot(s, p).value.offset ==> FindSlot(SetSlot(s, p, raw), q) == FindSlot(s, q)
    decreases s
  {
    hide Render, SetRaw, RenderSlots;
    if s.key == p[0] && s.key == q[0] {
      assert p == [p[0]] + p[1..] && q == [q[0]] + q[1..];
      LeavesApart(s.node, p[1..], q[1..], raw);
    } else if s.key == p[0] {
      LeafInside(s.node, p[1..]);
    } else if s.key == q[0] {
      LeafInside(s.node, q[1..]);
    } else {
      SlotsApart(s.rest, p, q, raw);
    }
  }

  lemma LeafInside(n: Node, path: Path)
    requires IsLeaf(n, path)
    ensures Find(n, path).value.offset + |RawAt(n, path)| + 2 <= |Render(n)|
  {
    hide Render, Find, Before, After;
    SetSame(n, path);
    SetRenders(n, path, RawAt(n, path));
  }

  // ---- Several leaves at once ----

  datatype Edit = Edit(path: Path, offset: nat, length: nat, content: Text, raw: Text)

  predicate DistinctPaths(edits: seq<Edit>) {
    forall i, j :: 0 <= i < j < |edits| ==> edits[i].path != edits[j].path
  }

  predicate LeafEdits(n: Node, edits: seq<Edit>) {
    forall i :: 0 <= i < |edits| ==> IsLeaf(n, edits[i].path)
  }

  // Leaf after leaf gets its new raw text.
  function SetAll(n: Node, edits: seq<Edit>): Node {
    if edits == [] then n
    else SetRaw(SetAll(n, edits[..|edits| - 1]), edits[|edits| - 1].path, edits[|edits| - 1].raw)
  }

  // The document without the raw texts of its string tokens.
  function Skeleton(n: Node): Node {
    match n
    case Plain(_) => n
    case StringNode(_) => StringNode([])
    case Container(_, _, slots) => n.(slots := SkeletonSlots(slots))
  }

  function SkeletonSlots(s: Slots): Slots {
    match s
    case End(_) => s
    case Slot(lead, key, node, rest) => Slot(lead, key, Skeleton(node), SkeletonSlots(rest))
  }

  lemma {:induction false} SetKeepsSkeleton(n: Node, path: Path, raw: Text)
    ensures Skeleton(SetRaw(n, path, raw)) == Skeleton(n)
    decreases n
  {
    if path != [] && n.Container? {
      SetSlotKeepsSkeleton(n.slots, path, raw);
    }
  }

  lemma {:induction false} SetSlotKeepsSkeleton(s: Slots, path: Path, raw: Text)
    requires path != []
    ensures SkeletonSlots(SetSlot(s, path, raw)) == SkeletonSlots(s)
    decreases s
  {
    if s.Slot? {
      if s.key == path[0] {
        SetKeepsSkeleton(s.node, path[1..], raw);
      } else {
        SetSlotKeepsSkeleton(s.rest, path, raw);
      }
    }
  }

  lemma {:induction false} SetReads(n: Node, path: Path, raw: Text)
    requires IsLeaf(n, path)
    ensures Find(SetRaw(n, path, raw), path) == Some(Found(Find(n, path).value.offset, StringNode(raw)))
    decreases n
  {
    hide Render;
    if path != [] {
      SetSlotReads(n.slots, path, raw);
    }
  }

  lemma {:induction false} SetSlotReads(s: Slots, path: Path, raw: Text)
    requires IsLeafSlot(s, path)
    ensures FindSlot(SetSlot(s, path, raw), path) == Some(Found(FindSlot(s, path).value.offset, StringNode(raw)))
    decreases s
  {
    hide Render;
    if s.key == path[0] {
      SetReads(s.node, path[1..], raw);
    } else {
      SetSlotReads(s.rest, path, raw);
    }
  }

  // Every leaf an edit names holds that edit's raw text, every other string token its own, and all other
  // text is where it was.
  lemma {:induction false} SetAllReads(n: Node, edits: seq<Edit>, q: Path)
    requires LeafEdits(n, edits) && IsLeaf(n, q) && DistinctPaths(edits)
    ensures IsLeaf(SetAll(n, edits), q)
    ensures forall i :: 0 <= i < |edits| && edits[i].path == q ==> RawAt(SetAll(n, edits), q) == edits[i].raw
    ensures (forall i :: 0 <= i < |edits| ==> edits[i].path != q) ==> RawAt(SetAll(n, edits), q) == RawAt(n, q)
    ensures Skeleton(SetAll(n, edits)) == Skeleton(n)
    decreases |edits|
  {
    hide SetRaw, Find, Skeleton;
    if edits != [] {
      var k := |edits| - 1;
      var before, e := SetAll(n, edits[..k]), edits[k];
      SetAllReads(n, edits[..k], q);
      SetAllReads(n, edits[..k], e.path);
      SetKeepsSkeleton(before, e.path, e.raw);
      if e.path == q {
        SetReads(before, q, e.raw);
      } else {
        LeavesApart(before, e.path, q, e.raw);
      }
    }
  }

  lemma {:induction false} SetsCommute(n: Node, p: Path, a: Text, q: Path, b: Text)
    requires IsLeaf(n, p) && IsLeaf(n, q) && p != q
    ensures SetRaw(SetRaw(n, p, a), q, b) == SetRaw(SetRaw(n, q, b), p, a)
    decreases n
  {
    hide Render;
    SetSlotsCommute(n.slots, p, a, q, b);
  }

  lemma {:induction false} SetSlotsCommute(s: Slots, p: Path, a: Text, q: Path, b: Text)
    requires IsLeafSlot(s, p) && IsLeafSlot(s, q) && p != q
    ensures SetSlot(SetSlot(s, p, a), q, b) == SetSlot(SetSlot(s, q, b), p, a)
    decreases s
  {
    hide Render;
    if s.key == p[0] && s.key == q[0] {
      assert p == [p[0]] + p[1..] && q == [q[0]] + q[1..];
      SetsCommute(s.node, p[1..], a, q[1..], b);
    } else if s.key != p[0] && s.key != q[0] {
      SetSlotsCommute(s.rest, p, a, q, b);
    }
  }

  // An edit whose leaf no later edit names can be made last.
  lemma {:induction false} MoveToEnd(n: Node, a: seq<Edit>, e: Edit, b: seq<Edit>)
    requires LeafEdits(n, a + [e] + b) && DistinctPaths(a + [e] + b)
    ensures SetAll(n, a + [e] + b) == SetAll(n, a + b + [e])
    decreases |b|
  {
    hide SetRaw, IsLeaf;
    if b == [] {
      assert a + [e] + b == a + b + [e];
    } else {
      var k := |b| - 1;
      var b', f := b[..k], b[k];
      var all := a + [e] + b;
      assert all[..|all| - 1] == a + [e] + b';
      assert all[|a|] == e && all[|all| - 1] == f;
      MoveToEnd(n, a, e, b');
      var mid := SetAll(n, a + b');
      assert (a + b' + [e])[..|a + b'|] == a + b';
      assert (a + b + [e])[..|a + b|] == a + b;
      assert (a + b)[..|a + b| - 1] == a + b';
      assert DistinctPaths(a + b') && LeafEdits(n, a + b') by {
        Without(n, a, e, b');
      }
      SetAllKeepsLeaf(n, a + b', e.path);
      SetAllKeepsLeaf(n, a + b', f.path);
      SetsCommute(mid, e.path, e.raw, f.path, f.raw);
    }
  }

  lemma Without(n: Node, a: seq<Edit>, e: Edit, b: seq<Edit>)
    requires LeafEdits(n, a + [e] + b) && DistinctPaths(a + [e] + b)
    ensures LeafEdits(n, a + b) && DistinctPaths(a + b) && IsLeaf(n, e.path)
    ensures forall i :: 0 <= i < |a + b| ==> (a + b)[i].path != e.path
  {
    hide IsLeaf;
    var all := a + [e] + b;
    assert all[|a|] == e;
    forall i | 0 <= i < |a + b|
      ensures (a + b)[i] == all[if i < |a| then i else i + 1]
    {
    }
  }

  lemma SetAllKeepsLeaf(n: Node, edits: seq<Edit>, q: Path)
    requires LeafEdits(n, edits) && DistinctPaths(edits) && IsLeaf(n, q)
    ensures IsLeaf(SetAll(n, edits), q)
  {
    SetAllReads(n, edits, q);
  }

  lemma MultisetOf<T>(a: seq<T>, e: T, b: seq<T>)
    ensures multiset(a + [e] + b) == multiset(a + b) + multiset{e}
  {
  }

  // The last element of x, taken out of y.
  lemma TakeOut<T>(x: seq<T>, y: seq<T>) returns (a: seq<T>, b: seq<T>)
    requires multiset(x) == multiset(y) && x != []
    ensures y == a + [x[|x| - 1]] + b && multiset(x[..|x| - 1]) == multiset(a + b)
  {
    var k := |x| - 1;
    assert x == x[..k] + [x[k]];
    assert x[k] in multiset(y);
    var j :| 0 <= j < |y| && y[j] == x[k];
    a, b := y[..j], y[j + 1..];
    assert y == a + [x[k]] + b;
    MultisetOf(a, x[k], b);
    assert multiset(x) == multiset(x[..k]) + multiset{x[k]};
    assert multiset(x[..k]) == multiset(x) - multiset{x[k]} == multiset(a + b);
  }

  // The order of edits to different leaves does not matter.
  lemma {:induction false} AnyOrder(n: Node, x: seq<Edit>, y: seq<Edit>)
    requires multiset(x) == multiset(y) && LeafEdits(n, x) && DistinctPaths(x) && LeafEdits(n, y) && DistinctPaths(y)
    ensures SetAll(n, x) == SetAll(n, y)
    decreases |x|
  {
    hide SetRaw, IsLeaf, LeafEdits, DistinctPaths;
    if x == [] {
      assert |y| == |multiset(y)| == 0;
    } else {
      var k := |x| - 1;
      var a: seq<Edit>, b: seq<Edit> := TakeOut(x, y);
      Prefix(n, x, k);
      Without(n, a, x[k], b);
      MoveToEnd(n, a, x[k], b);
      AnyOrder(n, x[..k], a + b);
      assert (a + b + [x[k]])[..|a + b|] == a + b;
    }
  }

  lemma Prefix(n: Node, x: seq<Edit>, k: nat)
    requires LeafEdits(n, x) && DistinctPaths(x) && k <= |x|
    ensures LeafEdits(n, x[..k]) && DistinctPaths(x[..k])
  {
    hide IsLeaf;
  }

  lemma {:induction false} DistinctPermutes(x: seq<Edit>, y: seq<Edit>)
    requires multiset(x) == multiset(y) && DistinctPaths(x)
    ensures DistinctPaths(y)
    decreases |x|
  {
    if x == [] {
      assert |y| == |multiset(y)| == 0;
    } else {
      var k := |x| - 1;
      var a: seq<Edit>, b: seq<Edit> := TakeOut(x, y);
      DistinctPermutes(x[..k], a + b);
      forall i | 0 <= i < |a + b|
        ensures (a + b)[i].path != x[k].path
      {
        assert (a + b)[i] in multiset(x[..k]);
      }
      DistinctInsert(a, x[k], b);
    }
  }

  lemma DistinctInsert(a: seq<Edit>, e: Edit, b: seq<Edit>)
    requires DistinctPaths(a + b) && forall i :: 0 <= i < |a + b| ==> (a + b)[i].path != e.path
    ensures DistinctPaths(a + [e] + b)
  {
    var all := a + [e] + b;
    forall i, j | 0 <= i < j < |all|
      ensures all[i].path != all[j].path
    {
      assert i < |a| ==> all[i] == (a + b)[i];
      assert i > |a| ==> all[i] == (a + b)[i - 1];
      assert j < |a| ==> all[j] == (a + b)[j];
      assert j > |a| ==> all[j] == (a + b)[j - 1];
    }
  }
}
