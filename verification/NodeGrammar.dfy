// The JSON grammar (section 2 of RFC 8259) on located trees: a text has at most one tree, so what the edit
// proves of its tree holds of whatever parses the edited text (registrationNodeCodec.ts, strictJson.ts).
module NodeGrammar {
  import opened Wrappers
  import opened Units
  import opened JsonText
  import opened NodeCodec
  import opened NodeEdit

  const COMMA: Unit := 0x2C
  const COLON: Unit := 0x3A

  predicate IsBlank(c: Unit) {
    c == SPACE || c == TAB || c == NEWLINE || c == 0x0D
  }

  predicate Blanks(t: Text) {
    forall i :: 0 <= i < |t| ==> IsBlank(t[i])
  }

  predicate IsBracket(c: Unit) {
    c == 0x5B || c == 0x5D || c == 0x7B || c == 0x7D
  }

  // What numbers and the three literal names are made of, and no separator is.
  predicate IsWord(c: Unit) {
    !IsBlank(c) && !IsBracket(c) && c != COMMA && c != COLON && c != QUOTE
  }

  function OpenOf(isArray: bool): Unit {
    if isArray then 0x5B else 0x7B
  }

  function CloseOf(isArray: bool): Unit {
    if isArray then 0x5D else 0x7D
  }

  // The separator of the second and later slots, with the blanks around it.
  ghost predicate IsSeparator(t: Text, first: bool, a: Text, b: Text) {
    Blanks(a) && Blanks(b) && t == if first then a else a + [COMMA] + b
  }

  ghost predicate ArrayLead(lead: Text, first: bool) {
    exists a, b :: IsSeparator(lead, first, a, b)
  }

  ghost predicate IsObjectLead(lead: Text, key: Key, separator: Text, raw: Text, a: Text, b: Text) {
    && Unescape(raw).Some? && key == Name(Unescape(raw).value) && Blanks(a) && Blanks(b)
    && lead == separator + (QuotedRaw(raw) + (a + ([COLON] + b)))
  }

  ghost predicate ObjectLead(lead: Text, first: bool, key: Key) {
    exists separator, raw, a, b :: ArrayLead(separator, first) && IsObjectLead(lead, key, separator, raw, a, b)
  }

  ghost predicate Grammatical(n: Node) {
    match n
    case Plain(text) => text != [] && forall i :: 0 <= i < |text| ==> IsWord(text[i])
    case StringNode(raw) => Unescape(raw).Some?
    case Container(isArray, open, slots) => open == [OpenOf(isArray)] && GrammaticalSlots(slots, isArray, 0)
  }

  ghost predicate GrammaticalSlots(s: Slots, isArray: bool, i: nat) {
    match s
    case End(close) => close != [] && close[|close| - 1] == CloseOf(isArray) && Blanks(close[..|close| - 1])
    case Slot(lead, key, node, rest) =>
      && (if isArray then key == Index(i) && ArrayLead(lead, i == 0) else ObjectLead(lead, i == 0, key))
      && Grammatical(node) && GrammaticalSlots(rest, isArray, i + 1)
  }

  lemma {:induction false} GrammaticalIsWellFormed(n: Node)
    requires Grammatical(n)
    ensures WellFormed(n)
    decreases n
  {
    hide Unescape, ArrayLead, ObjectLead;
    if n.Container? {
      SlotsWellFormed(n.slots, n.isArray, 0);
    }
  }

  lemma {:induction false} SlotsWellFormed(s: Slots, isArray: bool, i: nat)
    requires GrammaticalSlots(s, isArray, i)
    ensures WellFormedSlots(s)
    decreases s
  {
    hide Unescape, ArrayLead, ObjectLead;
    if s.Slot? {
      GrammaticalIsWellFormed(s.node);
      SlotsWellFormed(s.rest, isArray, i + 1);
    }
  }

  // ---- Pieces of a text ----

  // Blanks before something that is no blank are determined.
  lemma {:induction false} BlanksEnd(a: Text, x: Text, b: Text, y: Text)
    requires Blanks(a) && Blanks(b) && a + x == b + y
    requires x != [] && !IsBlank(x[0]) && y != [] && !IsBlank(y[0])
    ensures a == b && x == y
  {
    var t := a + x;
    assert t[|a|] == x[0] && t[|b|] == y[0];
    assert forall i :: 0 <= i < |a| ==> a[i] == t[i];
    assert forall i :: 0 <= i < |b| ==> b[i] == t[i];
    SplitAt(a, x, b, y);
  }

  lemma SplitAt(a: Text, x: Text, b: Text, y: Text)
    requires a + x == b + y && |a| == |b|
    ensures a == b && x == y
  {
    var t := a + x;
    assert a == t[..|a|] && b == t[..|a|] && x == t[|a|..] && y == t[|a|..];
  }

  // So is a word before something that is no part of a word.
  lemma WordEnds(a: Text, x: Text, b: Text, y: Text)
    requires (forall i :: 0 <= i < |a| ==> IsWord(a[i])) && (forall i :: 0 <= i < |b| ==> IsWord(b[i])) && a + x == b + y
    requires (x == [] || !IsWord(x[0])) && (y == [] || !IsWord(y[0]))
    ensures a == b && x == y
  {
    var t := a + x;
    assert x != [] ==> t[|a|] == x[0];
    assert y != [] ==> t[|b|] == y[0];
    assert forall i :: 0 <= i < |a| ==> a[i] == t[i];
    assert forall i :: 0 <= i < |b| ==> b[i] == t[i];
    SplitAt(a, x, b, y);
  }

  lemma DropFront(a: Text, x: Text, b: Text, y: Text, n: nat)
    requires a + x == b + y && n <= |a| && n <= |b|
    ensures a[..n] == b[..n] && a[n..] + x == b[n..] + y
  {
    var t := a + x;
    assert t[..n] == a[..n] && t[..n] == b[..n];
    assert t[n..] == a[n..] + x && t[n..] == b[n..] + y;
  }

  // And the raw text of a string, up to its closing quote.
  lemma {:induction false} StringEnds(a: Text, x: Text, b: Text, y: Text)
    requires Unescape(a).Some? && Unescape(b).Some? && a + ([QUOTE] + x) == b + ([QUOTE] + y)
    ensures a == b && x == y
    decreases |a|
  {
    hide First, Size, Unescape;
    if a == [] || b == [] {
      SameHead(a, x, b, y);
      NoQuoteFirst(a);
      NoQuoteFirst(b);
      SplitAt(a + [QUOTE], x, b + [QUOTE], y) by {
        assert a + ([QUOTE] + x) == a + [QUOTE] + x && b + ([QUOTE] + y) == b + [QUOTE] + y;
      }
    } else {
      SameFirst(a, x, b, y);
      var n := Size(a);
      DropFront(a, [QUOTE] + x, b, [QUOTE] + y, n);
      StringEnds(a[n..], x, b[n..], y);
      assert a == a[..n] + a[n..] && b == b[..n] + b[n..];
    }
  }

  lemma SameHead(a: Text, x: Text, b: Text, y: Text)
    requires a + ([QUOTE] + x) == b + ([QUOTE] + y)
    ensures (if a == [] then QUOTE else a[0]) == (if b == [] then QUOTE else b[0])
  {
    var t := a + ([QUOTE] + x);
    assert t[0] == if a == [] then QUOTE else a[0];
    assert t[0] == if b == [] then QUOTE else b[0];
  }

  lemma NoQuoteFirst(a: Text)
    requires Unescape(a).Some?
    ensures a != [] ==> a[0] != QUOTE
  {
  }

  lemma SameFirst(a: Text, x: Text, b: Text, y: Text)
    requires a != [] && b != [] && Unescape(a).Some? && Unescape(b).Some? && a + ([QUOTE] + x) == b + ([QUOTE] + y)
    ensures Size(a) == Size(b) <= |a| && Size(b) <= |b| && Unescape(a[Size(a)..]).Some? && Unescape(b[Size(b)..]).Some?
  {
    hide ShortEscape, IsHex;
    var t := a + ([QUOTE] + x);
    assert t[0] == a[0] && t[0] == b[0];
    assert |a| > 1 ==> t[1] == a[1];
    assert |b| > 1 ==> t[1] == b[1];
  }

  lemma QuotedEnds(a: Text, x: Text, b: Text, y: Text)
    requires Unescape(a).Some? && Unescape(b).Some? && QuotedRaw(a) + x == QuotedRaw(b) + y
    ensures a == b && x == y
  {
    hide Unescape;
    var t := QuotedRaw(a) + x;
    assert t[1..] == a + ([QUOTE] + x) && t[1..] == b + ([QUOTE] + y);
    StringEnds(a, x, b, y);
  }

  // ---- How values and slots begin ----

  predicate StartsValue(t: Text) {
    t != [] && (IsWord(t[0]) || t[0] == QUOTE || t[0] == 0x5B || t[0] == 0x7B)
  }

  lemma ValueStarts(n: Node, x: Text)
    requires Grammatical(n)
    ensures StartsValue(Render(n) + x)
  {
    hide Unescape, GrammaticalSlots;
  }

  predicate EndsValue(t: Text) {
    t == [] || !IsWord(t[0])
  }

  lemma SlotsEndValue(s: Slots, isArray: bool, i: nat, x: Text)
    requires GrammaticalSlots(s, isArray, i) && i > 0
    ensures EndsValue(RenderSlots(s) + x)
  {
    hide Unescape, Render, Grammatical;
    if s.Slot? {
      if isArray {
        var a, b :| IsSeparator(s.lead, false, a, b);
        assert s.lead[0] == if a == [] then COMMA else a[0];
      } else {
        var separator, raw, a, b :| ArrayLead(separator, false) && IsObjectLead(s.lead, s.key, separator, raw, a, b);
        var c, d :| IsSeparator(separator, false, c, d);
        assert s.lead[0] == if c == [] then COMMA else c[0];
      }
    } else {
      assert |s.close| > 1 ==> s.close[0] == s.close[..|s.close| - 1][0];
    }
  }

  // ---- Leads ----

  // A separator before a value or key is determined.
  lemma SeparatorEnds(p: Text, x: Text, q: Text, y: Text, first: bool)
    requires ArrayLead(p, first) && ArrayLead(q, first) && p + x == q + y && StartsValue(x) && StartsValue(y)
    ensures p == q && x == y
  {
    var a, b :| IsSeparator(p, first, a, b);
    var c, d :| IsSeparator(q, first, c, d);
    if first {
      BlanksEnd(a, x, c, y);
    } else {
      CommaEnds(a, b, x, c, d, y);
    }
  }

  lemma CommaEnds(a: Text, b: Text, x: Text, c: Text, d: Text, y: Text)
    requires Blanks(a) && Blanks(b) && Blanks(c) && Blanks(d) && StartsValue(x) && StartsValue(y)
    requires a + [COMMA] + b + x == c + [COMMA] + d + y
    ensures a == c && b == d && x == y
  {
    hide Blanks;
    assert a + ([COMMA] + (b + x)) == a + [COMMA] + b + x && c + ([COMMA] + (d + y)) == c + [COMMA] + d + y;
    BlanksEnd(a, [COMMA] + (b + x), c, [COMMA] + (d + y));
    SplitAt([COMMA], b + x, [COMMA], d + y);
    BlanksEnd(b, x, d, y);
  }

  lemma ObjectLeadEnds(p: Text, x: Text, q: Text, y: Text, first: bool, k: Key, l: Key)
    requires ObjectLead(p, first, k) && ObjectLead(q, first, l) && p + x == q + y && StartsValue(x) && StartsValue(y)
    ensures p == q && k == l && x == y
  {
    hide Unescape, ArrayLead, QuotedRaw;
    var s, raw, a, b :| ArrayLead(s, first) && IsObjectLead(p, k, s, raw, a, b);
    var t, raw', c, d :| ArrayLead(t, first) && IsObjectLead(q, l, t, raw', c, d);
    assert p + x == s + (QuotedRaw(raw) + (a + ([COLON] + (b + x))));
    assert q + y == t + (QuotedRaw(raw') + (c + ([COLON] + (d + y))));
    QuotedStarts(raw, a + ([COLON] + (b + x)));
    QuotedStarts(raw', c + ([COLON] + (d + y)));
    SeparatorEnds(s, QuotedRaw(raw) + (a + ([COLON] + (b + x))), t, QuotedRaw(raw') + (c + ([COLON] + (d + y))), first);
    QuotedEnds(raw, a + ([COLON] + (b + x)), raw', c + ([COLON] + (d + y)));
    BlanksEnd(a, [COLON] + (b + x), c, [COLON] + (d + y));
    SplitAt([COLON], b + x, [COLON], d + y);
    BlanksEnd(b, x, d, y);
  }

  lemma QuotedStarts(raw: Text, x: Text)
    ensures StartsValue(QuotedRaw(raw) + x)
  {
  }

  // ---- One text, one tree ----

  /** Two grammatical values at the start of one text, each followed by something that ends a word, are the
      same value. */
  lemma {:induction false} OneTree(a: Node, x: Text, b: Node, y: Text)
    requires Grammatical(a) && Grammatical(b) && EndsValue(x) && EndsValue(y)
    requires Render(a) + x == Render(b) + y
    ensures a == b && x == y
    decreases a
  {
    hide Unescape, ArrayLead, ObjectLead, GrammaticalSlots, QuotedRaw;
    var t := Render(a) + x;
    FirstUnits(a, x);
    FirstUnits(b, y);
    match a
    case Plain(text) => WordEnds(text, x, b.text, y);
    case StringNode(raw) => QuotedEnds(raw, x, b.raw, y);
    case Container(isArray, open, slots) =>
      assert t[1..] == RenderSlots(slots) + x && t[1..] == RenderSlots(b.slots) + y;
      OneSlots(slots, x, b.slots, y, isArray, 0);
  }

  // The first unit says what kind of value it is.
  lemma FirstUnits(n: Node, x: Text)
    requires Grammatical(n)
    ensures Render(n) + x != []
    ensures var c := (Render(n) + x)[0];
      && (n.Plain? ==> IsWord(c)) && (n.StringNode? ==> c == QUOTE) && (n.Container? ==> c == OpenOf(n.isArray))
  {
    hide Unescape, GrammaticalSlots;
  }

  lemma {:induction false} OneSlots(s: Slots, x: Text, t: Slots, y: Text, isArray: bool, i: nat)
    requires GrammaticalSlots(s, isArray, i) && GrammaticalSlots(t, isArray, i)
    requires RenderSlots(s) + x == RenderSlots(t) + y
    ensures s == t && x == y
    decreases s
  {
    hide Unescape, ArrayLead, ObjectLead, Grammatical, Render;
    if s.Slot? && t.Slot? {
      var p, q := RenderSlots(s.rest) + x, RenderSlots(t.rest) + y;
      assert RenderSlots(s) + x == s.lead + (Render(s.node) + p);
      assert RenderSlots(t) + y == t.lead + (Render(t.node) + q);
      ValueStarts(s.node, p);
      ValueStarts(t.node, q);
      if isArray {
        SeparatorEnds(s.lead, Render(s.node) + p, t.lead, Render(t.node) + q, i == 0);
      } else {
        ObjectLeadEnds(s.lead, Render(s.node) + p, t.lead, Render(t.node) + q, i == 0, s.key, t.key);
      }
      SlotsEndValue(s.rest, isArray, i + 1, x);
      SlotsEndValue(t.rest, isArray, i + 1, y);
      OneTree(s.node, p, t.node, q);
      OneSlots(s.rest, x, t.rest, y, isArray, i + 1);
    } else if s.End? && t.End? {
      CloseEnds(s.close, x, t.close, y, isArray);
    } else if s.End? {
      CloseIsNoSlot(s.close, x, t, y, isArray, i);
    } else {
      CloseIsNoSlot(t.close, y, s, x, isArray, i);
    }
  }

  lemma CloseEnds(p: Text, x: Text, q: Text, y: Text, isArray: bool)
    requires GrammaticalSlots(End(p), isArray, 0) && GrammaticalSlots(End(q), isArray, 0) && p + x == q + y
    ensures p == q && x == y
  {
    var a, b, c := p[..|p| - 1], q[..|q| - 1], [CloseOf(isArray)];
    assert p == a + c && q == b + c;
    assert a + (c + x) == p + x && b + (c + y) == q + y;
    BlanksEnd(a, c + x, b, c + y);
    SplitAt(c, x, c, y);
  }

  // Past its blanks a slot goes on with a comma, a key or a value, never with the closing bracket.
  lemma CloseIsNoSlot(p: Text, x: Text, t: Slots, y: Text, isArray: bool, i: nat)
    requires t.Slot? && GrammaticalSlots(End(p), isArray, i) && GrammaticalSlots(t, isArray, i)
    ensures p + x != RenderSlots(t) + y
  {
    hide Unescape, Grammatical, Render, ArrayLead, ObjectLead;
    var blanks, close := p[..|p| - 1], [CloseOf(isArray)];
    assert p == blanks + close;
    var value := Render(t.node) + (RenderSlots(t.rest) + y);
    ValueStarts(t.node, RenderSlots(t.rest) + y);
    var a: Text, rest: Text := SlotGoesOn(t, value, isArray, i);
    assert RenderSlots(t) + y == a + rest;
    if p + x == RenderSlots(t) + y {
      assert blanks + (close + x) == a + rest;
      BlanksEnd(blanks, close + x, a, rest);
    }
  }

  lemma SlotGoesOn(t: Slots, value: Text, isArray: bool, i: nat) returns (a: Text, rest: Text)
    requires t.Slot? && GrammaticalSlots(t, isArray, i) && StartsValue(value)
    ensures t.lead + value == a + rest && Blanks(a)
    ensures rest != [] && !IsBlank(rest[0]) && rest[0] != CloseOf(isArray)
  {
    hide Unescape, Grammatical;
    if isArray {
      a, rest := SeparatorGoesOn(t.lead, value, i == 0);
    } else {
      var separator, raw, c, d :| ArrayLead(separator, i == 0) && IsObjectLead(t.lead, t.key, separator, raw, c, d);
      var tail := QuotedRaw(raw) + (c + ([COLON] + (d + value)));
      assert t.lead + value == separator + tail;
      QuotedStarts(raw, c + ([COLON] + (d + value)));
      a, rest := SeparatorGoesOn(separator, tail, i == 0);
    }
  }

  lemma SeparatorGoesOn(p: Text, value: Text, first: bool) returns (a: Text, rest: Text)
    requires ArrayLead(p, first) && StartsValue(value)
    ensures p + value == a + rest && Blanks(a)
    ensures rest != [] && !IsBlank(rest[0]) && rest[0] != 0x5D && rest[0] != 0x7D
  {
    var c, d :| IsSeparator(p, first, c, d);
    a, rest := c, if first then value else [COMMA] + (d + value);
    assert p + value == a + rest;
  }

  /** A document, blanks around one value, has one tree: the text decides the value. */
  lemma TextDecidesValue(before: Text, a: Node, after: Text, before': Text, b: Node, after': Text)
    requires Grammatical(a) && Grammatical(b) && Blanks(before) && Blanks(after) && Blanks(before') && Blanks(after')
    requires before + (Render(a) + after) == before' + (Render(b) + after')
    ensures a == b && before == before' && after == after'
  {
    hide Grammatical, Render;
    ValueStarts(a, after);
    ValueStarts(b, after');
    BlanksEnd(before, Render(a) + after, before', Render(b) + after');
    OneTree(a, after, b, after');
  }

  // ---- The edited text ----

  lemma {:induction false} SetIsGrammatical(n: Node, path: Path, raw: Text)
    requires Grammatical(n) && Unescape(raw).Some?
    ensures Grammatical(SetRaw(n, path, raw))
    decreases n
  {
    hide Unescape, ArrayLead, ObjectLead;
    if path != [] && n.Container? {
      SetSlotIsGrammatical(n.slots, path, raw, n.isArray, 0);
    }
  }

  lemma {:induction false} SetSlotIsGrammatical(s: Slots, path: Path, raw: Text, isArray: bool, i: nat)
    requires path != [] && GrammaticalSlots(s, isArray, i) && Unescape(raw).Some?
    ensures GrammaticalSlots(SetSlot(s, path, raw), isArray, i)
    decreases s
  {
    hide Unescape, ArrayLead, ObjectLead;
    if s.Slot? {
      if s.key == path[0] {
        SetIsGrammatical(s.node, path[1..], raw);
      } else {
        SetSlotIsGrammatical(s.rest, path, raw, isArray, i + 1);
      }
    }
  }

  lemma {:induction false} SetAllIsGrammatical(n: Node, edits: seq<Edit>)
    requires Grammatical(n) && forall i :: 0 <= i < |edits| ==> Unescape(edits[i].raw).Some?
    ensures Grammatical(SetAll(n, edits))
    decreases |edits|
  {
    hide Grammatical, SetRaw, Unescape;
    if edits != [] {
      var k := |edits| - 1;
      SetAllIsGrammatical(n, edits[..k]);
      SetIsGrammatical(SetAll(n, edits[..k]), edits[k].path, edits[k].raw);
    }
  }

  /** Whatever located tree a parse of the edited text yields, it is the edited document; so decoding the
      edited text is folding `replaceAt` over the decoded original, and the edit's final check passes. */
  lemma EditedTextDecodes(doc: Node, targets: seq<Target>, before: Text, proposed: Text, lead: Text, trail: Text,
                          lead': Text, parsed: Node, trail': Text)
    requires Grammatical(doc) && Grammatical(parsed) && Blanks(lead) && Blanks(trail) && Blanks(lead') && Blanks(trail')
    requires WellFormed(doc) && Acceptable(doc, targets, before, proposed)
    requires lead + (Render(SetAll(doc, Edits(doc, targets, before, proposed))) + trail) == lead' + (Render(parsed) + trail')
    ensures parsed == SetAll(doc, Edits(doc, targets, before, proposed))
    ensures WellFormed(parsed) && Decode(parsed) == ReplaceTargets(Decode(doc), targets, proposed)
  {
    hide Grammatical, Render, SetAll, Decode, TargetHolds, NodePath, Unescape, ReplaceTargets, EditOf, IsLeaf, WellFormed;
    var edits := Edits(doc, targets, before, proposed);
    forall i | 0 <= i < |edits|
      ensures Unescape(edits[i].raw).Some?
    {
      EditIs(doc, targets[i], before, proposed);
    }
    SetAllIsGrammatical(doc, edits);
    TextDecidesValue(lead, SetAll(doc, edits), trail, lead', parsed, trail');
    EditDecodes(doc, targets, before, proposed);
  }
}
