// Which rows pass the gates, and in what order they are returned (claudeHooks.ts).
module HookRanking {
  import opened Wrappers
  import opened HookSearch

  // The tokens of the least document frequency above 0; None when every frequency is 0.
  method RareTokens(l: Language, ix: Index, cs: seq<Candidate>) returns (rare: Option<set<string>>)
    requires DistinctTokens(l, cs)
    ensures rare.None? <==> forall c :: c in cs ==> |RowsOf(ix, c)| == 0
    ensures rare.Some? ==> forall c :: c in cs ==> (l.lower(c.token) in rare.value <==> Rare(ix, cs, c))
  {
    var minDf: Option<nat> := None;
    for k := 0 to |cs|
      invariant minDf.None? <==> forall i :: 0 <= i < k ==> |RowsOf(ix, cs[i])| == 0
      invariant minDf.Some? ==>
        && (exists i :: 0 <= i < k && |RowsOf(ix, cs[i])| == minDf.value) && minDf.value > 0
        && forall i :: 0 <= i < k && |RowsOf(ix, cs[i])| > 0 ==> minDf.value <= |RowsOf(ix, cs[i])|
    {
      var df := |RowsOf(ix, cs[k])|;
      if df > 0 && (minDf.None? || df < minDf.value) {
        minDf := Some(df);
      }
    }
    if minDf.None? {
      return None;
    }
    var tokens: set<string> := {};
    for k := 0 to |cs|
      invariant forall i :: 0 <= i < k ==> (l.lower(cs[i].token) in tokens <==> |RowsOf(ix, cs[i])| == minDf.value)
      invariant forall i :: k <= i < |cs| ==> l.lower(cs[i].token) !in tokens
    {
      if |RowsOf(ix, cs[k])| == minDf.value {
        tokens := tokens + {l.lower(cs[k].token)};
      }
    }
    forall c | c in cs
      ensures l.lower(c.token) in tokens <==> Rare(ix, cs, c)
    {
      var i :| 0 <= i < |cs| && cs[i] == c;
      RareIsLeast(ix, cs, c, minDf.value);
    }
    return Some(tokens);
  }

  lemma RareIsLeast(ix: Index, cs: seq<Candidate>, c: Candidate, least: nat)
    requires c in cs && least > 0
    requires exists i :: 0 <= i < |cs| && |RowsOf(ix, cs[i])| == least
    requires forall i :: 0 <= i < |cs| && |RowsOf(ix, cs[i])| > 0 ==> least <= |RowsOf(ix, cs[i])|
    ensures Rare(ix, cs, c) <==> |RowsOf(ix, c)| == least
  {
    hide RowsOf;
    var i :| 0 <= i < |cs| && |RowsOf(ix, cs[i])| == least;
    assert cs[i] in cs;
  }

  predicate Passes(e: PerEntry, minMatches: nat, rare: set<string>) {
    |e.groups| >= minMatches && e.symptomTokens != {} && e.topicalTokens * rare != {}
  }

  // The filter over the tally is the declarative eligibility.
  lemma PassesIsEligible(l: Language, ix: Index, cs: seq<Candidate>, evidence: Option<set<string>>, rare: set<string>, r: RowId)
    requires forall c :: c in cs ==> (l.lower(c.token) in rare <==> Rare(ix, cs, c))
    requires exists c :: c in cs && r in RowsOf(ix, c)
    ensures Passes(EntryOf(l, ix, cs, evidence, r), MinMatches(cs), rare) <==> Eligible(l, ix, cs, evidence, r)
  {
    hide RowsOf, IsSymptom, Rare, GroupsOf;
    var symptoms, topics := SymptomsOf(l, ix, cs, evidence, r), TopicsOf(l, ix, cs, r);
    if symptoms != {} {
      var t :| t in symptoms;
    }
    if exists c :: c in cs && r in RowsOf(ix, c) && IsSymptom(l, ix, c, evidence, r) {
      var c :| c in cs && r in RowsOf(ix, c) && IsSymptom(l, ix, c, evidence, r);
      assert l.lower(c.token) in symptoms;
    }
    if topics * rare != {} {
      var t :| t in topics * rare;
    }
    if exists c :: c in cs && r in RowsOf(ix, c) && ix.inTopical(l.lower(c.token), r) && Rare(ix, cs, c) {
      var c :| c in cs && r in RowsOf(ix, c) && ix.inTopical(l.lower(c.token), r) && Rare(ix, cs, c);
      assert l.lower(c.token) in topics * rare;
    }
  }

  // ---- The stable sort by falling count ----

  function Insert(sorted: seq<RowId>, r: RowId, ix: Index, cs: seq<Candidate>): seq<RowId> {
    if sorted == [] || |GroupsOf(ix, cs, sorted[0])| < |GroupsOf(ix, cs, r)| then [r] + sorted
    else [sorted[0]] + Insert(sorted[1..], r, ix, cs)
  }

  function SortByGroups(rows: seq<RowId>, ix: Index, cs: seq<Candidate>): seq<RowId> {
    if rows == [] then [] else Insert(SortByGroups(rows[..|rows| - 1], ix, cs), rows[|rows| - 1], ix, cs)
  }

  ghost predicate Ranked(ix: Index, cs: seq<Candidate>, rows: seq<RowId>) {
    forall i, j :: 0 <= i < j < |rows| ==> rows[i] != rows[j] && RanksOver(ix, cs, rows[i], rows[j])
  }

  lemma {:induction false} InsertHolds(sorted: seq<RowId>, r: RowId, ix: Index, cs: seq<Candidate>)
    ensures forall x :: x in Insert(sorted, r, ix, cs) <==> x in sorted || x == r
  {
    hide GroupsOf;
    if sorted != [] {
      InsertHolds(sorted[1..], r, ix, cs);
      assert sorted == [sorted[0]] + sorted[1..];
    }
  }

  lemma {:induction false} InsertRanks(sorted: seq<RowId>, r: RowId, ix: Index, cs: seq<Candidate>)
    requires Ranked(ix, cs, sorted) && r !in sorted
    requires forall x :: x in sorted ==> Before(FirstSeen(ix, cs), x, r)
    ensures Ranked(ix, cs, Insert(sorted, r, ix, cs))
  {
    hide GroupsOf, Before, FirstSeen;
    if sorted == [] {
    } else if |GroupsOf(ix, cs, sorted[0])| < |GroupsOf(ix, cs, r)| {
      forall j | 0 <= j < |sorted|
        ensures sorted[j] != r && RanksOver(ix, cs, r, sorted[j])
      {
        assert j > 0 ==> RanksOver(ix, cs, sorted[0], sorted[j]);
      }
    } else {
      var rest := sorted[1..];
      assert Ranked(ix, cs, rest);
      InsertRanks(rest, r, ix, cs);
      InsertHolds(rest, r, ix, cs);
      var more := Insert(rest, r, ix, cs);
      forall j | 0 <= j < |more|
        ensures sorted[0] != more[j] && RanksOver(ix, cs, sorted[0], more[j])
      {
        assert more[j] in more;
        if more[j] in rest {
          var k :| 0 <= k < |rest| && rest[k] == more[j];
          assert sorted[k + 1] == more[j];
        }
      }
      RankedCons(ix, cs, sorted[0], more);
    }
  }

  lemma RankedCons(ix: Index, cs: seq<Candidate>, x: RowId, rest: seq<RowId>)
    requires Ranked(ix, cs, rest) && forall j :: 0 <= j < |rest| ==> x != rest[j] && RanksOver(ix, cs, x, rest[j])
    ensures Ranked(ix, cs, [x] + rest)
  {
    hide RanksOver;
  }

  // Rows that come in the order they were first met.
  ghost predicate InOrder(order: seq<RowId>, rows: seq<RowId>) {
    forall i, j :: 0 <= i < j < |rows| ==> rows[i] != rows[j] && Before(order, rows[i], rows[j])
  }

  lemma {:induction false} SortRanks(rows: seq<RowId>, ix: Index, cs: seq<Candidate>)
    requires InOrder(FirstSeen(ix, cs), rows)
    ensures Ranked(ix, cs, SortByGroups(rows, ix, cs))
    ensures forall x :: x in SortByGroups(rows, ix, cs) <==> x in rows
  {
    hide Insert, Ranked, Before, FirstSeen;
    if rows == [] {
      NothingRanked(ix, cs);
    } else {
      var k := |rows| - 1;
      var front := rows[..k];
      SortRanks(front, ix, cs);
      assert forall x :: x in front ==> x != rows[k] && Before(FirstSeen(ix, cs), x, rows[k]);
      InsertRanks(SortByGroups(front, ix, cs), rows[k], ix, cs);
      InsertHolds(SortByGroups(front, ix, cs), rows[k], ix, cs);
      assert rows == front + [rows[k]];
    }
  }

  lemma NothingRanked(ix: Index, cs: seq<Candidate>)
    ensures Ranked(ix, cs, [])
  {
  }

  // ---- The search ----

  const DEFAULT_REMINDER_HIT_LIMIT: nat := 5

  function Bound(limit: Option<nat>): nat {
    if limit.None? then DEFAULT_REMINDER_HIT_LIMIT else limit.value
  }

  function Prefix(rows: seq<RowId>, limit: Option<nat>): seq<RowId> {
    if Bound(limit) >= |rows| then rows else rows[..Bound(limit)]
  }

  // The whole ranking, cut at the limit.
  ghost predicate Answers(l: Language, ix: Index, cs: seq<Candidate>, evidence: Option<set<string>>, limit: Option<nat>, found: seq<RowId>) {
    exists all :: IsRanking(l, ix, cs, evidence, all) && found == Prefix(all, limit)
  }

  // The rows of the tally that pass, in the order they were first met.
  method Filter(l: Language, ix: Index, cs: seq<Candidate>, evidence: Option<set<string>>, rare: set<string>,
                perEntry: map<RowId, PerEntry>, order: seq<RowId>) returns (rows: seq<RowId>)
    requires Whole(l, ix, cs, evidence, |cs|, perEntry, order)
    requires forall c :: c in cs ==> (l.lower(c.token) in rare <==> Rare(ix, cs, c))
    ensures InOrder(FirstSeen(ix, cs), rows)
    ensures forall r :: r in rows <==> Eligible(l, ix, cs, evidence, r)
  {
    hide Eligible, Passes, EntryOf, FirstSeen, Rare, RowsOf;
    assert cs[..|cs|] == cs;
    FirstSeenIs(ix, cs);
    rows := [];
    ghost var picks: seq<nat> := [];
    for k := 0 to |order|
      invariant |picks| == |rows| && forall i :: 0 <= i < |picks| ==> picks[i] < k && order[picks[i]] == rows[i]
      invariant forall i, j :: 0 <= i < j < |picks| ==> picks[i] < picks[j]
      invariant forall i :: 0 <= i < k ==> (order[i] in rows <==> Eligible(l, ix, cs, evidence, order[i]))
    {
      assert order[k] in FirstSeen(ix, cs);
      PassesIsEligible(l, ix, cs, evidence, rare, order[k]);
      if Passes(perEntry[order[k]], MinMatches(cs), rare) {
        rows := rows + [order[k]];
        picks := picks + [k];
      }
    }
    PicksInOrder(order, rows, picks);
    forall r | Eligible(l, ix, cs, evidence, r)
      ensures r in order
    {
      EligibleIsMet(l, ix, cs, evidence, r);
    }
  }

  lemma EligibleIsMet(l: Language, ix: Index, cs: seq<Candidate>, evidence: Option<set<string>>, r: RowId)
    requires Eligible(l, ix, cs, evidence, r)
    ensures r in FirstSeen(ix, cs)
  {
    FirstSeenIs(ix, cs);
  }

  lemma PicksInOrder(order: seq<RowId>, rows: seq<RowId>, picks: seq<nat>)
    requires Distinct(order) && |picks| == |rows| && forall i :: 0 <= i < |picks| ==> picks[i] < |order| && order[picks[i]] == rows[i]
    requires forall i, j :: 0 <= i < j < |picks| ==> picks[i] < picks[j]
    ensures InOrder(order, rows)
  {
    forall i, j | 0 <= i < j < |rows|
      ensures rows[i] != rows[j] && Before(order, rows[i], rows[j])
    {
      assert order[picks[i]] == rows[i] && order[picks[j]] == rows[j];
    }
  }

  // `findCaveatsForText`: all eligible rows in rank order, cut at the limit.
  method FindCaveatsForText(l: Language, ix: Index, words: seq<string>, selfIds: set<string>, evidence: Option<set<string>>,
                            limit: Option<nat>) returns (found: seq<RowId>)
    ensures Answers(l, ix, Kept(l, Candidates(l, words), selfIds), evidence, limit, found)
  {
    hide Candidates, Kept, Eligible, Whole, Rare, RowsOf, FirstSeen, SortByGroups, InOrder;
    var candidates := BuildPromptCandidates(l, words);
    var cs := Kept(l, candidates, selfIds);
    CandidatesDistinct(l, words);
    KeptIs(l, candidates, selfIds);
    var perEntry: map<RowId, PerEntry> := map[];
    var order: seq<RowId> := [];
    NothingTallied(l, ix, cs, evidence);
    for k := 0 to |cs|
      invariant Whole(l, ix, cs, evidence, k, perEntry, order)
    {
      perEntry, order := NoteRows(l, ix, cs, evidence, k, perEntry, order);
    }
    var rare := RareTokens(l, ix, cs);
    if rare.None? {
      NothingEligible(l, ix, cs, evidence);
      assert Prefix([], limit) == [];
      return [];
    }
    var rows := Filter(l, ix, cs, evidence, rare.value, perEntry, order);
    SortRanks(rows, ix, cs);
    var sorted := SortByGroups(rows, ix, cs);
    assert IsRanking(l, ix, cs, evidence, sorted);
    return Prefix(sorted, limit);
  }

  lemma NothingTallied(l: Language, ix: Index, cs: seq<Candidate>, evidence: Option<set<string>>)
    ensures Whole(l, ix, cs, evidence, 0, map[], [])
  {
    assert cs[..0] == [];
  }

  lemma NothingEligible(l: Language, ix: Index, cs: seq<Candidate>, evidence: Option<set<string>>)
    requires forall c :: c in cs ==> |RowsOf(ix, c)| == 0
    ensures IsRanking(l, ix, cs, evidence, [])
  {
    hide GroupsOf, RanksOver, RowsOf;
  }

  // ---- What the answers mean ----

  // There is one ranking: rows, order and ties are fixed.
  lemma {:induction false} RankingIsUnique(l: Language, ix: Index, cs: seq<Candidate>, evidence: Option<set<string>>, a: seq<RowId>, b: seq<RowId>)
    requires IsRanking(l, ix, cs, evidence, a) && IsRanking(l, ix, cs, evidence, b)
    ensures a == b
  {
    hide Eligible, RanksOver;
    FirstSeenIs(ix, cs);
    SameElements(ix, cs, a, b);
  }

  // So there is one answer for every limit, and one that stays below its limit is exactly the eligible rows.
  lemma AnswerIsUnique(l: Language, ix: Index, cs: seq<Candidate>, evidence: Option<set<string>>, limit: Option<nat>, a: seq<RowId>, b: seq<RowId>)
    requires Answers(l, ix, cs, evidence, limit, a) && Answers(l, ix, cs, evidence, limit, b)
    ensures a == b
    ensures |a| < Bound(limit) ==> forall r :: r in a <==> Eligible(l, ix, cs, evidence, r)
  {
    hide IsRanking, Eligible;
    var x :| IsRanking(l, ix, cs, evidence, x) && a == Prefix(x, limit);
    var y :| IsRanking(l, ix, cs, evidence, y) && b == Prefix(y, limit);
    RankingIsUnique(l, ix, cs, evidence, x, y);
    RankingHolds(l, ix, cs, evidence, x);
  }

  lemma RankingHolds(l: Language, ix: Index, cs: seq<Candidate>, evidence: Option<set<string>>, all: seq<RowId>)
    requires IsRanking(l, ix, cs, evidence, all)
    ensures forall r :: r in all <==> Eligible(l, ix, cs, evidence, r)
  {
    hide Eligible, RanksOver;
  }

  lemma HasElement(s: seq<RowId>)
    ensures s != [] ==> exists r :: r in s
  {
    if s != [] {
      assert s[0] in s;
    }
  }

  lemma {:induction false} SameElements(ix: Index, cs: seq<Candidate>, a: seq<RowId>, b: seq<RowId>)
    requires Ranked(ix, cs, a) && Ranked(ix, cs, b) && (forall r :: r in a <==> r in b) && Distinct(FirstSeen(ix, cs))
    ensures a == b
    decreases |a|
  {
    hide RanksOver;
    HasElement(a);
    HasElement(b);
    if a != [] {
      HeadsSame(ix, cs, a, b);
      assert a == [a[0]] + a[1..] && b == [b[0]] + b[1..];
      TailHolds(a);
      TailHolds(b);
      SameElements(ix, cs, a[1..], b[1..]);
    }
  }

  lemma TailHolds(a: seq<RowId>)
    requires a != [] && Distinct(a)
    ensures forall r :: r in a[1..] <==> r in a && r != a[0]
  {
    assert a == [a[0]] + a[1..];
  }

  lemma HeadRanks(ix: Index, cs: seq<Candidate>, a: seq<RowId>, x: RowId)
    requires a != [] && Ranked(ix, cs, a) && x in a
    ensures a[0] in a && (x == a[0] || RanksOver(ix, cs, a[0], x))
  {
    hide RanksOver;
    var i :| 0 <= i < |a| && a[i] == x;
  }

  lemma HeadsSame(ix: Index, cs: seq<Candidate>, a: seq<RowId>, b: seq<RowId>)
    requires a != [] && b != [] && Ranked(ix, cs, a) && Ranked(ix, cs, b) && (forall r :: r in a <==> r in b) && Distinct(FirstSeen(ix, cs))
    ensures a[0] == b[0]
  {
    hide RanksOver;
    assert b[0] in b && a[0] in a;
    HeadRanks(ix, cs, a, b[0]);
    HeadRanks(ix, cs, b, a[0]);
    RanksOneWay(ix, cs, a[0], b[0]);
  }

  lemma BeforeOneWay(order: seq<RowId>, a: RowId, b: RowId)
    requires Distinct(order) && Before(order, a, b)
    ensures !Before(order, b, a)
  {
    var p, q :| 0 <= p < q < |order| && order[p] == a && order[q] == b;
    forall s, t | 0 <= s < t < |order| && order[s] == b
      ensures order[t] != a
    {
      assert s == q;
    }
  }

  lemma RanksOneWay(ix: Index, cs: seq<Candidate>, a: RowId, b: RowId)
    requires Distinct(FirstSeen(ix, cs))
    ensures RanksOver(ix, cs, a, b) ==> !RanksOver(ix, cs, b, a)
  {
    hide GroupsOf, FirstSeen, Before;
    if Before(FirstSeen(ix, cs), a, b) {
      BeforeOneWay(FirstSeen(ix, cs), a, b);
    }
  }

  // An answer is the beginning of the whole ranking, and drops only rows that match no more words than every
  // row it keeps.
  lemma LimitDropsLower(l: Language, ix: Index, cs: seq<Candidate>, evidence: Option<set<string>>, all: seq<RowId>, limit: Option<nat>, found: seq<RowId>)
    requires IsRanking(l, ix, cs, evidence, all) && Answers(l, ix, cs, evidence, limit, found)
    ensures found <= all && (|found| == Bound(limit) || found == all)
    ensures forall i, j :: 0 <= i < |found| <= j < |all| ==> |GroupsOf(ix, cs, all[j])| <= |GroupsOf(ix, cs, found[i])|
  {
    hide Eligible, GroupsOf, Before, IsRanking;
    var y :| IsRanking(l, ix, cs, evidence, y) && found == Prefix(y, limit);
    RankingIsUnique(l, ix, cs, evidence, all, y);
    FallingGroups(l, ix, cs, evidence, all);
  }

  lemma FallingGroups(l: Language, ix: Index, cs: seq<Candidate>, evidence: Option<set<string>>, all: seq<RowId>)
    requires IsRanking(l, ix, cs, evidence, all)
    ensures forall i, j :: 0 <= i < j < |all| ==> |GroupsOf(ix, cs, all[j])| <= |GroupsOf(ix, cs, all[i])|
  {
    hide Eligible, GroupsOf, Before;
    assert forall i, j :: 0 <= i < j < |all| ==> RanksOver(ix, cs, all[i], all[j]);
  }

  // On the same words a tool error ranks a subset of what a prompt ranks: the rows whose symptom shares a
  // failure token.
  lemma ToolErrorIsSubset(l: Language, ix: Index, cs: seq<Candidate>, failureTokens: set<string>, tool: seq<RowId>, prompt: seq<RowId>, r: RowId)
    requires IsRanking(l, ix, cs, Some(failureTokens), tool) && IsRanking(l, ix, cs, None, prompt)
    ensures r in tool ==> r in prompt
    ensures r in prompt ==>
      (r in tool <==> exists c :: c in cs && r in RowsOf(ix, c) && IsSymptom(l, ix, c, Some(failureTokens), r))
  {
    RankingHolds(l, ix, cs, Some(failureTokens), tool);
    RankingHolds(l, ix, cs, None, prompt);
    hide RowsOf, GroupsOf, Rare, RanksOver, IsRanking;
    if Eligible(l, ix, cs, Some(failureTokens), r) {
      var c :| c in cs && r in RowsOf(ix, c) && IsSymptom(l, ix, c, Some(failureTokens), r);
      assert IsSymptom(l, ix, c, None, r);
    }
  }

  // ---- The surfaces of a hook ----

  datatype Surface = UserPrompt | Stop | ToolError

  // Topic and failure text on separate lines, empty ones left out.
  function Combined(topicText: string, failureText: string): string {
    if topicText == "" then failureText else if failureText == "" then topicText else topicText + "\n" + failureText
  }

  function QueryText(surface: Surface, topicText: string, failureText: string): string {
    match surface
    case UserPrompt => if topicText != "" then topicText else failureText
    case Stop => failureText
    case ToolError => Combined(topicText, failureText)
  }

  // For a tool error only the words of the failure text can satisfy the symptom gate.
  function EvidenceOf(l: Language, words: string -> seq<string>, surface: Surface, failureText: string): Option<set<string>> {
    if surface.ToolError? then Some(Lowered(l, Candidates(l, words(failureText)))) else None
  }

  // `findCaveatsForHook`; `words` splits a text after its paths are stripped.
  method FindCaveatsForHook(l: Language, ix: Index, words: string -> seq<string>, surface: Surface, topicText: string, failureText: string,
                            selfIds: set<string>, limit: Option<nat>) returns (found: seq<RowId>)
    ensures Answers(l, ix, Kept(l, Candidates(l, words(QueryText(surface, topicText, failureText))), selfIds),
                    EvidenceOf(l, words, surface, failureText), limit, found)
  {
    hide Candidates, Answers, Kept, Lowered;
    match surface {
      case UserPrompt =>
        var prompt := if topicText != "" then topicText else failureText;
        found := FindCaveatsForText(l, ix, words(prompt), selfIds, None, limit);
      case Stop =>
        found := FindCaveatsForText(l, ix, words(failureText), selfIds, None, limit);
      case ToolError =>
        var candidates := BuildPromptCandidates(l, words(failureText));
        var failureTokens := Lowered(l, candidates);
        found := FindCaveatsForText(l, ix, words(Combined(topicText, failureText)), selfIds, Some(failureTokens), limit);
    }
  }
}
