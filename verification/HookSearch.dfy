// The three-gate search behind the hooks (claudeHooks.ts). Tokenizing and matching are inputs: the words of a
// text, and the rows the index answers for a token.
module HookSearch {
  import opened Wrappers

  type RowId = nat

  const TOKEN_MIN_LENGTH := 3
  const MAX_CANDIDATES := 50
  const MIN_GROUPS_CEILING := 2

  datatype Candidate = Candidate(token: string, group: nat)

  // How the script of a word is told, and its lower case.
  datatype Language = Language(lower: string -> string, isCjk: string -> bool, isHiragana: string -> bool)

  // What the index answers: the rows of a phrase (None for a malformed one), and whether a lower-cased token
  // appears in a row's symptom or topical text.
  datatype Index = Index(rows: string -> Option<seq<RowId>>, inSymptom: (string, RowId) -> bool,
                         inTopical: (string, RowId) -> bool)

  // ---- Candidates ----

  // The windows of a word from position i on.
  function Windows(l: Language, word: string, group: nat, i: nat): seq<Candidate>
    decreases |word| - i
  {
    if i + TOKEN_MIN_LENGTH > |word| then []
    else
      var tri := word[i..i + TOKEN_MIN_LENGTH];
      (if l.isHiragana(tri) then [] else [Candidate(tri, group)]) + Windows(l, word, group, i + 1)
  }

  function Expanded(l: Language, word: string, group: nat): seq<Candidate> {
    if |word| < TOKEN_MIN_LENGTH then []
    else if l.isCjk(word) then Windows(l, word, group, 0)
    else [Candidate(word, group)]
  }

  function ExpandAll(l: Language, words: seq<string>): seq<Candidate> {
    if words == [] then []
    else ExpandAll(l, words[..|words| - 1]) + Expanded(l, words[|words| - 1], |words| - 1)
  }

  function Lowered(l: Language, cs: seq<Candidate>): set<string> {
    set c | c in cs :: l.lower(c.token)
  }

  // The first candidate of each lower-cased token.
  function Unique(l: Language, cs: seq<Candidate>): seq<Candidate> {
    if cs == [] then []
    else
      var last := cs[|cs| - 1];
      var front := Unique(l, cs[..|cs| - 1]);
      if l.lower(last.token) in Lowered(l, cs[..|cs| - 1]) then front else front + [last]
  }

  predicate DistinctTokens(l: Language, cs: seq<Candidate>) {
    forall i, j :: 0 <= i < j < |cs| ==> l.lower(cs[i].token) != l.lower(cs[j].token)
  }

  lemma {:induction false} UniqueIs(l: Language, cs: seq<Candidate>)
    ensures DistinctTokens(l, Unique(l, cs)) && Lowered(l, Unique(l, cs)) == Lowered(l, cs)
    ensures forall c :: c in Unique(l, cs) ==> c in cs
  {
    if cs != [] {
      var front, last := cs[..|cs| - 1], cs[|cs| - 1];
      UniqueIs(l, front);
      assert cs == front + [last];
      var u := Unique(l, front);
      assert Lowered(l, cs) == Lowered(l, front) + {l.lower(last.token)};
      assert Lowered(l, u + [last]) == Lowered(l, u) + {l.lower(last.token)};
      forall i | 0 <= i < |u|
        ensures l.lower(u[i].token) in Lowered(l, front)
      {
        assert l.lower(u[i].token) in Lowered(l, u);
      }
    }
  }

  predicate IsFirst(l: Language, cs: seq<Candidate>, i: nat)
    requires i < |cs|
  {
    forall j :: 0 <= j < i ==> l.lower(cs[j].token) != l.lower(cs[i].token)
  }

  // Deduping keeps the first candidate of each token, in the order they come: `picks` are the places kept.
  lemma {:induction false} UniqueKeepsFirst(l: Language, cs: seq<Candidate>) returns (picks: seq<nat>)
    ensures |picks| == |Unique(l, cs)| && forall k :: 0 <= k < |picks| ==> picks[k] < |cs| && cs[picks[k]] == Unique(l, cs)[k]
    ensures forall k, n :: 0 <= k < n < |picks| ==> picks[k] < picks[n]
    ensures forall i :: 0 <= i < |cs| ==> (i in picks <==> IsFirst(l, cs, i))
  {
    if cs == [] {
      picks := [];
    } else {
      var m := |cs| - 1;
      var front, last := cs[..m], cs[m];
      picks := UniqueKeepsFirst(l, front);
      forall i | 0 <= i < m
        ensures IsFirst(l, cs, i) <==> IsFirst(l, front, i)
      {
        assert forall j :: 0 <= j <= i ==> cs[j] == front[j];
      }
      assert l.lower(last.token) in Lowered(l, front) <==> !IsFirst(l, cs, m) by {
        FirstIsNew(l, cs);
      }
      if IsFirst(l, cs, m) {
        picks := picks + [m];
      }
    }
  }

  lemma FirstIsNew(l: Language, cs: seq<Candidate>)
    requires cs != []
    ensures IsFirst(l, cs, |cs| - 1) <==> l.lower(cs[|cs| - 1].token) !in Lowered(l, cs[..|cs| - 1])
  {
    var m := |cs| - 1;
    var front := cs[..m];
    forall j | 0 <= j < m
      ensures l.lower(cs[j].token) in Lowered(l, front)
    {
      assert front[j] in front;
    }
    if l.lower(cs[m].token) in Lowered(l, front) {
      var c :| c in front && l.lower(c.token) == l.lower(cs[m].token);
      var j :| 0 <= j < m && front[j] == c;
      assert cs[j] == c;
    }
  }

  function Piece(word: string, i: nat): string
    requires i + TOKEN_MIN_LENGTH <= |word|
  {
    word[i..i + TOKEN_MIN_LENGTH]
  }

  ghost predicate IsPieceFrom(word: string, from: nat, token: string) {
    exists i :: from <= i <= |word| - TOKEN_MIN_LENGTH && token == Piece(word, i)
  }

  // The windows are exactly the three-unit pieces of the word that are not all hiragana.
  lemma {:induction false} WindowsAre(l: Language, word: string, group: nat, from: nat, c: Candidate)
    requires from <= |word|
    ensures c in Windows(l, word, group, from)
      <==> c.group == group && IsPieceFrom(word, from, c.token) && !l.isHiragana(c.token)
    decreases |word| - from
  {
    if from + TOKEN_MIN_LENGTH <= |word| {
      WindowsAre(l, word, group, from + 1, c);
      assert IsPieceFrom(word, from, c.token) <==> c.token == Piece(word, from) || IsPieceFrom(word, from + 1, c.token);
    }
  }

  function Candidates(l: Language, words: seq<string>): seq<Candidate> {
    var u := Unique(l, ExpandAll(l, words));
    if |u| > MAX_CANDIDATES then u[..MAX_CANDIDATES] else u
  }

  method ExpandToken(l: Language, word: string, group: nat, before: seq<Candidate>) returns (out: seq<Candidate>)
    ensures out == before + Expanded(l, word, group)
  {
    out := before;
    if l.isCjk(word) {
      if |word| < TOKEN_MIN_LENGTH {
        return;
      }
      var i := 0;
      while i <= |word| - TOKEN_MIN_LENGTH
        invariant 0 <= i <= |word| - TOKEN_MIN_LENGTH + 1
        invariant out + Windows(l, word, group, i) == before + Windows(l, word, group, 0)
      {
        var tri := word[i..i + TOKEN_MIN_LENGTH];
        if !l.isHiragana(tri) {
          out := out + [Candidate(tri, group)];
        }
        i := i + 1;
      }
    } else if |word| >= TOKEN_MIN_LENGTH {
      out := out + [Candidate(word, group)];
    }
  }

  lemma UniqueStep(l: Language, cs: seq<Candidate>, k: nat)
    requires k < |cs|
    ensures Lowered(l, cs[..k + 1]) == Lowered(l, cs[..k]) + {l.lower(cs[k].token)}
    ensures Unique(l, cs[..k + 1])
      == if l.lower(cs[k].token) in Lowered(l, cs[..k]) then Unique(l, cs[..k]) else Unique(l, cs[..k]) + [cs[k]]
  {
    assert cs[..k + 1][..k] == cs[..k];
    assert cs[..k + 1] == cs[..k] + [cs[k]];
  }

  method Dedupe(l: Language, expanded: seq<Candidate>) returns (unique: seq<Candidate>)
    ensures unique == Unique(l, expanded)
  {
    hide Unique, Lowered;
    var seen: set<string> := {};
    unique := [];
    NothingUnique(l, expanded);
    for k := 0 to |expanded|
      invariant seen == Lowered(l, expanded[..k]) && unique == Unique(l, expanded[..k])
    {
      UniqueStep(l, expanded, k);
      var key := l.lower(expanded[k].token);
      if key !in seen {
        unique := unique + [expanded[k]];
      }
      seen := seen + {key};
    }
    assert expanded[..|expanded|] == expanded;
  }

  lemma NothingUnique(l: Language, cs: seq<Candidate>)
    ensures Lowered(l, cs[..0]) == {} && Unique(l, cs[..0]) == []
  {
  }

  method BuildPromptCandidates(l: Language, words: seq<string>) returns (unique: seq<Candidate>)
    ensures unique == Candidates(l, words)
  {
    hide Unique, Expanded;
    var expanded: seq<Candidate> := [];
    for i := 0 to |words|
      invariant expanded == ExpandAll(l, words[..i])
    {
      assert words[..i + 1][..i] == words[..i];
      expanded := ExpandToken(l, words[i], i, expanded);
    }
    assert words[..|words|] == words;
    unique := Dedupe(l, expanded);
    if |unique| > MAX_CANDIDATES {
      unique := unique[..MAX_CANDIDATES];
    }
  }

  // Candidates never repeat a token, whatever its case.
  lemma CandidatesDistinct(l: Language, words: seq<string>)
    ensures DistinctTokens(l, Candidates(l, words)) && |Candidates(l, words)| <= MAX_CANDIDATES
  {
    UniqueIs(l, ExpandAll(l, words));
  }

  // ---- What is found ----

  function RowsOf(ix: Index, c: Candidate): seq<RowId> {
    if ix.rows(c.token).None? then [] else ix.rows(c.token).value
  }

  function Kept(l: Language, cs: seq<Candidate>, selfIds: set<string>): seq<Candidate> {
    if cs == [] then []
    else
      var front := Kept(l, cs[..|cs| - 1], selfIds);
      if l.lower(cs[|cs| - 1].token) in selfIds then front else front + [cs[|cs| - 1]]
  }

  function GroupsIn(cs: seq<Candidate>): set<nat> {
    set c | c in cs :: c.group
  }

  // The prompt words a row matches.
  function GroupsOf(ix: Index, cs: seq<Candidate>, r: RowId): set<nat> {
    set c | c in cs && r in RowsOf(ix, c) :: c.group
  }

  // The matched tokens that describe a failure, and those that name the topic.
  function SymptomsOf(l: Language, ix: Index, cs: seq<Candidate>, evidence: Option<set<string>>, r: RowId): set<string> {
    set c | c in cs && r in RowsOf(ix, c) && IsSymptom(l, ix, c, evidence, r) :: l.lower(c.token)
  }

  predicate IsSymptom(l: Language, ix: Index, c: Candidate, evidence: Option<set<string>>, r: RowId) {
    (evidence.None? || l.lower(c.token) in evidence.value) && ix.inSymptom(l.lower(c.token), r)
  }

  function TopicsOf(l: Language, ix: Index, cs: seq<Candidate>, r: RowId): set<string> {
    set c | c in cs && r in RowsOf(ix, c) && ix.inTopical(l.lower(c.token), r) :: l.lower(c.token)
  }

  // A token of the least document frequency above 0.
  predicate Rare(ix: Index, cs: seq<Candidate>, c: Candidate) {
    && c in cs && |RowsOf(ix, c)| > 0
    && forall d :: d in cs && |RowsOf(ix, d)| > 0 ==> |RowsOf(ix, c)| <= |RowsOf(ix, d)|
  }

  function MinMatches(cs: seq<Candidate>): nat {
    if |GroupsIn(cs)| < MIN_GROUPS_CEILING then |GroupsIn(cs)| else MIN_GROUPS_CEILING
  }

  // The three gates: enough distinct words, one token in the symptom, and one rare token in the topic.
  ghost predicate Eligible(l: Language, ix: Index, cs: seq<Candidate>, evidence: Option<set<string>>, r: RowId) {
    && (exists c :: c in cs && r in RowsOf(ix, c))
    && |GroupsOf(ix, cs, r)| >= MinMatches(cs)
    && (exists c :: c in cs && r in RowsOf(ix, c) && IsSymptom(l, ix, c, evidence, r))
    && (exists c :: c in cs && r in RowsOf(ix, c) && ix.inTopical(l.lower(c.token), r) && Rare(ix, cs, c))
  }

  // Rows in the order they are first met.
  function AddRows(order: seq<RowId>, rows: seq<RowId>): seq<RowId> {
    if rows == [] then order
    else
      var front := AddRows(order, rows[..|rows| - 1]);
      if rows[|rows| - 1] in front then front else front + [rows[|rows| - 1]]
  }

  function FirstSeen(ix: Index, cs: seq<Candidate>): seq<RowId> {
    if cs == [] then [] else AddRows(FirstSeen(ix, cs[..|cs| - 1]), RowsOf(ix, cs[|cs| - 1]))
  }

  ghost predicate Before(order: seq<RowId>, a: RowId, b: RowId) {
    exists p, q :: 0 <= p < q < |order| && order[p] == a && order[q] == b
  }

  ghost predicate RanksOver(ix: Index, cs: seq<Candidate>, a: RowId, b: RowId) {
    || |GroupsOf(ix, cs, a)| > |GroupsOf(ix, cs, b)|
    || (|GroupsOf(ix, cs, a)| == |GroupsOf(ix, cs, b)| && Before(FirstSeen(ix, cs), a, b))
  }

  // The whole answer: exactly the eligible rows, by falling number of matched words, ties as first met.
  ghost predicate IsRanking(l: Language, ix: Index, cs: seq<Candidate>, evidence: Option<set<string>>, all: seq<RowId>) {
    && (forall r :: r in all <==> Eligible(l, ix, cs, evidence, r))
    && (forall i, j :: 0 <= i < j < |all| ==> all[i] != all[j] && RanksOver(ix, cs, all[i], all[j]))
  }

  lemma {:induction false} KeptIs(l: Language, cs: seq<Candidate>, selfIds: set<string>)
    ensures forall c :: c in Kept(l, cs, selfIds) <==> c in cs && l.lower(c.token) !in selfIds
    ensures DistinctTokens(l, cs) ==> DistinctTokens(l, Kept(l, cs, selfIds))
  {
    if cs != [] {
      var front, last := cs[..|cs| - 1], cs[|cs| - 1];
      KeptIs(l, front, selfIds);
      assert cs == front + [last];
      if DistinctTokens(l, cs) {
        var kept := Kept(l, front, selfIds);
        forall i | 0 <= i < |kept|
          ensures l.lower(kept[i].token) != l.lower(last.token)
        {
          assert kept[i] in front;
          var k :| 0 <= k < |front| && front[k] == kept[i];
          assert cs[k] == kept[i];
        }
      }
    }
  }

  ghost predicate Distinct(rows: seq<RowId>) {
    forall i, j :: 0 <= i < j < |rows| ==> rows[i] != rows[j]
  }

  lemma {:induction false} AddRowsIs(order: seq<RowId>, rows: seq<RowId>)
    requires Distinct(order)
    ensures Distinct(AddRows(order, rows))
    ensures forall x :: x in AddRows(order, rows) <==> x in order || x in rows
  {
    if rows != [] {
      AddRowsIs(order, rows[..|rows| - 1]);
      assert rows == rows[..|rows| - 1] + [rows[|rows| - 1]];
    }
  }

  lemma {:induction false} FirstSeenIs(ix: Index, cs: seq<Candidate>)
    ensures Distinct(FirstSeen(ix, cs))
    ensures forall x :: x in FirstSeen(ix, cs) <==> exists c :: c in cs && x in RowsOf(ix, c)
  {
    hide RowsOf, AddRows;
    if cs != [] {
      var front, last := cs[..|cs| - 1], cs[|cs| - 1];
      FirstSeenIs(ix, front);
      AddRowsIs(FirstSeen(ix, front), RowsOf(ix, last));
      assert cs == front + [last];
      assert last in cs;
    }
  }

  // ---- The loops ----

  datatype PerEntry = PerEntry(groups: set<nat>, symptomTokens: set<string>, topicalTokens: set<string>)

  function EntryOf(l: Language, ix: Index, cs: seq<Candidate>, evidence: Option<set<string>>, r: RowId): PerEntry {
    PerEntry(GroupsOf(ix, cs, r), SymptomsOf(l, ix, cs, evidence, r), TopicsOf(l, ix, cs, r))
  }

  function Noted(l: Language, ix: Index, e: PerEntry, c: Candidate, evidence: Option<set<string>>, r: RowId): PerEntry {
    PerEntry(e.groups + {c.group},
             if IsSymptom(l, ix, c, evidence, r) then e.symptomTokens + {l.lower(c.token)} else e.symptomTokens,
             if ix.inTopical(l.lower(c.token), r) then e.topicalTokens + {l.lower(c.token)} else e.topicalTokens)
  }

  // One more candidate adds to the entries of its rows.
  lemma EntryStep(l: Language, ix: Index, cs: seq<Candidate>, c: Candidate, evidence: Option<set<string>>, r: RowId)
    ensures EntryOf(l, ix, cs + [c], evidence, r)
      == if r in RowsOf(ix, c) then Noted(l, ix, EntryOf(l, ix, cs, evidence, r), c, evidence, r) else EntryOf(l, ix, cs, evidence, r)
  {
    hide RowsOf, IsSymptom;
    var all := cs + [c];
    assert forall d :: d in all <==> d in cs || d == c;
    if r in RowsOf(ix, c) {
      assert GroupsOf(ix, all, r) == GroupsOf(ix, cs, r) + {c.group};
    } else {
      assert GroupsOf(ix, all, r) == GroupsOf(ix, cs, r);
      assert SymptomsOf(l, ix, all, evidence, r) == SymptomsOf(l, ix, cs, evidence, r);
      assert TopicsOf(l, ix, all, r) == TopicsOf(l, ix, cs, r);
    }
    SymptomStep(l, ix, cs, c, evidence, r);
    TopicStep(l, ix, cs, c, r);
  }

  lemma SymptomStep(l: Language, ix: Index, cs: seq<Candidate>, c: Candidate, evidence: Option<set<string>>, r: RowId)
    ensures SymptomsOf(l, ix, cs + [c], evidence, r)
      == SymptomsOf(l, ix, cs, evidence, r)
         + if r in RowsOf(ix, c) && IsSymptom(l, ix, c, evidence, r) then {l.lower(c.token)} else {}
  {
    hide RowsOf, IsSymptom;
    assert forall d :: d in cs + [c] <==> d in cs || d == c;
  }

  lemma TopicStep(l: Language, ix: Index, cs: seq<Candidate>, c: Candidate, r: RowId)
    ensures TopicsOf(l, ix, cs + [c], r)
      == TopicsOf(l, ix, cs, r) + if r in RowsOf(ix, c) && ix.inTopical(l.lower(c.token), r) then {l.lower(c.token)} else {}
  {
    hide RowsOf;
    assert forall d :: d in cs + [c] <==> d in cs || d == c;
  }

  // The tally after the first j rows of the k-th candidate.
  ghost predicate Tallied(l: Language, ix: Index, cs: seq<Candidate>, evidence: Option<set<string>>, k: nat, j: nat,
                          perEntry: map<RowId, PerEntry>, order: seq<RowId>)
    requires k < |cs| && j <= |RowsOf(ix, cs[k])|
  {
    var rows := RowsOf(ix, cs[k])[..j];
    && order == AddRows(FirstSeen(ix, cs[..k]), rows)
    && (forall r :: r in perEntry <==> r in order)
    && (forall r :: r in perEntry ==>
          perEntry[r] == if r in rows then Noted(l, ix, EntryOf(l, ix, cs[..k], evidence, r), cs[k], evidence, r)
                         else EntryOf(l, ix, cs[..k], evidence, r))
  }

  ghost predicate Whole(l: Language, ix: Index, cs: seq<Candidate>, evidence: Option<set<string>>, k: nat,
                        perEntry: map<RowId, PerEntry>, order: seq<RowId>)
    requires k <= |cs|
  {
    && order == FirstSeen(ix, cs[..k])
    && (forall r :: r in perEntry <==> r in order)
    && (forall r :: r in perEntry ==> perEntry[r] == EntryOf(l, ix, cs[..k], evidence, r))
  }

  lemma TallyStart(l: Language, ix: Index, cs: seq<Candidate>, evidence: Option<set<string>>, k: nat,
                   perEntry: map<RowId, PerEntry>, order: seq<RowId>)
    requires k < |cs| && Whole(l, ix, cs, evidence, k, perEntry, order)
    ensures Tallied(l, ix, cs, evidence, k, 0, perEntry, order)
  {
    hide EntryOf, FirstSeen, Noted;
    assert RowsOf(ix, cs[k])[..0] == [];
  }

  lemma TallyEnd(l: Language, ix: Index, cs: seq<Candidate>, evidence: Option<set<string>>, k: nat,
                 perEntry: map<RowId, PerEntry>, order: seq<RowId>)
    requires k < |cs| && Tallied(l, ix, cs, evidence, k, |RowsOf(ix, cs[k])|, perEntry, order)
    ensures Whole(l, ix, cs, evidence, k + 1, perEntry, order)
  {
    hide EntryOf, AddRows, Noted;
    var rows := RowsOf(ix, cs[k]);
    assert rows[..|rows|] == rows;
    assert cs[..k + 1] == cs[..k] + [cs[k]] && cs[..k + 1][..k] == cs[..k];
    forall r | r in perEntry
      ensures perEntry[r] == EntryOf(l, ix, cs[..k + 1], evidence, r)
    {
      EntryStep(l, ix, cs[..k], cs[k], evidence, r);
    }
  }

  // A row not met before has an empty entry.
  lemma UnmetIsEmpty(l: Language, ix: Index, cs: seq<Candidate>, evidence: Option<set<string>>, r: RowId)
    requires r !in FirstSeen(ix, cs)
    ensures EntryOf(l, ix, cs, evidence, r) == PerEntry({}, {}, {})
  {
    FirstSeenIs(ix, cs);
    hide RowsOf, IsSymptom, FirstSeen;
    assert forall c :: c in cs ==> r !in RowsOf(ix, c);
  }

  lemma NotedTwice(l: Language, ix: Index, e: PerEntry, c: Candidate, evidence: Option<set<string>>, r: RowId)
    ensures Noted(l, ix, Noted(l, ix, e, c, evidence, r), c, evidence, r) == Noted(l, ix, e, c, evidence, r)
  {
    hide IsSymptom;
  }

  lemma TallyStep(l: Language, ix: Index, cs: seq<Candidate>, evidence: Option<set<string>>, k: nat, j: nat,
                  perEntry: map<RowId, PerEntry>, order: seq<RowId>)
    requires k < |cs| && j < |RowsOf(ix, cs[k])| && Tallied(l, ix, cs, evidence, k, j, perEntry, order)
    ensures var r := RowsOf(ix, cs[k])[j];
      var e := Noted(l, ix, if r in perEntry then perEntry[r] else PerEntry({}, {}, {}), cs[k], evidence, r);
      Tallied(l, ix, cs, evidence, k, j + 1, perEntry[r := e], if r in perEntry then order else order + [r])
  {
    hide EntryOf, FirstSeen, Noted;
    var rows := RowsOf(ix, cs[k]);
    var r := rows[j];
    assert rows[..j + 1] == rows[..j] + [r] && rows[..j + 1][..j] == rows[..j];
    NotedTwice(l, ix, EntryOf(l, ix, cs[..k], evidence, r), cs[k], evidence, r);
    FirstSeenIs(ix, cs[..k]);
    AddRowsIs(FirstSeen(ix, cs[..k]), rows[..j]);
    if r !in perEntry {
      UnmetIsEmpty(l, ix, cs[..k], evidence, r);
    }
  }

  // One candidate: every row the index answers.
  method NoteRows(l: Language, ix: Index, cs: seq<Candidate>, evidence: Option<set<string>>, k: nat,
                  before: map<RowId, PerEntry>, orderBefore: seq<RowId>) returns (perEntry: map<RowId, PerEntry>, order: seq<RowId>)
    requires k < |cs| && Whole(l, ix, cs, evidence, k, before, orderBefore)
    ensures Whole(l, ix, cs, evidence, k + 1, perEntry, order)
  {
    hide Whole, Tallied, IsSymptom;
    perEntry, order := before, orderBefore;
    TallyStart(l, ix, cs, evidence, k, perEntry, order);
    var cand, rows := cs[k], RowsOf(ix, cs[k]);
    var tokLower := l.lower(cand.token);
    for j := 0 to |rows|
      invariant Tallied(l, ix, cs, evidence, k, j, perEntry, order)
    {
      var row := rows[j];
      TallyStep(l, ix, cs, evidence, k, j, perEntry, order);
      if row !in perEntry {
        order := order + [row];
      }
      var entry := if row in perEntry then perEntry[row] else PerEntry({}, {}, {});
      entry := entry.(groups := entry.groups + {cand.group});
      if IsSymptom(l, ix, cand, evidence, row) {
        entry := entry.(symptomTokens := entry.symptomTokens + {tokLower});
      }
      if ix.inTopical(tokLower, row) {
        entry := entry.(topicalTokens := entry.topicalTokens + {tokLower});
      }
      perEntry := perEntry[row := entry];
    }
    TallyEnd(l, ix, cs, evidence, k, perEntry, order);
  }
}
