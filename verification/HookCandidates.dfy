// What the search candidates of a text are, said of its words.
module HookCandidates {
  import opened Wrappers
  import opened HookSearch

  // A place in a text: a word, and where in it a candidate starts.
  datatype Place = Place(word: nat, start: nat)

  /** A plain word of three or more units is one candidate; a CJK word has one for each three units in it that are not
      all hiragana. Shorter words have none. */
  predicate IsPlace(l: Language, words: seq<string>, p: Place) {
    && p.word < |words| && p.start + TOKEN_MIN_LENGTH <= |words[p.word]|
    && if l.isCjk(words[p.word]) then !l.isHiragana(Piece(words[p.word], p.start)) else p.start == 0
  }

  function TokenAt(l: Language, words: seq<string>, p: Place): string
    requires IsPlace(l, words, p)
  {
    if l.isCjk(words[p.word]) then Piece(words[p.word], p.start) else words[p.word]
  }

  predicate Precedes(p: Place, q: Place) {
    p.word < q.word || (p.word == q.word && p.start < q.start)
  }

  predicate Ascending(places: seq<Place>) {
    forall i, j :: 0 <= i < j < |places| ==> Precedes(places[i], places[j])
  }

  // The candidates are those of the places, in turn.
  ghost predicate Reads(l: Language, words: seq<string>, places: seq<Place>, cs: seq<Candidate>) {
    && |places| == |cs|
    && forall k :: 0 <= k < |cs| ==> IsPlace(l, words, places[k]) && cs[k] == Candidate(TokenAt(l, words, places[k]), places[k].word)
  }

  lemma {:induction false} WindowPlaces(l: Language, words: seq<string>, w: nat, from: nat) returns (places: seq<Place>)
    requires w < |words| && l.isCjk(words[w]) && from <= |words[w]|
    ensures Reads(l, words, places, Windows(l, words[w], w, from)) && Ascending(places)
    ensures forall p :: p in places <==> IsPlace(l, words, p) && p.word == w && p.start >= from
    decreases |words[w]| - from
  {
    if from + TOKEN_MIN_LENGTH > |words[w]| {
      places := [];
    } else {
      var rest := WindowPlaces(l, words, w, from + 1);
      places := (if l.isHiragana(Piece(words[w], from)) then [] else [Place(w, from)]) + rest;
      forall k | 0 <= k < |rest| ensures rest[k].word == w && rest[k].start > from {
        assert rest[k] in rest;
      }
    }
  }

  lemma WordPlaces(l: Language, words: seq<string>, w: nat) returns (places: seq<Place>)
    requires w < |words|
    ensures Reads(l, words, places, Expanded(l, words[w], w)) && Ascending(places)
    ensures forall p :: p in places <==> IsPlace(l, words, p) && p.word == w
  {
    if |words[w]| < TOKEN_MIN_LENGTH {
      places := [];
    } else if l.isCjk(words[w]) {
      places := WindowPlaces(l, words, w, 0);
    } else {
      places := [Place(w, 0)];
    }
  }

  // A place among the first words is the same place in the whole text.
  lemma SamePlace(l: Language, words: seq<string>, n: nat, p: Place)
    requires n <= |words|
    ensures IsPlace(l, words[..n], p) <==> IsPlace(l, words, p) && p.word < n
    ensures IsPlace(l, words[..n], p) ==> TokenAt(l, words[..n], p) == TokenAt(l, words, p)
  {
  }

  // The candidates of the first words are read in the whole text as they are there.
  lemma ReadsInMore(l: Language, words: seq<string>, n: nat, places: seq<Place>, cs: seq<Candidate>)
    requires n <= |words| && Reads(l, words[..n], places, cs)
    ensures Reads(l, words, places, cs) && forall k :: 0 <= k < |places| ==> places[k].word < n
  {
    hide IsPlace, TokenAt;
    forall k | 0 <= k < |cs|
      ensures places[k].word < n && IsPlace(l, words, places[k]) && TokenAt(l, words, places[k]) == TokenAt(l, words[..n], places[k])
    {
      SamePlace(l, words, n, places[k]);
    }
  }

  lemma ReadsJoin(l: Language, words: seq<string>, n: nat, a: seq<Place>, x: seq<Candidate>, b: seq<Place>, y: seq<Candidate>)
    requires Reads(l, words, a, x) && Reads(l, words, b, y) && Ascending(a) && Ascending(b)
    requires (forall k :: 0 <= k < |a| ==> a[k].word < n) && forall p :: p in b ==> p.word == n
    ensures Reads(l, words, a + b, x + y) && Ascending(a + b)
  {
    hide IsPlace, TokenAt;
    forall k | 0 <= k < |b| ensures b[k].word == n {
      assert b[k] in b;
    }
  }

  /** Before deduping there is one candidate for every place of the text, in the order of the text. */
  lemma {:induction false} ExpandedPlaces(l: Language, words: seq<string>) returns (places: seq<Place>)
    ensures Reads(l, words, places, ExpandAll(l, words)) && Ascending(places)
    ensures forall p :: p in places <==> IsPlace(l, words, p)
    decreases |words|
  {
    if words == [] {
      places := [];
    } else {
      hide Expanded, IsPlace, TokenAt, Reads, Ascending;
      var n := |words| - 1;
      var before := ExpandedPlaces(l, words[..n]);
      var last := WordPlaces(l, words, n);
      places := before + last;
      ReadsInMore(l, words, n, before, ExpandAll(l, words[..n]));
      ReadsJoin(l, words, n, before, ExpandAll(l, words[..n]), last, Expanded(l, words[n], n));
      forall p ensures p in places <==> IsPlace(l, words, p) {
        SamePlace(l, words, n, p);
        PlaceInText(l, words, p);
      }
    }
  }

  lemma PlaceInText(l: Language, words: seq<string>, p: Place)
    ensures IsPlace(l, words, p) ==> p.word < |words|
  {
  }

  // A candidate of the expansion, without its place.
  lemma ExpandedAre(l: Language, words: seq<string>, c: Candidate)
    ensures c in ExpandAll(l, words) <==>
      && c.group < |words| && |words[c.group]| >= TOKEN_MIN_LENGTH
      && if l.isCjk(words[c.group]) then IsPieceFrom(words[c.group], 0, c.token) && !l.isHiragana(c.token) else c.token == words[c.group]
  {
    var places := ExpandedPlaces(l, words);
    var cs := ExpandAll(l, words);
    if c in cs {
      var k :| 0 <= k < |cs| && cs[k] == c;
      assert IsPlace(l, words, places[k]);
      assert l.isCjk(words[c.group]) ==> c.token == Piece(words[c.group], places[k].start);
    }
    forall p: Place | IsPlace(l, words, p)
      ensures Candidate(TokenAt(l, words, p), p.word) in cs
    {
      var k :| 0 <= k < |places| && places[k] == p;
      assert cs[k] in cs;
    }
    if c.group < |words| && |words[c.group]| >= TOKEN_MIN_LENGTH {
      if l.isCjk(words[c.group]) {
        if IsPieceFrom(words[c.group], 0, c.token) && !l.isHiragana(c.token) {
          var i :| 0 <= i <= |words[c.group]| - TOKEN_MIN_LENGTH && c.token == Piece(words[c.group], i);
          assert IsPlace(l, words, Place(c.group, i));
        }
      } else if c.token == words[c.group] {
        assert IsPlace(l, words, Place(c.group, 0));
      }
    }
  }

  // No place before it has the same token, whatever its case.
  ghost predicate FirstPlace(l: Language, words: seq<string>, p: Place)
    requires IsPlace(l, words, p)
  {
    forall q :: IsPlace(l, words, q) && Precedes(q, p) ==> l.lower(TokenAt(l, words, q)) != l.lower(TokenAt(l, words, p))
  }

  lemma FirstByPlace(l: Language, words: seq<string>, places: seq<Place>, k: nat)
    requires Reads(l, words, places, ExpandAll(l, words)) && Ascending(places) && k < |places|
    requires forall p :: p in places <==> IsPlace(l, words, p)
    ensures IsPlace(l, words, places[k])
    ensures IsFirst(l, ExpandAll(l, words), k) <==> FirstPlace(l, words, places[k])
  {
    hide ExpandAll, TokenAt, IsPlace;
    var cs := ExpandAll(l, words);
    if IsFirst(l, cs, k) {
      forall q | IsPlace(l, words, q) && Precedes(q, places[k])
        ensures l.lower(TokenAt(l, words, q)) != l.lower(TokenAt(l, words, places[k]))
      {
        var j :| 0 <= j < |places| && places[j] == q;
        assert j < k;
      }
    }
    if FirstPlace(l, words, places[k]) {
      forall j | 0 <= j < k ensures l.lower(cs[j].token) != l.lower(cs[k].token) {
        assert Precedes(places[j], places[k]);
      }
    }
  }

  // The places of the candidates that are kept.
  function Picked(all: seq<Place>, picks: seq<nat>): seq<Place>
    requires forall k :: 0 <= k < |picks| ==> picks[k] < |all|
  {
    seq(|picks|, k requires 0 <= k < |picks| => all[picks[k]])
  }

  lemma PickedRead(l: Language, words: seq<string>, all: seq<Place>, cs: seq<Candidate>, picks: seq<nat>, kept: seq<Candidate>)
    requires Reads(l, words, all, cs) && Ascending(all)
    requires |picks| == |kept| && forall k :: 0 <= k < |picks| ==> picks[k] < |cs| && cs[picks[k]] == kept[k]
    requires forall k, n :: 0 <= k < n < |picks| ==> picks[k] < picks[n]
    ensures Reads(l, words, Picked(all, picks), kept) && Ascending(Picked(all, picks))
  {
    hide IsPlace, TokenAt;
  }

  lemma FirstPlaces(l: Language, words: seq<string>) returns (places: seq<Place>)
    ensures Reads(l, words, places, Unique(l, ExpandAll(l, words))) && Ascending(places)
    ensures forall p :: p in places <==> IsPlace(l, words, p) && FirstPlace(l, words, p)
  {
    hide ExpandAll, Unique, IsFirst, FirstPlace, TokenAt, IsPlace;
    var cs := ExpandAll(l, words);
    var all := ExpandedPlaces(l, words);
    var picks := UniqueKeepsFirst(l, cs);
    places := Picked(all, picks);
    PickedRead(l, words, all, cs, picks, Unique(l, cs));
    forall k | 0 <= k < |all|
      ensures IsPlace(l, words, all[k]) && (k in picks <==> FirstPlace(l, words, all[k]))
    {
      FirstByPlace(l, words, all, k);
    }
    forall p | IsPlace(l, words, p) && FirstPlace(l, words, p) ensures p in places {
      var i :| 0 <= i < |all| && all[i] == p;
      var k :| 0 <= k < |picks| && picks[k] == i;
      assert places[k] == p;
    }
    forall p | p in places ensures IsPlace(l, words, p) && FirstPlace(l, words, p) {
      var k :| 0 <= k < |places| && places[k] == p;
      assert picks[k] in picks;
    }
  }

  /** The candidates of a text are those of the first places of its tokens, in order, each with its word as its group;
      beyond fifty, the later ones are left out and nothing else is. */
  lemma CandidatesAre(l: Language, words: seq<string>) returns (places: seq<Place>)
    ensures Reads(l, words, places, Candidates(l, words)) && Ascending(places) && |places| <= MAX_CANDIDATES
    ensures forall p :: p in places ==> IsPlace(l, words, p) && FirstPlace(l, words, p)
    ensures forall p :: IsPlace(l, words, p) && FirstPlace(l, words, p) && p !in places ==>
      |places| == MAX_CANDIDATES && forall k :: 0 <= k < |places| ==> Precedes(places[k], p)
  {
    hide ExpandAll, Unique, FirstPlace, TokenAt, IsPlace;
    var first := FirstPlaces(l, words);
    places := if |first| > MAX_CANDIDATES then first[..MAX_CANDIDATES] else first;
    forall i | 0 <= i < |places| ensures first[i] in places {
      assert places[i] == first[i];
    }
    forall p | p in first && p !in places
      ensures |places| == MAX_CANDIDATES && forall k :: 0 <= k < |places| ==> Precedes(places[k], p)
    {
      var i :| 0 <= i < |first| && first[i] == p;
    }
  }

  // Leaving out the words of the project itself keeps the others, in their order: `picks` are their places.
  lemma {:induction false} KeptInOrder(l: Language, cs: seq<Candidate>, selfIds: set<string>) returns (picks: seq<nat>)
    ensures |picks| == |Kept(l, cs, selfIds)|
    ensures forall k :: 0 <= k < |picks| ==> picks[k] < |cs| && Kept(l, cs, selfIds)[k] == cs[picks[k]]
    ensures forall k, n :: 0 <= k < n < |picks| ==> picks[k] < picks[n]
    ensures forall i :: 0 <= i < |cs| ==> (i in picks <==> l.lower(cs[i].token) !in selfIds)
    decreases |cs|
  {
    if cs == [] {
      picks := [];
    } else {
      var m := |cs| - 1;
      picks := KeptInOrder(l, cs[..m], selfIds);
      forall i | 0 <= i < m ensures cs[..m][i] == cs[i] {}
      if l.lower(cs[m].token) !in selfIds {
        picks := picks + [m];
      }
    }
  }

  // ---- The rows in the order they are met ----

  // A row of the answer for one candidate.
  datatype Meeting = Meeting(candidate: nat, position: nat)

  predicate IsMeeting(ix: Index, cs: seq<Candidate>, m: Meeting) {
    m.candidate < |cs| && m.position < |RowsOf(ix, cs[m.candidate])|
  }

  function RowAt(ix: Index, cs: seq<Candidate>, m: Meeting): RowId
    requires IsMeeting(ix, cs, m)
  {
    RowsOf(ix, cs[m.candidate])[m.position]
  }

  predicate Sooner(m: Meeting, k: nat, n: nat) {
    m.candidate < k || (m.candidate == k && m.position < n)
  }

  // No sooner meeting is with the same row.
  ghost predicate FirstMeeting(ix: Index, cs: seq<Candidate>, m: Meeting)
    requires IsMeeting(ix, cs, m)
  {
    forall e :: IsMeeting(ix, cs, e) && Sooner(e, m.candidate, m.position) ==> RowAt(ix, cs, e) != RowAt(ix, cs, m)
  }

  ghost predicate InTurn(ms: seq<Meeting>) {
    forall i, j :: 0 <= i < j < |ms| ==> Sooner(ms[i], ms[j].candidate, ms[j].position)
  }

  // The rows met before the n-th row of candidate k, each once and in the order of their first meetings.
  ghost predicate Recorded(ix: Index, cs: seq<Candidate>, order: seq<RowId>, ms: seq<Meeting>, k: nat, n: nat) {
    && |ms| == |order| && InTurn(ms)
    && (forall i :: 0 <= i < |ms| ==>
          IsMeeting(ix, cs, ms[i]) && RowAt(ix, cs, ms[i]) == order[i] && FirstMeeting(ix, cs, ms[i]) && Sooner(ms[i], k, n))
    && (forall m :: IsMeeting(ix, cs, m) && Sooner(m, k, n) ==> RowAt(ix, cs, m) in order)
  }

  lemma OneMeeting(ix: Index, cs: seq<Candidate>, order: seq<RowId>, ms: seq<Meeting>, k: nat, n: nat) returns (more: seq<Meeting>)
    requires k < |cs| && n < |RowsOf(ix, cs[k])| && Recorded(ix, cs, order, ms, k, n)
    ensures var row := RowsOf(ix, cs[k])[n];
      Recorded(ix, cs, if row in order then order else order + [row], more, k, n + 1)
  {
    hide RowsOf;
    var m := Meeting(k, n);
    var row := RowsOf(ix, cs[k])[n];
    assert IsMeeting(ix, cs, m) && RowAt(ix, cs, m) == row;
    forall e | IsMeeting(ix, cs, e) && Sooner(e, k, n + 1) ensures e == m || Sooner(e, k, n) {}
    if row in order {
      more := ms;
    } else {
      more := ms + [m];
    }
  }

  lemma {:induction false} RowsMet(ix: Index, cs: seq<Candidate>, order: seq<RowId>, ms: seq<Meeting>, k: nat, n: nat) returns (more: seq<Meeting>)
    requires k < |cs| && n <= |RowsOf(ix, cs[k])| && Recorded(ix, cs, order, ms, k, 0)
    ensures Recorded(ix, cs, AddRows(order, RowsOf(ix, cs[k])[..n]), more, k, n)
    decreases n
  {
    hide RowsOf, Recorded;
    var rows := RowsOf(ix, cs[k]);
    if n == 0 {
      more := ms;
    } else {
      var before := RowsMet(ix, cs, order, ms, k, n - 1);
      assert rows[..n][..n - 1] == rows[..n - 1] && rows[..n][n - 1] == rows[n - 1];
      more := OneMeeting(ix, cs, AddRows(order, rows[..n - 1]), before, k, n - 1);
    }
  }

  lemma NextCandidate(ix: Index, cs: seq<Candidate>, order: seq<RowId>, ms: seq<Meeting>, k: nat)
    requires k < |cs| && Recorded(ix, cs, order, ms, k, |RowsOf(ix, cs[k])|)
    ensures Recorded(ix, cs, order, ms, k + 1, 0)
  {
    hide RowsOf;
  }

  lemma {:induction false} MetUpTo(ix: Index, cs: seq<Candidate>, k: nat) returns (ms: seq<Meeting>)
    requires k <= |cs|
    ensures Recorded(ix, cs, FirstSeen(ix, cs[..k]), ms, k, 0)
    decreases k
  {
    hide RowsOf, Recorded, AddRows;
    if k == 0 {
      ms := [];
      NothingMet(ix, cs);
    } else {
      var before := MetUpTo(ix, cs, k - 1);
      var rows := RowsOf(ix, cs[k - 1]);
      ms := RowsMet(ix, cs, FirstSeen(ix, cs[..k - 1]), before, k - 1, |rows|);
      assert rows[..|rows|] == rows;
      assert cs[..k][..k - 1] == cs[..k - 1] && cs[..k][k - 1] == cs[k - 1];
      NextCandidate(ix, cs, FirstSeen(ix, cs[..k]), ms, k - 1);
    }
  }

  lemma NothingMet(ix: Index, cs: seq<Candidate>)
    ensures Recorded(ix, cs, FirstSeen(ix, cs[..0]), [], 0, 0)
  {
  }

  /** The order that breaks ties: every row that some candidate finds, once, by its first meeting, candidate by candidate
      and in each answer from the front. */
  lemma FirstSeenAre(ix: Index, cs: seq<Candidate>) returns (ms: seq<Meeting>)
    ensures |ms| == |FirstSeen(ix, cs)| && InTurn(ms)
    ensures forall i :: 0 <= i < |ms| ==> IsMeeting(ix, cs, ms[i]) && FirstMeeting(ix, cs, ms[i]) && RowAt(ix, cs, ms[i]) == FirstSeen(ix, cs)[i]
    ensures forall m :: IsMeeting(ix, cs, m) ==> RowAt(ix, cs, m) in FirstSeen(ix, cs)
  {
    hide FirstSeen, RowsOf, FirstMeeting;
    assert cs[..|cs|] == cs;
    ms := MetUpTo(ix, cs, |cs|);
  }
}
