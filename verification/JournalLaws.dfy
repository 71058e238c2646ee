// Which calls the journal writer accepts: the language of legal journals, decided without any bytes
// (managedGlobalJournal.ts).
module JournalLaws {
  import opened Wrappers
  import opened MutationJournal

  const LINE_SIZE := 1024

  // What a record must hold to be written; the largest such line is far below the bound of a record.
  predicate Fits(c: Codec, r: Record) {
    && r.sequence <= LINE_BOUND && c.isDigest(r.previousSha256)
    && (!r.Complete? ==> ValidStep(r.step))
    && match r
       case Intent(_, _, _, _, state) => c.isDigest(state)
       case Outcome(_, _, _, _, _, state) => state.None? || c.isDigest(state.value)
       case Complete(_, _, state) => c.isDigest(state)
  }

  ghost predicate Compact(c: Codec) {
    && CanonicalJson(c)
    && (forall b :: c.isDigest(c.hash(b)))
    && forall r :: Fits(c, r) ==> |c.encode(RecordLine(r))| < LINE_SIZE
  }

  predicate Announced(events: seq<Event>, step: string) {
    exists i :: 0 <= i < |events| && events[i].IntentEvent? && events[i].step == step
  }

  // What may come after some events: a result only after its own intent, an intent only under a new step,
  // and nothing after an unknown result or the completion.
  predicate Follows(c: Codec, before: seq<Event>, e: Event) {
    && (before != [] ==> match before[|before| - 1]
                         case IntentEvent(_, _, _) => e.ResultEvent?
                         case ResultEvent(_, _, confirmed, _) => confirmed && !e.ResultEvent?
                         case CompleteEvent(_) => false)
    && match e
       case IntentEvent(step, _, state) => ValidStep(step) && !Announced(before, step) && c.isDigest(state)
       case ResultEvent(step, operation, confirmed, state) =>
         && ValidStep(step) && before != [] && before[|before| - 1].IntentEvent?
         && before[|before| - 1].step == step && before[|before| - 1].operation == operation
         && (if state.Some? then c.isDigest(state.value) else !confirmed)
       case CompleteEvent(state) => c.isDigest(state)
  }

  predicate Legal(c: Codec, events: seq<Event>) {
    events == [] || (Legal(c, events[..|events| - 1]) && Follows(c, events[..|events| - 1], events[|events| - 1]))
  }

  function StatusOf(events: seq<Event>): Status {
    if events == [] then Ready
    else match events[|events| - 1]
      case IntentEvent(_, _, _) => Pending
      case ResultEvent(_, _, confirmed, _) => if confirmed then Ready else Unknown
      case CompleteEvent(_) => Completed
  }

  // ---- One operation ----

  lemma LegalExtends(c: Codec, events: seq<Event>, e: Event)
    ensures Legal(c, events + [e]) <==> Legal(c, events) && Follows(c, events, e)
    ensures StatusOf(events + [e]) == StatusOf([e])
  {
    hide Follows;
    assert (events + [e])[..|events|] == events;
  }

  // A journal to which a new operation may be added.
  ghost predicate Open(c: Codec, events: seq<Event>) {
    Legal(c, events) && StatusOf(events) == Ready
  }

  lemma IntentIsLegal(c: Codec, events: seq<Event>, intent: Event)
    requires Open(c, events) && intent.IntentEvent?
    requires ValidStep(intent.step) && c.isDigest(intent.stateSha256) && !Announced(events, intent.step)
    ensures Legal(c, events + [intent]) && StatusOf(events + [intent]) == Pending
  {
    hide Legal, Announced, ValidStep;
    LegalExtends(c, events, intent);
  }

  // An operation: its intent, and its result with the evidence.
  lemma OperationIsLegal(c: Codec, events: seq<Event>, intent: Event, result: Event)
    requires Open(c, events) && intent.IntentEvent? && result.ResultEvent?
    requires ValidStep(intent.step) && c.isDigest(intent.stateSha256) && !Announced(events, intent.step)
    requires result.step == intent.step && result.operation == intent.operation
    requires result.evidenceSha256.Some? && c.isDigest(result.evidenceSha256.value)
    ensures Legal(c, events + [intent]) && StatusOf(events + [intent]) == Pending
    ensures Legal(c, events + [intent] + [result])
    ensures StatusOf(events + [intent] + [result]) == if result.confirmed then Ready else Unknown
  {
    hide Legal, Announced, ValidStep;
    IntentIsLegal(c, events, intent);
    LegalExtends(c, events + [intent], result);
  }

  lemma CompleteIsLegal(c: Codec, events: seq<Event>, e: Event)
    requires Open(c, events) && e.CompleteEvent? && c.isDigest(e.stateSha256)
    ensures Legal(c, events + [e]) && StatusOf(events + [e]) == Completed
  {
    hide Legal;
    LegalExtends(c, events, e);
  }

  // ---- One row ----

  lemma AnnouncedIsDone(r: Reading, step: string)
    requires Describes(r) && r.pending.None?
    ensures Announced(EventsOf(r.records), step) <==> step in r.steps
  {
    var events, n := EventsOf(r.records), |r.records|;
    assert forall i :: 0 <= i < n ==> events[i] == EventOf(r.records[i]);
    if step in r.steps {
      var i :| 0 <= i < n && r.records[i].Outcome? && r.records[i].step == step;
      assert events[i - 1].IntentEvent? && events[i - 1].step == step;
    }
    if Announced(events, step) && step !in r.steps {
      UnusedStep(r, step);
    }
  }

  // The parser accepts the next record exactly when its event may follow.
  lemma RowFollows(c: Codec, r: Reading, e: Event)
    requires CanonicalJson(c) && Describes(r)
    ensures var row := RecordOf(e, |r.records| + 1, r.previousSha256);
      && (ReadRow(c, r, c.encode(RecordLine(row))).Ok?
          <==> Follows(c, EventsOf(r.records), e) && |c.encode(RecordLine(row))| <= RECORD_BOUND)
  {
    hide ValidStep, Paired, Announced;
    var n := |r.records|;
    var events := EventsOf(r.records);
    assert n > 0 ==> events[n - 1] == EventOf(r.records[n - 1]);
    var row := RecordOf(e, n + 1, r.previousSha256);
    assert c.decode(c.encode(RecordLine(row))) == Some(RecordLine(row));
    if r.pending.None? && e.IntentEvent? {
      AnnouncedIsDone(r, e.step);
    }
  }

  lemma FollowerFits(c: Codec, r: Reading, e: Event)
    requires Compact(c) && Follows(c, EventsOf(r.records), e) && |r.records| + 1 <= LINE_BOUND && c.isDigest(r.previousSha256)
    ensures |c.encode(RecordLine(RecordOf(e, |r.records| + 1, r.previousSha256)))| < LINE_SIZE
  {
    hide Announced;
    assert Fits(c, RecordOf(e, |r.records| + 1, r.previousSha256));
  }

  lemma {:induction false} LastIsDigest(c: Codec, lines: seq<Bytes>)
    requires Compact(c) && lines != [] && ReadRows(c, lines).Ok?
    ensures c.isDigest(ReadRows(c, lines).value.previousSha256)
  {
    hide ReadRow, CanonicalJson;
    if |lines| > 1 {
      LastIsDigest(c, lines[..|lines| - 1]);
      RowEffect(c, ReadRows(c, lines[..|lines| - 1]).value, lines[|lines| - 1]);
    }
  }

  // ---- One append ----

  // A whole journal with these events, within its bounds.
  ghost predicate Holds(c: Codec, bytes: Bytes, plan: Digest, events: seq<Event>) {
    && bytes != [] && bytes[|bytes| - 1] == NEWLINE
    && Parse(c, bytes, plan).Ok? && EventsOf(Parse(c, bytes, plan).value.records) == events
    && |bytes| <= RECORD_BOUND + 1 + |events| * LINE_SIZE
  }

  lemma HoldsRows(c: Codec, bytes: Bytes, plan: Digest, events: seq<Event>)
    requires Compact(c) && Holds(c, bytes, plan, events)
    ensures var lines := Lines(StripBom(bytes));
      && lines != [] && ReadHeader(c, lines[0], plan).Ok? && ReadRows(c, lines).Ok? && c.isDigest(plan)
      && var r := ReadRows(c, lines).value;
      && Describes(r) && EventsOf(r.records) == events && |lines| == |events| + 1 && c.isDigest(r.previousSha256)
      && Parse(c, bytes, plan).value == JournalOf(ReadHeader(c, lines[0], plan).value, r, 0)
  {
    hide Parse, Lines, StripBom, ReadHeader, ReadRow, ReadRows, Describes, Compact;
    ParseParts(c, bytes, plan);
    var lines := Lines(StripBom(bytes));
    RowsDescribed(c, lines);
    RowCount(c, lines);
    LastIsDigest(c, lines);
  }

  /** An append is accepted exactly when its event may follow those already written. */
  lemma AppendFollows(c: Codec, bytes: Bytes, plan: Digest, events: seq<Event>, e: Event)
    requires Compact(c) && Holds(c, bytes, plan, events) && |events| + 2 <= LINE_BOUND
    ensures Append(c, bytes, plan, e).Ok? <==> Follows(c, events, e)
    ensures Append(c, bytes, plan, e).Ok? ==> Holds(c, Append(c, bytes, plan, e).value, plan, events + [e])
  {
    hide Parse, Lines, StripBom, ReadHeader, ReadRow, ReadRows, Describes, Follows, ValidStep;
    HoldsRows(c, bytes, plan, events);
    var lines := Lines(StripBom(bytes));
    var r := ReadRows(c, lines).value;
    var row := RecordOf(e, |r.records| + 1, r.previousSha256);
    var text := c.encode(RecordLine(row));
    var after := bytes + (text + [NEWLINE]);
    RowFollows(c, r, e);
    if Follows(c, events, e) {
      FollowerFits(c, r, e);
    }
    AfterLines(c, bytes, plan, text);
    if Append(c, bytes, plan, e).Ok? {
      AppendAddsOneRecord(c, bytes, plan, e);
      EventsExtend(Parse(c, bytes, plan).value.records, e, |r.records| + 1, r.previousSha256);
    }
  }

  lemma AfterLines(c: Codec, bytes: Bytes, plan: Digest, text: Bytes)
    requires bytes != [] && bytes[|bytes| - 1] == NEWLINE && NEWLINE !in text
    requires var lines := Lines(StripBom(bytes));
      && lines != [] && ReadHeader(c, lines[0], plan).Ok? && ReadRows(c, lines).Ok? && c.isDigest(plan)
    ensures var after, lines := bytes + (text + [NEWLINE]), Lines(StripBom(bytes));
      && (Parse(c, after, plan).Ok?
          <==> |after| <= TOTAL_BOUND && |lines| + 1 <= LINE_BOUND && ReadRow(c, ReadRows(c, lines).value, text).Ok?)
  {
    hide Parse, Lines, StripBom, ReadHeader, ReadRow, ReadRows;
    var after, lines := bytes + (text + [NEWLINE]), Lines(StripBom(bytes));
    ParseParts(c, after, plan);
    StripBomAppend(bytes, text + [NEWLINE]);
    assert StripBom(bytes) + (text + [NEWLINE]) == StripBom(bytes) + text + [NEWLINE];
    LinesAppend(StripBom(bytes), text);
    RowsExtend(c, lines, text);
    assert after[|after| - 1] == NEWLINE;
  }

  // ---- Any sequence of calls ----

  lemma HeaderHolds(c: Codec, header: Header, plan: Digest)
    requires Compact(c) && ValidHeader(c, header, plan)
    ensures Holds(c, HeaderBytes(c, header), plan, [])
  {
    hide Parse, ValidRunId;
    HeaderAlone(c, header, plan);
  }

  lemma StatusIs(c: Codec, bytes: Bytes, plan: Digest, events: seq<Event>)
    requires Compact(c) && Holds(c, bytes, plan, events)
    ensures Parse(c, bytes, plan).value.status == StatusOf(events)
  {
    hide Parse, Lines, StripBom, ReadHeader, ReadRow, ReadRows, Compact, Paired;
    HoldsRows(c, bytes, plan, events);
    var r := ReadRows(c, Lines(StripBom(bytes))).value;
    assert r.records != [] ==> events[|events| - 1] == EventOf(r.records[|events| - 1]);
  }

  /** The writer accepts every call of a sequence exactly when the sequence is legal; then the file parses,
      holds those events, and its status is the one the last event says. */
  lemma {:induction false} WriterAcceptsLegal(c: Codec, header: Header, plan: Digest, events: seq<Event>)
    requires Compact(c) && ValidHeader(c, header, plan) && |events| + 1 <= LINE_BOUND
    ensures var (bytes, accepted) := WriteAll(c, HeaderBytes(c, header), plan, events);
      && |accepted| <= |events|
      && (accepted == events <==> Legal(c, events))
      && Holds(c, bytes, plan, accepted)
      && Parse(c, bytes, plan).value.header == header && Parse(c, bytes, plan).value.status == StatusOf(accepted)
  {
    hide Parse, Append, Compact, HeaderBytes, ValidHeader, Follows, Holds;
    WrittenParses(c, header, plan, events);
    if events == [] {
      HeaderHolds(c, header, plan);
    } else {
      var k := |events| - 1;
      WriterAcceptsLegal(c, header, plan, events[..k]);
      var (before, accepted) := WriteAll(c, HeaderBytes(c, header), plan, events[..k]);
      AppendFollows(c, before, plan, accepted, events[k]);
      assert events == events[..k] + [events[k]];
      assert (accepted + [events[k]])[..|accepted|] == accepted;
    }
    var (bytes, accepted) := WriteAll(c, HeaderBytes(c, header), plan, events);
    StatusIs(c, bytes, plan, accepted);
  }

  lemma WrittenParses(c: Codec, header: Header, plan: Digest, events: seq<Event>)
    requires Compact(c) && ValidHeader(c, header, plan)
    ensures var (bytes, accepted) := WriteAll(c, HeaderBytes(c, header), plan, events);
      Parse(c, bytes, plan).Ok? && Parse(c, bytes, plan).value.header == header
  {
    hide Parse, Append, HeaderBytes, ValidHeader, CanonicalJson;
    WrittenJournalParses(c, header, plan, events);
  }
}
