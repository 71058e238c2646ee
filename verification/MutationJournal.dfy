// The hash-chained mutation journal (managedGlobalJournal.ts): its parser, its writer, and what a
// reader may conclude from any prefix of the bytes.
module MutationJournal {
  import opened Wrappers

  type Byte = n: nat | n < 256
  type Bytes = seq<Byte>
  type Digest = string

  const NEWLINE: Byte := 10
  const BOM: Bytes := [0xef, 0xbb, 0xbf]
  const TOTAL_BOUND: nat := 16 * 1024 * 1024
  const RECORD_BOUND: nat := 65535
  const LINE_BOUND: nat := 10000

  datatype Operation = Retain | WorkingCopy | Uninstall | Wrapper | Restore | Manifest

  datatype Header = Header(planSha256: Digest, runId: string)

  datatype Record =
    | Intent(sequence: nat, previousSha256: Digest, step: string, operation: Operation, stateSha256: Digest)
    | Outcome(sequence: nat, previousSha256: Digest, step: string, operation: Operation, confirmed: bool, state: Option<Digest>)
    | Complete(sequence: nat, previousSha256: Digest, stateSha256: Digest)

  datatype Line = HeaderLine(header: Header) | RecordLine(record: Record)

  // JSON, SHA-256 and the shape of a digest, as the journal uses them. `decode` is None for text that is
  // not the canonical JSON of a header or a record.
  datatype Codec = Codec(encode: Line -> Bytes, decode: Bytes -> Option<Line>, hash: Bytes -> Digest, isDigest: Digest -> bool)

  // JSON.stringify writes no raw newline and no byte-order mark, and what it writes is read back.
  ghost predicate CanonicalJson(c: Codec) {
    forall line :: c.decode(c.encode(line)) == Some(line) && NEWLINE !in c.encode(line) && !(BOM <= c.encode(line))
  }

  ghost predicate InjectiveHash(c: Codec) {
    forall a, b :: c.hash(a) == c.hash(b) ==> a == b
  }

  // ---- Lines ----

  function FirstNewline(b: Bytes): (i: nat)
    ensures i <= |b|
    ensures i < |b| ==> b[i] == NEWLINE
    ensures forall k :: 0 <= k < i ==> b[k] != NEWLINE
  {
    if b == [] || b[0] == NEWLINE then 0 else 1 + FirstNewline(b[1..])
  }

  // The complete lines of some bytes; an unfinished last line is not one of them.
  function Lines(b: Bytes): (lines: seq<Bytes>)
    ensures forall i :: 0 <= i < |lines| ==> NEWLINE !in lines[i]
    decreases |b|
  {
    var i := FirstNewline(b);
    if i == |b| then [] else [b[..i]] + Lines(b[i + 1..])
  }

  function StripBom(b: Bytes): Bytes {
    if BOM <= b then b[|BOM|..] else b
  }

  lemma FirstNewlineIs(b: Bytes, i: nat)
    requires i <= |b| && (i < |b| ==> b[i] == NEWLINE) && forall k :: 0 <= k < i ==> b[k] != NEWLINE
    ensures FirstNewline(b) == i
  {
  }

  // Cutting the bytes keeps a prefix of the lines.
  lemma {:induction false} LinesOfPrefix(b: Bytes, k: nat)
    requires k <= |b|
    ensures Lines(b[..k]) <= Lines(b)
    decreases |b|
  {
    var i := FirstNewline(b);
    if i < k {
      FirstNewlineIs(b[..k], i);
      assert b[..k][..i] == b[..i];
      assert b[..k][i + 1..] == b[i + 1..][..k - i - 1];
      LinesOfPrefix(b[i + 1..], k - i - 1);
    } else {
      FirstNewlineIs(b[..k], k);
    }
  }

  lemma LinesStep(b: Bytes, i: nat)
    requires i < |b| && b[i] == NEWLINE && forall k :: 0 <= k < i ==> b[k] != NEWLINE
    ensures Lines(b) == [b[..i]] + Lines(b[i + 1..])
  {
    FirstNewlineIs(b, i);
  }

  // Appending one line to bytes that end with a newline appends it to the lines.
  lemma {:induction false} LinesAppend(b: Bytes, line: Bytes)
    requires (b == [] || b[|b| - 1] == NEWLINE) && NEWLINE !in line
    ensures Lines(b + line + [NEWLINE]) == Lines(b) + [line]
    decreases |b|
  {
    hide Lines;
    var whole := b + line + [NEWLINE];
    if b == [] {
      assert whole == line + [NEWLINE];
      LinesStep(whole, |line|);
      assert whole[..|line|] == line && whole[|line| + 1..] == [];
      NoLines();
    } else {
      var i := FirstNewline(b);
      assert i < |b| by {
        assert b[|b| - 1] == NEWLINE;
      }
      var rest := b[i + 1..];
      LinesStep(b, i);
      LinesStep(whole, i);
      assert whole[..i] == b[..i];
      assert whole[i + 1..] == rest + line + [NEWLINE];
      assert rest != [] ==> rest[|rest| - 1] == b[|b| - 1];
      LinesAppend(rest, line);
    }
  }

  lemma NoLines()
    ensures Lines([]) == []
  {
  }

  // The header line with its newline, in bytes.
  lemma LinesNonEmpty(b: Bytes)
    ensures Lines(b) != [] <==> NEWLINE in b
    ensures Lines(b) != [] ==> Lines(b)[0] == b[..FirstNewline(b)]
  {
  }

  // ---- The parser ----

  predicate StepChar(c: char) {
    'a' <= c <= 'z' || 'A' <= c <= 'Z' || '0' <= c <= '9' || c == '.' || c == '_' || c == '-'
  }

  predicate ValidStep(step: string) {
    1 <= |step| <= 64 && forall i :: 0 <= i < |step| ==> StepChar(step[i])
  }

  predicate ValidRunId(id: string) {
    |id| == 32 && forall i :: 0 <= i < |id| ==> 'a' <= id[i] <= 'f' || '0' <= id[i] <= '9'
  }

  datatype Reading = Reading(records: seq<Record>, pending: Option<Record>, unknown: bool, complete: bool,
                             previousSha256: Digest, steps: set<string>)

  function DecodeLine(c: Codec, text: Bytes): Result<Line> {
    if |text| > RECORD_BOUND then Err("global_journal_record_bound")
    else match c.decode(text)
      case None => Err("global_journal_noncanonical_record")
      case Some(line) => Ok(line)
  }

  function ReadHeader(c: Codec, text: Bytes, plan: Digest): Result<Header> {
    var line :- DecodeLine(c, text);
    if line.HeaderLine? && line.header.planSha256 == plan && ValidRunId(line.header.runId) then Ok(line.header)
    else Err("global_journal_header_invalid")
  }

  function ReadRow(c: Codec, r: Reading, text: Bytes): Result<Reading> {
    if r.unknown || r.complete then Err("global_journal_after_terminal")
    else
      var line :- DecodeLine(c, text);
      if !line.RecordLine? then Err("global_journal_fields_invalid")
      else
        var row := line.record;
        var next := r.(records := r.records + [row], previousSha256 := c.hash(text + [NEWLINE]));
        if !(row.sequence == |r.records| + 1 && row.previousSha256 == r.previousSha256) then Err("global_journal_chain_invalid")
        else match row
          case Intent(_, _, step, _, state) =>
            if !ValidStep(step) then Err("global_journal_operation_invalid")
            else if r.pending.None? && step !in r.steps && c.isDigest(state) then Ok(next.(pending := Some(row)))
            else Err("global_journal_intent_invalid")
          case Outcome(_, _, step, operation, confirmed, state) =>
            if !ValidStep(step) then Err("global_journal_operation_invalid")
            else if r.pending.Some? && r.pending.value.Intent? && step == r.pending.value.step && operation == r.pending.value.operation
                    && (if state.Some? then c.isDigest(state.value) else !confirmed) then
              Ok(next.(pending := None, unknown := !confirmed, steps := r.steps + {step}))
            else Err("global_journal_result_invalid")
          case Complete(_, _, state) =>
            if r.pending.None? && c.isDigest(state) then Ok(next.(complete := true)) else Err("global_journal_complete_invalid")
  }

  function StartReading(c: Codec, header: Bytes): Reading {
    Reading([], None, false, false, c.hash(header + [NEWLINE]), {})
  }

  // All rows after the header line.
  function ReadRows(c: Codec, lines: seq<Bytes>): Result<Reading>
    requires lines != []
  {
    if |lines| == 1 then Ok(StartReading(c, lines[0]))
    else
      var before :- ReadRows(c, lines[..|lines| - 1]);
      ReadRow(c, before, lines[|lines| - 1])
  }

  datatype Status = Torn | Unknown | Completed | Pending | Ready

  datatype Journal = Journal(header: Header, records: seq<Record>, pending: Option<Record>, nextSequence: nat,
                             lastSha256: Digest, tornBytes: nat, status: Status)

  // The bytes after the last newline.
  function TornBytes(b: Bytes): (n: nat)
    ensures n <= |b|
    ensures NEWLINE in b ==> n < |b|
    ensures b != [] ==> (n == 0 <==> b[|b| - 1] == NEWLINE)
  {
    if b == [] || b[|b| - 1] == NEWLINE then 0 else 1 + TornBytes(b[..|b| - 1])
  }

  function JournalOf(header: Header, r: Reading, torn: nat): Journal {
    Journal(header, r.records, r.pending, |r.records| + 1, r.previousSha256, torn,
            if torn > 0 then Torn else if r.unknown then Unknown else if r.complete then Completed
            else if r.pending.Some? then Pending else Ready)
  }

  function Parse(c: Codec, bytes: Bytes, plan: Digest): Result<Journal> {
    if !(0 < |bytes| <= TOTAL_BOUND) then Err("global_journal_total_bound")
    else if !c.isDigest(plan) then Err("global_journal_plan_hash_required")
    else if NEWLINE !in bytes then Err("global_journal_header_incomplete")
    else
      var lines := Lines(StripBom(bytes));
      if !(0 < |lines| <= LINE_BOUND) then Err("global_journal_record_count_bound")
      else
        var header :- ReadHeader(c, lines[0], plan);
        var reading :- ReadRows(c, lines);
        Ok(JournalOf(header, reading, TornBytes(bytes)))
  }

  // A failing line fails every longer journal.
  lemma {:induction false} PrefixRowsRead(c: Codec, lines: seq<Bytes>, k: nat)
    requires 0 < k <= |lines| && ReadRows(c, lines).Ok?
    ensures ReadRows(c, lines[..k]).Ok?
    ensures ReadRows(c, lines[..k]).value.records <= ReadRows(c, lines).value.records
    ensures |ReadRows(c, lines[..k]).value.records| == k - 1
    decreases |lines|
  {
    if k < |lines| {
      PrefixRowsRead(c, lines[..|lines| - 1], k);
      assert lines[..|lines| - 1][..k] == lines[..k];
    } else {
      assert lines[..k] == lines;
      RowCount(c, lines);
    }
  }

  lemma {:induction false} RowCount(c: Codec, lines: seq<Bytes>)
    requires lines != [] && ReadRows(c, lines).Ok?
    ensures |ReadRows(c, lines).value.records| == |lines| - 1
  {
    if |lines| > 1 {
      RowCount(c, lines[..|lines| - 1]);
    }
  }

  // The body of the parser's loop: the checks on one line, in the order the source makes them.
  method ReadLine(c: Codec, r: Reading, text: Bytes) returns (outcome: Result<Reading>)
    ensures outcome == ReadRow(c, r, text)
  {
    if r.unknown || r.complete {
      return Err("global_journal_after_terminal");
    }
    var line := DecodeLine(c, text);
    if line.Err? {
      return Err(line.error);
    }
    if !line.value.RecordLine? {
      return Err("global_journal_fields_invalid");
    }
    var row := line.value.record;
    if !(row.sequence == |r.records| + 1 && row.previousSha256 == r.previousSha256) {
      return Err("global_journal_chain_invalid");
    }
    if !row.Complete? && !ValidStep(row.step) {
      return Err("global_journal_operation_invalid");
    }
    var pending, unknown, complete, steps := r.pending, r.unknown, r.complete, r.steps;
    match row {
      case Intent(_, _, step, _, state) =>
        if pending.Some? || step in steps || !c.isDigest(state) {
          return Err("global_journal_intent_invalid");
        }
        pending := Some(row);
      case Outcome(_, _, step, operation, confirmed, state) =>
        if !(pending.Some? && pending.value.Intent? && step == pending.value.step && operation == pending.value.operation
             && (if state.Some? then c.isDigest(state.value) else !confirmed)) {
          return Err("global_journal_result_invalid");
        }
        unknown, steps, pending := !confirmed, steps + {step}, None;
      case Complete(_, _, state) =>
        if pending.Some? || !c.isDigest(state) {
          return Err("global_journal_complete_invalid");
        }
        complete := true;
    }
    return Ok(Reading(r.records + [row], pending, unknown, complete, c.hash(text + [NEWLINE]), steps));
  }

  /** parseGlobalMutationJournal: the loop over lines, updating the reading as it goes. */
  method ParseJournal(c: Codec, bytes: Bytes, plan: Digest) returns (outcome: Result<Journal>)
    ensures outcome == Parse(c, bytes, plan)
  {
    hide ReadRow, Lines, StripBom, ReadHeader, JournalOf, TornBytes;
    if !(0 < |bytes| <= TOTAL_BOUND) {
      return Err("global_journal_total_bound");
    }
    if !c.isDigest(plan) {
      return Err("global_journal_plan_hash_required");
    }
    if NEWLINE !in bytes {
      return Err("global_journal_header_incomplete");
    }
    var lines := Lines(StripBom(bytes));
    if !(0 < |lines| <= LINE_BOUND) {
      return Err("global_journal_record_count_bound");
    }
    var header := ReadHeader(c, lines[0], plan);
    if header.Err? {
      return Err(header.error);
    }
    var reading := StartReading(c, lines[0]);
    var k := 1;
    assert lines[..1] == [lines[0]];
    while k < |lines|
      invariant 1 <= k <= |lines|
      invariant ReadRows(c, lines[..k]) == Ok(reading)
    {
      assert lines[..k + 1][..k] == lines[..k];
      var read := ReadLine(c, reading, lines[k]);
      if read.Err? {
        FailedRow(c, lines, k);
        return Err(read.error);
      }
      reading := read.value;
      k := k + 1;
    }
    assert lines[..k] == lines;
    return Ok(JournalOf(header.value, reading, TornBytes(bytes)));
  }

  lemma {:induction false} FailedRow(c: Codec, lines: seq<Bytes>, k: nat)
    requires 1 <= k < |lines| && ReadRows(c, lines[..k + 1]).Err?
    ensures ReadRows(c, lines) == ReadRows(c, lines[..k + 1])
    decreases |lines|
  {
    if k + 1 == |lines| {
      assert lines[..k + 1] == lines;
    } else {
      assert lines[..|lines| - 1][..k + 1] == lines[..k + 1];
      FailedRow(c, lines[..|lines| - 1], k);
    }
  }

  // ---- What any accepted journal looks like ----

  ghost predicate Paired(records: seq<Record>) {
    Alternates(records) && StepsUnique(records)
  }

  ghost predicate StepsUnique(records: seq<Record>) {
    forall i, k :: 0 <= i < k < |records| && records[i].Intent? && records[k].Intent? ==> records[i].step != records[k].step
  }

  // A result directly follows its intent, an intent is followed only by its result, and an unknown result
  // or a completion is the last record.
  ghost predicate Alternates(records: seq<Record>) {
    && (forall i :: 0 <= i < |records| ==> records[i].sequence == i + 1)
    && (forall i :: 0 <= i < |records| && records[i].Outcome? ==>
          i > 0 && records[i - 1].Intent? && records[i - 1].step == records[i].step && records[i - 1].operation == records[i].operation)
    && (forall i :: 0 <= i < |records| - 1 && records[i].Intent? ==> records[i + 1].Outcome?)
    && (forall i :: 0 <= i < |records| - 1 ==> !records[i].Complete? && (records[i].Outcome? ==> records[i].confirmed))
  }

  // The parser's variables say what the last record is and which steps are done.
  ghost predicate Describes(r: Reading) {
    var n := |r.records|;
    && Paired(r.records)
    && r.pending == (if n > 0 && r.records[n - 1].Intent? then Some(r.records[n - 1]) else None)
    && r.unknown == (n > 0 && r.records[n - 1].Outcome? && !r.records[n - 1].confirmed)
    && r.complete == (n > 0 && r.records[n - 1].Complete?)
    && (forall i :: 0 <= i < n && r.records[i].Outcome? ==> r.records[i].step in r.steps)
    && (forall step :: step in r.steps ==> exists i :: 0 <= i < n && r.records[i].Outcome? && r.records[i].step == step)
  }

  // What one accepted line does to the parser's variables.
  lemma RowEffect(c: Codec, r: Reading, text: Bytes)
    requires ReadRow(c, r, text).Ok?
    ensures c.decode(text).Some? && c.decode(text).value.RecordLine?
    ensures var next := ReadRow(c, r, text).value;
      var row := c.decode(text).value.record;
      && !r.unknown && !r.complete
      && next.records == r.records + [row]
      && next.previousSha256 == c.hash(text + [NEWLINE])
      && row.sequence == |r.records| + 1 && row.previousSha256 == r.previousSha256
      && match row
         case Intent(_, _, step, _, _) =>
           && r.pending.None? && step !in r.steps
           && next.pending == Some(row) && next.steps == r.steps && !next.unknown && !next.complete
         case Outcome(_, _, step, operation, confirmed, _) =>
           && r.pending.Some? && step == r.pending.value.step && r.pending.value.Intent? && operation == r.pending.value.operation
           && next.pending == None && next.steps == r.steps + {step} && next.unknown == !confirmed && !next.complete
         case Complete(_, _, _) =>
           r.pending.None? && next.pending == None && next.steps == r.steps && !next.unknown && next.complete
  {
  }

  lemma PairedExtends(r: Reading, row: Record)
    requires Describes(r) && !r.unknown && !r.complete && row.sequence == |r.records| + 1
    requires match row
      case Intent(_, _, step, _, _) => r.pending.None? && step !in r.steps
      case Outcome(_, _, step, operation, _, _) =>
        r.pending.Some? && step == r.pending.value.step && r.pending.value.Intent? && operation == r.pending.value.operation
      case Complete(_, _, _) => r.pending.None?
    ensures Paired(r.records + [row])
  {
    assert Alternates(r.records + [row]) by {
      hide StepsUnique;
    }
    assert StepsUnique(r.records + [row]) by {
      if row.Intent? {
        UnusedStep(r, row.step);
      }
      hide Alternates;
    }
  }

  // A step without a result was not announced either, once nothing is pending.
  lemma UnusedStep(r: Reading, step: string)
    requires Describes(r) && r.pending.None? && step !in r.steps
    ensures forall i :: 0 <= i < |r.records| && r.records[i].Intent? ==> r.records[i].step != step
  {
    var n := |r.records|;
    forall i | 0 <= i < n && r.records[i].Intent? ensures r.records[i].step != step {
      assert i < n - 1 && r.records[i + 1].Outcome? && r.records[i + 1].step == r.records[i].step;
    }
  }

  lemma StepsExtend(r: Reading, row: Record, steps: set<string>)
    requires Describes(r) && steps == r.steps + (if row.Outcome? then {row.step} else {})
    ensures forall i :: 0 <= i <= |r.records| && (r.records + [row])[i].Outcome? ==> (r.records + [row])[i].step in steps
    ensures forall step :: step in steps ==>
      exists i :: 0 <= i <= |r.records| && (r.records + [row])[i].Outcome? && (r.records + [row])[i].step == step
  {
    var records, n := r.records + [row], |r.records|;
    forall step | step in steps ensures exists i :: 0 <= i <= n && records[i].Outcome? && records[i].step == step {
      if step in r.steps {
        var i :| 0 <= i < n && r.records[i].Outcome? && r.records[i].step == step;
        assert records[i] == r.records[i];
      } else {
        assert records[n].Outcome? && records[n].step == step;
      }
    }
  }

  lemma RowKeepsDescription(c: Codec, r: Reading, text: Bytes)
    requires Describes(r) && ReadRow(c, r, text).Ok?
    ensures Describes(ReadRow(c, r, text).value)
  {
    RowEffect(c, r, text);
    hide ReadRow, Paired;
    var next := ReadRow(c, r, text).value;
    var row := c.decode(text).value.record;
    PairedExtends(r, row);
    StepsExtend(r, row, next.steps);
  }

  lemma {:induction false} RowsDescribed(c: Codec, lines: seq<Bytes>)
    requires lines != [] && ReadRows(c, lines).Ok?
    ensures Describes(ReadRows(c, lines).value)
  {
    if |lines| > 1 {
      RowsDescribed(c, lines[..|lines| - 1]);
      RowKeepsDescription(c, ReadRows(c, lines[..|lines| - 1]).value, lines[|lines| - 1]);
    }
  }

  /** In every journal that parses, intents and results strictly alternate in pairs, no step is used
      twice, nothing follows an unknown result or the completion, and the status names the last record. */
  lemma AcceptedJournalIsPaired(c: Codec, bytes: Bytes, plan: Digest)
    requires Parse(c, bytes, plan).Ok?
    ensures var j := Parse(c, bytes, plan).value;
      var n := |j.records|;
      && Paired(j.records)
      && j.nextSequence == n + 1
      && (j.status == Pending ==> n > 0 && j.records[n - 1].Intent? && j.pending == Some(j.records[n - 1]))
      && (j.status == Unknown ==> n > 0 && j.records[n - 1].Outcome? && !j.records[n - 1].confirmed)
      && (j.status == Completed ==> n > 0 && j.records[n - 1].Complete?)
      && (j.status == Ready ==> n == 0 || (j.records[n - 1].Outcome? && j.records[n - 1].confirmed))
  {
    RowsDescribed(c, Lines(StripBom(bytes)));
  }

  // ---- Prefixes ----

  function Newlines(b: Bytes): nat {
    if b == [] then 0 else (if b[0] == NEWLINE then 1 else 0) + Newlines(b[1..])
  }

  lemma {:induction false} NewlinesSplit(b: Bytes, i: nat)
    requires i < |b| && b[i] == NEWLINE && forall k :: 0 <= k < i ==> b[k] != NEWLINE
    ensures Newlines(b) == 1 + Newlines(b[i + 1..])
  {
    if i > 0 {
      NewlinesSplit(b[1..], i - 1);
      assert b[1..][i..] == b[i + 1..];
    }
  }

  lemma {:induction false} LineCount(b: Bytes)
    ensures |Lines(b)| == Newlines(b)
    decreases |b|
  {
    var i := FirstNewline(b);
    if i < |b| {
      NewlinesSplit(b, i);
      LineCount(b[i + 1..]);
    } else {
      NoNewlines(b);
    }
  }

  lemma {:induction false} NoNewlines(b: Bytes)
    requires NEWLINE !in b
    ensures Newlines(b) == 0
  {
    if b != [] {
      NoNewlines(b[1..]);
    }
  }

  // Where the cut of a byte prefix falls once the byte-order mark is gone.
  lemma StripBomOfPrefix(b: Bytes, k: nat) returns (n: nat)
    requires k <= |b| && NEWLINE in b[..k]
    ensures n <= |StripBom(b)| && StripBom(b[..k]) == StripBom(b)[..n]
    ensures Newlines(StripBom(b[..k])) == Newlines(b[..k])
  {
    var i :| 0 <= i < k && b[i] == NEWLINE;
    if BOM <= b {
      assert BOM[0] == b[0] && BOM[1] == b[1] && BOM[2] == b[2];
      assert i >= 3;
      var p := b[..k];
      assert BOM <= p;
      assert p[3..] == b[3..][..k - 3];
      assert p[1..][1..][1..] == p[3..];
      assert Newlines(p) == Newlines(p[1..]) == Newlines(p[1..][1..]) == Newlines(p[1..][1..][1..]);
      n := k - 3;
    } else {
      assert !(BOM <= b[..k]);
      assert StripBom(b)[..k] == b[..k];
      n := k;
    }
  }

  // Parse, line by line.
  lemma ParseParts(c: Codec, bytes: Bytes, plan: Digest)
    ensures Parse(c, bytes, plan).Ok? <==>
      && 0 < |bytes| <= TOTAL_BOUND && c.isDigest(plan) && NEWLINE in bytes
      && 0 < |Lines(StripBom(bytes))| <= LINE_BOUND
      && ReadHeader(c, Lines(StripBom(bytes))[0], plan).Ok?
      && ReadRows(c, Lines(StripBom(bytes))).Ok?
    ensures Parse(c, bytes, plan).Ok? ==>
      Parse(c, bytes, plan).value == JournalOf(ReadHeader(c, Lines(StripBom(bytes))[0], plan).value,
                                               ReadRows(c, Lines(StripBom(bytes))).value, TornBytes(bytes))
  {
    hide Lines, StripBom, ReadHeader, ReadRows, JournalOf, TornBytes;
  }

  /** Every byte prefix of an accepted journal that holds the whole header line is accepted too: same
      header, one record for each further newline, in order, and torn exactly when it was cut inside a line. */
  lemma PrefixParses(c: Codec, bytes: Bytes, plan: Digest, k: nat)
    requires Parse(c, bytes, plan).Ok? && k <= |bytes| && NEWLINE in bytes[..k]
    ensures Parse(c, bytes[..k], plan).Ok?
    ensures var whole, cut := Parse(c, bytes, plan).value, Parse(c, bytes[..k], plan).value;
      && cut.header == whole.header
      && cut.records <= whole.records
      && |cut.records| + 1 == Newlines(bytes[..k])
      && (cut.status == Torn <==> bytes[k - 1] != NEWLINE)
  {
    hide Parse, Lines, StripBom, ReadHeader, ReadRows, Newlines;
    ParseParts(c, bytes, plan);
    ParseParts(c, bytes[..k], plan);
    var lines, kept := Lines(StripBom(bytes)), Lines(StripBom(bytes[..k]));
    var n := StripBomOfPrefix(bytes, k);
    LinesOfPrefix(StripBom(bytes), n);
    LineCount(StripBom(bytes[..k]));
    NewlinesPositive(bytes[..k]);
    assert kept == lines[..|kept|];
    PrefixRowsRead(c, lines, |kept|);
  }

  lemma {:induction false} NewlinesPositive(b: Bytes)
    requires NEWLINE in b
    ensures Newlines(b) > 0
  {
    if b[0] != NEWLINE {
      assert NEWLINE in b[1..];
      NewlinesPositive(b[1..]);
    }
  }

  // ---- The hash chain ----

  // Two accepted lists of lines whose last lines are equal are equal throughout.
  lemma {:induction false} ChainDetermines(c: Codec, a: seq<Bytes>, b: seq<Bytes>, plan: Digest, plan': Digest)
    requires InjectiveHash(c)
    requires a != [] && b != [] && ReadRows(c, a).Ok? && ReadRows(c, b).Ok?
    requires ReadHeader(c, a[0], plan).Ok? && ReadHeader(c, b[0], plan').Ok?
    requires ReadRows(c, a).value.previousSha256 == ReadRows(c, b).value.previousSha256
    ensures a == b
    decreases |a|
  {
    hide ReadRow, ReadRows;
    LastHash(c, a);
    LastHash(c, b);
    HeaderIsNoRecord(c, a[0], plan);
    HeaderIsNoRecord(c, b[0], plan');
    var last, last' := a[|a| - 1], b[|b| - 1];
    assert last + [NEWLINE] == last' + [NEWLINE];
    assert last == (last + [NEWLINE])[..|last|] && last' == (last' + [NEWLINE])[..|last'|];
    assert last == last';
    if |a| > 1 && |b| > 1 {
      ChainDetermines(c, a[..|a| - 1], b[..|b| - 1], plan, plan');
      assert a == a[..|a| - 1] + [last] && b == b[..|b| - 1] + [last'];
    } else {
      // A header line never reads as a record, so both journals end at the same depth.
      assert |a| == |b| == 1;
    }
  }

  lemma HeaderIsNoRecord(c: Codec, text: Bytes, plan: Digest)
    requires ReadHeader(c, text, plan).Ok?
    ensures c.decode(text).Some? && c.decode(text).value.HeaderLine?
  {
  }

  lemma RowsStep(c: Codec, lines: seq<Bytes>)
    requires lines != [] && ReadRows(c, lines).Ok?
    ensures |lines| == 1 ==> ReadRows(c, lines).value == StartReading(c, lines[0])
    ensures |lines| > 1 ==>
      && ReadRows(c, lines[..|lines| - 1]).Ok?
      && ReadRows(c, lines) == ReadRow(c, ReadRows(c, lines[..|lines| - 1]).value, lines[|lines| - 1])
  {
    hide ReadRow;
  }

  lemma LastHash(c: Codec, lines: seq<Bytes>)
    requires lines != [] && ReadRows(c, lines).Ok?
    ensures ReadRows(c, lines).value.previousSha256 == c.hash(lines[|lines| - 1] + [NEWLINE])
    ensures |lines| > 1 ==>
      && ReadRows(c, lines[..|lines| - 1]).Ok?
      && c.decode(lines[|lines| - 1]).Some? && c.decode(lines[|lines| - 1]).value.RecordLine?
      && c.decode(lines[|lines| - 1]).value.record.previousSha256 == ReadRows(c, lines[..|lines| - 1]).value.previousSha256
  {
    hide ReadRow, ReadRows;
    RowsStep(c, lines);
    if |lines| > 1 {
      RowEffect(c, ReadRows(c, lines[..|lines| - 1]).value, lines[|lines| - 1]);
    }
  }

  /** Under an injective hash, the last hash of a journal fixes all of it: two journals that parse and end
      in the same hash have the same header and the same records at every position. */
  lemma LastHashFixesJournal(c: Codec, a: Bytes, b: Bytes, plan: Digest, plan': Digest)
    requires InjectiveHash(c) && Parse(c, a, plan).Ok? && Parse(c, b, plan').Ok?
    requires Parse(c, a, plan).value.lastSha256 == Parse(c, b, plan').value.lastSha256
    ensures Parse(c, a, plan).value.header == Parse(c, b, plan').value.header
    ensures Parse(c, a, plan).value.records == Parse(c, b, plan').value.records
  {
    hide Parse, Lines, StripBom, ReadHeader, ReadRows;
    ParseParts(c, a, plan);
    ParseParts(c, b, plan');
    ChainDetermines(c, Lines(StripBom(a)), Lines(StripBom(b)), plan, plan');
    HeaderTextFixes(c, Lines(StripBom(a))[0], plan, plan');
  }

  lemma HeaderTextFixes(c: Codec, text: Bytes, plan: Digest, plan': Digest)
    requires ReadHeader(c, text, plan).Ok? && ReadHeader(c, text, plan').Ok?
    ensures ReadHeader(c, text, plan) == ReadHeader(c, text, plan')
  {
  }

  // ---- The writer ----

  datatype Event =
    | IntentEvent(step: string, operation: Operation, stateSha256: Digest)
    | ResultEvent(step: string, operation: Operation, confirmed: bool, evidenceSha256: Option<Digest>)
    | CompleteEvent(stateSha256: Digest)

  function RecordOf(e: Event, sequence: nat, previous: Digest): Record {
    match e
    case IntentEvent(step, operation, state) => Intent(sequence, previous, step, operation, state)
    case ResultEvent(step, operation, confirmed, state) => Outcome(sequence, previous, step, operation, confirmed, state)
    case CompleteEvent(state) => Complete(sequence, previous, state)
  }

  function EventOf(r: Record): Event {
    match r
    case Intent(_, _, step, operation, state) => IntentEvent(step, operation, state)
    case Outcome(_, _, step, operation, confirmed, state) => ResultEvent(step, operation, confirmed, state)
    case Complete(_, _, state) => CompleteEvent(state)
  }

  function EventsOf(records: seq<Record>): seq<Event> {
    seq(|records|, i requires 0 <= i < |records| => EventOf(records[i]))
  }

  function HeaderBytes(c: Codec, header: Header): Bytes {
    c.encode(HeaderLine(header)) + [NEWLINE]
  }

  // One append: read the journal back, render the next record, and check the result before writing it.
  function Append(c: Codec, bytes: Bytes, plan: Digest, e: Event): Result<Bytes> {
    var current :- Parse(c, bytes, plan);
    var record := c.encode(RecordLine(RecordOf(e, current.nextSequence, current.lastSha256))) + [NEWLINE];
    var checked :- Parse(c, bytes + record, plan);
    Ok(bytes + record)
  }

  // Any sequence of calls: a rejected call throws and leaves the file as it was.
  function WriteAll(c: Codec, bytes: Bytes, plan: Digest, events: seq<Event>): (Bytes, seq<Event>) {
    if events == [] then (bytes, [])
    else
      var (before, accepted) := WriteAll(c, bytes, plan, events[..|events| - 1]);
      var e := events[|events| - 1];
      match Append(c, before, plan, e)
      case Ok(after) => (after, accepted + [e])
      case Err(_) => (before, accepted)
  }

  lemma StripBomAppend(b: Bytes, more: Bytes)
    requires b != [] && b[|b| - 1] == NEWLINE
    ensures StripBom(b + more) == StripBom(b) + more
    ensures StripBom(b) == [] || StripBom(b)[|StripBom(b)| - 1] == NEWLINE
  {
    assert BOM[0] != NEWLINE && BOM[1] != NEWLINE && BOM[2] != NEWLINE;
    if BOM <= b + more {
      assert |b| > 3 by {
        assert (b + more)[|b| - 1] == NEWLINE;
      }
      assert BOM <= b;
    } else {
      assert BOM <= b ==> BOM <= b + more;
    }
  }

  // Appending a line to a whole journal reads that line after everything before it.
  lemma AppendReads(c: Codec, bytes: Bytes, plan: Digest, text: Bytes)
    requires bytes != [] && bytes[|bytes| - 1] == NEWLINE && NEWLINE !in text
    requires Parse(c, bytes, plan).Ok? && Parse(c, bytes + (text + [NEWLINE]), plan).Ok?
    ensures var lines := Lines(StripBom(bytes));
      && lines != [] && ReadHeader(c, lines[0], plan).Ok? && ReadRows(c, lines).Ok?
      && Parse(c, bytes, plan).value == JournalOf(ReadHeader(c, lines[0], plan).value, ReadRows(c, lines).value, 0)
      && ReadRow(c, ReadRows(c, lines).value, text).Ok?
      && Parse(c, bytes + (text + [NEWLINE]), plan).value
           == JournalOf(ReadHeader(c, lines[0], plan).value, ReadRow(c, ReadRows(c, lines).value, text).value, 0)
  {
    hide Parse, Lines, StripBom, ReadHeader, ReadRow, ReadRows, JournalOf;
    var after := bytes + (text + [NEWLINE]);
    ParseParts(c, bytes, plan);
    ParseParts(c, after, plan);
    StripBomAppend(bytes, text + [NEWLINE]);
    assert StripBom(bytes) + (text + [NEWLINE]) == StripBom(bytes) + text + [NEWLINE];
    LinesAppend(StripBom(bytes), text);
    RowsExtend(c, Lines(StripBom(bytes)), text);
    assert after[|after| - 1] == NEWLINE;
  }

  /** An accepted append adds exactly its own record, at the end, chained to what was there. */
  lemma AppendAddsOneRecord(c: Codec, bytes: Bytes, plan: Digest, e: Event)
    requires CanonicalJson(c) && bytes != [] && bytes[|bytes| - 1] == NEWLINE
    requires Append(c, bytes, plan, e).Ok?
    ensures var after := Append(c, bytes, plan, e).value;
      && bytes < after && after[|after| - 1] == NEWLINE
      && Parse(c, bytes, plan).Ok? && Parse(c, after, plan).Ok?
      && Parse(c, after, plan).value.header == Parse(c, bytes, plan).value.header
      && Parse(c, after, plan).value.records == Parse(c, bytes, plan).value.records
           + [RecordOf(e, Parse(c, bytes, plan).value.nextSequence, Parse(c, bytes, plan).value.lastSha256)]
      && Parse(c, after, plan).value.status != Torn
  {
    hide Parse, ReadRow, ReadRows, Lines, StripBom, ReadHeader;
    var current := Parse(c, bytes, plan).value;
    var record := RecordOf(e, current.nextSequence, current.lastSha256);
    var text := c.encode(RecordLine(record));
    AppendReads(c, bytes, plan, text);
    RowEffect(c, ReadRows(c, Lines(StripBom(bytes))).value, text);
    var after := bytes + (text + [NEWLINE]);
    assert after[|after| - 1] == NEWLINE;
  }

  lemma RowsExtend(c: Codec, lines: seq<Bytes>, text: Bytes)
    requires lines != [] && ReadRows(c, lines).Ok?
    ensures ReadRows(c, lines + [text]) == ReadRow(c, ReadRows(c, lines).value, text)
    ensures (lines + [text])[0] == lines[0]
  {
    hide ReadRow;
    assert (lines + [text])[..|lines|] == lines;
  }

  lemma NoBomBeforeNewline(text: Bytes)
    requires !(BOM <= text)
    ensures !(BOM <= text + [NEWLINE])
  {
    if |text| >= |BOM| {
      assert (text + [NEWLINE])[..|BOM|] == text[..|BOM|];
    } else {
      assert (text + [NEWLINE])[|text|] == NEWLINE != BOM[|text|];
    }
  }

  // What a header must be for its plan.
  predicate ValidHeader(c: Codec, header: Header, plan: Digest) {
    && c.isDigest(plan) && header.planSha256 == plan && ValidRunId(header.runId)
    && |c.encode(HeaderLine(header))| <= RECORD_BOUND
  }

  // A journal of nothing but its header parses exactly when the header is valid.
  lemma HeaderAlone(c: Codec, header: Header, plan: Digest)
    requires CanonicalJson(c)
    ensures var bytes := HeaderBytes(c, header);
      && bytes != [] && bytes[|bytes| - 1] == NEWLINE
      && (Parse(c, bytes, plan).Ok? <==> ValidHeader(c, header, plan))
      && (Parse(c, bytes, plan).Ok? ==>
            && Parse(c, bytes, plan).value.header == header && Parse(c, bytes, plan).value.records == []
            && Parse(c, bytes, plan).value.status != Torn)
  {
    hide Parse, Lines, ValidRunId;
    var text := c.encode(HeaderLine(header));
    var bytes := HeaderBytes(c, header);
    ParseParts(c, bytes, plan);
    NoBomBeforeNewline(text);
    assert [] + text + [NEWLINE] == bytes;
    LinesAppend([], text);
    assert Lines([]) == [] by {
      LinesNonEmpty([]);
    }
    assert Lines(StripBom(bytes)) == [text];
    assert c.decode(text) == Some(HeaderLine(header));
    assert bytes[|bytes| - 1] == NEWLINE;
  }

  /** Whatever is called, in whatever order: with a valid header the file parses and holds exactly the
      accepted events, in order, behind that header, and is not torn; without one no event is accepted. */
  lemma {:induction false} WrittenJournalParses(c: Codec, header: Header, plan: Digest, events: seq<Event>)
    requires CanonicalJson(c)
    ensures var (bytes, accepted) := WriteAll(c, HeaderBytes(c, header), plan, events);
      && bytes != [] && bytes[|bytes| - 1] == NEWLINE
      && (Parse(c, bytes, plan).Ok? <==> ValidHeader(c, header, plan))
      && (accepted != [] ==> Parse(c, bytes, plan).Ok?)
      && (Parse(c, bytes, plan).Ok? ==>
            && Parse(c, bytes, plan).value.header == header
            && EventsOf(Parse(c, bytes, plan).value.records) == accepted
            && Parse(c, bytes, plan).value.status != Torn)
  {
    hide Parse, Append, CanonicalJson, HeaderBytes, ValidHeader;
    if events == [] {
      HeaderAlone(c, header, plan);
    } else {
      var earlier := events[..|events| - 1];
      WrittenJournalParses(c, header, plan, earlier);
      var (before, accepted) := WriteAll(c, HeaderBytes(c, header), plan, earlier);
      var e := events[|events| - 1];
      if Append(c, before, plan, e).Ok? {
        AppendAddsOneRecord(c, before, plan, e);
        EventsExtend(Parse(c, before, plan).value.records, e, Parse(c, before, plan).value.nextSequence, Parse(c, before, plan).value.lastSha256);
      }
    }
  }

  lemma EventsExtend(records: seq<Record>, e: Event, sequence: nat, previous: Digest)
    ensures EventsOf(records + [RecordOf(e, sequence, previous)]) == EventsOf(records) + [e]
  {
  }

  /** createGlobalMutationJournal: a file that only ever grows by checked records. */
  class JournalWriter {
    const codec: Codec
    const plan: Digest
    var bytes: Bytes

    constructor (codec: Codec, plan: Digest, runId: string)
      ensures this.codec == codec && this.plan == plan
      ensures bytes == HeaderBytes(codec, Header(plan, runId))
    {
      this.codec, this.plan := codec, plan;
      bytes := codec.encode(HeaderLine(Header(plan, runId))) + [NEWLINE];
    }

    method AppendEvent(e: Event) returns (accepted: bool)
      modifies this
      ensures accepted <==> Append(codec, old(bytes), plan, e).Ok?
      ensures bytes == if accepted then Append(codec, old(bytes), plan, e).value else old(bytes)
    {
      var current := ParseJournal(codec, bytes, plan);
      if current.Err? {
        return false;
      }
      var record := codec.encode(RecordLine(RecordOf(e, current.value.nextSequence, current.value.lastSha256))) + [NEWLINE];
      var checked := ParseJournal(codec, bytes + record, plan);
      if checked.Err? {
        return false;
      }
      bytes := bytes + record;
      return true;
    }
  }
}
