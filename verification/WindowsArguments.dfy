// Windows command lines: the quoting of the generated PowerShell launcher (managedShell.ts) and the parser
// that reads a process's command line back (managedProcessNative.ts).
module WindowsArguments {
  import opened Wrappers
  import opened Units

  const TEXT_BOUND := 1024 * 1024
  const COUNT_BOUND := 65536
  const NUL: Unit := 0

  // ---- Quoting ----

  // `[regex]::Replace(value, '(\\*)"', '$1$1\"')`: the leftmost, longest run of backslashes before a quote.
  function EscapeQuotes(a: Text): Text {
    var r := Run(a);
    if a == [] then []
    else if r < |a| && a[r] == QUOTE then Slashes(2 * r) + [BACKSLASH, QUOTE] + EscapeQuotes(a[r + 1..])
    else [a[0]] + EscapeQuotes(a[1..])
  }

  // `[regex]::Replace(value, '(\\+)$', '$1$1')`: `$` also matches before one final newline.
  function DoubleTrailing(a: Text): Text {
    var r := Run(a);
    if a == [] then []
    else if r > 0 && (a[r..] == [] || a[r..] == [NEWLINE]) then Slashes(2 * r) + a[r..]
    else [a[0]] + DoubleTrailing(a[1..])
  }

  function Quoted(a: Text): Text {
    [QUOTE] + DoubleTrailing(EscapeQuotes(a)) + [QUOTE]
  }

  function CommandLine(args: seq<Text>): Text {
    if args == [] then [] else if |args| == 1 then Quoted(args[0]) else Quoted(args[0]) + [SPACE] + CommandLine(args[1..])
  }

  // ---- Parsing ----

  predicate Blank(c: Unit) {
    c == SPACE || c == TAB
  }

  function SkipBlanks(t: Text): (rest: Text)
    ensures |rest| <= |t| && (rest != [] ==> !Blank(rest[0]))
  {
    if t != [] && Blank(t[0]) then SkipBlanks(t[1..]) else t
  }

  // Where the argument stops: its value, the text after it, and whether a quote is still open.
  datatype Taken = Taken(value: Text, rest: Text, quoted: bool)

  function TakeArgument(t: Text, value: Text, quoted: bool): (r: Taken)
    ensures |r.rest| <= |t| && (t != [] && (quoted || !Blank(t[0])) ==> |r.rest| < |t|)
    decreases |t|
  {
    if t == [] || (!quoted && Blank(t[0])) then Taken(value, t, quoted) else
    var r := Run(t);
    if r < |t| && t[r] == QUOTE then
      var half := value + Slashes(r / 2);
      if r % 2 == 1 then TakeArgument(t[r + 1..], half + [QUOTE], quoted)
      else if quoted && r + 1 < |t| && t[r + 1] == QUOTE then TakeArgument(t[r + 2..], half + [QUOTE], quoted)
      else TakeArgument(t[r + 1..], half, !quoted)
    else
      var all := value + Slashes(r);
      if r == |t| || (!quoted && Blank(t[r])) then Taken(all, t[r..], quoted)
      else TakeArgument(t[r + 1..], all + [t[r]], quoted)
  }

  // `before` arguments are already read.
  function TakeAll(t: Text, before: seq<Text>): Result<seq<Text>>
    decreases |t|
  {
    var start := SkipBlanks(t);
    if start == [] then Ok(before) else
    var taken := TakeArgument(start, [], false);
    if taken.quoted then Err("process_commandline_unterminated_quote")
    else if |before| + 1 > COUNT_BOUND then Err("process_argument_count_bound")
    else TakeAll(taken.rest, before + [taken.value])
  }

  function Parse(t: Text): Result<seq<Text>> {
    if |t| > TEXT_BOUND || NUL in t then Err("process_commandline_bound") else TakeAll(t, [])
  }

  lemma TakeArgumentStep(t: Text, i: nat, value: Text, quoted: bool, r: nat)
    requires i < |t| && (quoted || !Blank(t[i])) && r == Run(t[i..])
    ensures i + r < |t| && t[i + r] == QUOTE ==>
      TakeArgument(t[i..], value, quoted)
        == if r % 2 == 1 then TakeArgument(t[i + r + 1..], value + Slashes(r / 2) + [QUOTE], quoted)
           else if quoted && i + r + 1 < |t| && t[i + r + 1] == QUOTE then
             TakeArgument(t[i + r + 2..], value + Slashes(r / 2) + [QUOTE], quoted)
           else TakeArgument(t[i + r + 1..], value + Slashes(r / 2), !quoted)
    ensures (i + r < |t| && t[i + r] != QUOTE && (quoted || !Blank(t[i + r]))) ==>
      TakeArgument(t[i..], value, quoted) == TakeArgument(t[i + r + 1..], value + Slashes(r) + [t[i + r]], quoted)
    ensures (i + r == |t| || (!quoted && Blank(t[i + r]))) ==>
      TakeArgument(t[i..], value, quoted) == Taken(value + Slashes(r), t[i + r..], quoted)
  {
    assert t[i..][r..] == t[i + r..];
    if i + r < |t| {
      assert t[i..][r + 1..] == t[i + r + 1..];
    }
    if i + r + 1 < |t| {
      assert t[i..][r + 2..] == t[i + r + 2..];
    }
  }

  // One argument, as the inner loop reads it.
  method ReadArgument(text: Text, start: nat) returns (value: Text, index: nat, quoted: bool)
    requires start < |text| && !Blank(text[start])
    ensures start < index <= |text|
    ensures TakeArgument(text[start..], [], false) == Taken(value, text[index..], quoted)
  {
    hide TakeArgument;
    value, index, quoted := [], start, false;
    while index < |text|
      invariant start <= index <= |text|
      invariant index == start ==> !quoted && value == []
      invariant TakeArgument(text[index..], value, quoted) == TakeArgument(text[start..], [], false)
      decreases |text| - index
    {
      if !quoted && Blank(text[index]) {
        TakeNothing(text[index..], value, quoted);
        break;
      }
      var backslashes := CountBackslashes(text, index);
      TakeArgumentStep(text, index, value, quoted, backslashes);
      index := index + backslashes;
      if index < |text| && text[index] == QUOTE {
        value := value + Slashes(backslashes / 2);
        if backslashes % 2 == 1 {
          value := value + [QUOTE];
        } else if quoted && index + 1 < |text| && text[index + 1] == QUOTE {
          value := value + [QUOTE];
          index := index + 1;
        } else {
          quoted := !quoted;
        }
        index := index + 1;
      } else {
        value := value + Slashes(backslashes);
        if index == |text| || (!quoted && Blank(text[index])) {
          return;
        }
        value := value + [text[index]];
        index := index + 1;
      }
    }
    TakeNothing(text[index..], value, quoted);
  }

  lemma TakeNothing(t: Text, value: Text, quoted: bool)
    ensures t == [] || (!quoted && Blank(t[0])) ==> TakeArgument(t, value, quoted) == Taken(value, t, quoted)
  {
  }

  method CountBackslashes(text: Text, start: nat) returns (backslashes: nat)
    requires start <= |text|
    ensures start + backslashes <= |text| && backslashes == Run(text[start..])
  {
    backslashes := 0;
    var index := start;
    while index < |text| && text[index] == BACKSLASH
      invariant start <= index <= |text| && backslashes == index - start
      invariant Run(text[start..]) == backslashes + Run(text[index..])
    {
      assert text[index..][1..] == text[index + 1..];
      backslashes := backslashes + 1;
      index := index + 1;
    }
  }

  method ParseWindowsProcessArguments(text: Text) returns (r: Result<seq<Text>>)
    ensures r == Parse(text)
  {
    hide TakeArgument, SkipBlanks;
    if |text| > TEXT_BOUND || NUL in text {
      return Err("process_commandline_bound");
    }
    var result: seq<Text> := [];
    var index := 0;
    assert text[0..] == text;
    while index < |text|
      invariant index <= |text|
      invariant TakeAll(text[index..], result) == TakeAll(text, [])
      decreases |text| - index
    {
      var start := SkipBlanksAt(text, index);
      if start == |text| {
        return Ok(result);
      }
      var value, next, quoted := ReadArgument(text, start);
      if quoted {
        return Err("process_commandline_unterminated_quote");
      }
      if |result| + 1 > COUNT_BOUND {
        return Err("process_argument_count_bound");
      }
      result := result + [value];
      index := next;
    }
    TakeAllNothing(result);
    return Ok(result);
  }

  lemma TakeAllNothing(before: seq<Text>)
    ensures TakeAll([], before) == Ok(before)
  {
  }

  method SkipBlanksAt(text: Text, from: nat) returns (index: nat)
    requires from <= |text|
    ensures from <= index <= |text| && (index < |text| ==> !Blank(text[index]))
    ensures text[index..] == SkipBlanks(text[from..])
  {
    index := from;
    while index < |text| && Blank(text[index])
      invariant from <= index <= |text|
      invariant SkipBlanks(text[index..]) == SkipBlanks(text[from..])
    {
      assert text[index..][1..] == text[index + 1..];
      index := index + 1;
    }
  }

  // ---- Round trip ----

  // A run of backslashes followed by one final newline: .NET's `$` doubles it, the parser does not halve it.
  predicate EndsInSlashNewline(a: Text) {
    |a| >= 2 && a[|a| - 1] == NEWLINE && a[|a| - 2] == BACKSLASH
  }

  // What the child process receives.
  function Received(a: Text): Text {
    var r := Run(a);
    if r == |a| then a
    else if r > 0 && a[r..] == [NEWLINE] then Slashes(2 * r) + [NEWLINE]
    else a[..r + 1] + Received(a[r + 1..])
  }

  lemma {:induction false} ReceivedIsSent(a: Text)
    ensures Received(a) == a <==> !EndsInSlashNewline(a)
    ensures |Received(a)| >= |a|
    decreases |a|
  {
    hide Run, Slashes;
    var r := Run(a);
    RunSplits(a);
    if r < |a| && !(r > 0 && a[r..] == [NEWLINE]) {
      var rest := a[r + 1..];
      ReceivedIsSent(rest);
      assert a == a[..r + 1] + rest;
      assert Received(a)[r + 1..] == Received(rest);
      if rest == [] {
        assert a[r..] == [a[r]];
        if r > 0 {
          SlashesEnd(r);
        }
      } else if |rest| == 1 {
        assert a[|a| - 2] == a[r];
      }
    } else if r > 0 {
      SlashesEnd(r);
      assert r < |a| ==> |a| == r + 1;
    }
  }

  lemma EscapeCopy(c: Unit, t: Text)
    requires var r := Run([c] + t); !(r <= |t| && ([c] + t)[r] == QUOTE)
    ensures EscapeQuotes([c] + t) == [c] + EscapeQuotes(t)
  {
    hide Slashes, Run;
    assert ([c] + t)[1..] == t;
  }

  lemma EscapeMatch(n: nat, rest: Text)
    ensures EscapeQuotes(Slashes(n) + ([QUOTE] + rest)) == Slashes(2 * n) + [BACKSLASH, QUOTE] + EscapeQuotes(rest)
  {
    hide Slashes, Run;
    var a := Slashes(n) + ([QUOTE] + rest);
    RunIs(n, [QUOTE] + rest);
    assert a[n + 1..] == rest;
  }

  // Both replacements pass over a run of backslashes with what follows it.
  lemma {:induction false} EscapeRun(n: nat, c: Unit, rest: Text)
    requires c != BACKSLASH && c != QUOTE
    ensures EscapeQuotes(Slashes(n) + ([c] + rest)) == Slashes(n) + ([c] + EscapeQuotes(rest))
  {
    hide EscapeQuotes, Run;
    var after := [c] + rest;
    RunIs(n, after);
    if n == 0 {
      assert Slashes(0) + after == after;
      EscapeCopy(c, rest);
    } else {
      EscapeRun(n - 1, c, rest);
      assert Slashes(n) + after == [BACKSLASH] + (Slashes(n - 1) + after);
      EscapeCopy(BACKSLASH, Slashes(n - 1) + after);
    }
  }

  lemma {:induction false} EscapeSlashes(n: nat)
    ensures EscapeQuotes(Slashes(n)) == Slashes(n)
  {
    hide Run;
    assert Slashes(n) == Slashes(n) + [];
    RunIs(n, []);
    if n > 0 {
      EscapeSlashes(n - 1);
      assert Slashes(n)[1..] == Slashes(n - 1);
    }
  }

  lemma DoubleCopy(c: Unit, t: Text)
    requires var r := Run([c] + t); r == 0 || !(([c] + t)[r..] == [] || ([c] + t)[r..] == [NEWLINE])
    ensures DoubleTrailing([c] + t) == [c] + DoubleTrailing(t)
  {
    hide Slashes, Run;
    assert ([c] + t)[1..] == t;
  }

  lemma {:induction false} DoubleRun(n: nat, c: Unit, rest: Text)
    requires c != BACKSLASH && !(n > 0 && c == NEWLINE && rest == [])
    ensures DoubleTrailing(Slashes(n) + ([c] + rest)) == Slashes(n) + ([c] + DoubleTrailing(rest))
  {
    hide DoubleTrailing, Run;
    var after := [c] + rest;
    RunIs(n, after);
    if n == 0 {
      assert Slashes(0) + after == after;
      DoubleCopy(c, rest);
    } else {
      DoubleRun(n - 1, c, rest);
      var less := Slashes(n - 1) + after;
      assert Slashes(n) + after == [BACKSLASH] + less;
      assert (Slashes(n) + after)[n..] == after;
      assert after == [NEWLINE] ==> c == NEWLINE && rest == [] by {
        assert |after| == 1 + |rest|;
      }
      DoubleCopy(BACKSLASH, less);
    }
  }

  lemma DoubleEnd(n: nat, end: Text)
    requires end == [] || end == [NEWLINE]
    ensures DoubleTrailing(Slashes(n) + end) == Slashes(2 * n) + end
  {
    RunIs(n, end);
    assert (Slashes(n) + end)[n..] == end;
    if n == 0 {
      assert Slashes(n) + end == end;
      assert end == [NEWLINE] ==> end[1..] == [];
    }
  }

  function Body(a: Text): Text {
    DoubleTrailing(EscapeQuotes(a))
  }

  // The quoted body, run by run.
  lemma BodyOfSlashes(n: nat)
    ensures Body(Slashes(n)) == Slashes(2 * n)
  {
    hide EscapeQuotes, DoubleTrailing, Slashes;
    EscapeSlashes(n);
    DoubleEnd(n, []);
    assert Slashes(n) + [] == Slashes(n);
    assert Slashes(2 * n) + [] == Slashes(2 * n);
  }

  lemma BodyOfQuote(n: nat, rest: Text)
    ensures Body(Slashes(n) + ([QUOTE] + rest)) == Slashes(2 * n + 1) + ([QUOTE] + Body(rest))
  {
    hide EscapeQuotes, DoubleTrailing, Slashes;
    EscapeMatch(n, rest);
    SlashesAppend(2 * n, 1);
    OneSlash();
    var more := EscapeQuotes(rest);
    assert Slashes(2 * n) + [BACKSLASH, QUOTE] + more == Slashes(2 * n) + [BACKSLASH] + ([QUOTE] + more);
    DoubleRun(2 * n + 1, QUOTE, more);
  }

  lemma OneSlash()
    ensures Slashes(1) == [BACKSLASH]
  {
  }

  lemma BodyOfOther(n: nat, c: Unit, rest: Text)
    requires c != BACKSLASH && c != QUOTE && !(n > 0 && c == NEWLINE && rest == [])
    ensures Body(Slashes(n) + ([c] + rest)) == Slashes(n) + ([c] + Body(rest))
  {
    hide EscapeQuotes, DoubleTrailing, Slashes;
    EscapeRun(n, c, rest);
    EscapeNothing(rest);
    DoubleRun(n, c, EscapeQuotes(rest));
  }

  lemma BodyOfSlashNewline(n: nat)
    ensures Body(Slashes(n) + [NEWLINE]) == Slashes(2 * n) + [NEWLINE]
  {
    hide EscapeQuotes, DoubleTrailing, Slashes;
    EscapeRun(n, NEWLINE, []);
    EscapeNothing([]);
    assert [NEWLINE] + [] == [NEWLINE];
    DoubleEnd(n, [NEWLINE]);
  }

  lemma EscapeNothing(a: Text)
    ensures EscapeQuotes(a) == [] <==> a == []
  {
  }

  // Inside the quotes the parser reads one run of backslashes with what follows it.
  lemma TakeRun(n: nat, c: Unit, rest: Text, value: Text)
    requires c != BACKSLASH
    ensures c == QUOTE && n % 2 == 1 ==>
      TakeArgument(Slashes(n) + ([c] + rest), value, true) == TakeArgument(rest, value + Slashes(n / 2) + [QUOTE], true)
    ensures c == QUOTE && n % 2 == 0 && (rest == [] || rest[0] != QUOTE) ==>
      TakeArgument(Slashes(n) + ([c] + rest), value, true) == TakeArgument(rest, value + Slashes(n / 2), false)
    ensures c != QUOTE ==>
      TakeArgument(Slashes(n) + ([c] + rest), value, true) == TakeArgument(rest, value + Slashes(n) + [c], true)
  {
    hide Slashes, Run, TakeArgument;
    var t := Slashes(n) + ([c] + rest);
    RunIs(n, [c] + rest);
    assert t[0..] == t;
    assert t[n + 1..] == rest;
    TakeArgumentStep(t, 0, value, true, n);
  }

  // A quoted argument followed by a separator or the end is read as what the child receives.
  ghost predicate Reads(a: Text, rest: Text, value: Text) {
    TakeArgument(Body(a) + ([QUOTE] + rest), value, true) == Taken(value + Received(a), rest, false)
  }

  lemma ReadsSlashes(n: nat, rest: Text, value: Text)
    requires rest == [] || rest[0] == SPACE
    ensures Reads(Slashes(n), rest, value)
  {
    hide TakeArgument, Body, Slashes, Run;
    BodyOfSlashes(n);
    TakeRun(2 * n, QUOTE, rest, value);
    TakeNothing(rest, value + Slashes(n), false);
    RunIs(n, []);
    assert Slashes(n) + [] == Slashes(n);
  }

  lemma ReadsSlashNewline(n: nat, rest: Text, value: Text)
    requires (rest == [] || rest[0] == SPACE) && n > 0
    ensures Reads(Slashes(n) + [NEWLINE], rest, value)
  {
    hide TakeArgument, Body, Slashes, Run;
    var a, closing := Slashes(n) + [NEWLINE], [QUOTE] + rest;
    BodyOfSlashNewline(n);
    assert Body(a) + closing == Slashes(2 * n) + ([NEWLINE] + closing);
    TakeRun(2 * n, NEWLINE, closing, value);
    var more := value + Slashes(2 * n) + [NEWLINE];
    assert closing == Slashes(0) + closing;
    TakeRun(0, QUOTE, rest, more);
    assert more + Slashes(0) == more;
    TakeNothing(rest, more, false);
    RunIs(n, [NEWLINE]);
    assert a[n..] == [NEWLINE];
    assert more == value + (Slashes(2 * n) + [NEWLINE]);
  }

  lemma ReceivedRun(n: nat, c: Unit, rest: Text)
    requires c != BACKSLASH && !(n > 0 && c == NEWLINE && rest == [])
    ensures Received(Slashes(n) + ([c] + rest)) == Slashes(n) + [c] + Received(rest)
  {
    hide Slashes, Run;
    var a := Slashes(n) + ([c] + rest);
    RunIs(n, [c] + rest);
    assert a[n..] == [c] + rest;
    assert a[n..] == [NEWLINE] ==> c == NEWLINE && rest == [] by {
      assert |a[n..]| == 1 + |rest|;
    }
    assert a[..n + 1] == Slashes(n) + [c] && a[n + 1..] == rest;
  }

  lemma ReadsQuote(n: nat, tail: Text, rest: Text, value: Text)
    requires Reads(tail, rest, value + Slashes(n) + [QUOTE])
    ensures Reads(Slashes(n) + ([QUOTE] + tail), rest, value)
  {
    hide TakeArgument, Body, Slashes, Run, Received;
    var a, more := Slashes(n) + ([QUOTE] + tail), Body(tail) + ([QUOTE] + rest);
    BodyOfQuote(n, tail);
    assert Body(a) + ([QUOTE] + rest) == Slashes(2 * n + 1) + ([QUOTE] + more);
    TakeRun(2 * n + 1, QUOTE, more, value);
    ReceivedRun(n, QUOTE, tail);
    assert value + Slashes(n) + [QUOTE] + Received(tail) == value + Received(a);
  }

  lemma ReadsOther(n: nat, c: Unit, tail: Text, rest: Text, value: Text)
    requires c != BACKSLASH && c != QUOTE && !(n > 0 && c == NEWLINE && tail == [])
    requires Reads(tail, rest, value + Slashes(n) + [c])
    ensures Reads(Slashes(n) + ([c] + tail), rest, value)
  {
    hide TakeArgument, Body, Slashes, Run, Received;
    var a, more := Slashes(n) + ([c] + tail), Body(tail) + ([QUOTE] + rest);
    BodyOfOther(n, c, tail);
    assert Body(a) + ([QUOTE] + rest) == Slashes(n) + ([c] + more);
    TakeRun(n, c, more, value);
    ReceivedRun(n, c, tail);
    assert value + Slashes(n) + [c] + Received(tail) == value + Received(a);
  }

  lemma {:induction false} TakeBody(a: Text, rest: Text, value: Text)
    requires rest == [] || rest[0] == SPACE
    ensures Reads(a, rest, value)
    decreases |a|
  {
    hide Reads, Slashes, Run;
    var n := Run(a);
    RunSplits(a);
    if n == |a| {
      ReadsSlashes(n, rest, value);
      assert Slashes(n) + [] == Slashes(n);
    } else {
      var c, tail := a[n], a[n + 1..];
      assert a[n..] == [c] + tail;
      if n > 0 && c == NEWLINE && tail == [] {
        ReadsSlashNewline(n, rest, value);
        assert [c] + tail == [NEWLINE];
      } else {
        TakeBody(tail, rest, value + Slashes(n) + [c]);
        if c == QUOTE {
          ReadsQuote(n, tail, rest, value);
        } else {
          ReadsOther(n, c, tail, rest, value);
        }
      }
    }
  }

  lemma TakeQuoted(a: Text, rest: Text)
    requires rest == [] || rest[0] == SPACE
    ensures TakeArgument(Quoted(a) + rest, [], false) == Taken(Received(a), rest, false)
  {
    hide TakeArgument;
    var inside := Body(a) + ([QUOTE] + rest);
    var t := Quoted(a) + rest;
    assert t == [QUOTE] + inside;
    assert inside != [];
    OpenQuote(inside);
    TakeBody(a, rest, []);
    assert [] + Received(a) == Received(a);
  }

  lemma OpenQuote(inside: Text)
    ensures TakeArgument([QUOTE] + inside, [], false) == TakeArgument(inside, [], true)
  {
    var t := [QUOTE] + inside;
    assert t[0..] == t && t[1..] == inside;
    assert Run(t) == 0;
    assert [] + Slashes(0) == [];
    TakeArgumentStep(t, 0, [], false, 0);
  }

  function ReceivedAll(args: seq<Text>): (r: seq<Text>)
    ensures |r| == |args| && forall i :: 0 <= i < |args| ==> r[i] == Received(args[i])
  {
    seq(|args|, i requires 0 <= i < |args| => Received(args[i]))
  }

  lemma {:induction false} TakeAllReceived(args: seq<Text>, before: seq<Text>)
    requires |before| + |args| <= COUNT_BOUND
    ensures TakeAll(CommandLine(args), before) == Ok(before + ReceivedAll(args))
    decreases |args|
  {
    hide TakeArgument, Received, Quoted;
    if args == [] {
      assert before + ReceivedAll(args) == before;
      TakeAllNothing(before);
    } else {
      var rest := if |args| == 1 then [] else [SPACE] + CommandLine(args[1..]);
      assert CommandLine(args) == Quoted(args[0]) + rest;
      QuotedStarts(args[0], rest);
      TakeQuoted(args[0], rest);
      TakeAllReceived(args[1..], before + [Received(args[0])]);
      assert before + [Received(args[0])] + ReceivedAll(args[1..]) == before + ReceivedAll(args);
      if |args| > 1 {
        SkipOneBlank(CommandLine(args[1..]), before + [Received(args[0])]);
      }
    }
  }

  lemma QuotedStarts(a: Text, rest: Text)
    ensures Quoted(a) + rest != [] && (Quoted(a) + rest)[0] == QUOTE && SkipBlanks(Quoted(a) + rest) == Quoted(a) + rest
  {
  }

  lemma SkipOneBlank(t: Text, before: seq<Text>)
    ensures TakeAll([SPACE] + t, before) == TakeAll(t, before)
  {
    hide TakeArgument;
    assert ([SPACE] + t)[1..] == t;
  }

  lemma {:induction false} NulSurvives(args: seq<Text>)
    ensures NUL in CommandLine(args) <==> exists i :: 0 <= i < |args| && NUL in args[i]
  {
    hide Quoted;
    if args != [] {
      NulInQuoted(args[0]);
      NulSurvives(args[1..]);
      assert args == [args[0]] + args[1..];
    }
  }

  lemma NulInQuoted(a: Text)
    ensures NUL in Quoted(a) <==> NUL in a
  {
    NulInEscaped(a);
    NulInDoubled(EscapeQuotes(a));
  }

  lemma {:induction false} NulInEscaped(a: Text)
    ensures NUL in EscapeQuotes(a) <==> NUL in a
    decreases |a|
  {
    hide Run, Slashes;
    if a != [] {
      var r := Run(a);
      if r < |a| && a[r] == QUOTE {
        NulInEscaped(a[r + 1..]);
        RunSplits(a);
        SlashesOnly(r, NUL);
        SlashesOnly(2 * r, NUL);
        assert a[r..] == [QUOTE] + a[r + 1..];
      } else {
        NulInEscaped(a[1..]);
        assert a == [a[0]] + a[1..];
      }
    }
  }

  lemma {:induction false} NulInDoubled(a: Text)
    ensures NUL in DoubleTrailing(a) <==> NUL in a
    decreases |a|
  {
    hide Run, Slashes;
    if a != [] {
      var r := Run(a);
      RunSplits(a);
      SlashesOnly(r, NUL);
      SlashesOnly(2 * r, NUL);
      if !(r > 0 && (a[r..] == [] || a[r..] == [NEWLINE])) {
        NulInDoubled(a[1..]);
        assert a == [a[0]] + a[1..];
      }
    }
  }

  // Within the bounds, the parser returns exactly what the child receives, argument by argument.
  lemma ParsedIsReceived(args: seq<Text>)
    requires |CommandLine(args)| <= TEXT_BOUND && |args| <= COUNT_BOUND
    requires forall i :: 0 <= i < |args| ==> NUL !in args[i]
    ensures Parse(CommandLine(args)) == Ok(ReceivedAll(args))
  {
    NulSurvives(args);
    TakeAllReceived(args, []);
    assert [] + ReceivedAll(args) == ReceivedAll(args);
  }

  lemma {:induction false} ParseCounts(t: Text, before: seq<Text>)
    requires |before| <= COUNT_BOUND
    ensures TakeAll(t, before).Ok? ==> |TakeAll(t, before).value| <= COUNT_BOUND
    decreases |t|
  {
    hide TakeArgument, SkipBlanks;
    var start := SkipBlanks(t);
    if start != [] {
      var taken := TakeArgument(start, [], false);
      if !taken.quoted && |before| < COUNT_BOUND {
        ParseCounts(taken.rest, before + [taken.value]);
      }
    }
  }

  // Quoting, joining and parsing give the list back exactly when it is within the parser's bounds, holds no
  // NUL, and no argument ends in a backslash and a newline.
  lemma RoundTrip(args: seq<Text>)
    ensures Parse(CommandLine(args)) == Ok(args)
      <==> && |CommandLine(args)| <= TEXT_BOUND && |args| <= COUNT_BOUND
           && (forall i :: 0 <= i < |args| ==> NUL !in args[i])
           && (forall i :: 0 <= i < |args| ==> !EndsInSlashNewline(args[i]))
  {
    hide TakeAll, CommandLine, Received;
    NulSurvives(args);
    ParseCounts(CommandLine(args), []);
    if |CommandLine(args)| <= TEXT_BOUND && |args| <= COUNT_BOUND && NUL !in CommandLine(args) {
      ParsedIsReceived(args);
      forall i | 0 <= i < |args|
        ensures ReceivedAll(args)[i] == args[i] <==> !EndsInSlashNewline(args[i])
      {
        ReceivedIsSent(args[i]);
      }
      if forall i :: 0 <= i < |args| ==> !EndsInSlashNewline(args[i]) {
        assert ReceivedAll(args) == args;
      }
    }
  }

  // The one-argument list that comes back changed.
  lemma RoundTripFails()
    ensures Parse(CommandLine([[BACKSLASH, NEWLINE]])) == Ok([[BACKSLASH, BACKSLASH, NEWLINE]])
  {
    var a := [BACKSLASH, NEWLINE];
    assert a == Slashes(1) + [NEWLINE];
    RunIs(1, [NEWLINE]);
    BodyOfSlashNewline(1);
    assert a[1..] == [NEWLINE];
    assert Received(a) == [BACKSLASH, BACKSLASH, NEWLINE] by {
      assert Slashes(2) == [BACKSLASH, BACKSLASH];
    }
    assert |Quoted(a)| == 5;
    ParsedIsReceived([a]);
    assert ReceivedAll([a]) == [Received(a)];
  }
}
