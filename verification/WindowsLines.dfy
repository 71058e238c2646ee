// Command lines that no quoting wrote: what the parser makes of bare words, and which lines it refuses.
module WindowsLines {
  import opened Wrappers
  import opened Units
  import opened WindowsArguments

  const UNTERMINATED := "process_commandline_unterminated_quote"
  const TOO_MANY := "process_argument_count_bound"

  // ---- Lines without quotes ----

  predicate AllBlank(t: Text) {
    forall i :: 0 <= i < |t| ==> Blank(t[i])
  }

  predicate IsWord(t: Text) {
    t != [] && forall i :: 0 <= i < |t| ==> !Blank(t[i])
  }

  // The words with the gaps before, between and after them.
  function Spread(gaps: seq<Text>, words: seq<Text>): Text
    requires |gaps| == |words| + 1
  {
    if words == [] then gaps[0] else gaps[0] + words[0] + Spread(gaps[1..], words[1..])
  }

  /** The line is these words, kept apart by spaces and tabs. */
  ghost predicate SplitInto(t: Text, gaps: seq<Text>, words: seq<Text>) {
    && |gaps| == |words| + 1
    && (forall k :: 0 <= k < |gaps| ==> AllBlank(gaps[k]) && (0 < k < |words| ==> gaps[k] != []))
    && (forall k :: 0 <= k < |words| ==> IsWord(words[k]))
    && t == Spread(gaps, words)
  }

  function WordEnd(t: Text): (n: nat)
    ensures n <= |t| && (n < |t| ==> Blank(t[n])) && forall i :: 0 <= i < n ==> !Blank(t[i])
  {
    FirstIndex(t, Blank)
  }

  lemma {:induction false} RunIsSlashes(t: Text)
    ensures forall k :: 0 <= k < Run(t) ==> t[k] == BACKSLASH
    ensures Run(t) < |t| ==> t[Run(t)] != BACKSLASH
  {
    if t != [] && t[0] == BACKSLASH {
      RunIsSlashes(t[1..]);
    }
  }

  lemma RunAt(t: Text, i: nat)
    requires i <= |t|
    ensures i + Run(t[i..]) <= |t| && forall k :: i <= k < i + Run(t[i..]) ==> t[k] == BACKSLASH
    ensures i + Run(t[i..]) < |t| ==> t[i + Run(t[i..])] != BACKSLASH
  {
    RunIsSlashes(t[i..]);
    forall k | i <= k < i + Run(t[i..]) ensures t[k] == BACKSLASH {
      assert t[k] == t[i..][k - i];
    }
  }

  lemma SlashesThere(t: Text, i: nat)
    requires i <= |t|
    ensures var r := Run(t[i..]); i + r <= |t| && t[i..i + r] == Slashes(r)
  {
    RunSplits(t[i..]);
    var r := Run(t[i..]);
    assert t[i..i + r] == t[i..][..r];
  }

  lemma ThreeParts(t: Text, i: nat, m: nat, j: nat, value: Text)
    requires i <= m < j <= |t|
    ensures value + t[i..m] + [t[m]] + t[m + 1..j] == value + t[i..j]
  {
    assert t[i..j] == t[i..m] + [t[m]] + t[m + 1..j];
  }

  // A bare word is taken as it stands, its backslashes included.
  lemma {:induction false} TakeBare(t: Text, i: nat, value: Text) returns (j: nat)
    requires i <= |t| && QUOTE !in t
    ensures i <= j <= |t| && (forall k :: i <= k < j ==> !Blank(t[k])) && (j < |t| ==> Blank(t[j]))
    ensures TakeArgument(t[i..], value, false) == Taken(value + t[i..j], t[j..], false)
    decreases |t| - i
  {
    hide TakeArgument, Run, Slashes;
    if i == |t| || Blank(t[i]) {
      TakeNothing(t[i..], value, false);
      j := i;
      assert value + t[i..i] == value;
    } else {
      var r := Run(t[i..]);
      RunAt(t, i);
      SlashesThere(t, i);
      TakeArgumentStep(t, i, value, false, r);
      if i + r == |t| || Blank(t[i + r]) {
        j := i + r;
      } else {
        j := TakeBare(t, i + r + 1, value + Slashes(r) + [t[i + r]]);
        ThreeParts(t, i, i + r, j, value);
      }
    }
  }

  lemma {:induction false} SkipIs(t: Text)
    ensures var n := |t| - |SkipBlanks(t)|; AllBlank(t[..n]) && t[n..] == SkipBlanks(t)
    decreases |t|
  {
    if t != [] && Blank(t[0]) {
      SkipIs(t[1..]);
      var n := |t| - |SkipBlanks(t)|;
      assert t[n..] == t[1..][n - 1..];
      forall i | 0 <= i < n ensures Blank(t[..n][i]) {
        if i > 0 {
          assert t[..n][i] == t[1..][..n - 1][i - 1];
        }
      }
    }
  }

  lemma {:induction false} SkipGap(gap: Text, rest: Text)
    requires AllBlank(gap) && (rest == [] || !Blank(rest[0]))
    ensures SkipBlanks(gap + rest) == rest
    decreases |gap|
  {
    if gap == [] {
      assert gap + rest == rest;
    } else {
      assert (gap + rest)[1..] == gap[1..] + rest;
      SkipGap(gap[1..], rest);
    }
  }

  lemma SplitRest(gaps: seq<Text>, words: seq<Text>)
    requires words != [] && |gaps| == |words| + 1 && SplitInto(Spread(gaps, words), gaps, words)
    ensures SplitInto(Spread(gaps[1..], words[1..]), gaps[1..], words[1..])
    ensures Spread(gaps, words) == gaps[0] + (words[0] + Spread(gaps[1..], words[1..]))
    ensures var rest := Spread(gaps[1..], words[1..]); rest == [] || Blank(rest[0])
  {
    var rest := Spread(gaps[1..], words[1..]);
    assert gaps[0] + words[0] + rest == gaps[0] + (words[0] + rest);
    if |words| > 1 {
      assert rest[0] == gaps[1][0];
    }
  }

  lemma WordThenBlank(word: Text, rest: Text)
    requires IsWord(word) && (rest == [] || Blank(rest[0])) && QUOTE !in word + rest
    ensures TakeArgument(word + rest, [], false) == Taken(word, rest, false)
  {
    hide TakeArgument;
    var t := word + rest;
    var j := TakeBare(t, 0, []);
    assert j == |word| by {
      assert forall k :: 0 <= k < |word| ==> t[k] == word[k];
      assert |word| < |t| ==> t[|word|] == rest[0];
    }
    assert t[0..] == t && [] + t[0..j] == word && t[j..] == rest;
  }

  // Read word by word, with some words read before.
  lemma {:induction false} WordsAreTaken(gaps: seq<Text>, words: seq<Text>, before: seq<Text>)
    requires |gaps| == |words| + 1 && SplitInto(Spread(gaps, words), gaps, words)
    requires QUOTE !in Spread(gaps, words) && |before| <= COUNT_BOUND
    ensures TakeAll(Spread(gaps, words), before) == if |before| + |words| <= COUNT_BOUND then Ok(before + words) else Err(TOO_MANY)
    decreases |words|
  {
    hide TakeArgument, SkipBlanks, SplitInto;
    SplitParts(gaps, words);
    if words == [] {
      SkipGap(gaps[0], []);
      assert gaps[0] + [] == gaps[0] && before + [] == before;
    } else {
      SplitRest(gaps, words);
      var rest := Spread(gaps[1..], words[1..]);
      assert QUOTE !in words[0] + rest;
      SkipGap(gaps[0], words[0] + rest);
      WordThenBlank(words[0], rest);
      if |before| < COUNT_BOUND {
        WordsAreTaken(gaps[1..], words[1..], before + [words[0]]);
        assert before + [words[0]] + words[1..] == before + words;
      }
    }
  }

  lemma SplitParts(gaps: seq<Text>, words: seq<Text>)
    requires |gaps| == |words| + 1 && SplitInto(Spread(gaps, words), gaps, words)
    ensures AllBlank(gaps[0]) && (words != [] ==> IsWord(words[0]))
  {
  }

  /** A line without quotes, within the bounds, is read as its words, the pieces between spaces and tabs with their
      backslashes kept; with more words than the bound it is refused. */
  lemma BareWordsAreRead(t: Text, gaps: seq<Text>, words: seq<Text>)
    requires QUOTE !in t && |t| <= TEXT_BOUND && NUL !in t && SplitInto(t, gaps, words)
    ensures Parse(t) == if |words| <= COUNT_BOUND then Ok(words) else Err(TOO_MANY)
  {
    WordsAreTaken(gaps, words, []);
    assert [] + words == words;
  }

  lemma OneMoreWord(gap: Text, word: Text, rest: Text, gaps: seq<Text>, words: seq<Text>)
    requires SplitInto(rest, gaps, words) && AllBlank(gap) && IsWord(word)
    requires words != [] ==> gaps[0] != []
    ensures SplitInto(gap + (word + rest), [gap] + gaps, [word] + words)
  {
    var all, ws := [gap] + gaps, [word] + words;
    assert all[1..] == gaps && ws[1..] == words;
    assert gap + word + rest == gap + (word + rest);
  }

  // And every line is words and gaps.
  lemma {:induction false} SomeWords(t: Text) returns (gaps: seq<Text>, words: seq<Text>)
    ensures SplitInto(t, gaps, words) && (t != [] && Blank(t[0]) ==> gaps[0] != [])
    decreases |t|
  {
    hide SkipBlanks;
    SkipIs(t);
    var start := SkipBlanks(t);
    var gap := t[..|t| - |start|];
    if start == [] {
      gaps, words := [t], [];
      assert gap == t;
    } else {
      var n := WordEnd(start);
      var word, rest := start[..n], start[n..];
      assert start == word + rest && t == gap + (word + rest);
      gaps, words := SomeWords(rest);
      StartsBlank(rest, gaps, words);
      OneMoreWord(gap, word, rest, gaps, words);
      gaps, words := [gap] + gaps, [word] + words;
    }
  }

  lemma StartsBlank(t: Text, gaps: seq<Text>, words: seq<Text>)
    requires SplitInto(t, gaps, words) && (t != [] && Blank(t[0]) ==> gaps[0] != []) && (t == [] || Blank(t[0]))
    ensures words != [] ==> gaps[0] != []
  {
  }

  // ---- Quotes left open ----

  // How many backslashes stand directly before position i.
  function SlashesBefore(t: Text, i: nat): (n: nat)
    requires i <= |t|
    ensures n <= i
  {
    if i == 0 || t[i - 1] != BACKSLASH then 0 else 1 + SlashesBefore(t, i - 1)
  }

  // A quote that no backslash escapes.
  predicate OpensOrCloses(t: Text, i: nat)
    requires i < |t|
  {
    t[i] == QUOTE && SlashesBefore(t, i) % 2 == 0
  }

  // How many of the first n units are such quotes.
  function Quotes(t: Text, n: nat): nat
    requires n <= |t|
  {
    if n == 0 then 0 else Quotes(t, n - 1) + if OpensOrCloses(t, n - 1) then 1 else 0
  }

  // A run of backslashes starts no earlier than here.
  predicate Fresh(t: Text, i: nat)
    requires i <= |t|
  {
    i == 0 || t[i - 1] != BACKSLASH
  }

  predicate IsOdd(n: nat) {
    n % 2 == 1
  }

  lemma {:induction false} RunBefore(t: Text, i: nat, r: nat)
    requires i + r <= |t| && Fresh(t, i) && forall k :: i <= k < i + r ==> t[k] == BACKSLASH
    ensures SlashesBefore(t, i + r) == r && Quotes(t, i + r) == Quotes(t, i)
    decreases r
  {
    if r > 0 {
      RunBefore(t, i, r - 1);
    }
  }

  // One more unit after a run of backslashes, and one more quote after that.
  lemma AfterRun(t: Text, i: nat, r: nat)
    requires i + r < |t| && Fresh(t, i) && t[i + r] != BACKSLASH && forall k :: i <= k < i + r ==> t[k] == BACKSLASH
    ensures Fresh(t, i + r + 1)
    ensures Quotes(t, i + r + 1) == Quotes(t, i) + if t[i + r] == QUOTE && r % 2 == 0 then 1 else 0
    ensures t[i + r] == QUOTE && i + r + 1 < |t| && t[i + r + 1] == QUOTE ==>
      Fresh(t, i + r + 2) && Quotes(t, i + r + 2) == Quotes(t, i + r + 1) + 1
  {
    RunBefore(t, i, r);
  }

  // The parser is inside quotes exactly if an odd number of them was met.
  lemma {:induction false} QuotedIsOdd(t: Text, i: nat, value: Text, quoted: bool) returns (j: nat)
    requires i <= |t| && Fresh(t, i) && (quoted <==> IsOdd(Quotes(t, i)))
    ensures i <= j <= |t| && TakeArgument(t[i..], value, quoted).rest == t[j..]
    ensures TakeArgument(t[i..], value, quoted).quoted <==> IsOdd(Quotes(t, j))
    ensures TakeArgument(t[i..], value, quoted).quoted ==> j == |t|
    ensures j == |t| || Blank(t[j])
    decreases |t| - i
  {
    hide TakeArgument, Run, Slashes, Fresh, Quotes;
    if i == |t| || (!quoted && Blank(t[i])) {
      TakeNothing(t[i..], value, quoted);
      j := i;
    } else {
      var r := Run(t[i..]);
      RunAt(t, i);
      RunBefore(t, i, r);
      if i + r < |t| {
        AfterRun(t, i, r);
      }
      TakeArgumentStep(t, i, value, quoted, r);
      if i + r == |t| || (!quoted && Blank(t[i + r])) {
        j := i + r;
      } else if t[i + r] != QUOTE {
        j := QuotedIsOdd(t, i + r + 1, value + Slashes(r) + [t[i + r]], quoted);
      } else if r % 2 == 1 {
        j := QuotedIsOdd(t, i + r + 1, value + Slashes(r / 2) + [QUOTE], quoted);
      } else if quoted && i + r + 1 < |t| && t[i + r + 1] == QUOTE {
        j := QuotedIsOdd(t, i + r + 2, value + Slashes(r / 2) + [QUOTE], quoted);
      } else {
        j := QuotedIsOdd(t, i + r + 1, value + Slashes(r / 2), !quoted);
      }
    }
  }

  lemma {:induction false} BlanksHaveNoQuotes(t: Text, i: nat, n: nat)
    requires i + n <= |t| && forall k :: i <= k < i + n ==> Blank(t[k])
    ensures Quotes(t, i + n) == Quotes(t, i) && (n > 0 ==> Fresh(t, i + n))
    decreases n
  {
    if n > 0 {
      BlanksHaveNoQuotes(t, i, n - 1);
    }
  }

  // Where the next argument starts.
  lemma NextStart(t: Text, i: nat) returns (start: nat)
    requires i <= |t| && (i == 0 || i == |t| || Blank(t[i]))
    ensures i <= start <= |t| && SkipBlanks(t[i..]) == t[start..] && Quotes(t, start) == Quotes(t, i)
    ensures start < |t| ==> Fresh(t, start)
  {
    SkipIs(t[i..]);
    var n := |t[i..]| - |SkipBlanks(t[i..])|;
    start := i + n;
    assert t[i..][n..] == t[start..];
    forall k | i <= k < start ensures Blank(t[k]) {
      assert t[k] == t[i..][..n][k - i];
    }
    BlanksHaveNoQuotes(t, i, n);
    assert start < |t| ==> t[start] == SkipBlanks(t[i..])[0];
  }

  lemma {:induction false} LinesEndEven(t: Text, i: nat, before: seq<Text>)
    requires i <= |t| && (i == 0 || i == |t| || Blank(t[i])) && !IsOdd(Quotes(t, i))
    ensures var r := TakeAll(t[i..], before);
      && (r.Ok? ==> !IsOdd(Quotes(t, |t|)))
      && (r.Err? ==> r.error == TOO_MANY || (r.error == UNTERMINATED && IsOdd(Quotes(t, |t|))))
    decreases |t| - i
  {
    hide TakeArgument, SkipBlanks, IsOdd;
    var start := NextStart(t, i);
    if start < |t| {
      var j := QuotedIsOdd(t, start, [], false);
      var taken := TakeArgument(t[start..], [], false);
      assert |taken.rest| < |t[start..]|;
      if !taken.quoted && |before| + 1 <= COUNT_BOUND {
        LinesEndEven(t, j, before + [taken.value]);
      }
    }
  }

  /** A line that is read has an even number of quotes that no backslash escapes; a line with an odd number of them is
      refused, and only such a line is refused for a quote left open. */
  lemma OpenQuoteIsRefused(t: Text)
    requires |t| <= TEXT_BOUND && NUL !in t
    ensures Parse(t).Ok? ==> !IsOdd(Quotes(t, |t|))
    ensures Parse(t).Err? ==> Parse(t).error == TOO_MANY || (Parse(t).error == UNTERMINATED && IsOdd(Quotes(t, |t|)))
  {
    assert t[0..] == t;
    LinesEndEven(t, 0, []);
  }

  // ---- Doubled quotes ----

  // The other way to write a quote inside quotes.
  function Doubled(a: Text): Text {
    if a == [] then [] else (if a[0] == QUOTE then [QUOTE, QUOTE] else [a[0]]) + Doubled(a[1..])
  }

  function DoubledLine(args: seq<Text>): Text {
    if args == [] then []
    else [QUOTE] + Doubled(args[0]) + [QUOTE] + if |args| == 1 then [] else [SPACE] + DoubledLine(args[1..])
  }

  lemma OneUnit(c: Unit, rest: Text, value: Text)
    requires c != QUOTE && c != BACKSLASH
    ensures TakeArgument([c] + rest, value, true) == TakeArgument(rest, value + [c], true)
  {
    hide TakeArgument;
    var t := [c] + rest;
    assert t[0..] == t && t[1..] == rest && Run(t) == 0;
    assert value + Slashes(0) + [c] == value + [c];
    TakeArgumentStep(t, 0, value, true, 0);
  }

  lemma TwoQuotes(rest: Text, value: Text)
    ensures TakeArgument([QUOTE, QUOTE] + rest, value, true) == TakeArgument(rest, value + [QUOTE], true)
  {
    hide TakeArgument;
    var t := [QUOTE, QUOTE] + rest;
    assert t[0..] == t && t[2..] == rest && Run(t) == 0;
    assert value + Slashes(0) + [QUOTE] == value + [QUOTE];
    TakeArgumentStep(t, 0, value, true, 0);
  }

  lemma CloseQuote(rest: Text, value: Text)
    requires rest == [] || rest[0] == SPACE
    ensures TakeArgument([QUOTE] + rest, value, true) == Taken(value, rest, false)
  {
    hide TakeArgument;
    var t := [QUOTE] + rest;
    assert t[0..] == t && t[1..] == rest && Run(t) == 0;
    assert value + Slashes(0) == value;
    TakeArgumentStep(t, 0, value, true, 0);
    TakeNothing(rest, value, false);
  }

  lemma {:induction false} TakeDoubled(a: Text, rest: Text, value: Text)
    requires BACKSLASH !in a && (rest == [] || rest[0] == SPACE)
    ensures TakeArgument(Doubled(a) + ([QUOTE] + rest), value, true) == Taken(value + a, rest, false)
    decreases |a|
  {
    hide TakeArgument;
    var closing := [QUOTE] + rest;
    if a == [] {
      assert Doubled(a) + closing == closing && value + a == value;
      CloseQuote(rest, value);
    } else {
      var more := Doubled(a[1..]) + closing;
      TakeDoubled(a[1..], rest, value + [a[0]]);
      assert value + [a[0]] + a[1..] == value + a;
      if a[0] == QUOTE {
        assert Doubled(a) + closing == [QUOTE, QUOTE] + more;
        TwoQuotes(more, value);
      } else {
        assert Doubled(a) + closing == [a[0]] + more;
        OneUnit(a[0], more, value);
      }
    }
  }

  lemma FirstDoubled(args: seq<Text>) returns (rest: Text)
    requires args != [] && BACKSLASH !in args[0]
    ensures rest == (if |args| == 1 then [] else [SPACE] + DoubledLine(args[1..]))
    ensures var t := DoubledLine(args);
      t != [] && t[0] == QUOTE && TakeArgument(t, [], false) == Taken(args[0], rest, false)
  {
    hide TakeArgument, Doubled;
    rest := if |args| == 1 then [] else [SPACE] + DoubledLine(args[1..]);
    var inside := Doubled(args[0]) + ([QUOTE] + rest);
    assert DoubledLine(args) == [QUOTE] + inside;
    OpenQuote(inside);
    TakeDoubled(args[0], rest, []);
    assert [] + args[0] == args[0];
  }

  lemma {:induction false} DoubledIsRead(args: seq<Text>, before: seq<Text>)
    requires |before| + |args| <= COUNT_BOUND && forall i :: 0 <= i < |args| ==> BACKSLASH !in args[i]
    ensures TakeAll(DoubledLine(args), before) == Ok(before + args)
    decreases |args|
  {
    hide TakeArgument, TakeAll, Doubled;
    if args == [] {
      assert before + args == before;
      TakeAllNothing(before);
    } else {
      var rest := FirstDoubled(args);
      TakeFirst(DoubledLine(args), before);
      DoubledIsRead(args[1..], before + [args[0]]);
      assert before + [args[0]] + args[1..] == before + args;
      hide DoubledLine;
      if |args| > 1 {
        SkipOneBlank(DoubledLine(args[1..]), before + [args[0]]);
      } else {
        assert args[1..] == [];
        TakeAllNothing(before + [args[0]]);
      }
    }
  }

  lemma TakeFirst(t: Text, before: seq<Text>)
    requires t != [] && t[0] == QUOTE && !TakeArgument(t, [], false).quoted && |before| < COUNT_BOUND
    ensures TakeAll(t, before) == TakeAll(TakeArgument(t, [], false).rest, before + [TakeArgument(t, [], false).value])
  {
    hide TakeArgument;
  }

  /** Arguments without backslashes, each in quotes with its own quotes doubled, are read back as they are. */
  lemma DoubledQuotesAreRead(args: seq<Text>)
    requires |args| <= COUNT_BOUND && |DoubledLine(args)| <= TEXT_BOUND && NUL !in DoubledLine(args)
    requires forall i :: 0 <= i < |args| ==> BACKSLASH !in args[i]
    ensures Parse(DoubledLine(args)) == Ok(args)
  {
    DoubledIsRead(args, []);
    assert [] + args == args;
  }
}
