// Hook command lines: how a path is written into one, and how a line is taken apart again (installShared.ts).
module HookCommands {
  import opened Wrappers
  import opened Units

  // White space as a regular expression's `\s` and `trim` see it.
  predicate IsSpace(c: Unit) {
    || 0x09 <= c <= 0x0D || c == SPACE || c == 0xA0 || c == 0x1680 || 0x2000 <= c <= 0x200A
    || c == 0x2028 || c == 0x2029 || c == 0x202F || c == 0x205F || c == 0x3000 || c == 0xFEFF
  }

  predicate NeedsQuotes(path: Text) {
    exists i :: 0 <= i < |path| && (IsSpace(path[i]) || path[i] == BACKSLASH)
  }

  function QuoteCommandPath(path: Text): Text {
    if NeedsQuotes(path) then [QUOTE] + path + [QUOTE] else path
  }

  predicate IsQuote(c: Unit) {
    c == QUOTE
  }

  predicate EndsWord(c: Unit) {
    IsSpace(c) || c == QUOTE
  }

  // `"([^"]*)"|([^\s"]+)` at the beginning of a text: the token, and where the match ends.
  datatype Match = Match(token: Text, end: nat)

  function Head(t: Text): (m: Option<Match>)
    ensures m.Some? ==> 0 < m.value.end <= |t|
  {
    if t == [] || IsSpace(t[0]) then None
    else if t[0] == QUOTE then
      var close := FirstIndex(t, IsQuote, 1);
      if close == |t| then None else Some(Match(t[1..close], close + 1))
    else
      var end := FirstIndex(t, EndsWord);
      Some(Match(t[..end], end))
  }

  // The tokens of a line, or None where something between them is no token and no white space.
  function Tokens(t: Text): Option<seq<Text>>
    decreases |t|
  {
    if t == [] then Some([])
    else if IsSpace(t[0]) then Tokens(t[1..])
    else match Head(t)
         case None => None
         case Some(m) => Prepended([m.token], Tokens(t[m.end..]))
  }

  function Prepended(front: seq<Text>, rest: Option<seq<Text>>): Option<seq<Text>> {
    if rest.None? then None else Some(front + rest.value)
  }

  lemma {:induction false} SpacesSkip(t: Text, n: nat)
    requires n <= |t| && forall i :: 0 <= i < n ==> IsSpace(t[i])
    ensures Tokens(t) == Tokens(t[n..])
    decreases n
  {
    hide IsSpace, Head;
    if n == 0 {
      assert t[0..] == t;
    } else {
      assert t[1..][n - 1..] == t[n..];
      SpacesSkip(t[1..], n - 1);
    }
  }

  // `slice(from, to).trim()` is not empty.
  method HasText(t: Text, from: nat, to: nat) returns (has: bool)
    requires from <= to <= |t|
    ensures has <==> exists i :: from <= i < to && !IsSpace(t[i])
  {
    for i := from to to
      invariant forall k :: from <= k < i ==> IsSpace(t[k])
    {
      if !IsSpace(t[i]) {
        return true;
      }
    }
    return false;
  }

  // `pattern.exec`: the first place at or after `from` where the pattern matches.
  method Exec(t: Text, from: nat) returns (start: nat, m: Option<Match>)
    requires from <= |t|
    ensures from <= start <= |t| && (m.None? <==> start == |t|)
    ensures forall i :: from <= i < start ==> Head(t[i..]).None?
    ensures m == Head(t[start..])
  {
    start := from;
    while start < |t|
      invariant from <= start <= |t|
      invariant forall i :: from <= i < start ==> Head(t[i..]).None?
    {
      m := Head(t[start..]);
      if m.Some? {
        return;
      }
      start := start + 1;
    }
    m := None;
  }

  lemma SpacesAreSkipped(t: Text, from: nat, to: nat)
    requires from <= to <= |t| && forall i :: from <= i < to ==> IsSpace(t[i])
    ensures Tokens(t[from..]) == Tokens(t[to..])
  {
    hide IsSpace, Tokens;
    SpacesSkip(t[from..], to - from);
    assert t[from..][to - from..] == t[to..];
  }

  // Where the pattern does not match and there is no white space, the line is malformed.
  lemma {:induction false} NoTokenThere(t: Text, from: nat, to: nat)
    requires from <= to <= |t|
    requires forall i :: from <= i < to ==> Head(t[i..]).None?
    requires exists i :: from <= i < to && !IsSpace(t[i])
    ensures Tokens(t[from..]).None?
    decreases |t| - from
  {
    hide IsSpace, Head;
    assert t[from..][0] == t[from] && t[from..][1..] == t[from + 1..];
    if IsSpace(t[from]) {
      NoTokenThere(t, from + 1, to);
    }
  }

  method CommandTokens(command: Text) returns (tokens: Option<seq<Text>>)
    ensures tokens == Tokens(command)
  {
    hide Head, IsSpace, Tokens;
    var found: seq<Text> := [];
    var end := 0;
    assert command[0..] == command;
    assert Tokens(command) == Prepended([], Tokens(command)) by {
      if Tokens(command).Some? {
        assert [] + Tokens(command).value == Tokens(command).value;
      }
    }
    while true
      invariant end <= |command|
      invariant Tokens(command) == Prepended(found, Tokens(command[end..]))
      decreases |command| - end
    {
      var start, m := Exec(command, end);
      var junk := HasText(command, end, start);
      if junk {
        NoTokenThere(command, end, start);
        return None;
      }
      SpacesAreSkipped(command, end, start);
      if m.None? {
        assert command[start..] == [];
        NoTokens();
        assert found + [] == found;
        return Some(found);
      }
      TokensStep(command, start);
      PrependedTwice(found, m.value.token, Tokens(command[start + m.value.end..]));
      found := found + [m.value.token];
      end := start + m.value.end;
    }
  }

  lemma NoTokens()
    ensures Tokens([]) == Some([])
  {
  }

  lemma TokensStep(t: Text, start: nat)
    requires start < |t| && Head(t[start..]).Some?
    ensures var m := Head(t[start..]).value;
      start + m.end <= |t| && Tokens(t[start..]) == Prepended([m.token], Tokens(t[start + m.end..]))
  {
    var m := Head(t[start..]).value;
    assert t[start..][m.end..] == t[start + m.end..];
  }

  lemma PrependedTwice(front: seq<Text>, token: Text, rest: Option<seq<Text>>)
    ensures Prepended(front, Prepended([token], rest)) == Prepended(front + [token], rest)
  {
    if rest.Some? {
      assert front + ([token] + rest.value) == front + [token] + rest.value;
    }
  }

  // ---- What was written is read ----

  // No token has a quote in it.
  lemma {:induction false} TokensAreBare(t: Text)
    ensures Tokens(t).Some? ==> forall i :: 0 <= i < |Tokens(t).value| ==> QUOTE !in Tokens(t).value[i]
    decreases |t|
  {
    if t != [] {
      if IsSpace(t[0]) {
        TokensAreBare(t[1..]);
      } else if Head(t).Some? {
        var m := Head(t).value;
        TokensAreBare(t[m.end..]);
        assert QUOTE !in m.token by {
          HeadIsBare(t);
        }
      }
    }
  }

  lemma HeadIsBare(t: Text)
    requires Head(t).Some?
    ensures QUOTE !in Head(t).value.token
  {
    if t[0] == QUOTE {
      var close := FirstIndex(t, IsQuote, 1);
      assert forall i :: 0 <= i < close - 1 ==> !IsQuote(t[1..close][i]);
    } else {
      var end := FirstIndex(t, EndsWord);
      assert forall i :: 0 <= i < end ==> !EndsWord(t[..end][i]);
    }
  }

  lemma FirstIndexAt<T>(s: seq<T>, p: T -> bool, from: nat, i: nat)
    requires from <= i <= |s| && (i < |s| ==> p(s[i])) && forall k :: from <= k < i ==> !p(s[k])
    ensures FirstIndex(s, p, from) == i
  {
  }

  lemma QuotedHead(path: Text, rest: Text)
    requires QUOTE !in path
    ensures Head([QUOTE] + path + [QUOTE] + rest) == Some(Match(path, |path| + 2))
  {
    var t := [QUOTE] + path + [QUOTE] + rest;
    FirstIndexAt(t, IsQuote, 1, |path| + 1);
    assert t[1..|path| + 1] == path;
  }

  lemma BareHead(path: Text, rest: Text)
    requires path != [] && QUOTE !in path && !NeedsQuotes(path) && (rest == [] || EndsWord(rest[0]))
    ensures Head(path + rest) == Some(Match(path, |path|))
  {
    var t := path + rest;
    FirstIndexAt(t, EndsWord, 0, |path|);
    assert t[..|path|] == path;
  }

  /** A path written into a command line before white space or the end is read back as the first token, and what
      follows is read as it would be alone, exactly if the path is not empty and has no quote in it. A backslash of
      the path never stands outside quotes, where a shell would take it for an escape. */
  lemma PathIsFirstToken(path: Text, suffix: Text)
    requires suffix == [] || IsSpace(suffix[0])
    ensures (Tokens(suffix).Some? && Tokens(QuoteCommandPath(path) + suffix) == Some([path] + Tokens(suffix).value))
      <==> path != [] && QUOTE !in path && Tokens(suffix).Some?
    ensures path != [] && QUOTE !in path ==>
      Tokens(QuoteCommandPath(path) + suffix) == Prepended([path], Tokens(suffix))
    ensures BACKSLASH in path ==> QuoteCommandPath(path) == [QUOTE] + path + [QUOTE]
  {
    hide IsSpace, Head;
    var line := QuoteCommandPath(path) + suffix;
    if path != [] && QUOTE !in path {
      if NeedsQuotes(path) {
        QuotedHead(path, suffix);
        assert line[|path| + 2..] == suffix;
      } else {
        BareHead(path, suffix);
        assert line[|path|..] == suffix;
      }
      TokensStart(line);
    } else if path == [] {
      assert line == suffix;
      assert Tokens(suffix).Some? ==> |[path] + Tokens(suffix).value| == 1 + |Tokens(suffix).value|;
    } else {
      assert Tokens(suffix).Some? ==> ([path] + Tokens(suffix).value)[0] == path;
      TokensAreBare(line);
    }
  }

  lemma TokensStart(t: Text)
    requires Head(t).Some?
    ensures Tokens(t) == Prepended([Head(t).value.token], Tokens(t[Head(t).value.end..]))
  {
  }
}
