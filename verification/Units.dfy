// Text as the original handles it: sequences of UTF-16 code units.
module Units {
  type Unit = n: nat | n < 0x10000
  type Text = seq<Unit>

  const TAB: Unit := 0x09
  const NEWLINE: Unit := 0x0A
  const SPACE: Unit := 0x20
  const QUOTE: Unit := 0x22
  const BACKSLASH: Unit := 0x5C

  function Slashes(n: nat): (t: Text)
    ensures |t| == n
  {
    if n == 0 then [] else [BACKSLASH] + Slashes(n - 1)
  }

  // The length of the run of backslashes a text starts with.
  function Run(t: Text): (r: nat)
    ensures r <= |t|
  {
    if t == [] || t[0] != BACKSLASH then 0 else 1 + Run(t[1..])
  }

  lemma {:induction false} RunIs(n: nat, rest: Text)
    requires rest != [] ==> rest[0] != BACKSLASH
    ensures Run(Slashes(n) + rest) == n
  {
    var t := Slashes(n) + rest;
    if n == 0 {
      assert t == rest;
    } else {
      RunIs(n - 1, rest);
      assert t[1..] == Slashes(n - 1) + rest;
    }
  }

  // A text is its leading run and a rest that does not go on with a backslash.
  lemma {:induction false} RunSplits(t: Text)
    ensures t == Slashes(Run(t)) + t[Run(t)..] && (Run(t) < |t| ==> t[Run(t)] != BACKSLASH)
  {
    if t != [] && t[0] == BACKSLASH {
      RunSplits(t[1..]);
      assert t == [BACKSLASH] + t[1..];
      assert t[1..][Run(t[1..])..] == t[Run(t)..];
    }
  }

  lemma {:induction false} SlashesAppend(m: nat, n: nat)
    ensures Slashes(m) + Slashes(n) == Slashes(m + n)
  {
    if m == 0 {
      assert Slashes(0) + Slashes(n) == Slashes(n);
    } else {
      SlashesAppend(m - 1, n);
      assert Slashes(m) + Slashes(n) == [BACKSLASH] + (Slashes(m - 1) + Slashes(n));
    }
  }

  // The last unit of a run is a backslash.
  lemma {:induction false} SlashesEnd(n: nat)
    requires n > 0
    ensures Slashes(n)[n - 1] == BACKSLASH
  {
    if n > 1 {
      SlashesEnd(n - 1);
    }
  }

  lemma {:induction false} SlashesOnly(n: nat, c: Unit)
    requires c != BACKSLASH
    ensures c !in Slashes(n)
  {
    if n > 0 {
      SlashesOnly(n - 1, c);
    }
  }
}
