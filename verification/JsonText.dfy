// The text of JSON strings: escapes (section 7 of RFC 8259), JSON.stringify, and the length of the encoded
// form of a decoded prefix (registrationNodeCodec.ts).
module JsonText {
  import opened Wrappers
  import opened Units

  const LETTER_U: Unit := 0x75

  predicate IsHex(c: Unit) {
    0x30 <= c <= 0x39 || 0x41 <= c <= 0x46 || 0x61 <= c <= 0x66
  }

  function HexValue(c: Unit): (v: nat)
    requires IsHex(c)
    ensures v < 16
  {
    if c <= 0x39 then c - 0x30 else if c <= 0x46 then c - 0x41 + 10 else c - 0x61 + 10
  }

  function HexDigit(v: nat): (c: Unit)
    requires v < 16
    ensures IsHex(c) && HexValue(c) == v
  {
    if v < 10 then 0x30 + v else 0x61 + v - 10
  }

  // The unit a two-unit escape stands for.
  function ShortEscape(c: Unit): Option<Unit> {
    if c == QUOTE || c == BACKSLASH || c == 0x2F then Some(c)
    else if c == 0x62 then Some(0x08)
    else if c == 0x66 then Some(0x0C)
    else if c == 0x6E then Some(NEWLINE)
    else if c == 0x72 then Some(0x0D)
    else if c == 0x74 then Some(TAB)
    else None
  }

  // How many units the first encoded unit takes.
  function Size(raw: Text): (n: nat)
    requires raw != []
    ensures n > 0
  {
    if raw[0] != BACKSLASH then 1 else if |raw| > 1 && raw[1] == LETTER_U then 6 else 2
  }

  // What the first encoded unit of a string token stands for.
  function First(raw: Text): (r: Option<Unit>)
    requires raw != []
    ensures r.Some? ==> Size(raw) <= |raw|
  {
    if Size(raw) > |raw| then None
    else if raw[0] != BACKSLASH then
      if raw[0] == QUOTE || raw[0] < 0x20 then None else Some(raw[0])
    else if raw[1] != LETTER_U then ShortEscape(raw[1])
    else if IsHex(raw[2]) && IsHex(raw[3]) && IsHex(raw[4]) && IsHex(raw[5]) then
      Some(HexValue(raw[2]) * 4096 + HexValue(raw[3]) * 256 + HexValue(raw[4]) * 16 + HexValue(raw[5]))
    else None
  }

  // The value of the text between the quotes of a string token; None when it is no such text.
  function Unescape(raw: Text): Option<Text>
    decreases |raw|
  {
    if raw == [] then Some([])
    else if First(raw).None? then None
    else match Unescape(raw[Size(raw)..])
         case None => None
         case Some(rest) => Some([First(raw).value] + rest)
  }

  // The first encoded unit does not depend on what follows it.
  lemma FirstIsLocal(a: Text, b: Text)
    requires a != [] && First(a).Some?
    ensures Size(a + b) == Size(a) && First(a + b) == First(a)
  {
  }

  lemma {:induction false} UnescapeAppend(a: Text, b: Text)
    requires Unescape(a).Some? && Unescape(b).Some?
    ensures Unescape(a + b) == Some(Unescape(a).value + Unescape(b).value)
    decreases |a|
  {
    hide First, Size;
    if a == [] {
      assert a + b == b && [] + Unescape(b).value == Unescape(b).value;
    } else {
      FirstIsLocal(a, b);
      var rest := a[Size(a)..];
      UnescapeAppend(rest, b);
      assert (a + b)[Size(a)..] == rest + b;
      var first := [First(a).value];
      assert first + Unescape(rest).value + Unescape(b).value == first + (Unescape(rest).value + Unescape(b).value);
    }
  }

  lemma FirstOfHead(raw: Text)
    requires raw != [] && First(raw).Some?
    ensures var head := raw[..Size(raw)]; Size(head) == Size(raw) && First(head) == First(raw)
  {
  }

  lemma UnescapeFirst(raw: Text)
    requires raw != [] && Unescape(raw).Some?
    ensures First(raw).Some? && Size(raw) <= |raw|
    ensures Unescape(raw[..Size(raw)]) == Some([First(raw).value])
    ensures Unescape(raw[Size(raw)..]).Some? && Unescape(raw) == Some([First(raw).value] + Unescape(raw[Size(raw)..]).value)
  {
    hide First, Size;
    FirstOfHead(raw);
    OneUnit(raw[..Size(raw)]);
  }

  lemma OneUnit(head: Text)
    requires head != [] && First(head).Some? && Size(head) == |head|
    ensures Unescape(head) == Some([First(head).value])
  {
    hide First, Size;
    assert head[Size(head)..] == [];
    UnescapeNothing();
    assert [First(head).value] + [] == [First(head).value];
  }

  // Where the first k decoded units end in the encoded text.
  function PrefixEnd(raw: Text, k: nat): nat
    decreases |raw|
  {
    if k == 0 || raw == [] || Size(raw) > |raw| then 0 else Size(raw) + PrefixEnd(raw[Size(raw)..], k - 1)
  }

  lemma {:induction false} PrefixEndIs(raw: Text, k: nat)
    requires Unescape(raw).Some? && k <= |Unescape(raw).value|
    ensures var n := PrefixEnd(raw, k);
      && n <= |raw| && (k > 0 ==> n > 0)
      && Unescape(raw[..n]) == Some(Unescape(raw).value[..k])
      && Unescape(raw[n..]) == Some(Unescape(raw).value[k..])
    decreases |raw|
  {
    hide First, Size, Unescape, PrefixEnd;
    UnescapeNothing();
    PrefixEndStep(raw, k);
    var value := Unescape(raw).value;
    if k == 0 {
      assert raw[..0] == [] && raw[0..] == raw && value[..0] == [] && value[0..] == value;
    } else {
      UnescapeFirst(raw);
      var size := Size(raw);
      var rest := raw[size..];
      PrefixEndIs(rest, k - 1);
      var n := PrefixEnd(rest, k - 1);
      UnescapeAppend(raw[..size], rest[..n]);
      assert raw[..size] + rest[..n] == raw[..size + n] && rest[n..] == raw[size + n..];
      var tail := Unescape(rest).value;
      assert [First(raw).value] + tail[..k - 1] == value[..k] && tail[k - 1..] == value[k..];
    }
  }

  // The encoded prefix ends where exactly the decoded prefix has been read; the suffix keeps its encoding.
  method JsonPrefixLength(raw: Text, prefix: Text) returns (r: Result<nat>)
    requires Unescape(raw).Some?
    ensures r.Ok? <==> prefix <= Unescape(raw).value
    ensures r.Ok? ==>
      && r.value <= |raw| && r.value == PrefixEnd(raw, |prefix|)
      && Unescape(raw[..r.value]) == Some(prefix)
      && Unescape(raw[r.value..]) == Some(Unescape(raw).value[|prefix|..])
      && (prefix != [] ==> r.value > 0)
  {
    hide First, Size, Unescape, PrefixEnd;
    var end := 0;
    var decoded: Text := [];
    ghost var value := Unescape(raw).value;
    UnescapeNothing();
    assert raw[..0] == [] && raw[0..] == raw && value[0..] == value;
    while |decoded| < |prefix|
      invariant end <= |raw| && |decoded| <= |prefix| && |decoded| <= |value|
      invariant decoded == value[..|decoded|]
      invariant Unescape(raw[..end]) == Some(decoded)
      invariant Unescape(raw[end..]) == Some(value[|decoded|..])
      invariant PrefixEnd(raw, |prefix|) == end + PrefixEnd(raw[end..], |prefix| - |decoded|)
      invariant decoded != [] ==> end > 0
    {
      if end >= |raw| {
        assert raw[end..] == [];
        return Err("registration_encoded_prefix_missing");
      }
      ghost var rest, before := raw[end..], raw[..end];
      UnescapeFirst(rest);
      UnescapeAppend(before, rest[..Size(rest)]);
      PrefixEndStep(rest, |prefix| - |decoded|);
      var size, unit := SizeAndFirst(raw[end..]);
      assert value[|decoded|..] == [unit] + value[|decoded|..][1..];
      assert value[|decoded|..][1..] == value[|decoded| + 1..];
      assert before + rest[..size] == raw[..end + size];
      assert rest[size..] == raw[end + size..];
      decoded := decoded + [unit];
      end := end + size;
    }
    PrefixEndStep(raw[end..], 0);
    if decoded != prefix {
      return Err("registration_encoded_prefix_changed");
    }
    return Ok(end);
  }

  lemma PrefixEndStep(raw: Text, k: nat)
    ensures k == 0 || raw == [] ==> PrefixEnd(raw, k) == 0
    ensures k > 0 && raw != [] && Size(raw) <= |raw| ==> PrefixEnd(raw, k) == Size(raw) + PrefixEnd(raw[Size(raw)..], k - 1)
  {
  }

  lemma UnescapeNothing()
    ensures Unescape([]) == Some([])
  {
  }

  method SizeAndFirst(rest: Text) returns (size: nat, unit: Unit)
    requires rest != [] && First(rest).Some?
    ensures size == Size(rest) && unit == First(rest).value
  {
    size, unit := Size(rest), First(rest).value;
  }

  // ---- JSON.stringify, without the quotes ----

  predicate High(c: Unit) {
    0xD800 <= c <= 0xDBFF
  }

  predicate Low(c: Unit) {
    0xDC00 <= c <= 0xDFFF
  }

  // A surrogate that is not part of a pair.
  predicate Lone(t: Text, i: nat)
    requires i < |t|
  {
    (High(t[i]) && !(i + 1 < |t| && Low(t[i + 1]))) || (Low(t[i]) && !(i > 0 && High(t[i - 1])))
  }

  function FourHex(c: Unit): Text {
    [HexDigit(c / 16 / 16 / 16), HexDigit(c / 16 / 16 % 16), HexDigit(c / 16 % 16), HexDigit(c % 16)]
  }

  function EscapeOne(t: Text, i: nat): Text
    requires i < |t|
  {
    var c := t[i];
    if c == QUOTE || c == BACKSLASH then [BACKSLASH, c]
    else if c == 0x08 then [BACKSLASH, 0x62]
    else if c == 0x0C then [BACKSLASH, 0x66]
    else if c == NEWLINE then [BACKSLASH, 0x6E]
    else if c == 0x0D then [BACKSLASH, 0x72]
    else if c == TAB then [BACKSLASH, 0x74]
    else if c < 0x20 || Lone(t, i) then [BACKSLASH, LETTER_U] + FourHex(c)
    else [c]
  }

  function EscapeFrom(t: Text, i: nat): Text
    requires i <= |t|
    decreases |t| - i
  {
    if i == |t| then [] else EscapeOne(t, i) + EscapeFrom(t, i + 1)
  }

  function Escape(t: Text): Text {
    EscapeFrom(t, 0)
  }

  lemma FourHexIs(c: Unit)
    ensures var h := FourHex(c);
      && |h| == 4 && IsHex(h[0]) && IsHex(h[1]) && IsHex(h[2]) && IsHex(h[3])
      && HexValue(h[0]) * 4096 + HexValue(h[1]) * 256 + HexValue(h[2]) * 16 + HexValue(h[3]) == c
  {
    hide HexDigit, HexValue, IsHex;
    var a, b, d := c / 16, c / 16 / 16, c / 16 / 16 / 16;
    assert c == a * 16 + c % 16 && a == b * 16 + a % 16 && b == d * 16 + b % 16 && d < 16;
  }

  lemma EscapeOneIs(t: Text, i: nat)
    requires i < |t|
    ensures Unescape(EscapeOne(t, i)) == Some([t[i]])
  {
    hide HexValue, HexDigit, FourHex, Lone, IsHex, Unescape;
    FourHexIs(t[i]);
    OneUnit(EscapeOne(t, i));
  }

  lemma {:induction false} EscapeFromIs(t: Text, i: nat)
    requires i <= |t|
    ensures Unescape(EscapeFrom(t, i)) == Some(t[i..])
    decreases |t| - i
  {
    hide Unescape, EscapeOne;
    if i == |t| {
      UnescapeNothing();
    } else {
      EscapeOneIs(t, i);
      EscapeFromIs(t, i + 1);
      UnescapeAppend(EscapeOne(t, i), EscapeFrom(t, i + 1));
      assert t[i..] == [t[i]] + t[i + 1..];
    }
  }

  // Every text survives encoding, lone surrogates and control units included.
  lemma EscapeRoundTrip(t: Text)
    ensures Unescape(Escape(t)) == Some(t)
  {
    EscapeFromIs(t, 0);
    assert t[0..] == t;
  }

  // A raw text whose encoded prefix is exchanged decodes to the exchanged prefix and the old suffix.
  lemma PrefixExchange(raw: Text, prefix: Text, suffix: Text, replacement: Text)
    requires Unescape(raw) == Some(prefix + suffix)
    ensures var n := PrefixEnd(raw, |prefix|);
      && n <= |raw| && (prefix != [] ==> n > 0)
      && Unescape(Escape(replacement) + raw[n..]) == Some(replacement + suffix)
  {
    hide Unescape, PrefixEnd, Escape;
    PrefixEndIs(raw, |prefix|);
    assert (prefix + suffix)[|prefix|..] == suffix;
    EscapeRoundTrip(replacement);
    UnescapeAppend(Escape(replacement), raw[PrefixEnd(raw, |prefix|)..]);
  }
}
