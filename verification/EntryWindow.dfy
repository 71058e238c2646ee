// Reading a large entry window by window (entryRead.ts). The claims are about bytes.
module EntryWindow {
  import opened Wrappers

  type Byte = n: nat | n < 256
  type Bytes = seq<Byte>

  const WINDOW_BOUND := 64 * 1024

  // (b & 0xc0) == 0x80
  predicate Continuation(b: Byte) {
    0x80 <= b <= 0xBF
  }

  // The length of the first encoded code point (section 4 of RFC 3629), or 0 when there is none.
  function FirstLength(b: Bytes): (n: nat)
    ensures n <= |b| && n <= 4
  {
    if b == [] then 0
    else if b[0] <= 0x7F then 1
    else if 0xC2 <= b[0] <= 0xDF then if |b| >= 2 && Continuation(b[1]) then 2 else 0
    else if 0xE0 <= b[0] <= 0xEF then
      if |b| >= 3 && Continuation(b[1]) && Continuation(b[2])
         && (b[0] == 0xE0 ==> 0xA0 <= b[1]) && (b[0] == 0xED ==> b[1] <= 0x9F) then 3 else 0
    else if 0xF0 <= b[0] <= 0xF4 then
      if |b| >= 4 && Continuation(b[1]) && Continuation(b[2]) && Continuation(b[3])
         && (b[0] == 0xF0 ==> 0x90 <= b[1]) && (b[0] == 0xF4 ==> b[1] <= 0x8F) then 4 else 0
    else 0
  }

  predicate Valid(b: Bytes)
    decreases |b|
  {
    b == [] || (FirstLength(b) > 0 && Valid(b[FirstLength(b)..]))
  }

  // The first code point is a start byte and continuations, and the same in any longer text.
  lemma FirstShape(b: Bytes)
    requires FirstLength(b) > 0
    ensures !Continuation(b[0]) && forall k :: 0 < k < FirstLength(b) ==> Continuation(b[k])
  {
  }

  lemma FirstIsLocal(b: Bytes, i: nat)
    requires FirstLength(b) > 0 && FirstLength(b) <= i <= |b|
    ensures FirstLength(b[..i]) == FirstLength(b)
  {
  }

  lemma ValidStart(b: Bytes)
    requires Valid(b) && b != []
    ensures !Continuation(b[0])
  {
    FirstShape(b);
  }

  // In valid text the bytes that do not continue are exactly the places where it can be cut.
  lemma {:induction false} BoundaryCuts(b: Bytes, i: nat)
    requires Valid(b) && i <= |b|
    ensures (i == |b| || !Continuation(b[i])) <==> Valid(b[..i]) && Valid(b[i..])
    decreases |b|
  {
    hide FirstLength;
    if i == |b| {
      assert b[..i] == b && b[i..] == [];
    } else if i == 0 {
      assert b[..0] == [] && b[0..] == b;
      ValidStart(b);
    } else {
      var n := FirstLength(b);
      FirstShape(b);
      if i < n {
        if Valid(b[i..]) {
          ValidStart(b[i..]);
        }
      } else {
        var rest := b[n..];
        BoundaryCuts(rest, i - n);
        FirstIsLocal(b, i);
        assert b[..i][n..] == rest[..i - n] && b[i..] == rest[i - n..];
      }
    }
  }

  // No four bytes in a row continue.
  lemma {:induction false} FourInARow(b: Bytes, i: nat)
    requires Valid(b) && i + 3 < |b|
    ensures exists k :: i <= k < i + 4 && !Continuation(b[k])
    decreases |b|
  {
    hide FirstLength;
    var n := FirstLength(b);
    FirstShape(b);
    if i >= n {
      FourInARow(b[n..], i - n);
      var k :| i - n <= k < i - n + 4 && !Continuation(b[n..][k]);
      assert !Continuation(b[n + k]);
    } else if i == 0 {
      assert !Continuation(b[0]);
    } else {
      ValidStart(b[n..]);
      assert !Continuation(b[n]);
    }
  }

  function Min(a: nat, b: nat): nat {
    if a < b then a else b
  }

  // The bytes read for a window: four more than it may hold.
  function Buffer(file: Bytes, offset: nat, limit: nat): Bytes
    requires offset <= |file|
  {
    file[offset..offset + Min(|file| - offset, limit + 4)]
  }

  datatype Window = Window(content: Bytes, next: Option<nat>)

  // Whether a window may end after n bytes of the buffer.
  predicate EndsAt(buffer: Bytes, n: nat)
    requires n <= |buffer|
  {
    n == 0 || n == |buffer| || !Continuation(buffer[n])
  }

  // A window is the longest part of the buffer, within the limit, that does not end inside a code point.
  method ReadWindow(file: Bytes, offset: nat, limit: nat) returns (r: Result<Window>)
    ensures r.Ok? <==> offset <= |file| && 4 <= limit <= WINDOW_BOUND && (offset < |file| ==> !Continuation(file[offset]))
    ensures r.Ok? ==>
      && var buffer, n := Buffer(file, offset, limit), |r.value.content|;
      && r.value.content <= buffer && n <= limit && EndsAt(buffer, n)
      && (forall m :: n < m <= Min(|buffer|, limit) ==> !EndsAt(buffer, m))
      && r.value.next == if offset + n < |file| then Some(offset + n) else None
  {
    if offset > |file| || limit < 4 || limit > WINDOW_BOUND {
      return Err("raw entry range: offset must be within file, limit must be 4..65536 bytes");
    }
    var buffer := Buffer(file, offset, limit);
    var count := |buffer|;
    if count > 0 && Continuation(buffer[0]) {
      return Err("raw entry offset must be a UTF-8 boundary");
    }
    var n: nat := Min(count, limit);
    while n > 0 && n < count && Continuation(buffer[n])
      invariant 0 <= n <= Min(count, limit)
      invariant forall m :: n < m <= Min(count, limit) ==> !EndsAt(buffer, m)
    {
      n := n - 1;
    }
    return Ok(Window(buffer[..n], if offset + n < |file| then Some(offset + n) else None));
  }

  // On valid UTF-8 every window starting on a boundary advances, is valid UTF-8, and ends on a boundary.
  lemma WindowAdvances(file: Bytes, offset: nat, limit: nat, n: nat)
    requires Valid(file) && offset < |file| && !Continuation(file[offset]) && limit >= 4
    requires n <= Min(|Buffer(file, offset, limit)|, limit) && EndsAt(Buffer(file, offset, limit), n)
    requires forall m :: n < m <= Min(|Buffer(file, offset, limit)|, limit) ==> !EndsAt(Buffer(file, offset, limit), m)
    ensures n > 0 && (offset + n < |file| ==> n + 3 >= limit && !Continuation(file[offset + n]))
    ensures Valid(file[offset..offset + n]) && Valid(file[offset + n..])
  {
    hide Valid;
    var buffer := Buffer(file, offset, limit);
    BoundaryCuts(file, offset);
    var rest := file[offset..];
    assert buffer == rest[..|buffer|];
    if |buffer| > limit {
      FourInARow(rest, limit - 3);
      var k :| limit - 3 <= k < limit - 3 + 4 && !Continuation(rest[k]);
      assert EndsAt(buffer, k);
    } else {
      assert EndsAt(buffer, |buffer|);
    }
    BoundaryCuts(rest, n);
    assert rest[..n] == file[offset..offset + n] && rest[n..] == file[offset + n..];
  }

  function Concat(windows: seq<Bytes>): Bytes {
    if windows == [] then [] else Concat(windows[..|windows| - 1]) + windows[|windows| - 1]
  }

  lemma ConcatAppend(windows: seq<Bytes>, content: Bytes)
    ensures Concat(windows + [content]) == Concat(windows) + content
  {
    assert (windows + [content])[..|windows|] == windows;
  }

  lemma EmptyIsValid()
    ensures Valid([])
  {
  }

  // Following next_offset_bytes from the start reads the file: every window is valid UTF-8 and not empty, and
  // the windows put together are the file. A window is read only while there is something left.
  method ReadAll(file: Bytes, limit: nat) returns (windows: seq<Bytes>)
    requires Valid(file) && 4 <= limit <= WINDOW_BOUND
    ensures Concat(windows) == file
    ensures forall i :: 0 <= i < |windows| ==> Valid(windows[i]) && |windows[i]| <= limit
    ensures forall i :: 0 <= i < |windows| ==> windows[i] != [] || file == []
  {
    hide Valid;
    windows := [];
    var next := Some(0);
    ghost var read := 0;
    EmptyIsValid();
    assert file[..0] == [];
    if file != [] {
      ValidStart(file);
    }
    while next.Some?
      invariant read <= |file| && next == (if read < |file| || windows == [] then Some(read) else None)
      invariant windows == [] ==> read == 0
      invariant Concat(windows) == file[..read]
      invariant read < |file| ==> !Continuation(file[read])
      invariant forall i :: 0 <= i < |windows| ==> Valid(windows[i]) && |windows[i]| <= limit && (windows[i] != [] || file == [])
      decreases |file| - read, next.Some?
    {
      var window := ReadWindow(file, next.value, limit);
      var content := window.value.content;
      if read < |file| {
        WindowAdvances(file, read, limit, |content|);
      }
      assert content == file[read..read + |content|];
      assert file[..read] + content == file[..read + |content|];
      ConcatAppend(windows, content);
      windows := windows + [content];
      next := window.value.next;
      read := read + |content|;
    }
    assert file[..read] == file;
  }
}
