// Failure and absence values shared by every module.
module Wrappers {
  datatype Option<+T> = None | Some(value: T)

  datatype Result<+T> = Ok(value: T) | Err(error: string) {
    predicate IsFailure() {
      Err?
    }
    function PropagateFailure<U>(): Result<U>
      requires Err?
    {
      Err(error)
    }
    function Extract(): T
      requires Ok?
    {
      value
    }
  }

  // The least index at or after `from` whose element satisfies `p`, or |s| when there is none.
  function FirstIndex<T>(s: seq<T>, p: T -> bool, from: nat := 0): (i: nat)
    requires from <= |s|
    ensures from <= i <= |s|
    ensures i < |s| ==> p(s[i])
    ensures forall k :: from <= k < i ==> !p(s[k])
    decreases |s| - from
  {
    if from == |s| || p(s[from]) then from else FirstIndex(s, p, from + 1)
  }

  lemma FirstIndexIs<T>(s: seq<T>, p: T -> bool, i: nat)
    requires i < |s| && p(s[i]) && forall k :: 0 <= k < i ==> !p(s[k])
    ensures FirstIndex(s, p) == i
  {
  }

  // How many elements satisfy `p`.
  function Count<T>(s: seq<T>, p: T -> bool): nat {
    if s == [] then 0 else (if p(s[0]) then 1 else 0) + Count(s[1..], p)
  }

  lemma {:induction false} CountUpdate<T>(s: seq<T>, p: T -> bool, i: nat, x: T)
    requires i < |s|
    ensures Count(s[i := x], p) == Count(s, p) - (if p(s[i]) then 1 else 0) + (if p(x) then 1 else 0)
  {
    if i == 0 {
      assert s[i := x][1..] == s[1..];
    } else {
      assert s[i := x][1..] == s[1..][i - 1 := x];
      CountUpdate(s[1..], p, i - 1, x);
    }
  }

  lemma {:induction false} CountZero<T>(s: seq<T>, p: T -> bool)
    ensures Count(s, p) == 0 <==> forall i :: 0 <= i < |s| ==> !p(s[i])
  {
    if s != [] {
      CountZero(s[1..], p);
      if Count(s, p) == 0 {
        forall i | 0 <= i < |s| ensures !p(s[i]) {
          if i > 0 {
            assert s[i] == s[1..][i - 1];
          }
        }
      } else if !p(s[0]) {
        var i :| 0 <= i < |s[1..]| && p(s[1..][i]);
        assert p(s[i + 1]);
      }
    }
  }

  // Decimal digits of a number, as template strings print it.
  function Decimal(n: nat): (s: string)
    ensures |s| > 0
  {
    (if n < 10 then "" else Decimal(n / 10)) + ["0123456789"[n % 10]]
  }

  lemma {:induction false} DecimalDiffers(a: nat, b: nat)
    requires a != b
    ensures Decimal(a) != Decimal(b)
  {
    var x, y := Decimal(a), Decimal(b);
    var digits := "0123456789";
    assert x[|x| - 1] == digits[a % 10] && y[|y| - 1] == digits[b % 10];
    assert x[..|x| - 1] == if a < 10 then "" else Decimal(a / 10);
    assert y[..|y| - 1] == if b < 10 then "" else Decimal(b / 10);
    if a % 10 == b % 10 {
      if a >= 10 && b >= 10 {
        DecimalDiffers(a / 10, b / 10);
      }
      assert x[..|x| - 1] != y[..|y| - 1];
    }
  }

  lemma {:induction false} DecimalDigits(n: nat)
    ensures forall k :: 0 <= k < |Decimal(n)| ==> '0' <= Decimal(n)[k] <= '9'
  {
    if n >= 10 {
      DecimalDigits(n / 10);
    }
  }

  lemma PrefixDiffers<T>(p: seq<T>, a: seq<T>, b: seq<T>)
    requires a != b
    ensures p + a != p + b
  {
    assert a == (p + a)[|p|..];
    assert b == (p + b)[|p|..];
  }
}
