/** Options, bytes and the newline structure of a byte stream. */
module Wrappers {
  datatype Option<+T> = None | Some(value: T) {
    predicate IsFailure() { None? }

    function PropagateFailure<U>(): Option<U>
      requires None?
    {
      None
    }

    function Extract(): T
      requires Some?
    {
      value
    }
  }

  function Min(a: nat, b: nat): nat { if a <= b then a else b }

  function Max(a: nat, b: nat): nat { if a <= b then b else a }
}

module Characters {
  /** The characters Unicode calls white space. */
  predicate IsWhitespace(c: char)
  {
    || '\U{0009}' <= c <= '\U{000D}'
    || c == '\U{0020}' || c == '\U{0085}' || c == '\U{00A0}' || c == '\U{1680}'
    || '\U{2000}' <= c <= '\U{200A}'
    || c == '\U{2028}' || c == '\U{2029}' || c == '\U{202F}' || c == '\U{205F}' || c == '\U{3000}'
  }
}

/** Facts about slices and concatenation, stated once so that proofs can name them. */
module Slices {
  function LastN<T>(s: seq<T>, n: nat): seq<T>
  {
    if |s| <= n then s else s[|s| - n..]
  }

  function Concat<T>(parts: seq<seq<T>>): seq<T>
  {
    if parts == [] then [] else Concat(parts[..|parts| - 1]) + parts[|parts| - 1]
  }

  lemma {:induction false} ConcatAppend<T>(a: seq<seq<T>>, b: seq<seq<T>>)
    ensures Concat(a + b) == Concat(a) + Concat(b)
  {
    if b == [] {
      assert a + b == a && Concat(a) + [] == Concat(a);
    } else {
      var n := |b| - 1;
      ConcatAppend(a, b[..n]);
      assert (a + b)[..|a| + n] == a + b[..n];
      Assoc(Concat(a), Concat(b[..n]), b[n]);
    }
  }

  lemma SplitAt<T>(s: seq<T>, n: nat, x: T)
    requires n < |s| && s[n] == x
    ensures s == s[..n] + [x] + s[n + 1..]
  {
  }

  lemma TakeAll<T>(s: seq<T>, n: nat)
    requires n == |s|
    ensures s[..n] == s && s[n..] == []
  {
  }

  lemma Prefixes<T>(s: seq<T>, i: nat, j: nat)
    requires i <= j <= |s|
    ensures s[..j] == s[..i] + s[i..j]
  {
  }

  lemma Assoc<T>(a: seq<T>, b: seq<T>, c: seq<T>)
    ensures (a + b) + c == a + (b + c)
  {
  }

  lemma Snoc<T>(s: seq<T>)
    requires s != []
    ensures s == s[..|s| - 1] + [s[|s| - 1]]
  {
  }

  lemma DropConcat<T>(a: seq<T>, b: seq<T>, n: nat)
    requires n <= |a|
    ensures (a + b)[n..] == a[n..] + b && (a + b)[..n] == a[..n]
  {
  }
}

module Bytes {

  newtype byte = x: int | 0 <= x < 256

  type Bytes = seq<byte>

  const NEWLINE: byte := 10

  /** Index of the first newline, or the length when there is none. */
  function FirstNewline(s: Bytes): (n: nat)
    ensures n <= |s|
  {
    if s == [] || s[0] == NEWLINE then 0 else 1 + FirstNewline(s[1..])
  }

  /** FirstNewline is the one position with this property. */
  ghost predicate IsFirstNewline(s: Bytes, n: nat)
  {
    && n <= |s|
    && (forall i :: 0 <= i < n ==> s[i] != NEWLINE)
    && (n < |s| ==> s[n] == NEWLINE)
  }

  lemma {:induction false} FirstNewlineIs(s: Bytes)
    ensures IsFirstNewline(s, FirstNewline(s))
  {
    if s != [] && s[0] != NEWLINE {
      FirstNewlineIs(s[1..]);
      var n := FirstNewline(s[1..]);
      forall i | 0 <= i < 1 + n ensures s[i] != NEWLINE {
        if i > 0 {
          assert s[i] == s[1..][i - 1];
        }
      }
    }
  }

  lemma FirstNewlineAt(s: Bytes, n: nat)
    requires IsFirstNewline(s, n)
    ensures FirstNewline(s) == n
  {
    FirstNewlineIs(s);
  }

  /** Index just past the last newline, or 0 when there is none. */
  function PastLastNewline(s: Bytes): (n: nat)
    ensures n <= |s|
  {
    if s == [] || s[|s| - 1] == NEWLINE then |s| else PastLastNewline(s[..|s| - 1])
  }

  ghost predicate IsPastLastNewline(s: Bytes, n: nat)
  {
    && n <= |s|
    && (n > 0 ==> s[n - 1] == NEWLINE)
    && (forall i :: n <= i < |s| ==> s[i] != NEWLINE)
  }

  lemma {:induction false} PastLastNewlineIs(s: Bytes)
    ensures IsPastLastNewline(s, PastLastNewline(s))
  {
    if s != [] && s[|s| - 1] != NEWLINE {
      PastLastNewlineIs(s[..|s| - 1]);
    }
  }

  lemma PastLastNewlineAt(s: Bytes, n: nat)
    requires IsPastLastNewline(s, n)
    ensures PastLastNewline(s) == n
  {
    PastLastNewlineIs(s);
  }

  function CountNewlines(s: Bytes): nat
  {
    if s == [] then 0 else (if s[0] == NEWLINE then 1 else 0) + CountNewlines(s[1..])
  }

  lemma {:induction false} CountNewlinesConcat(a: Bytes, b: Bytes)
    ensures CountNewlines(a + b) == CountNewlines(a) + CountNewlines(b)
  {
    if a == [] {
      assert a + b == b;
    } else {
      CountNewlinesConcat(a[1..], b);
      assert (a + b)[1..] == a[1..] + b;
    }
  }

  /** The prefixes a cursor may stop at: nothing, or whole lines only. */
  predicate WholeLines(s: Bytes)
  {
    s == [] || s[|s| - 1] == NEWLINE
  }
}
