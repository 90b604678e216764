/** Parts of a sequence by the positions they are taken from, in order. */
module Subsequences {
  ghost predicate Ascending(at: seq<nat>, n: nat)
  {
    && (forall k :: 0 <= k < |at| ==> at[k] < n)
    && forall k, l :: 0 <= k < l < |at| ==> at[k] < at[l]
  }

  /** The positions below n with the property, in order. */
  ghost predicate AreAll(at: seq<nat>, n: nat, p: nat -> bool)
  {
    Ascending(at, n) && forall i: nat :: i < n ==> (i in at <==> p(i))
  }

  lemma AscendingSnoc(at: seq<nat>, n: nat)
    requires Ascending(at, n)
    ensures Ascending(at, n + 1) && Ascending(at + [n], n + 1) && n !in at
  {
  }

  lemma InSnoc(at: seq<nat>, n: nat)
    ensures forall i: nat :: i in at + [n] <==> i in at || i == n
  {
  }

  lemma AllNext(at: seq<nat>, n: nat, p: nat -> bool)
    requires AreAll(at, n, p)
    ensures AreAll(if p(n) then at + [n] else at, n + 1, p)
  {
    AscendingSnoc(at, n);
    InSnoc(at, n);
    hide Ascending;
  }

  /** What is found there, one value for each position. */
  ghost predicate AreAt<T(!new)>(found: seq<T>, at: seq<nat>, fits: (nat, T) -> bool)
  {
    |found| == |at| && forall k :: 0 <= k < |at| ==> fits(at[k], found[k])
  }

  lemma AtNext<T(!new)>(found: seq<T>, at: seq<nat>, fits: (nat, T) -> bool, n: nat, x: T)
    requires AreAt(found, at, fits) && fits(n, x)
    ensures AreAt(found + [x], at + [n], fits)
  {
  }

  /** One more position, with one more value or none. */
  lemma PartNext<T(!new)>(found: seq<T>, more: seq<T>, at: seq<nat>, n: nat, p: nat -> bool, fits: (nat, T) -> bool)
    returns (next: seq<nat>)
    requires AreAll(at, n, p) && AreAt(found, at, fits)
    requires if p(n) then |more| == 1 && fits(n, more[0]) else more == []
    ensures AreAll(next, n + 1, p) && AreAt(found + more, next, fits)
  {
    hide AreAll, AreAt;
    AllNext(at, n, p);
    if p(n) {
      next := at + [n];
      assert more == [more[0]];
      AtNext(found, at, fits, n, more[0]);
    } else {
      next := at;
      assert found + [] == found;
    }
  }

  /** The elements at the positions with the property, in order and nothing else. */
  ghost predicate IsPart<T(!new)>(part: seq<T>, all: seq<T>, p: nat -> bool)
  {
    exists at: seq<nat> :: AreAll(at, |all|, p) && AreAt(part, at, (i: nat, x) => i < |all| && all[i] == x)
  }
}
