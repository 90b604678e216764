/** Strict total orders: characters, strings, paths, and what sorting by one determines. */
module Order {
  import opened Slices

  ghost predicate StrictTotal<T(!new)>(less: (T, T) -> bool)
  {
    && (forall a :: !less(a, a))
    && (forall a, b, c :: less(a, b) && less(b, c) ==> less(a, c))
    && (forall a, b :: less(a, b) || a == b || less(b, a))
  }

  lemma Trichotomy<T(!new)>(less: (T, T) -> bool, a: T, b: T)
    requires StrictTotal(less)
    ensures less(a, b) || a == b || less(b, a)
  {
  }

  /** Lexicographic order on sequences, a proper prefix first. */
  predicate Lex<T(==)>(less: (T, T) -> bool, a: seq<T>, b: seq<T>)
  {
    if a == [] then b != []
    else if b == [] then false
    else if a[0] != b[0] then less(a[0], b[0])
    else Lex(less, a[1..], b[1..])
  }

  ghost predicate DifferFirstAt<T(!new)>(less: (T, T) -> bool, a: seq<T>, b: seq<T>, k: nat)
  {
    k < |a| && k < |b| && a[..k] == b[..k] && a[k] != b[k] && less(a[k], b[k])
  }

  lemma HeadsAgree<T(!new)>(a: seq<T>, b: seq<T>, k: nat)
    requires 0 < k <= |a| && k <= |b| && a[..k] == b[..k]
    ensures a[0] == b[0]
  {
    assert a[..k][0] == b[..k][0];
  }

  /** One is a proper prefix of the other, or is less where they first differ. */
  lemma {:induction false} LexIs<T(!new)>(less: (T, T) -> bool, a: seq<T>, b: seq<T>)
    ensures Lex(less, a, b) <==> a < b || exists k: nat :: DifferFirstAt(less, a, b, k)
  {
    if a != [] && b != [] && a[0] == b[0] {
      var s, t := a[1..], b[1..];
      LexIs(less, s, t);
      assert a == [a[0]] + s && b == [b[0]] + t;
      if k: nat :| DifferFirstAt(less, s, t, k) {
        assert a[..k + 1] == [a[0]] + s[..k] && b[..k + 1] == [b[0]] + t[..k];
        assert DifferFirstAt(less, a, b, k + 1);
      }
      if k: nat :| DifferFirstAt(less, a, b, k) {
        assert s[..k - 1] == a[..k][1..] && t[..k - 1] == b[..k][1..];
        assert DifferFirstAt(less, s, t, k - 1);
      }
    } else if a != [] && b != [] {
      assert a[..0] == b[..0];
      assert less(a[0], b[0]) ==> DifferFirstAt(less, a, b, 0);
      forall k: nat | DifferFirstAt(less, a, b, k) ensures k == 0 {
        if k > 0 {
          HeadsAgree(a, b, k);
          assert false;
        }
      }
    }
  }

  predicate CharLess(a: char, b: char) { a < b }

  predicate StringLess(a: string, b: string) { Lex(CharLess, a, b) }

  /** A path is its sequence of components, compared component by component. */
  type Path = seq<string>

  predicate PathLess(a: Path, b: Path) { Lex(StringLess, a, b) }

  lemma {:induction false} LexTrichotomy<T(!new)>(less: (T, T) -> bool, a: seq<T>, b: seq<T>)
    requires StrictTotal(less)
    ensures Lex(less, a, b) || a == b || Lex(less, b, a)
    ensures !(Lex(less, a, b) && (a == b || Lex(less, b, a)))
  {
    if a != [] && b != [] && a[0] == b[0] {
      LexTrichotomy(less, a[1..], b[1..]);
      if a[1..] == b[1..] {
        assert a == [a[0]] + a[1..] && b == [b[0]] + b[1..];
      }
    }
  }

  lemma {:induction false} LexTransitive<T(!new)>(less: (T, T) -> bool, a: seq<T>, b: seq<T>, c: seq<T>)
    requires StrictTotal(less) && Lex(less, a, b) && Lex(less, b, c)
    ensures Lex(less, a, c)
  {
    if a != [] && a[0] == b[0] == c[0] {
      LexTransitive(less, a[1..], b[1..], c[1..]);
    }
  }

  lemma LexStrictTotal<T(!new)>(less: (T, T) -> bool)
    requires StrictTotal(less)
    ensures StrictTotal((a, b) => Lex(less, a, b))
  {
    var lex := (a, b) => Lex(less, a, b);
    forall a: seq<T>, b: seq<T> ensures lex(a, b) || a == b || lex(b, a) {
      LexTrichotomy(less, a, b);
    }
    forall a: seq<T> ensures !lex(a, a) {
      LexTrichotomy(less, a, a);
    }
    forall a: seq<T>, b: seq<T>, c: seq<T> | lex(a, b) && lex(b, c) ensures lex(a, c) {
      LexTransitive(less, a, b, c);
    }
  }

  lemma StringOrder()
    ensures StrictTotal(StringLess)
  {
    LexStrictTotal(CharLess);
    var lex := (a, b) => Lex(CharLess, a, b);
    assert forall a, b :: StringLess(a, b) == lex(a, b);
  }

  lemma StringsCompare(a: string, b: string)
    ensures StringLess(a, b) || a == b || StringLess(b, a)
    ensures !(StringLess(a, b) && (a == b || StringLess(b, a)))
  {
    LexTrichotomy(CharLess, a, b);
  }

  lemma StringLessTransitive(a: string, b: string, c: string)
    requires StringLess(a, b) && StringLess(b, c)
    ensures StringLess(a, c)
  {
    LexTransitive(CharLess, a, b, c);
  }

  lemma PathOrder()
    ensures StrictTotal(PathLess)
  {
    StringOrder();
    LexStrictTotal(StringLess);
    var lex := (a, b) => Lex(StringLess, a, b);
    assert forall a, b :: PathLess(a, b) == lex(a, b);
  }

  // ---- Sorted sequences without ties ----

  ghost predicate StrictlySorted<T(!new)>(less: (T, T) -> bool, s: seq<T>)
  {
    forall i, j :: 0 <= i < j < |s| ==> less(s[i], s[j])
  }

  /** Two strictly sorted sequences of the same elements are the same sequence. */
  lemma {:induction false} SortedUnique<T(!new)>(less: (T, T) -> bool, a: seq<T>, b: seq<T>)
    requires StrictTotal(less) && StrictlySorted(less, a) && StrictlySorted(less, b)
    requires forall x :: x in a <==> x in b
    ensures a == b
  {
    assert b != [] ==> b[0] in b;
    if a != [] {
      assert a[0] in b && b[0] in a;
      var i :| 0 <= i < |b| && b[i] == a[0];
      var j :| 0 <= j < |a| && a[j] == b[0];
      assert a[0] == b[0];
      forall x ensures x in a[1..] <==> x in b[1..] {
        assert x in a <==> x == a[0] || x in a[1..];
        assert x in b <==> x == b[0] || x in b[1..];
        if x in a[1..] {
          var k :| 0 <= k < |a[1..]| && a[1..][k] == x;
          assert less(a[0], a[k + 1]);
        }
        if x in b[1..] {
          var k :| 0 <= k < |b[1..]| && b[1..][k] == x;
          assert less(b[0], b[k + 1]);
        }
      }
      SortedUnique(less, a[1..], b[1..]);
      assert a == [a[0]] + a[1..] && b == [b[0]] + b[1..];
    }
  }

  // ---- Stable sorting ----

  /** What a comparison needs for sorting: ties may occur, but being tied is an equivalence. */
  ghost predicate StrictWeak<T(!new)>(less: (T, T) -> bool)
  {
    && (forall a :: !less(a, a))
    && (forall a, b, c :: less(a, b) && less(b, c) ==> less(a, c))
    && (forall a, b, c :: less(a, c) ==> less(a, b) || less(b, c))
  }

  ghost predicate SortedBy<T(!new)>(less: (T, T) -> bool, s: seq<T>)
  {
    forall i, j :: 0 <= i < j < |s| ==> !less(s[j], s[i])
  }

  /** Goes in front of the elements that are greater, behind the ones it is tied with. */
  function InsertInto<T>(less: (T, T) -> bool, s: seq<T>, x: T): seq<T>
  {
    if s == [] || !less(x, s[|s| - 1]) then s + [x]
    else InsertInto(less, s[..|s| - 1], x) + [s[|s| - 1]]
  }

  function Sort<T>(less: (T, T) -> bool, s: seq<T>): seq<T>
  {
    if s == [] then [] else InsertInto(less, Sort(less, s[..|s| - 1]), s[|s| - 1])
  }

  lemma {:induction false} InsertIntoElements<T(!new)>(less: (T, T) -> bool, s: seq<T>, x: T)
    ensures multiset(InsertInto(less, s, x)) == multiset(s) + multiset{x}
  {
    if s != [] && less(x, s[|s| - 1]) {
      InsertIntoElements(less, s[..|s| - 1], x);
      Snoc(s);
    }
  }

  lemma {:induction false} InsertIntoIs<T(!new)>(less: (T, T) -> bool, s: seq<T>, x: T)
    requires StrictWeak(less) && SortedBy(less, s)
    ensures SortedBy(less, InsertInto(less, s, x))
    ensures multiset(InsertInto(less, s, x)) == multiset(s) + multiset{x}
  {
    InsertIntoElements(less, s, x);
    if s != [] && less(x, s[|s| - 1]) {
      var init, last := s[..|s| - 1], s[|s| - 1];
      Snoc(s);
      InsertIntoIs(less, init, x);
      SortedSnoc(less, InsertInto(less, init, x), last, init, x);
    } else if s != [] {
      hide InsertInto;
      assert forall i :: 0 <= i < |s| ==> !less(x, s[i]);
    }
  }

  lemma SortedSnoc<T(!new)>(less: (T, T) -> bool, r: seq<T>, last: T, init: seq<T>, x: T)
    requires StrictWeak(less) && SortedBy(less, r) && SortedBy(less, init + [last]) && less(x, last)
    requires multiset(r) == multiset(init) + multiset{x}
    ensures SortedBy(less, r + [last])
  {
    forall i | 0 <= i < |r| ensures !less(last, r[i]) {
      assert r[i] in multiset(r);
      if r[i] in init {
        var k :| 0 <= k < |init| && init[k] == r[i];
        assert !less((init + [last])[|init|], (init + [last])[k]);
      }
    }
  }

  lemma NothingSorted<T(!new)>(less: (T, T) -> bool)
    ensures SortedBy(less, [])
  {
  }

  lemma {:induction false} SortIs<T(!new)>(less: (T, T) -> bool, s: seq<T>)
    requires StrictWeak(less)
    ensures SortedBy(less, Sort(less, s)) && multiset(Sort(less, s)) == multiset(s)
  {
    if s != [] {
      hide StrictWeak, SortedBy;
      assert SortedBy(less, []) by { NothingSorted(less); }
      SortIs(less, s[..|s| - 1]);
      InsertIntoIs(less, Sort(less, s[..|s| - 1]), s[|s| - 1]);
      Snoc(s);
    }
  }

  /** The elements that are neither less nor greater, in order. */
  function TiedWith<T>(less: (T, T) -> bool, s: seq<T>, x: T): seq<T>
  {
    if s == [] then []
    else
      var last := s[|s| - 1];
      TiedWith(less, s[..|s| - 1], x) + if less(last, x) || less(x, last) then [] else [last]
  }

  lemma TiedSnoc<T>(less: (T, T) -> bool, s: seq<T>, last: T, x: T)
    ensures TiedWith(less, s + [last], x) ==
            TiedWith(less, s, x) + if less(last, x) || less(x, last) then [] else [last]
  {
    assert (s + [last])[..|s|] == s;
  }

  lemma NotBothTied<T(!new)>(less: (T, T) -> bool, e: T, last: T, x: T)
    requires StrictWeak(less) && less(e, last)
    ensures less(last, x) || less(x, last) || less(e, x) || less(x, e)
  {
  }

  lemma InsertedBefore<T>(less: (T, T) -> bool, init: seq<T>, last: T, e: T)
    requires less(e, last)
    ensures InsertInto(less, init + [last], e) == InsertInto(less, init, e) + [last]
  {
    assert (init + [last])[..|init|] == init;
  }

  lemma InsertedLast<T>(less: (T, T) -> bool, s: seq<T>, e: T)
    requires s == [] || !less(e, s[|s| - 1])
    ensures InsertInto(less, s, e) == s + [e]
  {
  }

  lemma SortedInit<T(!new)>(less: (T, T) -> bool, init: seq<T>, last: T)
    requires SortedBy(less, init + [last])
    ensures SortedBy(less, init)
  {
    assert forall i :: 0 <= i < |init| ==> (init + [last])[i] == init[i];
  }

  lemma {:induction false} InsertedBehindTied<T(!new)>(less: (T, T) -> bool, s: seq<T>, e: T, x: T)
    requires StrictWeak(less) && SortedBy(less, s)
    ensures TiedWith(less, InsertInto(less, s, e), x) == TiedWith(less, s + [e], x)
  {
    hide *;
    if s != [] && less(e, s[|s| - 1]) {
      var init, last := s[..|s| - 1], s[|s| - 1];
      assert s == init + [last];
      SortedInit(less, init, last);
      InsertedBehindTied(less, init, e, x);
      InsertedBefore(less, init, last, e);
      TiedSnoc(less, InsertInto(less, init, e), last, x);
      TiedSnoc(less, init, e, x);
      TiedSnoc(less, init, last, x);
      TiedSnoc(less, s, e, x);
      NotBothTied(less, e, last, x);
      assert TiedWith(less, init, x) + [] == TiedWith(less, init, x);
    } else {
      InsertedLast(less, s, e);
    }
  }

  /** Sorting keeps the order of elements that are tied. */
  lemma {:induction false} SortIsStable<T(!new)>(less: (T, T) -> bool, s: seq<T>, x: T)
    requires StrictWeak(less)
    ensures TiedWith(less, Sort(less, s), x) == TiedWith(less, s, x)
  {
    if s != [] {
      hide StrictWeak, SortedBy, InsertInto;
      var init, last := s[..|s| - 1], s[|s| - 1];
      SortIsStable(less, init, x);
      SortIs(less, init);
      InsertedBehindTied(less, Sort(less, init), last, x);
      TiedSnoc(less, Sort(less, init), last, x);
      TiedSnoc(less, init, last, x);
    }
  }
}
