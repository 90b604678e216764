/** Which byte sequences are UTF-8 (section 4 of RFC 3629), and cutting one short, src/instructions.rs. */
module Utf8 {
  import opened Wrappers
  import opened Bytes

  /** How many bytes a character starting with `b` has; 0 when none starts so. */
  function Width(b: byte): (w: nat)
    ensures w <= 4
  {
    if b < 0x80 then 1
    else if 0xC2 <= b <= 0xDF then 2
    else if 0xE0 <= b <= 0xEF then 3
    else if 0xF0 <= b <= 0xF4 then 4
    else 0
  }

  /** Whether `b` may be byte number `i` of a character that starts with `first`. */
  predicate Follows(first: byte, i: nat, b: byte)
  {
    if i == 1 && first == 0xE0 then 0xA0 <= b <= 0xBF
    else if i == 1 && first == 0xED then 0x80 <= b <= 0x9F
    else if i == 1 && first == 0xF0 then 0x90 <= b <= 0xBF
    else if i == 1 && first == 0xF4 then 0x80 <= b <= 0x8F
    else 0x80 <= b <= 0xBF
  }

  datatype Char = Whole(width: nat) | CutOff | Malformed

  function RestOfChar(s: Bytes, w: nat, i: nat): (c: Char)
    requires 0 < i <= w && i <= |s|
    ensures c.Whole? ==> c.width == w <= |s|
    ensures c.CutOff? ==> |s| < w
    decreases w - i
  {
    if i == w then Whole(w)
    else if i == |s| then CutOff
    else if !Follows(s[0], i, s[i]) then Malformed
    else RestOfChar(s, w, i + 1)
  }

  function FirstChar(s: Bytes): (c: Char)
    requires s != []
    ensures c.Whole? ==> 0 < c.width <= |s|
    ensures c.CutOff? ==> |s| <= 3
  {
    if Width(s[0]) == 0 then Malformed else RestOfChar(s, Width(s[0]), 1)
  }

  datatype End = Clean | Incomplete | Invalid

  /** How far the bytes are UTF-8, and why no further. */
  function Scan(s: Bytes): (r: (nat, End))
    ensures r.0 <= |s| && (r.1 == Clean <==> r.0 == |s|)
    ensures r.1 == Incomplete ==> |s| - r.0 <= 3
  {
    if s == [] then (0, Clean)
    else
      match FirstChar(s)
      case Whole(w) => var (upTo, end) := Scan(s[w..]); (w + upTo, end)
      case CutOff => (0, Incomplete)
      case Malformed => (0, Invalid)
  }

  predicate IsUtf8(s: Bytes)
  {
    Scan(s).1 == Clean
  }

  // ---- Prefixes ----

  lemma {:induction false} RestOfPrefix(s: Bytes, k: nat, w: nat, i: nat)
    requires 0 < i <= w && i <= k <= |s|
    ensures var c := RestOfChar(s, w, i);
            RestOfChar(s[..k], w, i) == if c.CutOff? || (c.Whole? && k < w) then CutOff else RestOfChar(s[..k], w, i)
    ensures RestOfChar(s, w, i).Whole? && w <= k ==> RestOfChar(s[..k], w, i) == Whole(w)
    ensures RestOfChar(s, w, i).Malformed? ==> !RestOfChar(s[..k], w, i).Whole?
    decreases w - i
  {
    if i < w && i < k {
      assert s[..k][i] == s[i] && s[..k][0] == s[0];
      if Follows(s[0], i, s[i]) {
        RestOfPrefix(s, k, w, i + 1);
      }
    }
  }

  lemma FirstOfPrefix(s: Bytes, k: nat)
    requires 0 < k <= |s|
    ensures match FirstChar(s)
            case Whole(w) => FirstChar(s[..k]) == if w <= k then Whole(w) else CutOff
            case CutOff => FirstChar(s[..k]) == CutOff
            case Malformed => !FirstChar(s[..k]).Whole?
  {
    if Width(s[0]) != 0 {
      RestOfPrefix(s, k, Width(s[0]), 1);
    }
  }

  /** A prefix of bytes that are not invalid is not invalid, and beyond where the bytes are UTF-8 no prefix is. */
  lemma {:induction false} ScanOfPrefix(s: Bytes, k: nat)
    requires k <= |s|
    ensures Scan(s).1 != Invalid ==> Scan(s[..k]).1 != Invalid
    ensures Scan(s).0 < k ==> Scan(s[..k]).1 != Clean
  {
    if k > 0 {
      FirstOfPrefix(s, k);
      hide FirstChar;
      var first := FirstChar(s);
      if first.Whole? && first.width <= k {
        var w := first.width;
        assert s[..k][w..] == s[w..][..k - w];
        ScanOfPrefix(s[w..], k - w);
      }
    }
  }

  lemma {:induction false} ValidPrefixScans(s: Bytes)
    ensures IsUtf8(s[..Scan(s).0])
  {
    if s != [] && FirstChar(s).Whole? {
      var w := FirstChar(s).width;
      var u := Scan(s).0;
      ValidPrefixScans(s[w..]);
      FirstOfPrefix(s, u);
      hide FirstChar;
      assert s[..u][w..] == s[w..][..u - w];
    }
  }

  // ---- Cutting short ----

  /**
   * At most `limit` bytes, without the beginning of a character that was cut in two; nothing when what remains is
   * invalid.
   */
  method TruncateUtf8(bytes: Bytes, limit: nat) returns (cut: Option<Bytes>)
    ensures var taken := bytes[..Min(limit, |bytes|)];
            match cut
            case Some(c) => IsUtf8(c) && c <= taken && |taken| - |c| <= 3
                            && forall k :: |c| < k <= |taken| ==> !IsUtf8(bytes[..k])
            case None => Scan(taken).1 == Invalid
    ensures IsUtf8(bytes) ==> cut.Some?
    ensures cut == Truncated(bytes, limit)
  {
    var taken := bytes[..Min(limit, |bytes|)];
    ScanOfPrefix(bytes, |taken|);
    ValidPrefixScans(taken);
    forall k | Scan(taken).0 < k <= |taken| ensures !IsUtf8(bytes[..k]) {
      ScanOfPrefix(taken, k);
      assert taken[..k] == bytes[..k];
    }
    var (upTo, end) := Scan(taken);
    if end == Clean {
      assert taken[..upTo] == taken;
      cut := Some(taken);
    } else if end == Incomplete {
      cut := Some(taken[..upTo]);
    } else {
      cut := None;
    }
  }

  function Truncated(bytes: Bytes, limit: nat): Option<Bytes>
  {
    var taken := bytes[..Min(limit, |bytes|)];
    var (upTo, end) := Scan(taken);
    if end == Invalid then None else Some(taken[..upTo])
  }

  /**
   * UTF-8 text can be cut anywhere: it stays UTF-8, it loses at most three bytes more than asked, and never more than
   * needed.
   */
  lemma TextCanBeCut(text: Bytes, limit: nat)
    requires IsUtf8(text)
    ensures var cut := Truncated(text, limit);
            && cut.Some? && IsUtf8(cut.value) && cut.value <= text
            && |cut.value| <= limit && Min(limit, |text|) - |cut.value| <= 3
            && forall k :: |cut.value| < k <= Min(limit, |text|) ==> !IsUtf8(text[..k])
  {
    var taken := text[..Min(limit, |text|)];
    ScanOfPrefix(text, |taken|);
    ValidPrefixScans(taken);
    forall k | Scan(taken).0 < k <= |taken| ensures !IsUtf8(text[..k]) {
      ScanOfPrefix(taken, k);
      assert taken[..k] == text[..k];
    }
  }

  /** Whatever the bytes, what is kept of them is UTF-8 and no longer than asked. */
  lemma TruncatedIsUtf8(bytes: Bytes, limit: nat)
    ensures var cut := Truncated(bytes, limit); cut.Some? ==>
        IsUtf8(cut.value) && cut.value <= bytes && |cut.value| <= limit
  {
    ValidPrefixScans(bytes[..Min(limit, |bytes|)]);
  }

  // ---- Where bytes can be cut ----

  /** A byte that may come next in a character that starts with `first`. */
  function NextByte(first: byte, i: nat): (b: byte)
    ensures Follows(first, i, b)
  {
    if i == 1 && first == 0xE0 then 0xA0 else if i == 1 && first == 0xF0 then 0x90 else 0x80
  }

  lemma {:induction false} CharContinues(s: Bytes, t: Bytes, w: nat, i: nat)
    requires 0 < i <= w && i <= |s| <= |t| && t[..|s|] == s && RestOfChar(s, w, i).CutOff?
    ensures RestOfChar(t, w, i) == RestOfChar(t, w, |s|)
    decreases w - i
  {
    hide Follows;
    if i < |s| {
      assert t[i] == s[i] && t[0] == s[0];
      CharContinues(s, t, w, i + 1);
    }
  }

  lemma {:induction false} RestOfPadded(s: Bytes, w: nat) returns (rest: Bytes)
    requires 0 < |s| <= w
    ensures RestOfChar(s + rest, w, |s|) == Whole(w) && |s + rest| == w
    decreases w - |s|
  {
    if |s| == w {
      rest := [];
    } else {
      var more := s + [NextByte(s[0], |s|)];
      var others := RestOfPadded(more, w);
      rest := [NextByte(s[0], |s|)] + others;
      assert s + rest == more + others;
      assert (s + rest)[|s|] == NextByte(s[0], |s|) && (s + rest)[0] == s[0];
    }
  }

  lemma CharIsCompleted(s: Bytes) returns (rest: Bytes)
    requires s != [] && FirstChar(s).CutOff?
    ensures FirstChar(s + rest) == Whole(|s + rest|)
  {
    var w := Width(s[0]);
    rest := RestOfPadded(s, w);
    assert (s + rest)[..|s|] == s && (s + rest)[0] == s[0];
    CharContinues(s, s + rest, w, 1);
  }

  /** Bytes are not invalid exactly when some continuation makes them UTF-8. */
  lemma {:induction false} NotInvalidIff(s: Bytes)
    ensures Scan(s).1 != Invalid <==> exists rest :: IsUtf8(s + rest)
  {
    if rest :| IsUtf8(s + rest) {
      ScanOfPrefix(s + rest, |s|);
      assert (s + rest)[..|s|] == s;
    }
    if Scan(s).1 != Invalid {
      var rest := Completed(s);
    }
  }

  lemma {:induction false} Completed(s: Bytes) returns (rest: Bytes)
    requires Scan(s).1 != Invalid
    ensures IsUtf8(s + rest)
  {
    if s == [] {
      rest := [];
    } else {
      var first := FirstChar(s);
      if first.Whole? {
        rest := Completed(s[first.width..]);
        FirstOfPrefix(s + rest, |s|);
        hide FirstChar;
        assert (s + rest)[..|s|] == s && (s + rest)[first.width..] == s[first.width..] + rest;
      } else {
        rest := CharIsCompleted(s);
        hide FirstChar;
        assert (s + rest)[|s + rest|..] == [];
      }
    }
  }

  /** What comes within the limit is the beginning of some UTF-8 text. */
  ghost predicate CanBeCut(bytes: Bytes, limit: nat)
  {
    exists rest :: IsUtf8(bytes[..Min(limit, |bytes|)] + rest)
  }

  /** The longest UTF-8 text within the limit. */
  ghost predicate IsCut(cut: Bytes, bytes: Bytes, limit: nat)
  {
    && IsUtf8(cut) && |cut| <= limit && cut <= bytes
    && forall k :: |cut| < k <= Min(limit, |bytes|) ==> !IsUtf8(bytes[..k])
  }

  lemma CutIs(bytes: Bytes, limit: nat)
    ensures Truncated(bytes, limit).Some? <==> CanBeCut(bytes, limit)
    ensures Truncated(bytes, limit).Some? ==> IsCut(Truncated(bytes, limit).value, bytes, limit)
  {
    var taken := bytes[..Min(limit, |bytes|)];
    NotInvalidIff(taken);
    TruncatedIsUtf8(bytes, limit);
    forall k | Scan(taken).0 < k <= |taken| ensures !IsUtf8(bytes[..k]) {
      ScanOfPrefix(taken, k);
      assert taken[..k] == bytes[..k];
    }
    hide Scan;
  }

  // ---- Encoding ----

  /** Every code point but the surrogates. */
  predicate IsScalar(c: int)
  {
    0 <= c < 0xD800 || 0xE000 <= c < 0x11_0000
  }

  function Encode(c: int): (s: Bytes)
    requires IsScalar(c)
    ensures s != []
  {
    if c < 0x80 then [c as byte]
    else if c < 0x800 then [(0xC0 + c / 64) as byte, (0x80 + c % 64) as byte]
    else if c < 0x1_0000 then [(0xE0 + c / 4096) as byte, (0x80 + c / 64 % 64) as byte, (0x80 + c % 64) as byte]
    else [(0xF0 + c / 262_144) as byte, (0x80 + c / 4096 % 64) as byte, (0x80 + c / 64 % 64) as byte,
        (0x80 + c % 64) as byte]
  }

  ghost predicate AreScalars(text: seq<int>)
  {
    forall i :: 0 <= i < |text| ==> IsScalar(text[i])
  }

  function EncodeAll(text: seq<int>): Bytes
    requires AreScalars(text)
  {
    if text == [] then [] else Encode(text[0]) + EncodeAll(text[1..])
  }

  /** Why the second byte of a longer character stays in its range. */
  lemma EncodeSecondByte(c: int)
    requires IsScalar(c)
    ensures 0x800 <= c < 0x1000 ==> 0x20 <= c / 64 % 64
    ensures 0xD000 <= c < 0xD800 ==> c / 64 % 64 < 0x20
    ensures 0x1_0000 <= c < 0x4_0000 ==> 0x10 <= c / 4096 % 64
    ensures 0x10_0000 <= c ==> c / 4096 % 64 < 0x10
  {
  }

  lemma EncodedIsWhole(c: int, rest: Bytes)
    requires IsScalar(c)
    ensures FirstChar(Encode(c) + rest) == Whole(|Encode(c)|)
  {
    EncodeSecondByte(c);
    var s := Encode(c) + rest;
    var w := |Encode(c)|;
    assert Width(s[0]) == w;
    RestIsWhole(s, w, 1);
  }

  lemma {:induction false} RestIsWhole(s: Bytes, w: nat, i: nat)
    requires 0 < i <= w <= |s| && forall k :: i <= k < w ==> Follows(s[0], k, s[k])
    ensures RestOfChar(s, w, i) == Whole(w)
    decreases w - i
  {
    hide Follows;
    if i < w {
      RestIsWhole(s, w, i + 1);
    }
  }

  lemma {:induction false} WholeFollows(s: Bytes, w: nat, i: nat)
    requires 0 < i <= w && i <= |s| && RestOfChar(s, w, i).Whole?
    ensures w <= |s| && forall k :: i <= k < w ==> Follows(s[0], k, s[k])
    decreases w - i
  {
    hide Follows;
    if i < w {
      WholeFollows(s, w, i + 1);
    }
  }

  lemma Parts(a: int, b: int, d: int, e: int)
    requires 0 <= b < 64 && 0 <= d < 64 && 0 <= e < 64 && 0 <= a
    ensures var c := a * 262_144 + b * 4096 + d * 64 + e;
            c / 262_144 == a && c / 4096 % 64 == b && c / 64 % 64 == d && c % 64 == e
  {
    var c := a * 262_144 + b * 4096 + d * 64 + e;
    assert c / 64 == a * 4096 + b * 64 + d;
    assert c / 4096 == a * 64 + b;
  }

  lemma TwoBytes(a: int, e: int)
    requires 2 <= a < 32 && 0 <= e < 64
    ensures var c := a * 64 + e; IsScalar(c) && Encode(c) == [(0xC0 + a) as byte, (0x80 + e) as byte]
  {
    Parts(0, 0, a, e);
  }

  lemma ThreeBytes(a: int, d: int, e: int)
    requires 0 <= a < 16 && 0 <= d < 64 && 0 <= e < 64 && (a == 0 ==> 32 <= d) && (a == 13 ==> d < 32)
    ensures var c := a * 4096 + d * 64 + e;
            IsScalar(c) && Encode(c) == [(0xE0 + a) as byte, (0x80 + d) as byte, (0x80 + e) as byte]
  {
    Parts(0, a, d, e);
    assert (a * 4096 + d * 64 + e) / 4096 == a;
  }

  lemma FourBytes(a: int, b: int, d: int, e: int)
    requires 0 <= a <= 4 && 0 <= b < 64 && 0 <= d < 64 && 0 <= e < 64 && (a == 0 ==> 16 <= b) && (a == 4 ==> b < 16)
    ensures var c := a * 262_144 + b * 4096 + d * 64 + e;
            IsScalar(c) && Encode(c) == [(0xF0 + a) as byte, (0x80 + b) as byte, (0x80 + d) as byte, (0x80 + e) as byte]
  {
    Parts(a, b, d, e);
  }

  /** The code point of a whole character. */
  lemma WholeIsEncoded(s: Bytes) returns (c: int)
    requires s != [] && FirstChar(s).Whole?
    ensures IsScalar(c) && Encode(c) == s[..FirstChar(s).width]
  {
    hide Encode, IsScalar;
    var w := Width(s[0]);
    WholeFollows(s, w, 1);
    var b := s[0] as int;
    if w == 1 {
      c := b;
      OneByte(b);
    } else {
      assert Follows(s[0], 1, s[1]);
      var second := s[1] as int - 0x80;
      if w == 2 {
        c := (b - 0xC0) * 64 + second;
        TwoBytes(b - 0xC0, second);
      } else {
        assert Follows(s[0], 2, s[2]);
        var third := s[2] as int - 0x80;
        if w == 3 {
          c := (b - 0xE0) * 4096 + second * 64 + third;
          ThreeBytes(b - 0xE0, second, third);
        } else {
          assert Follows(s[0], 3, s[3]);
          c := (b - 0xF0) * 262_144 + second * 4096 + third * 64 + (s[3] as int - 0x80);
          FourBytes(b - 0xF0, second, third, s[3] as int - 0x80);
        }
      }
    }
  }

  lemma OneByte(c: int)
    requires 0 <= c < 0x80
    ensures IsScalar(c) && Encode(c) == [c as byte]
  {
  }

  lemma {:induction false} EncodedTextIsUtf8(text: seq<int>)
    requires AreScalars(text)
    ensures IsUtf8(EncodeAll(text))
  {
    if text != [] {
      var first, rest := Encode(text[0]), EncodeAll(text[1..]);
      EncodedIsWhole(text[0], rest);
      EncodedTextIsUtf8(text[1..]);
      hide Encode, FirstChar;
      assert (first + rest)[|first|..] == rest;
    }
  }

  lemma {:induction false} Utf8TextIsEncoded(s: Bytes) returns (text: seq<int>)
    requires IsUtf8(s)
    ensures AreScalars(text) && EncodeAll(text) == s
  {
    text := [];
    if s != [] {
      var w := FirstChar(s).width;
      var c := WholeIsEncoded(s);
      hide Encode, FirstChar, IsScalar;
      var rest := Utf8TextIsEncoded(s[w..]);
      text := [c] + rest;
      assert text[1..] == rest && s == s[..w] + s[w..];
    }
  }

  /** The bytes called UTF-8 here are exactly the encodings of sequences of code points (section 3 of RFC 3629). */
  lemma Utf8IffEncoded(s: Bytes)
    ensures IsUtf8(s) <==> exists text :: AreScalars(text) && EncodeAll(text) == s
  {
    hide AreScalars, EncodeAll, Scan;
    if IsUtf8(s) {
      var text := Utf8TextIsEncoded(s);
    }
    if text :| AreScalars(text) && EncodeAll(text) == s {
      EncodedTextIsUtf8(text);
    }
  }
}
