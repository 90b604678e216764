/** Appending a block of text once: `append_text` of src/advisor/diff.rs and why it is idempotent. */
module TextBlocks {
  import opened Characters

  predicate IsBlank(s: string)
  {
    forall i :: 0 <= i < |s| ==> IsWhitespace(s[i])
  }

  /** The pieces between newlines; there is always at least one. */
  function Split(s: string): (lines: seq<string>)
    ensures lines != []
  {
    if s == [] then [""]
    else
      var rest := Split(s[1..]);
      if s[0] == '\n' then [""] + rest else [[s[0]] + rest[0]] + rest[1..]
  }

  function TrimEnd(s: string): string
  {
    if s != [] && IsWhitespace(s[|s| - 1]) then TrimEnd(s[..|s| - 1]) else s
  }

  function TrimmedLines(lines: seq<string>): seq<string>
  {
    seq(|lines|, i requires 0 <= i < |lines| => TrimEnd(lines[i]))
  }

  function DropBlankTail(lines: seq<string>): seq<string>
  {
    if lines != [] && lines[|lines| - 1] == [] then DropBlankTail(lines[..|lines| - 1]) else lines
  }

  function NormalizedLines(s: string): seq<string>
  {
    DropBlankTail(TrimmedLines(Split(s)))
  }

  predicate WindowAt(lines: seq<string>, needle: seq<string>, i: nat)
  {
    i + |needle| <= |lines| && lines[i..i + |needle|] == needle
  }

  predicate HasWindow(lines: seq<string>, needle: seq<string>)
  {
    exists i: nat :: i <= |lines| && WindowAt(lines, needle, i)
  }

  lemma WindowAtEnd(before: seq<string>, needle: seq<string>)
    ensures HasWindow(before + needle, needle)
  {
    assert WindowAt(before + needle, needle, |before|);
  }

  predicate ContainsTextBlock(content: string, text: string)
  {
    var needle := NormalizedLines(text);
    needle != [] && HasWindow(NormalizedLines(content), needle)
  }

  predicate EndsWith(s: string, suffix: string)
  {
    |suffix| <= |s| && s[|s| - |suffix|..] == suffix
  }

  /** The newlines that set a new block off from what is already there. */
  function Separated(content: string): string
  {
    var closed := if content != [] && !EndsWith(content, "\n") then content + "\n" else content;
    if closed != [] && !EndsWith(closed, "\n\n") then closed + "\n" else closed
  }

  function Closed(s: string): string
  {
    if EndsWith(s, "\n") then s else s + "\n"
  }

  function Appended(content: string, text: string): string
  {
    if IsBlank(text) || ContainsTextBlock(content, text) then content
    else Closed(Separated(content) + text)
  }

  method AppendText(content: string, text: string) returns (updated: string)
    ensures updated == Appended(content, text)
  {
    hide IsBlank, ContainsTextBlock, EndsWith;
    if IsBlank(text) || ContainsTextBlock(content, text) {
      return content;
    }
    updated := content;
    if updated != [] && !EndsWith(updated, "\n") {
      updated := updated + "\n";
    }
    if updated != [] && !EndsWith(updated, "\n\n") {
      updated := updated + "\n";
    }
    updated := updated + text;
    if !EndsWith(updated, "\n") {
      updated := updated + "\n";
    }
  }

  // ---- Splitting and trimming compose ----

  lemma {:induction false} SplitConcat(a: string, b: string)
    ensures Split(a + "\n" + b) == Split(a) + Split(b)
  {
    if a == [] {
      assert a + "\n" + b == "\n" + b;
      assert ("\n" + b)[1..] == b;
    } else {
      assert (a + "\n" + b)[1..] == a[1..] + "\n" + b;
      SplitConcat(a[1..], b);
    }
  }

  lemma TrimmedConcat(a: seq<string>, b: seq<string>)
    ensures TrimmedLines(a + b) == TrimmedLines(a) + TrimmedLines(b)
  {
    hide TrimEnd;
  }

  /** Blank lines at the end are dropped from the last part alone, unless it is blank throughout. */
  lemma {:induction false} DropBlankTailConcat(a: seq<string>, b: seq<string>)
    requires DropBlankTail(b) != []
    ensures DropBlankTail(a + b) == a + DropBlankTail(b)
  {
    if b[|b| - 1] == [] {
      DropBlankTailConcat(a, b[..|b| - 1]);
      assert (a + b)[..|a + b| - 1] == a + b[..|b| - 1];
    }
  }

  lemma {:induction false} TrimEndBlank(s: string)
    ensures TrimEnd(s) == [] <==> IsBlank(s)
  {
    if s != [] && IsWhitespace(s[|s| - 1]) {
      hide IsWhitespace;
      TrimEndBlank(s[..|s| - 1]);
    }
  }

  ghost predicate AllBlank(lines: seq<string>)
  {
    forall i :: 0 <= i < |lines| ==> IsBlank(lines[i])
  }

  lemma AllBlankCons(first: string, rest: seq<string>)
    ensures AllBlank([first] + rest) <==> IsBlank(first) && AllBlank(rest)
  {
    hide IsBlank;
    assert forall i :: 0 <= i < |rest| ==> ([first] + rest)[i + 1] == rest[i];
    assert ([first] + rest)[0] == first;
  }

  lemma {:induction false} BlankTailIsAll(lines: seq<string>)
    ensures DropBlankTail(TrimmedLines(lines)) == [] <==> AllBlank(lines)
  {
    if lines != [] {
      hide IsBlank, TrimEnd;
      var init, last := lines[..|lines| - 1], lines[|lines| - 1];
      TrimEndBlank(last);
      BlankTailIsAll(init);
      assert TrimmedLines(lines)[..|lines| - 1] == TrimmedLines(init);
    }
  }

  lemma {:induction false} BlankLines(s: string)
    ensures IsBlank(s) <==> AllBlank(Split(s))
  {
    if s == [] {
      assert AllBlank([""]);
    } else {
      BlankLines(s[1..]);
      hide AllBlank, IsBlank;
      BlankCons(s);
      var rest := Split(s[1..]);
      if s[0] == '\n' {
        AllBlankCons("", rest);
        assert IsBlank("") by { NothingIsBlank(); }
      } else {
        BlankCons([s[0]] + rest[0]);
        AllBlankCons([s[0]] + rest[0], rest[1..]);
        AllBlankCons(rest[0], rest[1..]);
        assert rest == [rest[0]] + rest[1..] && ([s[0]] + rest[0])[1..] == rest[0];
      }
    }
  }

  lemma NothingIsBlank()
    ensures IsBlank("")
  {
  }

  lemma BlankCons(s: string)
    requires s != []
    ensures IsBlank(s) <==> IsWhitespace(s[0]) && IsBlank(s[1..])
  {
    hide IsWhitespace;
    assert forall i :: 1 <= i < |s| ==> s[i] == s[1..][i - 1];
  }

  /** A text has normalised lines exactly when something in it is not white space. */
  lemma NeedleIsNonempty(text: string)
    ensures NormalizedLines(text) != [] <==> !IsBlank(text)
  {
    hide Split, IsBlank, DropBlankTail, TrimmedLines, AllBlank;
    BlankTailIsAll(Split(text));
    BlankLines(text);
  }

  // ---- The appended block is found again ----

  lemma NormalizedAfterNewline(before: string, text: string)
    requires !IsBlank(text)
    ensures NormalizedLines(before + "\n" + text) == TrimmedLines(Split(before)) + NormalizedLines(text)
  {
    hide Split, TrimmedLines, DropBlankTail, IsBlank;
    SplitConcat(before, text);
    TrimmedConcat(Split(before), Split(text));
    NeedleIsNonempty(text);
    DropBlankTailConcat(TrimmedLines(Split(before)), TrimmedLines(Split(text)));
  }

  lemma NormalizedClosed(s: string)
    ensures NormalizedLines(s + "\n") == NormalizedLines(s)
  {
    hide Split, TrimmedLines;
    SplitConcat(s, "");
    assert s + "\n" + "" == s + "\n";
    TrimmedConcat(Split(s), Split(""));
    BlankSplit();
    var lines := TrimmedLines(Split(s));
    assert (lines + [""])[..|lines|] == lines;
  }

  lemma BlankSplit()
    ensures TrimmedLines(Split("")) == [""]
  {
  }

  lemma SeparatedEndsInNewline(content: string)
    ensures Separated(content) == [] || EndsWith(Separated(content), "\n")
    ensures Separated(content) == [] <==> content == []
    ensures content <= Separated(content)
  {
  }

  lemma NormalizedAppended(content: string, text: string)
    requires !IsBlank(text) && !ContainsTextBlock(content, text)
    ensures exists before :: NormalizedLines(Appended(content, text)) == before + NormalizedLines(text)
  {
    hide NormalizedLines, IsBlank, ContainsTextBlock, Separated, TrimmedLines, Split;
    var sep := Separated(content);
    SeparatedEndsInNewline(content);
    NormalizedClosed(sep + text);
    if sep == [] {
      assert sep + text == text;
      assert NormalizedLines(Appended(content, text)) == [] + NormalizedLines(text);
    } else {
      var x := sep[..|sep| - 1];
      LastIsNewline(sep);
      NormalizedAfterNewline(x, text);
    }
  }

  lemma LastIsNewline(s: string)
    requires s != [] && EndsWith(s, "\n")
    ensures s == s[..|s| - 1] + "\n"
  {
    assert s[|s| - 1..] == "\n";
  }

  /** After appending, the block is there: it survives splitting, trimming and the removal of trailing blank lines. */
  lemma AppendedIsContained(content: string, text: string)
    requires !IsBlank(text)
    ensures ContainsTextBlock(Appended(content, text), text)
  {
    hide NormalizedLines, HasWindow, Appended, IsBlank;
    NeedleIsNonempty(text);
    if ContainsTextBlock(content, text) {
      AlreadyThere(content, text);
    } else {
      NormalizedAppended(content, text);
      var before :| NormalizedLines(Appended(content, text)) == before + NormalizedLines(text);
      WindowAtEnd(before, NormalizedLines(text));
    }
  }

  lemma AlreadyThere(content: string, text: string)
    requires IsBlank(text) || ContainsTextBlock(content, text)
    ensures Appended(content, text) == content
  {
  }

  /** Appending a second time changes nothing, for every content and every text; and nothing of the content is lost. */
  lemma AppendIsIdempotent(content: string, text: string)
    ensures Appended(Appended(content, text), text) == Appended(content, text)
    ensures content <= Appended(content, text)
  {
    hide NormalizedLines, IsBlank, ContainsTextBlock, Separated, EndsWith;
    SeparatedEndsInNewline(content);
    if !IsBlank(text) {
      AppendedIsContained(content, text);
    }
    hide Appended;
    AlreadyThere(Appended(content, text), text);
    PrefixKept(content, text);
  }

  lemma PrefixKept(content: string, text: string)
    ensures content <= Appended(content, text)
  {
    hide NormalizedLines, IsBlank, ContainsTextBlock, Separated, EndsWith;
    SeparatedEndsInNewline(content);
  }
}
