/** Command lines as people write them: quotes, escapes, and wrappers with their options, src/analysis.rs. */
module CommandLines {
  import opened Characters
  import opened Wrappers
  import opened Commands

  // ---- Words ----

  /** A stretch of a word, spelled in one way. */
  datatype Part = Bare(text: string) | Backslashed(text: string) | InSingle(text: string) | InDouble(text: string)

  predicate IsPlain(c: char)
  {
    c != '\'' && c != '"' && c != '\\' && !IsWhitespace(c)
  }

  /** Single quotes can hold everything but themselves. */
  predicate CanBe(part: Part)
  {
    match part
    case Bare(text) => forall i :: 0 <= i < |text| ==> IsPlain(text[i])
    case InSingle(text) => '\'' !in text
    case Backslashed(_) => true
    case InDouble(_) => true
  }

  /** Between double quotes a backslash comes before a double quote and before a backslash. */
  function Guarded(text: string): string
  {
    if text == "" then ""
    else
      var c := text[|text| - 1];
      Guarded(text[..|text| - 1]) + if c == '"' || c == '\\' then "\\" + [c] else [c]
  }

  function Spelled(part: Part): string
  {
    match part
    case Bare(text) => text
    case Backslashed(text) => Escaped(text)
    case InSingle(text) => "'" + text + "'"
    case InDouble(text) => "\"" + Guarded(text) + "\""
  }

  function SpelledWord(word: seq<Part>): string
  {
    if word == [] then "" else SpelledWord(word[..|word| - 1]) + Spelled(word[|word| - 1])
  }

  function TextOf(word: seq<Part>): string
  {
    if word == [] then "" else TextOf(word[..|word| - 1]) + word[|word| - 1].text
  }

  predicate AreSpelled(word: seq<Part>)
  {
    forall i :: 0 <= i < |word| ==> CanBe(word[i])
  }

  predicate IsUnquoted(s: Scan)
  {
    s.quote.None? && !s.escaped
  }

  lemma FeedOne(s: Scan, c: char)
    ensures Feed(s, [c]) == Step(s, c)
  {
    hide Step;
    assert [c][1..] == "";
    assert Feed(Step(s, c), "") == Step(s, c);
  }

  lemma PlainStep(s: Scan, c: char)
    requires IsUnquoted(s) && IsPlain(c)
    ensures Step(s, c) == s.(token := s.token + [c])
  {
    hide IsWhitespace;
  }

  lemma {:induction false} FeedPlain(s: Scan, text: string)
    requires IsUnquoted(s) && forall i :: 0 <= i < |text| ==> IsPlain(text[i])
    ensures Feed(s, text) == s.(token := s.token + text)
  {
    hide Feed, Step, IsPlain;
    if text == "" {
      FeedNothing(s);
      assert s.token + "" == s.token;
    } else {
      var init, c := text[..|text| - 1], text[|text| - 1];
      FeedPlain(s, init);
      FeedConcat(s, init, [c]);
      FeedOne(s.(token := s.token + init), c);
      PlainStep(s.(token := s.token + init), c);
      assert text == init + [c] && s.token + text == (s.token + init) + [c];
    }
  }

  lemma QuotedStep(s: Scan, c: char)
    requires s.quote.Some? && !s.escaped && (s.quote == Some('\'') || s.quote == Some('"'))
    ensures c == s.quote.value ==> Step(s, c) == s.(quote := None)
    ensures c != s.quote.value && (c != '\\' || s.quote == Some('\'')) ==> Step(s, c) == s.(token := s.token + [c])
    ensures c == '\\' && s.quote == Some('"') ==> Step(s, c) == s.(escaped := true)
  {
    hide IsWhitespace;
  }

  lemma {:induction false} FeedInSingle(s: Scan, text: string)
    requires s.quote == Some('\'') && !s.escaped && '\'' !in text
    ensures Feed(s, text) == s.(token := s.token + text)
  {
    hide Feed, Step;
    if text == "" {
      FeedNothing(s);
      assert s.token + "" == s.token;
    } else {
      var init, c := text[..|text| - 1], text[|text| - 1];
      assert c in text;
      FeedInSingle(s, init);
      FeedConcat(s, init, [c]);
      FeedOne(s.(token := s.token + init), c);
      QuotedStep(s.(token := s.token + init), c);
      assert text == init + [c] && s.token + text == (s.token + init) + [c];
    }
  }

  lemma FeedGuardedChar(s: Scan, c: char)
    requires s.quote == Some('"') && !s.escaped
    ensures Feed(s, if c == '"' || c == '\\' then "\\" + [c] else [c]) == s.(token := s.token + [c])
  {
    QuotedStep(s, c);
    QuotedStep(s, '\\');
    FeedOne(s, c);
    if c == '"' || c == '\\' {
      var t := s.(escaped := true);
      assert Step(t, c) == s.(token := s.token + [c]);
      FeedOne(s, '\\');
      FeedOne(t, c);
      FeedConcat(s, "\\", [c]);
    }
  }

  lemma {:induction false} FeedGuarded(s: Scan, text: string)
    requires s.quote == Some('"') && !s.escaped
    ensures Feed(s, Guarded(text)) == s.(token := s.token + text)
  {
    hide Feed;
    if text == "" {
      FeedNothing(s);
      assert s.token + "" == s.token;
    } else {
      var init, c := text[..|text| - 1], text[|text| - 1];
      FeedGuarded(s, init);
      FeedConcat(s, Guarded(init), if c == '"' || c == '\\' then "\\" + [c] else [c]);
      FeedGuardedChar(s.(token := s.token + init), c);
      assert s.token + text == (s.token + init) + [c];
    }
  }

  lemma OpeningStep(s: Scan, c: char)
    requires IsUnquoted(s) && (c == '\'' || c == '"')
    ensures Step(s, c) == s.(quote := Some(c))
  {
    hide IsWhitespace;
  }

  /** An opening quote, text that adds itself between such quotes, and the closing quote. */
  lemma FeedQuoted(s: Scan, c: char, inner: string, text: string)
    requires IsUnquoted(s) && (c == '\'' || c == '"')
    requires Feed(s.(quote := Some(c)), inner) == s.(quote := Some(c), token := s.token + text)
    ensures Feed(s, [c] + inner + [c]) == s.(token := s.token + text)
  {
    hide Feed, Step;
    OpeningStep(s, c);
    FeedOne(s, c);
    var t := s.(quote := Some(c), token := s.token + text);
    FeedOne(t, c);
    QuotedStep(t, c);
    FeedConcat(s, [c], inner);
    FeedConcat(s, [c] + inner, [c]);
  }

  lemma FeedPart(s: Scan, part: Part)
    requires IsUnquoted(s) && CanBe(part)
    ensures Feed(s, Spelled(part)) == s.(token := s.token + part.text)
  {
    hide Feed, IsPlain, Escaped, Guarded;
    match part
    case Bare(text) => FeedPlain(s, text);
    case Backslashed(text) => FeedEscaped(s, text);
    case InSingle(text) =>
      FeedInSingle(s.(quote := Some('\'')), text);
      FeedQuoted(s, '\'', text, text);
    case InDouble(text) =>
      FeedGuarded(s.(quote := Some('"')), text);
      FeedQuoted(s, '"', Guarded(text), text);
  }

  lemma WordSnoc(word: seq<Part>, part: Part)
    ensures SpelledWord(word + [part]) == SpelledWord(word) + Spelled(part)
    ensures TextOf(word + [part]) == TextOf(word) + part.text
    ensures AreSpelled(word + [part]) ==> AreSpelled(word) && CanBe(part)
  {
    hide CanBe, Spelled;
    var more := word + [part];
    assert more[..|word|] == word && more[|word|] == part;
    forall i | 0 <= i < |word| ensures more[i] == word[i] {
    }
  }

  lemma EmptyWord()
    ensures SpelledWord([]) == "" && TextOf([]) == ""
  {
  }

  lemma TokenGrows(s: Scan, a: string, b: string)
    ensures s.token + (a + b) == (s.token + a) + b && s.token + "" == s.token
    ensures IsUnquoted(s) ==> IsUnquoted(s.(token := s.token + a))
  {
  }

  lemma {:induction false} FeedWord(s: Scan, word: seq<Part>)
    requires IsUnquoted(s) && AreSpelled(word)
    ensures Feed(s, SpelledWord(word)) == s.(token := s.token + TextOf(word))
  {
    hide *;
    if word == [] {
      EmptyWord();
      FeedNothing(s);
      TokenGrows(s, "", "");
    } else {
      var init, last := word[..|word| - 1], word[|word| - 1];
      assert word == init + [last];
      WordSnoc(init, last);
      FeedWord(s, init);
      FeedConcat(s, SpelledWord(init), Spelled(last));
      TokenGrows(s, TextOf(init), last.text);
      FeedPart(s.(token := s.token + TextOf(init)), last);
    }
  }

  // ---- Lines of words ----

  predicate IsGap(gap: string)
  {
    gap != "" && forall i :: 0 <= i < |gap| ==> IsWhitespace(gap[i])
  }

  /** Each word with its gap in front. */
  function LineOf(words: seq<seq<Part>>, gaps: seq<string>): string
    requires |gaps| == |words|
  {
    if words == [] then ""
    else
      var n := |words| - 1;
      LineOf(words[..n], gaps[..n]) + gaps[n] + SpelledWord(words[n])
  }

  /** The texts of the words that have any. */
  function Texts(words: seq<seq<Part>>): seq<string>
  {
    if words == [] then []
    else
      var text := TextOf(words[|words| - 1]);
      Texts(words[..|words| - 1]) + if text == "" then [] else [text]
  }

  lemma GapStep(s: Scan, c: char)
    requires IsUnquoted(s) && IsWhitespace(c)
    ensures Step(s, c) == Closed(s) && IsUnquoted(Closed(s)) && Closed(Closed(s)) == Closed(s)
  {
    NoWhitespaceIsSpecial(c);
    hide IsWhitespace;
  }

  lemma NoWhitespaceIsSpecial(c: char)
    requires IsWhitespace(c)
    ensures c != '\\' && c != '\'' && c != '"'
  {
  }

  lemma {:induction false} FeedGap(s: Scan, gap: string)
    requires IsUnquoted(s) && IsGap(gap)
    ensures Feed(s, gap) == Closed(s) && IsUnquoted(Closed(s))
    decreases |gap|
  {
    hide Feed, Step, Closed, IsUnquoted, IsWhitespace;
    var init, c := gap[..|gap| - 1], gap[|gap| - 1];
    assert gap == init + [c];
    if init == "" {
      FeedOne(s, c);
      GapStep(s, c);
    } else {
      FeedGap(s, init);
      FeedConcat(s, init, [c]);
      FeedOne(Closed(s), c);
      GapStep(Closed(s), c);
      GapStep(s, c);
    }
  }

  ghost predicate AreWords(words: seq<seq<Part>>, gaps: seq<string>)
  {
    && |gaps| == |words|
    && (forall i :: 0 <= i < |words| ==> AreSpelled(words[i]))
    && forall i :: 0 <= i < |gaps| ==> IsGap(gaps[i])
  }

  lemma {:induction false} FeedWords(words: seq<seq<Part>>, gaps: seq<string>)
    requires AreWords(words, gaps)
    ensures var s := Feed(BLANK, LineOf(words, gaps)); IsUnquoted(s) && Closed(s) == Scan(Texts(words), "", None, false)
  {
    hide Feed, AreSpelled, IsGap, SpelledWord, TextOf;
    if words == [] {
      FeedNothing(BLANK);
    } else {
      var n := |words| - 1;
      FeedWords(words[..n], gaps[..n]);
      var s := Feed(BLANK, LineOf(words[..n], gaps[..n]));
      FeedConcat(BLANK, LineOf(words[..n], gaps[..n]), gaps[n]);
      FeedGap(s, gaps[n]);
      FeedConcat(BLANK, LineOf(words[..n], gaps[..n]) + gaps[n], SpelledWord(words[n]));
      FeedWord(Closed(s), words[n]);
      assert "" + TextOf(words[n]) == TextOf(words[n]);
      assert Texts(words[..n]) + [] == Texts(words[..n]);
    }
  }

  /**
   * However words are spelled, bare, with backslashes, in quotes of either kind or in any mixture, and whatever white
   * space stands between them: splitting the line gives their texts, without the empty ones.
   */
  lemma WordsAreSplit(words: seq<seq<Part>>, gaps: seq<string>)
    requires AreWords(words, gaps)
    ensures Tokens(LineOf(words, gaps)) == Texts(words)
  {
    FeedWords(words, gaps);
    hide Feed, AreWords;
  }

  /** A quote that is never closed ends with the line, and a backslash at its end stands for itself. */
  lemma UnfinishedLines(word: seq<Part>, text: string)
    requires AreSpelled(word) && '\'' !in text
    ensures var all := TextOf(word) + text; Tokens(SpelledWord(word) + "'" + text) == if all == "" then [] else [all]
    ensures Tokens(SpelledWord(word) + "\\") == [TextOf(word) + "\\"]
  {
    FeedWord(BLANK, word);
    var s := Feed(BLANK, SpelledWord(word));
    assert "" + TextOf(word) == TextOf(word);
    OpeningStep(s, '\'');
    FeedOne(s, '\'');
    FeedInSingle(s.(quote := Some('\'')), text);
    FeedOne(s, '\\');
    assert Step(s, '\\') == s.(escaped := true);
    FeedConcat(BLANK, SpelledWord(word), "'");
    FeedConcat(BLANK, SpelledWord(word) + "'", text);
    FeedConcat(BLANK, SpelledWord(word), "\\");
    hide Feed, Step, SpelledWord, TextOf, AreSpelled;
  }

  // ---- Options and assignments in front of a command ----

  datatype Argument = Flag(name: string) | Assignment(text: string) | Valued(option: string, value: string)

  function Words(arguments: seq<Argument>): seq<string>
  {
    if arguments == [] then []
    else
      (match arguments[0]
       case Flag(name) => [name]
       case Assignment(text) => [text]
       case Valued(option, value) => [option, value])
      + Words(arguments[1..])
  }

  predicate IsOption(text: string)
  {
    text != "" && text[0] == '-' && text != "--" && '=' !in text
  }

  /** Given which options take a value. */
  predicate IsArgumentFor(a: Argument, valued: seq<string>)
  {
    match a
    case Flag(name) => IsOption(name) && name !in valued
    case Assignment(text) => '=' in text
    case Valued(option, _) => IsOption(option) && option in valued
  }

  predicate StartsCommand(tokens: seq<string>)
  {
    tokens == [] || ('=' !in tokens[0] && (tokens[0] == "" || tokens[0][0] != '-'))
  }

  lemma OptionStarts(option: string)
    requires IsOption(option)
    ensures "-" <= option
  {
    assert option == [option[0]] + option[1..];
  }

  lemma FlagComesOff(name: string, rest: seq<string>, valued: seq<string>)
    requires IsOption(name) && name !in valued
    ensures WithoutArguments([name] + rest, valued) == WithoutArguments(rest, valued)
  {
    OptionStarts(name);
    assert ([name] + rest)[1..] == rest;
  }

  lemma DoubleDash(text: string)
    requires '=' in text
    ensures text != "--"
  {
  }

  lemma AssignmentComesOff(text: string, rest: seq<string>, valued: seq<string>)
    requires '=' in text
    ensures WithoutArguments([text] + rest, valued) == WithoutArguments(rest, valued)
  {
    DoubleDash(text);
    var tokens := [text] + rest;
    assert tokens[0] == text && tokens[1..] == rest;
  }

  lemma ValuedComesOff(option: string, value: string, rest: seq<string>, valued: seq<string>)
    requires IsOption(option) && option in valued
    ensures WithoutArguments([option, value] + rest, valued) == WithoutArguments(rest, valued)
  {
    OptionStarts(option);
    assert ([option, value] + rest)[2..] == rest;
  }

  lemma ValueIsMissing(option: string, valued: seq<string>)
    requires IsOption(option) && option in valued
    ensures WithoutArguments([option], valued) == []
  {
    OptionStarts(option);
    assert [option][1..] == [];
  }

  lemma OneArgument(a: Argument, rest: seq<string>, valued: seq<string>)
    requires IsArgumentFor(a, valued)
    ensures WithoutArguments(Words([a]) + rest, valued) == WithoutArguments(rest, valued)
  {
    assert [a][1..] == [] && Words([]) == [];
    hide WithoutArguments, IsOption;
    match a
    case Flag(name) =>
      assert Words([a]) == [name];
      FlagComesOff(name, rest, valued);
    case Assignment(text) =>
      assert Words([a]) == [text];
      AssignmentComesOff(text, rest, valued);
    case Valued(option, value) =>
      assert Words([a]) == [option, value];
      ValuedComesOff(option, value, rest, valued);
  }

  lemma NothingComesOff(rest: seq<string>, valued: seq<string>)
    ensures StartsCommand(rest) ==> WithoutArguments(rest, valued) == rest
    ensures WithoutArguments(["--"] + rest, valued) == rest
  {
    assert (["--"] + rest)[1..] == rest;
    if rest != [] && "-" <= rest[0] {
      assert rest[0][0] == '-';
    }
  }

  /**
   * What comes off in front of a command is exactly its options, with the values of those that take one, and its
   * assignments; after a double dash everything stays, and an option at the end goes even without its value.
   */
  lemma {:induction false} ArgumentsComeOff(arguments: seq<Argument>, rest: seq<string>, valued: seq<string>)
    requires forall a :: a in arguments ==> IsArgumentFor(a, valued)
    ensures StartsCommand(rest) ==> WithoutArguments(Words(arguments) + rest, valued) == rest
    ensures WithoutArguments(Words(arguments) + (["--"] + rest), valued) == rest
    ensures forall option :: IsOption(option) && option in valued ==>
              WithoutArguments(Words(arguments) + [option], valued) == []
  {
    hide IsArgumentFor, IsOption, WithoutArguments, StartsCommand;
    if arguments == [] {
      assert [] + rest == rest && [] + (["--"] + rest) == ["--"] + rest;
      NothingComesOff(rest, valued);
      forall option: string | IsOption(option) && option in valued
        ensures WithoutArguments(Words(arguments) + [option], valued) == []
      {
        assert [] + [option] == [option];
        ValueIsMissing(option, valued);
      }
    } else {
      assert arguments[0] in arguments;
      ArgumentsComeOff(arguments[1..], rest, valued);
      forall more: seq<string>
        ensures WithoutArguments(Words(arguments) + more, valued) ==
                WithoutArguments(Words(arguments[1..]) + more, valued)
      {
        OneArgumentMore(arguments, more, valued);
      }
    }
  }

  lemma OneArgumentMore(arguments: seq<Argument>, rest: seq<string>, valued: seq<string>)
    requires arguments != [] && IsArgumentFor(arguments[0], valued)
    ensures WithoutArguments(Words(arguments) + rest, valued) == WithoutArguments(Words(arguments[1..]) + rest, valued)
  {
    hide *;
    FirstWords(arguments);
    var others := Words(arguments[1..]) + rest;
    OneArgument(arguments[0], others, valued);
    assert Words(arguments) + rest == Words([arguments[0]]) + others;
  }

  lemma FirstWords(arguments: seq<Argument>)
    requires arguments != []
    ensures Words(arguments) == Words([arguments[0]]) + Words(arguments[1..])
  {
    assert [arguments[0]][1..] == [] && Words([]) == [];
  }

  // ---- Wrappers ----

  lemma WrapperComesOff(tokens: seq<string>, rest: seq<string>)
    requires Unwrapped(tokens) == Some(rest)
    ensures Stripped(tokens) == Stripped(rest)
  {
    hide Unwrapped, Weight;
  }

  /** In front of a command, env and sudo with their own options, and `command`, change nothing. */
  lemma WrappersAreTransparent(arguments: seq<Argument>, command: seq<string>)
    requires StartsCommand(command)
    ensures (forall a :: a in arguments ==> IsArgumentFor(a, ["-C", "--chdir", "-u", "--unset"])) ==>
              Stripped(["env"] + (Words(arguments) + command)) == Stripped(command)
    ensures (forall a :: a in arguments ==>
               IsArgumentFor(a, ["-C", "--chdir", "-u", "--user", "-g", "--group"])) ==>
              Stripped(["sudo"] + (Words(arguments) + command)) == Stripped(command)
    ensures Stripped(["command"] + command) == Stripped(command)
  {
    hide *;
    EnvComesOff(arguments, command);
    SudoComesOff(arguments, command);
    CommandComesOff(command);
    WrapperComesOff(["command"] + command, command);
  }

  lemma EnvComesOff(arguments: seq<Argument>, command: seq<string>)
    requires StartsCommand(command)
    ensures (forall a :: a in arguments ==> IsArgumentFor(a, ["-C", "--chdir", "-u", "--unset"])) ==>
              Stripped(["env"] + (Words(arguments) + command)) == Stripped(command)
  {
    hide IsArgumentFor, Weight, Tokens, WithoutArguments, Stripped, StartsCommand, Words;
    var given := Words(arguments) + command;
    assert (["env"] + given)[1..] == given;
    if forall a :: a in arguments ==> IsArgumentFor(a, ENV_OPTIONS) {
      ArgumentsComeOff(arguments, command, ENV_OPTIONS);
      WrapperComesOff(["env"] + given, command);
    }
  }

  lemma SudoComesOff(arguments: seq<Argument>, command: seq<string>)
    requires StartsCommand(command)
    ensures (forall a :: a in arguments ==>
               IsArgumentFor(a, ["-C", "--chdir", "-u", "--user", "-g", "--group"])) ==>
              Stripped(["sudo"] + (Words(arguments) + command)) == Stripped(command)
  {
    hide IsArgumentFor, Weight, Tokens, WithoutArguments, Stripped, StartsCommand, Words;
    var given := Words(arguments) + command;
    assert (["sudo"] + given)[1..] == given;
    if forall a :: a in arguments ==> IsArgumentFor(a, SUDO_OPTIONS) {
      ArgumentsComeOff(arguments, command, SUDO_OPTIONS);
      WrapperComesOff(["sudo"] + given, command);
    }
  }

  lemma CommandComesOff(command: seq<string>)
    ensures Unwrapped(["command"] + command) == Some(command)
  {
    hide Weight, Tokens, WithoutArguments;
    assert (["command"] + command)[1..] == command;
  }

  lemma {:induction false} FirstScript(tokens: seq<string>, n: nat)
    requires n < |tokens| && (tokens[n] == "-c" || tokens[n] == "-lc")
    requires forall i :: 0 <= i < n ==> tokens[i] != "-c" && tokens[i] != "-lc"
    ensures ScriptPosition(tokens) == Some(n)
  {
    if n > 0 {
      FirstScript(tokens[1..], n - 1);
    }
  }

  /** Tokens with one space between each two. */
  function SpacedOut(tokens: seq<string>): string
    requires tokens != []
  {
    if |tokens| == 1 then tokens[0] else tokens[0] + " " + SpacedOut(tokens[1..])
  }

  lemma {:induction false} SpacedOutSnoc(tokens: seq<string>, last: string)
    requires tokens != []
    ensures SpacedOut(tokens + [last]) == SpacedOut(tokens) + " " + last
  {
    assert (tokens + [last])[1..] == tokens[1..] + [last];
    if |tokens| == 1 {
      assert tokens[1..] + [last] == [last];
    } else {
      SpacedOutSnoc(tokens[1..], last);
    }
  }

  lemma {:induction false} JoinedIs(tokens: seq<string>)
    requires tokens != []
    ensures Joined(tokens) == SpacedOut(tokens)
  {
    if |tokens| > 1 {
      var init, last := tokens[..|tokens| - 1], tokens[|tokens| - 1];
      JoinedIs(init);
      SpacedOutSnoc(init, last);
      assert tokens == init + [last];
    }
  }

  lemma NotAScript(shell: string, options: seq<string>)
    requires shell in ["sh", "bash", "zsh", "dash"] && forall o :: o in options ==> o != "-c" && o != "-lc"
    ensures forall i :: 0 <= i <= |options| ==> ([shell] + options)[i] != "-c" && ([shell] + options)[i] != "-lc"
  {
    ShellNames(shell);
    forall i | 0 <= i <= |options| ensures ([shell] + options)[i] != "-c" && ([shell] + options)[i] != "-lc" {
      if i > 0 {
        assert ([shell] + options)[i] == options[i - 1] && options[i - 1] in options;
      }
    }
  }

  /**
   * A shell runs what follows its first -c or -lc, joined by spaces and split again; without one it is the command
   * itself.
   */
  lemma ShellRunsItsScript(shell: string, options: seq<string>, flag: string, script: seq<string>,
                           words: seq<seq<Part>>, gaps: seq<string>)
    requires shell in ["sh", "bash", "zsh", "dash"] && (flag == "-c" || flag == "-lc")
    requires forall o :: o in options ==> o != "-c" && o != "-lc"
    requires script != [] && AreWords(words, gaps) && SpacedOut(script) == LineOf(words, gaps)
    ensures Stripped(([shell] + options) + ([flag] + script)) == Stripped(Texts(words))
    ensures Stripped([shell] + options) == [shell] + options
  {
    var tokens := ([shell] + options) + ([flag] + script);
    NotAScript(shell, options);
    WordsAreSplit(words, gaps);
    ShellNames(shell);
    JoinedIs(script);
    ScriptIsFound([shell] + options, flag, script);
    hide *;
    WrapperComesOff(tokens, Texts(words));
    NoScript([shell] + options);
  }

  lemma ShellNames(shell: string)
    requires shell in ["sh", "bash", "zsh", "dash"]
    ensures IsShell(shell) && shell != "-c" && shell != "-lc" && shell != "env" && shell != "sudo" && shell != "command"
  {
  }

  lemma ScriptIsFound(front: seq<string>, flag: string, script: seq<string>)
    requires front != [] && IsShell(front[0]) && front[0] != "env" && front[0] != "sudo" && front[0] != "command"
    requires forall i :: 0 <= i < |front| ==> front[i] != "-c" && front[i] != "-lc"
    requires flag == "-c" || flag == "-lc"
    ensures Unwrapped(front + ([flag] + script)) == Some(Tokens(Joined(script)))
  {
    var tokens, n := front + ([flag] + script), |front|;
    assert tokens[0] == front[0] && tokens[n] == flag && tokens[n + 1..] == script;
    assert forall i :: 0 <= i < n ==> tokens[i] == front[i];
    FirstScript(tokens, n);
    hide IsShell, ScriptPosition, Tokens, WithoutArguments, Joined;
  }

  lemma NoScript(tokens: seq<string>)
    requires tokens != [] && tokens[0] in ["sh", "bash", "zsh", "dash"]
    requires forall i :: 0 <= i < |tokens| ==> tokens[i] != "-c" && tokens[i] != "-lc"
    ensures Stripped(tokens) == tokens
  {
    ShellNames(tokens[0]);
    hide Weight, Tokens, Joined, WithoutArguments, IsShell;
    assert ScriptPosition(tokens).None?;
    hide ScriptPosition;
    assert Unwrapped(tokens).None?;
  }

  /** Nothing is taken from a command that starts with no wrapper. */
  lemma CommandsStay(tokens: seq<string>)
    requires tokens == [] || tokens[0] !in ["env", "sudo", "command", "sh", "bash", "zsh", "dash"]
    ensures Stripped(tokens) == tokens
  {
    hide Weight, Tokens, Joined, WithoutArguments, ScriptPosition;
    assert Unwrapped(tokens).None?;
  }
}
