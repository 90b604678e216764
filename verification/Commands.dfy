/** Splitting command lines into tokens and removing what merely wraps the command, src/analysis.rs. */
module Commands {
  import opened Characters
  import opened Wrappers

  // ---- Tokens ----

  datatype Scan = Scan(tokens: seq<string>, token: string, quote: Option<char>, escaped: bool)

  const BLANK := Scan([], "", None, false)

  function Closed(s: Scan): Scan
  {
    if s.token == "" then s else s.(tokens := s.tokens + [s.token], token := "")
  }

  function Step(s: Scan, c: char): Scan
  {
    if s.escaped then s.(token := s.token + [c], escaped := false)
    else if c == '\\' && s.quote != Some('\'') then s.(escaped := true)
    else if s.quote.Some? then
      if s.quote == Some(c) then s.(quote := None) else s.(token := s.token + [c])
    else if c == '\'' || c == '"' then s.(quote := Some(c))
    else if IsWhitespace(c) then Closed(s)
    else s.(token := s.token + [c])
  }

  function Feed(s: Scan, text: string): Scan
    decreases |text|
  {
    if text == "" then s else Feed(Step(s, text[0]), text[1..])
  }

  function Finish(s: Scan): seq<string>
  {
    Closed(if s.escaped then s.(token := s.token + "\\") else s).tokens
  }

  function Tokens(command: string): seq<string>
  {
    Finish(Feed(BLANK, command))
  }

  /** The room tokens take: their characters and one separator each. */
  function Weight(tokens: seq<string>): nat
  {
    if tokens == [] then 0 else Weight(tokens[..|tokens| - 1]) + |tokens[|tokens| - 1]| + 1
  }

  lemma WeightSnoc(tokens: seq<string>, token: string)
    ensures Weight(tokens + [token]) == Weight(tokens) + |token| + 1
  {
    assert (tokens + [token])[..|tokens|] == tokens;
  }

  ghost predicate NoneEmpty(tokens: seq<string>)
  {
    forall i :: 0 <= i < |tokens| ==> tokens[i] != ""
  }

  function Room(s: Scan): nat
  {
    Weight(s.tokens) + |s.token| + if s.escaped then 1 else 0
  }

  lemma StepTakesNoRoom(s: Scan, c: char)
    ensures Room(Step(s, c)) <= Room(s) + 1
    ensures NoneEmpty(s.tokens) ==> NoneEmpty(Step(s, c).tokens)
  {
    WeightSnoc(s.tokens, s.token);
    hide IsWhitespace, Weight;
  }

  lemma {:induction false} FeedTakesNoRoom(s: Scan, text: string)
    ensures Room(Feed(s, text)) <= Room(s) + |text|
    ensures NoneEmpty(s.tokens) ==> NoneEmpty(Feed(s, text).tokens)
    decreases |text|
  {
    hide Room, NoneEmpty, Step;
    if text != "" {
      StepTakesNoRoom(s, text[0]);
      FeedTakesNoRoom(Step(s, text[0]), text[1..]);
    }
  }

  /** Tokens never take more room than the text they come from, and none is empty. */
  lemma TokensTakeNoRoom(command: string)
    ensures Weight(Tokens(command)) <= |command| + 1 && NoneEmpty(Tokens(command))
    ensures command == "" ==> Tokens(command) == []
  {
    hide Feed;
    FeedTakesNoRoom(BLANK, command);
    var s := Feed(BLANK, command);
    var t := if s.escaped then s.(token := s.token + "\\") else s;
    WeightSnoc(t.tokens, t.token);
    FeedNothing(BLANK);
  }

  lemma FeedNothing(s: Scan)
    ensures Feed(s, "") == s
  {
  }

  method CommandTokens(command: string) returns (tokens: seq<string>)
    ensures tokens == Tokens(command)
  {
    hide IsWhitespace;
    tokens := [];
    var token, quote, escaped := "", None, false;
    var i := 0;
    while i < |command|
      invariant i <= |command|
      invariant Feed(BLANK, command) == Feed(Scan(tokens, token, quote, escaped), command[i..])
    {
      var c := command[i];
      assert command[i..][0] == c && command[i..][1..] == command[i + 1..];
      if escaped {
        token := token + [c];
        escaped := false;
      } else if c == '\\' && quote != Some('\'') {
        escaped := true;
      } else if quote.Some? {
        if c == quote.value {
          quote := None;
        } else {
          token := token + [c];
        }
      } else if c == '\'' || c == '"' {
        quote := Some(c);
      } else if IsWhitespace(c) {
        if token != "" {
          tokens := tokens + [token];
          token := "";
        }
      } else {
        token := token + [c];
      }
      i := i + 1;
    }
    if escaped {
      token := token + "\\";
    }
    if token != "" {
      tokens := tokens + [token];
    }
  }

  // ---- Wrapper arguments ----

  const ENV_OPTIONS := ["-C", "--chdir", "-u", "--unset"]
  const SUDO_OPTIONS := ["-C", "--chdir", "-u", "--user", "-g", "--group"]

  function WithoutArguments(tokens: seq<string>, valued: seq<string>): (rest: seq<string>)
    ensures |rest| <= |tokens| && rest == tokens[|tokens| - |rest|..]
    decreases |tokens|
  {
    if tokens == [] then tokens
    else if tokens[0] == "--" then tokens[1..]
    else if '=' in tokens[0] then WithoutArguments(tokens[1..], valued)
    else if !("-" <= tokens[0]) then tokens
    else if tokens[0] in valued && |tokens| > 1 then WithoutArguments(tokens[2..], valued)
    else WithoutArguments(tokens[1..], valued)
  }

  predicate IsArgument(token: string)
  {
    '=' in token || "-" <= token
  }

  /** The last `left` tokens follow a `--`. */
  predicate StoppedBefore(tokens: seq<string>, left: nat)
  {
    left < |tokens| && tokens[|tokens| - left - 1] == "--"
  }

  lemma StoppedInSuffix(tokens: seq<string>, skipped: nat, left: nat)
    requires skipped <= |tokens| && StoppedBefore(tokens[skipped..], left)
    ensures StoppedBefore(tokens, left)
  {
  }

  lemma WithoutOneArgument(tokens: seq<string>, valued: seq<string>) returns (skipped: nat)
    requires tokens != [] && tokens[0] != "--" && IsArgument(tokens[0])
    ensures 0 < skipped <= |tokens| && WithoutArguments(tokens, valued) == WithoutArguments(tokens[skipped..], valued)
  {
    skipped := if '=' !in tokens[0] && tokens[0] in valued && |tokens| > 1 then 2 else 1;
  }

  /** What is left starts with something that is no option and no assignment, unless `--` said to stop there. */
  lemma {:induction false} ArgumentsAreGone(tokens: seq<string>, valued: seq<string>)
    ensures var rest := WithoutArguments(tokens, valued);
            rest == [] || !IsArgument(rest[0]) || StoppedBefore(tokens, |rest|)
    decreases |tokens|
  {
    if tokens != [] && tokens[0] != "--" && IsArgument(tokens[0]) {
      hide WithoutArguments, IsArgument, StoppedBefore;
      var skipped := WithoutOneArgument(tokens, valued);
      ArgumentsAreGone(tokens[skipped..], valued);
      var rest := WithoutArguments(tokens, valued);
      if StoppedBefore(tokens[skipped..], |rest|) {
        StoppedInSuffix(tokens, skipped, |rest|);
      }
    }
  }

  method StripWrapperArguments(given: seq<string>, valued: seq<string>) returns (tokens: seq<string>)
    ensures tokens == WithoutArguments(given, valued)
  {
    tokens := given;
    while tokens != []
      invariant WithoutArguments(given, valued) == WithoutArguments(tokens, valued)
      decreases |tokens|
    {
      if tokens[0] == "--" {
        tokens := tokens[1..];
        return;
      }
      if '=' in tokens[0] {
        tokens := tokens[1..];
        continue;
      }
      if !("-" <= tokens[0]) {
        return;
      }
      var option := tokens[0];
      tokens := tokens[1..];
      if option in valued && tokens != [] {
        tokens := tokens[1..];
      }
    }
  }

  // ---- Wrappers ----

  function ScriptPosition(tokens: seq<string>): (at: Option<nat>)
    ensures at.Some? ==> at.value < |tokens| && (tokens[at.value] == "-c" || tokens[at.value] == "-lc")
    ensures at.None? ==> forall i :: 0 <= i < |tokens| ==> tokens[i] != "-c" && tokens[i] != "-lc"
  {
    if tokens == [] then None
    else if tokens[0] == "-c" || tokens[0] == "-lc" then Some(0)
    else
      match ScriptPosition(tokens[1..])
      case Some(i) => Some(i + 1)
      case None => None
  }

  function Joined(tokens: seq<string>): string
  {
    if tokens == [] then ""
    else if |tokens| == 1 then tokens[0]
    else Joined(tokens[..|tokens| - 1]) + " " + tokens[|tokens| - 1]
  }

  predicate IsShell(token: string)
  {
    token == "sh" || token == "bash" || token == "zsh" || token == "dash"
  }

  /** One wrapper removed, or nothing when the command itself comes first. */
  function Unwrapped(tokens: seq<string>): Option<seq<string>>
  {
    if tokens == [] then None
    else if tokens[0] == "env" then Some(WithoutArguments(tokens[1..], ENV_OPTIONS))
    else if tokens[0] == "sudo" then Some(WithoutArguments(tokens[1..], SUDO_OPTIONS))
    else if tokens[0] == "command" then Some(tokens[1..])
    else if IsShell(tokens[0]) && ScriptPosition(tokens).Some? then
      Some(Tokens(Joined(tokens[ScriptPosition(tokens).value + 1..])))
    else None
  }

  lemma {:induction false} WeightConcat(a: seq<string>, b: seq<string>)
    ensures Weight(a + b) == Weight(a) + Weight(b)
  {
    if b == [] {
      assert a + b == a;
    } else {
      assert (a + b)[..|a + b| - 1] == a + b[..|b| - 1];
      WeightConcat(a, b[..|b| - 1]);
    }
  }

  lemma WeightOfSuffix(tokens: seq<string>, n: nat)
    requires 0 < n <= |tokens|
    ensures Weight(tokens[n..]) < Weight(tokens)
  {
    assert tokens == tokens[..n] + tokens[n..];
    WeightConcat(tokens[..n], tokens[n..]);
  }

  lemma {:induction false} JoinedTakesTheRoom(tokens: seq<string>)
    ensures tokens != [] ==> |Joined(tokens)| + 1 == Weight(tokens)
    ensures tokens == [] ==> Joined(tokens) == ""
  {
    if |tokens| > 1 {
      JoinedTakesTheRoom(tokens[..|tokens| - 1]);
    }
  }

  /** Every wrapper removed takes room with it: also a shell's script, which is joined and split again. */
  lemma UnwrappedIsLighter(tokens: seq<string>)
    ensures Unwrapped(tokens).Some? ==> Weight(Unwrapped(tokens).value) < Weight(tokens)
  {
    hide Tokens, Weight, Joined;
    if Unwrapped(tokens).Some? {
      var at := ScriptPosition(tokens);
      if tokens[0] == "env" || tokens[0] == "sudo" {
        var rest := WithoutArguments(tokens[1..], if tokens[0] == "env" then ENV_OPTIONS else SUDO_OPTIONS);
        assert rest == tokens[|tokens| - |rest|..];
        WeightOfSuffix(tokens, |tokens| - |rest|);
      } else if tokens[0] == "command" {
        WeightOfSuffix(tokens, 1);
      } else {
        var script := tokens[at.value + 1..];
        WeightOfSuffix(tokens, at.value + 1);
        JoinedTakesTheRoom(script);
        TokensTakeNoRoom(Joined(script));
        assert Weight([]) == 0 by { NoWeight(); }
      }
    }
  }

  lemma NoWeight()
    ensures Weight([]) == 0
  {
  }

  function Stripped(tokens: seq<string>): (rest: seq<string>)
    ensures Unwrapped(rest).None?
    decreases Weight(tokens)
  {
    UnwrappedIsLighter(tokens);
    var next := Unwrapped(tokens);
    if next.None? then tokens else Stripped(next.value)
  }

  /** Ends for every list of tokens, with the command itself first. */
  method StripCommandWrappers(given: seq<string>) returns (tokens: seq<string>)
    ensures tokens == Stripped(given)
    ensures tokens == []
        || (tokens[0] !in ["env", "sudo", "command"] && (IsShell(tokens[0]) ==> ScriptPosition(tokens).None?))
  {
    hide Weight, Tokens, Joined, WithoutArguments;
    tokens := given;
    while tokens != []
      invariant Stripped(tokens) == Stripped(given)
      decreases Weight(tokens)
    {
      UnwrappedIsLighter(tokens);
      var first := tokens[0];
      if first == "env" {
        tokens := StripWrapperArguments(tokens[1..], ENV_OPTIONS);
        continue;
      }
      if first == "sudo" {
        tokens := StripWrapperArguments(tokens[1..], SUDO_OPTIONS);
        continue;
      }
      if first == "command" {
        tokens := tokens[1..];
        continue;
      }
      if IsShell(first) {
        var at := ScriptPosition(tokens);
        if at.Some? {
          tokens := CommandTokens(Joined(tokens[at.value + 1..]));
          continue;
        }
      }
      return;
    }
  }

  // ---- Wrapping and unwrapping again ----

  /** A token as a shell line can carry it: a backslash before every character. */
  function Escaped(token: string): string
  {
    if token == "" then "" else Escaped(token[..|token| - 1]) + "\\" + [token[|token| - 1]]
  }

  function Line(tokens: seq<string>): string
  {
    if tokens == [] then "" else Line(tokens[..|tokens| - 1]) + " " + Escaped(tokens[|tokens| - 1])
  }

  lemma {:induction false} FeedConcat(s: Scan, a: string, b: string)
    ensures Feed(s, a + b) == Feed(Feed(s, a), b)
    decreases |a|
  {
    hide Step;
    if a == "" {
      assert a + b == b;
    } else {
      assert (a + b)[0] == a[0] && (a + b)[1..] == a[1..] + b;
      FeedConcat(Step(s, a[0]), a[1..], b);
    }
  }

  lemma FeedEscapedChar(s: Scan, c: char)
    requires s.quote.None? && !s.escaped
    ensures Feed(s, ['\\', c]) == s.(token := s.token + [c])
  {
    hide IsWhitespace;
    var t := s.(escaped := true);
    assert Step(s, '\\') == t && Step(t, c) == s.(token := s.token + [c]);
    assert ['\\', c][1..] == [c] && [c][1..] == [];
    assert Feed(t, [c]) == Step(t, c);
  }

  lemma {:induction false} FeedEscaped(s: Scan, token: string)
    requires s.quote.None? && !s.escaped
    ensures Feed(s, Escaped(token)) == s.(token := s.token + token)
  {
    hide Feed;
    if token == "" {
      FeedNothing(s);
      assert s.token + "" == s.token;
    } else {
      var init, c := token[..|token| - 1], token[|token| - 1];
      FeedEscaped(s, init);
      FeedConcat(s, Escaped(init), ['\\', c]);
      FeedEscapedChar(s.(token := s.token + init), c);
      assert Escaped(token) == Escaped(init) + ['\\', c];
      assert s.token + token == s.token + init + [c];
    }
  }

  lemma FeedSpace(s: Scan)
    requires s.quote.None? && !s.escaped
    ensures Feed(s, " ") == Closed(s)
  {
    assert " "[1..] == "";
  }

  lemma {:induction false} FeedLine(tokens: seq<string>)
    requires NoneEmpty(tokens)
    ensures Feed(BLANK, Line(tokens)) ==
            if tokens == [] then BLANK else Scan(tokens[..|tokens| - 1], tokens[|tokens| - 1], None, false)
  {
    hide Feed, Escaped;
    if tokens == [] {
      FeedNothing(BLANK);
    } else {
      var init, last := tokens[..|tokens| - 1], tokens[|tokens| - 1];
      FeedLine(init);
      var s := Feed(BLANK, Line(init));
      FeedConcat(BLANK, Line(init), " ");
      FeedConcat(BLANK, Line(init) + " ", Escaped(last));
      FeedSpace(s);
      FeedEscaped(Closed(s), last);
      assert init != [] ==> init == init[..|init| - 1] + [init[|init| - 1]];
      assert "" + last == last;
    }
  }

  /** Splitting a line made of escaped tokens gives the tokens back, whatever characters they hold. */
  lemma SplitLineGivesTokens(tokens: seq<string>)
    requires NoneEmpty(tokens)
    ensures Tokens(Line(tokens)) == tokens
  {
    hide Feed, Line;
    FeedLine(tokens);
    if tokens != [] {
      assert tokens == tokens[..|tokens| - 1] + [tokens[|tokens| - 1]];
    }
  }

  /** Handing a command to a shell, any number of times, does not change what is found to be run. */
  lemma ShellsAreTransparent(tokens: seq<string>, shell: string, flag: string)
    requires NoneEmpty(tokens) && IsShell(shell) && (flag == "-c" || flag == "-lc")
    ensures Stripped([shell, flag, Line(tokens)]) == Stripped(tokens)
  {
    var wrapped := [shell, flag, Line(tokens)];
    SplitLineGivesTokens(tokens);
    hide Tokens, Line, Weight, WithoutArguments;
    assert ScriptPosition(wrapped) == Some(1);
    assert wrapped[2..] == [Line(tokens)] && Joined([Line(tokens)]) == Line(tokens);
    assert Unwrapped(wrapped) == Some(tokens);
  }
}
