/** Calls and results without ids: which result repeats which call's operations, src/normalize.rs. */
module UnidentifiedOperations {
  import opened Wrappers
  import opened Correlation
  import opened FileOperations
  import opened FileOperationRuns
  import opened FileOperationReplacements

  // ---- What calls announce ----

  /** Operations are the same by session, resolved path and kind. */
  datatype Named = Named(session: string, path: string, kind: string)

  predicate IsNamed(t: Target, m: Named)
  {
    t.identity == m.path && t.operation == m.kind
  }

  /** How many of the targets go by that path and kind. */
  function Count(targets: seq<Target>, m: Named): nat
  {
    if targets == [] then 0
    else Count(targets[..|targets| - 1], m) + if IsNamed(targets[|targets| - 1], m) then 1 else 0
  }

  function Copies(line: nat, n: nat): (copies: seq<nat>)
    ensures |copies| == n && forall k :: 0 <= k < n ==> copies[k] == line
  {
    seq(n, k requires 0 <= k < n => line)
  }

  /** A call of an earlier poll announces all its targets, a new one each operation once. */
  function Announces(c: ToolCall, m: Named, isNew: bool): seq<nat>
  {
    if c.callId.Some? || c.sessionId != Some(m.session) then []
    else
      var n := Count(c.targets, m);
      Copies(c.provenance.line, if isNew && n > 1 then 1 else n)
  }

  /** The lines of the calls that did not fail, once for each announcement. */
  function Lines(calls: seq<ToolCall>, m: Named, isNew: bool, failed: ToolCall -> bool): seq<nat>
  {
    if calls == [] then []
    else
      var last := calls[|calls| - 1];
      Lines(calls[..|calls| - 1], m, isNew, failed) + if failed(last) then [] else Announces(last, m, isNew)
  }

  // ---- Which results repeat them ----

  function Before(lines: seq<nat>, line: nat): nat
  {
    if lines == [] then 0 else Before(lines[..|lines| - 1], line) + if lines[|lines| - 1] < line then 1 else 0
  }

  /** `used` announcements are used up, `waiting` come before the result, which names the operation n times. */
  function UsedAfter(used: nat, n: nat, waiting: nat): nat
  {
    if used + n <= waiting then used + n else if used < waiting then waiting else used
  }

  predicate Stands(r: ToolResult, env: Reading)
  {
    !r.isDuplicate && !ResultIsFailed(r, env)
  }

  /** How often a result without an id that did not fail names the operation. */
  function Names(r: ToolResult, m: Named, env: Reading): nat
  {
    if r.callId.None? && Stands(r, env) && r.sessionId == Some(m.session) then Count(env.observe(r, None), m) else 0
  }

  /** The announcements used up by the first n results. */
  function Used(lines: seq<nat>, results: seq<ToolResult>, n: nat, m: Named, env: Reading): nat
    requires n <= |results|
  {
    if n == 0 then 0
    else
      UsedAfter(Used(lines, results, n - 1, m, env), Names(results[n - 1], m, env),
                Before(lines, results[n - 1].provenance.line))
  }

  // ---- The list of open announcements ----

  predicate Matches(o: Observed, m: Named)
  {
    o.operation.session == m.session && o.key.path == m.path && o.operation.kind == m.kind
  }

  function Open(unpaired: seq<Observed>, m: Named): seq<nat>
  {
    if unpaired == [] then []
    else
      var last := unpaired[|unpaired| - 1];
      Open(unpaired[..|unpaired| - 1], m) + if Matches(last, m) then [last.operation.provenance.line] else []
  }

  lemma OpenSnoc(a: seq<Observed>, o: Observed, m: Named)
    ensures Open(a + [o], m) == Open(a, m) + if Matches(o, m) then [o.operation.provenance.line] else []
  {
    assert (a + [o])[..|a|] == a;
  }

  lemma {:induction false} OpenConcat(a: seq<Observed>, b: seq<Observed>, m: Named)
    ensures Open(a + b, m) == Open(a, m) + Open(b, m)
  {
    hide Matches;
    if b == [] {
      assert a + b == a && Open(a, m) + [] == Open(a, m);
    } else {
      var n := |b| - 1;
      OpenConcat(a, b[..n], m);
      assert a + b == (a + b[..n]) + [b[n]] && b == b[..n] + [b[n]];
      OpenSnoc(a + b[..n], b[n], m);
      OpenSnoc(b[..n], b[n], m);
    }
  }

  ghost predicate Sorted(lines: seq<nat>)
  {
    forall i, j :: 0 <= i < j < |lines| ==> lines[i] <= lines[j]
  }

  lemma {:induction false} FirstRepeatedIs(unpaired: seq<Observed>, o: Observed)
    ensures var found := FirstRepeated(unpaired, o);
            if found.Some? then Repeats(unpaired[found.value], o)
                                && forall k :: 0 <= k < found.value ==> !Repeats(unpaired[k], o)
            else forall k :: 0 <= k < |unpaired| ==> !Repeats(unpaired[k], o)
  {
    hide Repeats;
    if unpaired != [] && !Repeats(unpaired[0], o) {
      FirstRepeatedIs(unpaired[1..], o);
      assert forall k :: 1 <= k < |unpaired| ==> unpaired[k] == unpaired[1..][k - 1];
    }
  }

  /** All in one log, in turns that agree with that of the result. */
  ghost predicate AllNear(unpaired: seq<Observed>, o: Observed)
  {
    forall k :: 0 <= k < |unpaired| ==>
      && unpaired[k].operation.provenance.path == o.operation.provenance.path
      && (unpaired[k].operation.session == o.operation.session ==>
            CompatibleContext(unpaired[k].operation.turn, o.operation.turn))
  }

  function NameOf(o: Observed): Named
  {
    Named(o.operation.session, o.key.path, o.operation.kind)
  }

  lemma RepeatsIs(a: Observed, o: Observed)
    requires a.operation.provenance.path == o.operation.provenance.path
    requires a.operation.session == o.operation.session ==> CompatibleContext(a.operation.turn, o.operation.turn)
    ensures Repeats(a, o) <==>
            Matches(a, NameOf(o)) && a.operation.provenance.line < o.operation.provenance.line
  {
  }

  lemma {:induction false} OpenIsEmpty(unpaired: seq<Observed>, m: Named)
    ensures Open(unpaired, m) == [] <==> forall k :: 0 <= k < |unpaired| ==> !Matches(unpaired[k], m)
  {
    hide Matches;
    if unpaired != [] {
      OpenIsEmpty(unpaired[..|unpaired| - 1], m);
    }
  }

  lemma {:induction false} OpenMember(unpaired: seq<Observed>, m: Named, k: nat)
    requires k < |unpaired| && Matches(unpaired[k], m)
    ensures Open(unpaired, m) != [] && unpaired[k].operation.provenance.line in Open(unpaired, m)
  {
    hide Matches;
    var n := |unpaired| - 1;
    if k < n {
      OpenMember(unpaired[..n], m, k);
    }
  }

  /** The first announcement that the observation repeats is the first one open for it, if that comes before it. */
  lemma RepeatedIsFirst(unpaired: seq<Observed>, o: Observed)
    requires AllNear(unpaired, o) && Sorted(Open(unpaired, NameOf(o)))
    ensures var found, open := FirstRepeated(unpaired, o), Open(unpaired, NameOf(o));
            && (found.Some? <==> open != [] && open[0] < o.operation.provenance.line)
            && (found.Some? ==>
                  var i := found.value;
                  var rest := unpaired[..i] + unpaired[i + 1..];
                  && Open(rest, NameOf(o)) == open[1..]
                  && forall m :: m != NameOf(o) ==> Open(rest, m) == Open(unpaired, m))
  {
    var found, m, line := FirstRepeated(unpaired, o), NameOf(o), o.operation.provenance.line;
    FirstRepeatedIs(unpaired, o);
    hide FirstRepeated;
    forall k | 0 <= k < |unpaired|
      ensures Repeats(unpaired[k], o) <==> Matches(unpaired[k], m) && unpaired[k].operation.provenance.line < line
    {
      RepeatsIs(unpaired[k], o);
    }
    if Open(unpaired, m) != [] && Open(unpaired, m)[0] < line {
      var k := FirstOpen(unpaired, m);
      assert Repeats(unpaired[k], o);
    }
    hide Repeats;
    if found.Some? {
      FoundIsFirst(unpaired, m, line, found.value);
    }
  }

  lemma {:induction false} FirstOpen(unpaired: seq<Observed>, m: Named) returns (k: nat)
    requires Open(unpaired, m) != []
    ensures k < |unpaired| && Matches(unpaired[k], m) && unpaired[k].operation.provenance.line == Open(unpaired, m)[0]
    ensures Open(unpaired[..k], m) == []
  {
    hide Matches;
    var n := |unpaired| - 1;
    if Open(unpaired[..n], m) != [] {
      k := FirstOpen(unpaired[..n], m);
      assert unpaired[..n][..k] == unpaired[..k];
    } else {
      k := n;
    }
  }

  /** Sorted announcements stand in the order of their lines. */
  lemma InOrder(unpaired: seq<Observed>, m: Named, k: nat, i: nat)
    requires k < i < |unpaired| && Matches(unpaired[k], m) && Matches(unpaired[i], m) && Sorted(Open(unpaired, m))
    ensures unpaired[k].operation.provenance.line <= unpaired[i].operation.provenance.line
  {
    hide Matches;
    var a, x, b := unpaired[..i], unpaired[i], unpaired[i + 1..];
    assert unpaired == (a + [x]) + b && a[k] == unpaired[k];
    OpenConcat(a + [x], b, m);
    OpenSnoc(a, x, m);
    OpenMember(a, m, k);
    var j :| 0 <= j < |Open(a, m)| && Open(a, m)[j] == a[k].operation.provenance.line;
    assert Open(unpaired, m)[j] == Open(a, m)[j] && Open(unpaired, m)[|Open(a, m)|] == x.operation.provenance.line;
  }

  lemma FoundIsFirst(unpaired: seq<Observed>, m: Named, line: nat, i: nat)
    requires i < |unpaired| && Matches(unpaired[i], m) && unpaired[i].operation.provenance.line < line
    requires forall k :: 0 <= k < i ==> !(Matches(unpaired[k], m) && unpaired[k].operation.provenance.line < line)
    requires Sorted(Open(unpaired, m))
    ensures var open, rest := Open(unpaired, m), unpaired[..i] + unpaired[i + 1..];
            && open != [] && open[0] < line && Open(rest, m) == open[1..]
            && forall n :: n != m ==> Open(rest, n) == Open(unpaired, n)
  {
    var a, x, b := unpaired[..i], unpaired[i], unpaired[i + 1..];
    assert unpaired == (a + [x]) + b;
    forall n ensures Open(unpaired, n) == Open(a, n) + (if Matches(x, n) then [x.operation.provenance.line] else [])
        + Open(b, n) && Open(a + b, n) == Open(a, n) + Open(b, n) {
      OpenConcat(a + [x], b, n);
      OpenSnoc(a, x, n);
      OpenConcat(a, b, n);
    }
    forall k | 0 <= k < i ensures !Matches(a[k], m) {
      if Matches(a[k], m) {
        InOrder(unpaired, m, k, i);
      }
    }
    OpenIsEmpty(a, m);
    forall n | n != m ensures !Matches(x, n) {
    }
  }

  // ---- The operations of one call ----

  function OperationOf(session: string, turn: Option<string>, t: Target, at: Provenance): Operation
  {
    Operation(session, turn, t.path, t.operation, at)
  }

  function KeyOf(session: string, identity: Identity, t: Target): Key
  {
    Key(session, identity, t.identity, t.operation)
  }

  lemma ObserveAt(session: Option<string>, turn: Option<string>, at: Provenance, identity: Identity,
                  targets: seq<Target>)
    ensures var observed := Observe(session, turn, at, identity, targets);
            if session.None? then observed == []
            else |observed| == |targets| && forall i :: 0 <= i < |targets| ==>
                   observed[i] == Observed(OperationOf(session.value, turn, targets[i], at),
                                           KeyOf(session.value, identity, targets[i]))
  {
  }

  lemma CountSnoc(targets: seq<Target>, n: nat, m: Named)
    requires n < |targets|
    ensures Count(targets[..n + 1], m) == Count(targets[..n], m) + if IsNamed(targets[n], m) then 1 else 0
  {
    assert targets[..n + 1][..n] == targets[..n];
  }

  lemma {:induction false} CountIsZero(targets: seq<Target>, m: Named)
    ensures Count(targets, m) == 0 <==> forall i :: 0 <= i < |targets| ==> !IsNamed(targets[i], m)
  {
    hide IsNamed;
    if targets != [] {
      CountIsZero(targets[..|targets| - 1], m);
    }
  }

  /** Observations of one row: in its session and place, one for each target. */
  ghost predicate AreOf(observed: seq<Observed>, session: Option<string>, turn: Option<string>, at: Provenance,
                        identity: Identity, targets: seq<Target>)
  {
    if session.None? then observed == []
    else |observed| == |targets| && forall i :: 0 <= i < |targets| ==>
           observed[i] == Observed(OperationOf(session.value, turn, targets[i], at),
                                   KeyOf(session.value, identity, targets[i]))
  }

  lemma {:induction false} OpenOfRow(observed: seq<Observed>, session: Option<string>, turn: Option<string>,
                                     at: Provenance, identity: Identity, targets: seq<Target>, m: Named)
    requires AreOf(observed, session, turn, at, identity, targets)
    ensures Open(observed, m) == if session == Some(m.session) then Copies(at.line, Count(targets, m)) else []
  {
    if observed != [] {
      var n := |observed| - 1;
      OpenOfRow(observed[..n], session, turn, at, identity, targets[..n], m);
    } else if session.Some? {
      assert targets == [];
    }
  }

  /** Announcements of calls without an id among those given. */
  ghost predicate FromNoId(unpaired: seq<Observed>, calls: seq<ToolCall>)
  {
    forall o :: o in unpaired ==> exists c :: c in calls && IsFrom(o, c)
  }

  ghost predicate IsFrom(o: Observed, c: ToolCall)
  {
    && c.callId.None? && o.operation.provenance == c.provenance && Some(o.operation.session) == c.sessionId
    && o.operation.turn == c.turnId
  }

  /** Keys of identified rows, or of the calls given. */
  ghost predicate KeysFrom(seen: set<Key>, calls: seq<ToolCall>)
  {
    forall key :: key in seen ==>
      key.identity.CallId? || (key.identity.MissingCallId? && exists c :: c in calls && c.provenance == key.identity.at)
  }

  lemma FromMore(unpaired: seq<Observed>, seen: set<Key>, calls: seq<ToolCall>, c: ToolCall)
    requires FromNoId(unpaired, calls) && KeysFrom(seen, calls)
    ensures FromNoId(unpaired, calls + [c]) && KeysFrom(seen, calls + [c])
  {
    hide IsFrom;
    assert forall d :: d in calls ==> d in calls + [c];
  }

  lemma CallRow(c: ToolCall)
    ensures AreOf(CallOperations(c), c.sessionId, c.turnId, c.provenance, CallIdentity(c), c.targets)
  {
    ObserveAt(c.sessionId, c.turnId, c.provenance, CallIdentity(c), c.targets);
  }

  lemma {:induction false} ClaimAllOpens(x: Extraction, c: ToolCall, observed: seq<Observed>)
    ensures var y := ClaimAll(x, c, observed);
            && y.emitted == x.emitted
            && y.unpaired == x.unpaired + (if c.callId.None? then observed else [])
            && forall key :: key in y.seen ==> key in x.seen || exists o :: o in observed && o.key == key
  {
    if observed != [] {
      var n := |observed| - 1;
      ClaimAllOpens(x, c, observed[..n]);
      assert observed == observed[..n] + [observed[n]];
      assert forall o :: o in observed[..n] ==> o in observed;
    }
  }

  lemma CallKeys(c: ToolCall)
    ensures forall o :: o in CallOperations(c) ==>
              o.key.identity == CallIdentity(c) && (c.callId.None? ==> IsFrom(o, c))
  {
    CallRow(c);
    var observed := CallOperations(c);
    forall o | o in observed ensures o.key.identity == CallIdentity(c) && (c.callId.None? ==> IsFrom(o, c)) {
      var i :| 0 <= i < |observed| && observed[i] == o;
    }
  }

  lemma ClaimedFrom(x: Extraction, c: ToolCall, calls: seq<ToolCall>)
    requires FromNoId(x.unpaired, calls) && KeysFrom(x.seen, calls)
    ensures var y := ClaimAll(x, c, CallOperations(c));
            FromNoId(y.unpaired, calls + [c]) && KeysFrom(y.seen, calls + [c])
  {
    hide CallOperations, ClaimAll, IsFrom;
    ClaimAllOpens(x, c, CallOperations(c));
    CallKeys(c);
    FromMore(x.unpaired, x.seen, calls, c);
    assert c in calls + [c];
  }

  lemma LinesSnoc(calls: seq<ToolCall>, c: ToolCall, m: Named, isNew: bool, failed: ToolCall -> bool)
    ensures Lines(calls + [c], m, isNew, failed) ==
            Lines(calls, m, isNew, failed) + if failed(c) then [] else Announces(c, m, isNew)
  {
    assert (calls + [c])[..|calls|] == calls;
  }

  lemma ClaimedOpens(x: Extraction, c: ToolCall, m: Named)
    ensures Open(ClaimAll(x, c, CallOperations(c)).unpaired, m) == Open(x.unpaired, m) + Announces(c, m, false)
  {
    hide CallOperations, ClaimAll, AreOf;
    ClaimAllOpens(x, c, CallOperations(c));
    CallRow(c);
    OpenOfRow(CallOperations(c), c.sessionId, c.turnId, c.provenance, CallIdentity(c), c.targets, m);
    OpenConcat(x.unpaired, CallOperations(c), m);
    assert x.unpaired + [] == x.unpaired;
  }

  // ---- The calls of earlier polls ----

  /** What is open after the first n of them. */
  lemma {:induction false} PriorOpens(prior: seq<ToolCall>, n: nat, results: seq<ToolResult>, calls: seq<ToolCall>,
                                      env: Reading, failed: ToolCall -> bool)
    requires n <= |prior| && forall c :: failed(c) == CallFails(results, calls, c, env)
    ensures var x := PriorPass(prior, n, results, calls, env);
            && x.emitted == [] && FromNoId(x.unpaired, prior[..n]) && KeysFrom(x.seen, prior[..n])
            && forall m :: Open(x.unpaired, m) == Lines(prior[..n], m, false, failed)
  {
    hide CallFails, CallOperations, ClaimAll, FromNoId, KeysFrom, Lines, Open, Announces;
    if n > 0 {
      PriorOpens(prior, n - 1, results, calls, env, failed);
      var x, c := PriorPass(prior, n - 1, results, calls, env), prior[n - 1];
      assert prior[..n] == prior[..n - 1] + [c];
      ClaimedFrom(x, c, prior[..n - 1]);
      FromMore(x.unpaired, x.seen, prior[..n - 1], c);
      ClaimAllOpens(x, c, CallOperations(c));
      forall m ensures Open(PriorPass(prior, n, results, calls, env).unpaired, m) ==
                       Lines(prior[..n], m, false, failed) {
        LinesSnoc(prior[..n - 1], c, m, false, failed);
        ClaimedOpens(x, c, m);
        assert Lines(prior[..n - 1], m, false, failed) + [] == Lines(prior[..n - 1], m, false, failed);
      }
    } else {
      assert prior[..0] == [];
      NothingOpen(failed);
    }
  }

  lemma NothingOpen(failed: ToolCall -> bool)
    ensures FromNoId([], []) && KeysFrom({}, [])
    ensures forall m :: Open([], m) == [] && Lines([], m, false, failed) == [] && Lines([], m, true, failed) == []
  {
  }

  // ---- The calls read now ----

  /** No earlier target has the same path and kind. */
  ghost predicate IsFirstTarget(targets: seq<Target>, i: nat)
  {
    i < |targets| && forall j :: 0 <= j < i ==>
      !(targets[j].identity == targets[i].identity && targets[j].operation == targets[i].operation)
  }

  /** The operation is that of the first target of its path and kind. */
  ghost predicate GivesTarget(targets: seq<Target>, session: string, turn: Option<string>, at: Provenance,
                              op: Operation)
  {
    exists i: nat :: IsFirstTarget(targets, i) && op == OperationOf(session, turn, targets[i], at)
  }

  function Once(line: nat, n: nat): seq<nat>
  {
    Copies(line, if n > 1 then 1 else n)
  }

  /** The effect of the first targets of a call without an id, none of whose keys was seen. */
  ghost predicate EmittedSoFar(x: Extraction, y: Extraction, session: string, turn: Option<string>, at: Provenance,
                               targets: seq<Target>)
  {
    && (forall m :: Open(y.unpaired, m) ==
                    Open(x.unpaired, m) + if m.session == session then Once(at.line, Count(targets, m)) else [])
    && (forall path, kind :: Key(session, MissingCallId(at), path, kind) in y.seen <==>
                             Count(targets, Named(session, path, kind)) > 0)
    && (forall key :: key in y.seen ==> key in x.seen || key.identity == MissingCallId(at))
    && forall op :: op in y.emitted <==> op in x.emitted || GivesTarget(targets, session, turn, at, op)
  }

  lemma FirstTargetSnoc(targets: seq<Target>, t: Target)
    ensures forall i: nat :: i < |targets| ==> (IsFirstTarget(targets + [t], i) <==> IsFirstTarget(targets, i))
    ensures IsFirstTarget(targets + [t], |targets|) <==> Count(targets, Named("", t.identity, t.operation)) == 0
  {
    var more := targets + [t];
    assert forall i :: 0 <= i < |targets| ==> more[i] == targets[i];
    CountIsZero(targets, Named("", t.identity, t.operation));
  }

  lemma {:induction false} CountIgnoresSession(targets: seq<Target>, m: Named, n: Named)
    requires m.path == n.path && m.kind == n.kind
    ensures Count(targets, m) == Count(targets, n)
  {
    if targets != [] {
      CountIgnoresSession(targets[..|targets| - 1], m, n);
    }
  }

  lemma EmitsNothing(x: Extraction, session: string, turn: Option<string>, at: Provenance)
    requires forall key :: key in x.seen ==> key.identity != MissingCallId(at)
    ensures EmittedSoFar(x, x, session, turn, at, [])
  {
    hide Open;
    FirstTargetsInRange([]);
    forall m ensures Open(x.unpaired, m) ==
                     Open(x.unpaired, m) + if m.session == session then Once(at.line, Count([], m)) else [] {
      OnceMore(at.line, 0);
    }
    assert forall path, kind :: Count([], Named(session, path, kind)) == 0;
    forall op ensures !GivesTarget([], session, turn, at, op) {
    }
  }

  lemma OpenOne(x: seq<Observed>, o: Observed)
    ensures forall m :: Open(x + [o], m) == Open(x, m) + if Matches(o, m) then [o.operation.provenance.line] else []
  {
    forall m ensures Open(x + [o], m) == Open(x, m) + if Matches(o, m) then [o.operation.provenance.line] else [] {
      OpenSnoc(x, o, m);
    }
  }

  lemma OnceMore(line: nat, n: nat)
    ensures Once(line, n + 1) == if n == 0 then [line] else Once(line, n)
    ensures Once(line, 0) == []
  {
  }

  lemma EmitOpens(x: Extraction, y: Extraction, session: string, turn: Option<string>, at: Provenance,
                  targets: seq<Target>, t: Target, m: Named)
    requires Open(y.unpaired, m) ==
             Open(x.unpaired, m) + if m.session == session then Once(at.line, Count(targets, m)) else []
    ensures var o := Observed(OperationOf(session, turn, t, at), KeyOf(session, MissingCallId(at), t));
            var n := Named(session, t.identity, t.operation);
            Open(if Count(targets, n) > 0 then y.unpaired else y.unpaired + [o], m) ==
            Open(x.unpaired, m) + if m.session == session then Once(at.line, Count(targets + [t], m)) else []
  {
    var o := Observed(OperationOf(session, turn, t, at), KeyOf(session, MissingCallId(at), t));
    OpenSnoc(y.unpaired, o, m);
    hide Open, Once;
    assert (targets + [t])[..|targets|] == targets;
    OnceMore(at.line, Count(targets, m));
    if m.session == session && IsNamed(t, m) {
      CountIgnoresSession(targets, m, Named(session, t.identity, t.operation));
      assert Open(x.unpaired, m) + [] == Open(x.unpaired, m);
    }
  }

  lemma GivesMore(session: string, turn: Option<string>, at: Provenance, targets: seq<Target>, t: Target, op: Operation)
    ensures GivesTarget(targets + [t], session, turn, at, op) <==>
            || GivesTarget(targets, session, turn, at, op)
            || (Count(targets, Named(session, t.identity, t.operation)) == 0 && op == OperationOf(session, turn, t, at))
  {
    var more := targets + [t];
    FirstTargetSnoc(targets, t);
    CountIgnoresSession(targets, Named("", t.identity, t.operation), Named(session, t.identity, t.operation));
    FirstTargetsInRange(targets);
    FirstTargetsInRange(more);
    hide IsFirstTarget, OperationOf, Count;
    assert forall i :: 0 <= i < |targets| ==> more[i] == targets[i];
    assert more[|targets|] == t;
    if GivesTarget(targets, session, turn, at, op) {
      var i: nat :| IsFirstTarget(targets, i) && op == OperationOf(session, turn, targets[i], at);
      assert IsFirstTarget(more, i) && op == OperationOf(session, turn, more[i], at);
    }
    if GivesTarget(more, session, turn, at, op) {
      var i: nat :| IsFirstTarget(more, i) && op == OperationOf(session, turn, more[i], at);
      if i < |targets| {
        assert IsFirstTarget(targets, i) && op == OperationOf(session, turn, targets[i], at);
      }
    }
    if Count(targets, Named(session, t.identity, t.operation)) == 0 && op == OperationOf(session, turn, t, at) {
      assert IsFirstTarget(more, |targets|);
    }
  }

  lemma FirstTargetsInRange(targets: seq<Target>)
    ensures forall i: nat :: IsFirstTarget(targets, i) ==> i < |targets|
  {
  }

  lemma EmitKeys(seen: set<Key>, session: string, at: Provenance, targets: seq<Target>, t: Target, path: string,
                 kind: string)
    requires Key(session, MissingCallId(at), path, kind) in seen <==> Count(targets, Named(session, path, kind)) > 0
    ensures Key(session, MissingCallId(at), path, kind) in seen + {KeyOf(session, MissingCallId(at), t)} <==>
            Count(targets + [t], Named(session, path, kind)) > 0
  {
    assert (targets + [t])[..|targets|] == targets;
  }

  lemma EmitNext(x: Extraction, y: Extraction, c: ToolCall, session: string, targets: seq<Target>, t: Target)
    requires c.callId.None? && EmittedSoFar(x, y, session, c.turnId, c.provenance, targets)
    ensures EmittedSoFar(x, EmitOne(y, c, Observed(OperationOf(session, c.turnId, t, c.provenance),
                                                   KeyOf(session, MissingCallId(c.provenance), t))),
                         session, c.turnId, c.provenance, targets + [t])
  {
    var at := c.provenance;
    var o := Observed(OperationOf(session, c.turnId, t, at), KeyOf(session, MissingCallId(at), t));
    var z := EmitOne(y, c, o);
    hide Open, Count, IsFirstTarget, Once, GivesTarget;
    forall m ensures Open(z.unpaired, m) ==
        Open(x.unpaired, m) + if m.session == session then Once(at.line, Count(targets + [t], m)) else [] {
      EmitOpens(x, y, session, c.turnId, at, targets, t, m);
    }
    forall path, kind
      ensures Key(session, MissingCallId(at), path, kind) in z.seen <==>
              Count(targets + [t], Named(session, path, kind)) > 0
    {
      EmitKeys(y.seen, session, at, targets, t, path, kind);
      assert o.key in y.seen ==> y.seen + {o.key} == y.seen;
    }
    forall op ensures op in z.emitted <==>
        op in x.emitted || GivesTarget(targets + [t], session, c.turnId, at, op) {
      GivesMore(session, c.turnId, at, targets, t, op);
    }
  }

  lemma {:induction false} EmitAllEmits(x: Extraction, c: ToolCall, observed: seq<Observed>, targets: seq<Target>)
    requires c.callId.None? && c.sessionId.Some?
    requires AreOf(observed, c.sessionId, c.turnId, c.provenance, MissingCallId(c.provenance), targets)
    requires forall key :: key in x.seen ==> key.identity != MissingCallId(c.provenance)
    ensures EmittedSoFar(x, EmitAll(x, c, observed), c.sessionId.value, c.turnId, c.provenance, targets)
  {
    hide EmittedSoFar, EmitOne;
    if observed == [] {
      EmitsNothing(x, c.sessionId.value, c.turnId, c.provenance);
      assert targets == [];
    } else {
      var n := |observed| - 1;
      EmitAllEmits(x, c, observed[..n], targets[..n]);
      assert targets == targets[..n] + [targets[n]];
      EmitNext(x, EmitAll(x, c, observed[..n]), c, c.sessionId.value, targets[..n], targets[n]);
    }
  }

  lemma {:induction false} EmitAllWithId(x: Extraction, c: ToolCall, observed: seq<Observed>)
    requires c.callId.Some?
    requires forall o :: o in observed ==> o.key.identity.CallId? && o.operation.provenance == c.provenance
    ensures var y := EmitAll(x, c, observed);
            && y.unpaired == x.unpaired
            && (forall key :: key in y.seen ==> key in x.seen || key.identity.CallId?)
            && (forall op :: op in x.emitted ==> op in y.emitted)
            && forall op :: op in y.emitted ==> op in x.emitted || op.provenance == c.provenance
  {
    if observed != [] {
      var n := |observed| - 1;
      assert observed == observed[..n] + [observed[n]];
      assert observed[n] in observed && forall o :: o in observed[..n] ==> o in observed;
      EmitAllWithId(x, c, observed[..n]);
    }
  }

  lemma RowWithId(c: ToolCall)
    requires c.callId.Some?
    ensures forall o :: o in CallOperations(c) ==> o.key.identity.CallId? && o.operation.provenance == c.provenance
  {
    CallRow(c);
    var observed := CallOperations(c);
    forall o | o in observed ensures o.key.identity.CallId? && o.operation.provenance == c.provenance {
      var i :| 0 <= i < |observed| && observed[i] == o;
    }
  }

  /** What a call read now puts in. */
  ghost predicate GivenByCall(op: Operation, c: ToolCall, failed: ToolCall -> bool)
  {
    c.sessionId.Some? && !failed(c) && GivesTarget(c.targets, c.sessionId.value, c.turnId, c.provenance, op)
  }

  /** The effect of one call on what is open, seen and emitted. */
  ghost predicate TakesCall(x: Extraction, y: Extraction, c: ToolCall, failed: ToolCall -> bool)
  {
    && (forall m :: Open(y.unpaired, m) == Open(x.unpaired, m) + if failed(c) then [] else Announces(c, m, true))
    && (forall key :: key in y.seen ==>
          key in x.seen || key.identity.CallId? || key.identity == MissingCallId(c.provenance))
    && (forall op :: op in y.emitted && op.provenance != c.provenance <==>
                     op in x.emitted && op.provenance != c.provenance)
    && (c.callId.None? ==> forall op: Operation :: op.provenance == c.provenance ==>
          (op in y.emitted <==> op in x.emitted || GivenByCall(op, c, failed)))
  }

  lemma TargetsAreThere(targets: seq<Target>, session: string, turn: Option<string>, at: Provenance)
    ensures forall op :: GivesTarget(targets, session, turn, at, op) ==> op.provenance == at
  {
  }

  lemma SoFarTakes(x: Extraction, y: Extraction, c: ToolCall, failed: ToolCall -> bool)
    requires c.callId.None? && !failed(c) && c.sessionId.Some?
    requires EmittedSoFar(x, y, c.sessionId.value, c.turnId, c.provenance, c.targets)
    ensures TakesCall(x, y, c, failed)
  {
    hide Open, Count, GivesTarget, Announces, Once;
    TargetsAreThere(c.targets, c.sessionId.value, c.turnId, c.provenance);
    AnnouncesOnce(c);
  }

  lemma NothingTaken(x: Extraction, c: ToolCall, failed: ToolCall -> bool)
    requires failed(c) || (c.callId.None? && c.sessionId.None?)
    ensures TakesCall(x, x, c, failed)
  {
    hide Open, Count, GivesTarget;
    assert forall m :: Open(x.unpaired, m) + [] == Open(x.unpaired, m);
  }

  lemma TakeNoId(x: Extraction, c: ToolCall, failed: ToolCall -> bool)
    requires c.callId.None? && !failed(c)
    requires forall key :: key in x.seen ==> key.identity != MissingCallId(c.provenance)
    ensures TakesCall(x, EmitAll(x, c, CallOperations(c)), c, failed)
  {
    hide *;
    if c.sessionId.Some? {
      NoIdRow(c);
      EmitAllEmits(x, c, CallOperations(c), c.targets);
      SoFarTakes(x, EmitAll(x, c, CallOperations(c)), c, failed);
    } else {
      NoSession(x, c);
      NothingTaken(x, c, failed);
    }
  }

  lemma NoIdRow(c: ToolCall)
    requires c.callId.None?
    ensures AreOf(CallOperations(c), c.sessionId, c.turnId, c.provenance, MissingCallId(c.provenance), c.targets)
  {
    CallRow(c);
  }

  lemma NoSession(x: Extraction, c: ToolCall)
    requires c.sessionId.None?
    ensures EmitAll(x, c, CallOperations(c)) == x
  {
  }

  lemma AnnouncesOnce(c: ToolCall)
    requires c.callId.None?
    ensures forall m :: Announces(c, m, true) ==
                        if c.sessionId == Some(m.session) then Once(c.provenance.line, Count(c.targets, m)) else []
  {
    hide Count;
  }

  lemma TakeOne(x: Extraction, c: ToolCall, results: seq<ToolResult>, calls: seq<ToolCall>, env: Reading,
                failed: ToolCall -> bool)
    requires failed(c) == CallFails(results, calls, c, env)
    requires forall key :: key in x.seen ==> key.identity != MissingCallId(c.provenance)
    ensures var y := if CallFails(results, calls, c, env) then x else EmitAll(x, c, CallOperations(c));
            TakesCall(x, y, c, failed)
  {
    hide *;
    if failed(c) {
      NothingTaken(x, c, failed);
    } else if c.callId.None? {
      TakeNoId(x, c, failed);
    } else {
      RowWithId(c);
      EmitAllWithId(x, c, CallOperations(c));
      WithIdTakes(x, EmitAll(x, c, CallOperations(c)), c, failed);
    }
  }

  lemma WithIdTakes(x: Extraction, y: Extraction, c: ToolCall, failed: ToolCall -> bool)
    requires c.callId.Some? && !failed(c) && y.unpaired == x.unpaired
    requires forall key :: key in y.seen ==> key in x.seen || key.identity.CallId?
    requires forall op :: op in x.emitted ==> op in y.emitted
    requires forall op :: op in y.emitted ==> op in x.emitted || op.provenance == c.provenance
    ensures TakesCall(x, y, c, failed)
  {
    hide Open;
    assert forall m :: Open(x.unpaired, m) + [] == Open(x.unpaired, m);
  }

  lemma {:induction false} EmittedFrom(x: Extraction, c: ToolCall, observed: seq<Observed>)
    ensures forall o :: o in EmitAll(x, c, observed).unpaired ==> o in x.unpaired || (c.callId.None? && o in observed)
  {
    if observed != [] {
      var n := |observed| - 1;
      assert observed == observed[..n] + [observed[n]];
      EmittedFrom(x, c, observed[..n]);
    }
  }

  /** Every call has a line of its own. */
  ghost predicate Apart(calls: seq<ToolCall>)
  {
    forall i, j :: 0 <= i < j < |calls| ==> calls[i].provenance != calls[j].provenance
  }

  /** After the first n calls read now. */
  ghost predicate CallsTaken(x: Extraction, prior: seq<ToolCall>, current: seq<ToolCall>, n: nat,
                             failed: ToolCall -> bool)
    requires n <= |current|
  {
    && FromNoId(x.unpaired, prior + current[..n]) && KeysFrom(x.seen, prior + current[..n])
    && CallsOpen(x, prior, current, n, failed) && CallsEmit(x, current, n, failed)
  }

  lemma UnseenPlace(seen: set<Key>, calls: seq<ToolCall>, c: ToolCall)
    requires KeysFrom(seen, calls) && forall d :: d in calls ==> d.provenance != c.provenance
    ensures forall key :: key in seen ==> key.identity != MissingCallId(c.provenance)
  {
  }

  lemma TakenFrom(x: Extraction, y: Extraction, c: ToolCall, calls: seq<ToolCall>, failed: ToolCall -> bool)
    requires FromNoId(x.unpaired, calls) && KeysFrom(x.seen, calls) && TakesCall(x, y, c, failed)
    requires forall o :: o in y.unpaired ==> o in x.unpaired || (c.callId.None? && o in CallOperations(c))
    ensures FromNoId(y.unpaired, calls + [c]) && KeysFrom(y.seen, calls + [c])
  {
    hide CallOperations, IsFrom, Open, GivenByCall, Announces;
    CallKeys(c);
    FromMore(x.unpaired, x.seen, calls, c);
    assert c in calls + [c];
  }

  lemma EarlierApart(prior: seq<ToolCall>, current: seq<ToolCall>, n: nat)
    requires Apart(prior + current) && n < |current|
    ensures forall d :: d in prior + current[..n] ==> d.provenance != current[n].provenance
    ensures forall k :: 0 <= k < n ==> current[k].provenance != current[n].provenance
    ensures prior + current[..n + 1] == (prior + current[..n]) + [current[n]]
    ensures current[..n + 1] == current[..n] + [current[n]]
  {
    var all, some := prior + current, prior + current[..n];
    assert forall i :: 0 <= i < |some| ==> some[i] == all[i];
    assert all[|prior| + n] == current[n] && forall k :: 0 <= k < n ==> all[|prior| + k] == current[k];
  }

  lemma {:induction false} CurrentCallsTaken(
      prior: seq<ToolCall>, current: seq<ToolCall>, n: nat, results: seq<ToolResult>, env: Reading,
      failed: ToolCall -> bool)
    requires n <= |current| && Apart(prior + current)
    requires forall c :: failed(c) == CallFails(results, prior + current, c, env)
    ensures var calls := prior + current;
            CallsTaken(CallPass(PriorPass(prior, |prior|, results, calls, env), current, n, results, calls, env), prior,
                       current, n, failed)
  {
    hide *;
    var calls := prior + current;
    var start := PriorPass(prior, |prior|, results, calls, env);
    if n == 0 {
      PriorOpens(prior, |prior|, results, calls, env, failed);
      NoneTaken(start, prior, current, failed);
      CallPassStarts(start, current, results, calls, env);
    } else {
      CurrentCallsTaken(prior, current, n - 1, results, env, failed);
      var x := CallPass(start, current, n - 1, results, calls, env);
      OneMoreTaken(x, prior, current, n - 1, results, env, failed);
      CallPassNext(start, current, n, results, calls, env);
    }
  }

  lemma CallPassStarts(x: Extraction, current: seq<ToolCall>, results: seq<ToolResult>, calls: seq<ToolCall>,
                       env: Reading)
    ensures CallPass(x, current, 0, results, calls, env) == x
  {
  }

  lemma CallPassNext(x: Extraction, current: seq<ToolCall>, n: nat, results: seq<ToolResult>, calls: seq<ToolCall>,
                     env: Reading)
    requires 0 < n <= |current|
    ensures var y, c := CallPass(x, current, n - 1, results, calls, env), current[n - 1];
            CallPass(x, current, n, results, calls, env) ==
            if CallFails(results, calls, c, env) then y else EmitAll(y, c, CallOperations(c))
  {
    hide CallFails, CallOperations, EmitAll;
  }

  lemma NoneTaken(x: Extraction, prior: seq<ToolCall>, current: seq<ToolCall>, failed: ToolCall -> bool)
    requires x.emitted == [] && FromNoId(x.unpaired, prior[..|prior|]) && KeysFrom(x.seen, prior[..|prior|])
    requires forall m :: Open(x.unpaired, m) == Lines(prior[..|prior|], m, false, failed)
    ensures CallsTaken(x, prior, current, 0, failed)
  {
    hide Open, FromNoId, KeysFrom;
    assert prior[..|prior|] == prior && prior + current[..0] == prior;
    forall m ensures Open(x.unpaired, m) == Lines(prior, m, false, failed) + Lines(current[..0], m, true, failed) {
      assert Lines(prior, m, false, failed) + [] == Lines(prior, m, false, failed);
    }
  }

  lemma OneMoreTaken(x: Extraction, prior: seq<ToolCall>, current: seq<ToolCall>, n: nat, results: seq<ToolResult>,
                     env: Reading, failed: ToolCall -> bool)
    requires n < |current| && Apart(prior + current) && CallsTaken(x, prior, current, n, failed)
    requires forall c :: failed(c) == CallFails(results, prior + current, c, env)
    ensures var c := current[n];
            CallsTaken(if CallFails(results, prior + current, c, env) then x else EmitAll(x, c, CallOperations(c)),
                       prior, current, n + 1, failed)
  {
    hide *;
    var c := current[n];
    var y := if CallFails(results, prior + current, c, env) then x else EmitAll(x, c, CallOperations(c));
    PartsTaken(x, prior, current, n, failed);
    EarlierApart(prior, current, n);
    UnseenPlace(x.seen, prior + current[..n], c);
    TakeOne(x, c, results, prior + current, env, failed);
    EmittedFrom(x, c, CallOperations(c));
    TakenFrom(x, y, c, prior + current[..n], failed);
    OpensNext(x, y, prior, current, n, failed);
    EmitsNext(x, y, prior, current, n, failed);
    AreTaken(y, prior, current, n + 1, failed);
  }

  ghost predicate CallsOpen(x: Extraction, prior: seq<ToolCall>, current: seq<ToolCall>, n: nat,
                            failed: ToolCall -> bool)
    requires n <= |current|
  {
    forall m :: Open(x.unpaired, m) == Lines(prior, m, false, failed) + Lines(current[..n], m, true, failed)
  }

  ghost predicate CallsEmit(x: Extraction, current: seq<ToolCall>, n: nat, failed: ToolCall -> bool)
    requires n <= |current|
  {
    && (forall op :: op in x.emitted ==> exists k :: 0 <= k < n && op.provenance == current[k].provenance)
    && forall k, op: Operation :: 0 <= k < n && current[k].callId.None? && op.provenance == current[k].provenance ==>
         (op in x.emitted <==> GivenByCall(op, current[k], failed))
  }

  lemma PartsTaken(x: Extraction, prior: seq<ToolCall>, current: seq<ToolCall>, n: nat, failed: ToolCall -> bool)
    requires n <= |current| && CallsTaken(x, prior, current, n, failed)
    ensures FromNoId(x.unpaired, prior + current[..n]) && KeysFrom(x.seen, prior + current[..n])
    ensures CallsOpen(x, prior, current, n, failed) && CallsEmit(x, current, n, failed)
  {
  }

  lemma AreTaken(x: Extraction, prior: seq<ToolCall>, current: seq<ToolCall>, n: nat, failed: ToolCall -> bool)
    requires n <= |current| && FromNoId(x.unpaired, prior + current[..n]) && KeysFrom(x.seen, prior + current[..n])
    requires CallsOpen(x, prior, current, n, failed) && CallsEmit(x, current, n, failed)
    ensures CallsTaken(x, prior, current, n, failed)
  {
  }

  lemma OpensNext(x: Extraction, y: Extraction, prior: seq<ToolCall>, current: seq<ToolCall>, n: nat,
                  failed: ToolCall -> bool)
    requires n < |current| && CallsOpen(x, prior, current, n, failed) && TakesCall(x, y, current[n], failed)
    ensures CallsOpen(y, prior, current, n + 1, failed)
  {
    hide Open, Lines, Announces, GivenByCall;
    assert current[..n + 1] == current[..n] + [current[n]];
    forall m ensures Open(y.unpaired, m) ==
                     Lines(prior, m, false, failed) + Lines(current[..n + 1], m, true, failed) {
      LinesSnoc(current[..n], current[n], m, true, failed);
    }
  }

  lemma EmitsNext(x: Extraction, y: Extraction, prior: seq<ToolCall>, current: seq<ToolCall>, n: nat,
                  failed: ToolCall -> bool)
    requires n < |current| && CallsEmit(x, current, n, failed) && TakesCall(x, y, current[n], failed)
    requires forall k :: 0 <= k < n ==> current[k].provenance != current[n].provenance
    ensures CallsEmit(y, current, n + 1, failed)
  {
    hide Open, Announces, GivenByCall;
  }

  // ---- The results ----

  lemma UsedAfterOne(used: nat, n: nat, waiting: nat)
    ensures UsedAfter(used, n, waiting) < waiting <==> used + n < waiting
    ensures UsedAfter(used, n + 1, waiting) ==
            UsedAfter(used, n, waiting) + if used + n < waiting then 1 else 0
    ensures UsedAfter(used, 0, waiting) == used
  {
  }

  /** In a sorted list the lines before a line stand in front. */
  lemma {:induction false} BeforeIs(lines: seq<nat>, line: nat)
    requires Sorted(lines)
    ensures Before(lines, line) <= |lines|
    ensures forall k :: 0 <= k < |lines| ==> (lines[k] < line <==> k < Before(lines, line))
  {
    if lines != [] {
      var n := |lines| - 1;
      BeforeIs(lines[..n], line);
      assert forall k :: 0 <= k < n ==> lines[..n][k] == lines[k] <= lines[n];
      assert n > 0 ==> lines[..n][n - 1] <= lines[n];
    }
  }

  /** What earlier results left open: of each operation's announcements those from a number on. */
  ghost predicate LeftOpen(unpaired: seq<Observed>, all: Named -> seq<nat>, used: Named -> nat)
  {
    forall m :: used(m) <= |all(m)| && Sorted(all(m)) && Open(unpaired, m) == all(m)[used(m)..]
  }

  /** The target repeats no announcement: those before the result are used up by then. */
  ghost predicate IsUnpaired(targets: seq<Target>, i: nat, session: string, line: nat, all: Named -> seq<nat>,
                             used: Named -> nat)
  {
    && i < |targets|
    && var m := Named(session, targets[i].identity, targets[i].operation);
       used(m) + Count(targets[..i], m) >= Before(all(m), line)
  }

  ghost predicate GivesAt(targets: seq<Target>, i: nat, session: string, turn: Option<string>, at: Provenance,
                          all: Named -> seq<nat>, used: Named -> nat, op: Operation)
  {
    && IsUnpaired(targets, i, session, at.line, all, used)
    && (forall j: nat :: j < i && IsUnpaired(targets, j, session, at.line, all, used) ==>
          !(targets[j].identity == targets[i].identity && targets[j].operation == targets[i].operation))
    && op == OperationOf(session, turn, targets[i], at)
  }

  /** The operation is that of the first target of its path and kind that repeats no announcement. */
  ghost predicate GivesUnpaired(targets: seq<Target>, session: string, turn: Option<string>, at: Provenance,
                                all: Named -> seq<nat>, used: Named -> nat, op: Operation)
  {
    exists i: nat :: GivesAt(targets, i, session, turn, at, all, used, op)
  }

  ghost predicate SeenUnpaired(targets: seq<Target>, session: string, line: nat, all: Named -> seq<nat>,
                               used: Named -> nat, path: string, kind: string)
  {
    exists i: nat :: IsUnpaired(targets, i, session, line, all, used)
                     && targets[i].identity == path && targets[i].operation == kind
  }

  /** The announcements used up after these targets too. */
  function NextUsed(m: Named, targets: seq<Target>, session: string, line: nat, all: Named -> seq<nat>,
                    used: Named -> nat): nat
  {
    if m.session == session then UsedAfter(used(m), Count(targets, m), Before(all(m), line)) else used(m)
  }

  /** The effect of the first targets of a result without an id. */
  ghost predicate AddedSoFar(x: Extraction, y: Extraction, session: string, turn: Option<string>, at: Provenance,
                             targets: seq<Target>, all: Named -> seq<nat>, used: Named -> nat)
  {
    && (forall m :: Open(y.unpaired, m) == Rest(all(m), NextUsed(m, targets, session, at.line, all, used)))
    && (forall o :: o in y.unpaired ==> o in x.unpaired)
    && (forall path, kind :: Key(session, MissingResultId(at), path, kind) in y.seen <==>
                             SeenUnpaired(targets, session, at.line, all, used, path, kind))
    && (forall key :: key in y.seen ==> key in x.seen || key.identity == MissingResultId(at))
    && forall op :: op in y.emitted <==>
         op in x.emitted || GivesUnpaired(targets, session, turn, at, all, used, op)
  }

  function Rest(lines: seq<nat>, n: nat): seq<nat>
  {
    if n <= |lines| then lines[n..] else []
  }

  lemma UnpairedStays(targets: seq<Target>, t: Target, session: string, line: nat, all: Named -> seq<nat>,
                      used: Named -> nat)
    ensures forall i: nat :: i < |targets| ==>
              (IsUnpaired(targets + [t], i, session, line, all, used) <==>
               IsUnpaired(targets, i, session, line, all, used))
    ensures var m := Named(session, t.identity, t.operation);
            IsUnpaired(targets + [t], |targets|, session, line, all, used) <==>
            used(m) + Count(targets, m) >= Before(all(m), line)
  {
    var more := targets + [t];
    assert more[..|targets|] == targets && more[|targets|] == t;
    forall i: nat | i < |targets|
      ensures IsUnpaired(more, i, session, line, all, used) <==> IsUnpaired(targets, i, session, line, all, used)
    {
      assert more[..i] == targets[..i];
    }
  }

  lemma UnpairedInRange(targets: seq<Target>, session: string, line: nat, all: Named -> seq<nat>, used: Named -> nat)
    ensures forall i: nat :: IsUnpaired(targets, i, session, line, all, used) ==> i < |targets|
  {
  }

  lemma SeenMore(targets: seq<Target>, t: Target, session: string, line: nat, all: Named -> seq<nat>,
                 used: Named -> nat, path: string, kind: string)
    ensures var m := Named(session, t.identity, t.operation);
            SeenUnpaired(targets + [t], session, line, all, used, path, kind) <==>
            || SeenUnpaired(targets, session, line, all, used, path, kind)
            || (used(m) + Count(targets, m) >= Before(all(m), line) && t.identity == path && t.operation == kind)
  {
    var more := targets + [t];
    UnpairedStays(targets, t, session, line, all, used);
    UnpairedInRange(targets, session, line, all, used);
    UnpairedInRange(more, session, line, all, used);
    hide IsUnpaired, Count, Before;
    assert more[|targets|] == t && forall i :: 0 <= i < |targets| ==> more[i] == targets[i];
    if SeenUnpaired(targets, session, line, all, used, path, kind) {
      var i: nat :| IsUnpaired(targets, i, session, line, all, used) && targets[i].identity == path
                    && targets[i].operation == kind;
      assert IsUnpaired(more, i, session, line, all, used);
    }
    if SeenUnpaired(more, session, line, all, used, path, kind) {
      var i: nat :| IsUnpaired(more, i, session, line, all, used) && more[i].identity == path
                    && more[i].operation == kind;
      if i < |targets| {
        assert IsUnpaired(targets, i, session, line, all, used);
      }
    }
  }

  lemma GivesAtStays(targets: seq<Target>, t: Target, i: nat, session: string, turn: Option<string>, at: Provenance,
                     all: Named -> seq<nat>, used: Named -> nat, op: Operation)
    requires i < |targets|
    ensures GivesAt(targets + [t], i, session, turn, at, all, used, op) <==>
            GivesAt(targets, i, session, turn, at, all, used, op)
  {
    UnpairedStays(targets, t, session, at.line, all, used);
    hide IsUnpaired, OperationOf;
    var more := targets + [t];
    assert forall j :: 0 <= j < |targets| ==> more[j] == targets[j];
  }

  lemma GivesAtEnd(targets: seq<Target>, t: Target, session: string, turn: Option<string>, at: Provenance,
                   all: Named -> seq<nat>, used: Named -> nat, op: Operation)
    ensures var m := Named(session, t.identity, t.operation);
            GivesAt(targets + [t], |targets|, session, turn, at, all, used, op) <==>
            && used(m) + Count(targets, m) >= Before(all(m), at.line)
            && !SeenUnpaired(targets, session, at.line, all, used, t.identity, t.operation)
            && op == OperationOf(session, turn, t, at)
  {
    UnpairedStays(targets, t, session, at.line, all, used);
    UnpairedInRange(targets, session, at.line, all, used);
    hide IsUnpaired, OperationOf, Count, Before;
    var more := targets + [t];
    assert more[|targets|] == t && forall j :: 0 <= j < |targets| ==> more[j] == targets[j];
  }

  lemma GivesInRange(targets: seq<Target>, session: string, turn: Option<string>, at: Provenance,
                     all: Named -> seq<nat>, used: Named -> nat, op: Operation)
    ensures forall i: nat :: GivesAt(targets, i, session, turn, at, all, used, op) ==> i < |targets|
  {
  }

  lemma GivesMoreUnpaired(targets: seq<Target>, t: Target, session: string, turn: Option<string>, at: Provenance,
                          all: Named -> seq<nat>, used: Named -> nat, op: Operation)
    ensures var m := Named(session, t.identity, t.operation);
            GivesUnpaired(targets + [t], session, turn, at, all, used, op) <==>
            || GivesUnpaired(targets, session, turn, at, all, used, op)
            || (&& used(m) + Count(targets, m) >= Before(all(m), at.line)
                && !SeenUnpaired(targets, session, at.line, all, used, t.identity, t.operation)
                && op == OperationOf(session, turn, t, at))
  {
    GivesAtEnd(targets, t, session, turn, at, all, used, op);
    GivesInRange(targets, session, turn, at, all, used, op);
    GivesInRange(targets + [t], session, turn, at, all, used, op);
    hide GivesAt, SeenUnpaired, OperationOf, Count, Before;
    forall i: nat | i < |targets|
      ensures GivesAt(targets + [t], i, session, turn, at, all, used, op) <==>
              GivesAt(targets, i, session, turn, at, all, used, op)
    {
      GivesAtStays(targets, t, i, session, turn, at, all, used, op);
    }
  }

  // ---- One more target of a result ----

  /** Whether the observation repeats an announcement, and what is open then. */
  lemma RepeatedIff(unpaired: seq<Observed>, o: Observed, lines: seq<nat>, n: nat)
    requires AllNear(unpaired, o) && Sorted(lines) && n <= |lines| && Open(unpaired, NameOf(o)) == lines[n..]
    ensures var found := FirstRepeated(unpaired, o);
            && (found.Some? <==> n < Before(lines, o.operation.provenance.line))
            && (found.Some? ==>
                  var rest := unpaired[..found.value] + unpaired[found.value + 1..];
                  && n + 1 <= |lines| && Open(rest, NameOf(o)) == lines[n + 1..]
                  && (forall x :: x in rest ==> x in unpaired)
                  && forall m :: m != NameOf(o) ==> Open(rest, m) == Open(unpaired, m))
  {
    BeforeIs(lines, o.operation.provenance.line);
    assert Sorted(lines[n..]);
    RepeatedIsFirst(unpaired, o);
    hide Open, FirstRepeated, AllNear, Before, Sorted;
  }

  ghost predicate AllUsed(all: Named -> seq<nat>, used: Named -> nat)
  {
    forall m :: Sorted(all(m)) && used(m) <= |all(m)|
  }

  lemma NextUsedFits(m: Named, targets: seq<Target>, session: string, line: nat, all: Named -> seq<nat>,
                     used: Named -> nat)
    requires AllUsed(all, used)
    ensures NextUsed(m, targets, session, line, all, used) <= |all(m)| && Sorted(all(m))
  {
    hide Count, Before;
    BeforeIs(all(m), line);
  }

  lemma NextUsedMore(m: Named, targets: seq<Target>, t: Target, session: string, line: nat, all: Named -> seq<nat>,
                     used: Named -> nat)
    ensures var was, next := NextUsed(m, targets, session, line, all, used),
                             NextUsed(m, targets + [t], session, line, all, used);
            if m == Named(session, t.identity, t.operation) then
              && (was < Before(all(m), line) <==> used(m) + Count(targets, m) < Before(all(m), line))
              && next == was + if was < Before(all(m), line) then 1 else 0
            else next == was
  {
    hide Before;
    assert (targets + [t])[..|targets|] == targets;
    UsedAfterOne(used(m), Count(targets, m), Before(all(m), line));
  }

  lemma AddNext(x: Extraction, y: Extraction, r: ToolResult, session: string, targets: seq<Target>, t: Target,
                all: Named -> seq<nat>, used: Named -> nat)
    requires r.callId.None? && AllUsed(all, used)
    requires AddedSoFar(x, y, session, r.turnId, r.provenance, targets, all, used)
    requires AllNear(y.unpaired, Observed(OperationOf(session, r.turnId, t, r.provenance),
                                          KeyOf(session, MissingResultId(r.provenance), t)))
    ensures AddedSoFar(x, AddOne(y, r, Observed(OperationOf(session, r.turnId, t, r.provenance),
                                                KeyOf(session, MissingResultId(r.provenance), t))),
                       session, r.turnId, r.provenance, targets + [t], all, used)
  {
    var at, m := r.provenance, Named(session, t.identity, t.operation);
    var o := Observed(OperationOf(session, r.turnId, t, at), KeyOf(session, MissingResultId(at), t));
    var z := AddOne(y, r, o);
    hide Open, Count, Before, SeenUnpaired, GivesUnpaired, NextUsed, FirstRepeated, AllUsed, Sorted, AllNear;
    NextUsedFits(m, targets, session, at.line, all, used);
    RepeatedIff(y.unpaired, o, all(m), NextUsed(m, targets, session, at.line, all, used));
    forall n ensures Open(z.unpaired, n) ==
                     Rest(all(n), NextUsed(n, targets + [t], session, at.line, all, used)) {
      NextUsedMore(n, targets, t, session, at.line, all, used);
    }
    NextUsedMore(m, targets, t, session, at.line, all, used);
    forall path, kind
      ensures Key(session, MissingResultId(at), path, kind) in z.seen <==>
              SeenUnpaired(targets + [t], session, at.line, all, used, path, kind)
    {
      SeenMore(targets, t, session, at.line, all, used, path, kind);
    }
    forall op ensures op in z.emitted <==>
        op in x.emitted || GivesUnpaired(targets + [t], session, r.turnId, at, all, used, op) {
      GivesMoreUnpaired(targets, t, session, r.turnId, at, all, used, op);
    }
  }

  // ---- All targets of a result, all results ----

  /** Open announcements in the log of the result, in turns that agree with its own. */
  ghost predicate IsNear(unpaired: seq<Observed>, r: ToolResult)
  {
    forall o :: o in unpaired ==>
      && o.operation.provenance.path == r.provenance.path
      && (Some(o.operation.session) == r.sessionId ==> CompatibleContext(o.operation.turn, r.turnId))
  }

  lemma NearObservation(unpaired: seq<Observed>, more: seq<Observed>, r: ToolResult, session: string, t: Target)
    requires IsNear(more, r) && r.sessionId == Some(session) && forall o :: o in unpaired ==> o in more
    ensures AllNear(unpaired, Observed(OperationOf(session, r.turnId, t, r.provenance),
                                       KeyOf(session, MissingResultId(r.provenance), t)))
  {
    hide CompatibleContext;
  }

  lemma AddsNothing(x: Extraction, session: string, turn: Option<string>, at: Provenance, all: Named -> seq<nat>,
                    used: Named -> nat)
    requires LeftOpen(x.unpaired, all, used)
    requires forall key :: key in x.seen ==> key.identity != MissingResultId(at)
    ensures AddedSoFar(x, x, session, turn, at, [], all, used)
  {
    hide Open, Before;
    UnpairedInRange([], session, at.line, all, used);
    forall m ensures Open(x.unpaired, m) == Rest(all(m), NextUsed(m, [], session, at.line, all, used)) {
      UsedAfterOne(used(m), 0, Before(all(m), at.line));
    }
    forall op ensures !GivesUnpaired([], session, turn, at, all, used, op) {
      GivesInRange([], session, turn, at, all, used, op);
    }
  }

  lemma LeftOpenIsUsed(unpaired: seq<Observed>, all: Named -> seq<nat>, used: Named -> nat)
    requires LeftOpen(unpaired, all, used)
    ensures AllUsed(all, used)
  {
    hide Open;
  }

  lemma StillThere(x: Extraction, y: Extraction, session: string, turn: Option<string>, at: Provenance,
                   targets: seq<Target>, all: Named -> seq<nat>, used: Named -> nat)
    requires AddedSoFar(x, y, session, turn, at, targets, all, used)
    ensures forall o :: o in y.unpaired ==> o in x.unpaired
  {
  }

  lemma {:induction false} AddAllAdds(x: Extraction, r: ToolResult, session: string, observed: seq<Observed>,
                                      targets: seq<Target>, all: Named -> seq<nat>, used: Named -> nat)
    requires r.callId.None? && r.sessionId == Some(session) && IsNear(x.unpaired, r) && LeftOpen(x.unpaired, all, used)
    requires AreOf(observed, r.sessionId, r.turnId, r.provenance, MissingResultId(r.provenance), targets)
    requires forall key :: key in x.seen ==> key.identity != MissingResultId(r.provenance)
    ensures AddedSoFar(x, AddAll(x, r, observed), session, r.turnId, r.provenance, targets, all, used)
  {
    hide AddedSoFar, AddOne, IsNear, LeftOpen;
    if observed == [] {
      AddsNothing(x, session, r.turnId, r.provenance, all, used);
      assert targets == [];
    } else {
      var n := |observed| - 1;
      AddAllAdds(x, r, session, observed[..n], targets[..n], all, used);
      assert targets == targets[..n] + [targets[n]];
      var y := AddAll(x, r, observed[..n]);
      StillThere(x, y, session, r.turnId, r.provenance, targets[..n], all, used);
      NearObservation(y.unpaired, x.unpaired, r, session, targets[n]);
      LeftOpenIsUsed(x.unpaired, all, used);
      AddNext(x, y, r, session, targets[..n], targets[n], all, used);
    }
  }

  /** What a result puts in: the operations that repeat no announcement, if it stands and has a session. */
  ghost predicate GivenByResult(op: Operation, r: ToolResult, all: Named -> seq<nat>, used: Named -> nat, env: Reading)
  {
    && Stands(r, env) && r.sessionId.Some?
    && GivesUnpaired(env.observe(r, None), r.sessionId.value, r.turnId, r.provenance, all, used, op)
  }

  function UsedNext(m: Named, r: ToolResult, all: Named -> seq<nat>, used: Named -> nat, env: Reading): nat
  {
    UsedAfter(used(m), Names(r, m, env), Before(all(m), r.provenance.line))
  }

  /** The effect of one result. */
  ghost predicate TakesResult(x: Extraction, y: Extraction, r: ToolResult, all: Named -> seq<nat>, used: Named -> nat,
                              env: Reading)
  {
    && (forall m :: Open(y.unpaired, m) == Rest(all(m), UsedNext(m, r, all, used, env)))
    && (forall o :: o in y.unpaired ==> o in x.unpaired)
    && (forall key :: key in y.seen ==>
          key in x.seen || key.identity.CallId? || key.identity == MissingResultId(r.provenance))
    && (forall op :: op in y.emitted && op.provenance != r.provenance <==>
                     op in x.emitted && op.provenance != r.provenance)
    && (r.callId.None? ==> forall op: Operation :: op.provenance == r.provenance ==>
          (op in y.emitted <==> op in x.emitted || GivenByResult(op, r, all, used, env)))
  }

  lemma NoIdMatchesNothing(calls: seq<ToolCall>, r: ToolResult, results: seq<ToolResult>, env: Reading)
    requires r.callId.None?
    ensures MatchingCall(calls, r) == None && ResultIsSkipped(r, results, calls, env) == !Stands(r, env)
  {
    hide ResultIsFailed, CallIsFailed;
    NoIdNoCandidates(calls, r);
  }

  lemma {:induction false} NoIdNoCandidates(calls: seq<ToolCall>, r: ToolResult)
    requires r.callId.None?
    ensures Candidates(calls, r) == []
  {
    if calls != [] {
      NoIdNoCandidates(calls[..|calls| - 1], r);
    }
  }

  lemma ResultRow(r: ToolResult, matched: Option<ToolCall>, env: Reading)
    ensures AreOf(ResultOperations(r, matched, env), r.sessionId, r.turnId, r.provenance, ResultIdentity(r),
                  env.observe(r, matched))
  {
    ObserveAt(r.sessionId, r.turnId, r.provenance, ResultIdentity(r), env.observe(r, matched));
  }

  lemma NoneAdded(x: Extraction, r: ToolResult, all: Named -> seq<nat>, used: Named -> nat, env: Reading)
    requires LeftOpen(x.unpaired, all, used) && (!Stands(r, env) || r.sessionId.None? || r.callId.Some?)
    requires r.callId.None? ==> !Stands(r, env) || r.sessionId.None?
    ensures TakesResult(x, x, r, all, used, env)
  {
    hide Open, Before, Stands, GivesUnpaired;
    forall m ensures Open(x.unpaired, m) == Rest(all(m), UsedNext(m, r, all, used, env)) {
      UsedAfterOne(used(m), 0, Before(all(m), r.provenance.line));
    }
  }

  lemma {:induction false} AddAllWithId(x: Extraction, r: ToolResult, observed: seq<Observed>)
    requires r.callId.Some?
    requires forall o :: o in observed ==> o.key.identity.CallId? && o.operation.provenance == r.provenance
    ensures var y := AddAll(x, r, observed);
            && y.unpaired == x.unpaired
            && (forall key :: key in y.seen ==> key in x.seen || key.identity.CallId?)
            && (forall op :: op in x.emitted ==> op in y.emitted)
            && forall op :: op in y.emitted ==> op in x.emitted || op.provenance == r.provenance
  {
    hide FirstRepeated;
    if observed != [] {
      var n := |observed| - 1;
      assert observed == observed[..n] + [observed[n]];
      assert observed[n] in observed && forall o :: o in observed[..n] ==> o in observed;
      AddAllWithId(x, r, observed[..n]);
    }
  }

  lemma ResultRowWithId(r: ToolResult, matched: Option<ToolCall>, env: Reading)
    requires r.callId.Some?
    ensures forall o :: o in ResultOperations(r, matched, env) ==>
              o.key.identity.CallId? && o.operation.provenance == r.provenance
  {
    ResultRow(r, matched, env);
    var observed := ResultOperations(r, matched, env);
    forall o | o in observed ensures o.key.identity.CallId? && o.operation.provenance == r.provenance {
      var i :| 0 <= i < |observed| && observed[i] == o;
    }
  }

  lemma WithIdAdds(x: Extraction, y: Extraction, r: ToolResult, all: Named -> seq<nat>, used: Named -> nat,
                   env: Reading)
    requires r.callId.Some? && TakesResult(x, x, r, all, used, env) && y.unpaired == x.unpaired
    requires forall key :: key in y.seen ==> key in x.seen || key.identity.CallId?
    requires forall op :: op in x.emitted ==> op in y.emitted
    requires forall op :: op in y.emitted ==> op in x.emitted || op.provenance == r.provenance
    ensures TakesResult(x, y, r, all, used, env)
  {
    hide Open, UsedNext;
  }

  lemma UnpairedThere(targets: seq<Target>, session: string, turn: Option<string>, at: Provenance,
                      all: Named -> seq<nat>, used: Named -> nat)
    ensures forall op :: GivesUnpaired(targets, session, turn, at, all, used, op) ==> op.provenance == at
  {
    hide IsUnpaired;
  }

  lemma SoFarAdds(x: Extraction, y: Extraction, r: ToolResult, all: Named -> seq<nat>, used: Named -> nat, env: Reading)
    requires r.callId.None? && Stands(r, env) && r.sessionId.Some? && LeftOpen(x.unpaired, all, used)
    requires AddedSoFar(x, y, r.sessionId.value, r.turnId, r.provenance, env.observe(r, None), all, used)
    ensures TakesResult(x, y, r, all, used, env)
  {
    hide Open, Before, Stands, GivesUnpaired, SeenUnpaired, Count;
    UnpairedThere(env.observe(r, None), r.sessionId.value, r.turnId, r.provenance, all, used);
    forall m ensures NextUsed(m, env.observe(r, None), r.sessionId.value, r.provenance.line, all, used) ==
                     UsedNext(m, r, all, used, env) {
      UsedAfterOne(used(m), 0, Before(all(m), r.provenance.line));
    }
    hide NextUsed, UsedNext;
  }

  lemma TakeResult(x: Extraction, r: ToolResult, results: seq<ToolResult>, calls: seq<ToolCall>, all: Named -> seq<nat>,
                   used: Named -> nat, env: Reading)
    requires r.callId.None? ==> IsNear(x.unpaired, r)
    requires LeftOpen(x.unpaired, all, used)
    requires forall key :: key in x.seen ==> key.identity != MissingResultId(r.provenance)
    ensures var y := if ResultIsSkipped(r, results, calls, env) then x
                     else AddAll(x, r, ResultOperations(r, MatchingCall(calls, r), env));
            TakesResult(x, y, r, all, used, env)
  {
    hide *;
    if r.callId.Some? {
      NoneAdded(x, r, all, used, env);
      ResultRowWithId(r, MatchingCall(calls, r), env);
      AddAllWithId(x, r, ResultOperations(r, MatchingCall(calls, r), env));
      if !ResultIsSkipped(r, results, calls, env) {
        WithIdAdds(x, AddAll(x, r, ResultOperations(r, MatchingCall(calls, r), env)), r, all, used, env);
      }
    } else {
      NoIdMatchesNothing(calls, r, results, env);
      if !Stands(r, env) {
        NoneAdded(x, r, all, used, env);
      } else if r.sessionId.None? {
        NoSessionAdds(x, r, env);
        NoneAdded(x, r, all, used, env);
      } else {
        NoIdResultRow(r, env);
        AddAllAdds(x, r, r.sessionId.value, ResultOperations(r, None, env), env.observe(r, None), all, used);
        SoFarAdds(x, AddAll(x, r, ResultOperations(r, None, env)), r, all, used, env);
      }
    }
  }

  lemma NoIdResultRow(r: ToolResult, env: Reading)
    requires r.callId.None?
    ensures AreOf(ResultOperations(r, None, env), r.sessionId, r.turnId, r.provenance, MissingResultId(r.provenance),
                  env.observe(r, None))
  {
    ResultRow(r, None, env);
  }

  lemma NoSessionAdds(x: Extraction, r: ToolResult, env: Reading)
    requires r.sessionId.None?
    ensures AddAll(x, r, ResultOperations(r, None, env)) == x
  {
  }

  // ---- The logs ----

  /**
   * One log: every call and result has a line of its own, calls without an id come in the order of their lines, and
   * where a call and a result without ids are of one session their turns agree.
   */
  ghost predicate OneLog(prior: seq<ToolCall>, current: seq<ToolCall>, results: seq<ToolResult>, log: string)
  {
    var calls := prior + current;
    && Apart(calls) && OwnPlaces(current, results) && ResultPlaces(results)
    && (forall c :: c in calls && c.callId.None? ==> c.provenance.path == log)
    && (forall r :: r in results && r.callId.None? ==> r.provenance.path == log)
    && (forall i, j :: 0 <= i < j < |calls| && calls[i].callId.None? && calls[j].callId.None? ==>
          calls[i].provenance.line < calls[j].provenance.line)
    && forall c, r :: c in calls && r in results && c.callId.None? && r.callId.None? && c.sessionId == r.sessionId ==>
         CompatibleContext(c.turnId, r.turnId)
  }

  /** The lines on which the operation is announced, in order. */
  function Announced(prior: seq<ToolCall>, current: seq<ToolCall>, m: Named, failed: ToolCall -> bool): seq<nat>
  {
    Lines(prior, m, false, failed) + Lines(current, m, true, failed)
  }

  /** Every line is that of a call without an id. */
  ghost predicate LinesOf(lines: seq<nat>, calls: seq<ToolCall>)
  {
    forall k :: 0 <= k < |lines| ==> IsLineOf(lines[k], calls)
  }

  ghost predicate IsLineOf(line: nat, calls: seq<ToolCall>)
  {
    exists c :: c in calls && c.callId.None? && c.provenance.line == line
  }

  ghost predicate Ordered(calls: seq<ToolCall>)
  {
    forall i, j :: 0 <= i < j < |calls| && calls[i].callId.None? && calls[j].callId.None? ==>
      calls[i].provenance.line < calls[j].provenance.line
  }

  lemma AnnouncesLine(c: ToolCall, m: Named, isNew: bool)
    ensures var lines := Announces(c, m, isNew);
            forall k :: 0 <= k < |lines| ==> c.callId.None? && lines[k] == c.provenance.line
  {
    hide Count;
  }

  lemma LastLine(line: nat, calls: seq<ToolCall>, c: ToolCall)
    ensures IsLineOf(line, calls) ==> IsLineOf(line, calls + [c])
    ensures IsLineOf(line, calls) && c.callId.None? && Ordered(calls + [c]) ==> line < c.provenance.line
    ensures c.callId.None? ==> IsLineOf(c.provenance.line, calls + [c])
  {
    var all := calls + [c];
    assert all[|calls|] == c && c in all && forall d :: d in calls ==> d in all;
    if IsLineOf(line, calls) {
      var d :| d in calls && d.callId.None? && d.provenance.line == line;
      assert d in all;
      var i :| 0 <= i < |calls| && calls[i] == d;
      assert all[i] == d;
    }
  }

  lemma SortedMore(lines: seq<nat>, calls: seq<ToolCall>, c: ToolCall, m: Named, isNew: bool)
    requires Ordered(calls + [c]) && LinesOf(lines, calls) && Sorted(lines)
    ensures Sorted(lines + Announces(c, m, isNew)) && LinesOf(lines + Announces(c, m, isNew), calls + [c])
    ensures LinesOf(lines, calls + [c])
  {
    AnnouncesLine(c, m, isNew);
    forall line: nat
      ensures IsLineOf(line, calls) ==> IsLineOf(line, calls + [c])
      ensures IsLineOf(line, calls) && c.callId.None? ==> line < c.provenance.line
      ensures c.callId.None? ==> IsLineOf(c.provenance.line, calls + [c])
    {
      LastLine(line, calls, c);
    }
    hide Announces, Ordered, IsLineOf;
  }

  lemma OrderedParts(calls: seq<ToolCall>, c: ToolCall)
    requires Ordered(calls + [c])
    ensures Ordered(calls)
  {
    assert forall i :: 0 <= i < |calls| ==> (calls + [c])[i] == calls[i];
  }

  lemma {:induction false} LinesSorted(calls: seq<ToolCall>, m: Named, failed: ToolCall -> bool)
    requires Ordered(calls)
    ensures Sorted(Lines(calls, m, false, failed)) && LinesOf(Lines(calls, m, false, failed), calls)
  {
    hide Announces, Ordered, Sorted, LinesOf;
    if calls != [] {
      var n := |calls| - 1;
      assert calls == calls[..n] + [calls[n]];
      OrderedParts(calls[..n], calls[n]);
      LinesSorted(calls[..n], m, failed);
      LinesSnoc(calls[..n], calls[n], m, false, failed);
      var lines := Lines(calls[..n], m, false, failed);
      SortedMore(lines, calls[..n], calls[n], m, false);
      assert lines + [] == lines;
    } else {
      NoLines(m, failed);
    }
  }

  lemma AnnouncedSnoc(prior: seq<ToolCall>, current: seq<ToolCall>, c: ToolCall, m: Named, failed: ToolCall -> bool)
    ensures Announced(prior, current + [c], m, failed) ==
            Announced(prior, current, m, failed) + if failed(c) then [] else Announces(c, m, true)
  {
    LinesSnoc(current, c, m, true, failed);
    hide Lines, Announces;
    var a, b := Lines(prior, m, false, failed), Lines(current, m, true, failed);
    var d := if failed(c) then [] else Announces(c, m, true);
    assert a + (b + d) == (a + b) + d;
  }

  lemma SortedNext(prior: seq<ToolCall>, current: seq<ToolCall>, c: ToolCall, m: Named, failed: ToolCall -> bool)
    requires Ordered(prior + (current + [c])) && Sorted(Announced(prior, current, m, failed))
    requires LinesOf(Announced(prior, current, m, failed), prior + current)
    ensures Sorted(Announced(prior, current + [c], m, failed))
    ensures LinesOf(Announced(prior, current + [c], m, failed), prior + (current + [c]))
  {
    hide *;
    assert prior + (current + [c]) == (prior + current) + [c];
    AnnouncedSnoc(prior, current, c, m, failed);
    var lines := Announced(prior, current, m, failed);
    SortedMore(lines, prior + current, c, m, true);
    assert lines + [] == lines;
  }

  lemma {:induction false} AnnouncedSorted(prior: seq<ToolCall>, current: seq<ToolCall>, m: Named,
                                           failed: ToolCall -> bool)
    requires Ordered(prior + current)
    ensures Sorted(Announced(prior, current, m, failed))
    ensures LinesOf(Announced(prior, current, m, failed), prior + current)
  {
    hide *;
    if current == [] {
      assert prior + current == prior;
      LinesSorted(prior, m, failed);
      NoneNew(prior, m, failed);
    } else {
      var init, c := current[..|current| - 1], current[|current| - 1];
      assert current == init + [c] && prior + current == (prior + init) + [c];
      OrderedParts(prior + init, c);
      AnnouncedSorted(prior, init, m, failed);
      SortedNext(prior, init, c, m, failed);
    }
  }

  lemma NoneNew(prior: seq<ToolCall>, m: Named, failed: ToolCall -> bool)
    ensures Announced(prior, [], m, failed) == Lines(prior, m, false, failed)
  {
    assert Lines(prior, m, false, failed) + [] == Lines(prior, m, false, failed);
  }

  lemma NoLines(m: Named, failed: ToolCall -> bool)
    ensures Lines([], m, false, failed) == [] && Sorted([]) && LinesOf([], [])
  {
  }

  // ---- After some of the results ----

  /** After the first n results. */
  ghost predicate ResultsTaken(x: Extraction, start: Extraction, results: seq<ToolResult>, n: nat,
                               all: Named -> seq<nat>, env: Reading)
    requires n <= |results|
  {
    && (forall m :: Open(x.unpaired, m) == Rest(all(m), Used(all(m), results, n, m, env)))
    && (forall m :: Used(all(m), results, n, m, env) <= |all(m)|)
    && (forall o :: o in x.unpaired ==> o in start.unpaired)
    && (forall key :: key in x.seen && key.identity.MissingResultId? ==>
          exists k :: 0 <= k < n && results[k].provenance == key.identity.at)
    && ResultsEmit(x, start, results, n, all, env)
  }

  /** What the first k results used up. */
  ghost function UsedBy(all: Named -> seq<nat>, results: seq<ToolResult>, k: nat, env: Reading): Named -> nat
    requires k <= |results|
  {
    (m: Named) => Used(all(m), results, k, m, env)
  }

  ghost predicate ResultsEmit(x: Extraction, start: Extraction, results: seq<ToolResult>, n: nat,
                              all: Named -> seq<nat>, env: Reading)
    requires n <= |results|
  {
    && (forall op: Operation :: (forall k :: 0 <= k < n ==> results[k].provenance != op.provenance) ==>
          (op in x.emitted <==> op in start.emitted))
    && forall k: nat, op: Operation ::
         k < n && results[k].callId.None? && op.provenance == results[k].provenance ==>
           (op in x.emitted <==> GivenByResult(op, results[k], all, UsedBy(all, results, k, env), env))
  }

  lemma NoResultTaken(start: Extraction, results: seq<ToolResult>, all: Named -> seq<nat>, env: Reading)
    requires forall m :: Open(start.unpaired, m) == all(m)
    requires forall key :: key in start.seen ==> !key.identity.MissingResultId?
    ensures ResultsTaken(start, start, results, 0, all, env)
  {
    hide Open;
  }

  lemma LeftAfter(x: Extraction, start: Extraction, results: seq<ToolResult>, n: nat, all: Named -> seq<nat>,
                  env: Reading)
    requires n <= |results| && ResultsTaken(x, start, results, n, all, env) && forall m :: Sorted(all(m))
    ensures LeftOpen(x.unpaired, all, UsedBy(all, results, n, env))
    ensures forall o :: o in x.unpaired ==> o in start.unpaired
    ensures forall key :: key in x.seen && key.identity.MissingResultId? ==>
              exists k :: 0 <= k < n && results[k].provenance == key.identity.at
    ensures ResultsEmit(x, start, results, n, all, env)
  {
    hide Open, Used, Sorted, ResultsEmit;
  }

  lemma UsedNextIs(m: Named, results: seq<ToolResult>, n: nat, all: Named -> seq<nat>, env: Reading)
    requires n < |results| && Sorted(all(m)) && Used(all(m), results, n, m, env) <= |all(m)|
    ensures UsedNext(m, results[n], all, UsedBy(all, results, n, env), env) == Used(all(m), results, n + 1, m, env)
            <= |all(m)|
  {
    hide Names, Sorted;
    BeforeIs(all(m), results[n].provenance.line);
    hide Before;
  }

  lemma ResultsEmitNext(x: Extraction, y: Extraction, start: Extraction, results: seq<ToolResult>, n: nat,
                        all: Named -> seq<nat>, env: Reading)
    requires n < |results| && ResultsEmit(x, start, results, n, all, env)
    requires TakesResult(x, y, results[n], all, UsedBy(all, results, n, env), env)
    requires ResultPlaces(results)
    requires forall op :: op in start.emitted ==> op.provenance != results[n].provenance
    ensures ResultsEmit(y, start, results, n + 1, all, env)
  {
    hide Open, UsedNext, GivenByResult, UsedBy;
    forall k | 0 <= k < n ensures results[k].provenance != results[n].provenance {
    }
    hide ResultPlaces;
    forall k: nat, op: Operation |
      k <= n && results[k].callId.None? && op.provenance == results[k].provenance
      ensures op in y.emitted <==> GivenByResult(op, results[k], all, UsedBy(all, results, k, env), env)
    {
      if k == n {
        assert op !in x.emitted;
      }
    }
  }

  lemma OneMoreResult(x: Extraction, y: Extraction, start: Extraction, results: seq<ToolResult>, n: nat,
                      all: Named -> seq<nat>, env: Reading)
    requires n < |results| && ResultsTaken(x, start, results, n, all, env) && forall m :: Sorted(all(m))
    requires TakesResult(x, y, results[n], all, UsedBy(all, results, n, env), env)
    requires ResultPlaces(results)
    requires forall op :: op in start.emitted ==> op.provenance != results[n].provenance
    ensures ResultsTaken(y, start, results, n + 1, all, env)
  {
    ResultsEmitNext(x, y, start, results, n, all, env);
    hide Open, UsedBy, Used, UsedNext, GivenByResult, ResultsEmit, Sorted, ResultPlaces;
    forall m ensures Open(y.unpaired, m) == Rest(all(m), Used(all(m), results, n + 1, m, env))
        && Used(all(m), results, n + 1, m, env) <= |all(m)| {
      UsedNextIs(m, results, n, all, env);
    }
  }

  // ---- What an extraction puts in ----

  ghost function AllAnnounced(prior: seq<ToolCall>, current: seq<ToolCall>, failed: ToolCall -> bool):
      Named -> seq<nat>
  {
    (m: Named) => Announced(prior, current, m, failed)
  }

  lemma LogOrder(prior: seq<ToolCall>, current: seq<ToolCall>, results: seq<ToolResult>, log: string)
    requires OneLog(prior, current, results, log)
    ensures Ordered(prior + current) && Apart(prior + current)
    ensures OwnPlaces(current, results) && ResultPlaces(results)
  {
    hide Apart, OwnPlaces, ResultPlaces;
  }

  lemma AllSorted(prior: seq<ToolCall>, current: seq<ToolCall>, failed: ToolCall -> bool)
    requires Ordered(prior + current)
    ensures forall m :: Sorted(AllAnnounced(prior, current, failed)(m))
  {
    hide Ordered, Sorted, Announced;
    forall m ensures Sorted(AllAnnounced(prior, current, failed)(m)) {
      AnnouncedSorted(prior, current, m, failed);
    }
  }

  lemma StartsResults(start: Extraction, prior: seq<ToolCall>, current: seq<ToolCall>, results: seq<ToolResult>,
                      env: Reading, failed: ToolCall -> bool)
    requires CallsTaken(start, prior, current, |current|, failed)
    ensures ResultsTaken(start, start, results, 0, AllAnnounced(prior, current, failed), env)
  {
    hide Open, Lines, FromNoId, CallsEmit;
    assert current[..|current|] == current;
    var all := AllAnnounced(prior, current, failed);
    assert forall m :: Open(start.unpaired, m) == all(m);
    assert forall key :: key in start.seen ==> !key.identity.MissingResultId?;
    hide KeysFrom, AllAnnounced, CallsOpen;
    NoResultTaken(start, results, all, env);
  }

  /** Open announcements are in the log of a result without an id, and agree with its turn. */
  lemma NearResult(start: Extraction, x: Extraction, prior: seq<ToolCall>, current: seq<ToolCall>,
                   results: seq<ToolResult>, log: string, r: ToolResult)
    requires OneLog(prior, current, results, log) && FromNoId(start.unpaired, prior + current)
    requires r in results && r.callId.None? && forall o :: o in x.unpaired ==> o in start.unpaired
    ensures IsNear(x.unpaired, r)
  {
    hide Apart, OwnPlaces, ResultPlaces;
    forall o | o in x.unpaired
      ensures o.operation.provenance.path == r.provenance.path
      ensures Some(o.operation.session) == r.sessionId ==> CompatibleContext(o.operation.turn, r.turnId)
    {
      var c :| c in prior + current && IsFrom(o, c);
    }
  }

  lemma FreshResult(x: Extraction, results: seq<ToolResult>, n: nat)
    requires n < |results| && ResultPlaces(results)
    requires forall key :: key in x.seen && key.identity.MissingResultId? ==>
               exists k :: 0 <= k < n && results[k].provenance == key.identity.at
    ensures forall key :: key in x.seen ==> key.identity != MissingResultId(results[n].provenance)
  {
  }

  lemma StartsElsewhere(start: Extraction, prior: seq<ToolCall>, current: seq<ToolCall>, results: seq<ToolResult>,
                        n: nat, failed: ToolCall -> bool)
    requires n < |results| && OwnPlaces(current, results) && CallsTaken(start, prior, current, |current|, failed)
    ensures forall op :: op in start.emitted ==> op.provenance != results[n].provenance
    ensures FromNoId(start.unpaired, prior + current)
  {
    hide FromNoId, KeysFrom, CallsOpen, GivenByCall;
    assert current[..|current|] == current;
  }

  lemma ResultPassNext(x: Extraction, results: seq<ToolResult>, n: nat, calls: seq<ToolCall>, env: Reading)
    requires n < |results|
    ensures var y, r := ResultPass(x, n, results, calls, env), results[n];
            ResultPass(x, n + 1, results, calls, env) ==
            if ResultIsSkipped(r, results, calls, env) then y
            else AddAll(y, r, ResultOperations(r, MatchingCall(calls, r), env))
    ensures ResultPass(x, 0, results, calls, env) == x
  {
    hide ResultIsSkipped, AddAll, ResultOperations, MatchingCall;
  }

  lemma {:induction false} AllResultsTaken(
      start: Extraction, prior: seq<ToolCall>, current: seq<ToolCall>, results: seq<ToolResult>, n: nat, env: Reading,
      failed: ToolCall -> bool, log: string)
    requires n <= |results| && OneLog(prior, current, results, log)
    requires CallsTaken(start, prior, current, |current|, failed)
    ensures ResultsTaken(ResultPass(start, n, results, prior + current, env), start, results, n,
                         AllAnnounced(prior, current, failed), env)
  {
    hide *;
    var calls, all := prior + current, AllAnnounced(prior, current, failed);
    if n == 0 {
      StartsResults(start, prior, current, results, env, failed);
      if results != [] {
        ResultPassNext(start, results, 0, calls, env);
      } else {
        NoResults(start, results, calls, env);
      }
    } else {
      AllResultsTaken(start, prior, current, results, n - 1, env, failed, log);
      var x, r := ResultPass(start, n - 1, results, calls, env), results[n - 1];
      LogOrder(prior, current, results, log);
      AllSorted(prior, current, failed);
      LeftAfter(x, start, results, n - 1, all, env);
      StartsElsewhere(start, prior, current, results, n - 1, failed);
      FreshResult(x, results, n - 1);
      if r.callId.None? {
        NearResult(start, x, prior, current, results, log, r);
      }
      TakeResult(x, r, results, calls, all, UsedBy(all, results, n - 1, env), env);
      ResultPassNext(start, results, n - 1, calls, env);
      OneMoreResult(x, ResultPass(start, n, results, calls, env), start, results, n - 1, all, env);
    }
  }

  lemma NoResults(x: Extraction, results: seq<ToolResult>, calls: seq<ToolCall>, env: Reading)
    ensures ResultPass(x, 0, results, calls, env) == x
  {
  }

  /**
   * What an extraction puts in at the places of rows without ids: each standing call read now the first target of
   * each path and kind; each standing result the first target of each that repeats no call. A result repeats as many
   * announcements as come before its line and are not used up by then.
   */
  lemma UnidentifiedRowsGive(prior: seq<ToolCall>, current: seq<ToolCall>, results: seq<ToolResult>, env: Reading,
                             failed: ToolCall -> bool, log: string)
    requires OneLog(prior, current, results, log)
    requires forall c :: failed(c) == CallFails(results, prior + current, c, env)
    ensures var emitted, all := Extract(prior, current, results, env).emitted, AllAnnounced(prior, current, failed);
            && (forall k, op: Operation ::
                  0 <= k < |current| && current[k].callId.None? && op.provenance == current[k].provenance ==>
                    (op in emitted <==> GivenByCall(op, current[k], failed)))
            && (forall k: nat, op: Operation ::
                  k < |results| && results[k].callId.None? && op.provenance == results[k].provenance ==>
                    (op in emitted <==> GivenByResult(op, results[k], all, UsedBy(all, results, k, env), env)))
            && forall op: Operation :: op in emitted ==>
                 || (exists c :: c in current && c.provenance == op.provenance)
                 || (exists r :: r in results && r.provenance == op.provenance)
  {
    hide *;
    var calls, all := prior + current, AllAnnounced(prior, current, failed);
    LogOrder(prior, current, results, log);
    CurrentCallsTaken(prior, current, |current|, results, env, failed);
    var start := CallPass(PriorPass(prior, |prior|, results, calls, env), current, |current|, results, calls, env);
    AllResultsTaken(start, prior, current, results, |results|, env, failed, log);
    ExtractIsPasses(prior, current, results, env);
    AllEmitted(start, Extract(prior, current, results, env), prior, current, results, env, failed);
  }

  lemma ExtractIsPasses(prior: seq<ToolCall>, current: seq<ToolCall>, results: seq<ToolResult>, env: Reading)
    ensures var calls := prior + current;
            Extract(prior, current, results, env) ==
            ResultPass(CallPass(PriorPass(prior, |prior|, results, calls, env), current, |current|, results, calls,
                                env),
                       |results|, results, calls, env)
  {
    hide PriorPass, CallPass, ResultPass;
  }

  lemma AllEmitted(start: Extraction, x: Extraction, prior: seq<ToolCall>, current: seq<ToolCall>,
                   results: seq<ToolResult>, env: Reading, failed: ToolCall -> bool)
    requires OwnPlaces(current, results) && CallsTaken(start, prior, current, |current|, failed)
    requires ResultsTaken(x, start, results, |results|, AllAnnounced(prior, current, failed), env)
    ensures var all := AllAnnounced(prior, current, failed);
            && (forall k, op: Operation ::
                  0 <= k < |current| && current[k].callId.None? && op.provenance == current[k].provenance ==>
                    (op in x.emitted <==> GivenByCall(op, current[k], failed)))
            && (forall k: nat, op: Operation ::
                  k < |results| && results[k].callId.None? && op.provenance == results[k].provenance ==>
                    (op in x.emitted <==> GivenByResult(op, results[k], all, UsedBy(all, results, k, env), env)))
            && forall op: Operation :: op in x.emitted ==>
                 || (exists c :: c in current && c.provenance == op.provenance)
                 || (exists r :: r in results && r.provenance == op.provenance)
  {
    hide FromNoId, KeysFrom, CallsOpen, GivenByCall, GivenByResult, Open, Used, UsedBy, AllAnnounced;
    assert forall k, r :: 0 <= k < |current| && r in results ==> current[k].provenance != r.provenance;
    hide OwnPlaces;
    forall op: Operation | op in x.emitted
      ensures || (exists c :: c in current && c.provenance == op.provenance)
              || (exists r :: r in results && r.provenance == op.provenance)
    {
      if forall k :: 0 <= k < |results| ==> results[k].provenance != op.provenance {
        assert op in start.emitted;
        var k :| 0 <= k < |current| && op.provenance == current[k].provenance;
        assert current[k] in current;
      }
    }
  }
}
