/** The strike numbers that a run's attempt events carry (server/runner.py:46-68). */
module StrikeEvents {
  import opened PyText
  import opened AgentState
  import opened AgenticLoop
  import opened Sandbox
  import opened Registry
  import opened Nodes
  import opened Graph
  import opened RunTheorems
  import opened Runner
  import opened RunnerTheorems

  // ----- reading a strike back from a log line -----

  lemma {:induction false} FirstTokenStops(word: string, rest: string)
    requires forall i | 0 <= i < |word| :: !IsSpace(word[i])
    ensures FirstToken(word + " " + rest) == word
    decreases |word|
  {
    var line := word + " " + rest;
    if word == "" {
      assert line[0] == ' ';
    } else {
      assert line[0] == word[0] && line[1..] == word[1..] + " " + rest;
      FirstTokenStops(word[1..], rest);
    }
  }

  lemma {:induction false} AfterFirstEquals(word: string, rest: string)
    requires '=' !in word
    ensures AfterEquals(word + "=" + rest) == Some(rest)
    decreases |word|
  {
    var s := word + "=" + rest;
    if word == "" {
      assert s[0] == '=' && s[1..] == rest;
    } else {
      assert s[0] == word[0] && s[1..] == word[1..] + "=" + rest;
      AfterFirstEquals(word[1..], rest);
    }
  }

  lemma DigitsAreNotBlank(n: nat)
    ensures forall i | 0 <= i < |Decimal(n)| :: !IsSpace(Decimal(n)[i])
  {
    hide Decimal;
    forall i | 0 <= i < |Decimal(n)| ensures !IsSpace(Decimal(n)[i]) {
      assert Decimal(n)[i] in Decimal(n);
    }
  }

  lemma StrikeReadsBack(n: nat, rest: string)
    ensures ParseStrike("strike=" + Decimal(n) + " " + rest) == Some(n)
  {
    hide FirstToken, AfterEquals, Decimal, ParseDecimal;
    var word := "strike=" + Decimal(n);
    assert OccursAt(word + " " + rest, "strike=", 0);
    DigitsAreNotBlank(n);
    FirstTokenStops(word, rest);
    assert word == "strike" + "=" + Decimal(n);
    AfterFirstEquals("strike", Decimal(n));
    ParseDecimalInvertsDecimal(n);
  }

  lemma AttemptLinesReadBack(p: Params, n: nat, summary: string, check: ActionResult)
    ensures ParseStrike(SummaryLine(p, n, summary)) == Some(n)
    ensures ParseStrike(CheckLine(p, n, check)) == Some(n) && Contains(CheckLine(p, n, check), FAST_CHECK)
  {
    hide ParseStrike, Repr, Decimal, DecimalInt;
    var head := "strike=" + Decimal(n) + " ";
    var s := "summary=" + Repr(summary, p.printable);
    assert SummaryLine(p, n, summary) == head + s;
    StrikeReadsBack(n, s);
    var c := " exit_code=" + DecimalInt(check.exitCode) + " output=" + Repr(check.output, p.printable);
    assert CheckLine(p, n, check) == head + (FAST_CHECK + c);
    StrikeReadsBack(n, FAST_CHECK + c);
    assert OccursAt(head + (FAST_CHECK + c), FAST_CHECK, |head|);
  }

  /** Lines of the git log. */
  predicate IsGitLine(line: string) {
    StartsWith(line, "$ ") || StartsWith(line, "oversight_git: ")
  }

  lemma GitLineStarts(command: string, r: ActionResult, reason: string)
    ensures IsGitLine(GitLine(command, r)) && IsGitLine("oversight_git: " + reason)
  {
    var tail := command + "\nexit=" + DecimalInt(r.exitCode) + "\n" + r.output;
    assert GitLine(command, r) == "$ " + tail;
    assert OccursAt("$ " + tail, "$ ", 0);
    assert OccursAt("oversight_git: " + reason, "oversight_git: ", 0);
  }

  lemma GitLinesAreGit(p: Params, s: State, g: GitReplies)
    ensures forall l | l in GitLines(p, s, g) :: IsGitLine(l)
  {
    hide IsGitLine, GitLine, Reason, GitSteps, Judge;
    forall l | l in GitLines(p, s, g) ensures IsGitLine(l) {
      var steps := GitSteps(s, g);
      if l in StepLines(steps) {
        var i :| 0 <= i < |steps| && l == GitLine(steps[i].command, steps[i].reply);
        GitLineStarts(steps[i].command, steps[i].reply, "");
      } else {
        GitLineStarts("", ActionResult(0, ""), Reason(p, s, g));
      }
    }
  }

  lemma GitLineHasNoStrike(line: string)
    requires IsGitLine(line)
    ensures ParseStrike(line) == None
  {
    hide ParseStrike;
    if StartsWith(line, "$ ") { assert line[0..2][0] == line[0]; } else { assert line[0..15][0] == line[0]; }
    OtherStartHasNoStrike(line);
  }

  // ----- what the mock executor logs -----

  predicate NoF(s: string) {
    'f' !in s
  }

  lemma NoFJoins(a: string, b: string)
    ensures NoF(a) && NoF(b) ==> NoF(a + b)
  {
  }

  lemma ActionLineHasNoF(p: Params, action: string)
    requires IsPlainText(action) && NoF(action)
    ensures NoF(ActionLine(p, action, MockReply(action)))
    ensures ActionLine(p, action, MockReply(action)) != "" && ActionLine(p, action, MockReply(action))[0] == 'a'
  {
    hide Repr, NoF, IsPlainText, DecimalInt;
    var output := MockReply(action).output;
    MockOutputIsPlain(action);
    PlainRepr(action, p.printable);
    PlainRepr(output, p.printable);
    var quoted, quotedOutput := Repr(action, p.printable), Repr(output, p.printable);
    QuotedHasNoF(action);
    QuotedHasNoF(output);
    FixedPartsHaveNoF();
    NoFJoins("action=", quoted);
    NoFJoins("action=" + quoted, " exit_code=");
    NoFJoins("action=" + quoted + " exit_code=", DecimalInt(0));
    NoFJoins("action=" + quoted + " exit_code=" + DecimalInt(0), " output=");
    NoFJoins("action=" + quoted + " exit_code=" + DecimalInt(0) + " output=", quotedOutput);
  }

  lemma MockOutputIsPlain(action: string)
    requires IsPlainText(action) && NoF(action)
    ensures IsPlainText(MockReply(action).output) && NoF(MockReply(action).output)
  {
  }

  lemma QuotedHasNoF(s: string)
    requires NoF(s)
    ensures NoF("'" + s + "'")
  {
  }

  lemma FixedPartsHaveNoF()
    ensures NoF("action=") && NoF(" exit_code=") && NoF(DecimalInt(0)) && NoF(" output=")
  {
  }

  lemma DummyActionsArePlain(i: nat)
    requires i < |DUMMY_ACTIONS|
    ensures IsPlainText(DUMMY_ACTIONS[i]) && NoF(DUMMY_ACTIONS[i])
  {
  }

  lemma MockLinesAreQuiet(p: Params)
    ensures forall l | l in MockLines(p) :: !Contains(l, FAST_CHECK) && ParseStrike(l) == None
  {
    hide ActionLine, ParseStrike, Contains, NoF, IsPlainText;
    forall l | l in MockLines(p) ensures !Contains(l, FAST_CHECK) && ParseStrike(l) == None {
      var i :| 0 <= i < |DUMMY_ACTIONS| && l == ActionLine(p, DUMMY_ACTIONS[i], MockReply(DUMMY_ACTIONS[i]));
      DummyActionsArePlain(i);
      ActionLineHasNoF(p, DUMMY_ACTIONS[i]);
      NoFNoFastCheck(l);
      OtherStartHasNoStrike(l);
    }
  }

  lemma OtherStartHasNoStrike(l: string)
    requires l != "" && l[0] != 's'
    ensures ParseStrike(l) == None
  {
    hide FirstToken, AfterEquals, ParseDecimal;
    FirstOfPrefix(l, "strike=");
  }

  lemma FirstOfPrefix(l: string, prefix: string)
    requires l != "" && prefix != ""
    ensures StartsWith(l, prefix) ==> l[0] == prefix[0]
  {
    assert |prefix| <= |l| ==> l[..|prefix|][0] == l[0];
  }

  lemma NoFNoFastCheck(l: string)
    requires NoF(l)
    ensures !Contains(l, FAST_CHECK)
  {
    NeedlePastHead(l, "", FAST_CHECK);
    assert l + "" == l;
    assert !Contains("", FAST_CHECK);
  }

  /** A needle whose first character does not occur in the head can only start after it. */
  lemma NeedlePastHead(head: string, tail: string, needle: string)
    requires needle != "" && needle[0] !in head
    ensures Contains(head + tail, needle) <==> Contains(tail, needle)
  {
    var s, n := head + tail, |head|;
    if Contains(s, needle) {
      var i :| 0 <= i <= |s| && OccursAt(s, needle, i);
      assert s[i..i + |needle|][0] == s[i];
      OccursPastHead(head, tail, needle, i - n);
    }
    if Contains(tail, needle) {
      var i :| 0 <= i <= |tail| && OccursAt(tail, needle, i);
      OccursPastHead(head, tail, needle, i);
    }
  }

  lemma OccursPastHead(head: string, tail: string, needle: string, i: nat)
    ensures OccursAt(head + tail, needle, |head| + i) <==> OccursAt(tail, needle, i)
  {
    if i + |needle| <= |tail| {
      assert (head + tail)[|head| + i..|head| + i + |needle|] == tail[i..i + |needle|];
    }
  }

  // ----- which strikes the events name -----

  function StrikeOf(a: Payload): seq<nat> {
    if a.AttemptInfo? && a.strike.Some? then [a.strike.value] else []
  }

  function StrikesIn(attempts: seq<Payload>): seq<nat> {
    if attempts == [] then [] else StrikesIn(Init(attempts)) + StrikeOf(Last(attempts))
  }

  /** Does a summary's own line look like a fast check? */
  predicate IsNoisy(p: Params, summary: string) {
    Contains(Repr(summary, p.printable), FAST_CHECK)
  }

  /** What an attempt that is the n-th strike adds: its number, and once more when its summary is noisy. */
  function NamedBy(p: Params, e: Event, n: nat): seq<nat> {
    match e
    case Tried(a) => if IsNoisy(p, a.Summary()) then [n, n] else [n]
    case _ => []
  }

  function Named(p: Params, events: seq<Event>): seq<nat> {
    if events == [] then [] else Named(p, Init(events)) + NamedBy(p, Last(events), |events|)
  }

  lemma {:induction false} StrikesInConcat(a: seq<Payload>, b: seq<Payload>)
    ensures StrikesIn(a + b) == StrikesIn(a) + StrikesIn(b)
    decreases |b|
  {
    if b == [] {
      assert a + b == a;
    } else {
      hide StrikeOf, Init, Last;
      LastOfConcat(a, b);
      StrikesInConcat(a, Init(b));
      ConcatAssociates(StrikesIn(a), StrikesIn(Init(b)), StrikeOf(Last(b)));
    }
  }

  function StrikesOf(lines: seq<string>): seq<nat> {
    StrikesIn(AttemptsIn(lines))
  }

  lemma StrikesOfConcat(a: seq<string>, b: seq<string>)
    ensures StrikesOf(a + b) == StrikesOf(a) + StrikesOf(b)
  {
    hide AttemptsIn, StrikesIn;
    AttemptsInConcat(a, b);
    StrikesInConcat(AttemptsIn(a), AttemptsIn(b));
  }

  lemma StrikesOfOne(line: string)
    ensures StrikesOf([line]) ==
            if Contains(line, FAST_CHECK) && ParseStrike(line).Some? then [ParseStrike(line).value] else []
  {
    hide Contains, ParseStrike;
    assert Init([line]) == [] && AttemptsIn([]) == [];
    var a := AttemptInfo(ParseStrike(line), line);
    assert AttemptsIn([line]) == if Contains(line, FAST_CHECK) then [a] else [];
    assert Init([a]) == [] && StrikesIn([]) == [];
    assert StrikesIn([a]) == if ParseStrike(line).Some? then [ParseStrike(line).value] else [];
  }

  lemma {:induction false} NoStrikesIn(lines: seq<string>)
    requires forall l | l in lines :: ParseStrike(l) == None
    ensures StrikesOf(lines) == []
    decreases |lines|
  {
    if lines != [] {
      hide StrikesOf, ParseStrike;
      assert lines == Init(lines) + [Last(lines)] && Last(lines) in lines;
      NoStrikesIn(Init(lines));
      StrikesOfConcat(Init(lines), [Last(lines)]);
      StrikesOfOne(Last(lines));
    } else {
      assert AttemptsIn([]) == [];
    }
  }

  /** The summary's line is noisy exactly when the rendered summary is: what stands before it has no "f". */
  lemma NoisyLine(p: Params, n: nat, summary: string)
    ensures Contains(SummaryLine(p, n, summary), FAST_CHECK) <==> IsNoisy(p, summary)
  {
    hide Repr, Contains, Decimal;
    var head := "strike=" + Decimal(n) + " summary=";
    assert FAST_CHECK[0] !in head;
    NeedlePastHead(head, Repr(summary, p.printable), FAST_CHECK);
  }

  lemma StrikesOfAttempt(p: Params, n: nat, a: Attempt)
    ensures StrikesOf([SummaryLine(p, n, a.Summary())] + [CheckLine(p, n, a.Check())]) ==
            if IsNoisy(p, a.Summary()) then [n, n] else [n]
  {
    hide StrikesOf, SummaryLine, CheckLine, IsNoisy, Contains, ParseStrike;
    AttemptLinesReadBack(p, n, a.Summary(), a.Check());
    NoisyLine(p, n, a.Summary());
    StrikesOfOne(SummaryLine(p, n, a.Summary()));
    StrikesOfOne(CheckLine(p, n, a.Check()));
    StrikesOfConcat([SummaryLine(p, n, a.Summary())], [CheckLine(p, n, a.Check())]);
  }

  lemma NamedSnoc(p: Params, events: seq<Event>, a: Attempt)
    ensures Named(p, events + [Tried(a)]) == Named(p, events) + NamedBy(p, Tried(a), |events| + 1)
  {
    hide NamedBy;
    assert Init(events + [Tried(a)]) == events;
  }

  lemma {:induction false} StrikesOfAttempts(p: Params, events: seq<Event>, attempts: seq<Attempt>)
    ensures Named(p, events + AllTried(attempts)) == Named(p, events) + StrikesOf(AttemptLines(p, |events|, attempts))
    decreases |attempts|
  {
    hide StrikesOf, SummaryLine, CheckLine, IsNoisy, Named;
    if attempts == [] {
      assert events + AllTried(attempts) == events;
      NoStrikesIn([]);
    } else {
      var before, a, n := Init(attempts), Last(attempts), |events| + |attempts|;
      assert events + AllTried(attempts) == events + AllTried(before) + [Tried(a)];
      NamedSnoc(p, events + AllTried(before), a);
      StrikesOfAttempts(p, events, before);
      StrikesOfAttempt(p, n, a);
      var two := [SummaryLine(p, n, a.Summary())] + [CheckLine(p, n, a.Check())];
      assert AttemptLines(p, |events|, attempts) == AttemptLines(p, |events|, before) + two;
      StrikesOfConcat(AttemptLines(p, |events|, before), two);
    }
  }

  lemma GitLinesNameNothing(p: Params, s: State, g: GitReplies)
    ensures StrikesOf(GitLines(p, s, g)) == []
  {
    hide GitLines, ParseStrike, StrikesOf, IsGitLine;
    GitLinesAreGit(p, s, g);
    forall l | l in GitLines(p, s, g) ensures ParseStrike(l) == None { GitLineHasNoStrike(l); }
    NoStrikesIn(GitLines(p, s, g));
  }

  lemma MockLinesNameNothing(p: Params)
    ensures StrikesOf(MockLines(p)) == []
  {
    hide MockLines, ParseStrike, StrikesOf, Contains;
    MockLinesAreQuiet(p);
    NoStrikesIn(MockLines(p));
  }

  /** The lines that a visit adds name the strikes that it adds. */
  lemma LinesName(p: Params, s: State, events: seq<Event>, v: Visit)
    requires Possible(p, s, v) && s.strikeCount == |events|
    ensures Named(p, events + EventsOf(p, s, v)) == Named(p, events) + StrikesOf(LinesOf(p, s, v))
  {
    hide Named, StrikesOf, AttemptLines, MockLines, GitLines, MockReplies, AttemptsRun, Judge;
    assert events + [] == events;
    NoStrikesIn([]);
    match v
    case AtExecutor(attempts, _) =>
      MockLinesNameNothing(p);
      StrikesOfAttempts(p, events, attempts);
    case AtOversight(g, _, _) =>
      GitLinesNameNothing(p, s, g);
      NamedIgnores(p, events, Uncommitted);
    case AtValidator(result, _) => NamedIgnores(p, events, Rejected(result.output));
    case _ =>
  }

  lemma StepNames(p: Params, c0: Config, b: Config, v: Visit)
    requires Invariant(p, c0, b) && CanTake(p, b, v) && StrikesOf(b.lines) == Named(p, b.events)
    ensures StrikesOf(Next(p, b, v).lines) == Named(p, Next(p, b, v).events)
  {
    hide StrikesOf, Named, DeltaOf, Merge, Successor, EventsOf, LinesOf, Possible;
    hide EscalationsCounted, LogConserved, DoneIsEarned, AtNode, FeedbackIsFresh, AttemptsWithin;
    StrikesOfConcat(b.lines, LinesOf(p, b.state, v));
    LinesName(p, b.state, b.events, v);
  }

  lemma NamedIgnores(p: Params, events: seq<Event>, e: Event)
    requires !e.Tried?
    ensures Named(p, events + [e]) == Named(p, events)
  {
    hide IsNoisy;
    assert Init(events + [e]) == events;
  }

  lemma {:induction false} RunNames(p: Params, c0: Config, run: seq<Visit>, c: Config)
    requires p.maxStrikes >= 1 && Fresh(c0) && Leads(p, c0, run, c)
    ensures StrikesOf(c.lines) == Named(p, c.events)
    ensures StrikesOf(LastLog(c.updates)) == Named(p, c.events)
    decreases |run|
  {
    if run == [] {
      NoStrikesIn([]);
    } else {
      hide Next, Invariant, StrikesOf, Named, Possible;
      var b := LastVisit(p, c0, run, c);
      RunNames(p, c0, Init(run), b);
      RunKeepsInvariant(p, c0, Init(run), b);
      GraphLogsChain(p, c0, Init(run), b);
      StepNames(p, c0, b, Last(run));
      StepChains(p, c0, b, Last(run));
      if b.node != Executor { OtherNodesTryNothing(p, b, Last(run)); }
    }
  }

  lemma OtherNodesTryNothing(p: Params, b: Config, v: Visit)
    requires !v.AtExecutor?
    ensures Named(p, Next(p, b, v).events) == Named(p, b.events)
  {
    hide DeltaOf, Merge, Successor, LinesOf, Judge, Named;
    assert b.events + [] == b.events;
    NamedIgnores(p, b.events, Uncommitted);
    if v.AtValidator? { NamedIgnores(p, b.events, Rejected(v.result.output)); }
  }

  /**
   * The strike numbers on a run's attempt events are exactly these: for each
   * attempt its number, and the number again when the summary, as logged,
   * mentions a fast check itself.
   */
  lemma AttemptEventsNameTheStrikes(p: Params, c0: Config, run: seq<Visit>, c: Config)
    requires p.maxStrikes >= 1 && Fresh(c0) && Leads(p, c0, run, c)
    ensures StrikesIn(AttemptsAmong(Derived(c.updates))) == Named(p, c.events)
  {
    hide StrikesIn, Derived, Named, Leads, Fresh, AttemptsAmong, Chained, LastLog;
    RunNames(p, c0, run, c);
    GraphLogsChain(p, c0, run, c);
    SlicesPartitionTheLog(c.updates);
  }

  predicate AllQuiet(p: Params, events: seq<Event>) {
    forall i | 0 <= i < |events| && events[i].Tried? :: !IsNoisy(p, events[i].attempt.Summary())
  }

  predicate Increasing(ns: seq<nat>) {
    forall i, j | 0 <= i < j < |ns| :: ns[i] < ns[j]
  }

  predicate QuietEvent(p: Params, e: Event) {
    e.Tried? ==> !IsNoisy(p, e.attempt.Summary())
  }

  lemma AllQuietSnoc(p: Params, events: seq<Event>)
    requires events != []
    ensures AllQuiet(p, events) <==> AllQuiet(p, Init(events)) && QuietEvent(p, Last(events))
  {
    hide IsNoisy;
    assert forall i | 0 <= i < |events| - 1 :: Init(events)[i] == events[i];
  }

  lemma IncreasingSnoc(ns: seq<nat>, n: nat)
    requires forall k | 0 <= k < |ns| :: ns[k] < n
    ensures Increasing(ns + [n]) <==> Increasing(ns)
    ensures !Increasing(ns + [n, n])
  {
    var one, two := ns + [n], ns + [n, n];
    if Increasing(one) {
      forall i, j | 0 <= i < j < |ns| ensures ns[i] < ns[j] { assert one[i] < one[j]; }
    }
    assert !(two[|ns|] < two[|ns| + 1]);
  }

  lemma {:induction false} NamedRange(p: Params, events: seq<Event>)
    requires AttemptsWithin(p, events)
    ensures forall k | 0 <= k < |Named(p, events)| :: 1 <= Named(p, events)[k] <= |events|
    ensures forall k | 0 <= k < |Named(p, events)| :: Named(p, events)[k] <= p.maxStrikes
    decreases |events|
  {
    if events != [] {
      hide IsNoisy;
      assert forall i | 0 <= i < |events| - 1 :: Init(events)[i] == events[i];
      NamedRange(p, Init(events));
      if Last(events).Tried? { assert events[|events| - 1].Tried?; }
    }
  }

  lemma {:induction false} NamedCount(p: Params, events: seq<Event>)
    ensures |Named(p, events)| >= Attempts(events)
    ensures AllQuiet(p, events) <==> |Named(p, events)| == Attempts(events)
    decreases |events|
  {
    if events != [] {
      hide IsNoisy, AllQuiet;
      NamedCount(p, Init(events));
      AllQuietSnoc(p, events);
    }
  }

  lemma {:induction false} NamedOrder(p: Params, events: seq<Event>)
    requires AttemptsWithin(p, events)
    ensures AllQuiet(p, events) <==> Increasing(Named(p, events))
    decreases |events|
  {
    if events != [] {
      hide IsNoisy, AllQuiet, Increasing;
      var before := Init(events);
      assert forall i | 0 <= i < |before| :: before[i] == events[i];
      NamedOrder(p, before);
      NamedRange(p, before);
      AllQuietSnoc(p, events);
      IncreasingSnoc(Named(p, before), |events|);
      assert Named(p, before) + [] == Named(p, before);
    } else {
      assert AllQuiet(p, events);
    }
  }

  /**
   * One event a strike, strictly increasing and within 1..M, exactly when no
   * rendered summary mentions a fast check.
   */
  lemma OneEventAStrikeWhenQuiet(p: Params, c0: Config, run: seq<Visit>, c: Config)
    requires p.maxStrikes >= 1 && Fresh(c0) && Leads(p, c0, run, c)
    ensures var strikes := StrikesIn(AttemptsAmong(Derived(c.updates)));
            && (forall k | 0 <= k < |strikes| :: 1 <= strikes[k] <= p.maxStrikes)
            && (AllQuiet(p, c.events) <==> Increasing(strikes))
            && (AllQuiet(p, c.events) <==> |strikes| == Attempts(c.events))
  {
    hide StrikesIn, Derived, Named, Leads, Fresh, AttemptsAmong, AllQuiet, Increasing, AtNode, LogConserved;
    AttemptEventsNameTheStrikes(p, c0, run, c);
    RunKeepsInvariant(p, c0, run, c);
    NamedRange(p, c.events);
    NamedCount(p, c.events);
    NamedOrder(p, c.events);
  }

  /**
   * It does not help to know that the summary itself never says "fast_check":
   * a shift-in character before "ast_check" is rendered as `\x0f`.
   */
  lemma EscapeSpellsFastCheck(printable: char -> bool)
    ensures !Contains("\U{0F}ast_check", FAST_CHECK)
    ensures Contains(Repr("\U{0F}ast_check", printable), FAST_CHECK)
  {
    var s := "\U{0F}ast_check";
    assert NoF(s);
    NoFNoFastCheck(s);
    ShiftInIsEscaped(s, printable);
    assert Repr(s, printable) == "'\\x0" + (FAST_CHECK + "'");
    assert OccursAt("'\\x0" + (FAST_CHECK + "'"), FAST_CHECK, 4);
  }

  lemma ShiftInIsEscaped(s: string, printable: char -> bool)
    requires s != "" && s[0] == '\U{0F}' && IsPlainText(s[1..])
    ensures Repr(s, printable) == "'\\x0f" + s[1..] + "'"
  {
    PlainReprBody(s[1..], printable);
    ShiftInChar(s[0], printable);
    BodyOfCons(s, '\'', printable);
    hide ReprBody, ReprChar;
    assert '\'' !in s;
  }

  lemma ShiftInChar(c: char, printable: char -> bool)
    requires c == '\U{0F}'
    ensures ReprChar(c, '\'', printable) == "\\x0f"
  {
    assert Hex(0, 0) == "";
    assert Hex(0, 1) == "0";
    assert Hex(15, 2) == "0f";
  }

  lemma BodyOfCons(s: string, q: char, printable: char -> bool)
    requires s != ""
    ensures ReprBody(s, q, printable) == ReprChar(s[0], q, printable) + ReprBody(s[1..], q, printable)
  {
    hide ReprChar;
  }

  // ----- events without a number -----

  ghost predicate KnownLines(lines: seq<string>) {
    forall l | l in lines && Contains(l, FAST_CHECK) && ParseStrike(l) == None :: IsGitLine(l)
  }

  lemma {:induction false} AttemptLinesAreNumbered(p: Params, strikes: nat, attempts: seq<Attempt>)
    ensures forall l | l in AttemptLines(p, strikes, attempts) :: ParseStrike(l).Some?
    decreases |attempts|
  {
    hide SummaryLine, CheckLine, ParseStrike, Contains, Report, Outcome;
    if attempts != [] {
      var a, n := Last(attempts), strikes + |attempts|;
      var earlier := AttemptLines(p, strikes, Init(attempts));
      AttemptLinesAreNumbered(p, strikes, Init(attempts));
      AttemptLinesReadBack(p, n, a.Summary(), a.Check());
      AmongTwoMore(earlier, SummaryLine(p, n, a.Summary()), CheckLine(p, n, a.Check()));
    }
  }

  lemma AmongTwoMore(lines: seq<string>, a: string, b: string)
    ensures forall l | l in lines + [a, b] :: l in lines || l == a || l == b
  {
  }

  lemma {:induction false} RunLinesAreKnown(p: Params, c0: Config, run: seq<Visit>, c: Config)
    requires Fresh(c0) && Leads(p, c0, run, c)
    ensures KnownLines(c.lines)
    decreases |run|
  {
    if run != [] {
      hide Next, Possible, KnownLines;
      var b := LastVisit(p, c0, run, c);
      RunLinesAreKnown(p, c0, Init(run), b);
      StepLinesAreKnown(p, b, Last(run));
    }
  }

  lemma StepLinesAreKnown(p: Params, b: Config, v: Visit)
    requires KnownLines(b.lines)
    ensures KnownLines(Next(p, b, v).lines)
  {
    hide AttemptLines, MockLines, GitLines, DeltaOf, Merge, Successor, EventsOf, ParseStrike, Contains, IsGitLine;
    match v
    case AtExecutor(attempts, _) =>
      MockLinesAreQuiet(p);
      AttemptLinesAreNumbered(p, b.state.strikeCount, attempts);
    case AtOversight(g, _, _) => GitLinesAreGit(p, b.state, g);
    case _ =>
  }

  lemma {:induction false} AttemptsComeFromLines(lines: seq<string>)
    ensures forall a | a in AttemptsIn(lines) ::
              a.AttemptInfo? && a.line in lines && Contains(a.line, FAST_CHECK) && a.strike == ParseStrike(a.line)
    decreases |lines|
  {
    if lines != [] {
      hide Contains, ParseStrike;
      AttemptsComeFromLines(Init(lines));
    }
  }

  /**
   * An attempt event without a strike number comes from a line of the git
   * log, such as a commit command whose message embeds earlier attempts.
   */
  lemma UnnumberedEventsAreGit(p: Params, c0: Config, run: seq<Visit>, c: Config)
    requires p.maxStrikes >= 1 && Fresh(c0) && Leads(p, c0, run, c)
    ensures forall a | a in AttemptsAmong(Derived(c.updates)) ::
              a.AttemptInfo? && (a.strike == None ==> IsGitLine(a.line))
  {
    hide Derived, Leads, Fresh, AttemptsAmong, Chained, LastLog, Contains, ParseStrike, IsGitLine, AttemptsIn;
    GraphLogsChain(p, c0, run, c);
    SlicesPartitionTheLog(c.updates);
    RunLinesAreKnown(p, c0, run, c);
    AttemptsComeFromLines(LastLog(c.updates));
    assert forall l | l in LastLog(c.updates) :: l in c.lines;
  }
}
