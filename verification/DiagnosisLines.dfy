/** What a diagnosis keeps of its output, said of the output itself (syndicate/nodes.py:438-444). */
module DiagnosisLines {
  import opened PyText
  import opened Utf8
  import opened Diagnosis

  // ----- lines and their breaks -----

  /** What `str.splitlines` takes for the end of a line. */
  const LINE_BREAKS: seq<string> := [
    "\n", "\r", "\r\n", "\U{0B}", "\U{0C}", "\U{1C}", "\U{1D}", "\U{1E}", "\U{85}", "\U{2028}", "\U{2029}"
  ]

  predicate IsBreak(u: string) {
    u in LINE_BREAKS
  }

  predicate HasBreak(line: string) {
    exists c | c in line :: IsBreak([c])
  }

  /** The first line of s and its break; only the last line can be without one, and then it is not empty. */
  predicate Opens(s: string, line: string, brk: string) {
    var n, k := |line|, |line| + |brk|;
    && k <= |s| && s[..n] == line && s[n..k] == brk && !HasBreak(line)
    && (IsBreak(brk) || (brk == "" && line != "" && k == |s|))
    && (brk == "\r" && k < |s| ==> s[k] != '\n')
  }

  /** s is these lines, each followed by its break. */
  predicate Splits(s: string, lines: seq<string>, breaks: seq<string>)
    decreases |lines|
  {
    && |lines| == |breaks|
    && if lines == [] then s == ""
       else Opens(s, lines[0], breaks[0]) && Splits(s[|lines[0]| + |breaks[0]|..], lines[1..], breaks[1..])
  }

  lemma BreakCharacters(c: char)
    ensures IsLineBreak(c) <==> IsBreak([c])
  {
    var n := c as int;
    assert [c] in LINE_BREAKS <==> exists i | 0 <= i < |LINE_BREAKS| :: LINE_BREAKS[i] == [c];
    if IsLineBreak(c) {
      var i := if n <= 0x0a then 0 else if n == 0x0b then 3 else if n == 0x0c then 4 else if n == 0x0d then 1
               else if n <= 0x1e then n - 0x1c + 5 else if n == 0x85 then 8 else if n == 0x2028 then 9 else 10;
      assert LINE_BREAKS[i] == [c];
    }
  }

  /** A break is one character, or a carriage return and a newline. */
  lemma BreakShape(b: string)
    requires IsBreak(b)
    ensures b == "\r\n" || |b| == 1
    ensures IsBreak([b[0]])
  {
    assert LINE_BREAKS[1] == "\r";
  }

  lemma NoBreakInside(line: string)
    requires forall i | 0 <= i < |line| :: !IsLineBreak(line[i])
    ensures !HasBreak(line)
  {
    hide IsLineBreak, IsBreak;
    forall c | c in line ensures !IsBreak([c]) {
      BreakCharacters(c);
    }
  }

  /** The break at n, as the source takes it. */
  lemma BreakAt(s: string, n: nat)
    requires n < |s| && IsLineBreak(s[n])
    ensures IsBreak(s[n..AfterBreak(s, n)])
    ensures s[n..AfterBreak(s, n)] == "\r" && AfterBreak(s, n) < |s| ==> s[AfterBreak(s, n)] != '\n'
  {
    BreakCharacters(s[n]);
    if AfterBreak(s, n) == n + 1 {
      assert s[n..n + 1] == [s[n]];
    } else {
      assert s[n..n + 2] == "\r\n" == LINE_BREAKS[2];
    }
  }

  lemma {:induction false} SplitLinesSplits(s: string) returns (breaks: seq<string>)
    ensures Splits(s, SplitLines(s), breaks)
    decreases |s|
  {
    hide IsLineBreak, IsBreak, HasBreak, AfterBreak, LineEnd;
    if s == "" {
      breaks := [];
    } else {
      var n := LineEnd(s);
      NoBreakInside(s[..n]);
      if n == |s| {
        breaks := [""];
        assert s[..n] == s && s[n..n] == "" && s[n..] == "";
      } else {
        BreakAt(s, n);
        var k := AfterBreak(s, n);
        var more := SplitLinesSplits(s[k..]);
        breaks := [s[n..k]] + more;
        OneLineMore(s, n, k, SplitLines(s[k..]), more);
      }
    }
  }

  lemma OneLineMore(s: string, n: nat, k: nat, lines: seq<string>, breaks: seq<string>)
    requires n < k <= |s| && !HasBreak(s[..n]) && IsBreak(s[n..k])
    requires s[n..k] == "\r" && k < |s| ==> s[k] != '\n'
    requires Splits(s[k..], lines, breaks)
    ensures Splits(s, [s[..n]] + lines, [s[n..k]] + breaks)
  {
    hide HasBreak, IsBreak;
    var all, every := [s[..n]] + lines, [s[n..k]] + breaks;
    assert all[1..] == lines && every[1..] == breaks && Opens(s, all[0], every[0]);
  }

  /** There is only one way to do that. */
  lemma {:induction false} SplitIsUnique(s: string, a: seq<string>, x: seq<string>, b: seq<string>, y: seq<string>)
    requires Splits(s, a, x) && Splits(s, b, y)
    ensures a == b && x == y
    decreases |a|
  {
    hide HasBreak, IsBreak;
    LinesOfNothing(s, a, x);
    LinesOfNothing(s, b, y);
    if a != [] {
      FirstLineIsUnique(s, a[0], x[0], b[0], y[0]);
      SplitIsUnique(s[|a[0]| + |x[0]|..], a[1..], x[1..], b[1..], y[1..]);
      assert a == [a[0]] + a[1..] && b == [b[0]] + b[1..] && x == [x[0]] + x[1..] && y == [y[0]] + y[1..];
    }
  }

  lemma LinesOfNothing(s: string, lines: seq<string>, breaks: seq<string>)
    requires Splits(s, lines, breaks)
    ensures s == "" <==> lines == []
  {
    hide HasBreak, IsBreak;
    if lines != [] && IsBreak(breaks[0]) { BreakShape(breaks[0]); }
  }

  lemma FirstLineIsUnique(s: string, a: string, x: string, b: string, y: string)
    requires Opens(s, a, x) && Opens(s, b, y)
    ensures a == b && x == y
  {
    hide HasBreak, IsBreak;
    FirstLineIsNoShorter(s, a, x, b, y);
    FirstLineIsNoShorter(s, b, y, a, x);
    if IsBreak(x) { BreakShape(x); }
    if IsBreak(y) { BreakShape(y); }
    assert x != "" && y != "" ==> x[0] == s[|a|] == y[0];
    assert |x| == 2 ==> x[1] == s[|a| + 1];
    assert |y| == 2 ==> y[1] == s[|a| + 1];
  }

  lemma FirstLineIsNoShorter(s: string, a: string, x: string, b: string, y: string)
    requires Opens(s, a, x) && Opens(s, b, y)
    ensures |a| >= |b|
  {
    hide HasBreak, IsBreak;
    if IsBreak(x) {
      BreakShape(x);
      assert s[|a|] == x[0];
      LineStopsAtBreak(s, b, |a|);
    }
  }

  lemma LineStopsAtBreak(s: string, line: string, n: nat)
    requires |line| <= |s| && s[..|line|] == line && !HasBreak(line) && n < |s| && IsBreak([s[n]])
    ensures |line| <= n
  {
    hide IsBreak;
    assert forall j | 0 <= j < |line| :: line[j] in line && s[j] == line[j];
  }

  /** So that is what the lines of a text are. */
  lemma LinesAreExact(s: string, lines: seq<string>)
    ensures SplitLines(s) == lines <==> exists breaks :: Splits(s, lines, breaks)
  {
    hide Splits;
    var breaks := SplitLinesSplits(s);
    if x :| Splits(s, lines, x) {
      SplitIsUnique(s, SplitLines(s), breaks, lines, x);
    }
  }

  // ----- the last sixty -----

  lemma {:induction false} JoinConcat(sep: string, a: seq<string>, b: seq<string>)
    requires a != [] && b != []
    ensures Join(sep, a + b) == Join(sep, a) + sep + Join(sep, b)
    decreases |a|
  {
    var first, rest := a[0], a[1..];
    assert a + b == [first] + (rest + b);
    JoinCons(sep, first, rest + b);
    if rest == [] {
      assert rest + b == b;
    } else {
      JoinConcat(sep, rest, b);
      JoinCons(sep, first, rest);
      assert [first] + rest == a;
    }
  }

  /** d is at most three replacement characters and then a suffix of `whole` that fills the budget, or all of it. */
  ghost predicate FitsBudget(whole: string, d: string, k: nat, i: nat) {
    && k <= 3 && i <= |whole| && k <= |d|
    && (forall j | 0 <= j < k :: d[j] == '\U{FFFD}') && d[k..] == whole[i..]
    && if |Encode(whole)| <= 4096 then k == 0 && i == 0 else |Encode(whole[i..])| == 4096 - k
  }

  lemma TailFitsBudget(output: string) returns (k: nat, i: nat)
    ensures FitsBudget(TailLines(output), Truncate(output), k, i)
  {
    hide TailLines, Truncate, Encode;
    k, i := TruncateKeepsTheTail(output);
    assert TailLines(output)[0..] == TailLines(output);
  }

  /**
   * What is kept of any output: its last sixty lines, all of them when there
   * are no more, joined by newlines; and of these what the byte budget leaves.
   * The lines are those between the breaks.
   */
  lemma LastLinesAreKept(output: string) returns (lines: seq<string>, breaks: seq<string>, k: nat, i: nat)
    ensures Splits(output, lines, breaks)
    ensures var kept := if |lines| <= 60 then lines else lines[|lines| - 60..];
            FitsBudget(Join("\n", kept), Truncate(output), k, i)
  {
    hide Splits, Truncate, FitsBudget, SplitLines, Join;
    lines := SplitLines(output);
    breaks := SplitLinesSplits(output);
    k, i := TailFitsBudget(output);
  }

  /** An output without its final newline. */
  function Body(output: string): string {
    if output != "" && output[|output| - 1] == '\n' then output[..|output| - 1] else output
  }

  /**
   * On output whose only breaks are newlines, what is kept is a piece of the
   * output itself: all of it but a final newline when it has at most sixty
   * lines, and otherwise the last sixty, from just after a newline; and of
   * this piece what the byte budget leaves, a suffix.
   */
  lemma TailOfTheOutput(output: string) returns (m: nat, k: nat, i: nat)
    requires forall j | 0 <= j < |output| :: IsBreak([output[j]]) ==> output[j] == '\n'
    ensures m <= |Body(output)| && FitsBudget(Body(output)[m..], Truncate(output), k, i)
    ensures Newlines(Body(output)) <= 59 ==> m == 0
    ensures Newlines(Body(output)) > 59 ==>
              m > 0 && Body(output)[m - 1] == '\n' && Newlines(Body(output)[m..]) == 59
    ensures k <= |Truncate(output)| && Body(output)[m + i..] == Truncate(output)[k..]
  {
    hide Truncate, FitsBudget, IsLineBreak, IsBreak;
    forall j | 0 <= j < |output| ensures IsLineBreak(output[j]) ==> output[j] == '\n' {
      BreakCharacters(output[j]);
    }
    k, i := TailFitsBudget(output);
    m := TailOfTheBody(output);
    SuffixOfSuffix(Body(output), m, Truncate(output), k, i);
  }

  lemma SuffixOfSuffix(body: string, m: nat, d: string, k: nat, i: nat)
    requires m <= |body| && FitsBudget(body[m..], d, k, i)
    ensures k <= |d| && m + i <= |body| && body[m + i..] == d[k..]
  {
    hide Encode;
  }

  lemma TailOfTheBody(output: string) returns (m: nat)
    requires forall j | 0 <= j < |output| :: IsLineBreak(output[j]) ==> output[j] == '\n'
    ensures m <= |Body(output)| && TailLines(output) == Body(output)[m..]
    ensures Newlines(Body(output)) <= 59 ==> m == 0
    ensures Newlines(Body(output)) > 59 ==>
              m > 0 && Body(output)[m - 1] == '\n' && Newlines(Body(output)[m..]) == 59
  {
    hide IsLineBreak, Newlines, Join, SplitLines;
    var lines := SplitLines(output);
    var body := Join("\n", lines);
    SplitLinesRejoins(output);
    assert Body(output) == body;
    LinesHaveNone(output);
    NewlinesOfJoin(lines);
    if |lines| <= 60 {
      m := 0;
      assert body[0..] == body;
    } else {
      var front, last := lines[..|lines| - 60], lines[|lines| - 60..];
      assert lines == front + last;
      JoinConcat("\n", front, last);
      m := |Join("\n", front)| + 1;
      assert body[m - 1] == '\n' && body[m..] == Join("\n", last);
      NewlinesOfJoin(last);
    }
  }

  lemma LinesHaveNone(s: string)
    ensures forall l | l in SplitLines(s) :: '\n' !in l
  {
  }
}
