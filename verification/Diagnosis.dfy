/** `_truncate_diagnosis` (syndicate/nodes.py:438-444): the tail of a failing command's output. */
module Diagnosis {
  import opened PyText
  import opened Utf8

  const MAX_LINES: nat := 60
  const MAX_BYTES: nat := 4096

  // ----- str.splitlines -----

  predicate IsLineBreak(c: char) {
    var n := c as int;
    0x0a <= n <= 0x0d || 0x1c <= n <= 0x1e || n == 0x85 || n == 0x2028 || n == 0x2029
  }

  /** The length of the first line, without its break. */
  function LineEnd(s: string): (n: nat)
    ensures n <= |s|
    ensures forall i | 0 <= i < n :: !IsLineBreak(s[i])
    ensures n < |s| ==> IsLineBreak(s[n])
  {
    if s == "" || IsLineBreak(s[0]) then 0 else 1 + LineEnd(s[1..])
  }

  /** A carriage return and the newline after it are one break. */
  function AfterBreak(s: string, n: nat): (k: nat)
    requires n < |s|
    ensures n < k <= |s|
  {
    if s[n] == '\r' && n + 1 < |s| && s[n + 1] == '\n' then n + 2 else n + 1
  }

  function SplitLines(s: string): (lines: seq<string>)
    ensures forall l | l in lines :: forall i | 0 <= i < |l| :: !IsLineBreak(l[i])
    decreases |s|
  {
    if s == "" then []
    else
      var n := LineEnd(s);
      if n == |s| then [s] else [s[..n]] + SplitLines(s[AfterBreak(s, n)..])
  }

  /** What a final newline, which opens no further line, adds to a text. */
  function FinalNewline(s: string): string {
    if s != "" && Last(s) == '\n' then "\n" else ""
  }

  /**
   * On text whose only breaks are newlines, splitting loses nothing but a
   * final newline.
   */
  lemma {:induction false} SplitLinesRejoins(s: string)
    requires forall i | 0 <= i < |s| :: IsLineBreak(s[i]) ==> s[i] == '\n'
    ensures Join("\n", SplitLines(s)) + FinalNewline(s) == s
    decreases |s|
  {
    if s != "" {
      var n := LineEnd(s);
      if n == |s| {
        assert !IsLineBreak(s[n - 1]);
      } else {
        SplitLinesRejoins(s[n + 1..]);
        RejoinFirstLine(s, n);
      }
    }
  }

  lemma RejoinFirstLine(s: string, n: nat)
    requires n == LineEnd(s) < |s| && s[n] == '\n'
    requires Join("\n", SplitLines(s[n + 1..])) + FinalNewline(s[n + 1..]) == s[n + 1..]
    ensures Join("\n", SplitLines(s)) + FinalNewline(s) == s
  {
    hide Join, FinalNewline, LineEnd, IsLineBreak;
    var lines := SplitLines(s[n + 1..]);
    assert AfterBreak(s, n) == n + 1;
    assert SplitLines(s) == [s[..n]] + lines;
    RejoinLines(s, n, lines);
  }

  lemma RejoinLines(s: string, n: nat, lines: seq<string>)
    requires n < |s| && s[n] == '\n' && (lines == [] <==> n + 1 == |s|)
    requires Join("\n", lines) + FinalNewline(s[n + 1..]) == s[n + 1..]
    ensures Join("\n", [s[..n]] + lines) + FinalNewline(s) == s
  {
    var first, rest := s[..n], s[n + 1..];
    assert s == first + "\n" + rest;
    if lines == [] {
      assert [first] + lines == [first];
    } else {
      assert Last(s) == Last(rest);
      JoinCons("\n", first, lines);
    }
  }

  // ----- the truncation -----

  function TailLines(output: string): string {
    Join("\n", LastN(SplitLines(output), MAX_LINES))
  }

  function Truncate(output: string): string {
    var truncated := TailLines(output);
    var encoded := Encode(truncated);
    if |encoded| > MAX_BYTES then Decode(LastN(encoded, MAX_BYTES)) else truncated
  }

  function Newlines(s: string): nat {
    if s == "" then 0 else (if s[0] == '\n' then 1 else 0) + Newlines(s[1..])
  }

  lemma {:induction false} NewlinesConcat(s: string, t: string)
    ensures Newlines(s + t) == Newlines(s) + Newlines(t)
    decreases |s|
  {
    if s == "" {
      assert s + t == t;
    } else {
      assert (s + t)[1..] == s[1..] + t;
      NewlinesConcat(s[1..], t);
    }
  }

  lemma {:induction false} NoNewlines(s: string)
    requires '\n' !in s
    ensures Newlines(s) == 0
    decreases |s|
  {
    if s != "" {
      NoNewlines(s[1..]);
    }
  }

  lemma {:induction false} NewlinesOfJoin(lines: seq<string>)
    requires forall l | l in lines :: '\n' !in l
    ensures Newlines(Join("\n", lines)) == if lines == [] then 0 else |lines| - 1
    decreases |lines|
  {
    if lines != [] {
      NoNewlines(lines[0]);
      if |lines| > 1 {
        var rest := Join("\n", lines[1..]);
        assert Join("\n", lines) == lines[0] + "\n" + rest;
        NewlinesConcat(lines[0] + "\n", rest);
        NewlinesConcat(lines[0], "\n");
        assert Newlines("\n") == 1;
        NewlinesOfJoin(lines[1..]);
      }
    }
  }

  lemma TailLinesNewlines(output: string)
    ensures Newlines(TailLines(output)) <= MAX_LINES - 1
  {
    var lines := LastN(SplitLines(output), MAX_LINES);
    forall l | l in lines ensures '\n' !in l {
      assert l in SplitLines(output);
    }
    NewlinesOfJoin(lines);
  }

  /**
   * What feedback a failed validation leaves: the last sixty lines, whole, or
   * at most three replacement characters and then a suffix of those lines that
   * starts at a character boundary and fills the byte budget.
   */
  lemma TruncateKeepsTheTail(output: string) returns (k: nat, i: nat)
    ensures k <= 3 && i <= |TailLines(output)|
    ensures Truncate(output) == Replacements(k) + TailLines(output)[i..]
    ensures if |Encode(TailLines(output))| <= MAX_BYTES then k == 0 && i == 0
            else |Encode(TailLines(output)[i..])| == MAX_BYTES - k
  {
    hide TailLines, Encode, Decode;
    var tail := TailLines(output);
    if |Encode(tail)| <= MAX_BYTES {
      k, i := 0, 0;
      assert Replacements(0) + tail[0..] == tail;
    } else {
      var strays;
      strays, i := TailOfEncoding(tail, MAX_BYTES);
      k := |strays|;
      DecodeStrays(strays, tail[i..]);
    }
  }

  /** The bounds on what is fed back: 59 newlines and 4096 + 6 bytes. */
  lemma TruncateIsBounded(output: string)
    ensures Newlines(Truncate(output)) <= MAX_LINES - 1
    ensures |Encode(Truncate(output))| <= MAX_BYTES + 6
  {
    var k, i := TruncateKeepsTheTail(output);
    var tail := TailLines(output);
    TailLinesNewlines(output);
    assert tail[..i] + tail[i..] == tail;
    NewlinesConcat(tail[..i], tail[i..]);
    NewlinesConcat(Replacements(k), tail[i..]);
    NoNewlines(Replacements(k));
    EncodeConcat(Replacements(k), tail[i..]);
    EncodeReplacements(k);
  }
}
