/**
 * The fragment of Python's `re` that the secret patterns of server/events.py
 * use, with the backtracking engine's own preference among possible matches,
 * and `Pattern.sub`.
 */
module Regex {
  import opened PyText

  // ----- character classes -----

  datatype Class =
    | KeyChar                 // [A-Za-z0-9_-]
    | TokenChar               // [A-Za-z0-9_\-\.] under (?i)
    | Space                   // \s
    | KeySeparator            // [_-]
    | Assign                  // [:=]
    | QuoteMark               // ['"]
    | UpperOrDigit            // [0-9A-Z]
    | UpperOrBlank            // [A-Z ]
    | Anything                // [\s\S]

  /**
   * The lower-case letter that (?i) takes a character for. Four characters
   * outside ASCII count as ASCII letters: dotted and dotless i, long s, and
   * the Kelvin sign.
   */
  function Fold(c: char): char {
    if 'A' <= c <= 'Z' then ((c as int) + 32) as char
    else if c == '\U{130}' || c == '\U{131}' then 'i'
    else if c == '\U{17F}' then 's'
    else if c == '\U{212A}' then 'k'
    else c
  }

  predicate In(k: Class, c: char) {
    match k
    case KeyChar => 'a' <= c <= 'z' || 'A' <= c <= 'Z' || '0' <= c <= '9' || c == '_' || c == '-'
    case TokenChar =>
      var f := Fold(c);
      'a' <= f <= 'z' || '0' <= f <= '9' || f == '_' || f == '-' || f == '.'
    case Space => IsSpace(c)
    case KeySeparator => c == '_' || c == '-'
    case Assign => c == ':' || c == '='
    case QuoteMark => c == '\'' || c == '"'
    case UpperOrDigit => '0' <= c <= '9' || 'A' <= c <= 'Z'
    case UpperOrBlank => 'A' <= c <= 'Z' || c == ' '
    case Anything => true
  }

  // ----- patterns and their words -----

  datatype Re =
    | Literal(s: string)
    | AnyCaseLiteral(s: string)  // s in lower case, under (?i)
    | Char(k: Class)
    | Times(k: Class, n: nat)    // k{n}
    | Cat(first: Re, second: Re)
    | Alt(left: Re, right: Re)
    | Opt(body: Re)
    | Many(k: Class)             // k*
    | ManyLazy(k: Class)         // k*?

  /** What a pattern means: the set of strings it matches. */
  ghost predicate Matches(re: Re, u: string) {
    match re
    case Literal(s) => u == s
    case AnyCaseLiteral(s) => IsAnyCase(u, s)
    case Char(k) => |u| == 1 && In(k, u[0])
    case Times(k, n) => |u| == n && AllIn(k, u)
    case Cat(a, b) => exists m :: 0 <= m <= |u| && Matches(a, u[..m]) && Matches(b, u[m..])
    case Alt(a, b) => Matches(a, u) || Matches(b, u)
    case Opt(a) => u == "" || Matches(a, u)
    case Many(k) => AllIn(k, u)
    case ManyLazy(k) => AllIn(k, u)
  }

  /** k{n,} */
  function AtLeast(k: Class, n: nat): Re {
    Cat(Times(k, n), Many(k))
  }

  predicate AllIn(k: Class, u: string) {
    forall i | 0 <= i < |u| :: In(k, u[i])
  }

  predicate IsAnyCase(u: string, s: string) {
    |u| == |s| && forall i | 0 <= i < |u| :: Fold(u[i]) == s[i]
  }

  // ----- the engine -----

  /**
   * Where a match that starts at i can end, in the order in which a
   * backtracking engine tries them; the engine reports the first.
   */
  function Ends(re: Re, t: string, i: nat): (es: seq<nat>)
    requires i <= |t|
    ensures forall n | 0 <= n < |es| :: i <= es[n] <= |t|
    decreases re, 0, |t| - i
  {
    match re
    case Literal(s) => if OccursAt(t, s, i) then [i + |s|] else []
    case AnyCaseLiteral(s) => if i + |s| <= |t| && IsAnyCase(t[i..i + |s|], s) then [i + |s|] else []
    case Times(k, n) => if i + n <= |t| && AllIn(k, t[i..i + n]) then [i + n] else []
    case Char(k) => if i < |t| && In(k, t[i]) then [i + 1] else []
    case Cat(a, b) => EndsAfter(b, t, Ends(a, t, i), i)
    case Alt(a, b) => Ends(a, t, i) + Ends(b, t, i)
    case Opt(a) => Ends(a, t, i) + [i]
    case Many(k) => (if i < |t| && In(k, t[i]) then Ends(re, t, i + 1) else []) + [i]
    case ManyLazy(k) => [i] + (if i < |t| && In(k, t[i]) then Ends(re, t, i + 1) else [])
  }

  function EndsAfter(re: Re, t: string, starts: seq<nat>, lo: nat): (es: seq<nat>)
    requires forall n | 0 <= n < |starts| :: lo <= starts[n] <= |t|
    ensures forall n | 0 <= n < |es| :: lo <= es[n] <= |t|
    decreases re, 1, |starts|
  {
    if starts == [] then [] else Ends(re, t, starts[0]) + EndsAfter(re, t, starts[1..], lo)
  }

  lemma {:induction false} EndsAfterIsUnion(re: Re, t: string, starts: seq<nat>, lo: nat, e: nat)
    requires forall n | 0 <= n < |starts| :: lo <= starts[n] <= |t|
    ensures e in EndsAfter(re, t, starts, lo) <==> exists n :: 0 <= n < |starts| && e in Ends(re, t, starts[n])
    decreases |starts|
  {
    if starts != [] {
      var rest := starts[1..];
      EndsAfterIsUnion(re, t, rest, lo, e);
      if e in EndsAfter(re, t, rest, lo) {
        var n :| 0 <= n < |rest| && e in Ends(re, t, rest[n]);
        assert rest[n] == starts[n + 1];
      }
      if n :| 0 <= n < |starts| && e in Ends(re, t, starts[n]) && n > 0 {
        assert rest[n - 1] == starts[n];
      }
    }
  }

  /** Slicing a slice: u is t[i..e], cut m characters in. */
  lemma CutSlice(t: string, i: nat, e: nat, m: nat)
    requires i <= e <= |t| && m <= e - i
    ensures t[i..e][..m] == t[i..i + m] && t[i..e][m..] == t[i + m..e]
  {
  }

  /** The engine finds a match from i to e exactly when the pattern matches that slice. */
  lemma {:induction false} EndsAreExact(re: Re, t: string, i: nat, e: nat)
    requires i <= e <= |t|
    ensures e in Ends(re, t, i) <==> Matches(re, t[i..e])
    decreases re, 1
  {
    match re
    case Literal(_) =>
    case AnyCaseLiteral(_) =>
    case Char(_) =>
    case Times(_, _) =>
    case Cat(a, b) => EndsOfCat(a, b, t, i, e);
    case Alt(a, b) =>
      EndsAreExact(a, t, i, e);
      EndsAreExact(b, t, i, e);
    case Opt(a) => EndsAreExact(a, t, i, e);
    case Many(k) => EndsOfMany(k, t, i, e);
    case ManyLazy(k) => EndsOfMany(k, t, i, e);
  }

  lemma {:induction false} EndsOfCat(a: Re, b: Re, t: string, i: nat, e: nat)
    requires i <= e <= |t|
    ensures e in Ends(Cat(a, b), t, i) <==> Matches(Cat(a, b), t[i..e])
    decreases Cat(a, b), 0
  {
    if e in Ends(Cat(a, b), t, i) {
      EndsOfCatSound(a, b, t, i, e);
    } else if Matches(Cat(a, b), t[i..e]) {
      var m := SplitCat(a, b, t, i, e);
      EndsAreExact(a, t, i, m);
      EndsAreExact(b, t, m, e);
      EndsOfCatComplete(a, b, t, i, m, e);
    }
  }

  lemma {:induction false} EndsOfCatSound(a: Re, b: Re, t: string, i: nat, e: nat)
    requires i <= e <= |t| && e in Ends(Cat(a, b), t, i)
    ensures Matches(Cat(a, b), t[i..e])
    decreases Cat(a, b), 0, 0
  {
    var starts := Ends(a, t, i);
    EndsAfterIsUnion(b, t, starts, i, e);
    var n :| 0 <= n < |starts| && e in Ends(b, t, starts[n]);
    EndsAreExact(a, t, i, starts[n]);
    EndsAreExact(b, t, starts[n], e);
    CatOfSlices(a, b, t, i, starts[n], e);
  }

  lemma EndsOfCatComplete(a: Re, b: Re, t: string, i: nat, s: nat, e: nat)
    requires i <= s <= e <= |t| && s in Ends(a, t, i) && e in Ends(b, t, s)
    ensures e in Ends(Cat(a, b), t, i)
  {
    var starts := Ends(a, t, i);
    var n :| 0 <= n < |starts| && starts[n] == s;
    EndsAfterIsUnion(b, t, starts, i, e);
  }

  lemma CatOfSlices(a: Re, b: Re, t: string, i: nat, s: nat, e: nat)
    requires i <= s <= e <= |t| && Matches(a, t[i..s]) && Matches(b, t[s..e])
    ensures Matches(Cat(a, b), t[i..e])
  {
    CutSlice(t, i, e, s - i);
  }

  lemma SplitCat(a: Re, b: Re, t: string, i: nat, e: nat) returns (m: nat)
    requires i <= e <= |t| && Matches(Cat(a, b), t[i..e])
    ensures i <= m <= e && Matches(a, t[i..m]) && Matches(b, t[m..e])
  {
    hide In;
    var u := t[i..e];
    var k :| 0 <= k <= |u| && Matches(a, u[..k]) && Matches(b, u[k..]);
    CutSlice(t, i, e, k);
    m := i + k;
  }

  lemma {:induction false} EndsOfMany(k: Class, t: string, i: nat, e: nat)
    requires i <= e <= |t|
    ensures e in Ends(Many(k), t, i) <==> Matches(Many(k), t[i..e])
    ensures e in Ends(ManyLazy(k), t, i) <==> Matches(ManyLazy(k), t[i..e])
    decreases |t| - i
  {
    ManyStep(k, t, i, e);
    if i < e {
      EndsOfMany(k, t, i + 1, e);
    }
  }

  lemma ManyStep(k: Class, t: string, i: nat, e: nat)
    requires i <= e <= |t|
    ensures Matches(Many(k), t[i..e]) == Matches(ManyLazy(k), t[i..e])
    ensures i < e ==> (Matches(Many(k), t[i..e]) <==> In(k, t[i]) && Matches(Many(k), t[i + 1..e]))
  {
    if i < e {
      assert t[i..e] == [t[i]] + t[i + 1..e];
    }
  }

  // ----- substitution -----

  /** The end of the match that the engine reports at i, for patterns that match no empty string. */
  function MatchEnd(re: Re, t: string, i: nat): (e: Option<nat>)
    requires i <= |t|
    ensures e.Some? ==> i < e.value <= |t|
  {
    var es := Ends(re, t, i);
    if es != [] && es[0] > i then Some(es[0]) else None
  }

  lemma NoMatchHere(re: Re, t: string, i: nat, e: nat)
    requires i <= e <= |t| && !Matches(re, "") && MatchEnd(re, t, i).None?
    ensures !Matches(re, t[i..e])
  {
    EndsAreExact(re, t, i, e);
    var es := Ends(re, t, i);
    if es != [] {
      assert es[0] == i && es[0] in es && t[i..i] == "";
      EndsAreExact(re, t, i, i);
    }
  }

  function SubFrom(re: Re, repl: string, t: string, i: nat): string
    requires i <= |t|
    decreases |t| - i
  {
    if i == |t| then ""
    else
      match MatchEnd(re, t, i)
      case None => [t[i]] + SubFrom(re, repl, t, i + 1)
      case Some(e) => repl + SubFrom(re, repl, t, e)
  }

  /** Python's `re.sub(repl, t)`. */
  function Sub(re: Re, repl: string, t: string): string {
    SubFrom(re, repl, t, 0)
  }

  // ----- what substitution does, said without the engine -----

  datatype Span = Span(start: nat, end: nat)

  /** Spans of t, in order and apart, starting at or after lo. */
  predicate InOrder(t: string, lo: nat, spans: seq<Span>)
    decreases |spans|
  {
    spans == [] ||
    (lo <= spans[0].start < spans[0].end <= |t| && InOrder(t, spans[0].end, spans[1..]))
  }

  /** t from lo on, with each span replaced. */
  function Splice(t: string, repl: string, lo: nat, spans: seq<Span>): string
    requires lo <= |t| && InOrder(t, lo, spans)
    decreases |spans|
  {
    if spans == [] then t[lo..]
    else t[lo..spans[0].start] + repl + Splice(t, repl, spans[0].end, spans[1..])
  }

  /** Every span is a match, and no match starts in the text that is left alone. */
  ghost predicate LeftmostMatches(re: Re, t: string, lo: nat, spans: seq<Span>)
    requires lo <= |t| && InOrder(t, lo, spans)
    decreases |spans|
  {
    var stop := if spans == [] then |t| else spans[0].start;
    && (forall i, e | lo <= i < stop && i <= e <= |t| :: !Matches(re, t[i..e]))
    && (spans != [] ==>
          Matches(re, t[spans[0].start..spans[0].end]) && LeftmostMatches(re, t, spans[0].end, spans[1..]))
  }

  lemma SpliceStep(re: Re, repl: string, t: string, lo: nat, spans: seq<Span>)
    requires lo < |t| && InOrder(t, lo + 1, spans) && LeftmostMatches(re, t, lo + 1, spans)
    requires forall e | lo <= e <= |t| :: !Matches(re, t[lo..e])
    ensures InOrder(t, lo, spans) && LeftmostMatches(re, t, lo, spans)
    ensures Splice(t, repl, lo, spans) == [t[lo]] + Splice(t, repl, lo + 1, spans)
  {
    if spans == [] {
      assert t[lo..] == [t[lo]] + t[lo + 1..];
    } else {
      var stop := spans[0].start;
      assert t[lo..stop] == [t[lo]] + t[lo + 1..stop];
      var rest := Splice(t, repl, spans[0].end, spans[1..]);
      assert t[lo..stop] + repl + rest == [t[lo]] + (t[lo + 1..stop] + repl + rest);
    }
  }

  lemma SpliceMatch(re: Re, repl: string, t: string, lo: nat, e: nat, more: seq<Span>)
    requires lo < e <= |t| && Matches(re, t[lo..e])
    requires InOrder(t, e, more) && LeftmostMatches(re, t, e, more)
    ensures var spans := [Span(lo, e)] + more;
            && InOrder(t, lo, spans) && LeftmostMatches(re, t, lo, spans)
            && Splice(t, repl, lo, spans) == repl + Splice(t, repl, e, more)
  {
    var spans := [Span(lo, e)] + more;
    assert spans[1..] == more && spans[0] == Span(lo, e);
    assert t[lo..lo] == "" && "" + repl == repl;
  }

  lemma NothingToSplice(re: Re, repl: string, t: string)
    requires !Matches(re, "")
    ensures InOrder(t, |t|, []) && LeftmostMatches(re, t, |t|, []) && Splice(t, repl, |t|, []) == ""
  {
  }

  lemma ReportedMatches(re: Re, t: string, i: nat)
    requires i <= |t| && MatchEnd(re, t, i).Some?
    ensures Matches(re, t[i..MatchEnd(re, t, i).value])
  {
    hide Ends, Matches;
    assert MatchEnd(re, t, i).value in Ends(re, t, i);
    EndsAreExact(re, t, i, MatchEnd(re, t, i).value);
  }

  /** Each span is the match that the engine reports where it starts. */
  predicate Reported(re: Re, t: string, spans: seq<Span>) {
    forall n | 0 <= n < |spans| :: spans[n].start <= |t| && MatchEnd(re, t, spans[n].start) == Some(spans[n].end)
  }

  /** Substitution rewrites the leftmost matches, apart from one another, and keeps all other text. */
  lemma {:induction false} SubSplicesMatches(re: Re, repl: string, t: string, lo: nat) returns (spans: seq<Span>)
    requires lo <= |t| && !Matches(re, "")
    ensures InOrder(t, lo, spans) && LeftmostMatches(re, t, lo, spans) && Reported(re, t, spans)
    ensures SubFrom(re, repl, t, lo) == Splice(t, repl, lo, spans)
    decreases |t| - lo
  {
    hide Ends, MatchEnd, Matches, InOrder, LeftmostMatches, Splice;
    if lo == |t| {
      NothingToSplice(re, repl, t);
      spans := [];
    } else {
      match MatchEnd(re, t, lo)
      case None =>
        spans := SubSplicesMatches(re, repl, t, lo + 1);
        forall e | lo <= e <= |t| ensures !Matches(re, t[lo..e]) {
          NoMatchHere(re, t, lo, e);
        }
        SpliceStep(re, repl, t, lo, spans);
      case Some(e) =>
        var more := SubSplicesMatches(re, repl, t, e);
        ReportedMatches(re, t, lo);
        SpliceMatch(re, repl, t, lo, e, more);
        spans := [Span(lo, e)] + more;
    }
  }

  // ----- shapes of words -----

  /** No class of the pattern admits c. */
  predicate Avoids(re: Re, c: char) {
    match re
    case Literal(s) => c !in s
    case AnyCaseLiteral(s) => Fold(c) !in s
    case Char(k) => !In(k, c)
    case Times(k, _) => !In(k, c)
    case Cat(a, b) => Avoids(a, c) && Avoids(b, c)
    case Alt(a, b) => Avoids(a, c) && Avoids(b, c)
    case Opt(a) => Avoids(a, c)
    case Many(k) => !In(k, c)
    case ManyLazy(k) => !In(k, c)
  }

  function MinLength(re: Re): nat {
    match re
    case Literal(s) => |s|
    case AnyCaseLiteral(s) => |s|
    case Char(_) => 1
    case Times(_, n) => n
    case Cat(a, b) => MinLength(a) + MinLength(b)
    case Alt(a, b) => if MinLength(a) <= MinLength(b) then MinLength(a) else MinLength(b)
    case Opt(_) | Many(_) | ManyLazy(_) => 0
  }

  lemma NotInConcat(u: string, m: nat, c: char)
    requires m <= |u|
    ensures c in u <==> c in u[..m] || c in u[m..]
  {
    assert u == u[..m] + u[m..];
  }

  lemma {:induction false} WordShape(re: Re, u: string, c: char)
    requires Matches(re, u)
    ensures |u| >= MinLength(re)
    ensures Avoids(re, c) ==> c !in u
  {
    hide In, Fold;
    match re
    case Literal(_) =>
    case AnyCaseLiteral(_) => if c in u { assert Fold(c) in re.s; }
    case Char(_) | Times(_, _) | Many(_) | ManyLazy(_) =>
    case Cat(a, b) =>
      var m :| 0 <= m <= |u| && Matches(a, u[..m]) && Matches(b, u[m..]);
      WordShape(a, u[..m], c);
      WordShape(b, u[m..], c);
      NotInConcat(u, m, c);
    case Alt(a, b) =>
      if Matches(a, u) { WordShape(a, u, c); } else { WordShape(b, u, c); }
    case Opt(a) =>
      if u != "" { WordShape(a, u, c); }
  }
}
