/** Which of several possible matches the engine reports: the longest, or for a lazy repetition the shortest. */
module RegexChoice {
  import opened PyText
  import opened Regex

  // ----- first characters -----

  /** Can a word of the pattern start with c? */
  predicate MayStart(re: Re, c: char) {
    match re
    case Literal(s) => s != "" && s[0] == c
    case AnyCaseLiteral(s) => s != "" && s[0] == Fold(c)
    case Char(k) => In(k, c)
    case Times(k, _) => In(k, c)
    case Cat(a, b) => MayStart(a, c) || (MinLength(a) == 0 && MayStart(b, c))
    case Alt(a, b) => MayStart(a, c) || MayStart(b, c)
    case Opt(a) => MayStart(a, c)
    case Many(k) => In(k, c)
    case ManyLazy(k) => In(k, c)
  }

  lemma {:induction false} FirstCharMayStart(re: Re, u: string)
    requires Matches(re, u) && u != ""
    ensures MayStart(re, u[0])
  {
    hide In, Fold;
    match re
    case Cat(a, b) =>
      var m :| 0 <= m <= |u| && Matches(a, u[..m]) && Matches(b, u[m..]);
      if m > 0 {
        FirstCharMayStart(a, u[..m]);
      } else {
        WordShape(a, u[..m], u[0]);
        assert u[m..] == u;
        FirstCharMayStart(b, u);
      }
    case Alt(a, b) => if Matches(a, u) { FirstCharMayStart(a, u); } else { FirstCharMayStart(b, u); }
    case Opt(a) => FirstCharMayStart(a, u);
    case _ =>
  }

  /** Where no word can start, the engine finds none. */
  lemma NoStart(re: Re, t: string, i: nat)
    requires i <= |t| && MinLength(re) > 0 && (i < |t| ==> !MayStart(re, t[i]))
    ensures Ends(re, t, i) == []
  {
    hide Ends, Matches, MayStart, MinLength;
    var es := Ends(re, t, i);
    if es != [] {
      var e := es[0];
      assert e in es;
      EndsAreExact(re, t, i, e);
      WordShape(re, t[i..e], ' ');
      FirstCharMayStart(re, t[i..e]);
    }
  }

  // ----- lists of ends -----

  lemma CatEnds(a: Re, b: Re, t: string, i: nat)
    requires i <= |t|
    ensures Ends(Cat(a, b), t, i) == EndsAfter(b, t, Ends(a, t, i), i)
  {
    hide In, Fold;
  }

  lemma AltEnds(a: Re, b: Re, t: string, i: nat)
    requires i <= |t|
    ensures Ends(Alt(a, b), t, i) == Ends(a, t, i) + Ends(b, t, i)
    ensures Ends(Opt(a), t, i) == Ends(a, t, i) + [i]
  {
    hide In, Fold;
  }

  lemma OptCharEnds(k: Class, t: string, i: nat)
    requires i <= |t|
    ensures Ends(Opt(Char(k)), t, i) == (if i < |t| && In(k, t[i]) then [i + 1] else []) + [i]
  {
    hide In;
    assert Ends(Char(k), t, i) == if i < |t| && In(k, t[i]) then [i + 1] else [];
  }

  lemma ManyEnds(k: Class, t: string, i: nat)
    requires i <= |t|
    ensures i < |t| && In(k, t[i]) ==> Ends(Many(k), t, i) == Ends(Many(k), t, i + 1) + [i]
    ensures i < |t| && In(k, t[i]) ==> Ends(ManyLazy(k), t, i) == [i] + Ends(ManyLazy(k), t, i + 1)
    ensures !(i < |t| && In(k, t[i])) ==> Ends(Many(k), t, i) == [i] && Ends(ManyLazy(k), t, i) == [i]
  {
    hide In;
  }

  lemma {:induction false} EndsAfterConcat(re: Re, t: string, a: seq<nat>, b: seq<nat>, lo: nat)
    requires forall n | 0 <= n < |a| :: lo <= a[n] <= |t|
    requires forall n | 0 <= n < |b| :: lo <= b[n] <= |t|
    ensures forall n | 0 <= n < |a + b| :: lo <= (a + b)[n] <= |t|
    ensures EndsAfter(re, t, a + b, lo) == EndsAfter(re, t, a, lo) + EndsAfter(re, t, b, lo)
    decreases |a|
  {
    hide Ends;
    if a == [] {
      assert a + b == b;
    } else {
      assert (a + b)[1..] == a[1..] + b && (a + b)[0] == a[0];
      EndsAfterConcat(re, t, a[1..], b, lo);
    }
  }

  lemma EndsAfterOne(re: Re, t: string, j: nat, lo: nat)
    requires lo <= j <= |t|
    ensures EndsAfter(re, t, [j], lo) == Ends(re, t, j)
  {
    hide Ends;
    assert [j][1..] == [] && EndsAfter(re, t, [], lo) == [];
  }

  /** The lower bound is there for the proof only. */
  lemma {:induction false} LowIsFree(re: Re, t: string, starts: seq<nat>, lo: nat, hi: nat)
    requires forall n | 0 <= n < |starts| :: lo <= starts[n] <= |t| && hi <= starts[n]
    ensures EndsAfter(re, t, starts, lo) == EndsAfter(re, t, starts, hi)
    decreases |starts|
  {
    hide Ends;
    if starts != [] { LowIsFree(re, t, starts[1..], lo, hi); }
  }

  // ----- repetitions before something else -----

  /** A repetition is given up to what follows it only as a whole, if that cannot start with one of its characters. */
  lemma {:induction false} ManyThen(k: Class, b: Re, t: string, i: nat) returns (j: nat)
    requires i <= |t| && MinLength(b) > 0 && forall c | In(k, c) :: !MayStart(b, c)
    ensures i <= j <= |t| && AllIn(k, t[i..j]) && (j < |t| ==> !In(k, t[j]))
    ensures Ends(Cat(Many(k), b), t, i) == Ends(b, t, j)
    decreases |t| - i
  {
    hide In, MayStart, MinLength, Ends, EndsAfter;
    ManyEnds(k, t, i);
    CatEnds(Many(k), b, t, i);
    if i < |t| && In(k, t[i]) {
      j := ManyThen(k, b, t, i + 1);
      assert t[i..j] == [t[i]] + t[i + 1..j];
      CatEnds(Many(k), b, t, i + 1);
      EndsAfterConcat(b, t, Ends(Many(k), t, i + 1), [i], i);
      LowIsFree(b, t, Ends(Many(k), t, i + 1), i, i + 1);
      EndsAfterOne(b, t, i, i);
      NoStart(b, t, i);
    } else {
      j := i;
      EndsAfterOne(b, t, i, i);
    }
  }

  /** An optional character is taken, if what follows cannot start with it. */
  lemma OptThen(k: Class, b: Re, t: string, i: nat) returns (j: nat)
    requires i <= |t| && MinLength(b) > 0 && forall c | In(k, c) :: !MayStart(b, c)
    ensures j == if i < |t| && In(k, t[i]) then i + 1 else i
    ensures Ends(Cat(Opt(Char(k)), b), t, i) == Ends(b, t, j)
  {
    hide In, MayStart, MinLength, Ends, EndsAfter;
    j := if i < |t| && In(k, t[i]) then i + 1 else i;
    OptCharEnds(k, t, i);
    CatEnds(Opt(Char(k)), b, t, i);
    if j == i {
      assert [] + [i] == [i];
      EndsAfterOne(b, t, i, i);
    } else {
      EndsAfterConcat(b, t, [i + 1], [i], i);
      EndsAfterOne(b, t, i + 1, i);
      EndsAfterOne(b, t, i, i);
      NoStart(b, t, i);
    }
  }

  // ----- the longest match -----

  /** No match that starts at i is longer than the one the engine tries first. */
  ghost predicate FirstIsLongest(re: Re, t: string, i: nat)
    requires i <= |t|
  {
    var es := Ends(re, t, i);
    es != [] ==> forall e | e in es :: e <= es[0]
  }

  /** Only one match can start at i. */
  ghost predicate AtMostOne(re: Re, t: string, i: nat)
    requires i <= |t|
  {
    |Ends(re, t, i)| <= 1
  }

  lemma OneIsLongest(re: Re, t: string, i: nat)
    requires i <= |t| && AtMostOne(re, t, i)
    ensures FirstIsLongest(re, t, i)
  {
    hide Ends;
  }

  lemma {:induction false} ManyIsLongest(k: Class, t: string, i: nat)
    requires i <= |t|
    ensures Ends(Many(k), t, i) != [] && FirstIsLongest(Many(k), t, i)
    decreases |t| - i
  {
    hide In, Ends;
    ManyEnds(k, t, i);
    if i < |t| && In(k, t[i]) { ManyIsLongest(k, t, i + 1); }
  }

  /** What comes after a first part that can match in one way only decides. */
  lemma OneThen(a: Re, b: Re, t: string, i: nat)
    requires i <= |t| && AtMostOne(a, t, i)
    ensures Ends(a, t, i) == [] ==> Ends(Cat(a, b), t, i) == []
    ensures Ends(a, t, i) != [] ==> Ends(Cat(a, b), t, i) == Ends(b, t, Ends(a, t, i)[0])
  {
    hide Ends;
    CatEnds(a, b, t, i);
    var starts := Ends(a, t, i);
    if starts != [] {
      assert starts == [starts[0]];
      EndsAfterOne(b, t, starts[0], i);
    }
  }

  /** An optional last character does not change which match is the longest. */
  lemma ThenOpt(a: Re, k: Class, t: string, i: nat)
    requires i <= |t| && FirstIsLongest(a, t, i)
    ensures FirstIsLongest(Cat(a, Opt(Char(k))), t, i)
  {
    hide In, Ends;
    var last := Opt(Char(k));
    var starts, es := Ends(a, t, i), Ends(Cat(a, last), t, i);
    CatEnds(a, last, t, i);
    if starts != [] {
      OptCharEnds(k, t, starts[0]);
      assert es == Ends(last, t, starts[0]) + EndsAfter(last, t, starts[1..], i);
      forall e | e in es ensures e <= es[0] {
        EndsAfterIsUnion(last, t, starts, i, e);
        var n :| 0 <= n < |starts| && e in Ends(last, t, starts[n]);
        OptCharEnds(k, t, starts[n]);
        assert starts[n] in starts;
      }
    }
  }

  /** A run of characters: so many at least, and then as many as there are. */
  lemma AtLeastIsLongest(k: Class, n: nat, t: string, i: nat)
    requires i <= |t|
    ensures FirstIsLongest(AtLeast(k, n), t, i)
  {
    OneThen(Times(k, n), Many(k), t, i);
    if Ends(Times(k, n), t, i) != [] { ManyIsLongest(k, t, Ends(Times(k, n), t, i)[0]); }
  }

  /** The match that is reported, when the first is the longest. */
  lemma NoneIsLonger(re: Re, t: string, i: nat, e: nat, e': nat)
    requires i <= |t| && FirstIsLongest(re, t, i) && MatchEnd(re, t, i) == Some(e) && e < e' <= |t|
    ensures !Matches(re, t[i..e'])
  {
    hide Ends, Matches;
    EndsAreExact(re, t, i, e');
  }

  // ----- the shortest match -----

  /** No match that starts at i is shorter than the one the engine tries first. */
  ghost predicate FirstIsShortest(re: Re, t: string, i: nat)
    requires i <= |t|
  {
    var es := Ends(re, t, i);
    es != [] ==> forall e | e in es :: es[0] <= e
  }

  /** All matches that start at i end at the same place. */
  ghost predicate OneEnd(re: Re, t: string, i: nat)
    requires i <= |t|
  {
    forall e, e' | e in Ends(re, t, i) && e' in Ends(re, t, i) :: e == e'
  }

  lemma NoneIsShorter(re: Re, t: string, i: nat, e: nat, e': nat)
    requires i <= |t| && FirstIsShortest(re, t, i) && MatchEnd(re, t, i) == Some(e) && i <= e' < e
    ensures !Matches(re, t[i..e'])
  {
    hide Ends, Matches;
    EndsAreExact(re, t, i, e');
  }

  /** A lazy repetition first tries what follows it at once, and then after one more character. */
  lemma LazyThen(k: Class, b: Re, t: string, i: nat)
    requires i <= |t|
    ensures Ends(Cat(ManyLazy(k), b), t, i) ==
            Ends(b, t, i) + if i < |t| && In(k, t[i]) then Ends(Cat(ManyLazy(k), b), t, i + 1) else []
  {
    hide In, Ends, EndsAfter;
    ManyEnds(k, t, i);
    CatEnds(ManyLazy(k), b, t, i);
    EndsAfterOne(b, t, i, i);
    if i < |t| && In(k, t[i]) {
      var later := Ends(ManyLazy(k), t, i + 1);
      CatEnds(ManyLazy(k), b, t, i + 1);
      EndsAfterConcat(b, t, [i], later, i);
      LowIsFree(b, t, later, i, i + 1);
    }
  }

  /** A first part with one end leaves the choice to what follows. */
  lemma OneEndThen(a: Re, b: Re, t: string, i: nat)
    requires i <= |t| && OneEnd(a, t, i)
    requires Ends(a, t, i) != [] ==> FirstIsShortest(b, t, Ends(a, t, i)[0])
    ensures FirstIsShortest(Cat(a, b), t, i)
  {
    hide Ends;
    var starts, es := Ends(a, t, i), Ends(Cat(a, b), t, i);
    CatEnds(a, b, t, i);
    if starts != [] && es != [] {
      var h := starts[0];
      forall n | 0 <= n < |starts| ensures starts[n] == h {
        assert starts[n] in starts && h in starts;
      }
      assert es == Ends(b, t, h) + EndsAfter(b, t, starts[1..], i);
      EndsAfterIsUnion(b, t, starts, i, es[0]);
      assert es[0] in es;
      forall e | e in es ensures es[0] <= e {
        EndsAfterIsUnion(b, t, starts, i, e);
      }
    }
  }

  // ----- moving to another place -----

  function Moved(es: seq<nat>, d: nat): (r: seq<nat>)
    ensures |r| == |es| && forall n | 0 <= n < |es| :: r[n] == es[n] + d
  {
    seq(|es|, n requires 0 <= n < |es| => es[n] + d)
  }

  lemma MovedSlice(p: string, x: string, i: nat, j: nat)
    requires i <= j <= |x|
    ensures (p + x)[|p| + i..|p| + j] == x[i..j]
  {
  }

  /** What precedes a place has no say in what matches there. */
  lemma {:induction false} EndsMove(re: Re, p: string, x: string, i: nat)
    requires i <= |x|
    ensures Ends(re, p + x, |p| + i) == Moved(Ends(re, x, i), |p|)
    decreases re, 1, |x| - i
  {
    hide Ends, EndsAfter;
    match re
    case Literal(_) | AnyCaseLiteral(_) | Times(_, _) | Char(_) => LeafMoves(re, p, x, i);
    case Cat(a, b) =>
      EndsMove(a, p, x, i);
      EndsAfterMoves(b, p, x, Ends(a, x, i), i);
      CatEnds(a, b, x, i);
      CatEnds(a, b, p + x, |p| + i);
    case Alt(a, b) =>
      EndsMove(a, p, x, i);
      EndsMove(b, p, x, i);
      AltEnds(a, b, x, i);
      AltEnds(a, b, p + x, |p| + i);
      MovedConcat(Ends(a, x, i), Ends(b, x, i), |p|);
    case Opt(a) =>
      EndsMove(a, p, x, i);
      AltEnds(a, a, x, i);
      AltEnds(a, a, p + x, |p| + i);
      MovedConcat(Ends(a, x, i), [i], |p|);
    case Many(k) => ManyMoves(k, p, x, i);
    case ManyLazy(k) => ManyMoves(k, p, x, i);
  }

  lemma LeafMoves(re: Re, p: string, x: string, i: nat)
    requires i <= |x| && (re.Literal? || re.AnyCaseLiteral? || re.Times? || re.Char?)
    ensures Ends(re, p + x, |p| + i) == Moved(Ends(re, x, i), |p|)
  {
    hide In, Fold;
    var n := match re case Literal(s) => |s| case AnyCaseLiteral(s) => |s| case Times(_, n) => n case _ => 1;
    if i + n <= |x| { MovedSlice(p, x, i, i + n); }
  }

  lemma {:induction false} ManyMoves(k: Class, p: string, x: string, i: nat)
    requires i <= |x|
    ensures Ends(Many(k), p + x, |p| + i) == Moved(Ends(Many(k), x, i), |p|)
    ensures Ends(ManyLazy(k), p + x, |p| + i) == Moved(Ends(ManyLazy(k), x, i), |p|)
    decreases |x| - i
  {
    hide In, Ends;
    ManyEnds(k, x, i);
    ManyEnds(k, p + x, |p| + i);
    if i < |x| && In(k, x[i]) {
      assert (p + x)[|p| + i] == x[i];
      ManyMoves(k, p, x, i + 1);
      MovedConcat(Ends(Many(k), x, i + 1), [i], |p|);
      MovedConcat([i], Ends(ManyLazy(k), x, i + 1), |p|);
    }
  }

  lemma {:induction false} EndsAfterMoves(re: Re, p: string, x: string, starts: seq<nat>, lo: nat)
    requires forall n | 0 <= n < |starts| :: lo <= starts[n] <= |x|
    ensures EndsAfter(re, p + x, Moved(starts, |p|), |p| + lo) == Moved(EndsAfter(re, x, starts, lo), |p|)
    decreases re, 2, |starts|
  {
    hide Ends;
    if starts != [] {
      EndsMove(re, p, x, starts[0]);
      EndsAfterMoves(re, p, x, starts[1..], lo);
      MovedTail(starts, |p|);
      MovedConcat(Ends(re, x, starts[0]), EndsAfter(re, x, starts[1..], lo), |p|);
    }
  }

  lemma MovedTail(es: seq<nat>, d: nat)
    requires es != []
    ensures Moved(es, d)[1..] == Moved(es[1..], d)
  {
  }

  lemma MovedConcat(a: seq<nat>, b: seq<nat>, d: nat)
    ensures Moved(a + b, d) == Moved(a, d) + Moved(b, d)
  {
  }

  lemma MatchMoves(re: Re, p: string, x: string, i: nat)
    requires i <= |x|
    ensures MatchEnd(re, p + x, |p| + i) ==
            match MatchEnd(re, x, i) { case None => None case Some(e) => Some(|p| + e) }
  {
    hide Ends;
    EndsMove(re, p, x, i);
  }

  lemma SubStep(re: Re, repl: string, t: string, i: nat)
    requires i < |t|
    ensures SubFrom(re, repl, t, i) ==
            match MatchEnd(re, t, i) {
              case None => [t[i]] + SubFrom(re, repl, t, i + 1)
              case Some(e) => repl + SubFrom(re, repl, t, e)
            }
  {
    hide MatchEnd;
  }

  lemma SubAtEnd(re: Re, repl: string, t: string)
    ensures SubFrom(re, repl, t, |t|) == ""
  {
  }

  lemma {:induction false} SubMoves(re: Re, repl: string, p: string, x: string, t: string, i: nat)
    requires i <= |x| && t == p + x
    ensures |t| == |p| + |x| && SubFrom(re, repl, t, |p| + i) == SubFrom(re, repl, x, i)
    decreases |x| - i
  {
    hide MatchEnd, SubFrom;
    if i == |x| {
      SubAtEnd(re, repl, x);
      SubAtEnd(re, repl, t);
    } else {
      MatchMoves(re, p, x, i);
      SubStep(re, repl, x, i);
      SubStep(re, repl, t, |p| + i);
      match MatchEnd(re, x, i)
      case None => SubMoves(re, repl, p, x, t, i + 1);
      case Some(e) => SubMoves(re, repl, p, x, t, e);
    }
  }
}
