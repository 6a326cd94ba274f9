/** server/events.py: what is taken out of every event before anyone sees it. */
module Redaction {
  import opened PyText
  import opened Regex

  const REDACTED := "[REDACTED]"

  const ANTHROPIC_KEY: Re := Cat(Literal("sk-ant-"), AtLeast(KeyChar, 10))

  const KEY_WORD: Re :=
    Alt(Cat(AnyCaseLiteral("api"), Cat(Opt(Char(KeySeparator)), AnyCaseLiteral("key"))),
        Alt(AnyCaseLiteral("token"), AnyCaseLiteral("secret")))

  const TOKEN: Re := AtLeast(TokenChar, 12)

  function Assignment(key: Re, token: Re): Re {
    var quote := Opt(Char(QuoteMark));
    Cat(key, Cat(Many(Space), Cat(Char(Assign), Cat(Many(Space), Cat(quote, Cat(token, quote))))))
  }

  /** `\s+` is one blank and then any number. */
  function Bearer(token: Re): Re {
    Cat(AnyCaseLiteral("bearer"), Cat(Char(Space), Cat(Many(Space), token)))
  }

  const ASSIGNMENT: Re := Assignment(KEY_WORD, TOKEN)
  const BEARER: Re := Bearer(TOKEN)

  const AWS_KEY: Re := Cat(Literal("AKIA"), Times(UpperOrDigit, 16))

  function PemEdge(opening: string): Re {
    Cat(Literal(opening), Cat(Many(UpperOrBlank), Literal("PRIVATE KEY-----")))
  }

  const PEM_HEADER: Re := PemEdge("-----BEGIN ")
  const PEM_FOOTER: Re := PemEdge("-----END ")
  const PEM_BLOCK: Re := Cat(PEM_HEADER, Cat(ManyLazy(Anything), PEM_FOOTER))

  const PATTERNS: seq<Re> := [ANTHROPIC_KEY, ASSIGNMENT, BEARER, AWS_KEY, PEM_BLOCK]

  /** The first n substitutions, in order. */
  function RedactUpTo(text: string, n: nat): string
    requires n <= |PATTERNS|
  {
    if n == 0 then text else Sub(PATTERNS[n - 1], REDACTED, RedactUpTo(text, n - 1))
  }

  function Redact(text: string): string {
    RedactUpTo(text, |PATTERNS|)
  }

  method RedactText(text: string) returns (r: string)
    ensures r == Redact(text)
    ensures r == Sub(PEM_BLOCK, "[REDACTED]", Sub(AWS_KEY, "[REDACTED]", Sub(BEARER, "[REDACTED]",
                   Sub(ASSIGNMENT, "[REDACTED]", Sub(ANTHROPIC_KEY, "[REDACTED]", text)))))
  {
    hide Sub;
    FiveInOrder(text);
    r := text;
    for n := 0 to |PATTERNS|
      invariant r == RedactUpTo(text, n)
    {
      r := Sub(PATTERNS[n], REDACTED, r);
    }
  }

  lemma FiveInOrder(text: string)
    ensures Redact(text) ==
            Sub(PEM_BLOCK, "[REDACTED]", Sub(AWS_KEY, "[REDACTED]", Sub(BEARER, "[REDACTED]",
              Sub(ASSIGNMENT, "[REDACTED]", Sub(ANTHROPIC_KEY, "[REDACTED]", text)))))
  {
    hide Sub;
    assert RedactUpTo(text, 1) == Sub(ANTHROPIC_KEY, "[REDACTED]", text);
    assert RedactUpTo(text, 2) == Sub(ASSIGNMENT, "[REDACTED]", RedactUpTo(text, 1));
    assert RedactUpTo(text, 3) == Sub(BEARER, "[REDACTED]", RedactUpTo(text, 2));
    assert RedactUpTo(text, 4) == Sub(AWS_KEY, "[REDACTED]", RedactUpTo(text, 3));
  }

  // ----- where bracket-free text in an output comes from -----

  /** No substring of t is a word of the pattern. */
  ghost predicate Clean(re: Re, t: string) {
    forall i, j | 0 <= i <= j <= |t| :: !Matches(re, t[i..j])
  }

  predicate BracketFree(u: string) {
    '[' !in u && ']' !in u
  }

  /** The text u stands at a in t, and no match of the pattern starts inside it. */
  ghost predicate CopiedFrom(re: Re, t: string, a: nat, u: string) {
    && OccursAt(t, u, a)
    && forall c | a <= c < a + |u| :: MatchEnd(re, t, c).None?
  }

  function Out(re: Re, t: string, i: nat): string
    requires i <= |t|
  {
    SubFrom(re, REDACTED, t, i)
  }

  /** Bracket-free text at the front of the output was copied. */
  lemma {:induction false} FrontIsCopied(re: Re, t: string, i: nat, y: nat)
    requires i <= |t| && y <= |Out(re, t, i)| && '[' !in Out(re, t, i)[..y]
    ensures CopiedFrom(re, t, i, Out(re, t, i)[..y])
    ensures i + y <= |t| && Out(re, t, i)[y..] == Out(re, t, i + y)
    decreases y
  {
    hide Out, MatchEnd, CopiedFrom;
    var out := Out(re, t, i);
    if y == 0 {
      NothingIsCopied(re, t, i);
      assert out[..0] == "" && out[0..] == out;
    } else {
      assert out[0] in out[..y];
      OutStep(re, t, i);
      var rest := Out(re, t, i + 1);
      SliceOfCons(t[i], rest, y);
      FrontIsCopied(re, t, i + 1, y - 1);
      CopyOneMore(re, t, i, rest[..y - 1]);
    }
  }

  lemma NothingIsCopied(re: Re, t: string, i: nat)
    requires i <= |t|
    ensures CopiedFrom(re, t, i, "")
  {
  }

  /** Output that does not open with the marker opens with a copied character. */
  lemma OutStep(re: Re, t: string, i: nat)
    requires i <= |t| && Out(re, t, i) != "" && Out(re, t, i)[0] != '['
    ensures i < |t| && MatchEnd(re, t, i).None? && Out(re, t, i) == [t[i]] + Out(re, t, i + 1)
  {
    hide MatchEnd;
  }

  lemma SliceOfCons(c: char, rest: string, y: nat)
    requires 0 < y <= 1 + |rest|
    ensures ([c] + rest)[..y] == [c] + rest[..y - 1]
    ensures ([c] + rest)[y..] == rest[y - 1..]
  {
  }

  lemma CopyOneMore(re: Re, t: string, i: nat, u: string)
    requires i < |t| && MatchEnd(re, t, i).None? && CopiedFrom(re, t, i + 1, u)
    ensures CopiedFrom(re, t, i, [t[i]] + u)
  {
    hide MatchEnd;
    assert t[i..i + 1 + |u|] == [t[i]] + t[i + 1..i + 1 + |u|];
  }

  lemma SliceOfTail(out: string, d: nat, x: nat, y: nat)
    requires d <= x <= y <= |out|
    ensures out[x..y] == out[d..][x - d..y - d]
  {
  }

  /** Before a bracket-free stretch that is not at the front, the output takes a whole step. */
  lemma StepBefore(re: Re, t: string, i: nat, x: nat, y: nat) returns (j: nat, d: nat)
    requires i <= |t| && 0 < x <= y <= |Out(re, t, i)| && y - x > 8
    requires BracketFree(Out(re, t, i)[x..y])
    ensures i < j <= |t| && d <= x && Out(re, t, i)[d..] == Out(re, t, j)
  {
    var out := Out(re, t, i);
    match MatchEnd(re, t, i)
    case None =>
      j, d := i + 1, 1;
    case Some(e) =>
      j, d := e, 10;
      assert out == REDACTED + Out(re, t, e);
      if x < 10 {
        assert out[9] in out[x..y];
      }
  }

  /** A stretch of output longer than the marker's inside, and free of brackets, was copied. */
  lemma {:induction false} StretchIsCopied(re: Re, t: string, i: nat, x: nat, y: nat) returns (a: nat)
    requires i <= |t| && x <= y <= |Out(re, t, i)| && y - x > 8
    requires BracketFree(Out(re, t, i)[x..y])
    ensures i <= a && CopiedFrom(re, t, a, Out(re, t, i)[x..y])
    decreases |t| - i
  {
    hide Out, CopiedFrom;
    if x == 0 {
      assert Out(re, t, i)[0..y] == Out(re, t, i)[..y];
      FrontIsCopied(re, t, i, y);
      a := i;
    } else {
      var j, d := StepBefore(re, t, i, x, y);
      SliceOfTail(Out(re, t, i), d, x, y);
      a := StretchIsCopied(re, t, j, x - d, y - d);
    }
  }

  /** Two such stretches, one after the other, come from places in the same order. */
  lemma {:induction false} StretchesKeepOrder(re: Re, t: string, i: nat, x: nat, y: nat, v: nat, w: nat)
    returns (a: nat, b: nat)
    requires i <= |t| && x <= y <= v <= w <= |Out(re, t, i)| && y - x > 8 && w - v > 8
    requires BracketFree(Out(re, t, i)[x..y]) && BracketFree(Out(re, t, i)[v..w])
    ensures a + (y - x) <= b
    ensures CopiedFrom(re, t, a, Out(re, t, i)[x..y])
    ensures CopiedFrom(re, t, b, Out(re, t, i)[v..w])
    decreases |t| - i
  {
    hide Out, BracketFree, CopiedFrom;
    if x == 0 {
      a := i;
      assert Out(re, t, i)[0..y] == Out(re, t, i)[..y];
      b := StretchAfterFront(re, t, i, y, v, w);
    } else {
      var j, d := StepBefore(re, t, i, x, y);
      SliceOfTail(Out(re, t, i), d, x, y);
      SliceOfTail(Out(re, t, i), d, v, w);
      a, b := StretchesKeepOrder(re, t, j, x - d, y - d, v - d, w - d);
    }
  }

  lemma StretchAfterFront(re: Re, t: string, i: nat, y: nat, v: nat, w: nat) returns (b: nat)
    requires i <= |t| && y <= v <= w <= |Out(re, t, i)| && w - v > 8
    requires BracketFree(Out(re, t, i)[..y]) && BracketFree(Out(re, t, i)[v..w])
    ensures i + y <= b
    ensures CopiedFrom(re, t, i, Out(re, t, i)[..y])
    ensures CopiedFrom(re, t, b, Out(re, t, i)[v..w])
  {
    hide Out, CopiedFrom;
    FrontIsCopied(re, t, i, y);
    SliceOfTail(Out(re, t, i), y, v, w);
    b := StretchIsCopied(re, t, i + y, v - y, w - y);
  }

  // ----- a substitution cleans, and dirties nothing -----

  /** Words of the pattern have no brackets and are longer than the marker's inside. */
  predicate IsPlain(re: Re) {
    Avoids(re, '[') && Avoids(re, ']') && MinLength(re) > 8
  }

  lemma PlainWord(re: Re, u: string)
    requires IsPlain(re) && Matches(re, u)
    ensures BracketFree(u) && |u| > 8
  {
    WordShape(re, u, '[');
    WordShape(re, u, ']');
  }

  lemma NeverEmpty(re: Re)
    requires MinLength(re) > 0
    ensures !Matches(re, "")
  {
    if Matches(re, "") { WordShape(re, "", '['); }
  }

  lemma MatchIsFound(re: Re, t: string, a: nat, e: nat)
    requires MinLength(re) > 0 && a <= e <= |t| && Matches(re, t[a..e])
    ensures MatchEnd(re, t, a).Some?
  {
    NeverEmpty(re);
    if MatchEnd(re, t, a).None? { NoMatchHere(re, t, a, e); }
  }

  lemma SubCleansPlain(re: Re, t: string)
    requires IsPlain(re)
    ensures Clean(re, Sub(re, REDACTED, t))
  {
    var out := Sub(re, REDACTED, t);
    forall x, y | 0 <= x <= y <= |out| ensures !Matches(re, out[x..y]) {
      if Matches(re, out[x..y]) {
        PlainWord(re, out[x..y]);
        var a := StretchIsCopied(re, t, 0, x, y);
        MatchIsFound(re, t, a, a + (y - x));
      }
    }
  }

  lemma SubKeepsClean(plain: Re, re: Re, t: string)
    requires IsPlain(plain) && Clean(plain, t)
    ensures Clean(plain, Sub(re, REDACTED, t))
  {
    var out := Sub(re, REDACTED, t);
    forall x, y | 0 <= x <= y <= |out| ensures !Matches(plain, out[x..y]) {
      if Matches(plain, out[x..y]) {
        PlainWord(plain, out[x..y]);
        var a := StretchIsCopied(re, t, 0, x, y);
      }
    }
  }

  /** A block with plain ends cannot be put together across a marker either. */
  lemma SubCleansBlock(head: Re, tail: Re, t: string)
    requires IsPlain(head) && IsPlain(tail)
    ensures var block := Cat(head, Cat(ManyLazy(Anything), tail)); Clean(block, Sub(block, REDACTED, t))
  {
    hide Matches, MatchEnd, Sub, IsPlain;
    var block := Cat(head, Cat(ManyLazy(Anything), tail));
    var out := Sub(block, REDACTED, t);
    forall x, y | 0 <= x <= y <= |out| ensures !Matches(block, out[x..y]) {
      BlockIsGone(head, tail, t, x, y);
    }
  }

  lemma BlockIsGone(head: Re, tail: Re, t: string, x: nat, y: nat)
    requires IsPlain(head) && IsPlain(tail)
    requires x <= y <= |Sub(Cat(head, Cat(ManyLazy(Anything), tail)), REDACTED, t)|
    ensures var block := Cat(head, Cat(ManyLazy(Anything), tail)); !Matches(block, Sub(block, REDACTED, t)[x..y])
  {
    hide Matches, MatchEnd, SubFrom, BracketFree, Avoids;
    var block := Cat(head, Cat(ManyLazy(Anything), tail));
    var out := Out(block, t, 0);
    if Matches(block, out[x..y]) {
      var m := SplitCat(head, block.second, out, x, y);
      var n := SplitCat(ManyLazy(Anything), tail, out, m, y);
      PlainWord(head, out[x..m]);
      PlainWord(tail, out[n..y]);
      var a, b := StretchesKeepOrder(block, t, 0, x, m, n, y);
      BlockBetween(head, tail, t, a, a + (m - x), b, b + (y - n));
      MatchIsFound(block, t, a, b + (y - n));
    }
  }

  lemma BlockBetween(head: Re, tail: Re, t: string, a: nat, m: nat, b: nat, e: nat)
    requires a <= m <= b <= e <= |t| && Matches(head, t[a..m]) && Matches(tail, t[b..e])
    ensures Matches(Cat(head, Cat(ManyLazy(Anything), tail)), t[a..e])
  {
    assert Matches(ManyLazy(Anything), t[m..b]);
    CatOfSlices(ManyLazy(Anything), tail, t, m, b, e);
    CatOfSlices(head, Cat(ManyLazy(Anything), tail), t, a, m, e);
  }

  // ----- the five patterns -----

  /** Both facts about a concatenation come from its parts. */
  lemma CatShape(a: Re, b: Re, c: char)
    ensures Avoids(Cat(a, b), c) <==> Avoids(a, c) && Avoids(b, c)
    ensures MinLength(Cat(a, b)) == MinLength(a) + MinLength(b)
  {
  }

  lemma AtLeastShape(word: Re, k: Class, n: nat, c: char)
    requires !In(k, c) && Avoids(word, c)
    ensures Avoids(Cat(word, AtLeast(k, n)), c) && MinLength(Cat(word, AtLeast(k, n))) == MinLength(word) + n
  {
    CatShape(Times(k, n), Many(k), c);
    CatShape(word, AtLeast(k, n), c);
  }

  lemma KeyShapes(c: char)
    requires c == '[' || c == ']'
    ensures Avoids(ANTHROPIC_KEY, c) && MinLength(ANTHROPIC_KEY) > 8
    ensures Avoids(AWS_KEY, c) && MinLength(AWS_KEY) > 8
  {
    AtLeastShape(Literal("sk-ant-"), KeyChar, 10, c);
    CatShape(Literal("AKIA"), Times(UpperOrDigit, 16), c);
  }

  lemma KeyWordShape(c: char)
    requires c == '[' || c == ']'
    ensures Avoids(KEY_WORD, c)
  {
    assert Fold(c) == c;
    CatShape(Opt(Char(KeySeparator)), AnyCaseLiteral("key"), c);
    assert Avoids(Alt(AnyCaseLiteral("token"), AnyCaseLiteral("secret")), c);
  }

  lemma TokenShape(c: char)
    requires c == '[' || c == ']'
    ensures Avoids(TOKEN, c) && MinLength(TOKEN) == 12
  {
    CatShape(Times(TokenChar, 12), Many(TokenChar), c);
  }

  lemma AssignmentShape(key: Re, token: Re, c: char)
    requires (c == '[' || c == ']') && Avoids(key, c) && Avoids(token, c) && MinLength(token) == 12
    ensures Avoids(Assignment(key, token), c) && MinLength(Assignment(key, token)) > 8
  {
    var quote := Opt(Char(QuoteMark));
    CatShape(token, quote, c);
    var value := Cat(quote, Cat(token, quote));
    CatShape(quote, Cat(token, quote), c);
    CatShape(Many(Space), value, c);
    var right := Cat(Char(Assign), Cat(Many(Space), value));
    CatShape(Char(Assign), Cat(Many(Space), value), c);
    CatShape(Many(Space), right, c);
    CatShape(key, Cat(Many(Space), right), c);
  }

  lemma BearerShape(token: Re, c: char)
    requires (c == '[' || c == ']') && Avoids(token, c) && MinLength(token) == 12
    ensures Avoids(Bearer(token), c) && MinLength(Bearer(token)) > 8
  {
    CatShape(Many(Space), token, c);
    CatShape(Char(Space), Cat(Many(Space), token), c);
    CatShape(AnyCaseLiteral("bearer"), Cat(Char(Space), Cat(Many(Space), token)), c);
  }

  lemma PemShape(opening: string, c: char)
    requires (c == '[' || c == ']') && c !in opening
    ensures Avoids(PemEdge(opening), c) && MinLength(PemEdge(opening)) > 8
  {
    var closing := Literal("PRIVATE KEY-----");
    CatShape(Many(UpperOrBlank), closing, c);
    CatShape(Literal(opening), Cat(Many(UpperOrBlank), closing), c);
  }

  lemma TokenPatternShapes(c: char)
    requires c == '[' || c == ']'
    ensures Avoids(ASSIGNMENT, c) && MinLength(ASSIGNMENT) > 8
    ensures Avoids(BEARER, c) && MinLength(BEARER) > 8
  {
    KeyWordShape(c);
    TokenShape(c);
    AssignmentShape(KEY_WORD, TOKEN, c);
    BearerShape(TOKEN, c);
  }

  lemma PlainPem()
    ensures IsPlain(PEM_HEADER) && IsPlain(PEM_FOOTER)
  {
    PemShape("-----BEGIN ", '[');
    PemShape("-----BEGIN ", ']');
    PemShape("-----END ", '[');
    PemShape("-----END ", ']');
  }

  lemma PlainPattern(n: nat)
    requires n < 4
    ensures IsPlain(PATTERNS[n])
  {
    if n == 0 || n == 3 {
      KeyShapes('[');
      KeyShapes(']');
    } else {
      TokenPatternShapes('[');
      TokenPatternShapes(']');
    }
  }

  lemma {:induction false} PrefixIsClean(text: string, n: nat)
    requires n <= |PATTERNS|
    ensures forall k | 0 <= k < n :: Clean(PATTERNS[k], RedactUpTo(text, n))
  {
    if n > 0 {
      PrefixIsClean(text, n - 1);
      var before := RedactUpTo(text, n - 1);
      forall k | 0 <= k < n ensures Clean(PATTERNS[k], RedactUpTo(text, n)) {
        if k < n - 1 {
          PlainPattern(k);
          SubKeepsClean(PATTERNS[k], PATTERNS[n - 1], before);
        } else if k < 4 {
          PlainPattern(k);
          SubCleansPlain(PATTERNS[k], before);
        } else {
          PlainPem();
          SubCleansBlock(PEM_HEADER, PEM_FOOTER, before);
        }
      }
    }
  }

  /**
   * No substring of a redacted text is a secret in the sense of any of the
   * five patterns, although each pattern runs once and later substitutions
   * rewrite what earlier ones have passed.
   */
  lemma RedactedTextHasNoSecret(text: string, n: nat, i: nat, j: nat)
    requires n < |PATTERNS| && i <= j <= |Redact(text)|
    ensures !Matches(PATTERNS[n], Redact(text)[i..j])
  {
    PrefixIsClean(text, |PATTERNS|);
  }

  lemma {:induction false} SubFromClean(re: Re, repl: string, t: string, i: nat)
    requires i <= |t| && Clean(re, t)
    ensures SubFrom(re, repl, t, i) == t[i..]
    decreases |t| - i
  {
    if i < |t| {
      hide MatchEnd, Clean;
      NoMatchInClean(re, t, i);
      SubFromClean(re, repl, t, i + 1);
      assert t[i..] == [t[i]] + t[i + 1..];
    }
  }

  lemma NoMatchInClean(re: Re, t: string, i: nat)
    requires i <= |t| && Clean(re, t)
    ensures MatchEnd(re, t, i).None?
  {
    hide Ends, Matches;
    var es := Ends(re, t, i);
    if es != [] {
      assert es[0] in es;
      EndsAreExact(re, t, i, es[0]);
    }
  }

  /** Text without secrets passes through unchanged. */
  lemma {:induction false} CleanTextIsKept(text: string, n: nat)
    requires n <= |PATTERNS| && forall k | 0 <= k < |PATTERNS| :: Clean(PATTERNS[k], text)
    ensures RedactUpTo(text, n) == text
  {
    if n > 0 {
      CleanTextIsKept(text, n - 1);
      SubFromClean(PATTERNS[n - 1], REDACTED, text, 0);
      assert text[0..] == text;
    }
  }

  lemma RedactIsIdempotent(text: string)
    ensures Redact(Redact(text)) == Redact(text)
  {
    PrefixIsClean(text, |PATTERNS|);
    CleanTextIsKept(Redact(text), |PATTERNS|);
  }

  // ----- nested values -----

  /**
   * The Python values that reach `redact_value`. Strings also stand for
   * members of str enums. A container of any other kind (a tuple, a set, a
   * frozenset, an object that is no dataclass) is returned as it is; its
   * elements are the values it holds, in some order.
   */
  datatype Value =
    | Str(text: string)
    | Dict(entries: seq<Entry>)
    | List(items: seq<Value>)
    | OtherContainer(elements: seq<Value>)
    | EnumMember(value: Value)       // a member of an Enum that is not a str
    | Record(fields: seq<Entry>)     // a dataclass instance
    | Opaque                         // a number, None: a value that holds no string

  datatype Entry = Entry(key: string, value: Value)

  function RedactValue(v: Value): Value {
    match v
    case Str(text) => Str(Redact(text))
    case Dict(entries) => Dict(RedactEntries(entries))
    case List(items) => List(RedactItems(items))
    case OtherContainer(_) => v
    case EnumMember(value) => value
    case Record(fields) => Dict(RedactEntries(fields))
    case Opaque => v
  }

  function RedactEntries(es: seq<Entry>): (r: seq<Entry>)
    ensures |r| == |es|
  {
    if es == [] then [] else [Entry(es[0].key, RedactValue(es[0].value))] + RedactEntries(es[1..])
  }

  function RedactItems(vs: seq<Value>): (r: seq<Value>)
    ensures |r| == |vs|
  {
    if vs == [] then [] else [RedactValue(vs[0])] + RedactItems(vs[1..])
  }

  /**
   * Strings that stand as a value somewhere below v, in reading order; keys
   * are not values, and enum members are leaves.
   */
  function Texts(v: Value): seq<string> {
    match v
    case Str(text) => [text]
    case Dict(entries) => EntryTexts(entries)
    case List(items) => ItemTexts(items)
    case OtherContainer(elements) => ItemTexts(elements)
    case EnumMember(_) => []
    case Record(fields) => EntryTexts(fields)
    case Opaque => []
  }

  function EntryTexts(es: seq<Entry>): seq<string> {
    if es == [] then [] else Texts(es[0].value) + EntryTexts(es[1..])
  }

  function ItemTexts(vs: seq<Value>): seq<string> {
    if vs == [] then [] else Texts(vs[0]) + ItemTexts(vs[1..])
  }

  function RedactEach(texts: seq<string>): (r: seq<string>)
    ensures |r| == |texts| && forall k | 0 <= k < |r| :: r[k] == Redact(texts[k])
  {
    seq(|texts|, k requires 0 <= k < |texts| => Redact(texts[k]))
  }

  /** The strings that are passed on as they are: those of other containers, and those behind enum members. */
  function PassedOn(v: Value): seq<string> {
    match v
    case Dict(entries) => EntriesPassedOn(entries)
    case List(items) => ItemsPassedOn(items)
    case OtherContainer(elements) => ItemTexts(elements)
    case EnumMember(value) => Texts(value)
    case Record(fields) => EntriesPassedOn(fields)
    case _ => []
  }

  function EntriesPassedOn(es: seq<Entry>): seq<string> {
    if es == [] then [] else PassedOn(es[0].value) + EntriesPassedOn(es[1..])
  }

  function ItemsPassedOn(vs: seq<Value>): seq<string> {
    if vs == [] then [] else PassedOn(vs[0]) + ItemsPassedOn(vs[1..])
  }

  // ----- no secret in a redacted value -----

  ghost predicate AllClean(texts: seq<string>) {
    forall t, k | t in texts && 0 <= k < |PATTERNS| :: Clean(PATTERNS[k], t)
  }

  lemma AllCleanConcat(a: seq<string>, b: seq<string>)
    ensures AllClean(a + b) <==> AllClean(a) && AllClean(b)
  {
    hide Clean;
    assert forall t | t in a :: t in a + b;
    assert forall t | t in b :: t in a + b;
  }

  lemma RedactedTextIsClean(text: string)
    ensures AllClean([Redact(text)])
  {
    PrefixIsClean(text, |PATTERNS|);
  }

  lemma NoTextsAreClean()
    ensures AllClean([])
  {
  }

  /**
   * No string value in a redacted value, at any depth, contains a secret,
   * exactly when the strings that are passed on as they are hold none.
   */
  lemma {:induction false} RedactedValueHasNoSecret(v: Value)
    ensures AllClean(Texts(RedactValue(v))) <==> AllClean(PassedOn(v))
    decreases v, 1
  {
    hide Redact, AllClean;
    NoTextsAreClean();
    match v
    case Str(text) => RedactedTextIsClean(text);
    case Dict(entries) => RedactedEntriesHaveNoSecret(entries);
    case List(items) => RedactedItemsHaveNoSecret(items);
    case Record(fields) => RedactedEntriesHaveNoSecret(fields);
    case _ =>
  }

  lemma {:induction false} RedactedEntriesHaveNoSecret(es: seq<Entry>)
    ensures AllClean(EntryTexts(RedactEntries(es))) <==> AllClean(EntriesPassedOn(es))
    decreases es, 0
  {
    hide AllClean, RedactValue, Texts, PassedOn;
    if es != [] {
      RedactedValueHasNoSecret(es[0].value);
      RedactedEntriesHaveNoSecret(es[1..]);
      AllCleanConcat(Texts(RedactValue(es[0].value)), EntryTexts(RedactEntries(es[1..])));
      AllCleanConcat(PassedOn(es[0].value), EntriesPassedOn(es[1..]));
      assert RedactEntries(es)[1..] == RedactEntries(es[1..]);
    }
  }

  lemma {:induction false} RedactedItemsHaveNoSecret(vs: seq<Value>)
    ensures AllClean(ItemTexts(RedactItems(vs))) <==> AllClean(ItemsPassedOn(vs))
    decreases vs, 0
  {
    hide AllClean, RedactValue, Texts, PassedOn;
    if vs != [] {
      RedactedValueHasNoSecret(vs[0]);
      RedactedItemsHaveNoSecret(vs[1..]);
      AllCleanConcat(Texts(RedactValue(vs[0])), ItemTexts(RedactItems(vs[1..])));
      AllCleanConcat(PassedOn(vs[0]), ItemsPassedOn(vs[1..]));
      assert RedactItems(vs)[1..] == RedactItems(vs[1..]);
    }
  }

  // ----- each string in its place -----

  /** Redaction would change no text in the other containers of v, and its enum members carry none. */
  predicate NothingPassesBy(v: Value) {
    match v
    case Str(_) | Opaque => true
    case Dict(entries) => forall k | 0 <= k < |entries| :: NothingPassesBy(entries[k].value)
    case List(items) => forall k | 0 <= k < |items| :: NothingPassesBy(items[k])
    case OtherContainer(elements) => RedactEach(ItemTexts(elements)) == ItemTexts(elements)
    case EnumMember(value) => Texts(value) == []
    case Record(fields) => forall k | 0 <= k < |fields| :: NothingPassesBy(fields[k].value)
  }

  lemma RedactEachConcat(a: seq<string>, b: seq<string>)
    ensures RedactEach(a + b) == RedactEach(a) + RedactEach(b)
  {
  }

  /** Two stretches match together exactly when each matches, if neither is shorter than what it should match. */
  lemma MatchBoth(a: seq<string>, b: seq<string>, x: seq<string>, y: seq<string>)
    requires |a| >= |x| && |b| >= |y|
    ensures a + b == x + y <==> a == x && b == y
  {
    if a + b == x + y {
      assert |a| == |x|;
      assert a == (a + b)[..|a|] && x == (x + y)[..|x|];
      assert b == (a + b)[|a|..] && y == (x + y)[|x|..];
    }
  }

  /**
   * What comes out of a value holds its string values, at any depth, each
   * redacted and in its place, and no others, exactly when its other
   * containers hold nothing to redact and its enum members carry no text.
   */
  lemma {:induction false} TextsAreRedactedExactly(v: Value)
    ensures |Texts(RedactValue(v))| >= |Texts(v)|
    ensures Texts(RedactValue(v)) == RedactEach(Texts(v)) <==> NothingPassesBy(v)
    decreases v, 1
  {
    hide Redact;
    match v
    case Dict(entries) => EntriesAreRedactedExactly(entries);
    case List(items) => ItemsAreRedactedExactly(items);
    case Record(fields) => EntriesAreRedactedExactly(fields);
    case _ =>
  }

  lemma {:induction false} EntriesAreRedactedExactly(es: seq<Entry>)
    ensures |EntryTexts(RedactEntries(es))| >= |EntryTexts(es)|
    ensures EntryTexts(RedactEntries(es)) == RedactEach(EntryTexts(es)) <==>
            forall k | 0 <= k < |es| :: NothingPassesBy(es[k].value)
    decreases es, 0
  {
    if es != [] {
      hide RedactValue, Texts, RedactEach, NothingPassesBy;
      var first, rest := es[0].value, es[1..];
      TextsAreRedactedExactly(first);
      EntriesAreRedactedExactly(rest);
      assert RedactEntries(es)[1..] == RedactEntries(rest);
      RedactEachConcat(Texts(first), EntryTexts(rest));
      MatchBoth(Texts(RedactValue(first)), EntryTexts(RedactEntries(rest)),
                RedactEach(Texts(first)), RedactEach(EntryTexts(rest)));
      assert forall k | 0 < k < |es| :: es[k] == rest[k - 1];
    }
  }

  lemma {:induction false} ItemsAreRedactedExactly(vs: seq<Value>)
    ensures |ItemTexts(RedactItems(vs))| >= |ItemTexts(vs)|
    ensures ItemTexts(RedactItems(vs)) == RedactEach(ItemTexts(vs)) <==>
            forall k | 0 <= k < |vs| :: NothingPassesBy(vs[k])
    decreases vs, 0
  {
    if vs != [] {
      hide RedactValue, Texts, RedactEach, NothingPassesBy;
      var first, rest := vs[0], vs[1..];
      TextsAreRedactedExactly(first);
      ItemsAreRedactedExactly(rest);
      assert RedactItems(vs)[1..] == RedactItems(rest);
      RedactEachConcat(Texts(first), ItemTexts(rest));
      MatchBoth(Texts(RedactValue(first)), ItemTexts(RedactItems(rest)),
                RedactEach(Texts(first)), RedactEach(ItemTexts(rest)));
      assert forall k | 0 < k < |vs| :: vs[k] == rest[k - 1];
    }
  }

  // ----- the shape stays -----

  /** r has the shape of v: the same keys and items in their places; a dataclass is now a dictionary of its fields. */
  predicate SameShape(v: Value, r: Value) {
    match v
    case Str(_) => r.Str?
    case Dict(entries) => r.Dict? && SameEntries(entries, r.entries)
    case List(items) =>
      r.List? && |r.items| == |items| && forall k | 0 <= k < |items| :: SameShape(items[k], r.items[k])
    case Record(fields) => r.Dict? && SameEntries(fields, r.entries)
    case EnumMember(value) => r == value
    case OtherContainer(_) | Opaque => r == v
  }

  predicate SameEntries(es: seq<Entry>, rs: seq<Entry>) {
    && |rs| == |es|
    && forall k | 0 <= k < |es| :: rs[k].key == es[k].key && SameShape(es[k].value, rs[k].value)
  }

  lemma {:induction false} ShapeIsKept(v: Value)
    ensures SameShape(v, RedactValue(v))
    decreases v, 1
  {
    hide Redact;
    match v
    case Dict(entries) => EntriesKeepShape(entries);
    case List(items) => ItemsKeepShape(items);
    case Record(fields) => EntriesKeepShape(fields);
    case _ =>
  }

  lemma {:induction false} EntriesKeepShape(es: seq<Entry>)
    ensures SameEntries(es, RedactEntries(es))
    decreases es, 0
  {
    hide RedactValue, SameShape;
    if es != [] {
      ShapeIsKept(es[0].value);
      EntriesKeepShape(es[1..]);
      var rs := RedactEntries(es);
      assert forall k | 0 < k < |es| :: es[k] == es[1..][k - 1] && rs[k] == RedactEntries(es[1..])[k - 1];
    }
  }

  lemma {:induction false} ItemsKeepShape(vs: seq<Value>)
    ensures |RedactItems(vs)| == |vs| && forall k | 0 <= k < |vs| :: SameShape(vs[k], RedactItems(vs)[k])
    decreases vs, 0
  {
    hide RedactValue, SameShape;
    if vs != [] {
      ShapeIsKept(vs[0]);
      ItemsKeepShape(vs[1..]);
      var rs := RedactItems(vs);
      assert forall k | 0 < k < |vs| :: vs[k] == vs[1..][k - 1] && rs[k] == RedactItems(vs[1..])[k - 1];
    }
  }

  // ----- values that redaction passes by -----

  const A_KEY := "sk-ant-abcdefghij"

  lemma KeyMatches()
    ensures |A_KEY| == 17 && Matches(ANTHROPIC_KEY, A_KEY[0..17])
  {
    assert A_KEY[0..7] == "sk-ant-";
    assert Matches(Times(KeyChar, 10), A_KEY[7..17]) && Matches(Many(KeyChar), A_KEY[17..17]);
    hide Matches;
    CatOfSlices(Times(KeyChar, 10), Many(KeyChar), A_KEY, 7, 17, 17);
    assert Matches(Literal("sk-ant-"), A_KEY[0..7]) by { LiteralMatchesItself("sk-ant-"); }
    CatOfSlices(Literal("sk-ant-"), AtLeast(KeyChar, 10), A_KEY, 0, 7, 17);
  }

  lemma LiteralMatchesItself(s: string)
    ensures Matches(Literal(s), s)
  {
  }

  lemma KeyIsSecret()
    ensures !AllClean([A_KEY])
  {
    hide Matches;
    KeyMatches();
    assert PATTERNS[0] == ANTHROPIC_KEY && A_KEY in [A_KEY];
    assert !Clean(PATTERNS[0], A_KEY);
  }

  /** A tuple or a set keeps its secrets, and so does an enum member that is not a string. */
  lemma ContainersAndEnumsPassBy()
    ensures var held := OtherContainer([Str(A_KEY)]);
            RedactValue(held) == held && !AllClean(Texts(RedactValue(held)))
    ensures var member := EnumMember(Str(A_KEY));
            RedactValue(member) == Str(A_KEY) && !AllClean(Texts(RedactValue(member)))
  {
    hide AllClean, Redact;
    KeyIsSecret();
    assert ItemTexts([Str(A_KEY)]) == [A_KEY] + ItemTexts([]) == [A_KEY];
  }
}
