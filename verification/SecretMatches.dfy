/** What the five secret patterns of server/events.py:47-57 match, character by character, and how much of it. */
module SecretMatches {
  import opened PyText
  import opened Regex
  import opened RegexChoice
  import opened Redaction

  // ----- characters -----

  predicate IsAlphanumeric(c: char) {
    'a' <= c <= 'z' || 'A' <= c <= 'Z' || '0' <= c <= '9'
  }

  /** Characters that case folding takes for ASCII letters: dotted and dotless i, long s, the Kelvin sign. */
  const FOLDED := "\U{130}\U{131}\U{17F}\U{212A}"

  predicate InKey(c: char) {
    IsAlphanumeric(c) || c in "_-"
  }

  predicate InToken(c: char) {
    IsAlphanumeric(c) || c in "_-." || c in FOLDED
  }

  /** Case folding takes c for the letter l. */
  predicate StandsFor(c: char, l: char)
    requires 'a' <= l <= 'z'
  {
    || c == l || c as int + 32 == l as int
    || (l == 'i' && c in "\U{130}\U{131}") || (l == 's' && c == '\U{17F}') || (l == 'k' && c == '\U{212A}')
  }

  predicate Spells(u: string, word: string)
    requires forall i | 0 <= i < |word| :: 'a' <= word[i] <= 'z'
  {
    |u| == |word| && forall i | 0 <= i < |u| :: StandsFor(u[i], word[i])
  }

  lemma FoldSays(c: char, l: char)
    requires 'a' <= l <= 'z'
    ensures Fold(c) == l <==> StandsFor(c, l)
  {
  }

  lemma AnyCaseSays(u: string, word: string)
    requires forall i | 0 <= i < |word| :: 'a' <= word[i] <= 'z'
    ensures IsAnyCase(u, word) <==> Spells(u, word)
  {
    hide Fold, StandsFor;
    forall i | 0 <= i < |u| && |u| == |word| ensures Fold(u[i]) == word[i] <==> StandsFor(u[i], word[i]) {
      FoldSays(u[i], word[i]);
    }
  }

  lemma ClassesSay(c: char)
    ensures In(KeyChar, c) <==> InKey(c)
    ensures In(TokenChar, c) <==> InToken(c)
    ensures In(UpperOrDigit, c) <==> 'A' <= c <= 'Z' || '0' <= c <= '9'
    ensures In(UpperOrBlank, c) <==> 'A' <= c <= 'Z' || c == ' '
    ensures In(Assign, c) <==> c in ":="
    ensures In(QuoteMark, c) <==> c in "'\""
    ensures In(KeySeparator, c) <==> c in "_-"
    ensures In(Space, c) <==> IsSpace(c)
  {
  }

  // ----- the patterns, spelled out -----

  /** `sk-ant-[A-Za-z0-9_-]{10,}` */
  predicate IsAnthropicKey(u: string) {
    |u| >= 17 && u[..7] == "sk-ant-" && forall i | 7 <= i < |u| :: InKey(u[i])
  }

  /** `AKIA[0-9A-Z]{16}` */
  predicate IsAwsKey(u: string) {
    |u| == 20 && u[..4] == "AKIA" && forall i | 4 <= i < 20 :: 'A' <= u[i] <= 'Z' || '0' <= u[i] <= '9'
  }

  // The other three have parts of any length; they are said of the slice of t from i to e.

  predicate Blanks(t: string, i: nat, e: nat)
    requires i <= e <= |t|
  {
    forall x | i <= x < e :: IsSpace(t[x])
  }

  predicate IsToken(t: string, i: nat, e: nat)
    requires i <= e <= |t|
  {
    e - i >= 12 && forall x | i <= x < e :: InToken(t[x])
  }

  predicate NoneOrQuote(t: string, i: nat, e: nat)
    requires i <= e <= |t|
  {
    e == i || (e == i + 1 && t[i] in "'\"")
  }

  /** `bearer\s+[A-Za-z0-9_\-\.]{12,}`, in any case; the token starts at j. */
  predicate IsBearer(t: string, i: nat, j: nat, e: nat) {
    i + 7 <= j <= e <= |t| && Spells(t[i..i + 6], "bearer") && Blanks(t, i + 6, j) && IsToken(t, j, e)
  }

  predicate IsKeyWord(t: string, i: nat, e: nat)
    requires i <= e <= |t|
  {
    || (e == i + 6 && Spells(t[i..i + 3], "api") && Spells(t[i + 3..e], "key"))
    || (e == i + 7 && Spells(t[i..i + 3], "api") && t[i + 3] in "_-" && Spells(t[i + 4..e], "key"))
    || Spells(t[i..e], "token") || Spells(t[i..e], "secret")
  }

  /** Where the parts of an assignment end: the word, the blanks before the sign, those after it, a quote, the token. */
  datatype Parts = Parts(word: nat, sign: nat, blanks: nat, quote: nat, token: nat)

  /**
   * `(api[_-]?key|token|secret)\s*[:=]\s*['"]?[A-Za-z0-9_\-\.]{12,}['"]?`, in any
   * case.
   */
  predicate IsAssignment(t: string, i: nat, p: Parts, e: nat) {
    && i <= p.word <= p.sign < p.blanks <= p.quote <= p.token <= e <= |t|
    && IsKeyWord(t, i, p.word) && Blanks(t, p.word, p.sign) && t[p.sign] in ":="
    && Blanks(t, p.sign + 1, p.blanks) && NoneOrQuote(t, p.blanks, p.quote)
    && IsToken(t, p.quote, p.token) && NoneOrQuote(t, p.token, e)
  }

  /** `opening[A-Z ]*PRIVATE KEY-----` */
  predicate IsPemEdge(t: string, i: nat, e: nat, opening: string)
    requires i <= e <= |t|
  {
    && e - i >= |opening| + 16
    && t[i..i + |opening|] == opening && t[e - 16..e] == "PRIVATE KEY-----"
    && forall x | i + |opening| <= x < e - 16 :: 'A' <= t[x] <= 'Z' || t[x] == ' '
  }

  /** A header up to h, a footer from f on, and anything between. */
  predicate IsPemBlock(t: string, i: nat, h: nat, f: nat, e: nat) {
    i <= h <= f <= e <= |t| && IsPemEdge(t, i, h, "-----BEGIN ") && IsPemEdge(t, f, e, "-----END ")
  }

  lemma AnthropicKeySays(u: string)
    ensures Matches(ANTHROPIC_KEY, u) <==> IsAnthropicKey(u)
  {
    hide In;
    forall c ensures In(KeyChar, c) <==> InKey(c) { ClassesSay(c); }
    var prefix, run := Literal("sk-ant-"), AtLeast(KeyChar, 10);
    if Matches(ANTHROPIC_KEY, u) {
      var m :| 0 <= m <= |u| && Matches(prefix, u[..m]) && Matches(run, u[m..]);
      RunSays(KeyChar, 10, u[m..]);
      assert forall i | 7 <= i < |u| :: u[i] == u[7..][i - 7];
    }
    if IsAnthropicKey(u) {
      RunSays(KeyChar, 10, u[7..]);
      assert Matches(prefix, u[..7]) && Matches(run, u[7..]);
    }
  }

  /** `k{n,}` */
  lemma RunSays(k: Class, n: nat, u: string)
    ensures Matches(AtLeast(k, n), u) <==> |u| >= n && AllIn(k, u)
  {
    hide In;
    if Matches(AtLeast(k, n), u) {
      var m :| 0 <= m <= |u| && Matches(Times(k, n), u[..m]) && Matches(Many(k), u[m..]);
      forall i | 0 <= i < |u| ensures In(k, u[i]) {
        assert if i < m then u[i] == u[..m][i] else u[i] == u[m..][i - m];
      }
    }
    if |u| >= n && AllIn(k, u) {
      assert Matches(Times(k, n), u[..n]) && Matches(Many(k), u[n..]);
    }
  }

  lemma AwsKeySays(u: string)
    ensures Matches(AWS_KEY, u) <==> IsAwsKey(u)
  {
    hide In;
    forall c ensures In(UpperOrDigit, c) <==> 'A' <= c <= 'Z' || '0' <= c <= '9' { ClassesSay(c); }
    var prefix, run := Literal("AKIA"), Times(UpperOrDigit, 16);
    if Matches(AWS_KEY, u) {
      var m :| 0 <= m <= |u| && Matches(prefix, u[..m]) && Matches(run, u[m..]);
      assert forall i | 4 <= i < |u| :: u[i] == u[4..][i - 4];
    }
    if IsAwsKey(u) {
      assert Matches(prefix, u[..4]) && Matches(run, u[4..]);
    }
  }

  lemma TokenSays(t: string, i: nat, e: nat)
    requires i <= e <= |t|
    ensures Matches(TOKEN, t[i..e]) <==> IsToken(t, i, e)
  {
    hide In, InToken;
    forall c ensures In(TokenChar, c) <==> InToken(c) { ClassesSay(c); }
    RunSays(TokenChar, 12, t[i..e]);
    assert forall x | i <= x < e :: t[x] == t[i..e][x - i];
  }

  lemma BlanksSay(t: string, i: nat, e: nat)
    requires i <= e <= |t|
    ensures Matches(Many(Space), t[i..e]) <==> Blanks(t, i, e)
    ensures Matches(Char(Space), t[i..e]) <==> e == i + 1 && IsSpace(t[i])
  {
    hide IsSpace;
    assert forall x | i <= x < e :: t[x] == t[i..e][x - i];
  }

  lemma OneCharSays(t: string, i: nat, e: nat)
    requires i <= e <= |t|
    ensures Matches(Opt(Char(QuoteMark)), t[i..e]) <==> NoneOrQuote(t, i, e)
    ensures Matches(Char(Assign), t[i..e]) <==> e == i + 1 && t[i] in ":="
    ensures Matches(Opt(Char(KeySeparator)), t[i..e]) <==> e == i || (e == i + 1 && t[i] in "_-")
  {
  }

  lemma WordSays(u: string, word: string)
    requires forall i | 0 <= i < |word| :: 'a' <= word[i] <= 'z'
    ensures Matches(AnyCaseLiteral(word), u) <==> Spells(u, word)
    ensures Spells(u, word) ==> |u| == |word|
  {
    AnyCaseSays(u, word);
  }

  lemma BearerSays(t: string, i: nat, e: nat)
    requires i <= e <= |t|
    ensures Matches(BEARER, t[i..e]) <==> exists j :: IsBearer(t, i, j, e)
  {
    hide Matches, Spells, IsToken, IsSpace;
    var word, blank, rest := AnyCaseLiteral("bearer"), Char(Space), Cat(Many(Space), TOKEN);
    if Matches(BEARER, t[i..e]) {
      var m := SplitCat(word, Cat(blank, rest), t, i, e);
      var n := SplitCat(blank, rest, t, m, e);
      var j := SplitCat(Many(Space), TOKEN, t, n, e);
      WordSays(t[i..m], "bearer");
      BlanksSay(t, m, n);
      BlanksSay(t, n, j);
      TokenSays(t, j, e);
      assert IsBearer(t, i, j, e);
    }
    if j :| IsBearer(t, i, j, e) {
      WordSays(t[i..i + 6], "bearer");
      BlanksSay(t, i + 6, i + 7);
      BlanksSay(t, i + 7, j);
      TokenSays(t, j, e);
      CatOfSlices(Many(Space), TOKEN, t, i + 7, j, e);
      CatOfSlices(blank, rest, t, i + 6, i + 7, e);
      CatOfSlices(word, Cat(blank, rest), t, i, i + 6, e);
    }
  }

  lemma KeyWordSays(t: string, i: nat, e: nat)
    requires i <= e <= |t|
    ensures Matches(KEY_WORD, t[i..e]) <==> IsKeyWord(t, i, e)
  {
    var u := t[i..e];
    WordSays(u, "token");
    WordSays(u, "secret");
    var compound := Cat(AnyCaseLiteral("api"), Cat(Opt(Char(KeySeparator)), AnyCaseLiteral("key")));
    var single := Alt(AnyCaseLiteral("token"), AnyCaseLiteral("secret"));
    assert Matches(KEY_WORD, u) <==> Matches(compound, u) || Matches(single, u);
    assert Matches(single, u) <==> Spells(u, "token") || Spells(u, "secret");
    CompoundSays(t, i, e);
  }

  lemma CompoundSays(t: string, i: nat, e: nat)
    requires i <= e <= |t|
    ensures Matches(Cat(AnyCaseLiteral("api"), Cat(Opt(Char(KeySeparator)), AnyCaseLiteral("key"))), t[i..e]) <==>
            || (e == i + 6 && Spells(t[i..i + 3], "api") && Spells(t[i + 3..e], "key"))
            || (e == i + 7 && Spells(t[i..i + 3], "api") && t[i + 3] in "_-" && Spells(t[i + 4..e], "key"))
  {
    hide Matches, Spells;
    var api, separator, key := AnyCaseLiteral("api"), Opt(Char(KeySeparator)), AnyCaseLiteral("key");
    if Matches(Cat(api, Cat(separator, key)), t[i..e]) {
      var m := SplitCat(api, Cat(separator, key), t, i, e);
      var n := SplitCat(separator, key, t, m, e);
      WordSays(t[i..m], "api");
      OneCharSays(t, m, n);
      WordSays(t[n..e], "key");
    }
    if i + 6 <= e <= i + 7 {
      WordSays(t[i..i + 3], "api");
      OneCharSays(t, i + 3, e - 3);
      WordSays(t[e - 3..e], "key");
      if Matches(api, t[i..i + 3]) && Matches(separator, t[i + 3..e - 3]) && Matches(key, t[e - 3..e]) {
        CatOfSlices(separator, key, t, i + 3, e - 3, e);
        CatOfSlices(api, Cat(separator, key), t, i, i + 3, e);
      }
    }
  }

  lemma AssignmentSays(t: string, i: nat, e: nat)
    requires i <= e <= |t|
    ensures Matches(ASSIGNMENT, t[i..e]) <==> exists p :: IsAssignment(t, i, p, e)
  {
    hide Matches, IsKeyWord, IsToken, Blanks, NoneOrQuote;
    if Matches(ASSIGNMENT, t[i..e]) {
      var p := PartsOf(t, i, e);
    }
    if p :| IsAssignment(t, i, p, e) {
      PartsMatch(t, i, p, e);
    }
  }

  lemma PartsOf(t: string, i: nat, e: nat) returns (p: Parts)
    requires i <= e <= |t| && Matches(ASSIGNMENT, t[i..e])
    ensures IsAssignment(t, i, p, e)
  {
    hide Matches, IsKeyWord, IsToken, Blanks, NoneOrQuote;
    var quote, spaces, sign := Opt(Char(QuoteMark)), Many(Space), Char(Assign);
    var last := Cat(TOKEN, quote);
    var value := Cat(spaces, Cat(quote, last));
    var a := SplitCat(KEY_WORD, Cat(spaces, Cat(sign, value)), t, i, e);
    var b := SplitCat(spaces, Cat(sign, value), t, a, e);
    var b' := SplitCat(sign, value, t, b, e);
    var c := SplitCat(spaces, Cat(quote, last), t, b', e);
    var d := SplitCat(quote, last, t, c, e);
    var f := SplitCat(TOKEN, quote, t, d, e);
    KeyWordSays(t, i, a);
    BlanksSay(t, a, b);
    OneCharSays(t, b, b');
    BlanksSay(t, b', c);
    OneCharSays(t, c, d);
    TokenSays(t, d, f);
    OneCharSays(t, f, e);
    p := Parts(a, b, c, d, f);
  }

  lemma PartsMatch(t: string, i: nat, p: Parts, e: nat)
    requires IsAssignment(t, i, p, e)
    ensures Matches(ASSIGNMENT, t[i..e])
  {
    hide Matches, IsKeyWord, IsToken, Blanks, NoneOrQuote;
    var quote, spaces, sign := Opt(Char(QuoteMark)), Many(Space), Char(Assign);
    var last := Cat(TOKEN, quote);
    var value := Cat(spaces, Cat(quote, last));
    KeyWordSays(t, i, p.word);
    BlanksSay(t, p.word, p.sign);
    OneCharSays(t, p.sign, p.sign + 1);
    BlanksSay(t, p.sign + 1, p.blanks);
    OneCharSays(t, p.blanks, p.quote);
    TokenSays(t, p.quote, p.token);
    OneCharSays(t, p.token, e);
    CatOfSlices(TOKEN, quote, t, p.quote, p.token, e);
    CatOfSlices(quote, last, t, p.blanks, p.quote, e);
    CatOfSlices(spaces, Cat(quote, last), t, p.sign + 1, p.blanks, e);
    CatOfSlices(sign, value, t, p.sign, p.sign + 1, e);
    CatOfSlices(spaces, Cat(sign, value), t, p.word, p.sign, e);
    CatOfSlices(KEY_WORD, Cat(spaces, Cat(sign, value)), t, i, p.word, e);
  }

  lemma EdgeSays(t: string, i: nat, e: nat, opening: string)
    requires i <= e <= |t|
    ensures Matches(PemEdge(opening), t[i..e]) <==> IsPemEdge(t, i, e, opening)
  {
    hide Matches, In;
    var head, middle, closing := Literal(opening), Many(UpperOrBlank), Literal("PRIVATE KEY-----");
    var n := |opening|;
    if Matches(PemEdge(opening), t[i..e]) {
      var m := SplitCat(head, Cat(middle, closing), t, i, e);
      var f := SplitCat(middle, closing, t, m, e);
      LiteralSays(opening, t[i..m]);
      LiteralSays("PRIVATE KEY-----", t[f..e]);
      UppersSay(t, m, f);
    }
    if IsPemEdge(t, i, e, opening) {
      LiteralSays(opening, t[i..i + n]);
      LiteralSays("PRIVATE KEY-----", t[e - 16..e]);
      UppersSay(t, i + n, e - 16);
      CatOfSlices(middle, closing, t, i + n, e - 16, e);
      CatOfSlices(head, Cat(middle, closing), t, i, i + n, e);
    }
  }

  lemma LiteralSays(s: string, u: string)
    ensures Matches(Literal(s), u) <==> u == s
  {
  }

  lemma UppersSay(t: string, i: nat, e: nat)
    requires i <= e <= |t|
    ensures Matches(Many(UpperOrBlank), t[i..e]) <==> forall x | i <= x < e :: 'A' <= t[x] <= 'Z' || t[x] == ' '
  {
    assert forall x | i <= x < e :: t[x] == t[i..e][x - i];
  }

  lemma PemSays(t: string, i: nat, e: nat)
    requires i <= e <= |t|
    ensures Matches(PEM_BLOCK, t[i..e]) <==> exists h, f :: IsPemBlock(t, i, h, f, e)
  {
    hide Matches, IsPemEdge;
    if Matches(PEM_BLOCK, t[i..e]) {
      var h := SplitCat(PEM_HEADER, Cat(ManyLazy(Anything), PEM_FOOTER), t, i, e);
      var f := SplitCat(ManyLazy(Anything), PEM_FOOTER, t, h, e);
      EdgeSays(t, i, h, "-----BEGIN ");
      EdgeSays(t, f, e, "-----END ");
      assert IsPemBlock(t, i, h, f, e);
    }
    if h, f :| IsPemBlock(t, i, h, f, e) {
      EdgeSays(t, i, h, "-----BEGIN ");
      EdgeSays(t, f, e, "-----END ");
      BlockBetween(PEM_HEADER, PEM_FOOTER, t, i, h, f, e);
    }
  }

  // ----- how much of it: the first four patterns take all they can -----

  lemma TokenIsLongest(t: string, i: nat)
    requires i <= |t|
    ensures FirstIsLongest(TOKEN, t, i) && FirstIsLongest(Cat(TOKEN, Opt(Char(QuoteMark))), t, i)
  {
    hide Ends;
    AtLeastIsLongest(TokenChar, 12, t, i);
    ThenOpt(TOKEN, QuoteMark, t, i);
  }

  lemma AnthropicIsLongest(t: string, i: nat)
    requires i <= |t|
    ensures FirstIsLongest(ANTHROPIC_KEY, t, i)
  {
    var prefix, run := Literal("sk-ant-"), AtLeast(KeyChar, 10);
    assert AtMostOne(prefix, t, i);
    hide Ends, Matches;
    OneThen(prefix, run, t, i);
    if Ends(prefix, t, i) != [] { AtLeastIsLongest(KeyChar, 10, t, Ends(prefix, t, i)[0]); }
  }

  lemma AwsIsLongest(t: string, i: nat)
    requires i <= |t|
    ensures FirstIsLongest(AWS_KEY, t, i)
  {
    var prefix, run := Literal("AKIA"), Times(UpperOrDigit, 16);
    assert AtMostOne(prefix, t, i);
    OneThen(prefix, run, t, i);
    if Ends(prefix, t, i) != [] { assert AtMostOne(run, t, Ends(prefix, t, i)[0]); }
  }

  lemma BearerIsLongest(t: string, i: nat)
    requires i <= |t|
    ensures FirstIsLongest(BEARER, t, i)
  {
    hide In;
    var word, blank, spaces := AnyCaseLiteral("bearer"), Char(Space), Cat(Many(Space), TOKEN);
    assert AtMostOne(word, t, i);
    OneThen(word, Cat(blank, spaces), t, i);
    if Ends(word, t, i) != [] {
      var j := Ends(word, t, i)[0];
      assert AtMostOne(blank, t, j);
      OneThen(blank, spaces, t, j);
      if Ends(blank, t, j) != [] {
        BlanksThenToken(t, Ends(blank, t, j)[0]);
      }
    }
  }

  lemma BlanksThenToken(t: string, i: nat)
    requires i <= |t|
    ensures FirstIsLongest(Cat(Many(Space), TOKEN), t, i)
  {
    forall c | In(Space, c) ensures !MayStart(TOKEN, c) { ClassesSay(c); }
    hide Ends, In, MayStart;
    var j := ManyThen(Space, TOKEN, t, i);
    TokenIsLongest(t, j);
  }

  lemma KeyWordIsOne(t: string, i: nat)
    requires i <= |t|
    ensures AtMostOne(KEY_WORD, t, i)
  {
    hide In, Fold;
    var api, separator, key := AnyCaseLiteral("api"), Opt(Char(KeySeparator)), AnyCaseLiteral("key");
    var compound, token, secret := Cat(api, Cat(separator, key)), AnyCaseLiteral("token"), AnyCaseLiteral("secret");
    AltEnds(compound, Alt(token, secret), t, i);
    AltEnds(token, secret, t, i);
    CompoundIsOne(t, i);
    assert MinLength(compound) > 0;
    if i == |t| || Fold(t[i]) != 'a' { NoStart(compound, t, i); }
    if i == |t| || Fold(t[i]) != 't' { NoStart(token, t, i); }
    if i == |t| || Fold(t[i]) != 's' { NoStart(secret, t, i); }
  }

  lemma CompoundIsOne(t: string, i: nat)
    requires i <= |t|
    ensures AtMostOne(Cat(AnyCaseLiteral("api"), Cat(Opt(Char(KeySeparator)), AnyCaseLiteral("key"))), t, i)
  {
    var api, separator, key := AnyCaseLiteral("api"), Opt(Char(KeySeparator)), AnyCaseLiteral("key");
    assert AtMostOne(api, t, i);
    OneThen(api, Cat(separator, key), t, i);
    if Ends(api, t, i) != [] {
      forall c | In(KeySeparator, c) ensures !MayStart(key, c) { }
      var j := OptThen(KeySeparator, key, t, Ends(api, t, i)[0]);
      assert AtMostOne(key, t, j);
    }
  }

  lemma AssignmentIsLongest(t: string, i: nat)
    requires i <= |t|
    ensures FirstIsLongest(ASSIGNMENT, t, i)
  {
    hide Ends, In, MayStart;
    var quote, spaces, sign := Opt(Char(QuoteMark)), Many(Space), Char(Assign);
    var value := Cat(spaces, Cat(quote, Cat(TOKEN, quote)));
    KeyWordIsOne(t, i);
    OneThen(KEY_WORD, Cat(spaces, Cat(sign, value)), t, i);
    if Ends(KEY_WORD, t, i) != [] { SignIsLongest(t, Ends(KEY_WORD, t, i)[0]); }
  }

  lemma SignIsLongest(t: string, i: nat)
    requires i <= |t|
    ensures var quote, spaces := Opt(Char(QuoteMark)), Many(Space);
            FirstIsLongest(Cat(spaces, Cat(Char(Assign), Cat(spaces, Cat(quote, Cat(TOKEN, quote))))), t, i)
  {
    var quote, spaces, sign := Opt(Char(QuoteMark)), Many(Space), Char(Assign);
    var value := Cat(spaces, Cat(quote, Cat(TOKEN, quote)));
    forall c | In(Space, c) ensures !MayStart(Cat(sign, value), c) { ClassesSay(c); }
    assert forall j | 0 <= j <= |t| :: AtMostOne(sign, t, j);
    hide Ends, In, MayStart;
    var j := ManyThen(Space, Cat(sign, value), t, i);
    OneThen(sign, value, t, j);
    if Ends(sign, t, j) != [] { ValueIsLongest(t, Ends(sign, t, j)[0]); }
  }

  lemma ValueIsLongest(t: string, i: nat)
    requires i <= |t|
    ensures var quote := Opt(Char(QuoteMark)); FirstIsLongest(Cat(Many(Space), Cat(quote, Cat(TOKEN, quote))), t, i)
  {
    var quote := Opt(Char(QuoteMark));
    var last := Cat(TOKEN, quote);
    forall c | In(Space, c) || In(QuoteMark, c) ensures !MayStart(last, c) { ClassesSay(c); }
    forall c | In(Space, c) ensures !MayStart(Cat(quote, last), c) {
      ClassesSay(c);
      assert !MayStart(quote, c) && !MayStart(last, c);
    }
    hide Ends, In, MayStart;
    var j := ManyThen(Space, Cat(quote, last), t, i);
    var k := OptThen(QuoteMark, last, t, j);
    TokenIsLongest(t, k);
  }

  lemma PatternIsLongest(n: nat, t: string, i: nat)
    requires n < 4 && i <= |t|
    ensures FirstIsLongest(PATTERNS[n], t, i)
  {
    hide Ends;
    match n
    case 0 => AnthropicIsLongest(t, i);
    case 1 => AssignmentIsLongest(t, i);
    case 2 => BearerIsLongest(t, i);
    case _ => AwsIsLongest(t, i);
  }

  // ----- and the fifth takes as little as it can -----

  /** From one place only one header or footer can be read. */
  lemma EdgeEndsOnce(t: string, i: nat, e: nat, e': nat, opening: string)
    requires i <= e <= |t| && i <= e' <= |t|
    requires IsPemEdge(t, i, e, opening) && IsPemEdge(t, i, e', opening)
    ensures e == e'
  {
    ClosingDash(t, i, e, opening);
    ClosingDash(t, i, e', opening);
  }

  /** The first dash of the closing, and no dash between the opening and it. */
  lemma ClosingDash(t: string, i: nat, e: nat, opening: string)
    requires i <= e <= |t| && IsPemEdge(t, i, e, opening)
    ensures t[e - 5] == '-' && forall x | i + |opening| <= x < e - 5 :: t[x] != '-'
  {
    assert t[e - 5] == t[e - 16..e][11];
    forall x | i + |opening| <= x < e - 5 ensures t[x] != '-' {
      if x >= e - 16 { assert t[x] == t[e - 16..e][x - (e - 16)]; }
    }
  }

  lemma EdgeHasOneEnd(t: string, i: nat, opening: string)
    requires i <= |t|
    ensures OneEnd(PemEdge(opening), t, i)
  {
    hide Ends, Matches, IsPemEdge;
    forall e, e' | e in Ends(PemEdge(opening), t, i) && e' in Ends(PemEdge(opening), t, i) ensures e == e' {
      EndsAreExact(PemEdge(opening), t, i, e);
      EndsAreExact(PemEdge(opening), t, i, e');
      EdgeSays(t, i, e, opening);
      EdgeSays(t, i, e', opening);
      EdgeEndsOnce(t, i, e, e', opening);
    }
  }

  /** A footer that starts later ends no sooner. */
  lemma FootersDoNotNest(t: string, i: nat, e: nat, j: nat, e': nat)
    requires i < j <= e' <= |t| && i <= e <= |t|
    requires IsPemEdge(t, i, e, "-----END ") && IsPemEdge(t, j, e', "-----END ")
    ensures e <= e'
  {
    assert t[j + 4] == t[j..j + 9][4] == '-';
    assert t[i + 5..i + 9] == t[i..i + 9][5..9];
    assert forall x | i + 5 <= x < i + 9 :: t[x] == t[i..i + 9][x - i] != '-';
    ClosingDash(t, i, e, "-----END ");
  }

  lemma {:induction false} LazyEnds(t: string, i: nat, e: nat) returns (j: nat)
    requires i <= |t| && e in Ends(Cat(ManyLazy(Anything), PEM_FOOTER), t, i)
    ensures i <= j <= e <= |t| && IsPemEdge(t, j, e, "-----END ")
  {
    hide Ends, Matches, IsPemEdge;
    EndsAreExact(Cat(ManyLazy(Anything), PEM_FOOTER), t, i, e);
    j := SplitCat(ManyLazy(Anything), PEM_FOOTER, t, i, e);
    EdgeSays(t, j, e, "-----END ");
  }

  lemma {:induction false} FirstFooter(t: string, i: nat)
    requires i <= |t|
    ensures FirstIsShortest(Cat(ManyLazy(Anything), PEM_FOOTER), t, i)
    decreases |t| - i
  {
    hide Ends, IsPemEdge;
    var rest := Cat(ManyLazy(Anything), PEM_FOOTER);
    LazyThen(Anything, PEM_FOOTER, t, i);
    EdgeHasOneEnd(t, i, "-----END ");
    if i < |t| {
      FirstFooter(t, i + 1);
      var here, es := Ends(PEM_FOOTER, t, i), Ends(rest, t, i);
      forall e | e in es && here != [] ensures es[0] <= e {
        assert es[0] == here[0] && here[0] in here;
        if e !in here { LaterFooter(t, i, here[0], e); }
      }
    }
  }

  lemma LaterFooter(t: string, i: nat, e: nat, e': nat)
    requires i < |t| && e in Ends(PEM_FOOTER, t, i) && e' in Ends(Cat(ManyLazy(Anything), PEM_FOOTER), t, i + 1)
    ensures e <= e'
  {
    hide Ends, Matches, IsPemEdge;
    EndsAreExact(PEM_FOOTER, t, i, e);
    EdgeSays(t, i, e, "-----END ");
    var j := LazyEnds(t, i + 1, e');
    FootersDoNotNest(t, i, e, j, e');
  }

  lemma PemIsShortest(t: string, i: nat)
    requires i <= |t|
    ensures FirstIsShortest(PEM_BLOCK, t, i)
  {
    hide Ends;
    EdgeHasOneEnd(t, i, "-----BEGIN ");
    if Ends(PEM_HEADER, t, i) != [] { FirstFooter(t, Ends(PEM_HEADER, t, i)[0]); }
    OneEndThen(PEM_HEADER, Cat(ManyLazy(Anything), PEM_FOOTER), t, i);
  }

  // ----- what a substitution takes out -----

  /** No match starts where a span does and is longer. */
  ghost predicate NoneLonger(re: Re, t: string, spans: seq<Span>) {
    forall n, e | 0 <= n < |spans| && spans[n].start <= spans[n].end < e <= |t| :: !Matches(re, t[spans[n].start..e])
  }

  /** No match starts where a span does and is shorter. */
  ghost predicate NoneShorter(re: Re, t: string, spans: seq<Span>) {
    forall n, e | 0 <= n < |spans| && spans[n].start <= e < spans[n].end && e <= |t| ::
      !Matches(re, t[spans[n].start..e])
  }

  /**
   * Each of the first four substitutions replaces leftmost matches, apart
   * from one another, each of them as long as it can be, and keeps all other
   * text.
   */
  lemma SecretsGoWhole(n: nat, t: string) returns (spans: seq<Span>)
    requires n < 4
    ensures InOrder(t, 0, spans) && LeftmostMatches(PATTERNS[n], t, 0, spans) && NoneLonger(PATTERNS[n], t, spans)
    ensures Sub(PATTERNS[n], "[REDACTED]", t) == Splice(t, "[REDACTED]", 0, spans)
  {
    hide Ends, Matches, MatchEnd, LeftmostMatches, Splice, InOrder;
    PlainPattern(n);
    NeverEmpty(PATTERNS[n]);
    spans := SubSplicesMatches(PATTERNS[n], "[REDACTED]", t, 0);
    forall m, e | 0 <= m < |spans| && spans[m].start <= spans[m].end < e <= |t|
      ensures !Matches(PATTERNS[n], t[spans[m].start..e])
    {
      PatternIsLongest(n, t, spans[m].start);
      NoneIsLonger(PATTERNS[n], t, spans[m].start, spans[m].end, e);
    }
  }

  /** The fifth does the same with key blocks, each as short as it can be: two blocks are never taken for one. */
  lemma BlocksGoOneByOne(t: string) returns (spans: seq<Span>)
    ensures InOrder(t, 0, spans) && LeftmostMatches(PEM_BLOCK, t, 0, spans) && NoneShorter(PEM_BLOCK, t, spans)
    ensures Sub(PEM_BLOCK, "[REDACTED]", t) == Splice(t, "[REDACTED]", 0, spans)
  {
    hide Ends, Matches, MatchEnd, LeftmostMatches, Splice, InOrder;
    PemIsLong();
    NeverEmpty(PEM_BLOCK);
    spans := SubSplicesMatches(PEM_BLOCK, "[REDACTED]", t, 0);
    forall m, e | 0 <= m < |spans| && spans[m].start <= e < spans[m].end && e <= |t|
      ensures !Matches(PEM_BLOCK, t[spans[m].start..e])
    {
      PemIsShortest(t, spans[m].start);
      NoneIsShorter(PEM_BLOCK, t, spans[m].start, spans[m].end, e);
    }
  }

  lemma PemIsLong()
    ensures MinLength(PEM_BLOCK) > 0
  {
    PlainPem();
    CatShape(ManyLazy(Anything), PEM_FOOTER, ' ');
    CatShape(PEM_HEADER, Cat(ManyLazy(Anything), PEM_FOOTER), ' ');
  }

  // ----- a key is gone, and nothing else -----

  /** No match starts inside a marker. */
  lemma NoMatchInMarker(n: nat, x: string, j: nat)
    requires 0 < n < |PATTERNS| && j < 10
    ensures MatchEnd(PATTERNS[n], REDACTED + x, j).None?
  {
    hide Ends, Matches, Avoids, MinLength;
    var re, t := PATTERNS[n], REDACTED + x;
    if MatchEnd(re, t, j).Some? {
      var e := MatchEnd(re, t, j).value;
      assert e in Ends(re, t, j);
      EndsAreExact(re, t, j, e);
      assert t[0] == '[' && t[9] == ']';
      if n < 4 {
        assert j == 0 ==> t[j..e][0] == '[';
        assert 0 < j && e > 9 ==> t[j..e][9 - j] == ']';
        PlainPattern(n);
        PlainWord(re, t[j..e]);
      } else {
        FirstCharMayStart(re, t[j..e]);
        assert t[j..e][0] == REDACTED[j] != '-';
        PemStartsWithDash(REDACTED[j]);
      }
    }
  }

  lemma PemStartsWithDash(c: char)
    ensures MayStart(PEM_BLOCK, c) <==> c == '-'
  {
    var head := Literal("-----BEGIN ");
    assert MayStart(head, c) <==> c == '-';
    assert MinLength(head) == 11;
    assert MayStart(PEM_HEADER, c) <==> c == '-';
    PlainPem();
  }

  /** Text in which no match starts stays, and what follows it is treated as if it stood alone. */
  lemma {:induction false} FrontStays(re: Re, front: string, x: string, j: nat)
    requires j <= |front| && forall k | j <= k < |front| :: MatchEnd(re, front + x, k).None?
    ensures SubFrom(re, REDACTED, front + x, j) == front[j..] + Sub(re, REDACTED, x)
    decreases |front| - j
  {
    hide MatchEnd, SubFrom;
    if j == |front| {
      SubMoves(re, REDACTED, front, x, front + x, 0);
      assert front[j..] == "";
    } else {
      SubStep(re, REDACTED, front + x, j);
      FrontStays(re, front, x, j + 1);
      assert front[j..] == [(front + x)[j]] + front[j + 1..];
    }
  }

  lemma MarkerStays(n: nat, x: string)
    requires 0 < n < |PATTERNS|
    ensures Sub(PATTERNS[n], REDACTED, REDACTED + x) == REDACTED + Sub(PATTERNS[n], REDACTED, x)
  {
    hide MatchEnd, SubFrom;
    forall j: nat | j < 10 ensures MatchEnd(PATTERNS[n], REDACTED + x, j).None? {
      NoMatchInMarker(n, x, j);
    }
    FrontStays(PATTERNS[n], REDACTED, x, 0);
    assert REDACTED[0..] == REDACTED;
  }

  lemma NoKeyBeyond(w: string, b: string, e: nat)
    requires b == "" || !InKey(b[0])
    requires e <= 7 + |w| + |b| && IsAnthropicKey(("sk-ant-" + w + b)[0..e])
    ensures e <= 7 + |w|
  {
    hide InKey;
    var t := "sk-ant-" + w + b;
    assert b != "" ==> t[7 + |w|] == b[0];
    assert forall i | 7 <= i < e :: t[0..e][i] == t[i];
  }

  lemma WholeKeyMatches(w: string, b: string)
    requires |w| >= 10 && (forall i | 0 <= i < |w| :: InKey(w[i])) && (b == "" || !InKey(b[0]))
    ensures MatchEnd(ANTHROPIC_KEY, "sk-ant-" + w + b, 0) == Some(7 + |w|)
  {
    hide Ends, Matches, InKey;
    var key, t := "sk-ant-" + w, "sk-ant-" + w + b;
    var end, es := 7 + |w|, Ends(ANTHROPIC_KEY, t, 0);
    assert t[0..end] == key && key[..7] == "sk-ant-";
    assert IsAnthropicKey(key);
    AnthropicKeySays(key);
    EndsAreExact(ANTHROPIC_KEY, t, 0, end);
    AnthropicIsLongest(t, 0);
    assert es[0] in es;
    EndsAreExact(ANTHROPIC_KEY, t, 0, es[0]);
    AnthropicKeySays(t[0..es[0]]);
    NoKeyBeyond(w, b, es[0]);
  }

  lemma {:induction false} KeyIsWipedUpTo(w: string, b: string, n: nat)
    requires |w| >= 10 && (forall i | 0 <= i < |w| :: InKey(w[i])) && (b == "" || !InKey(b[0]))
    requires 0 < n <= |PATTERNS|
    ensures RedactUpTo("sk-ant-" + w + b, n) == REDACTED + RedactUpTo(b, n)
  {
    hide MatchEnd, SubFrom;
    var key := "sk-ant-" + w;
    if n == 1 {
      WholeKeyMatches(w, b);
      SubStep(ANTHROPIC_KEY, REDACTED, key + b, 0);
      SubMoves(ANTHROPIC_KEY, REDACTED, key, b, key + b, 0);
    } else {
      KeyIsWipedUpTo(w, b, n - 1);
      MarkerStays(n - 1, RedactUpTo(b, n - 1));
    }
  }

  /**
   * However long an Anthropic key is, the text that opens with it comes out
   * as the marker and then the redaction of what follows the key.
   */
  lemma KeyIsWiped(w: string, b: string)
    requires |w| >= 10 && (forall i | 0 <= i < |w| :: InKey(w[i])) && (b == "" || !InKey(b[0]))
    ensures Redact("sk-ant-" + w + b) == "[REDACTED]" + Redact(b)
  {
    KeyIsWipedUpTo(w, b, |PATTERNS|);
  }
}
