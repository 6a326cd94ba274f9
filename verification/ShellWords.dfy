/**
 * Quoting for the two git commands of `oversight_git_node`
 * (syndicate/nodes.py:550-559): shlex.quote, and a reader for shell words that
 * follows section 2.2 of the POSIX.1-2017 Shell Command Language.
 */
module ShellWords {
  import opened PyText

  // ----- shlex.quote -----

  predicate IsSafe(c: char) {
    || 'a' <= c <= 'z' || 'A' <= c <= 'Z' || '0' <= c <= '9'
    || c == '_' || c == '@' || c == '%' || c == '+' || c == '=' || c == ':' || c == ',' || c == '.'
    || c == '/' || c == '-'
  }

  /** `s.replace("'", "'\"'\"'")` */
  function EscapeQuotes(s: string): string {
    if s == "" then ""
    else (if s[0] == '\'' then "'\"'\"'" else [s[0]]) + EscapeQuotes(s[1..])
  }

  function Quote(s: string): string {
    if s == "" then "''"
    else if forall i | 0 <= i < |s| :: IsSafe(s[i]) then s
    else "'" + EscapeQuotes(s) + "'"
  }

  function QuoteAll(xs: seq<string>): seq<string> {
    if xs == [] then [] else [Quote(xs[0])] + QuoteAll(xs[1..])
  }

  function AddCommand(files: seq<string>): string {
    "git add -- " + Join(" ", QuoteAll(files))
  }

  function CommitCommand(message: string): string {
    "git commit -m " + Quote(message)
  }

  /** Quoting leaves safe text alone, and around other text puts single quotes, with those inside broken out. */
  lemma QuoteIsMinimal(s: string)
    ensures s != "" && (forall i | 0 <= i < |s| :: IsSafe(s[i])) ==> Quote(s) == s
    ensures s == "" || (exists i | 0 <= i < |s| :: !IsSafe(s[i])) ==> Quote(s) == "'" + EscapeQuotes(s) + "'"
  {
  }

  lemma {:induction false} EscapeConcat(a: string, b: string)
    ensures EscapeQuotes(a + b) == EscapeQuotes(a) + EscapeQuotes(b)
    ensures EscapeQuotes("'") == "'\"'\"'" && ('\'' !in a ==> EscapeQuotes(a) == a)
    decreases |a|
  {
    assert "'"[1..] == "";
    if a == "" {
      assert a + b == b;
    } else {
      assert (a + b)[1..] == a[1..] + b && a == [a[0]] + a[1..];
      EscapeConcat(a[1..], b);
    }
  }

  // ----- reading words back -----

  datatype Mode = Blank | Word | BlankEscaped | Escaped | Single | Double | DoubleEscaped

  /** Unquoted characters that would mean more to a shell than themselves. */
  predicate IsSpecial(c: char) {
    || c == '|' || c == '&' || c == ';' || c == '<' || c == '>' || c == '(' || c == ')' || c == '$'
    || c == '`' || c == '\n' || c == '*' || c == '?' || c == '[' || c == ']' || c == '#' || c == '~'
    || c == '!' || c == '{' || c == '}'
  }

  /** Where the reader stands: the word being built and the words before it. */
  datatype State = State(mode: Mode, word: string, words: seq<string>)

  /**
   * One character. None when the text is not just words: an operator, an
   * expansion, a pattern character, or a NUL.
   */
  function Next(st: State, c: char): Option<State> {
    if c == '\0' then None
    else
      match st.mode
      case Blank | Word =>
        if c == ' ' || c == '\t' then
          Some(State(Blank, "", if st.mode.Word? then st.words + [st.word] else st.words))
        else if c == '\'' then Some(st.(mode := Single))
        else if c == '"' then Some(st.(mode := Double))
        else if c == '\\' then Some(st.(mode := if st.mode.Word? then Escaped else BlankEscaped))
        else if IsSpecial(c) then None
        else Some(Take(st, Word, c))
      case BlankEscaped => if c == '\n' then Some(st.(mode := Blank)) else Some(Take(st, Word, c))
      case Escaped => if c == '\n' then Some(st.(mode := Word)) else Some(Take(st, Word, c))
      case Single => if c == '\'' then Some(st.(mode := Word)) else Some(Take(st, Single, c))
      case Double =>
        if c == '"' then Some(st.(mode := Word))
        else if c == '\\' then Some(st.(mode := DoubleEscaped))
        else if c == '$' || c == '`' then None
        else Some(Take(st, Double, c))
      case DoubleEscaped =>
        if c == '\n' then Some(st.(mode := Double))
        else if c == '$' || c == '`' || c == '"' || c == '\\' then Some(Take(st, Double, c))
        else Some(Take(Take(st, Double, '\\'), Double, c))
  }

  function Take(st: State, mode: Mode, c: char): State {
    State(mode, st.word + [c], st.words)
  }

  /** The words of a simple command; an open quote at the end gives None. */
  function Read(s: string, st: State): Option<seq<string>> {
    if s == "" then
      match st.mode
      case Blank => Some(st.words)
      case Word => Some(st.words + [st.word])
      case _ => None
    else
      match Next(st, s[0])
      case None => None
      case Some(st') => Read(s[1..], st')
  }

  function Words(command: string): Option<seq<string>> {
    Read(command, State(Blank, "", []))
  }

  // ----- the round trip -----

  predicate NulFree(s: string) {
    '\0' !in s
  }

  lemma ReadEnd(w: string, words: seq<string>)
    ensures Read("", State(Word, w, words)) == Some(words + [w])
  {
  }

  lemma ReadOne(c: char, rest: string, st: State)
    requires Next(st, c).Some?
    ensures Read([c] + rest, st) == Read(rest, Next(st, c).value)
  {
    assert ([c] + rest)[1..] == rest;
  }

  /** Safe text extends the current word, or starts one. */
  lemma {:induction false} ReadSafe(s: string, rest: string, st: State)
    requires forall i | 0 <= i < |s| :: IsSafe(s[i])
    requires st.mode.Word? || (st.mode.Blank? && s != "")
    ensures Read(s + rest, st) == Read(rest, State(Word, st.word + s, st.words))
    decreases |s|
  {
    hide Read;
    if s == "" {
      assert s + rest == rest && st.word + s == st.word;
    } else {
      assert IsSafe(s[0]);
      assert s + rest == [s[0]] + (s[1..] + rest);
      ReadOne(s[0], s[1..] + rest, st);
      assert st.word + [s[0]] + s[1..] == st.word + s;
      ReadSafe(s[1..], rest, Take(st, Word, s[0]));
    }
  }

  lemma ReadQuoteEscape(rest: string, word: string, words: seq<string>)
    ensures Read("'\"'\"'" + rest, State(Single, word, words)) == Read(rest, State(Single, word + "'", words))
  {
    var r4 := "'" + rest;
    var r3 := "\"" + r4;
    var r2 := "'" + r3;
    var r1 := "\"" + r2;
    assert "'\"'\"'" + rest == "'" + r1;
    ReadOne('\'', r1, State(Single, word, words));
    ReadOne('"', r2, State(Word, word, words));
    ReadOne('\'', r3, State(Double, word, words));
    ReadOne('"', r4, State(Double, word + "'", words));
    ReadOne('\'', rest, State(Word, word + "'", words));
  }

  lemma {:induction false} ReadEscaped(s: string, rest: string, word: string, words: seq<string>)
    requires NulFree(s)
    ensures Read(EscapeQuotes(s) + "'" + rest, State(Single, word, words)) == Read(rest, State(Word, word + s, words))
    decreases |s|
  {
    hide Read;
    if s == "" {
      assert EscapeQuotes(s) + "'" + rest == "'" + rest && word + s == word;
      ReadOne('\'', rest, State(Single, word, words));
    } else {
      var tail := EscapeQuotes(s[1..]) + "'" + rest;
      assert word + [s[0]] + s[1..] == word + s;
      ReadEscaped(s[1..], rest, word + [s[0]], words);
      if s[0] == '\'' {
        assert EscapeQuotes(s) + "'" + rest == "'\"'\"'" + tail;
        ReadQuoteEscape(tail, word, words);
      } else {
        assert EscapeQuotes(s) + "'" + rest == [s[0]] + tail;
        ReadOne(s[0], tail, State(Single, word, words));
      }
    }
  }

  /** Wherever a quoted string starts a word, the reader gets the string itself. */
  lemma ReadQuoted(s: string, rest: string, words: seq<string>)
    requires NulFree(s)
    ensures Read(Quote(s) + rest, State(Blank, "", words)) == Read(rest, State(Word, s, words))
  {
    hide Read, EscapeQuotes;
    var start := State(Blank, "", words);
    assert "" + s == s;
    if s == "" {
      assert Quote(s) + rest == "'" + ("'" + rest);
      ReadOne('\'', "'" + rest, start);
      ReadOne('\'', rest, State(Single, "", words));
    } else if forall i | 0 <= i < |s| :: IsSafe(s[i]) {
      ReadSafe(s, rest, start);
    } else {
      assert Quote(s) + rest == "'" + (EscapeQuotes(s) + "'" + rest);
      ReadOne('\'', EscapeQuotes(s) + "'" + rest, start);
      ReadEscaped(s, rest, "", words);
    }
  }

  lemma {:induction false} ReadAll(xs: seq<string>, words: seq<string>)
    requires forall x | x in xs :: NulFree(x)
    ensures Read(Join(" ", QuoteAll(xs)), State(Blank, "", words)) == Some(words + xs)
    decreases |xs|
  {
    if xs == [] {
      assert words + xs == words;
    } else {
      var quoted := QuoteAll(xs);
      if |xs| == 1 {
        assert xs[1..] == [] && QuoteAll(xs[1..]) == [];
        assert quoted == [Quote(xs[0])];
        assert Quote(xs[0]) + "" == Quote(xs[0]);
        ReadQuoted(xs[0], "", words);
        assert xs == [xs[0]];
      } else {
        var rest := Join(" ", QuoteAll(xs[1..]));
        assert quoted[1..] == QuoteAll(xs[1..]) && |quoted| > 1;
        assert Join(" ", quoted) == Quote(xs[0]) + (" " + rest);
        ReadQuoted(xs[0], " " + rest, words);
        ReadOne(' ', rest, State(Word, xs[0], words));
        assert words + [xs[0]] + xs[1..] == words + xs;
        ReadAll(xs[1..], words + [xs[0]]);
      }
    }
  }

  /** A plain word and the space after it. */
  lemma ReadPlain(w: string, rest: string, words: seq<string>)
    requires w != "" && forall i | 0 <= i < |w| :: IsSafe(w[i])
    ensures Read(w + " " + rest, State(Blank, "", words)) == Read(rest, State(Blank, "", words + [w]))
  {
    hide Read;
    assert w + " " + rest == w + (" " + rest) && "" + w == w;
    ReadSafe(w, " " + rest, State(Blank, "", words));
    ReadOne(' ', rest, State(Word, w, words));
  }

  /**
   * The staging command reads back as `git add --` followed by exactly the
   * declared files, whatever quotes, blanks, newlines or pattern characters
   * they hold, and even when a name is empty.
   */
  lemma StagingRoundTrip(files: seq<string>)
    requires forall f | f in files :: NulFree(f)
    ensures Words(AddCommand(files)) == Some(["git", "add", "--"] + files)
  {
    hide Read, Join, QuoteAll;
    var tail := Join(" ", QuoteAll(files));
    assert AddCommand(files) == "git" + " " + ("add" + " " + ("--" + " " + tail));
    ReadPlain("git", "add" + " " + ("--" + " " + tail), []);
    ReadPlain("add", "--" + " " + tail, ["git"]);
    ReadPlain("--", tail, ["git", "add"]);
    ReadAll(files, ["git", "add", "--"]);
    var none: seq<string> := [];
    assert none + ["git"] == ["git"] && ["git"] + ["add"] == ["git", "add"];
    assert ["git", "add"] + ["--"] == ["git", "add", "--"];
  }

  /** The commit command carries the message as one argument. */
  lemma CommitRoundTrip(message: string)
    requires NulFree(message)
    ensures Words(CommitCommand(message)) == Some(["git", "commit", "-m", message])
  {
    hide Read, Quote;
    assert CommitCommand(message) == "git" + " " + ("commit" + " " + ("-m" + " " + Quote(message)));
    ReadPlain("git", "commit" + " " + ("-m" + " " + Quote(message)), []);
    ReadPlain("commit", "-m" + " " + Quote(message), ["git"]);
    ReadPlain("-m", Quote(message), ["git", "commit"]);
    assert Quote(message) + "" == Quote(message);
    ReadQuoted(message, "", ["git", "commit", "-m"]);
    ReadEnd(message, ["git", "commit", "-m"]);
    var none: seq<string> := [];
    assert none + ["git"] == ["git"] && ["git"] + ["commit"] == ["git", "commit"];
    assert ["git", "commit"] + ["-m"] == ["git", "commit", "-m"];
    assert ["git", "commit", "-m"] + [message] == ["git", "commit", "-m", message];
  }
}
