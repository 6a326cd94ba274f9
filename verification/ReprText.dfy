/** What `repr` writes into a log line can be read back, and stays on one line. */
module ReprText {
  import opened PyText

  /** What is written with a backslash, and how. */
  lemma EscapesAreSpelled(q: char, printable: char -> bool)
    requires q == '\'' || q == '"'
    ensures ReprChar('\n', q, printable) == "\\n" && ReprChar('\r', q, printable) == "\\r"
    ensures ReprChar('\t', q, printable) == "\\t" && ReprChar('\\', q, printable) == "\\\\"
    ensures ReprChar(q, q, printable) == ['\\', q]
  {
  }

  // ----- reading a string literal -----

  function HexDigit(c: char): Option<nat> {
    if '0' <= c <= '9' then Some(c as int - '0' as int)
    else if 'a' <= c <= 'f' then Some(c as int - 'a' as int + 10)
    else None
  }

  function HexValue(s: string): Option<nat> {
    if s == "" then Some(0)
    else
      match (HexValue(Init(s)), HexDigit(Last(s)))
      case (Some(n), Some(d)) => Some(16 * n + d)
      case _ => None
  }

  function CharOf(n: nat): Option<char> {
    if n < 0xD800 || 0xE000 <= n < 0x110000 then Some(n as char) else None
  }

  /** The escape that follows a backslash: its character, and how many characters it takes. */
  function Escape(s: string): Option<(char, nat)>
    requires s != ""
  {
    match s[0]
    case 't' => Some(('\t', 1))
    case 'n' => Some(('\n', 1))
    case 'r' => Some(('\r', 1))
    case 'x' => Digits(s, 2)
    case 'u' => Digits(s, 4)
    case 'U' => Digits(s, 8)
    case _ => if s[0] == '\\' || s[0] == '\'' || s[0] == '"' then Some((s[0], 1)) else None
  }

  function Digits(s: string, width: nat): (r: Option<(char, nat)>)
    requires s != ""
    ensures r.Some? ==> r.value.1 == width + 1 <= |s|
  {
    if |s| < width + 1 then None
    else
      match HexValue(s[1..width + 1])
      case None => None
      case Some(n) => match CharOf(n) { case None => None case Some(c) => Some((c, width + 1)) }
  }

  function Cons(c: char, rest: Option<string>): Option<string> {
    match rest case None => None case Some(s) => Some([c] + s)
  }

  /** The text between quotes q; None for a bare quote or an escape that is none. */
  function ReadBody(s: string, q: char): Option<string> {
    if s == "" then Some("")
    else if s[0] == q || (s[0] == '\\' && |s| == 1) then None
    else if s[0] != '\\' then Cons(s[0], ReadBody(s[1..], q))
    else
      match Escape(s[1..])
      case None => None
      case Some((c, n)) => Cons(c, ReadBody(s[1 + n..], q))
  }

  function ReadLiteral(s: string): Option<string> {
    if |s| >= 2 && (s[0] == '\'' || s[0] == '"') && Last(s) == s[0] then ReadBody(s[1..|s| - 1], s[0]) else None
  }

  // ----- and what repr writes -----

  function Power16(width: nat): nat {
    if width == 0 then 1 else 16 * Power16(width - 1)
  }

  lemma {:induction false} HexReadsBack(n: nat, width: nat)
    requires n < Power16(width)
    ensures |Hex(n, width)| == width && HexValue(Hex(n, width)) == Some(n)
    ensures forall c | c in Hex(n, width) :: '0' <= c <= '9' || 'a' <= c <= 'f'
    decreases width
  {
    if width > 0 {
      HexReadsBack(n / 16, width - 1);
      var d := n % 16;
      var digit := "0123456789abcdef"[d];
      assert HexDigit(digit) == Some(d);
      assert Hex(n, width) == Hex(n / 16, width - 1) + [digit];
      LastOfConcat(Hex(n / 16, width - 1), [digit]);
    }
  }

  lemma DigitsReadBack(c: char, mark: char, width: nat, rest: string)
    requires c as int < Power16(width)
    ensures Digits([mark] + Hex(c as int, width) + rest, width) == Some((c, width + 1))
  {
    hide HexValue, Hex, Power16;
    HexReadsBack(c as int, width);
    var s := [mark] + Hex(c as int, width) + rest;
    assert s[1..width + 1] == Hex(c as int, width);
  }

  lemma Powers()
    ensures Power16(2) == 0x100 && Power16(4) == 0x10000 && Power16(8) == 0x1_0000_0000
  {
    assert Power16(1) == 16;
    assert Power16(3) == 16 * Power16(2);
    assert Power16(5) == 16 * Power16(4) && Power16(6) == 16 * Power16(5) && Power16(7) == 16 * Power16(6);
  }

  lemma ShortEscape(e: char, rest: string)
    ensures e == 't' || e == 'n' || e == 'r' || e == '\\' || e == '\'' || e == '"' ==>
              Escape([e] + rest) ==
              Some((if e == 't' then '\t' else if e == 'n' then '\n' else if e == 'r' then '\r' else e, 1))
  {
  }

  /** A character is written as itself, or as a backslash and an escape that stands for it. */
  lemma CharReadsBack(c: char, q: char, printable: char -> bool, rest: string)
    requires q == '\'' || q == '"'
    ensures ReadBody(ReprChar(c, q, printable) + rest, q) == Cons(c, ReadBody(rest, q))
  {
    hide Hex, Digits;
    var n, text := c as int, ReprChar(c, q, printable);
    var mark, width := if n < 0x100 then 'x' else if n < 0x10000 then 'u' else 'U',
                       if n < 0x100 then 2 else if n < 0x10000 then 4 else 8;
    Powers();
    HexReadsBack(n, width);
    if text == [c] {
      assert ([c] + rest)[1..] == rest;
    } else if |text| == 2 {
      var e := text[1];
      assert text == ['\\', e];
      ShortEscape(e, rest);
      assert (text + rest)[1..] == [e] + rest && (text + rest)[2..] == rest;
    } else {
      DigitsReadBack(c, mark, width, rest);
      assert text == ['\\', mark] + Hex(n, width);
      assert (text + rest)[1..] == [mark] + Hex(n, width) + rest;
      assert (text + rest)[width + 2..] == rest;
    }
  }

  lemma {:induction false} BodyReadsBack(s: string, q: char, printable: char -> bool)
    requires q == '\'' || q == '"'
    ensures ReadBody(ReprBody(s, q, printable), q) == Some(s)
    decreases |s|
  {
    hide ReprChar, ReadBody;
    if s == "" {
      assert ReadBody("", q) == Some("") by { NothingReads(q); }
    } else {
      BodyReadsBack(s[1..], q, printable);
      CharReadsBack(s[0], q, printable, ReprBody(s[1..], q, printable));
      assert s == [s[0]] + s[1..];
    }
  }

  lemma NothingReads(q: char)
    ensures ReadBody("", q) == Some("")
  {
  }

  /** So a log line loses nothing of the text that it quotes. */
  lemma ReprReadsBack(s: string, printable: char -> bool)
    ensures ReadLiteral(Repr(s, printable)) == Some(s)
    ensures Repr(s, printable)[0] == '"' <==> '\'' in s && '"' !in s
  {
    hide ReprBody, ReadBody;
    var q := if '\'' in s && '"' !in s then '"' else '\'';
    BodyReadsBack(s, q, printable);
    var text := Repr(s, printable);
    assert text[1..|text| - 1] == ReprBody(s, q, printable);
  }

  /** Printable ASCII, or printable beyond it. */
  predicate Shows(c: char, printable: char -> bool) {
    0x20 <= c as int < 0x7f || (c as int >= 0x80 && printable(c))
  }

  lemma CharShows(c: char, q: char, printable: char -> bool)
    requires q == '\'' || q == '"'
    ensures forall d | d in ReprChar(c, q, printable) :: Shows(d, printable)
  {
    hide Hex;
    Powers();
    var n := c as int;
    if n < 0x100 { HexReadsBack(n, 2); } else if n < 0x10000 { HexReadsBack(n, 4); } else { HexReadsBack(n, 8); }
  }

  /** And it is one line: whatever the text holds, its quotation has no break and no other control character. */
  lemma {:induction false} ReprIsOneLine(s: string, printable: char -> bool)
    ensures forall d | d in Repr(s, printable) :: Shows(d, printable)
  {
    hide ReprBody;
    BodyShows(s, if '\'' in s && '"' !in s then '"' else '\'', printable);
  }

  lemma {:induction false} BodyShows(s: string, q: char, printable: char -> bool)
    requires q == '\'' || q == '"'
    ensures forall d | d in ReprBody(s, q, printable) :: Shows(d, printable)
    decreases |s|
  {
    hide ReprChar, Shows;
    if s != "" {
      CharShows(s[0], q, printable);
      BodyShows(s[1..], q, printable);
    }
  }
}
