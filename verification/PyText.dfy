/** The few pieces of Python's string library that the modelled code leans on. */
module PyText {

  datatype Option<+T> = None | Some(value: T)

  function Last<T>(s: seq<T>): T
    requires s != []
  {
    s[|s| - 1]
  }

  function Init<T>(s: seq<T>): seq<T>
    requires s != []
  {
    s[..|s| - 1]
  }

  lemma LastOfConcat<T>(a: seq<T>, b: seq<T>)
    requires b != []
    ensures Init(a + b) == a + Init(b) && Last(a + b) == Last(b)
  {
  }

  lemma ConcatAssociates<T>(a: seq<T>, b: seq<T>, c: seq<T>)
    ensures a + b + c == a + (b + c)
  {
  }

  /** Python's `s[-n:]` for n > 0. */
  function LastN<T>(s: seq<T>, n: nat): seq<T> {
    if |s| <= n then s else s[|s| - n..]
  }

  lemma LastIsKept<T>(s: seq<T>, n: nat)
    requires s != [] && n > 0
    ensures LastN(s, n) != [] && Last(LastN(s, n)) == Last(s)
  {
  }

  /** Python's `x or y` on strings, where a missing key counts as the empty string. */
  function Or(x: string, y: string): string {
    if x != "" then x else y
  }

  /** Python's `sep.join(parts)`. */
  function Join(sep: string, parts: seq<string>): string {
    if parts == [] then ""
    else if |parts| == 1 then parts[0]
    else parts[0] + sep + Join(sep, parts[1..])
  }

  lemma JoinCons(sep: string, first: string, rest: seq<string>)
    requires rest != []
    ensures Join(sep, [first] + rest) == first + sep + Join(sep, rest)
  {
    assert ([first] + rest)[1..] == rest;
  }

  predicate OccursAt(s: string, sub: string, i: int) {
    0 <= i && i + |sub| <= |s| && s[i..i + |sub|] == sub
  }

  /** Python's `sub in s`. */
  predicate Contains(s: string, sub: string) {
    exists i :: 0 <= i <= |s| && OccursAt(s, sub, i)
  }

  predicate StartsWith(s: string, prefix: string) {
    OccursAt(s, prefix, 0)
  }

  /** `str.isspace`, which is also what `\s` means in a Python str pattern. */
  predicate IsSpace(c: char) {
    var n := c as int;
    || 0x09 <= n <= 0x0d || 0x1c <= n <= 0x20 || n == 0x85 || n == 0xa0 || n == 0x1680
    || 0x2000 <= n <= 0x200a || n == 0x2028 || n == 0x2029 || n == 0x202f || n == 0x205f || n == 0x3000
  }

  const BLANKS := "\t\n\U{0B}\U{0C}\r\U{1C}\U{1D}\U{1E}\U{1F} \U{85}\U{A0}\U{1680}"
    + "\U{2000}\U{2001}\U{2002}\U{2003}\U{2004}\U{2005}\U{2006}\U{2007}\U{2008}\U{2009}\U{200A}"
    + "\U{2028}\U{2029}\U{202F}\U{205F}\U{3000}"

  lemma SpacesAreBlanks(c: char)
    ensures IsSpace(c) <==> c in BLANKS
  {
    var n := c as int;
    if IsSpace(c) {
      var i := if n <= 0x0d then n - 0x09 else if n <= 0x20 then n - 0x1c + 5 else if n == 0x85 then 10
               else if n == 0xa0 then 11 else if n == 0x1680 then 12 else if n <= 0x200a then n - 0x2000 + 13
               else if n == 0x2028 then 24 else if n == 0x2029 then 25 else if n == 0x202f then 26
               else if n == 0x205f then 27 else 28;
      assert BLANKS[i] == c;
    }
  }

  function StripLeft(s: string): string {
    if s != "" && IsSpace(s[0]) then StripLeft(s[1..]) else s
  }

  function StripRight(s: string): string {
    if s != "" && IsSpace(Last(s)) then StripRight(Init(s)) else s
  }

  /** Python's `s.strip()`. */
  function Strip(s: string): string {
    StripRight(StripLeft(s))
  }

  function DigitChar(d: nat): char
    requires d < 10
  {
    "0123456789"[d]
  }

  predicate IsDigit(c: char) {
    '0' <= c <= '9'
  }

  function DigitValue(c: char): (d: nat)
    requires IsDigit(c)
    ensures d < 10 && DigitChar(d) == c
  {
    c as int - '0' as int
  }

  /** `str(n)` for a non-negative int. */
  function Decimal(n: nat): (s: string)
    ensures s != "" && forall c | c in s :: IsDigit(c)
  {
    if n < 10 then [DigitChar(n)] else Decimal(n / 10) + [DigitChar(n % 10)]
  }

  /** `str(i)` for any int. */
  function DecimalInt(i: int): string {
    if i < 0 then "-" + Decimal(-i) else Decimal(i)
  }

  /** `int(s)` on a non-empty string of ASCII digits; None stands for ValueError. */
  function ParseDecimal(s: string): Option<nat> {
    if s == "" || !IsDigit(Last(s)) then None
    else if |s| == 1 then Some(DigitValue(s[0]))
    else match ParseDecimal(Init(s))
      case None => None
      case Some(n) => Some(10 * n + DigitValue(Last(s)))
  }

  lemma {:induction false} ParseDecimalInvertsDecimal(n: nat)
    ensures ParseDecimal(Decimal(n)) == Some(n)
  {
    if n >= 10 {
      ParseDecimalInvertsDecimal(n / 10);
      ParseSnoc(Decimal(n / 10), n % 10);
    }
  }

  lemma ParseSnoc(s: string, d: nat)
    requires ParseDecimal(s).Some? && d < 10
    ensures ParseDecimal(s + [DigitChar(d)]) == Some(10 * ParseDecimal(s).value + d)
  {
    assert Init(s + [DigitChar(d)]) == s;
    assert IsDigit(DigitChar(d)) && DigitValue(DigitChar(d)) == d;
  }

  lemma IntReadsBack(i: int)
    ensures i >= 0 ==> ParseDecimal(DecimalInt(i)) == Some(i)
    ensures i < 0 ==> DecimalInt(i)[0] == '-' && ParseDecimal(DecimalInt(i)[1..]) == Some(-i)
  {
    hide ParseDecimal, Decimal;
    ParseDecimalInvertsDecimal(if i < 0 then -i else i);
    assert i < 0 ==> DecimalInt(i)[1..] == Decimal(-i);
  }

  /** The hexadecimal digits of n, padded on the left to `width`, as in `\x0f`. */
  function Hex(n: nat, width: nat): string {
    if width == 0 then "" else Hex(n / 16, width - 1) + ["0123456789abcdef"[n % 16]]
  }

  /**
   * One character of `repr(s)` inside quote q. Which characters beyond ASCII
   * are printable is a Unicode table; it is a parameter here.
   */
  function ReprChar(c: char, q: char, printable: char -> bool): string {
    var n := c as int;
    if c == '\\' || c == q then ['\\', c]
    else if c == '\t' then "\\t"
    else if c == '\n' then "\\n"
    else if c == '\r' then "\\r"
    else if 0x20 <= n < 0x7f || (n >= 0x80 && printable(c)) then [c]
    else if n < 0x100 then "\\x" + Hex(n, 2)
    else if n < 0x10000 then "\\u" + Hex(n, 4)
    else "\\U" + Hex(n, 8)
  }

  function ReprBody(s: string, q: char, printable: char -> bool): string {
    if s == "" then "" else ReprChar(s[0], q, printable) + ReprBody(s[1..], q, printable)
  }

  /** Python's `repr(s)`: single quotes unless only single quotes occur in s. */
  function Repr(s: string, printable: char -> bool): string {
    var q := if '\'' in s && '"' !in s then '"' else '\'';
    [q] + ReprBody(s, q, printable) + [q]
  }

  function ReprList(xs: seq<string>, printable: char -> bool): string {
    "[" + Join(", ", seq(|xs|, i requires 0 <= i < |xs| => Repr(xs[i], printable))) + "]"
  }

  function ReprOption(x: Option<string>, printable: char -> bool): string {
    match x case None => "None" case Some(s) => Repr(s, printable)
  }

  // ----- plain text -----

  /** Printable ASCII without quotes and backslashes. */
  predicate IsPlainText(s: string) {
    forall i | 0 <= i < |s| :: 0x20 <= s[i] as int < 0x7f && s[i] != '\'' && s[i] != '"' && s[i] != '\\'
  }

  lemma PlainChar(c: char, printable: char -> bool)
    requires IsPlainText([c])
    ensures ReprChar(c, '\'', printable) == [c]
  {
    assert [c][0] == c;
  }

  lemma {:induction false} PlainReprBody(s: string, printable: char -> bool)
    requires IsPlainText(s)
    ensures ReprBody(s, '\'', printable) == s
    decreases |s|
  {
    if s != "" {
      PlainChar(s[0], printable);
      hide ReprChar;
      assert forall i | 0 <= i < |s[1..]| :: s[1..][i] == s[i + 1];
      PlainReprBody(s[1..], printable);
      assert s == [s[0]] + s[1..];
    }
  }

  lemma PlainRepr(s: string, printable: char -> bool)
    requires IsPlainText(s)
    ensures Repr(s, printable) == "'" + s + "'"
  {
    hide ReprBody;
    assert '\'' !in s;
    PlainReprBody(s, printable);
  }

  // ----- what stripping takes off -----

  /** Python's `s.strip()` is the stretch of s between its outermost characters that are not blank. */
  lemma StripIsExact(s: string) returns (i: nat, j: nat)
    ensures i <= j <= |s| && Strip(s) == s[i..j]
    ensures (forall k | 0 <= k < i || j <= k < |s| :: IsSpace(s[k]))
    ensures i < j ==> !IsSpace(s[i]) && !IsSpace(s[j - 1])
  {
    hide IsSpace;
    i := StripLeftCuts(s);
    j := StripRightCuts(s[i..]);
    j := i + j;
    assert forall k | i <= k < |s| :: s[k] == s[i..][k - i];
  }

  lemma {:induction false} StripLeftCuts(s: string) returns (i: nat)
    ensures i <= |s| && StripLeft(s) == s[i..]
    ensures (forall k | 0 <= k < i :: IsSpace(s[k])) && (i < |s| ==> !IsSpace(s[i]))
    decreases |s|
  {
    hide IsSpace;
    if s != "" && IsSpace(s[0]) {
      i := StripLeftCuts(s[1..]);
      i := i + 1;
    } else {
      i := 0;
    }
  }

  lemma {:induction false} StripRightCuts(s: string) returns (j: nat)
    ensures j <= |s| && StripRight(s) == s[..j]
    ensures (forall k | j <= k < |s| :: IsSpace(s[k])) && (j > 0 ==> !IsSpace(s[j - 1]))
    decreases |s|
  {
    hide IsSpace;
    if s != "" && IsSpace(Last(s)) { j := StripRightCuts(Init(s)); } else { j := |s|; }
  }
}
