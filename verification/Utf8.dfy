/**
 * UTF-8 (section 3 of RFC 3629) as `str.encode()` writes it and as
 * `bytes.decode(errors='replace')` reads it: one U+FFFD for each maximal
 * subpart of an ill-formed sequence (section 3.9 of the Unicode Standard).
 */
module Utf8 {
  type byte = x: int | 0 <= x < 256

  const REPLACEMENT: char := '\U{FFFD}'

  function EncodeChar(c: char): (b: seq<byte>)
    ensures 1 <= |b| <= 4
    ensures forall i | 1 <= i < |b| :: IsContinuation(b[i])
  {
    var n := c as int;
    if n < 0x80 then [n]
    else if n < 0x800 then [0xC0 + n / 64, 0x80 + n % 64]
    else if n < 0x10000 then [0xE0 + n / 4096, 0x80 + n / 64 % 64, 0x80 + n % 64]
    else [0xF0 + n / 262144, 0x80 + n / 4096 % 64, 0x80 + n / 64 % 64, 0x80 + n % 64]
  }

  function Encode(s: string): seq<byte> {
    if s == "" then [] else EncodeChar(s[0]) + Encode(s[1..])
  }

  predicate IsContinuation(b: byte) {
    0x80 <= b < 0xC0
  }

  /** The six payload bits of a continuation byte. */
  function Six(b: byte): (n: int)
    requires IsContinuation(b)
    ensures 0 <= n < 64
  {
    var n: int := b;
    n - 0x80
  }

  /** Table 3-7 of the Unicode Standard: the second byte that a lead byte allows. */
  predicate SecondByteOk(lead: byte, b: byte) {
    var lo := if lead == 0xE0 then 0xA0 else if lead == 0xF0 then 0x90 else 0x80;
    var hi := if lead == 0xED then 0x9F else if lead == 0xF4 then 0x8F else 0xBF;
    lo <= b <= hi
  }

  /** The first character of a non-empty byte string and how many bytes it takes. */
  function DecodeFirst(b: seq<byte>): (r: (char, nat))
    requires b != []
    ensures 1 <= r.1 <= |b|
  {
    var b0: int := b[0];
    if b0 < 0x80 then (b0 as char, 1)
    else if b0 < 0xC2 || b0 > 0xF4 then (REPLACEMENT, 1)
    else if |b| == 1 || !SecondByteOk(b0, b[1]) then (REPLACEMENT, 1)
    else if b0 < 0xE0 then (((b0 - 0xC0) * 64 + Six(b[1])) as char, 2)
    else if |b| == 2 || !IsContinuation(b[2]) then (REPLACEMENT, 2)
    else if b0 < 0xF0 then (((b0 - 0xE0) * 4096 + Six(b[1]) * 64 + Six(b[2])) as char, 3)
    else if |b| == 3 || !IsContinuation(b[3]) then (REPLACEMENT, 3)
    else
      (((b0 - 0xF0) * 262144 + Six(b[1]) * 4096 + Six(b[2]) * 64 + Six(b[3])) as char, 4)
  }

  function Decode(b: seq<byte>): string {
    if b == [] then ""
    else
      var (c, n) := DecodeFirst(b);
      [c] + Decode(b[n..])
  }

  // ----- round trip -----

  /** Splitting a number into base-64 digits loses nothing. */
  lemma SixBitDigits(n: nat)
    ensures n == n / 64 * 64 + n % 64
    ensures n == n / 4096 * 4096 + n / 64 % 64 * 64 + n % 64
    ensures n == n / 262144 * 262144 + n / 4096 % 64 * 4096 + n / 64 % 64 * 64 + n % 64
  {
    var m := n / 64;
    var k := n / 4096;
    assert n == m * 64 + n % 64 && m == m / 64 * 64 + m % 64;
    assert m / 64 == k && k == k / 64 * 64 + k % 64 && k / 64 == n / 262144;
  }

  lemma DecodeFirstOfTwo(c: char, b: seq<byte>)
    requires 0x80 <= c as int < 0x800 && EncodeChar(c) <= b
    ensures DecodeFirst(b) == (c, 2)
  {
    var n := c as int;
    SixBitDigits(n);
    assert b[0] == EncodeChar(c)[0] && b[1] == EncodeChar(c)[1];
    assert Six(b[1]) == n % 64;
  }

  lemma DecodeFirstOfThree(c: char, b: seq<byte>)
    requires 0x800 <= c as int < 0x10000 && EncodeChar(c) <= b
    ensures DecodeFirst(b) == (c, 3)
  {
    var n := c as int;
    SixBitDigits(n);
    assert b[0] == EncodeChar(c)[0] && b[1] == EncodeChar(c)[1] && b[2] == EncodeChar(c)[2];
    assert Six(b[1]) == n / 64 % 64 && Six(b[2]) == n % 64;
    assert n < 0xD800 || 0xE000 <= n;
    assert SecondByteOk(b[0], b[1]);
  }

  lemma DecodeFirstOfFour(c: char, b: seq<byte>)
    requires 0x10000 <= c as int && EncodeChar(c) <= b
    ensures DecodeFirst(b) == (c, 4)
  {
    var n := c as int;
    assert n < 0x110000;
    SixBitDigits(n);
    assert b[0] == EncodeChar(c)[0] && b[1] == EncodeChar(c)[1];
    assert b[2] == EncodeChar(c)[2] && b[3] == EncodeChar(c)[3];
    assert Six(b[1]) == n / 4096 % 64 && Six(b[2]) == n / 64 % 64 && Six(b[3]) == n % 64;
    assert SecondByteOk(b[0], b[1]);
  }

  lemma DecodeFirstEncoded(c: char, rest: seq<byte>)
    ensures DecodeFirst(EncodeChar(c) + rest) == (c, |EncodeChar(c)|)
  {
    var b := EncodeChar(c) + rest;
    if c as int < 0x80 {
      assert b[0] == c as int;
    } else if c as int < 0x800 {
      DecodeFirstOfTwo(c, b);
    } else if c as int < 0x10000 {
      DecodeFirstOfThree(c, b);
    } else {
      DecodeFirstOfFour(c, b);
    }
  }

  lemma {:induction false} DecodeInvertsEncode(s: string)
    ensures Decode(Encode(s)) == s
    decreases |s|
  {
    if s != "" {
      DecodeFirstEncoded(s[0], Encode(s[1..]));
      assert Encode(s)[|EncodeChar(s[0])|..] == Encode(s[1..]);
      DecodeInvertsEncode(s[1..]);
    }
  }

  lemma {:induction false} EncodeConcat(s: string, t: string)
    ensures Encode(s + t) == Encode(s) + Encode(t)
    decreases |s|
  {
    if s == "" {
      assert s + t == t;
    } else {
      assert (s + t)[1..] == s[1..] + t;
      EncodeConcat(s[1..], t);
    }
  }

  // ----- cutting an encoding at any byte -----

  function Replacements(k: nat): (s: string)
    ensures |s| == k
  {
    seq(k, i => REPLACEMENT)
  }

  /** Each continuation byte with no lead byte before it decodes to one U+FFFD. */
  lemma {:induction false} DecodeStrays(strays: seq<byte>, s: string)
    requires forall i | 0 <= i < |strays| :: IsContinuation(strays[i])
    ensures Decode(strays + Encode(s)) == Replacements(|strays|) + s
    decreases |strays|
  {
    hide Encode;
    if strays == [] {
      assert strays + Encode(s) == Encode(s) && Replacements(0) + s == s;
      DecodeInvertsEncode(s);
    } else {
      var b := strays + Encode(s);
      assert IsContinuation(strays[0]) && b[0] == strays[0];
      assert b[1..] == strays[1..] + Encode(s);
      DecodeStrays(strays[1..], s);
      assert [REPLACEMENT] + Replacements(|strays| - 1) == Replacements(|strays|);
      assert [REPLACEMENT] + (Replacements(|strays| - 1) + s) == Replacements(|strays|) + s;
    }
  }

  /**
   * The last n bytes of an encoding are at most three stray continuation
   * bytes followed by the encoding of a suffix of the text.
   */
  lemma {:induction false} TailOfEncoding(s: string, n: nat) returns (strays: seq<byte>, i: nat)
    requires n <= |Encode(s)|
    ensures |strays| <= 3 && i <= |s|
    ensures forall k | 0 <= k < |strays| :: IsContinuation(strays[k])
    ensures Encode(s)[|Encode(s)| - n..] == strays + Encode(s[i..])
    decreases |s|
  {
    if s == "" {
      strays, i := [], 0;
    } else {
      var head, tail := EncodeChar(s[0]), Encode(s[1..]);
      if n <= |tail| {
        strays, i := TailOfEncoding(s[1..], n);
        assert Encode(s)[|Encode(s)| - n..] == tail[|tail| - n..];
        assert s[1..][i..] == s[i + 1..];
        i := i + 1;
      } else if n == |Encode(s)| {
        strays, i := [], 0;
        assert s[0..] == s;
      } else {
        strays, i := head[|head| + |tail| - n..], 1;
      }
    }
  }

  /** An encoding that breaks off decodes to one U+FFFD, however many of its bytes are there. */
  lemma DecodeBrokenOff(c: char, k: nat, rest: seq<byte>)
    requires 0 < k < |EncodeChar(c)| && (rest == [] || !IsContinuation(rest[0]))
    ensures Decode(EncodeChar(c)[..k] + rest) == [REPLACEMENT] + Decode(rest)
  {
    var whole, b := EncodeChar(c), EncodeChar(c)[..k] + rest;
    assert b[k..] == rest && b[0] == whole[0];
    assert k > 1 ==> b[1] == whole[1];
    assert k > 2 ==> b[2] == whole[2];
    assert k < |b| ==> b[k] == rest[0];
    SecondByteIsRight(c);
    assert DecodeFirst(b) == (REPLACEMENT, k);
  }

  lemma SecondByteIsRight(c: char)
    ensures |EncodeChar(c)| > 1 ==>
              0xC2 <= EncodeChar(c)[0] <= 0xF4 && SecondByteOk(EncodeChar(c)[0], EncodeChar(c)[1])
    ensures |EncodeChar(c)| == 2 <==> 0xC2 <= EncodeChar(c)[0] < 0xE0
    ensures |EncodeChar(c)| == 3 <==> 0xE0 <= EncodeChar(c)[0] < 0xF0
  {
    SixBitDigits(c as int);
  }

  /** A byte that opens no encoding decodes to one U+FFFD. */
  lemma DecodeStrayByte(b: byte, rest: seq<byte>)
    requires IsContinuation(b) || b == 0xC0 || b == 0xC1 || b > 0xF4
    ensures Decode([b] + rest) == [REPLACEMENT] + Decode(rest)
  {
    assert ([b] + rest)[1..] == rest;
  }

  lemma {:induction false} EncodeReplacements(k: nat)
    ensures |Encode(Replacements(k))| == 3 * k
  {
    if k > 0 {
      assert Replacements(k)[1..] == Replacements(k - 1);
      EncodeReplacements(k - 1);
      assert |EncodeChar(REPLACEMENT)| == 3;
    }
  }
}
