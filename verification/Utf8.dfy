/**
  The byte/character boundary of the SSE pipeline: `String::into_bytes` on the printing side and
  `String::from_utf8_lossy` on the parsing side.  A Dafny `char` is a Unicode scalar value, which is
  exactly what a Rust `char` is.
 */
module Utf8 {

  type Byte = b: int | 0 <= b < 256

  const REPLACEMENT: char := '\U{FFFD}'

  function EncodeChar(c: char): (r: seq<Byte>)
    ensures 1 <= |r| <= 4
    ensures (c as int) < 0x80 <==> r[0] < 0x80
  {
    var n := c as int;
    if n < 0x80 then [n]
    else if n < 0x800 then [0xC0 + n / 0x40, 0x80 + n % 0x40]
    else if n < 0x1_0000 then [0xE0 + n / 0x1000, 0x80 + n / 0x40 % 0x40, 0x80 + n % 0x40]
    else [0xF0 + n / 0x4_0000, 0x80 + n / 0x1000 % 0x40, 0x80 + n / 0x40 % 0x40, 0x80 + n % 0x40]
  }

  function Encode(s: string): (r: seq<Byte>)
    ensures s == "" <==> r == []
  {
    if s == "" then [] else EncodeChar(s[0]) + Encode(s[1..])
  }

  predicate IsContinuation(b: Byte) { 0x80 <= b < 0xC0 }

  /** The value bits a byte carries once its marker bits are removed. */
  function Payload(b: Byte, marker: int): int { b - marker }

  /** The second bytes that keep a three-byte sequence well formed: no overlong forms, no surrogates. */
  predicate SecondOfThree(b0: Byte, b1: Byte)
  {
    if b0 == 0xE0 then 0xA0 <= b1 < 0xC0
    else if b0 == 0xED then 0x80 <= b1 < 0xA0
    else IsContinuation(b1)
  }

  /** The second bytes that keep a four-byte sequence well formed: no overlong forms, at most U+10FFFF. */
  predicate SecondOfFour(b0: Byte, b1: Byte)
  {
    if b0 == 0xF0 then 0x90 <= b1 < 0xC0
    else if b0 == 0xF4 then 0x80 <= b1 < 0x90
    else IsContinuation(b1)
  }

  datatype Decoded = Decoded(c: char, width: nat)

  /** The next character of a lossy decode; an ill-formed maximal subpart becomes one U+FFFD. */
  function NextChar(b: seq<Byte>): (r: Decoded)
    requires b != []
    ensures 1 <= r.width <= |b|
  {
    var b0 := b[0];
    if b0 < 0x80 then Decoded(b0 as char, 1)
    else if 0xC2 <= b0 < 0xE0 then
      if |b| < 2 || !IsContinuation(b[1]) then Decoded(REPLACEMENT, 1)
      else Decoded((Payload(b0, 0xC0) * 0x40 + Payload(b[1], 0x80)) as char, 2)
    else if 0xE0 <= b0 < 0xF0 then
      if |b| < 2 || !SecondOfThree(b0, b[1]) then Decoded(REPLACEMENT, 1)
      else if |b| < 3 || !IsContinuation(b[2]) then Decoded(REPLACEMENT, 2)
      else Decoded((Payload(b0, 0xE0) * 0x1000 + Payload(b[1], 0x80) * 0x40 + Payload(b[2], 0x80)) as char, 3)
    else if 0xF0 <= b0 < 0xF5 then
      if |b| < 2 || !SecondOfFour(b0, b[1]) then Decoded(REPLACEMENT, 1)
      else if |b| < 3 || !IsContinuation(b[2]) then Decoded(REPLACEMENT, 2)
      else if |b| < 4 || !IsContinuation(b[3]) then Decoded(REPLACEMENT, 3)
      else Decoded((Payload(b0, 0xF0) * 0x4_0000 + Payload(b[1], 0x80) * 0x1000 + Payload(b[2], 0x80) * 0x40
                    + Payload(b[3], 0x80)) as char, 4)
    else Decoded(REPLACEMENT, 1)
  }

  function DecodeLossy(b: seq<Byte>): (r: string)
  {
    if b == [] then ""
    else var d := NextChar(b); [d.c] + DecodeLossy(b[d.width..])
  }

  /** Six-bit digits recombine to the number they were cut from. */
  lemma SixBitDigits(n: nat)
    ensures n == n / 0x1000 * 0x1000 + n / 0x40 % 0x40 * 0x40 + n % 0x40
    ensures n / 0x1000 == n / 0x4_0000 * 0x40 + n / 0x1000 % 0x40
  {
    var q := n / 0x40;
    assert q / 0x40 == n / 0x1000;
    assert q / 0x1000 == n / 0x4_0000;
  }

  lemma NextCharInvertsEncodeChar(c: char, rest: seq<Byte>)
    ensures NextChar(EncodeChar(c) + rest) == Decoded(c, |EncodeChar(c)|)
  {
    var n := c as int;
    SixBitDigits(n);
    if 0x800 <= n < 0x1_0000 {
      assert SecondOfThree(0xE0 + n / 0x1000, 0x80 + n / 0x40 % 0x40);
    } else if 0x1_0000 <= n {
      assert SecondOfFour(0xF0 + n / 0x4_0000, 0x80 + n / 0x1000 % 0x40);
    }
  }

  /** Lossy decoding loses nothing on what `into_bytes` produced. */
  lemma {:induction false} DecodeInvertsEncode(s: string)
    ensures DecodeLossy(Encode(s)) == s
  {
    if s != "" {
      NextCharInvertsEncodeChar(s[0], Encode(s[1..]));
      DecodeInvertsEncode(s[1..]);
      assert Encode(s)[|EncodeChar(s[0])|..] == Encode(s[1..]);
    }
  }

  lemma {:induction false} EncodeAppend(s: string, t: string)
    ensures Encode(s + t) == Encode(s) + Encode(t)
  {
    if s == "" {
      assert s + t == t;
    } else {
      assert (s + t)[1..] == s[1..] + t;
      EncodeAppend(s[1..], t);
    }
  }

  /** An ASCII byte occurs in the encoding only where its character occurs in the text. */
  lemma {:induction false} EncodeAvoids(s: string, a: char)
    requires (a as int) < 0x80
    requires a !in s
    ensures (a as int) !in Encode(s)
  {
    if s != "" {
      EncodeAvoids(s[1..], a);
      assert s[0] != a;
      assert (a as int) !in EncodeChar(s[0]);
    }
  }

  // ----- what is lost ---------------------------------------------------------------------------

  /** Some character's encoding begins with these bytes. */
  ghost predicate Begins(b: seq<Byte>) { exists c: char :: b <= EncodeChar(c) }

  lemma ThreeDigits(p: nat, q: nat, r: nat)
    requires q < 0x40 && r < 0x40
    ensures var n := p * 0x1000 + q * 0x40 + r;
            n / 0x1000 == p && n / 0x40 % 0x40 == q && n % 0x40 == r && n / 0x40 == p * 0x40 + q
  {
  }

  lemma TwoByteChar(b0: Byte, b1: Byte) returns (c: char)
    requires 0xC2 <= b0 < 0xE0 && IsContinuation(b1)
    ensures EncodeChar(c) == [b0, b1]
  {
    c := ((b0 - 0xC0) * 0x40 + (b1 - 0x80)) as char;
  }

  lemma ThreeByteChar(b0: Byte, b1: Byte, b2: Byte) returns (c: char)
    requires 0xE0 <= b0 < 0xF0 && SecondOfThree(b0, b1) && IsContinuation(b2)
    ensures EncodeChar(c) == [b0, b1, b2]
  {
    var p, q, r := b0 - 0xE0, b1 - 0x80, b2 - 0x80;
    ThreeDigits(p, q, r);
    c := (p * 0x1000 + q * 0x40 + r) as char;
  }

  lemma FourByteChar(b0: Byte, b1: Byte, b2: Byte, b3: Byte) returns (c: char)
    requires 0xF0 <= b0 < 0xF5 && SecondOfFour(b0, b1) && IsContinuation(b2) && IsContinuation(b3)
    ensures EncodeChar(c) == [b0, b1, b2, b3]
  {
    var o, p, q, r := b0 - 0xF0, b1 - 0x80, b2 - 0x80, b3 - 0x80;
    var n := o * 0x4_0000 + p * 0x1000 + q * 0x40 + r;
    ThreeDigits(o * 0x40 + p, q, r);
    assert n == (o * 0x40 + p) * 0x1000 + q * 0x40 + r;
    c := n as char;
  }

  /** What an encoding looks like after one, two and three bytes. */
  lemma EncodedBytes(c: char)
    ensures var r := EncodeChar(c);
            && (|r| == 1 ==> r[0] < 0x80)
            && (|r| == 2 ==> 0xC2 <= r[0] < 0xE0 && IsContinuation(r[1]))
            && (|r| == 3 ==> 0xE0 <= r[0] < 0xF0 && SecondOfThree(r[0], r[1]) && IsContinuation(r[2]))
            && (|r| == 4 ==> 0xF0 <= r[0] < 0xF5 && SecondOfFour(r[0], r[1]))
            && (|r| == 4 ==> IsContinuation(r[2]) && IsContinuation(r[3]))
  {
  }

  lemma WholeChar(b: seq<Byte>, c: char)
    requires b != [] && EncodeChar(c) <= b
    ensures NextChar(b) == Decoded(c, |EncodeChar(c)|) && EncodeChar(c) == b[..|EncodeChar(c)|]
  {
    NextCharInvertsEncodeChar(c, b[|EncodeChar(c)|..]);
    assert EncodeChar(c) + b[|EncodeChar(c)|..] == b;
  }

  /** The bytes `NextChar` looks at are well formed so far as it goes. */
  predicate Promising(b: seq<Byte>)
  {
    && b != []
    && (|b| == 1 ==> 0xC2 <= b[0] < 0xF5)
    && (|b| == 2 ==> 0xE0 <= b[0] < 0xF5 && if b[0] < 0xF0 then SecondOfThree(b[0], b[1]) else SecondOfFour(b[0], b[1]))
    && (|b| == 3 ==> 0xF0 <= b[0] < 0xF5 && SecondOfFour(b[0], b[1]) && IsContinuation(b[2]))
    && |b| <= 3
  }

  lemma PromisingBegins(b: seq<Byte>)
    requires Promising(b)
    ensures Begins(b)
  {
    if b[0] < 0xE0 {
      var c := TwoByteChar(b[0], 0x80);
      assert b <= EncodeChar(c);
    } else if b[0] < 0xF0 {
      var b1 := if |b| > 1 then b[1] else if b[0] == 0xE0 then 0xA0 else 0x80;
      var c := ThreeByteChar(b[0], b1, 0x80);
      assert b <= EncodeChar(c);
    } else {
      var b1 := if |b| > 1 then b[1] else if b[0] == 0xF0 then 0x90 else 0x80;
      var c := FourByteChar(b[0], b1, if |b| > 2 then b[2] else 0x80, 0x80);
      assert b <= EncodeChar(c);
    }
  }

  /** A complete well-formed sequence. */
  predicate Whole(b: seq<Byte>)
  {
    || (|b| == 1 && b[0] < 0x80)
    || (|b| == 2 && 0xC2 <= b[0] < 0xE0 && IsContinuation(b[1]))
    || (|b| == 3 && 0xE0 <= b[0] < 0xF0 && SecondOfThree(b[0], b[1]) && IsContinuation(b[2]))
    || (|b| == 4 && 0xF0 <= b[0] < 0xF5 && SecondOfFour(b[0], b[1]) && IsContinuation(b[2]) && IsContinuation(b[3]))
  }

  lemma WholeIsChar(b: seq<Byte>) returns (c: char)
    requires Whole(b)
    ensures EncodeChar(c) == b
  {
    if |b| == 1 {
      c := b[0] as char;
    } else if |b| == 2 {
      c := TwoByteChar(b[0], b[1]);
    } else if |b| == 3 {
      c := ThreeByteChar(b[0], b[1], b[2]);
    } else {
      c := FourByteChar(b[0], b[1], b[2], b[3]);
    }
  }

  lemma WholeStands(b: seq<Byte>, w: nat)
    requires w <= |b| && Whole(b[..w])
    ensures exists c: char :: EncodeChar(c) <= b
  {
    hide EncodeChar;
    var c := WholeIsChar(b[..w]);
    assert EncodeChar(c) <= b;
  }

  lemma BeginsPromising(b: seq<Byte>)
    requires b != [] && Begins(b)
    ensures Promising(b) || Whole(b)
  {
    var c: char :| b <= EncodeChar(c);
    EncodedBytes(c);
    var r := EncodeChar(c);
    hide EncodeChar;
    assert forall i :: 0 <= i < |b| ==> b[i] == r[i];
  }

  /** Either the bytes taken are whole, or one more byte would not be promising. */
  lemma NextCharSplits(b: seq<Byte>)
    requires b != []
    ensures var d := NextChar(b);
            var more := if d.width < |b| then b[..d.width + 1] else [];
            || Whole(b[..d.width])
            || (d.c == REPLACEMENT && (d.width > 1 ==> Promising(b[..d.width])) && !Promising(more) && !Whole(more))
  {
    var d := NextChar(b);
    var taken := b[..d.width];
    assert forall i :: 0 <= i < |taken| ==> taken[i] == b[i];
  }

  /**
    Lossy decoding reads a character wherever one stands.  Where none does, it replaces as many bytes as
    could still have begun one, and at least one, by a single U+FFFD.
   */
  lemma ReplacesMaximalSubparts(b: seq<Byte>)
    requires b != []
    ensures var d := NextChar(b);
            if exists c: char :: EncodeChar(c) <= b then EncodeChar(d.c) == b[..d.width]
            else
              && d.c == '\U{FFFD}'
              && (d.width > 1 ==> Begins(b[..d.width]))
              && (d.width < |b| ==> !Begins(b[..d.width + 1]))
  {
    var d := NextChar(b);
    if c: char :| EncodeChar(c) <= b {
      WholeChar(b, c);
    } else {
      NextCharSplits(b);
      hide NextChar, EncodeChar;
      if Whole(b[..d.width]) { WholeStands(b, d.width); }
      if d.width > 1 { PromisingBegins(b[..d.width]); }
      if d.width < |b| && Begins(b[..d.width + 1]) { BeginsPromising(b[..d.width + 1]); }
    }
  }
}
