/** UTF-8 as the server uses it: `std::str::from_utf8` turns the bytes read from
    a socket into text, and `str::as_bytes` gives the bytes a response is written
    as. The well-formed byte sequences are those of Table 3-7 of the Unicode
    Standard (chapter 3, section 3.9), which is what `from_utf8` accepts. */
module Utf8 {
  import opened Wrappers

  type Byte = b: int | 0 <= b < 256

  predicate IsContinuation(b: Byte)
  {
    0x80 <= b <= 0xBF
  }

  /** A Unicode scalar value: a code point that is not a surrogate. */
  predicate IsScalar(n: int)
  {
    (0 <= n < 0xD800) || (0xE000 <= n <= 0x10FFFF)
  }

  /** The bytes of one character. */
  function EncodeChar(c: char): (bs: seq<Byte>)
    ensures 1 <= |bs| <= 4
  {
    var n := c as int;
    if n < 0x80 then [n]
    else if n < 0x800 then [0xC0 + n / 64, 0x80 + n % 64]
    else if n < 0x10000 then [0xE0 + n / 4096, 0x80 + (n / 64) % 64, 0x80 + n % 64]
    else [0xF0 + n / 0x40000, 0x80 + (n / 4096) % 64, 0x80 + (n / 64) % 64, 0x80 + n % 64]
  }

  /** `s.as_bytes()`. */
  function Encode(s: string): (bs: seq<Byte>)
    ensures |bs| >= |s|
  {
    if s == [] then [] else EncodeChar(s[0]) + Encode(s[1..])
  }

  /** The second byte allowed after a three-byte lead byte. */
  predicate SecondOfThree(b0: Byte, b1: Byte)
  {
    if b0 == 0xE0 then 0xA0 <= b1 <= 0xBF
    else if b0 == 0xED then 0x80 <= b1 <= 0x9F
    else IsContinuation(b1)
  }

  /** The second byte allowed after a four-byte lead byte. */
  predicate SecondOfFour(b0: Byte, b1: Byte)
  {
    if b0 == 0xF0 then 0x90 <= b1 <= 0xBF
    else if b0 == 0xF4 then 0x80 <= b1 <= 0x8F
    else IsContinuation(b1)
  }

  /** The length of the well-formed sequence `bs` starts with, or 0 when `bs`
      starts with none. */
  function PrefixLength(bs: seq<Byte>): (n: nat)
    ensures n <= 4 && n <= |bs|
    ensures |bs| > 0 && bs[0] < 0x80 ==> n == 1
  {
    if |bs| == 0 then 0
    else
      var b0 := bs[0];
      if b0 < 0x80 then 1
      else if 0xC2 <= b0 <= 0xDF then
        if |bs| >= 2 && IsContinuation(bs[1]) then 2 else 0
      else if 0xE0 <= b0 <= 0xEF then
        if |bs| >= 3 && SecondOfThree(b0, bs[1]) && IsContinuation(bs[2]) then 3 else 0
      else if 0xF0 <= b0 <= 0xF4 then
        if |bs| >= 4 && SecondOfFour(b0, bs[1]) && IsContinuation(bs[2]) && IsContinuation(bs[3]) then 4 else 0
      else 0
  }

  /** The code point a well-formed sequence of `n` bytes stands for. */
  function CodePoint(bs: seq<Byte>, n: nat): (v: int)
    requires 0 < n == PrefixLength(bs)
    ensures IsScalar(v)
  {
    if n == 1 then bs[0]
    else if n == 2 then (bs[0] as int - 0xC0) * 64 + (bs[1] as int - 0x80)
    else if n == 3 then (bs[0] as int - 0xE0) * 4096 + (bs[1] as int - 0x80) * 64 + (bs[2] as int - 0x80)
    else (bs[0] as int - 0xF0) * 0x40000 + (bs[1] as int - 0x80) * 4096 + (bs[2] as int - 0x80) * 64 + (bs[3] as int - 0x80)
  }

  /** `std::str::from_utf8`: the text, or `None` when the bytes are not UTF-8. */
  function Decode(bs: seq<Byte>): (r: Option<string>)
    decreases |bs|
  {
    if bs == [] then Some([])
    else
      var n := PrefixLength(bs);
      if n == 0 then None
      else
        match Decode(bs[n..])
        case None => None
        case Some(rest) => Some([CodePoint(bs, n) as char] + rest)
  }

  lemma EncodeCharDecodes(c: char, rest: seq<Byte>)
    ensures PrefixLength(EncodeChar(c) + rest) == |EncodeChar(c)|
    ensures CodePoint(EncodeChar(c) + rest, |EncodeChar(c)|) == c as int
  {
    var n := c as int;
    if n < 0x80 {
    } else if n < 0x800 {
      TwoDecodes(c, rest);
    } else if n < 0x10000 {
      ThreeDecodes(c, rest);
    } else {
      FourDecodes(c, rest);
    }
  }

  lemma TwoDecodes(c: char, rest: seq<Byte>)
    requires 0x80 <= c as int < 0x800
    ensures PrefixLength(EncodeChar(c) + rest) == 2
    ensures CodePoint(EncodeChar(c) + rest, 2) == c as int
  {
    var n := c as int;
    var q, r := n / 64, n % 64;
    assert n == q * 64 + r;
    assert 2 <= q < 32;
    var bs := EncodeChar(c) + rest;
    assert bs[0] == 0xC0 + q && bs[1] == 0x80 + r;
  }

  lemma ThreeDecodes(c: char, rest: seq<Byte>)
    requires 0x800 <= c as int < 0x10000
    ensures PrefixLength(EncodeChar(c) + rest) == 3
    ensures CodePoint(EncodeChar(c) + rest, 3) == c as int
  {
    var n := c as int;
    var q, r := n / 64, n % 64;
    var q2, r2 := q / 64, q % 64;
    assert n == q * 64 + r && q == q2 * 64 + r2;
    assert n / 4096 == q2 && (n / 64) % 64 == r2;
    assert n == q2 * 4096 + r2 * 64 + r;
    assert q2 == 0 ==> r2 >= 0x20;
    assert q2 == 13 ==> r2 < 0x20;
    var bs := EncodeChar(c) + rest;
    assert bs[0] == 0xE0 + q2 && bs[1] == 0x80 + r2 && bs[2] == 0x80 + r;
  }

  lemma FourDecodes(c: char, rest: seq<Byte>)
    requires 0x10000 <= c as int
    ensures PrefixLength(EncodeChar(c) + rest) == 4
    ensures CodePoint(EncodeChar(c) + rest, 4) == c as int
  {
    var n := c as int;
    var q, r := n / 64, n % 64;
    var q2, r2 := q / 64, q % 64;
    var q3, r3 := q2 / 64, q2 % 64;
    assert n == q * 64 + r && q == q2 * 64 + r2 && q2 == q3 * 64 + r3;
    assert n / 4096 == q2 && n / 0x40000 == q3;
    assert n == q3 * 0x40000 + r3 * 4096 + r2 * 64 + r;
    assert q3 == 0 ==> r3 >= 0x10;
    assert q3 == 4 ==> r3 < 0x10;
    var bs := EncodeChar(c) + rest;
    assert bs[0] == 0xF0 + q3 && bs[1] == 0x80 + r3 && bs[2] == 0x80 + r2 && bs[3] == 0x80 + r;
  }

  /** Decoding the bytes of a text gives back the text. */
  lemma {:induction false} DecodeEncode(s: string)
    ensures Decode(Encode(s)) == Some(s)
  {
    if s != [] {
      var head := EncodeChar(s[0]);
      var bs := Encode(s);
      assert bs == head + Encode(s[1..]);
      EncodeCharDecodes(s[0], Encode(s[1..]));
      assert bs[|head|..] == Encode(s[1..]);
      DecodeEncode(s[1..]);
      assert [CodePoint(bs, |head|) as char] + s[1..] == s;
    }
  }

  lemma DivMod64(q: int, r: int)
    requires 0 <= r < 64
    ensures (q * 64 + r) / 64 == q && (q * 64 + r) % 64 == r
  {
  }

  lemma DivMod4096(q: int, r: int)
    requires 0 <= r < 4096
    ensures (q * 4096 + r) / 4096 == q && (q * 4096 + r) % 4096 == r
  {
  }

  lemma DivMod262144(q: int, r: int)
    requires 0 <= r < 0x40000
    ensures (q * 0x40000 + r) / 0x40000 == q && (q * 0x40000 + r) % 0x40000 == r
  {
  }

  lemma EncodesTwo(bs: seq<Byte>)
    requires PrefixLength(bs) == 2
    ensures EncodeChar(CodePoint(bs, 2) as char) == bs[..2]
  {
    var x0, x1 := bs[0] as int - 0xC0, bs[1] as int - 0x80;
    var v := CodePoint(bs, 2);
    assert 2 <= x0 < 32 && 0 <= x1 < 64;
    assert v == x0 * 64 + x1;
    DivMod64(x0, x1);
    assert 0x80 <= v < 0x800;
  }

  lemma EncodesThree(bs: seq<Byte>)
    requires PrefixLength(bs) == 3
    ensures EncodeChar(CodePoint(bs, 3) as char) == bs[..3]
  {
    var x0, x1, x2 := bs[0] as int - 0xE0, bs[1] as int - 0x80, bs[2] as int - 0x80;
    var v := CodePoint(bs, 3);
    assert 0 <= x0 < 16 && 0 <= x1 < 64 && 0 <= x2 < 64;
    assert x0 == 0 ==> x1 >= 0x20;
    assert v == (x0 * 64 + x1) * 64 + x2;
    DivMod64(x0 * 64 + x1, x2);
    DivMod64(x0, x1);
    assert v == x0 * 4096 + (x1 * 64 + x2);
    DivMod4096(x0, x1 * 64 + x2);
    assert 0x800 <= v < 0x10000;
  }

  lemma EncodesFour(bs: seq<Byte>)
    requires PrefixLength(bs) == 4
    ensures EncodeChar(CodePoint(bs, 4) as char) == bs[..4]
  {
    var x0, x1, x2, x3 := bs[0] as int - 0xF0, bs[1] as int - 0x80, bs[2] as int - 0x80, bs[3] as int - 0x80;
    var v := CodePoint(bs, 4);
    assert 0 <= x0 < 5 && 0 <= x1 < 64 && 0 <= x2 < 64 && 0 <= x3 < 64;
    assert x0 == 0 ==> x1 >= 0x10;
    var hi := (x0 * 64 + x1) * 64 + x2;
    assert v == hi * 64 + x3;
    DivMod64(hi, x3);
    DivMod64(x0 * 64 + x1, x2);
    assert v == (x0 * 64 + x1) * 4096 + (x2 * 64 + x3);
    DivMod4096(x0 * 64 + x1, x2 * 64 + x3);
    DivMod64(x0, x1);
    assert v == x0 * 0x40000 + ((x1 * 64 + x2) * 64 + x3);
    DivMod262144(x0, (x1 * 64 + x2) * 64 + x3);
    assert 0x10000 <= v;
  }

  lemma CodePointEncodes(bs: seq<Byte>, n: nat)
    requires 0 < n == PrefixLength(bs)
    ensures EncodeChar(CodePoint(bs, n) as char) == bs[..n]
  {
    if n == 2 { EncodesTwo(bs); }
    else if n == 3 { EncodesThree(bs); }
    else if n == 4 { EncodesFour(bs); }
  }

  /** Whatever decodes, encodes back to the same bytes: `Decode` and `Encode`
      are inverse bijections between texts and well-formed byte strings. */
  lemma {:induction false} EncodeDecode(bs: seq<Byte>)
    requires Decode(bs).Some?
    ensures Encode(Decode(bs).value) == bs
    decreases |bs|
  {
    if bs != [] {
      var n := PrefixLength(bs);
      var c := CodePoint(bs, n) as char;
      var t := Decode(bs[n..]).value;
      assert Decode(bs).value == [c] + t;
      EncodeDecode(bs[n..]);
      CodePointEncodes(bs, n);
      EncodeCons(c, t);
      SplitAt(bs, n);
    }
  }

  lemma EncodeCons(c: char, t: string)
    ensures Encode([c] + t) == EncodeChar(c) + Encode(t)
  {
    assert ([c] + t)[0] == c && ([c] + t)[1..] == t;
  }

  lemma SplitAt<T>(s: seq<T>, n: nat)
    requires n <= |s|
    ensures s == s[..n] + s[n..]
  {
  }

  /** ASCII text is one byte per character. */
  lemma {:induction false} EncodeAscii(s: string)
    requires forall i :: 0 <= i < |s| ==> s[i] < '\U{0080}'
    ensures |Encode(s)| == |s|
  {
    if s != [] {
      EncodeAscii(s[1..]);
    }
  }

  lemma {:induction false} EncodeAppend(a: string, b: string)
    ensures Encode(a + b) == Encode(a) + Encode(b)
  {
    if a != [] {
      assert (a + b)[1..] == a[1..] + b;
      EncodeAppend(a[1..], b);
    } else {
      assert a + b == b;
    }
  }
}
