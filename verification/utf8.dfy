/** UTF-8, the encoding `Buffer.from(string)` applies to a JavaScript string
    (section 3 of RFC 3629). Characters are Unicode scalar values, so every
    character has an encoding of one to four bytes. */
module Utf8 {
  import opened Wrappers
  import opened Frame

  /** A continuation byte carrying the six bits `v`. */
  function Cont(v: int): byte
    requires 0 <= v < 64
  {
    0x80 + v
  }

  predicate IsCont(b: byte) {
    0x80 <= b < 0xC0
  }

  /** The bytes of one character. */
  function EncodeChar(c: char): (bs: seq<byte>)
    ensures 1 <= |bs| <= 4
  {
    var n := c as int;
    if n < 0x80 then [n]
    else if n < 0x800 then [0xC0 + n / 64, Cont(n % 64)]
    else if n < 0x10000 then [0xE0 + n / 4096, Cont(n / 64 % 64), Cont(n % 64)]
    else [0xF0 + n / 262144, Cont(n / 4096 % 64), Cont(n / 64 % 64), Cont(n % 64)]
  }

  function Encode(s: string): (bs: seq<byte>)
    decreases |s|
  {
    if |s| == 0 then [] else EncodeChar(s[0]) + Encode(s[1..])
  }

  /** A scalar value: not a surrogate and at most U+10FFFF. */
  predicate IsScalar(n: int) {
    (0 <= n < 0xD800) || (0xE000 <= n < 0x110000)
  }

  /** The character at the front of `bs` and the number of bytes it takes;
      `None` for a malformed sequence. */
  function DecodeChar(bs: seq<byte>): (r: Option<(char, nat)>)
    ensures r.Some? ==> 1 <= r.value.1 <= |bs|
  {
    if |bs| == 0 then None
    else if bs[0] < 0x80 then Some((bs[0] as char, 1))
    else if 0xC0 <= bs[0] < 0xE0 && |bs| >= 2 && IsCont(bs[1]) then
      var n := (bs[0] as int - 0xC0) * 64 + (bs[1] as int - 0x80);
      if 0x80 <= n then Some((n as char, 2)) else None
    else if 0xE0 <= bs[0] < 0xF0 && |bs| >= 3 && IsCont(bs[1]) && IsCont(bs[2]) then
      var n := (bs[0] as int - 0xE0) * 4096 + (bs[1] as int - 0x80) * 64 + (bs[2] as int - 0x80);
      if 0x800 <= n && IsScalar(n) then Some((n as char, 3)) else None
    else if 0xF0 <= bs[0] < 0xF8 && |bs| >= 4 && IsCont(bs[1]) && IsCont(bs[2]) && IsCont(bs[3]) then
      var n := (bs[0] as int - 0xF0) * 262144 + (bs[1] as int - 0x80) * 4096 + (bs[2] as int - 0x80) * 64 + (bs[3] as int - 0x80);
      if 0x10000 <= n && IsScalar(n) then Some((n as char, 4)) else None
    else None
  }

  /** Strict decoding of a whole byte sequence. */
  function Decode(bs: seq<byte>): Option<string>
    decreases |bs|
  {
    if |bs| == 0 then Some([])
    else match DecodeChar(bs)
      case None => None
      case Some((c, k)) =>
        match Decode(bs[k..])
        case None => None
        case Some(s) => Some([c] + s)
  }

  // ---------------------------------------------------------------------
  // Round trip.

  lemma DecodeTwo(n: int)
    requires 0x80 <= n < 0x800
    ensures (0xC0 + n / 64 - 0xC0) * 64 + (0x80 + n % 64 - 0x80) == n
  {
  }

  lemma DecodeThree(n: int)
    requires 0x800 <= n < 0x10000
    ensures (0xE0 + n / 4096 - 0xE0) * 4096 + (n / 64 % 64) * 64 + n % 64 == n
  {
  }

  lemma DecodeFour(n: int)
    requires 0x10000 <= n < 0x110000
    ensures (0xF0 + n / 262144 - 0xF0) * 262144 + (n / 4096 % 64) * 4096 + (n / 64 % 64) * 64 + n % 64 == n
  {
  }

  /** A character's bytes decode back to it, whatever follows them. */
  lemma DecodeEncodeChar(c: char, rest: seq<byte>)
    ensures DecodeChar(EncodeChar(c) + rest) == Some((c, |EncodeChar(c)|))
  {
    var n := c as int;
    var bs := EncodeChar(c) + rest;
    if n < 0x80 {
    } else if n < 0x800 {
      DecodeTwo(n);
    } else if n < 0x10000 {
      DecodeThree(n);
    } else {
      DecodeFour(n);
    }
  }

  /** Decoding inverts encoding. */
  lemma {:induction false} DecodeEncode(s: string)
    ensures Decode(Encode(s)) == Some(s)
    decreases |s|
  {
    if |s| != 0 {
      var e, t := EncodeChar(s[0]), Encode(s[1..]);
      DecodeEncodeChar(s[0], t);
      assert (e + t)[|e|..] == t;
      DecodeEncode(s[1..]);
      assert [s[0]] + s[1..] == s;
    }
  }

  /** ASCII text is one byte per character, the byte being the code. */
  lemma {:induction false} AsciiBytes(s: string)
    requires forall i :: 0 <= i < |s| ==> s[i] as int < 0x80
    ensures Encode(s) == seq(|s|, i requires 0 <= i < |s| => s[i] as int)
    decreases |s|
  {
    if |s| != 0 {
      AsciiBytes(s[1..]);
    }
  }

  /** Encoding is injective: different strings give different bytes. */
  lemma EncodeInjective(s: string, t: string)
    requires Encode(s) == Encode(t)
    ensures s == t
  {
    DecodeEncode(s);
    DecodeEncode(t);
  }

  // ---------------------------------------------------------------------
  // Lossy decoding.

  /** U+FFFD, the character that stands for malformed bytes. */
  const Replacement: char := 0xFFFD as char

  /** The bytes one U+FFFD replaces when `DecodeChar` fails: the longest
      prefix that could still begin a well-formed sequence (table 3-7 of
      the Unicode Standard), and at least the first byte. */
  function MaximalSubpart(bs: seq<byte>): (n: nat)
    requires |bs| > 0
    ensures 1 <= n <= |bs| && n <= 3
  {
    var b := bs[0];
    var (lo, hi, need) :=
      if 0xC2 <= b <= 0xDF then (0x80, 0xBF, 1)
      else if b == 0xE0 then (0xA0, 0xBF, 2)
      else if b == 0xED then (0x80, 0x9F, 2)
      else if 0xE1 <= b <= 0xEF then (0x80, 0xBF, 2)
      else if b == 0xF0 then (0x90, 0xBF, 3)
      else if 0xF1 <= b <= 0xF3 then (0x80, 0xBF, 3)
      else if b == 0xF4 then (0x80, 0x8F, 3)
      else (0, 0, 0);
    if need < 2 || |bs| < 2 || !(lo <= bs[1] <= hi) then 1
    else if need == 2 || |bs| < 3 || !IsCont(bs[2]) then 2
    else 3
  }

  /** `buf.toString()`: decoding that puts U+FFFD in place of each maximal
      malformed subpart instead of failing. */
  function LossyDecode(bs: seq<byte>): string
    decreases |bs|
  {
    if |bs| == 0 then []
    else match DecodeChar(bs)
      case Some((c, k)) => [c] + LossyDecode(bs[k..])
      case None => [Replacement] + LossyDecode(bs[MaximalSubpart(bs)..])
  }

  /** On well-formed bytes lossy decoding is strict decoding. */
  lemma {:induction false} LossyAgrees(bs: seq<byte>)
    requires Decode(bs).Some?
    ensures LossyDecode(bs) == Decode(bs).value
    decreases |bs|
  {
    if |bs| != 0 {
      var k := DecodeChar(bs).value.1;
      LossyAgrees(bs[k..]);
    }
  }

  /** Malformed bytes always leave a U+FFFD behind. */
  lemma {:induction false} LossyMarks(bs: seq<byte>)
    requires Decode(bs).None?
    ensures Replacement in LossyDecode(bs)
    decreases |bs|
  {
    match DecodeChar(bs)
    case None =>
      assert LossyDecode(bs)[0] == Replacement;
    case Some((c, k)) =>
      LossyMarks(bs[k..]);
      assert LossyDecode(bs) == [c] + LossyDecode(bs[k..]);
  }

  /** A string's bytes decode back to it. */
  lemma LossyEncode(s: string)
    ensures LossyDecode(Encode(s)) == s
  {
    DecodeEncode(s);
    LossyAgrees(Encode(s));
  }
}
