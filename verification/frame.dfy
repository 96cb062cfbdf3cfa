/** The gRPC-Web transport frame around a serialized request or response
    (the Length-Prefixed-Message of the gRPC over HTTP/2 protocol, reused by
    gRPC-Web): one flag byte, a four-byte big-endian message length, then the
    message. The client builds the request frame as a lowercase hex string
    (`jsonRequestToProxy` in lib/formatters/request.js and
    packages/cli/lib/formatters/request.js) and cuts the message out of a
    response frame in the response hook of packages/cli/lib/utils/proxy-client.js. */
module Frame {

  type byte = x: int | 0 <= x < 256

  /** One lowercase hex digit. */
  function HexDigit(d: nat): (c: char)
    requires d < 16
    ensures ('0' <= c <= '9') || ('a' <= c <= 'f')
  {
    if d < 10 then '0' + d as char else 'a' + (d - 10) as char
  }

  predicate IsHexDigit(c: char) {
    ('0' <= c <= '9') || ('a' <= c <= 'f')
  }

  predicate IsHex(s: string) {
    forall i :: 0 <= i < |s| ==> IsHexDigit(s[i])
  }

  /** `n.toString(16)`: lowercase, no leading zeros, "0" for zero. */
  function ToHex(n: nat): (s: string)
    ensures |s| >= 1 && IsHex(s)
  {
    if n < 16 then [HexDigit(n)] else ToHex(n / 16) + [HexDigit(n % 16)]
  }

  /** The last `w` hex digits of `n`, zero-padded: `n mod 16^w` in `w` digits. */
  function HexFixed(n: nat, w: nat): (s: string)
    ensures |s| == w && IsHex(s)
  {
    if w == 0 then [] else HexFixed(n / 16, w - 1) + [HexDigit(n % 16)]
  }

  function Zeros(w: nat): (s: string)
    ensures |s| == w
    ensures forall i :: 0 <= i < w ==> s[i] == '0'
  {
    if w == 0 then [] else Zeros(w - 1) + ['0']
  }

  /** `(pad + s).slice(-pad.length)` with `pad = "00000000"`. */
  function PadSlice8(s: string): (r: string)
    ensures |r| == 8
  {
    var t := Zeros(8) + s;
    t[|t| - 8..]
  }

  /** `buf.toString("hex")`: two lowercase digits per byte. */
  function HexOfBytes(bs: seq<byte>): (s: string)
    ensures |s| == 2 * |bs| && IsHex(s)
  {
    if bs == [] then [] else HexFixed(bs[0], 2) + HexOfBytes(bs[1..])
  }

  /** `jsonRequestToProxy(payload, def)` with `def.requestSerialize(payload)`
      given as the message bytes: "00", the message length in bytes as
      `toString(16)` cut or padded to eight digits, then the message hex. */
  function RequestFrame(msg: seq<byte>): (r: string)
    ensures |r| == 10 + 2 * |msg|
    ensures r[..2] == "00" && r[10..] == HexOfBytes(msg)
    ensures IsHex(r)
  {
    var body := HexOfBytes(msg);
    var n := ToHex(|body| / 2);
    var r := "00" + PadSlice8(n) + body;
    assert IsHex(r) by {
      var t := Zeros(8) + n;
      assert forall i :: 0 <= i < |t| ==> IsHexDigit(t[i]) by {
        forall i | 0 <= i < |t| ensures IsHexDigit(t[i]) {
          if i >= 8 { assert t[i] == n[i - 8]; }
        }
      }
      var p := PadSlice8(n);
      assert forall i :: 0 <= i < 8 ==> p[i] == t[|t| - 8 + i];
      assert forall i :: 0 <= i < |r| ==> IsHexDigit(r[i]) by {
        forall i | 0 <= i < |r| ensures IsHexDigit(r[i]) {
          if i < 2 { assert r[i] == '0'; }
          else if i < 10 { assert r[i] == p[i - 2]; }
          else { assert r[i] == body[i - 10]; }
        }
      }
    }
    r
  }

  /** `n` as `k` big-endian bytes, i.e. `n mod 256^k`. */
  function BigEndian(n: nat, k: nat): (bs: seq<byte>)
    ensures |bs| == k
  {
    if k == 0 then [] else BigEndian(n / 256, k - 1) + [n % 256]
  }

  /** The value of big-endian bytes, as `parseInt(buf.toString("hex"), 16)` reads them. */
  function BytesValue(bs: seq<byte>): nat {
    if bs == [] then 0 else BytesValue(bs[..|bs| - 1]) * 256 + bs[|bs| - 1]
  }

  function Pow256(k: nat): (p: nat)
    ensures p >= 1
  {
    if k == 0 then 1 else 256 * Pow256(k - 1)
  }

  const MaxLength: nat := 0x1_0000_0000

  /** The binary frame: flag byte 0, four length bytes, the message. */
  function FrameBytes(msg: seq<byte>): (bs: seq<byte>)
    ensures |bs| == 5 + |msg|
  {
    [0] + BigEndian(|msg|, 4) + msg
  }

  /** The response hook's `buf.slice(5, parseInt(buf.slice(1, 5).toString("hex"), 16) + 5)`:
      `slice` clamps the end to the buffer, and a buffer of fewer than five
      bytes gives an empty slice. */
  function Unframe(buf: seq<byte>): (msg: seq<byte>)
    ensures |buf| >= 5 ==> msg == buf[5..if 5 + BytesValue(buf[1..5]) <= |buf| then 5 + BytesValue(buf[1..5]) else |buf|]
    ensures |buf| < 5 ==> msg == []
  {
    if |buf| < 5 then []
    else
      var end := 5 + BytesValue(buf[1..5]);
      buf[5..if end <= |buf| then end else |buf|]
  }

  // ---------------------------------------------------------------------
  // Properties.

  lemma HexFixedZero(w: nat)
    ensures HexFixed(0, w) == Zeros(w)
  {
  }

  /** The last `w` characters of `w` zeros followed by `toString(16)` are the
      `w`-digit hex of `n mod 16^w`. */
  lemma {:induction false} PadSliceIsFixed(n: nat, w: nat)
    ensures var t := Zeros(w) + ToHex(n); t[|t| - w..] == HexFixed(n, w)
  {
    var t := Zeros(w) + ToHex(n);
    if w == 0 {
    } else if n < 16 {
      HexFixedZero(w - 1);
      assert HexFixed(n, w) == HexFixed(0, w - 1) + [HexDigit(n)];
      assert t[|t| - w..] == Zeros(w - 1) + [HexDigit(n)];
    } else {
      PadSliceIsFixed(n / 16, w - 1);
      PadSliceStep(n, w);
    }
  }

  lemma PadSliceStep(n: nat, w: nat)
    requires w > 0 && n >= 16
    requires var t' := Zeros(w - 1) + ToHex(n / 16); t'[|t'| - (w - 1)..] == HexFixed(n / 16, w - 1)
    ensures var t := Zeros(w) + ToHex(n); t[|t| - w..] == HexFixed(n, w)
  {
    var d := HexDigit(n % 16);
    var t' := Zeros(w - 1) + ToHex(n / 16);
    var t := Zeros(w) + ToHex(n);
    ZerosCons(w);
    assert t == ['0'] + t' + [d];
    assert t[|t| - w..] == t'[|t'| - (w - 1)..] + [d];
  }

  lemma {:induction false} ZerosCons(w: nat)
    requires w > 0
    ensures Zeros(w) == ['0'] + Zeros(w - 1)
  {
    if w > 1 {
      ZerosCons(w - 1);
    }
  }

  /** Two hex digits per byte: the hex of a value's bytes is its fixed-width hex. */
  lemma HexFixedSplit(n: nat, a: nat)
    ensures HexFixed(n, a + 2) == HexFixed(n / 256, a) + HexFixed(n % 256, 2)
  {
    assert HexFixed(n, a + 2) == HexFixed(n / 16 / 16, a) + [HexDigit(n / 16 % 16)] + [HexDigit(n % 16)];
    assert n / 16 / 16 == n / 256;
    assert (n % 256) / 16 % 16 == n / 16 % 16;
    assert n % 256 % 16 == n % 16;
    assert HexFixed(n % 256, 2) == HexFixed((n % 256) / 16, 1) + [HexDigit(n % 256 % 16)];
  }

  lemma {:induction false} HexOfBigEndian(n: nat, k: nat)
    ensures HexOfBytes(BigEndian(n, k)) == HexFixed(n, 2 * k)
  {
    if k > 0 {
      HexOfBigEndian(n / 256, k - 1);
      HexFixedSplit(n, 2 * (k - 1));
      HexOfBytesAppend(BigEndian(n / 256, k - 1), [n % 256]);
      assert HexOfBytes([n % 256]) == HexFixed(n % 256, 2);
    }
  }

  lemma {:induction false} HexOfBytesAppend(a: seq<byte>, b: seq<byte>)
    ensures HexOfBytes(a + b) == HexOfBytes(a) + HexOfBytes(b)
  {
    if a != [] {
      assert (a + b)[1..] == a[1..] + b;
      HexOfBytesAppend(a[1..], b);
    } else {
      assert a + b == b;
    }
  }

  /** The hex request frame is the hex of the binary frame: the eight-digit
      length field is exactly the four big-endian length bytes (the length
      taken modulo 2^32 when it does not fit). */
  lemma RequestFrameIsHexOfFrame(msg: seq<byte>)
    ensures RequestFrame(msg) == HexOfBytes(FrameBytes(msg))
  {
    var body := HexOfBytes(msg);
    assert |body| / 2 == |msg|;
    PadSliceIsFixed(|msg|, 8);
    HexOfBigEndian(|msg|, 4);
    HexOfBytesAppend([0] + BigEndian(|msg|, 4), msg);
    HexOfBytesAppend([0], BigEndian(|msg|, 4));
    assert HexOfBytes([0]) == "00";
  }

  lemma {:induction false} BytesValueBigEndian(n: nat, k: nat)
    ensures BytesValue(BigEndian(n, k)) == n % Pow256(k)
  {
    if k > 0 {
      var bs := BigEndian(n, k);
      assert bs[..|bs| - 1] == BigEndian(n / 256, k - 1);
      BytesValueBigEndian(n / 256, k - 1);
      ModStep(n, Pow256(k - 1));
    }
  }

  lemma ModStep(n: nat, p: nat)
    requires p >= 1
    ensures (n / 256) % p * 256 + n % 256 == n % (256 * p)
  {
    var q := n / 256;
    var r := n % 256;
    var a := q / p;
    var b := q % p;
    assert n == a * (256 * p) + (b * 256 + r) by {
      assert n == q * 256 + r;
      assert q == a * p + b;
      assert q * 256 == a * (256 * p) + b * 256;
    }
    ModUnique(n, 256 * p, a, b * 256 + r);
  }

  lemma ModUnique(n: int, m: int, x: int, y: int)
    requires m > 0 && 0 <= y < m && n == x * m + y
    ensures n % m == y
  {
    var d := n / m;
    var k := x - d;
    assert k * m == n % m - y by {
      assert n == d * m + n % m;
      assert k * m == x * m - d * m;
    }
    if k >= 1 {
      MulAtLeast(k, m);
    } else if k <= -1 {
      MulAtLeast(-k, m);
    }
  }

  lemma MulAtLeast(k: int, m: int)
    requires k >= 1 && m > 0
    ensures k * m >= m
  {
    assert k * m == (k - 1) * m + m;
    assert (k - 1) * m >= 0;
  }

  /** Cutting the message out of a frame gives the message back whenever its
      length fits the four-byte field. */
  lemma UnframeRoundTrip(msg: seq<byte>)
    requires |msg| < MaxLength
    ensures Unframe(FrameBytes(msg)) == msg
  {
    var f := FrameBytes(msg);
    assert f[1..5] == BigEndian(|msg|, 4);
    BytesValueBigEndian(|msg|, 4);
    assert Pow256(4) == MaxLength;
    assert f[5..] == msg;
  }

  /** A message of 2^32 bytes or more is cut to its length modulo 2^32. */
  lemma UnframeTruncates(msg: seq<byte>)
    requires |msg| >= MaxLength
    ensures Unframe(FrameBytes(msg)) == msg[..|msg| % MaxLength]
  {
    var f := FrameBytes(msg);
    assert f[1..5] == BigEndian(|msg|, 4);
    BytesValueBigEndian(|msg|, 4);
    assert Pow256(4) == MaxLength;
    assert f[5..5 + |msg| % MaxLength] == msg[..|msg| % MaxLength];
  }
}
