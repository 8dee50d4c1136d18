/** The byte layouts that the signature preimages are assembled from: Rust's
    `to_be_bytes` on fixed-width integers and `str::as_bytes` (UTF-8). */
module Encoding {

  import opened Wrappers
  import opened Numbers

  type byte = b: int | 0 <= b < 256

  /** 256 to the power n. */
  function Pow256(n: nat): (r: nat)
    ensures r >= 1
  {
    if n == 0 then 1 else 256 * Pow256(n - 1)
  }

  // ---------------------------------------------------------------------------
  // Fixed-width integers, big-endian, two's complement
  // ---------------------------------------------------------------------------

  /** `to_be_bytes` of an integer `width` bytes wide: the big-endian bytes of
      x modulo 256^width, which is the two's-complement form for negative x. */
  function BeBytes(x: int, width: nat): (b: seq<byte>)
    ensures |b| == width
    decreases width
  {
    if width == 0 then [] else BeBytes(x / 256, width - 1) + [x % 256]
  }

  /** Reads big-endian bytes back as an unsigned number. */
  function FromBeBytes(b: seq<byte>): (n: nat)
  {
    if b == [] then 0 else FromBeBytes(b[..|b| - 1]) * 256 + b[|b| - 1]
  }

  /** Reads an unsigned number of `width` bytes as a two's-complement value. */
  function ToSigned(u: nat, width: nat): int
  {
    if 2 * u >= Pow256(width) then u - Pow256(width) else u
  }

  /** The range of a signed integer `width` bytes wide. */
  predicate InSignedRange(x: int, width: nat)
  {
    -(Pow256(width) as int) <= 2 * x < Pow256(width)
  }

  /** `i64::to_be_bytes`. */
  function I64Bytes(x: int): (b: seq<byte>)
    ensures |b| == 8
  {
    BeBytes(x, 8)
  }

  /** `i32::to_be_bytes`. */
  function I32Bytes(x: int): (b: seq<byte>)
    ensures |b| == 4
  {
    BeBytes(x, 4)
  }

  /** Decoding the big-endian bytes gives back x modulo 256^width. */
  lemma {:induction false} BeBytesRoundTrip(x: int, width: nat)
    ensures FromBeBytes(BeBytes(x, width)) == x % Pow256(width)
    decreases width
  {
    if width > 0 {
      var b := BeBytes(x, width);
      assert b[..|b| - 1] == BeBytes(x / 256, width - 1);
      BeBytesRoundTrip(x / 256, width - 1);
      ModOfShift(x, Pow256(width - 1));
    }
  }

  /** Peeling off the last byte: x modulo 256·p is 256 times (x / 256)
      modulo p, plus the last byte. */
  lemma ModOfShift(x: int, p: int)
    requires p >= 1
    ensures x % (256 * p) == 256 * ((x / 256) % p) + x % 256
  {
    var q := x / 256;
    var r := x % 256;
    var m := q % p;
    var k := q / p;
    assert q == p * k + m;
    assert x == 256 * q + r;
    assert x == (256 * p) * k + (256 * m + r) by {
      assert 256 * q == 256 * (p * k) + 256 * m;
      assert 256 * (p * k) == (256 * p) * k;
    }
    assert 0 <= 256 * m + r < 256 * p;
    ModOfDecomposition(x, 256 * p, k, 256 * m + r);
  }

  /** For a value in the signed range, the bytes decode back to the value:
      `from_be_bytes(x.to_be_bytes()) == x`. */
  lemma SignedRoundTrip(x: int, width: nat)
    requires InSignedRange(x, width)
    ensures ToSigned(FromBeBytes(BeBytes(x, width)), width) == x
  {
    BeBytesRoundTrip(x, width);
    var p := Pow256(width);
    if x >= 0 {
      ModOfDecomposition(x, p, 0, x);
    } else {
      ModOfDecomposition(x, p, -1, x + p);
    }
  }

  /** Distinct in-range values have distinct byte forms. */
  lemma BeBytesInjective(x: int, y: int, width: nat)
    requires InSignedRange(x, width) && InSignedRange(y, width)
    requires BeBytes(x, width) == BeBytes(y, width)
    ensures x == y
  {
    SignedRoundTrip(x, width);
    SignedRoundTrip(y, width);
  }

  /** An `i64` is in the range of 8 signed bytes, an `i32` in that of 4. */
  lemma I64InRange(x: i64)
    ensures InSignedRange(x, 8)
  {
    assert Pow256(8) == 0x1_0000_0000_0000_0000;
  }

  lemma I32InRange(x: i32)
    ensures InSignedRange(x, 4)
  {
    assert Pow256(4) == 0x1_0000_0000;
  }

  /** Concatenation regroups. */
  lemma AppendAssoc(a: seq<byte>, b: seq<byte>, c: seq<byte>)
    ensures a + b + c == a + (b + c)
  {
  }

  /** The fifth of eight concatenated parts sits right after the first four. */
  lemma FifthOfEight(a: seq<byte>, b: seq<byte>, c: seq<byte>, d: seq<byte>,
                     e: seq<byte>, f: seq<byte>, g: seq<byte>, h: seq<byte>)
    ensures var p, k := a + b + c + d + e + f + g + h, |a + b + c + d|;
      k + |e| <= |p| && p[k..k + |e|] == e
  {
    var p, k := a + b + c + d + e + f + g + h, |a + b + c + d|;
    forall j | k <= j < k + |e|
      ensures p[j] == e[j - k]
    {
    }
  }

  /** The second of seven concatenated parts sits right after the first. */
  lemma SecondOfSeven(a: seq<byte>, b: seq<byte>, c: seq<byte>, d: seq<byte>,
                      e: seq<byte>, f: seq<byte>, g: seq<byte>)
    ensures var p := a + b + c + d + e + f + g;
      |a| + |b| <= |p| && p[|a|..|a| + |b|] == b
  {
    var p := a + b + c + d + e + f + g;
    forall j | |a| <= j < |a| + |b|
      ensures p[j] == b[j - |a|]
    {
    }
  }

  /** A fixed-width field inside a longer byte string decodes back to its
      value: reading `width` bytes at the field's offset k gives x. */
  lemma DecodesAt(p: seq<byte>, k: nat, x: int, width: nat)
    requires InSignedRange(x, width)
    requires k + width <= |p| && p[k..k + width] == BeBytes(x, width)
    ensures ToSigned(FromBeBytes(p[k..k + width]), width) == x
  {
    SignedRoundTrip(x, width);
  }

  // ---------------------------------------------------------------------------
  // UTF-8 (`str::as_bytes`)
  // ---------------------------------------------------------------------------

  /** The UTF-8 encoding of one Unicode scalar value (one to four bytes). */
  function CharUtf8(c: char): (b: seq<byte>)
    ensures 1 <= |b| <= 4
  {
    var n := c as int;
    var q1 := n / 64;
    var q2 := q1 / 64;
    if n < 0x80 then [n]
    else if n < 0x800 then [0xC0 + q1, 0x80 + n % 64]
    else if n < 0x1_0000 then [0xE0 + q2, 0x80 + q1 % 64, 0x80 + n % 64]
    else [0xF0 + q2 / 64, 0x80 + q2 % 64, 0x80 + q1 % 64, 0x80 + n % 64]
  }

  /** `s.as_bytes()`: the UTF-8 encoding of a string. */
  function Utf8(s: string): (b: seq<byte>)
    ensures |b| >= |s|
    ensures s == [] <==> b == []
  {
    if s == [] then [] else CharUtf8(s[0]) + Utf8(s[1..])
  }

  /** Encoding distributes over concatenation, so appending the encodings of
      several fields equals encoding the fields' concatenation. */
  lemma {:induction false} Utf8Concat(a: string, b: string)
    ensures Utf8(a + b) == Utf8(a) + Utf8(b)
  {
    if a != [] {
      assert (a + b)[0] == a[0];
      assert (a + b)[1..] == a[1..] + b;
      Utf8Concat(a[1..], b);
      calc {
        Utf8(a + b);
        CharUtf8(a[0]) + Utf8(a[1..] + b);
        CharUtf8(a[0]) + (Utf8(a[1..]) + Utf8(b));
        (CharUtf8(a[0]) + Utf8(a[1..])) + Utf8(b);
        Utf8(a) + Utf8(b);
      }
    } else {
      assert a + b == b;
    }
  }

  /** A continuation byte's payload, if `x` is a continuation byte. */
  predicate IsContinuation(x: byte)
  {
    0x80 <= x < 0xC0
  }

  /** Decodes one UTF-8 sequence at the front of b, returning the character
      and the number of bytes it used. */
  function DecodeChar(b: seq<byte>): (r: (char, nat))
    requires b != []
    ensures 1 <= r.1 <= |b| || r.1 == 0
  {
    var b0: int := b[0];
    if b0 < 0x80 then (b0 as char, 1)
    else if 0xC0 <= b0 < 0xE0 && |b| >= 2 && IsContinuation(b[1]) then
      var n := (b0 - 0xC0) * 64 + (b[1] as int - 0x80);
      (n as char, 2)
    else if 0xE0 <= b0 < 0xF0 && |b| >= 3 && IsContinuation(b[1]) && IsContinuation(b[2]) then
      var n := ((b0 - 0xE0) * 64 + (b[1] as int - 0x80)) * 64 + (b[2] as int - 0x80);
      if n < 0xD800 || 0xE000 <= n then (n as char, 3) else (' ', 0)
    else if 0xF0 <= b0 < 0xF5 && |b| >= 4 && IsContinuation(b[1]) && IsContinuation(b[2])
            && IsContinuation(b[3]) then
      var n := (((b0 - 0xF0) * 64 + (b[1] as int - 0x80)) * 64 + (b[2] as int - 0x80)) * 64
               + (b[3] as int - 0x80);
      if 0x1_0000 <= n < 0x11_0000 then (n as char, 4) else (' ', 0)
    else (' ', 0)
  }

  /** Decodes a whole byte string; None when it is not well-formed. */
  function DecodeUtf8(b: seq<byte>): (r: Option<string>)
    decreases |b|
  {
    if b == [] then Some([])
    else
      var (c, k) := DecodeChar(b);
      if k == 0 then None
      else match DecodeUtf8(b[k..])
        case None => None
        case Some(rest) => Some([c] + rest)
  }

  lemma DecodeCharUtf8(c: char, rest: seq<byte>)
    ensures DecodeChar(CharUtf8(c) + rest) == (c, |CharUtf8(c)|)
  {
    var n := c as int;
    var q1 := n / 64;
    var q2 := q1 / 64;
    assert n == q1 * 64 + n % 64;
    assert q1 == q2 * 64 + q1 % 64;
    assert q2 == (q2 / 64) * 64 + q2 % 64;
    var b := CharUtf8(c) + rest;
    if n < 0x80 {
    } else if n < 0x800 {
      assert b[0] == 0xC0 + q1 && b[1] == 0x80 + n % 64;
    } else if n < 0x1_0000 {
      assert b[0] == 0xE0 + q2 && b[1] == 0x80 + q1 % 64 && b[2] == 0x80 + n % 64;
    } else {
      assert b[0] == 0xF0 + q2 / 64 && b[1] == 0x80 + q2 % 64;
      assert b[2] == 0x80 + q1 % 64 && b[3] == 0x80 + n % 64;
    }
  }

  /** The encoding of a string decodes back to the string, so the UTF-8 form
      loses no information (it is injective). */
  lemma {:induction false} Utf8RoundTrip(s: string)
    ensures DecodeUtf8(Utf8(s)) == Some(s)
  {
    if s != [] {
      var b := Utf8(s);
      DecodeCharUtf8(s[0], Utf8(s[1..]));
      assert b[|CharUtf8(s[0])|..] == Utf8(s[1..]);
      Utf8RoundTrip(s[1..]);
      assert [s[0]] + s[1..] == s;
    }
  }
}
