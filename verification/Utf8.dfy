/** UTF-8 (RFC 3629): the byte form of Rust strings. */
module Utf8 {
  import opened Prelude

  type Byte = b: nat | b < 256

  function EncodeChar(c: char): (bytes: seq<Byte>)
    ensures 1 <= |bytes| <= 4
  {
    var cp := c as int;
    if cp < 0x80 then [cp]
    else if cp < 0x800 then [0xC0 + cp / 64, 0x80 + cp % 64]
    else if cp < 0x1_0000 then [0xE0 + cp / 4096, 0x80 + cp / 64 % 64, 0x80 + cp % 64]
    else [0xF0 + cp / 262144, 0x80 + cp / 4096 % 64, 0x80 + cp / 64 % 64, 0x80 + cp % 64]
  }

  function Encode(s: string): seq<Byte> {
    if s == [] then [] else EncodeChar(s[0]) + Encode(s[1..])
  }

  /** Rust's `str::len`. */
  function Length(s: string): nat {
    |Encode(s)|
  }

  /** The examples of section 7 of RFC 3629. */
  lemma Vectors()
    ensures Encode("A\U{2262}\U{391}.") == [0x41, 0xE2, 0x89, 0xA2, 0xCE, 0x91, 0x2E]
    ensures Encode("\U{233B4}") == [0xF0, 0xA3, 0x8E, 0xB4]
  {}

  lemma {:induction false} BytesPerChar(s: string)
    ensures |s| <= Length(s) <= 4 * |s|
  {
    if s != [] { BytesPerChar(s[1..]); }
  }

  predicate IsContinuation(b: Byte) {
    0x80 <= b < 0xC0
  }

  /** The six bits a continuation byte carries. */
  function Payload(b: Byte): int {
    b % 64
  }

  predicate IsScalar(cp: nat) {
    cp < 0xD800 || 0xE000 <= cp < 0x11_0000
  }

  /** The shortest-form scalar at the front, and how many bytes it took. */
  function DecodeChar(bytes: seq<Byte>): Option<(char, nat)>
    requires bytes != []
  {
    var b: int := bytes[0];
    if b < 0x80 then Some((b as char, 1))
    else if 0xC0 <= b < 0xE0 && |bytes| >= 2 && IsContinuation(bytes[1]) then
      var cp := (b - 0xC0) * 64 + Payload(bytes[1]);
      if cp >= 0x80 then Some((cp as char, 2)) else None
    else if 0xE0 <= b < 0xF0 && |bytes| >= 3 && IsContinuation(bytes[1]) && IsContinuation(bytes[2]) then
      var cp := (b - 0xE0) * 4096 + Payload(bytes[1]) * 64 + Payload(bytes[2]);
      if cp >= 0x800 && IsScalar(cp) then Some((cp as char, 3)) else None
    else if 0xF0 <= b < 0xF8 && |bytes| >= 4 && IsContinuation(bytes[1]) &&
         IsContinuation(bytes[2]) && IsContinuation(bytes[3]) then
      var cp := (b - 0xF0) * 262144 + Payload(bytes[1]) * 4096 + Payload(bytes[2]) * 64 + Payload(bytes[3]);
      if cp >= 0x1_0000 && IsScalar(cp) then Some((cp as char, 4)) else None
    else None
  }

  function Decode(bytes: seq<Byte>): Option<string> {
    if bytes == [] then Some([]) else
      match DecodeChar(bytes)
      case None => None
      case Some((c, n)) =>
        if n == 0 || n > |bytes| then None else
          match Decode(bytes[n..])
          case None => None
          case Some(rest) => Some([c] + rest)
  }

  lemma CharRoundTrip(c: char, rest: seq<Byte>)
    ensures DecodeChar(EncodeChar(c) + rest) == Some((c, |EncodeChar(c)|))
  {
    var cp, bytes := c as int, EncodeChar(c) + rest;
    if cp >= 0x80 {
      SixBits(cp);
      if cp >= 0x800 {
        SixBits(cp / 64);
        assert cp / 64 / 64 == cp / 4096;
        if cp >= 0x1_0000 {
          SixBits(cp / 4096);
          assert cp / 4096 / 64 == cp / 262144;
          FourBytes(cp, bytes);
        } else {
          ThreeBytes(cp, bytes);
        }
      } else {
        assert bytes[0] == 0xC0 + cp / 64 && bytes[1] == 0x80 + cp % 64;
      }
    }
  }

  lemma ThreeBytes(cp: nat, bytes: seq<Byte>)
    requires 0x800 <= cp < 0x1_0000 && IsScalar(cp) && |bytes| >= 3
    requires bytes[0] == 0xE0 + cp / 4096 && bytes[1] == 0x80 + cp / 64 % 64 && bytes[2] == 0x80 + cp % 64
    ensures DecodeChar(bytes) == Some((cp as char, 3))
  {
    SixBits(cp);
    SixBits(cp / 64);
    assert (bytes[0] as int - 0xE0) * 4096 + Payload(bytes[1]) * 64 + Payload(bytes[2]) == cp;
  }

  lemma FourBytes(cp: nat, bytes: seq<Byte>)
    requires 0x1_0000 <= cp < 0x11_0000 && |bytes| >= 4
    requires bytes[0] == 0xF0 + cp / 262144 && bytes[1] == 0x80 + cp / 4096 % 64
    requires bytes[2] == 0x80 + cp / 64 % 64 && bytes[3] == 0x80 + cp % 64
    ensures DecodeChar(bytes) == Some((cp as char, 4))
  {
    SixBits(cp);
    SixBits(cp / 64);
    SixBits(cp / 4096);
    assert (bytes[0] as int - 0xF0) * 262144 + Payload(bytes[1]) * 4096 +
             Payload(bytes[2]) * 64 + Payload(bytes[3]) == cp;
  }

  lemma SixBits(n: nat)
    ensures n == n / 64 * 64 + n % 64
    ensures n / 64 / 64 == n / 4096 && n / 4096 / 64 == n / 262144
    ensures (0x80 + n % 64) % 64 == n % 64
  {}

  lemma {:induction false} RoundTrip(s: string)
    ensures Decode(Encode(s)) == Some(s)
  {
    if s != [] {
      var head, rest := EncodeChar(s[0]), Encode(s[1..]);
      CharRoundTrip(s[0], rest);
      assert (head + rest)[|head|..] == rest;
      RoundTrip(s[1..]);
      assert s == [s[0]] + s[1..];
    }
  }

  lemma Injective(s: string, t: string)
    requires Encode(s) == Encode(t)
    ensures s == t
  {
    RoundTrip(s);
    RoundTrip(t);
  }

  lemma {:induction false} EncodeConcat(s: string, t: string)
    ensures Encode(s + t) == Encode(s) + Encode(t)
  {
    if s == [] {
      assert s + t == t;
    } else {
      assert (s + t)[1..] == s[1..] + t;
      EncodeConcat(s[1..], t);
    }
  }

  lemma LastDigit(high: nat, low: nat)
    requires low < 64
    ensures (high * 64 + low) / 64 == high && (high * 64 + low) % 64 == low
  {}

  /** Two, three and four six-bit digits are read back by division. */
  lemma Digits(w: nat, x: nat, y: nat, z: nat)
    requires x < 64 && y < 64 && z < 64
    ensures (w * 64 + z) / 64 == w && (w * 64 + z) % 64 == z
    ensures (w * 4096 + y * 64 + z) / 4096 == w && (w * 4096 + y * 64 + z) / 64 % 64 == y &&
            (w * 4096 + y * 64 + z) % 64 == z
    ensures
      var cp := w * 262144 + x * 4096 + y * 64 + z;
      cp / 262144 == w && cp / 4096 % 64 == x && cp / 64 % 64 == y && cp % 64 == z
  {
    LastDigit(w, z);
    LastDigit(w * 64 + y, z);
    LastDigit(w, y);
    LastDigit((w * 64 + x) * 64 + y, z);
    LastDigit(w * 64 + x, y);
    LastDigit(w, x);
    SixBits(w * 4096 + y * 64 + z);
    SixBits(w * 262144 + x * 4096 + y * 64 + z);
  }

  /** Only the shortest form of a scalar is accepted. */
  lemma CharIsStrict(bytes: seq<Byte>, c: char, n: nat)
    requires bytes != [] && DecodeChar(bytes) == Some((c, n))
    ensures n <= |bytes| && bytes[..n] == EncodeChar(c)
  {
    var b: int := bytes[0];
    if b < 0x80 {
      assert bytes[..1] == [b];
    } else if b < 0xE0 {
      Digits(b - 0xC0, 0, 0, bytes[1] - 0x80);
      assert bytes[..2] == [bytes[0], bytes[1]];
    } else if b < 0xF0 {
      ThreeStrict(bytes, c);
    } else {
      FourStrict(bytes, c);
    }
  }

  lemma PayloadOf(b: Byte)
    requires IsContinuation(b)
    ensures Payload(b) == b - 0x80
  {}

  lemma ThreeStrict(bytes: seq<Byte>, c: char)
    requires bytes != [] && 0xE0 <= bytes[0] < 0xF0 && DecodeChar(bytes) == Some((c, 3))
    ensures bytes[..3] == EncodeChar(c)
  {
    var w: nat, y: nat, z: nat := bytes[0] - 0xE0, bytes[1] - 0x80, bytes[2] - 0x80;
    PayloadOf(bytes[1]);
    PayloadOf(bytes[2]);
    Digits(w, 0, y, z);
    assert c as int == w * 4096 + y * 64 + z;
    assert bytes[..3] == [bytes[0], bytes[1], bytes[2]];
  }

  lemma FourStrict(bytes: seq<Byte>, c: char)
    requires bytes != [] && 0xF0 <= bytes[0] < 0xF8 && DecodeChar(bytes) == Some((c, 4))
    ensures bytes[..4] == EncodeChar(c)
  {
    var w: nat, x: nat, y: nat, z: nat := bytes[0] - 0xF0, bytes[1] - 0x80, bytes[2] - 0x80, bytes[3] - 0x80;
    PayloadOf(bytes[1]);
    PayloadOf(bytes[2]);
    PayloadOf(bytes[3]);
    Digits(w, x, y, z);
    assert c as int == w * 262144 + x * 4096 + y * 64 + z;
    assert bytes[..4] == [bytes[0], bytes[1], bytes[2], bytes[3]];
  }

  lemma {:induction false} DecodeIsStrict(bytes: seq<Byte>, s: string)
    requires Decode(bytes) == Some(s)
    ensures bytes == Encode(s)
  {
    if bytes != [] {
      var (c, n) := DecodeChar(bytes).value;
      CharIsStrict(bytes, c, n);
      FirstDecoded(bytes, s, c, n);
      DecodeIsStrict(bytes[n..], s[1..]);
      EncodeFirst(s);
      assert bytes == bytes[..n] + bytes[n..];
    }
  }

  lemma EncodeFirst(s: string)
    requires s != []
    ensures Encode(s) == EncodeChar(s[0]) + Encode(s[1..])
  {}

  lemma FirstDecoded(bytes: seq<Byte>, s: string, c: char, n: nat)
    requires bytes != [] && Decode(bytes) == Some(s) && DecodeChar(bytes) == Some((c, n))
    ensures s != [] && s[0] == c && 0 < n <= |bytes| && Decode(bytes[n..]) == Some(s[1..])
  {}
}
