/**
 Base64 as the code uses it: section 4 of RFC 4648 with padding (derived-channel filters)
 and section 5, the URL-safe alphabet, without padding (cache keys and cursors).
 */
module Base64 {
  import opened Prelude
  import opened Utf8

  datatype Variant = Standard | UrlSafeNoPad

  predicate Padded(v: Variant) {
    v.Standard?
  }

  function Symbol(v: Variant, n: nat): char
    requires n < 64
  {
    if n < 26 then ('A' as int + n) as char
    else if n < 52 then ('a' as int + n - 26) as char
    else if n < 62 then ('0' as int + n - 52) as char
    else if n == 62 then (if v.Standard? then '+' else '-')
    else (if v.Standard? then '/' else '_')
  }

  /** The six-bit value of a symbol; 64 for anything else. */
  function ValueOf(v: Variant, c: char): (n: nat)
    ensures n <= 64
    ensures n < 64 ==> Symbol(v, n) == c
  {
    if 'A' <= c <= 'Z' then c as int - 'A' as int
    else if 'a' <= c <= 'z' then c as int - 'a' as int + 26
    else if '0' <= c <= '9' then c as int - '0' as int + 52
    else if c == (if v.Standard? then '+' else '-') then 62
    else if c == (if v.Standard? then '/' else '_') then 63
    else 64
  }

  lemma SymbolRoundTrip(v: Variant, n: nat)
    requires n < 64
    ensures ValueOf(v, Symbol(v, n)) == n
  {}

  function EncodeTail(v: Variant, b: seq<Byte>): string
    requires |b| < 3
  {
    if |b| == 0 then ""
    else if |b| == 1 then
      [Symbol(v, b[0] / 4), Symbol(v, b[0] % 4 * 16)] + if Padded(v) then "==" else ""
    else
      [Symbol(v, b[0] / 4), Symbol(v, b[0] % 4 * 16 + b[1] / 16), Symbol(v, b[1] % 16 * 4)] +
      if Padded(v) then "=" else ""
  }

  function EncodeGroup(v: Variant, x: Byte, y: Byte, z: Byte): string {
    [Symbol(v, x / 4), Symbol(v, x % 4 * 16 + y / 16), Symbol(v, y % 16 * 4 + z / 64), Symbol(v, z % 64)]
  }

  function Encode(v: Variant, b: seq<Byte>): string {
    if |b| < 3 then EncodeTail(v, b) else EncodeGroup(v, b[0], b[1], b[2]) + Encode(v, b[3..])
  }

  /** The examples of section 10 of RFC 4648, and one that tells the alphabets apart. */
  lemma Vectors()
    ensures Encode(Standard, [0x66]) == "Zg==" && Encode(Standard, [0x66, 0x6F]) == "Zm8="
    ensures Encode(Standard, [0x66, 0x6F, 0x6F]) == "Zm9v"
    ensures Encode(Standard, [0xFB, 0xFF]) == "+/8=" && Encode(UrlSafeNoPad, [0xFB, 0xFF]) == "-_8"
  {}

  /** The end of the text: nothing, or one short group whose spare bits are zero. */
  function DecodeTail(v: Variant, s: string): Option<seq<Byte>> {
    if s == [] then Some([])
    else if |s| < 2 then None
    else
      var a, b := ValueOf(v, s[0]), ValueOf(v, s[1]);
      if a == 64 || b == 64 then None
      else if s[2..] == (if Padded(v) then "==" else "") then
        if b % 16 == 0 then Some([a * 4 + b / 16]) else None
      else if |s| >= 3 && s[3..] == (if Padded(v) then "=" else "") then
        var c := ValueOf(v, s[2]);
        if c < 64 && c % 4 == 0 then Some([a * 4 + b / 16, b % 16 * 16 + c / 4]) else None
      else None
  }

  function DecodeGroup(v: Variant, g: string): Option<seq<Byte>>
    requires |g| == 4
  {
    var a, b, c, d := ValueOf(v, g[0]), ValueOf(v, g[1]), ValueOf(v, g[2]), ValueOf(v, g[3]);
    if a == 64 || b == 64 || c == 64 || d == 64 then None
    else Some([a * 4 + b / 16, b % 16 * 16 + c / 4, c % 4 * 64 + d])
  }

  function Decode(v: Variant, s: string): Option<seq<Byte>> {
    if |s| < 4 || DecodeGroup(v, s[..4]).None? then DecodeTail(v, s)
    else
      match Decode(v, s[4..])
      case None => None
      case Some(rest) => Some(DecodeGroup(v, s[..4]).value + rest)
  }

  /** Regrouping three bytes as four six-bit values and back. */
  lemma Regroup(x: Byte, y: Byte, z: Byte)
    ensures
      var a, b, c, d := x / 4, x % 4 * 16 + y / 16, y % 16 * 4 + z / 64, z % 64;
      && a < 64 && b < 64 && c < 64
      && a * 4 + b / 16 == x && b % 16 * 16 + c / 4 == y && c % 4 * 64 + d == z
  {
    SplitAt(x % 4, y / 16, 16);
    SplitAt(y % 16, z / 64, 4);
  }

  lemma SplitAt(q: nat, r: nat, d: nat)
    requires r < d && (d == 16 || d == 4)
    ensures (q * d + r) / d == q && (q * d + r) % d == r
  {}

  /** The same in the other direction. */
  lemma Ungroup(a: nat, b: nat, c: nat, d: nat)
    requires a < 64 && b < 64 && c < 64 && d < 64
    ensures
      var x, y, z := a * 4 + b / 16, b % 16 * 16 + c / 4, c % 4 * 64 + d;
      && x < 256 && y < 256 && z < 256
      && x / 4 == a && x % 4 * 16 + y / 16 == b && y % 16 * 4 + z / 64 == c && z % 64 == d
  {}

  lemma DecodeSymbols(v: Variant, a: nat, b: nat, c: nat, d: nat, x: Byte, y: Byte, z: Byte)
    requires a < 64 && b < 64 && c < 64 && d < 64
    requires a * 4 + b / 16 == x && b % 16 * 16 + c / 4 == y && c % 4 * 64 + d == z
    ensures DecodeGroup(v, [Symbol(v, a), Symbol(v, b), Symbol(v, c), Symbol(v, d)]) == Some([x, y, z])
  {
    SymbolRoundTrip(v, a);
    SymbolRoundTrip(v, b);
    SymbolRoundTrip(v, c);
    SymbolRoundTrip(v, d);
  }

  /** The four values of a group of three bytes. */
  lemma Sextets(v: Variant, x: Byte, y: Byte, z: Byte) returns (a: nat, b: nat, c: nat, d: nat)
    ensures a < 64 && b < 64 && c < 64 && d < 64
    ensures a * 4 + b / 16 == x && b % 16 * 16 + c / 4 == y && c % 4 * 64 + d == z
    ensures EncodeGroup(v, x, y, z) == [Symbol(v, a), Symbol(v, b), Symbol(v, c), Symbol(v, d)]
  {
    Regroup(x, y, z);
    a, b, c, d := x / 4, x % 4 * 16 + y / 16, y % 16 * 4 + z / 64, z % 64;
  }

  lemma GroupRoundTrip(v: Variant, x: Byte, y: Byte, z: Byte)
    ensures DecodeGroup(v, EncodeGroup(v, x, y, z)) == Some([x, y, z])
  {
    var a, b, c, d := Sextets(v, x, y, z);
    DecodeSymbols(v, a, b, c, d, x, y, z);
  }

  /** Short or padded text is a tail. */
  lemma TailText(v: Variant, s: string)
    requires |s| < 4 || s[3] == '='
    ensures Decode(v, s) == DecodeTail(v, s)
  {
    if |s| >= 4 { assert s[..4][3] == '='; }
  }

  lemma OneByteTail(v: Variant, x: Byte)
    ensures DecodeTail(v, EncodeTail(v, [x])) == Some([x])
  {
    var s := EncodeTail(v, [x]);
    Regroup(x, 0, 0);
    SymbolRoundTrip(v, x / 4);
    SymbolRoundTrip(v, x % 4 * 16);
    assert s[2..] == if Padded(v) then "==" else "";
    assert (x % 4 * 16) % 16 == 0;
  }

  /** A tail of three symbols, `c` standing for a value with two spare zero bits. */
  lemma ThreeSymbolTail(v: Variant, a: nat, b: nat, c: nat, x: Byte, y: Byte)
    requires a < 64 && b < 64 && c < 64 && c % 4 == 0
    requires a * 4 + b / 16 == x && b % 16 * 16 + c / 4 == y
    ensures DecodeTail(v, [Symbol(v, a), Symbol(v, b), Symbol(v, c)] + if Padded(v) then "=" else "") == Some([x, y])
  {
    var s := [Symbol(v, a), Symbol(v, b), Symbol(v, c)] + if Padded(v) then "=" else "";
    SymbolRoundTrip(v, a);
    SymbolRoundTrip(v, b);
    SymbolRoundTrip(v, c);
    assert s[2] != '=' && s[3..] == if Padded(v) then "=" else "";
    assert s[2..] != if Padded(v) then "==" else "" by { assert s[2..][0] == s[2]; }
  }

  /** The three values of a tail of two bytes. */
  lemma TailSextets(v: Variant, x: Byte, y: Byte) returns (a: nat, b: nat, c: nat)
    ensures a < 64 && b < 64 && c < 64 && c % 4 == 0
    ensures a * 4 + b / 16 == x && b % 16 * 16 + c / 4 == y
    ensures EncodeTail(v, [x, y]) == [Symbol(v, a), Symbol(v, b), Symbol(v, c)] + if Padded(v) then "=" else ""
  {
    Regroup(x, y, 0);
    a, b, c := x / 4, x % 4 * 16 + y / 16, y % 16 * 4;
  }

  lemma TwoByteTail(v: Variant, x: Byte, y: Byte)
    ensures DecodeTail(v, EncodeTail(v, [x, y])) == Some([x, y])
  {
    var a, b, c := TailSextets(v, x, y);
    ThreeSymbolTail(v, a, b, c, x, y);
  }

  lemma TailRoundTrip(v: Variant, b: seq<Byte>)
    requires |b| < 3
    ensures Decode(v, EncodeTail(v, b)) == Some(b)
  {
    TailText(v, EncodeTail(v, b));
    if |b| == 1 {
      OneByteTail(v, b[0]);
      assert b == [b[0]];
    } else if |b| == 2 {
      TwoByteTail(v, b[0], b[1]);
      assert b == [b[0], b[1]];
    }
  }

  lemma GroupFirst(v: Variant, x: Byte, y: Byte, z: Byte, text: string, rest: seq<Byte>)
    requires Decode(v, text) == Some(rest)
    ensures Decode(v, EncodeGroup(v, x, y, z) + text) == Some([x, y, z] + rest)
  {
    var group := EncodeGroup(v, x, y, z);
    GroupRoundTrip(v, x, y, z);
    assert (group + text)[..4] == group && (group + text)[4..] == text;
  }

  lemma EncodeSplits(v: Variant, b: seq<Byte>)
    requires |b| >= 3
    ensures Encode(v, b) == EncodeGroup(v, b[0], b[1], b[2]) + Encode(v, b[3..])
    ensures b == [b[0], b[1], b[2]] + b[3..]
  {}

  lemma {:induction false} RoundTrip(v: Variant, b: seq<Byte>)
    ensures Decode(v, Encode(v, b)) == Some(b)
  {
    if |b| < 3 {
      TailRoundTrip(v, b);
    } else {
      RoundTrip(v, b[3..]);
      EncodeSplits(v, b);
      GroupFirst(v, b[0], b[1], b[2], Encode(v, b[3..]), b[3..]);
    }
  }

  lemma GroupIsStrict(v: Variant, g: string, x: Byte, y: Byte, z: Byte)
    requires |g| == 4 && DecodeGroup(v, g) == Some([x, y, z])
    ensures g == EncodeGroup(v, x, y, z)
  {
    var a, b, c, d := ValueOf(v, g[0]), ValueOf(v, g[1]), ValueOf(v, g[2]), ValueOf(v, g[3]);
    var bytes := DecodeGroup(v, g).value;
    assert x == bytes[0] && y == bytes[1] && z == bytes[2];
    Ungroup(a, b, c, d);
  }

  lemma TailIsStrict(v: Variant, s: string, b: seq<Byte>)
    requires DecodeTail(v, s) == Some(b)
    ensures |b| < 3 && s == EncodeTail(v, b)
  {
    if s != [] {
      var x, y := ValueOf(v, s[0]), ValueOf(v, s[1]);
      if |b| == 1 {
        Ungroup(x, y, 0, 0);
        assert s == [s[0], s[1]] + s[2..];
      } else {
        Ungroup(x, y, ValueOf(v, s[2]), 0);
        assert s == [s[0], s[1], s[2]] + s[3..];
      }
    }
  }

  /** The decoder is strict: the only text it accepts for given bytes is their encoding. */
  lemma {:induction false} DecodeIsStrict(v: Variant, s: string, b: seq<Byte>)
    requires Decode(v, s) == Some(b)
    ensures s == Encode(v, b)
    decreases |s|
  {
    if |s| < 4 || DecodeGroup(v, s[..4]).None? {
      TailIsStrict(v, s, b);
    } else {
      var rest := Decode(v, s[4..]).value;
      DecodeIsStrict(v, s[4..], rest);
      assert b[3..] == rest && b == [b[0], b[1], b[2]] + rest;
      GroupIsStrict(v, s[..4], b[0], b[1], b[2]);
      assert s == s[..4] + s[4..];
    }
  }

  predicate IsText(v: Variant, c: char) {
    ValueOf(v, c) < 64 || (Padded(v) && c == '=')
  }

  /** Only alphabet symbols (and padding) occur in encoded text. */
  lemma {:induction false} EncodedText(v: Variant, b: seq<Byte>)
    ensures forall i | 0 <= i < |Encode(v, b)| :: IsText(v, Encode(v, b)[i])
  {
    if |b| >= 3 {
      EncodedText(v, b[3..]);
      SymbolRoundTrip(v, b[0] / 4);
      SymbolRoundTrip(v, b[0] % 4 * 16 + b[1] / 16);
      SymbolRoundTrip(v, b[1] % 16 * 4 + b[2] / 64);
      SymbolRoundTrip(v, b[2] % 64);
    } else if |b| == 1 {
      SymbolRoundTrip(v, b[0] / 4);
      SymbolRoundTrip(v, b[0] % 4 * 16);
    } else if |b| == 2 {
      SymbolRoundTrip(v, b[0] / 4);
      SymbolRoundTrip(v, b[0] % 4 * 16 + b[1] / 16);
      SymbolRoundTrip(v, b[1] % 16 * 4);
    }
  }

  lemma {:induction false} EncodedLength(v: Variant, b: seq<Byte>)
    ensures 3 * |Encode(v, b)| <= 4 * |b| + 8
    ensures b != [] ==> Encode(v, b) != []
  {
    if |b| >= 3 { EncodedLength(v, b[3..]); }
  }
}
