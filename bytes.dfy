/** Byte-level encodings shared by the PDF and ZIP writers: Node's
    `Buffer.from(s, 'utf8')` and the little-endian `writeUInt16LE` /
    `writeUInt32LE` field writers. */
module Bytes {

  /** An octet, as Node's Buffer holds it. */
  newtype byte = b: int | 0 <= b < 0x100

  const Two16: nat := 0x1_0000
  const Two32: nat := 0x1_0000_0000

  /** The `width` low-order bytes of `n`, least significant first. */
  function LE(n: nat, width: nat): (r: seq<byte>)
    ensures |r| == width
  {
    if width == 0 then [] else [(n % 0x100) as byte] + LE(n / 0x100, width - 1)
  }

  /** `writeUInt16LE(n)`; Node throws a RangeError outside 0..0xFFFF,
      which callers check before writing. */
  function LE16(n: nat): (r: seq<byte>)
    requires n < Two16
    ensures |r| == 2
    ensures ReadLE16(r) == n
  {
    assert LE(n, 2) == [(n % 0x100) as byte] + LE(n / 0x100, 1);
    assert LE(n / 0x100, 1) == [(n / 0x100 % 0x100) as byte] + LE(n / 0x100 / 0x100, 0);
    LE(n, 2)
  }

  function ReadLE16(b: seq<byte>): int
    requires |b| == 2
  {
    b[0] as int + 0x100 * b[1] as int
  }

  /** `writeUInt32LE(n)`; Node throws a RangeError outside 0..0xFFFF_FFFF. */
  function LE32(n: nat): (r: seq<byte>)
    requires n < Two32
    ensures |r| == 4
    ensures ReadLE32(r) == n
  {
    var n1 := n / 0x100;
    var n2 := n1 / 0x100;
    var n3 := n2 / 0x100;
    DivMod256(n);
    DivMod256(n1);
    DivMod256(n2);
    assert LE(n, 4) == [(n % 0x100) as byte] + LE(n1, 3);
    assert LE(n1, 3) == [(n1 % 0x100) as byte] + LE(n2, 2);
    assert LE(n2, 2) == [(n2 % 0x100) as byte] + LE(n3, 1);
    assert LE(n3, 1) == [(n3 % 0x100) as byte] + LE(n3 / 0x100, 0);
    LE(n, 4)
  }

  lemma DivMod256(n: nat)
    ensures n == n % 0x100 + 0x100 * (n / 0x100)
  {
  }

  function ReadLE32(b: seq<byte>): int
    requires |b| == 4
  {
    b[0] as int + 0x100 * (b[1] as int + 0x100 * (b[2] as int + 0x100 * b[3] as int))
  }

  /** The UTF-8 encoding of one Unicode scalar value (RFC 3629 section 3). */
  function Utf8Char(c: char): (r: seq<byte>)
    ensures 1 <= |r| <= 4
    ensures |r| == 1 <==> c as int < 0x80
    ensures |r| == 1 ==> r[0] as int == c as int
  {
    var n := c as int;
    if n < 0x80 then [n as byte]
    else if n < 0x800 then [(0xC0 + n / 0x40) as byte, (0x80 + n % 0x40) as byte]
    else if n < 0x1_0000 then
      [(0xE0 + n / 0x1000) as byte, (0x80 + n / 0x40 % 0x40) as byte, (0x80 + n % 0x40) as byte]
    else
      [(0xF0 + n / 0x4_0000) as byte, (0x80 + n / 0x1000 % 0x40) as byte,
       (0x80 + n / 0x40 % 0x40) as byte, (0x80 + n % 0x40) as byte]
  }

  /** `Buffer.from(s, 'utf8')`. */
  function Utf8(s: string): (r: seq<byte>)
    ensures |r| >= |s|
    ensures s == [] <==> r == []
  {
    if s == [] then [] else Utf8Char(s[0]) + Utf8(s[1..])
  }

  lemma {:induction false} Utf8Append(a: string, b: string)
    ensures Utf8(a + b) == Utf8(a) + Utf8(b)
    decreases |a|
  {
    if a == [] {
      assert a + b == b;
    } else {
      assert (a + b)[1..] == a[1..] + b;
      Utf8Append(a[1..], b);
    }
  }

  predicate IsAscii(s: string) {
    forall i :: 0 <= i < |s| ==> s[i] as int < 0x80
  }

  /** An ASCII string encodes to one byte per character, each its code. */
  lemma {:induction false} Utf8Ascii(s: string)
    requires IsAscii(s)
    ensures |Utf8(s)| == |s|
    ensures forall i :: 0 <= i < |s| ==> Utf8(s)[i] as int == s[i] as int
    decreases |s|
  {
    if s != [] {
      Utf8Ascii(s[1..]);
    }
  }

  /** Decoding one UTF-8 sequence from the front of `b`: the scalar value
      and the number of bytes it used, or None on a malformed sequence. */
  function DecodeChar(b: seq<byte>): (r: Option<(char, nat)>)
    ensures r.Some? ==> 1 <= r.value.1 <= |b| && r.value.1 <= 4
  {
    if b == [] then None
    else
      var b0 := b[0] as int;
      if b0 < 0x80 then Some((b0 as char, 1))
      else if 0xC0 <= b0 < 0xE0 && |b| >= 2 && Cont(b[1]) then
        var n := (b0 - 0xC0) * 0x40 + (b[1] as int - 0x80);
        if 0x80 <= n then Some((n as char, 2)) else None
      else if 0xE0 <= b0 < 0xF0 && |b| >= 3 && Cont(b[1]) && Cont(b[2]) then
        var n := (b0 - 0xE0) * 0x1000 + (b[1] as int - 0x80) * 0x40 + (b[2] as int - 0x80);
        if 0x800 <= n && !(0xD800 <= n < 0xE000) then Some((n as char, 3)) else None
      else if 0xF0 <= b0 < 0xF5 && |b| >= 4 && Cont(b[1]) && Cont(b[2]) && Cont(b[3]) then
        var n := (b0 - 0xF0) * 0x4_0000 + (b[1] as int - 0x80) * 0x1000
          + (b[2] as int - 0x80) * 0x40 + (b[3] as int - 0x80);
        if 0x1_0000 <= n < 0x11_0000 then Some((n as char, 4)) else None
      else None
  }

  predicate Cont(x: byte) { 0x80 <= x < 0xC0 }

  datatype Option<T> = None | Some(value: T)

  function Decode(b: seq<byte>): Option<string>
    decreases |b|
  {
    if b == [] then Some([])
    else
      match DecodeChar(b)
      case None => None
      case Some((c, n)) =>
        match Decode(b[n..])
        case None => None
        case Some(rest) => Some([c] + rest)
  }

  lemma DecodeCharOfEncoding(c: char, rest: seq<byte>)
    ensures DecodeChar(Utf8Char(c) + rest) == Some((c, |Utf8Char(c)|))
  {
    var n := c as int;
    if n < 0x80 {
    } else if n < 0x800 {
      DecodeTwo(c, rest);
    } else if n < 0x1_0000 {
      DecodeThree(c, rest);
    } else {
      DecodeFour(c, rest);
    }
  }

  lemma DecodeTwo(c: char, rest: seq<byte>)
    requires 0x80 <= c as int < 0x800
    ensures DecodeChar(Utf8Char(c) + rest) == Some((c, 2))
  {
    var n := c as int;
    var b := Utf8Char(c) + rest;
    assert b[0] as int == 0xC0 + n / 0x40 && b[1] as int == 0x80 + n % 0x40;
    assert (n / 0x40) * 0x40 + n % 0x40 == n;
  }

  lemma DecodeThree(c: char, rest: seq<byte>)
    requires 0x800 <= c as int < 0x1_0000
    ensures DecodeChar(Utf8Char(c) + rest) == Some((c, 3))
  {
    var n := c as int;
    var b := Utf8Char(c) + rest;
    var q := n / 0x40;
    assert b[0] as int == 0xE0 + n / 0x1000 && b[1] as int == 0x80 + q % 0x40;
    assert b[2] as int == 0x80 + n % 0x40;
    assert n / 0x1000 == q / 0x40;
    assert q == (q / 0x40) * 0x40 + q % 0x40;
    assert n == q * 0x40 + n % 0x40;
  }

  lemma DecodeFour(c: char, rest: seq<byte>)
    requires 0x1_0000 <= c as int
    ensures DecodeChar(Utf8Char(c) + rest) == Some((c, 4))
  {
    var n := c as int;
    var b := Utf8Char(c) + rest;
    var q := n / 0x40;
    var q2 := q / 0x40;
    assert n / 0x1000 == q2;
    assert n / 0x4_0000 == q2 / 0x40;
    assert b[0] as int == 0xF0 + q2 / 0x40 && b[1] as int == 0x80 + q2 % 0x40;
    assert b[2] as int == 0x80 + q % 0x40 && b[3] as int == 0x80 + n % 0x40;
    assert q2 == (q2 / 0x40) * 0x40 + q2 % 0x40;
    assert q == q2 * 0x40 + q % 0x40;
    assert n == q * 0x40 + n % 0x40;
  }

  /** Decoding the encoding gives the string back: the encoding is
      injective, and the PDF and ZIP writers lose no text. */
  lemma {:induction false} DecodeUtf8(s: string)
    ensures Decode(Utf8(s)) == Some(s)
    decreases |s|
  {
    if s != [] {
      var e := Utf8Char(s[0]);
      DecodeCharOfEncoding(s[0], Utf8(s[1..]));
      assert (e + Utf8(s[1..]))[|e|..] == Utf8(s[1..]);
      DecodeUtf8(s[1..]);
      assert [s[0]] + s[1..] == s;
    }
  }
}
