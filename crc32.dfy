/** CRC-32 as the ZIP writer computes it: the reflected polynomial
    0xEDB88320 of PKWARE APPNOTE.TXT section 4.4.7, driven by a 256-entry
    table built once, with the register preset to all ones and inverted at
    the end.  The register is a JavaScript number read as an unsigned
    32-bit pattern, so it is a natural below 2^32 here and the bitwise
    operators are defined bit by bit: `^` is `Xor`, `x >>> k` is `x / 2^k`
    and `x & (2^k - 1)` is `x % 2^k`. */
module Crc32 {
  import opened Bytes

  const Polynomial: nat := 0xEDB8_8320
  const AllOnes: nat := 0xFFFF_FFFF

  function Pow2(k: nat): (r: nat)
    ensures r >= 1
  {
    if k == 0 then 1 else 2 * Pow2(k - 1)
  }

  lemma Pow2Values()
    ensures Pow2(8) == 0x100
    ensures Pow2(32) == 0x1_0000_0000
  {
    assert Pow2(2) == 4;
    assert Pow2(4) == 16;
    assert Pow2(6) == 64;
    assert Pow2(8) == 0x100;
    assert Pow2(12) == 0x1000;
    assert Pow2(16) == 0x1_0000;
    assert Pow2(20) == 0x10_0000;
    assert Pow2(24) == 0x100_0000;
    assert Pow2(28) == 0x1000_0000;
  }

  /** Bitwise exclusive or of two naturals. */
  function Xor(a: nat, b: nat): nat
    decreases a + b
  {
    if a == 0 && b == 0 then 0
    else 2 * Xor(a / 2, b / 2) + (a % 2 + b % 2) % 2
  }
  lemma Lin(x: nat, r: nat)
    requires r < 2
    ensures (2 * x + r) % 2 == r && (2 * x + r) / 2 == x
  {
  }
  lemma XorHalf(a: nat, b: nat)
    ensures Xor(a, b) % 2 == 1 <==> (a % 2 == 1) != (b % 2 == 1)
    ensures Xor(a, b) / 2 == Xor(a / 2, b / 2)
  {
    if a != 0 || b != 0 {
      Lin(Xor(a / 2, b / 2), (a % 2 + b % 2) % 2);
    }
  }
  /** Two naturals with the same lowest bit and the same higher bits are
      equal. */
  lemma BitsEqual(x: nat, y: nat)
    requires (x % 2 == 1) == (y % 2 == 1) && x / 2 == y / 2
    ensures x == y
  {
  }
  lemma {:induction false} XorZero(a: nat)
    ensures Xor(a, 0) == a
    decreases a
  {
    if a != 0 {
      XorHalf(a, 0);
      XorZero(a / 2);
      BitsEqual(Xor(a, 0), a);
    }
  }
  lemma {:induction false} XorComm(a: nat, b: nat)
    ensures Xor(a, b) == Xor(b, a)
    decreases a + b
  {
    if a != 0 || b != 0 {
      XorComm(a / 2, b / 2);
    }
  }
  lemma {:induction false} XorAssoc(a: nat, b: nat, c: nat)
    ensures Xor(Xor(a, b), c) == Xor(a, Xor(b, c))
    decreases a + b + c
  {
    if a != 0 || b != 0 || c != 0 {
      var ab := Xor(a, b);
      var bc := Xor(b, c);
      XorHalf(ab, c);
      XorHalf(a, b);
      XorHalf(a, bc);
      XorHalf(b, c);
      XorAssoc(a / 2, b / 2, c / 2);
      assert Xor(ab, c) / 2 == Xor(a, bc) / 2;
      BitsEqual(Xor(ab, c), Xor(a, bc));
    }
  }
  lemma {:induction false} XorSelf(a: nat)
    ensures Xor(a, a) == 0
    decreases a
  {
    if a != 0 {
      XorSelf(a / 2);
    }
  }

  lemma {:induction false} XorBound(a: nat, b: nat, k: nat)
    requires a < Pow2(k) && b < Pow2(k)
    ensures Xor(a, b) < Pow2(k)
    decreases k
  {
    if a != 0 || b != 0 {
      XorBound(a / 2, b / 2, k - 1);
    }
  }

  /** One bit of the reflected shift register:
      `c & 1 ? 0xedb88320 ^ (c >>> 1) : c >>> 1`. */
  function Step(c: nat): nat {
    if c % 2 == 1 then Xor(Polynomial, c / 2) else c / 2
  }

  function Steps(c: nat, k: nat): nat {
    if k == 0 then c else Step(Steps(c, k - 1))
  }

  /** `crcTable[i]`: eight register steps from `i`. */
  function TableEntry(i: nat): nat {
    Steps(i, 8)
  }

  lemma StepBound(c: nat)
    requires c < Two32
    ensures Step(c) < Two32
  {
    Pow2Values();
    if c % 2 == 1 {
      XorBound(Polynomial, c / 2, 32);
    }
  }

  lemma {:induction false} StepsBound(c: nat, k: nat)
    requires c < Two32
    ensures Steps(c, k) < Two32
  {
    if k > 0 {
      StepsBound(c, k - 1);
      StepBound(Steps(c, k - 1));
    }
  }

  predicate IsTable(table: array<nat>)
    reads table
  {
    table.Length == 256 && forall i :: 0 <= i < 256 ==> table[i] == TableEntry(i)
  }

  /** The table builder: a Uint32Array of 256 entries, each filled by an
      inner loop of eight steps. */
  method BuildTable() returns (table: array<nat>)
    ensures fresh(table)
    ensures IsTable(table)
  {
    table := new nat[256];
    for i := 0 to 256
      invariant forall k :: 0 <= k < i ==> table[k] == TableEntry(k)
    {
      var c: nat := i;
      for j := 0 to 8
        invariant c == Steps(i, j)
      {
        c := if c % 2 == 1 then Xor(Polynomial, c / 2) else c / 2;
      }
      table[i] := c;
    }
  }

  /** One byte through the table: `crcTable[(c ^ b) & 0xff] ^ (c >>> 8)`. */
  function Update(c: nat, b: byte): nat {
    Xor(TableEntry(Xor(c, b as nat) % 256), c / 256)
  }

  function Fold(c: nat, data: seq<byte>): nat {
    if data == [] then c else Update(Fold(c, data[..|data| - 1]), data[|data| - 1])
  }

  /** `crc32(buf)`: preset, fold, invert; the result fits a 32-bit field. */
  function Checksum(data: seq<byte>): (r: nat)
    ensures data == [] ==> r == 0
  {
    XorSelf(AllOnes);
    Xor(Fold(AllOnes, data), AllOnes)
  }

  /** The checksum loop over the buffer. */
  method ComputeCrc32(table: array<nat>, data: seq<byte>) returns (crc: nat)
    requires IsTable(table)
    ensures crc == Checksum(data)
  {
    var c: nat := AllOnes;
    for k := 0 to |data|
      invariant c == Fold(AllOnes, data[..k])
    {
      assert data[..k + 1][..k] == data[..k];
      c := Xor(table[Xor(c, data[k] as nat) % 256], c / 256);
    }
    assert data[..|data|] == data;
    crc := Xor(c, AllOnes);
  }

  lemma {:induction false} FoldBound(data: seq<byte>)
    ensures Fold(AllOnes, data) < Two32
  {
    Pow2Values();
    if data != [] {
      var c := Fold(AllOnes, data[..|data| - 1]);
      FoldBound(data[..|data| - 1]);
      XorBound(c, data[|data| - 1] as nat, 32);
      StepsBound(Xor(c, data[|data| - 1] as nat) % 256, 8);
      XorBound(TableEntry(Xor(c, data[|data| - 1] as nat) % 256), c / 256, 32);
    }
  }

  /** The checksum fits the four bytes the headers give it. */
  lemma ChecksumBound(data: seq<byte>)
    ensures Checksum(data) < Two32
  {
    FoldBound(data);
    Pow2Values();
    XorBound(Fold(AllOnes, data), AllOnes, 32);
  }

  /** The bit-at-a-time definition: xor the byte in, then eight steps. */
  function BitwiseFold(c: nat, data: seq<byte>): nat {
    if data == [] then c
    else Steps(Xor(BitwiseFold(c, data[..|data| - 1]), data[|data| - 1] as nat), 8)
  }

  function BitwiseChecksum(data: seq<byte>): nat {
    Xor(BitwiseFold(AllOnes, data), AllOnes)
  }

  lemma XorCancel(p: nat, x: nat, y: nat)
    ensures Xor(Xor(p, x), Xor(p, y)) == Xor(x, y)
  {
    XorComm(p, x);
    XorAssoc(x, p, Xor(p, y));
    XorAssoc(p, p, y);
    XorSelf(p);
    XorComm(0, y);
    XorZero(y);
  }

  lemma XorSwap(p: nat, x: nat, y: nat)
    ensures Xor(x, Xor(p, y)) == Xor(p, Xor(x, y))
  {
    XorAssoc(x, p, y);
    XorComm(x, p);
    XorAssoc(p, x, y);
  }

  lemma StepBothOdd(a: nat, b: nat)
    requires a % 2 == 1 && b % 2 == 1
    ensures Step(Xor(a, b)) == Xor(Step(a), Step(b))
  {
    XorHalf(a, b);
    XorCancel(Polynomial, a / 2, b / 2);
  }

  lemma StepLeftOdd(a: nat, b: nat)
    requires a % 2 == 1 && b % 2 == 0
    ensures Step(Xor(a, b)) == Xor(Step(a), Step(b))
  {
    XorHalf(a, b);
    XorAssoc(Polynomial, a / 2, b / 2);
  }

  lemma StepRightOdd(a: nat, b: nat)
    requires a % 2 == 0 && b % 2 == 1
    ensures Step(Xor(a, b)) == Xor(Step(a), Step(b))
  {
    XorHalf(a, b);
    XorSwap(Polynomial, a / 2, b / 2);
  }

  lemma StepBothEven(a: nat, b: nat)
    requires a % 2 == 0 && b % 2 == 0
    ensures Step(Xor(a, b)) == Xor(Step(a), Step(b))
  {
    XorHalf(a, b);
  }

  /** The register is linear over GF(2). */
  lemma StepLinear(a: nat, b: nat)
    ensures Step(Xor(a, b)) == Xor(Step(a), Step(b))
  {
    if a % 2 == 1 {
      if b % 2 == 1 { StepBothOdd(a, b); } else { StepLeftOdd(a, b); }
    } else {
      if b % 2 == 1 { StepRightOdd(a, b); } else { StepBothEven(a, b); }
    }
  }

  lemma {:induction false} StepsLinear(a: nat, b: nat, k: nat)
    ensures Steps(Xor(a, b), k) == Xor(Steps(a, k), Steps(b, k))
  {
    if k > 0 {
      StepsLinear(a, b, k - 1);
      StepLinear(Steps(a, k - 1), Steps(b, k - 1));
    }
  }

  lemma StepEven(m: nat)
    ensures Step(2 * m) == m
  {
  }

  lemma Double(h: nat, p: nat)
    ensures h * (2 * p) == 2 * (h * p)
  {
  }

  /** Bits shifted up by `k + j` come down by one place per step. */
  lemma {:induction false} ShiftSteps(h: nat, k: nat, j: nat)
    ensures Steps(h * Pow2(k + j), k) == h * Pow2(j)
    decreases k
  {
    if k > 0 {
      var n := h * Pow2(k + j);
      var m := h * Pow2(j);
      ShiftSteps(h, k - 1, j + 1);
      assert k - 1 + (j + 1) == k + j;
      Double(h, Pow2(j));
      assert Steps(n, k - 1) == 2 * m;
      StepEven(m);
    }
  }

  /** A low part and a high part have no bit in common. */
  lemma {:induction false} XorDisjoint(lo: nat, h: nat, k: nat)
    requires lo < Pow2(k)
    ensures Xor(lo, h * Pow2(k)) == lo + h * Pow2(k)
    decreases k
  {
    if k == 0 {
      XorComm(0, h);
      XorZero(h);
    } else {
      var m := h * Pow2(k - 1);
      assert h * Pow2(k) == 2 * m;
      XorHalf(lo, 2 * m);
      XorDisjoint(lo / 2, h, k - 1);
      BitsEqual(Xor(lo, 2 * m), lo + 2 * m);
    }
  }

  function Shr(a: nat, k: nat): nat {
    if k == 0 then a else Shr(a / 2, k - 1)
  }

  lemma {:induction false} XorShr(a: nat, b: nat, k: nat)
    ensures Shr(Xor(a, b), k) == Xor(Shr(a, k), Shr(b, k))
    decreases k
  {
    if k > 0 {
      XorHalf(a, b);
      XorShr(a / 2, b / 2, k - 1);
    }
  }

  lemma Shr8(a: nat)
    ensures Shr(a, 8) == a / 256
  {
    var a1 := a / 2;
    var a2 := a1 / 2;
    var a3 := a2 / 2;
    var a4 := a3 / 2;
    var a5 := a4 / 2;
    var a6 := a5 / 2;
    var a7 := a6 / 2;
    assert Shr(a, 8) == Shr(a1, 7);
    assert Shr(a1, 7) == Shr(a2, 6);
    assert Shr(a2, 6) == Shr(a3, 5);
    assert Shr(a3, 5) == Shr(a4, 4);
    assert Shr(a4, 4) == Shr(a5, 3);
    assert Shr(a5, 3) == Shr(a6, 2);
    assert Shr(a6, 2) == Shr(a7, 1);
    assert Shr(a7, 1) == a7 / 2;
  }

  /** The byte xored in never reaches above the low eight bits. */
  lemma HighByte(c: nat, b: byte)
    ensures Xor(c, b as nat) / 256 == c / 256
  {
    XorShr(c, b as nat, 8);
    Shr8(Xor(c, b as nat));
    Shr8(c);
    Shr8(b as nat);
    XorZero(c / 256);
  }

  lemma SplitByte(x: nat)
    ensures x == Xor(x % 256, (x / 256) * Pow2(8))
  {
    Pow2Values();
    XorDisjoint(x % 256, x / 256, 8);
  }

  /** The table lookup does the work of the eight steps. */
  lemma UpdateIsBitwise(c: nat, b: byte)
    ensures Update(c, b) == Steps(Xor(c, b as nat), 8)
  {
    var x := Xor(c, b as nat);
    var h := x / 256;
    SplitByte(x);
    StepsLinear(x % 256, h * Pow2(8), 8);
    ShiftSteps(h, 8, 0);
    assert Pow2(8 + 0) == Pow2(8) && h * Pow2(0) == h;
    HighByte(c, b);
  }

  /** The table-driven checksum is the bitwise CRC-32 of section 4.4.7. */
  lemma {:induction false} FoldIsBitwise(c: nat, data: seq<byte>)
    ensures Fold(c, data) == BitwiseFold(c, data)
  {
    if data != [] {
      FoldIsBitwise(c, data[..|data| - 1]);
      UpdateIsBitwise(Fold(c, data[..|data| - 1]), data[|data| - 1]);
    }
  }

  lemma ChecksumIsBitwise(data: seq<byte>)
    ensures Checksum(data) == BitwiseChecksum(data)
  {
    FoldIsBitwise(AllOnes, data);
  }
}
