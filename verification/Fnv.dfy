/** The 64-bit FNV-1a hash that identifies a serialised manifest, in integers modulo 2^64. */
module Fnv {
  import opened CanonicalJson
  import opened JsonText

  const WORD := 0x1_0000_0000_0000_0000
  const OFFSET_BASIS := 0xcbf2_9ce4_8422_2325
  const PRIME := 0x100_0000_01b3

  /** The inverse of the prime modulo 2^64. */
  const INVERSE := 0xce96_5057_aff6_957b

  type Word = n: int | 0 <= n < WORD

  type Byte = n: int | 0 <= n < 256

  function Pow2(bits: nat): nat {
    if bits == 0 then 1 else 2 * Pow2(bits - 1)
  }

  /** Exclusive or of the lowest `bits` bits. */
  function XorBits(a: nat, b: nat, bits: nat): (r: nat)
    ensures r < Pow2(bits)
  {
    if bits == 0 then 0 else 2 * XorBits(a / 2, b / 2, bits - 1) + (if a % 2 == b % 2 then 0 else 1)
  }

  function Xor(a: Byte, b: Byte): Byte {
    assert Pow2(8) == 256;
    XorBits(a, b, 8)
  }

  /** Exclusive or with a byte changes the low byte only. */
  function XorByte(hash: Word, b: Byte): Word {
    hash / 256 * 256 + Xor(hash % 256, b)
  }

  function WrappingMul(a: Word, b: Word): Word {
    a * b % WORD
  }

  function HashByte(hash: Word, b: Byte): Word {
    WrappingMul(XorByte(hash, b), PRIME)
  }

  function HashFrom(hash: Word, bytes: seq<Byte>): Word
    decreases |bytes|
  {
    if bytes == [] then hash else HashFrom(HashByte(hash, bytes[0]), bytes[1..])
  }

  method Fnv1a64(bytes: seq<Byte>) returns (hash: Word)
    ensures hash == HashFrom(OFFSET_BASIS, bytes)
  {
    hide XorByte, WrappingMul;
    hash := OFFSET_BASIS;
    var i := 0;
    assert bytes[0..] == bytes;
    while i < |bytes|
      invariant 0 <= i <= |bytes|
      invariant HashFrom(hash, bytes[i..]) == HashFrom(OFFSET_BASIS, bytes)
    {
      assert bytes[i..][1..] == bytes[i + 1..];
      hash := XorByte(hash, bytes[i]);
      hash := WrappingMul(hash, PRIME);
      i := i + 1;
    }
    assert bytes[i..] == [];
  }

  // ---- One step is a bijection ----

  function UnhashByte(hash: Word, b: Byte): Word {
    XorByte(WrappingMul(hash, INVERSE), b)
  }

  lemma {:induction false} XorBitsCancel(a: nat, b: nat, bits: nat)
    requires a < Pow2(bits)
    ensures XorBits(XorBits(a, b, bits), b, bits) == a
  {
    if bits > 0 {
      XorBitsCancel(a / 2, b / 2, bits - 1);
      var x := XorBits(a, b, bits);
      assert x / 2 == XorBits(a / 2, b / 2, bits - 1) && (x % 2 == 0 <==> a % 2 == b % 2);
    }
  }

  lemma XorCancels(a: Byte, b: Byte)
    ensures Xor(Xor(a, b), b) == a
  {
    assert Pow2(8) == 256;
    XorBitsCancel(a, b, 8);
  }

  lemma XorByteParts(hash: Word, b: Byte)
    ensures XorByte(hash, b) % 256 == Xor(hash % 256, b) && XorByte(hash, b) / 256 == hash / 256
  {
    hide Xor;
  }

  lemma XorTwice(hash: Word, b: Byte)
    ensures XorByte(XorByte(hash, b), b) == hash
  {
    hide Xor;
    XorByteParts(hash, b);
    XorCancels(hash % 256, b);
  }

  lemma ModWord(x: Word, t: int)
    ensures (x + WORD * t) % WORD == x
  {
  }

  lemma MulInverts(x: Word)
    ensures WrappingMul(WrappingMul(x, PRIME), INVERSE) == x
    ensures WrappingMul(WrappingMul(x, INVERSE), PRIME) == x
  {
    var k := PRIME * INVERSE / WORD;
    var p, q := x * PRIME / WORD, x * INVERSE / WORD;
    assert WrappingMul(x, PRIME) == x * PRIME - WORD * p;
    assert WrappingMul(x, INVERSE) == x * INVERSE - WORD * q;
    assert (x * PRIME - WORD * p) * INVERSE == x + WORD * (x * k - p * INVERSE);
    assert (x * INVERSE - WORD * q) * PRIME == x + WORD * (x * k - q * PRIME);
    ModWord(x, x * k - p * INVERSE);
    ModWord(x, x * k - q * PRIME);
  }

  /** For each byte, hashing a byte is a bijection on 64-bit states. */
  lemma HashByteBijective(hash: Word, b: Byte)
    ensures UnhashByte(HashByte(hash, b), b) == hash
    ensures HashByte(UnhashByte(hash, b), b) == hash
  {
    hide XorByte, WrappingMul;
    MulInverts(XorByte(hash, b));
    XorTwice(hash, b);
    XorTwice(WrappingMul(hash, INVERSE), b);
    MulInverts(hash);
  }

  lemma {:induction false} HashFromInjective(a: Word, b: Word, bytes: seq<Byte>)
    requires HashFrom(a, bytes) == HashFrom(b, bytes)
    ensures a == b
    decreases |bytes|
  {
    hide HashByte, UnhashByte;
    if bytes != [] {
      HashFromInjective(HashByte(a, bytes[0]), HashByte(b, bytes[0]), bytes[1..]);
      HashByteBijective(a, bytes[0]);
      HashByteBijective(b, bytes[0]);
    }
  }

  /** From one state, different bytes lead to different states. */
  lemma BytesSeparate(hash: Word, b: Byte, c: Byte)
    requires HashByte(hash, b) == HashByte(hash, c)
    ensures b == c
  {
    hide XorByte, WrappingMul;
    MulInverts(XorByte(hash, b));
    MulInverts(XorByte(hash, c));
    XorByteParts(hash, b);
    XorByteParts(hash, c);
    XorSeparates(hash % 256, b, c);
  }

  lemma {:induction false} XorBitsSeparate(a: nat, b: nat, c: nat, bits: nat)
    requires b < Pow2(bits) && c < Pow2(bits) && XorBits(a, b, bits) == XorBits(a, c, bits)
    ensures b == c
  {
    if bits > 0 {
      XorBitsSeparate(a / 2, b / 2, c / 2, bits - 1);
    }
  }

  lemma XorSeparates(a: Byte, b: Byte, c: Byte)
    requires Xor(a, b) == Xor(a, c)
    ensures b == c
  {
    assert Pow2(8) == 256;
    XorBitsSeparate(a, b, c, 8);
  }

  lemma {:induction false} HashFromConcat(hash: Word, a: seq<Byte>, b: seq<Byte>)
    ensures HashFrom(hash, a + b) == HashFrom(HashFrom(hash, a), b)
    decreases |a|
  {
    if a == [] {
      assert a + b == b;
    } else {
      assert (a + b)[1..] == a[1..] + b;
      HashFromConcat(HashByte(hash, a[0]), a[1..], b);
    }
  }

  /** Serialised manifests of the same length that differ in exactly one byte have different hashes. */
  lemma OneByteChangesHash(a: seq<Byte>, b: seq<Byte>, i: nat)
    requires |a| == |b| && i < |a| && a[i] != b[i]
    requires forall j :: 0 <= j < |a| && j != i ==> a[j] == b[j]
    ensures HashFrom(OFFSET_BASIS, a) != HashFrom(OFFSET_BASIS, b)
  {
    hide HashByte;
    var before, rest := a[..i], a[i + 1..];
    var state := HashFrom(OFFSET_BASIS, before);
    assert a == before + ([a[i]] + rest) && b == before + ([b[i]] + rest);
    HashFromConcat(OFFSET_BASIS, before, [a[i]] + rest);
    HashFromConcat(OFFSET_BASIS, before, [b[i]] + rest);
    assert ([a[i]] + rest)[1..] == rest && ([b[i]] + rest)[1..] == rest;
    if HashFrom(OFFSET_BASIS, a) == HashFrom(OFFSET_BASIS, b) {
      HashFromInjective(HashByte(state, a[i]), HashByte(state, b[i]), rest);
      BytesSeparate(state, a[i], b[i]);
    }
  }

  // ---- The printed hash ----

  function Pow16(digits: nat): nat {
    if digits == 0 then 1 else 16 * Pow16(digits - 1)
  }

  /** Lower-case hexadecimal, padded to a fixed number of digits. */
  function Hex(n: nat, digits: nat): string {
    if digits == 0 then "" else Hex(n / 16, digits - 1) + [HexChar(n % 16)]
  }

  lemma {:induction false} HexInjective(n: nat, m: nat, digits: nat)
    requires n < Pow16(digits) && m < Pow16(digits) && Hex(n, digits) == Hex(m, digits)
    ensures n == m
  {
    if digits > 0 {
      var a, b := Hex(n / 16, digits - 1), Hex(m / 16, digits - 1);
      assert a == (a + [HexChar(n % 16)])[..|a + [HexChar(n % 16)]| - 1];
      assert b == (b + [HexChar(m % 16)])[..|b + [HexChar(m % 16)]| - 1];
      assert (a + [HexChar(n % 16)])[|a|] == HexChar(n % 16) && (b + [HexChar(m % 16)])[|b|] == HexChar(m % 16);
      HexInjective(n / 16, m / 16, digits - 1);
      HexCharInjective(n % 16, m % 16);
    }
  }

  function ManifestHash(bytes: seq<Byte>): string {
    "fnv1a64:" + Hex(HashFrom(OFFSET_BASIS, bytes), 16)
  }

  lemma SixteenDigits()
    ensures Pow16(16) == WORD
  {
    assert Pow16(4) == 0x1_0000;
    assert Pow16(8) == 0x1_0000_0000;
    assert Pow16(12) == 0x1_0000_0000_0000;
  }

  lemma OneByteChangesManifestHash(a: seq<Byte>, b: seq<Byte>, i: nat)
    requires |a| == |b| && i < |a| && a[i] != b[i]
    requires forall j :: 0 <= j < |a| && j != i ==> a[j] == b[j]
    ensures ManifestHash(a) != ManifestHash(b)
  {
    hide Hex, HashFrom;
    OneByteChangesHash(a, b, i);
    var x, y := HashFrom(OFFSET_BASIS, a), HashFrom(OFFSET_BASIS, b);
    SixteenDigits();
    if ManifestHash(a) == ManifestHash(b) {
      assert Hex(x, 16) == ManifestHash(a)[8..] && Hex(y, 16) == ManifestHash(b)[8..];
      HexInjective(x, y, 16);
    }
  }

  lemma {:induction false} HexDigits(n: nat, digits: nat)
    ensures |Hex(n, digits)| == digits
    ensures forall c :: c in Hex(n, digits) ==> '0' <= c <= '9' || 'a' <= c <= 'f'
  {
    if digits > 0 {
      HexDigits(n / 16, digits - 1);
      var table := "0123456789abcdef";
      assert HexChar(n % 16) == table[n % 16];
      assert forall i :: 0 <= i < 16 ==> '0' <= table[i] <= '9' || 'a' <= table[i] <= 'f';
    }
  }

  lemma FirstXor()
    ensures Xor(0x25, 97) == 0x44
  {
    assert XorBits(0, 0, 1) == 0;
    assert XorBits(0, 1, 2) == 1;
    assert XorBits(1, 3, 3) == 2;
    assert XorBits(2, 6, 4) == 4;
    assert XorBits(4, 12, 5) == 8;
    assert XorBits(9, 24, 6) == 17;
    assert XorBits(18, 48, 7) == 34;
    assert XorBits(37, 97, 8) == 68;
  }

  lemma FirstByte()
    ensures HashByte(OFFSET_BASIS, 97) == 0xaf63_dc4c_8601_ec8c
  {
    hide Xor;
    FirstXor();
    assert OFFSET_BASIS % 256 == 0x25;
    assert XorByte(OFFSET_BASIS, 97) == 0xcbf2_9ce4_8422_2344;
  }

  /** The published values of the hash: of no bytes, and of the byte of `a`. */
  lemma KnownHashes()
    ensures HashFrom(OFFSET_BASIS, []) == 0xcbf2_9ce4_8422_2325
    ensures HashFrom(OFFSET_BASIS, [97]) == 0xaf63_dc4c_8601_ec8c
    ensures forall bytes :: |ManifestHash(bytes)| == 24 && "fnv1a64:" <= ManifestHash(bytes)
    ensures forall bytes, c :: c in ManifestHash(bytes)[8..] ==> '0' <= c <= '9' || 'a' <= c <= 'f'
  {
    hide HashByte, Hex;
    FirstByte();
    assert HashFrom(OFFSET_BASIS, [97]) == HashFrom(HashByte(OFFSET_BASIS, 97), [97][1..]);
    forall bytes
      ensures |ManifestHash(bytes)| == 24 && "fnv1a64:" <= ManifestHash(bytes)
      ensures forall c :: c in ManifestHash(bytes)[8..] ==> '0' <= c <= '9' || 'a' <= c <= 'f'
    {
      HexDigits(HashFrom(OFFSET_BASIS, bytes), 16);
      assert ManifestHash(bytes)[8..] == Hex(HashFrom(OFFSET_BASIS, bytes), 16);
    }
  }
}
