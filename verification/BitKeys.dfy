/** bitKey and byteKey of protocol/patricia: items as byte strings, keys as bit strings. */
module BitKeys {
  import opened Basics
  import opened PatriciaShape

  /** The n low bits of x, most significant first. */
  function Bits(x: nat, n: nat): (k: Key)
    ensures |k| == n
  {
    if n == 0 then [] else Bits(x / 2, n - 1) + [x % 2]
  }

  /** The number that a bit string writes. */
  function Value(k: Key): nat
  {
    if k == [] then 0 else 2 * Value(k[..|k| - 1]) + k[|k| - 1]
  }

  lemma {:induction false} ValueOfBits(x: nat, n: nat)
    requires x < Pow2(n)
    ensures Value(Bits(x, n)) == x
  {
    if n > 0 {
      ValueOfBits(x / 2, n - 1);
      assert Bits(x, n)[..n - 1] == Bits(x / 2, n - 1);
    }
  }

  lemma {:induction false} ValueBelow(k: Key)
    ensures Value(k) < Pow2(|k|)
  {
    if k != [] { ValueBelow(k[..|k| - 1]); }
  }

  lemma {:induction false} Pow2Eight()
    ensures Pow2(8) == 256
  {
    assert Pow2(4) == 16;
  }

  function BitKey(item: bytes): (k: Key)
    ensures |k| == 8 * |item|
  {
    if item == [] then [] else Bits(item[0], 8) + BitKey(item[1..])
  }

  function ByteOf(k: Key): byte
    requires |k| == 8
  {
    ValueBelow(k);
    Pow2Eight();
    Value(k)
  }

  function ByteKey(key: Key): (item: bytes)
    ensures |item| == |key| / 8
  {
    if |key| < 8 then [] else [ByteOf(key[..8])] + ByteKey(key[8..])
  }

  /** byteKey is the inverse of bitKey. */
  lemma {:induction false} ByteKeyBitKey(item: bytes)
    ensures ByteKey(BitKey(item)) == item
  {
    if item != [] {
      var k := BitKey(item);
      assert k[..8] == Bits(item[0], 8);
      assert k[8..] == BitKey(item[1..]);
      Pow2Eight();
      ValueOfBits(item[0], 8);
      ByteKeyBitKey(item[1..]);
    }
  }

  lemma {:induction false} BitKeyInjective(a: bytes, b: bytes)
    ensures BitKey(a) == BitKey(b) <==> a == b
  {
    ByteKeyBitKey(a);
    ByteKeyBitKey(b);
  }

  // ---------------------------------------------------------------- the loops

  predicate Power(d: nat)
  {
    d in {1, 2, 4, 8, 16, 32, 64, 128, 256}
  }

  lemma {:induction false} HalfStep(b: nat, d: nat)
    requires Power(d) && d < 256
    ensures (b / d) / 2 == b / (2 * d)
  {
  }

  lemma {:induction false} PlaceStep(v: nat, bit: nat, w: nat)
    requires Power(w) && w < 256
    ensures v * (2 * w) + bit * w == (2 * v + bit) * w
  {
  }

  /** bitKey: for every byte, append (b >> (7 - i)) & 1 for i from 0 to 7. */
  method ComputeBitKey(item: bytes) returns (key: Key)
    ensures key == BitKey(item)
  {
    key := [];
    for i := 0 to |item|
      invariant key + BitKey(item[i..]) == BitKey(item)
    {
      var bits := BitsOfByte(item[i]);
      assert item[i..][1..] == item[i + 1..];
      key := key + bits;
    }
  }

  method BitsOfByte(b: byte) returns (bits: Key)
    ensures bits == Bits(b, 8)
  {
    bits := [];
    var divisor: nat := 256;
    for j := 0 to 8
      invariant divisor == [256, 128, 64, 32, 16, 8, 4, 2, 1][j]
      invariant bits == Bits(b / divisor, j)
    {
      divisor := divisor / 2;
      HalfStep(b, divisor);
      bits := bits + [(b / divisor) % 2];
    }
  }

  /** byteKey: bit j of a group of eight is or-ed, shifted left by 7 - j, into a byte where it is still 0. */
  method ComputeByteKey(key: Key) returns (item: bytes)
    ensures item == ByteKey(key)
  {
    item := [];
    for i := 0 to |key| / 8
      invariant item + ByteKey(key[8 * i..]) == ByteKey(key)
    {
      assert key[8 * i..][..8] == key[8 * i..8 * i + 8];
      assert key[8 * i..][8..] == key[8 * (i + 1)..];
      var b := ByteOfBits(key[8 * i..8 * i + 8]);
      item := item + [b];
    }
  }

  lemma {:induction false} ValueNone()
    ensures Value([]) == 0
  {
  }

  lemma {:induction false} ValueSnoc(bits: Key, j: nat)
    requires j < |bits|
    ensures Value(bits[..j + 1]) == 2 * Value(bits[..j]) + bits[j]
  {
    assert bits[..j + 1][..j] == bits[..j];
  }

  method ByteOfBits(bits: Key) returns (b: byte)
    requires |bits| == 8
    ensures b == ByteOf(bits)
  {
    hide Value, Pow2;
    var sum: nat, weight: nat := 0, 256;
    ValueNone();
    assert bits[..0] == [];
    for j := 0 to 8
      invariant weight == [256, 128, 64, 32, 16, 8, 4, 2, 1][j]
      invariant sum == Value(bits[..j]) * weight
    {
      weight := weight / 2;
      ValueSnoc(bits, j);
      PlaceStep(Value(bits[..j]), bits[j], weight);
      sum := sum + (bits[j] as int) * weight;
    }
    assert bits[..8] == bits;
    ValueBelow(bits);
    Pow2Eight();
    return sum;
  }
}
