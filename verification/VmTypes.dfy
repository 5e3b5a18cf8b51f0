/** protocol/vm/types.go and pushdata.go: how the machine reads bytes as booleans and integers, and writes them. */
module VmTypes {
  import opened Basics
  import opened Opcodes

  /** The unsigned value of little-endian bytes. */
  function Uint(b: bytes): nat
  {
    if b == [] then 0 else b[0] + 256 * Uint(b[1..])
  }

  /** The k low bytes of n, least significant first. */
  function LittleEndian(n: nat, k: nat): (b: bytes)
    ensures |b| == k
  {
    if k == 0 then [] else [n % 256] + LittleEndian(n / 256, k - 1)
  }

  function Pow256(k: nat): (p: nat)
    ensures p > 0
  {
    if k == 0 then 1 else 256 * Pow256(k - 1)
  }

  lemma {:induction false} UintBound(b: bytes)
    ensures Uint(b) < Pow256(|b|)
  {
    if b != [] { UintBound(b[1..]); }
  }

  lemma {:induction false} UintLittleEndian(n: nat, k: nat)
    requires n < Pow256(k)
    ensures Uint(LittleEndian(n, k)) == n
  {
    if k > 0 {
      UintLittleEndian(n / 256, k - 1);
      assert LittleEndian(n, k)[1..] == LittleEndian(n / 256, k - 1);
    }
  }

  /** Trailing zero bytes removed. */
  function Trim(b: bytes): (t: bytes)
    ensures |t| <= |b|
    ensures t != [] ==> t[|t| - 1] != 0
    ensures b != [] && b[|b| - 1] != 0 ==> t == b
  {
    if b == [] || b[|b| - 1] != 0 then b else Trim(b[..|b| - 1])
  }

  lemma {:induction false} UintAppendZero(b: bytes)
    ensures Uint(b + [0]) == Uint(b)
  {
    if b == [] {
      assert (b + [0])[1..] == [];
    } else {
      UintAppendZero(b[1..]);
      assert (b + [0])[1..] == b[1..] + [0];
    }
  }

  lemma {:induction false} UintTrim(b: bytes)
    ensures Uint(Trim(b)) == Uint(b)
  {
    if b != [] && b[|b| - 1] == 0 {
      UintTrim(b[..|b| - 1]);
      UintAppendZero(b[..|b| - 1]);
      assert b == b[..|b| - 1] + [0];
    }
  }

  type int64 = n: int | MIN_INT64 <= n <= MAX_INT64

  /** uint64(n) of an int64. */
  function AsUnsigned(n: int64): nat
  {
    if n >= 0 then n else n + TWO_64
  }

  function Signed(u: nat): int64
    requires u < TWO_64
  {
    AsSigned(u)
  }

  /** Int64Bytes: eight little-endian bytes with the trailing zeros dropped. */
  function Int64Bytes(n: int64): (b: bytes)
    ensures |b| <= 8
  {
    Trim(LittleEndian(AsUnsigned(n), 8))
  }

  /** AsInt64: at most eight bytes, missing ones are zero. */
  function AsInt64(b: bytes): Option<int64>
  {
    if |b| > 8 then None
    else
      UintBelow64(b);
      Some(Signed(Uint(b)))
  }

  lemma {:induction false} Pow256Mono(i: nat, j: nat)
    requires i <= j
    ensures Pow256(i) <= Pow256(j)
    decreases j
  {
    if i < j { Pow256Mono(i, j - 1); }
  }

  lemma {:induction false} Pow256Eight()
    ensures Pow256(8) == TWO_64 && Pow256(4) == TWO_32 && Pow256(2) == 0x1_0000
  {
    assert Pow256(1) == 256;
    assert Pow256(2) == 0x1_0000;
    assert Pow256(3) == 0x100_0000;
    assert Pow256(4) == TWO_32;
    assert Pow256(5) == 256 * TWO_32;
    assert Pow256(6) == 0x1_0000 * TWO_32;
    assert Pow256(7) == 0x100_0000 * TWO_32;
  }

  lemma {:induction false} UintBelow64(b: bytes)
    requires |b| <= 8
    ensures Uint(b) < TWO_64
  {
    UintBound(b);
    Pow256Mono(|b|, 8);
    Pow256Eight();
  }

  /** Every int64 reads back unchanged. */
  lemma {:induction false} Int64RoundTrip(n: int64)
    ensures AsInt64(Int64Bytes(n)) == Some(n)
  {
    Pow256Eight();
    UintLittleEndian(AsUnsigned(n), 8);
    UintTrim(LittleEndian(AsUnsigned(n), 8));
  }

  /** AsBool: some byte is not zero. */
  predicate AsBool(b: bytes)
  {
    exists i :: 0 <= i < |b| && b[i] != 0
  }

  const TRUE_BYTES: bytes := [1]

  function BoolBytes(b: bool): bytes
  {
    if b then TRUE_BYTES else []
  }

  /** A pushed boolean, and a pushed integer, read as booleans. */
  lemma {:induction false} BoolRoundTrip(b: bool, n: int64)
    ensures AsBool(BoolBytes(b)) == b
    ensures AsBool(Int64Bytes(n)) == (n != 0)
  {
    assert b ==> BoolBytes(b)[0] == 1;
    Int64RoundTrip(n);
    TrimmedAsBool(Int64Bytes(n));
  }

  lemma {:induction false} TrimmedAsBool(t: bytes)
    requires t != [] ==> t[|t| - 1] != 0
    ensures AsBool(t) == (Uint(t) != 0)
  {
    if t != [] {
      assert t[|t| - 1] != 0;
      UintPositive(t);
    }
  }

  lemma {:induction false} UintPositive(b: bytes)
    requires b != [] && b[|b| - 1] != 0
    ensures 0 < Uint(b)
  {
    if |b| > 1 { UintPositive(b[1..]); }
  }

  /** PushdataBytes: the shortest instruction that pushes the data. */
  function PushdataBytes(data: bytes): (code: bytes)
    ensures |code| > 0
  {
    var l := |data|;
    if l == 0 then [OP_0]
    else if l <= 75 then [OP_DATA_1 + l - 1] + data
    else if l < 0x100 then [OP_PUSHDATA1, l] + data
    else if l < 0x1_0000 then [OP_PUSHDATA2] + LittleEndian(l, 2) + data
    else [OP_PUSHDATA4] + LittleEndian(l % TWO_32, 4) + data
  }

  function PushdataInt64(n: int64): (code: bytes)
    ensures |code| > 0
  {
    if n == 0 then [OP_0]
    else if 1 <= n <= 16 then [OP_1 + n - 1]
    else PushdataBytes(Int64Bytes(n))
  }

  // ---------------------------------------------------------------- the loops

  method ComputeAsBool(b: bytes) returns (r: bool)
    ensures r == AsBool(b)
  {
    for i := 0 to |b|
      invariant forall j :: 0 <= j < i ==> b[j] == 0
    {
      if b[i] != 0 {
        return true;
      }
    }
    return false;
  }

  method ComputeInt64Bytes(n: int64) returns (res: bytes)
    ensures res == Int64Bytes(n)
  {
    if n == 0 {
      ZeroBytes(8);
      return [];
    }
    res := LittleEndian(AsUnsigned(n), 8);
    while |res| > 0 && res[|res| - 1] == 0
      invariant Trim(res) == Trim(LittleEndian(AsUnsigned(n), 8))
      decreases |res|
    {
      res := res[..|res| - 1];
    }
  }

  lemma {:induction false} ZeroBytes(k: nat)
    ensures forall i :: 0 <= i < k ==> LittleEndian(0, k)[i] == 0
    ensures Trim(LittleEndian(0, k)) == []
  {
    if k > 0 {
      ZeroBytes(k - 1);
      TrimZeros(LittleEndian(0, k));
    }
  }

  lemma {:induction false} TrimZeros(b: bytes)
    requires forall i :: 0 <= i < |b| ==> b[i] == 0
    ensures Trim(b) == []
    decreases |b|
  {
    if b != [] { TrimZeros(b[..|b| - 1]); }
  }
}
