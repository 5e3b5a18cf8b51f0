/** encoding/blockchain: varints, length-prefixed strings and extensible strings. */
module WireCodec {
  import opened Basics

  /** What a reader returns: a value and the bytes after it, or an error. */
  datatype Read<+T> = Got(value: T, rest: bytes) | Failed {
    predicate IsFailure() { Failed? }
    function PropagateFailure<U>(): Read<U> requires Failed? { Failed }
    function Extract(): (T, bytes) requires Got? { (value, rest) }
  }

  /** What a writer emits, or the range error. */
  datatype Out = Bytes(b: bytes) | OutOfRange {
    predicate IsFailure() { OutOfRange? }
    function PropagateFailure(): Out requires OutOfRange? { OutOfRange }
    function Extract(): bytes requires Bytes? { b }
  }

  // ---------------------------------------------------------------- varints

  function PutUvarint(n: nat): (b: bytes)
    ensures b != []
  {
    if n < 128 then [n] else [n % 128 + 128] + PutUvarint(n / 128)
  }

  function Pow128(i: nat): (p: nat)
    ensures p > 0
  {
    if i == 0 then 1 else 128 * Pow128(i - 1)
  }

  /** binary.ReadUvarint from the i-th byte on: at most ten bytes, the tenth at most 1. */
  function ReadUvarintAt(buf: bytes, i: nat): Read<nat>
    decreases |buf|
  {
    if buf == [] then Failed
    else
      var b: int := buf[0];
      if b < 128 then
        if i > 9 || (i == 9 && b > 1) then Failed else Got(b, buf[1..])
      else
        var (high, rest) :- ReadUvarintAt(buf[1..], i + 1);
        Got(b - 128 + 128 * high, rest)
  }

  function ReadUvarint(buf: bytes): Read<nat>
  {
    ReadUvarintAt(buf, 0)
  }

  lemma {:induction false} UvarintAt(n: nat, i: nat, rest: bytes)
    requires i <= 8 && n < Pow128(9 - i)
    ensures ReadUvarintAt(PutUvarint(n) + rest, i) == Got(n, rest)
    decreases n
  {
    var buf := PutUvarint(n) + rest;
    Pow128One();
    if n < 128 {
      assert buf[1..] == rest;
    } else {
      UvarintAt(n / 128, i + 1, rest);
      assert buf[1..] == PutUvarint(n / 128) + rest;
    }
  }

  lemma {:induction false} Pow128One()
    ensures Pow128(1) == 128
  {
  }

  lemma {:induction false} Pow128Nine()
    ensures Pow128(9) == MAX_INT64 + 1
  {
    assert Pow128(1) == 0x80;
    assert Pow128(2) == 0x4000;
    assert Pow128(3) == 0x20_0000;
    assert Pow128(4) == 0x1000_0000;
    assert Pow128(5) == 0x8_0000_0000;
    assert Pow128(6) == 0x400_0000_0000;
    assert Pow128(7) == 0x2_0000_0000_0000;
    assert Pow128(8) == 0x100_0000_0000_0000;
  }

  function WriteVarint(n: nat, max: nat): Out
  {
    if n > max then OutOfRange else Bytes(PutUvarint(n))
  }

  function WriteVarint63(n: nat): Out
  {
    WriteVarint(n, MAX_INT64)
  }

  function WriteVarint31(n: nat): Out
  {
    WriteVarint(n, MAX_INT32)
  }

  function ReadVarint(buf: bytes, max: nat): Read<nat>
  {
    var (n, rest) :- ReadUvarint(buf);
    if n > max then Failed else Got(n, rest)
  }

  function ReadVarint63(buf: bytes): Read<nat>
  {
    ReadVarint(buf, MAX_INT64)
  }

  function ReadVarint31(buf: bytes): Read<nat>
  {
    ReadVarint(buf, MAX_INT32)
  }

  lemma {:induction false} VarintRoundTrip(n: nat, max: nat, rest: bytes)
    requires WriteVarint(n, max).Bytes? && max <= MAX_INT64
    ensures ReadVarint(WriteVarint(n, max).b + rest, max) == Got(n, rest)
  {
    hide PutUvarint, ReadUvarintAt, Pow128;
    Pow128Nine();
    UvarintAt(n, 0, rest);
  }

  // ---------------------------------------------------------------- strings

  function WriteVarstr31(s: bytes): Out
  {
    var n :- WriteVarint31(|s|);
    Bytes(n + s)
  }

  function ReadVarstr31(buf: bytes): Read<bytes>
  {
    var (l, rest) :- ReadVarint31(buf);
    if l == 0 then Got([], rest)
    else if l > |rest| then Failed
    else Got(rest[..l], rest[l..])
  }

  lemma {:induction false} VarstrRoundTrip(s: bytes, rest: bytes)
    requires WriteVarstr31(s).Bytes?
    ensures ReadVarstr31(WriteVarstr31(s).b + rest) == Got(s, rest)
  {
    hide ReadVarint, WriteVarint;
    var n := WriteVarint31(|s|).b;
    VarintRoundTrip(|s|, MAX_INT32, s + rest);
    assert n + s + rest == n + (s + rest);
    assert (s + rest)[..|s|] == s && (s + rest)[|s|..] == rest;
  }

  function WriteVarstrs(l: seq<bytes>): Out
  {
    if l == [] then Bytes([])
    else
      var s :- WriteVarstr31(l[0]);
      var more :- WriteVarstrs(l[1..]);
      Bytes(s + more)
  }

  function WriteVarstrList(l: seq<bytes>): Out
  {
    var n :- WriteVarint31(|l|);
    var items :- WriteVarstrs(l);
    Bytes(n + items)
  }

  function ReadVarstrs(buf: bytes, n: nat): Read<seq<bytes>>
    decreases n
  {
    if n == 0 then Got([], buf)
    else
      var (s, rest) :- ReadVarstr31(buf);
      var (more, rest) :- ReadVarstrs(rest, n - 1);
      Got([s] + more, rest)
  }

  function ReadVarstrList(buf: bytes): Read<seq<bytes>>
  {
    var (n, rest) :- ReadVarint31(buf);
    ReadVarstrs(rest, n)
  }

  lemma {:induction false} VarstrsRoundTrip(l: seq<bytes>, rest: bytes)
    requires WriteVarstrs(l).Bytes?
    ensures ReadVarstrs(WriteVarstrs(l).b + rest, |l|) == Got(l, rest)
    decreases |l|
  {
    hide ReadVarstr31, WriteVarstr31;
    if l == [] {
      assert WriteVarstrs(l).b + rest == rest;
    } else {
      var s, more := WriteVarstr31(l[0]).b, WriteVarstrs(l[1..]).b;
      VarstrRoundTrip(l[0], more + rest);
      VarstrsRoundTrip(l[1..], rest);
      assert s + more + rest == s + (more + rest);
      assert [l[0]] + l[1..] == l;
    }
  }

  lemma {:induction false} VarstrListRoundTrip(l: seq<bytes>, rest: bytes)
    requires WriteVarstrList(l).Bytes?
    ensures ReadVarstrList(WriteVarstrList(l).b + rest) == Got(l, rest)
  {
    hide ReadVarint, WriteVarint, ReadVarstrs, WriteVarstrs;
    var n, items := WriteVarint31(|l|).b, WriteVarstrs(l).b;
    VarintRoundTrip(|l|, MAX_INT32, items + rest);
    VarstrsRoundTrip(l, rest);
    assert n + items + rest == n + (items + rest);
  }

  /** An extensible string: content and suffix under one length. */
  function WriteExtensible(content: bytes, suffix: bytes): Out
  {
    WriteVarstr31(content + suffix)
  }

  // ---------------------------------------------------------------- 32-byte hashes

  function ReadHash(buf: bytes): Read<Hash>
  {
    if |buf| < 32 then Failed else Got(buf[..32], buf[32..])
  }

  lemma {:induction false} HashRoundTrip(h: Hash, rest: bytes)
    ensures ReadHash(h + rest) == Got(h, rest)
  {
    assert (h + rest)[..32] == h && (h + rest)[32..] == rest;
  }
}
