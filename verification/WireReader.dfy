/** encoding/blockchain.Reader as it runs: a buffer that every read advances. */
module WireReader {
  import opened Basics
  import opened WireCodec

  /** Reader: the buffer shrinks with every read. */
  class Reader {
    var buf: bytes

    constructor (b: bytes)
      ensures buf == b
    {
      buf := b;
    }

    method ReadByte() returns (r: Option<byte>)
      modifies this
      ensures old(buf) == [] ==> r.None? && buf == old(buf)
      ensures old(buf) != [] ==> r == Some(old(buf)[0]) && buf == old(buf)[1..]
    {
      if |buf| == 0 {
        return None;
      }
      r := Some(buf[0]);
      buf := buf[1..];
    }

    /** The value is what the function reads, and so is what is left; a failed read leaves an unspecified buffer. */
    ghost predicate Did<T(!new)>(r: Read<T>, got: Option<T>)
      reads this
    {
      if r.Failed? then got.None? else got == Some(r.value) && buf == r.rest
    }

    method ReadUvarint() returns (got: Option<nat>)
      modifies this
      ensures Did(WireCodec.ReadUvarint(old(buf)), got)
    {
      var x: nat, scale: nat, i := 0, 1, 0;
      while true
        invariant Scaled(x, scale, ReadUvarintAt(buf, i)) == WireCodec.ReadUvarint(old(buf))
        decreases |buf|
      {
        var b := ReadByte();
        if b.None? {
          return None;
        }
        var low: int := b.value;
        if low < 128 {
          if i > 9 || (i == 9 && low > 1) {
            return None;
          }
          return Some(x + scale * low);
        }
        low := low - 128;
        ScaledStep(x, scale, low, ReadUvarintAt(buf, i + 1));
        x := x + scale * low;
        scale := scale * 128;
        i := i + 1;
      }
    }

    method ReadVarint31() returns (got: Option<nat>)
      modifies this
      ensures Did(WireCodec.ReadVarint31(old(buf)), got)
    {
      got := ReadUvarint();
      if got.Some? && got.value > MAX_INT32 {
        return None;
      }
    }

    method ReadVarstr31() returns (got: Option<bytes>)
      modifies this
      ensures Did(WireCodec.ReadVarstr31(old(buf)), got)
    {
      hide WireCodec.ReadVarint;
      var l := ReadVarint31();
      if l.None? {
        return None;
      }
      if l.value == 0 {
        return Some([]);
      }
      if l.value > |buf| {
        return None;
      }
      got := Some(buf[..l.value]);
      buf := buf[l.value..];
    }

    method ReadVarstrList() returns (got: Option<seq<bytes>>)
      modifies this
      ensures Did(WireCodec.ReadVarstrList(old(buf)), got)
    {
      hide WireCodec.ReadVarint, WireCodec.ReadVarstr31;
      var n := ReadVarint31();
      if n.None? {
        return None;
      }
      var result := [];
      ghost var start := buf;
      ghost var all := n.value;
      var nelts := n.value;
      assert ReadVarstrs(start, all).Got? ==> [] + ReadVarstrs(start, all).value == ReadVarstrs(start, all).value;
      while nelts > 0
        invariant Prefixed(result, ReadVarstrs(buf, nelts)) == ReadVarstrs(start, all)
      {
        var s := ReadVarstr31();
        if s.None? {
          return None;
        }
        ghost var more := ReadVarstrs(buf, nelts - 1);
        assert more.Got? ==> result + ([s.value] + more.value) == result + [s.value] + more.value;
        result := result + [s.value];
        nelts := nelts - 1;
      }
      assert result + [] == result;
      return Some(result);
    }
  }

  /** x plus scale times what is still to be read. */
  ghost function Scaled(x: nat, scale: nat, r: Read<nat>): Read<nat>
  {
    if r.Failed? then Failed else Got(x + scale * r.value, r.rest)
  }

  lemma {:induction false} ScaledStep(x: nat, scale: nat, low: nat, r: Read<nat>)
    ensures r.Got? ==> Scaled(x, scale, Got(low + 128 * r.value, r.rest)) == Scaled(x + scale * low, scale * 128, r)
  {
    if r.Got? {
      var v := r.value;
      assert scale * (low + 128 * v) == scale * low + scale * (128 * v);
      assert scale * (128 * v) == (scale * 128) * v;
    }
  }

  ghost function Prefixed(front: seq<bytes>, r: Read<seq<bytes>>): Read<seq<bytes>>
  {
    if r.Failed? then Failed else Got(front + r.value, r.rest)
  }
}
