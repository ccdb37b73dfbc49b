/** The byte reader `DataPointer` (utils.py): a cursor over a byte string that
    hands out raw slices and unsigned integers of either endianness. */
module DataPointers {
  type Byte = x: int | 0 <= x < 256

  datatype Endian = Little | Big

  /** Where a Python slice bound lands: a negative bound counts from the end,
      and the result is clamped to [0, n]. */
  function SliceBound(i: int, n: nat): (b: nat)
    ensures b <= n
    ensures 0 <= i <= n ==> b == i
  {
    if i < 0 then (if i + n < 0 then 0 else i + n)
    else if i > n then n
    else i
  }

  /** `s[start:stop]` with Python's rules for out-of-range and negative bounds. */
  function PySlice<T>(s: seq<T>, start: int, stop: int): (r: seq<T>)
    ensures |r| <= |s|
    ensures 0 <= start <= stop <= |s| ==> r == s[start..stop]
  {
    var lo := SliceBound(start, |s|);
    var hi := SliceBound(stop, |s|);
    if lo < hi then s[lo..hi] else []
  }

  function Pow256(n: nat): (p: nat)
    ensures p >= 1
  {
    if n == 0 then 1 else 256 * Pow256(n - 1)
  }

  /** The unsigned value of a big-endian byte string. */
  function FromBigEndian(bs: seq<Byte>): (v: nat)
    ensures v < Pow256(|bs|)
  {
    if bs == [] then 0 else FromBigEndian(bs[..|bs| - 1]) * 256 + bs[|bs| - 1]
  }

  function Reverse<T>(s: seq<T>): (r: seq<T>)
    ensures |r| == |s|
    ensures forall i :: 0 <= i < |s| ==> r[i] == s[|s| - 1 - i]
  {
    if s == [] then [] else Reverse(s[1..]) + [s[0]]
  }

  /** `int.from_bytes(bs, endian)`: the unsigned value, most significant byte
      first for big-endian and last for little-endian. */
  function FromBytes(bs: seq<Byte>, endian: Endian): (v: nat)
    ensures v < Pow256(|bs|)
  {
    match endian
    case Big => FromBigEndian(bs)
    case Little => FromBigEndian(Reverse(bs))
  }

  /** The `len` bytes of `v`, most significant first: the inverse used to
      state what decoding means. */
  function ToBigEndian(v: nat, len: nat): (bs: seq<Byte>)
    ensures |bs| == len
  {
    if len == 0 then [] else ToBigEndian(v / 256, len - 1) + [v % 256]
  }

  /** Decoding the big-endian encoding of a value that fits gives the value
      back, and encoding a decoded string gives the string back. */
  lemma {:induction false} BigEndianRoundTrip(v: nat, len: nat)
    requires v < Pow256(len)
    ensures FromBigEndian(ToBigEndian(v, len)) == v
  {
    if len > 0 {
      var bs := ToBigEndian(v, len);
      assert bs[..|bs| - 1] == ToBigEndian(v / 256, len - 1);
      BigEndianRoundTrip(v / 256, len - 1);
    }
  }

  lemma {:induction false} BigEndianDecodeEncode(bs: seq<Byte>)
    ensures ToBigEndian(FromBigEndian(bs), |bs|) == bs
  {
    if bs != [] {
      var init := bs[..|bs| - 1];
      var v := FromBigEndian(bs);
      assert v / 256 == FromBigEndian(init) && v % 256 == bs[|bs| - 1];
      BigEndianDecodeEncode(init);
      assert init + [bs[|bs| - 1]] == bs;
    }
  }

  /** The two byte orders read the same bytes in opposite directions. */
  lemma EndiansMirror(bs: seq<Byte>)
    ensures FromBytes(bs, Little) == FromBytes(Reverse(bs), Big)
    ensures FromBytes(Reverse(bs), Little) == FromBytes(bs, Big)
  {
    var rr := Reverse(Reverse(bs));
    assert rr == bs;
  }

  class DataPointer {
    const data: seq<Byte>
    var pointer: int
    const endian: Endian

    /** `DataPointer(data, endian)`: the cursor starts at 0. */
    constructor (data: seq<Byte>, endian: Endian)
      ensures this.data == data && this.endian == endian && pointer == 0
    {
      this.data := data;
      this.endian := endian;
      pointer := 0;
    }

    /** `get_raw_bytes(size)`: the slice `data[p:p+size]`; the cursor moves on
        by `size` even past the end. */
    method GetRawBytes(size: int) returns (value: seq<Byte>)
      modifies this`pointer
      ensures value == PySlice(data, old(pointer), old(pointer) + size)
      ensures pointer == old(pointer) + size
    {
      value := PySlice(data, pointer, pointer + size);
      pointer := pointer + size;
    }

    /** `get_byte(size)`: those bytes as an unsigned integer in the reader's
        byte order, so below 256^size when the slice is whole. */
    method GetByte(size: int) returns (v: nat)
      modifies this`pointer
      ensures v == FromBytes(PySlice(data, old(pointer), old(pointer) + size), endian)
      ensures 0 <= size ==> v < Pow256(size)
      ensures pointer == old(pointer) + size
    {
      var raw := GetRawBytes(size);
      v := FromBytes(raw, endian);
      if 0 <= size {
        PowMonotone(|raw|, size);
      }
    }

    /** `verify_end`. */
    function VerifyEnd(): (r: bool)
      reads this
      ensures r <==> pointer == |data|
    {
      pointer == |data|
    }
  }

  lemma {:induction false} PowMonotone(a: nat, b: nat)
    requires a <= b
    ensures Pow256(a) <= Pow256(b)
    decreases b
  {
    if a < b {
      PowMonotone(a, b - 1);
    }
  }

  function Sum(sizes: seq<nat>): nat
  {
    if sizes == [] then 0 else Sum(sizes[..|sizes| - 1]) + sizes[|sizes| - 1]
  }

  /** Two reads in a row return adjacent slices: together they are the one
      slice spanning both. */
  lemma AdjacentSlices<T>(data: seq<T>, p: nat, a: nat, b: nat)
    ensures PySlice(data, p, p + a) + PySlice(data, p + a, p + a + b) == PySlice(data, p, p + a + b)
  {
  }

  /** Reading `sizes` one after another from the start returns, in order,
      slices whose concatenation is the prefix of the data of the total length
      (the whole data once the total reaches it). */
  method ReadSequence(dp: DataPointer, sizes: seq<nat>) returns (read: seq<Byte>)
    requires dp.pointer == 0
    modifies dp`pointer
    ensures dp.pointer == Sum(sizes)
    ensures read == dp.data[..if Sum(sizes) <= |dp.data| then Sum(sizes) else |dp.data|]
    ensures dp.VerifyEnd() <==> Sum(sizes) == |dp.data|
  {
    read := [];
    var i := 0;
    while i < |sizes|
      invariant 0 <= i <= |sizes|
      invariant dp.pointer == Sum(sizes[..i])
      invariant read == PySlice(dp.data, 0, dp.pointer)
    {
      assert sizes[..i + 1][..i] == sizes[..i];
      var p := dp.pointer;
      var chunk := dp.GetRawBytes(sizes[i]);
      AdjacentSlices(dp.data, 0, p, sizes[i]);
      read := read + chunk;
      i := i + 1;
    }
    assert sizes[..i] == sizes;
  }
}
