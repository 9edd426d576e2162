/** Sample decoding: the two 65536-entry lookup tables built by the
    SDRPostThread constructor and the per-block conversion of interleaved
    raw bytes into complex samples.

    A sample is kept as the pair of raw bytes that produced its real and
    imaginary parts; the float normalisation of each byte is not modelled. */
module Samples {

  type Byte = b: int | 0 <= b < 256

  /** Number of entries in each lookup table (one per 16-bit raw pair). */
  const TableSize: nat := 65536

  /** A complex sample, given by the bytes of its real and imaginary parts. */
  datatype Sample = Sample(re: Byte, im: Byte)

  /** The sample with real and imaginary parts exchanged. */
  function Swap(s: Sample): (r: Sample)
    ensures r.re == s.im && r.im == s.re
  {
    Sample(s.im, s.re)
  }

  /** Entry `i` of the normal table: the low byte of `i` is the real part,
      the high byte the imaginary part (little-endian host). */
  function LutEntry(i: int): (r: Sample)
    requires 0 <= i < TableSize
    ensures PairIndex(r.re, r.im) == i
  {
    Sample(i % 256, i / 256)
  }

  /** Entry `i` of the swapped table: the low byte of `i` is the imaginary
      part, the high byte the real part. */
  function SwapEntry(i: int): (r: Sample)
    requires 0 <= i < TableSize
    ensures PairIndex(r.im, r.re) == i
  {
    Sample(i / 256, i % 256)
  }

  /** The table index read for one raw byte pair: the two bytes are read
      as one little-endian 16-bit value. */
  function PairIndex(b0: Byte, b1: Byte): (r: int)
    ensures 0 <= r < TableSize
    ensures r % 256 == b0 && r / 256 == b1
  {
    b0 + 256 * b1
  }

  /** The table selected by the swap flag. */
  function Table(swap: bool, i: int): (r: Sample)
    requires 0 <= i < TableSize
    ensures (if swap then PairIndex(r.im, r.re) else PairIndex(r.re, r.im)) == i
  {
    if swap then SwapEntry(i) else LutEntry(i)
  }

  /** The converted block: one sample per byte pair, looked up in the
      table the swap flag selects; a trailing odd byte is ignored. */
  function Decoded(data: seq<Byte>, swap: bool): (r: seq<Sample>)
    ensures |r| == |data| / 2
  {
    seq(|data| / 2, k requires 0 <= k < |data| / 2 => Table(swap, PairIndex(data[2 * k], data[2 * k + 1])))
  }

  /** Each swapped-table entry is the normal entry with its parts exchanged. */
  lemma SwapTableIsSwapped(i: int)
    requires 0 <= i < TableSize
    ensures SwapEntry(i) == Swap(LutEntry(i))
  {
  }

  /** Looking a byte pair up in the normal table gives back the two bytes
      as real and imaginary part. */
  lemma LutEntryOfPair(b0: Byte, b1: Byte)
    ensures LutEntry(PairIndex(b0, b1)) == Sample(b0, b1)
    ensures SwapEntry(PairIndex(b0, b1)) == Sample(b1, b0)
  {
    var i := b0 + 256 * b1;
    assert i / 256 == b1 && i % 256 == b0 by {
      assert i == b1 * 256 + b0 && 0 <= b0 < 256;
    }
  }

  /** A block of `n` bytes yields `n / 2` samples; sample `k` takes byte
      `2k` as real part and byte `2k + 1` as imaginary part, or the other
      way round in swap mode. */
  lemma DecodedSamples(data: seq<Byte>, swap: bool)
    ensures |Decoded(data, swap)| == |data| / 2
    ensures forall k :: 0 <= k < |data| / 2 ==>
      Decoded(data, swap)[k] == (if swap then Sample(data[2 * k + 1], data[2 * k]) else Sample(data[2 * k], data[2 * k + 1]))
  {
    forall k | 0 <= k < |data| / 2
      ensures Decoded(data, swap)[k] == (if swap then Sample(data[2 * k + 1], data[2 * k]) else Sample(data[2 * k], data[2 * k + 1]))
    {
      LutEntryOfPair(data[2 * k], data[2 * k + 1]);
    }
  }

  /** Swap mode decodes every sample with its parts exchanged. */
  lemma DecodedSwapped(data: seq<Byte>)
    ensures |Decoded(data, true)| == |Decoded(data, false)|
    ensures forall k :: 0 <= k < |data| / 2 ==> Decoded(data, true)[k] == Swap(Decoded(data, false)[k])
  {
    DecodedSamples(data, true);
    DecodedSamples(data, false);
  }

  /** The raw bytes a radio would send for the given samples: real part
      first, or imaginary part first in swap mode. */
  function Encoded(xs: seq<Sample>, swap: bool): (r: seq<Byte>)
    ensures |r| == 2 * |xs|
  {
    seq(2 * |xs|, i requires 0 <= i < 2 * |xs| =>
      var s := if swap then Swap(xs[i / 2]) else xs[i / 2];
      if i % 2 == 0 then s.re else s.im)
  }

  /** Decoding the encoding of any samples gives them back. */
  lemma DecodeEncode(xs: seq<Sample>, swap: bool)
    ensures Decoded(Encoded(xs, swap), swap) == xs
  {
    var e := Encoded(xs, swap);
    DecodedSamples(e, swap);
    assert |e| / 2 == |xs|;
    forall k | 0 <= k < |xs|
      ensures Decoded(e, swap)[k] == xs[k]
    {
      assert (2 * k) / 2 == k && (2 * k + 1) / 2 == k;
      assert (2 * k) % 2 == 0 && (2 * k + 1) % 2 == 1;
    }
  }

  /** Encoding a decoded even-length block gives back its bytes. */
  lemma EncodeDecode(data: seq<Byte>, swap: bool)
    requires |data| % 2 == 0
    ensures Encoded(Decoded(data, swap), swap) == data
  {
    var d := Decoded(data, swap);
    DecodedSamples(data, swap);
    var e := Encoded(d, swap);
    assert |e| == |data|;
    forall i | 0 <= i < |data|
      ensures e[i] == data[i]
    {
      var k := i / 2;
      assert i == 2 * k || i == 2 * k + 1;
    }
  }
}
