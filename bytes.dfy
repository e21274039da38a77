/** The byte split and recombination used to carry 32-bit index witnesses
    through a solver that answers in bytes. */
module Bytes {

  /** The bit offset `8*j` of byte `j`, as a shift amount. */
  function Offset(j: nat): (r: bv32)
    requires j < 4
  {
    if j == 0 then 0 else if j == 1 then 8 else if j == 2 then 16 else 24
  }

  /** The byte that `Extract(e, 8*j, Int8)` denotes when `e` denotes `v`
      (byte `j`, little-endian). */
  function ByteOf(v: bv32, j: nat): bv8
    requires j < 4
  {
    ((v >> Offset(j)) & 0xFF) as bv8
  }

  /** The four bytes of `v`, least significant first. */
  function Split(v: bv32): (bs: seq<bv8>)
    ensures |bs| == 4
  {
    [ByteOf(v, 0), ByteOf(v, 1), ByteOf(v, 2), ByteOf(v, 3)]
  }

  /** `b << 8*j` as a 32-bit value. */
  function Shifted(b: bv8, j: nat): bv32
    requires j < 4
  {
    (b as bv32) << Offset(j)
  }

  /** The value of `value` after the first `j` rounds of `value |= b << 8*j`
      over the bytes `bs`, starting from 0. */
  function Recombine(bs: seq<bv8>, j: nat): bv32
    requires j <= |bs| && j <= 4
  {
    if j == 0 then 0 else Recombine(bs, j - 1) | Shifted(bs[j - 1], j - 1)
  }

  /** The word four bytes recombine into. */
  function Word(bs: seq<bv8>): bv32
    requires |bs| == 4
  {
    Recombine(bs, 4)
  }

  lemma RecombineFour(bs: seq<bv8>)
    requires |bs| == 4
    ensures Recombine(bs, 4) == (bs[0] as bv32) | ((bs[1] as bv32) << 8)
                        | ((bs[2] as bv32) << 16) | ((bs[3] as bv32) << 24)
  {
    assert Recombine(bs, 1) == bs[0] as bv32;
    assert Recombine(bs, 2) == (bs[0] as bv32) | ((bs[1] as bv32) << 8);
    assert Recombine(bs, 3) == (bs[0] as bv32) | ((bs[1] as bv32) << 8) | ((bs[2] as bv32) << 16);
  }

  /** Recombining the four bytes of any 32-bit value gives the value back. */
  lemma WordOfSplit(v: bv32)
    ensures Word(Split(v)) == v
  {
    RecombineFour(Split(v));
  }

  /** Any four bytes are the split of the word they recombine into:
      together with WordOfSplit, Split and Word are inverse bijections. */
  lemma SplitOfWord(bs: seq<bv8>)
    requires |bs| == 4
    ensures Split(Word(bs)) == bs
  {
    RecombineFour(bs);
  }

  /** Witness `k` of a decoded buffer: bytes `4k .. 4k+3`, little-endian. */
  function Witness(buf: seq<bv8>, k: nat): bv32
    requires 4 * k + 4 <= |buf|
  {
    Word(buf[4 * k .. 4 * k + 4])
  }

  /** The `n` witnesses a `4n`-byte buffer decodes into, in index order. */
  function Witnesses(buf: seq<bv8>, n: nat): seq<bv32>
    requires 4 * n <= |buf|
  {
    if n == 0 then [] else Witnesses(buf, n - 1) + [Witness(buf, n - 1)]
  }

  lemma {:induction false} WitnessesAt(buf: seq<bv8>, n: nat)
    requires 4 * n <= |buf|
    ensures |Witnesses(buf, n)| == n
    ensures forall k :: 0 <= k < n ==> Witnesses(buf, n)[k] == Word(buf[4 * k .. 4 * k + 4])
  {
    if n > 0 {
      WitnessesAt(buf, n - 1);
    }
  }

  /** If every byte `4k+j` of the buffer is byte `j` of `xs[k]` (the side
      constraints hold for index values `xs`), decoding gives back exactly `xs`. */
  lemma {:induction false} WitnessesRoundTrip(buf: seq<bv8>, xs: seq<bv32>)
    requires |buf| == 4 * |xs|
    requires forall k, j :: 0 <= k < |xs| && 0 <= j < 4 ==> buf[4 * k + j] == ByteOf(xs[k], j)
    ensures Witnesses(buf, |xs|) == xs
  {
    WitnessesAt(buf, |xs|);
    forall k | 0 <= k < |xs|
      ensures Witnesses(buf, |xs|)[k] == xs[k]
    {
      var bs := buf[4 * k .. 4 * k + 4];
      assert bs == Split(xs[k]) by {
        assert bs[0] == buf[4 * k + 0];
        assert bs[1] == buf[4 * k + 1];
        assert bs[2] == buf[4 * k + 2];
        assert bs[3] == buf[4 * k + 3];
      }
      WordOfSplit(xs[k]);
    }
  }

  /** Witness `k`, rebuilt from four buffer bytes with `value |= b << 8*j`. */
  method DecodeWitness(buf: seq<bv8>, k: nat) returns (value: bv32)
    requires 4 * k + 4 <= |buf|
    ensures value == Word(buf[4 * k .. 4 * k + 4])
  {
    ghost var bytes := buf[4 * k .. 4 * k + 4];
    value := 0;
    for j := 0 to 4
      invariant value == Recombine(bytes, j)
    {
      assert bytes[j] == buf[4 * k + j];
      value := value | Shifted(buf[4 * k + j], j);
    }
  }
}
