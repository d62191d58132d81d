/** Big-endian conversions between byte strings and unsigned integers, as
    Python's `int.from_bytes(bs, byteorder='big')` and
    `n.to_bytes(k, byteorder='big')` perform them. */
module Bytes {
  import opened Wrappers

  type Byte = b: int | 0 <= b < 256

  /** 256 to the power k: the number of distinct values k bytes can hold. */
  function Pow256(k: nat): (p: nat)
    ensures p >= 1
  {
    if k == 0 then 1 else 256 * Pow256(k - 1)
  }

  /** `int.from_bytes(bs, byteorder='big')`: the first byte is the most significant. */
  function FromBigEndian(bs: seq<Byte>): (n: nat)
    ensures n < Pow256(|bs|)
    decreases |bs|
  {
    if |bs| == 0 then 0
    else
      var high := FromBigEndian(bs[..|bs| - 1]);
      assert high * 256 + bs[|bs| - 1] <= (Pow256(|bs| - 1) - 1) * 256 + 255;
      high * 256 + bs[|bs| - 1]
  }

  /** The k-byte big-endian encoding of a value that fits in k bytes. */
  function Encode(n: nat, k: nat): (bs: seq<Byte>)
    requires n < Pow256(k)
    ensures |bs| == k
  {
    if k == 0 then []
    else Encode(n / 256, k - 1) + [n % 256]
  }

  /** `n.to_bytes(k, byteorder='big')`; `None` stands for the OverflowError
      Python raises when n is negative or does not fit in k bytes. */
  function ToBigEndian(n: int, k: nat): (r: Option<seq<Byte>>)
    ensures r.Some? <==> 0 <= n < Pow256(k)
    ensures r.Some? ==> |r.value| == k
  {
    if 0 <= n < Pow256(k) then Some(Encode(n, k)) else None
  }

  /** Decoding an encoding gives the value back. */
  lemma {:induction false} DecodeEncode(n: nat, k: nat)
    requires n < Pow256(k)
    ensures FromBigEndian(Encode(n, k)) == n
  {
    if k > 0 {
      var bs := Encode(n, k);
      assert bs[..k - 1] == Encode(n / 256, k - 1);
      DecodeEncode(n / 256, k - 1);
    }
  }

  /** Encoding a decoded byte string, at its own width, gives the bytes back. */
  lemma {:induction false} EncodeDecode(bs: seq<Byte>)
    ensures Encode(FromBigEndian(bs), |bs|) == bs
    decreases |bs|
  {
    if |bs| > 0 {
      var k := |bs|;
      var high := FromBigEndian(bs[..k - 1]);
      var n := FromBigEndian(bs);
      assert n / 256 == high && n % 256 == bs[k - 1];
      EncodeDecode(bs[..k - 1]);
      assert bs == bs[..k - 1] + [bs[k - 1]];
    }
  }

  /** `int.from_bytes(n.to_bytes(k, 'big'), 'big') == n` whenever `to_bytes` succeeds. */
  lemma ToBigEndianRoundTrip(n: int, k: nat)
    requires ToBigEndian(n, k).Some?
    ensures FromBigEndian(ToBigEndian(n, k).value) == n
  {
    DecodeEncode(n, k);
  }
}
