// Byte-level vocabulary shared by the contract and the hasher: Rust's `u8`
// and `u64`, the `[u8; 32]` digests the contract stores, and the big-endian
// reading of a byte string as a number.
module Bytes {

  /** Rust `u8`. */
  type u8 = x: int | 0 <= x < 256

  /** Rust `u64`: the integers below 2^64. */
  type u64 = x: int | 0 <= x < 0x1_0000_0000_0000_0000

  /** A `[u8; n]` filled with zeros. */
  function Zeros(n: nat): (r: seq<u8>)
    ensures |r| == n
    ensures forall i :: 0 <= i < n ==> r[i] == 0
  {
    seq(n, _ => 0)
  }

  /** Rust `[u8; 32]`: a Merkle root or leaf digest. */
  type Hash32 = s: seq<u8> | |s| == 32 witness Zeros(32)

  /** 256^n, the place value of the byte n positions from the right. */
  function Pow256(n: nat): (r: nat)
    ensures r >= 1
  {
    if n == 0 then 1 else 256 * Pow256(n - 1)
  }

  /** Place values grow with the position. */
  lemma {:induction false} PowMonotone(i: nat, j: nat)
    requires i <= j
    ensures Pow256(i) <= Pow256(j)
  {
    if i < j {
      PowMonotone(i, j - 1);
    }
  }

  /** The number whose big-endian bytes are `bs`: the sum of bs[i] * 256^(|bs|-1-i). */
  function BigEndian(bs: seq<u8>): nat
  {
    if |bs| == 0 then 0 else bs[0] * Pow256(|bs| - 1) + BigEndian(bs[1..])
  }

  /** The `k` big-endian bytes of `n`, most significant first. */
  function ToBigEndian(n: nat, k: nat): (r: seq<u8>)
    requires n < Pow256(k)
    ensures |r| == k
  {
    if k == 0 then [] else ToBigEndian(n / 256, k - 1) + [n % 256]
  }

  /** Appending a byte shifts the value one byte to the left and adds the byte. */
  lemma {:induction false} BigEndianSnoc(bs: seq<u8>, b: u8)
    ensures BigEndian(bs + [b]) == BigEndian(bs) * 256 + b
  {
    if |bs| == 0 {
      assert bs + [b] == [b];
      assert [b][1..] == [];
    } else {
      var n := |bs|;
      assert (bs + [b])[0] == bs[0];
      assert (bs + [b])[1..] == bs[1..] + [b];
      BigEndianSnoc(bs[1..], b);
      calc {
        BigEndian(bs + [b]);
        bs[0] * Pow256(n) + BigEndian(bs[1..] + [b]);
        bs[0] * (256 * Pow256(n - 1)) + BigEndian(bs[1..]) * 256 + b;
        { assert bs[0] * (256 * Pow256(n - 1)) == (bs[0] * Pow256(n - 1)) * 256; }
        (bs[0] * Pow256(n - 1) + BigEndian(bs[1..])) * 256 + b;
        BigEndian(bs) * 256 + b;
      }
    }
  }

  /** `k` bytes hold a number below 256^k, so eight bytes always fit in a `u64`. */
  lemma {:induction false} BigEndianBound(bs: seq<u8>)
    ensures BigEndian(bs) < Pow256(|bs|)
  {
    if |bs| > 0 {
      var p, rest := Pow256(|bs| - 1), BigEndian(bs[1..]);
      BigEndianBound(bs[1..]);
      assert Pow256(|bs|) == 256 * p;
      assert BigEndian(bs) == bs[0] * p + rest;
      MulAtMost255(bs[0], p);
      assert bs[0] * p + rest < 256 * p;
    }
  }

  lemma MulAtMost255(b: u8, p: nat)
    ensures b * p <= 255 * p
  {
  }

  /** Reading back the bytes of `n` gives `n`. */
  lemma {:induction false} BigEndianOfToBigEndian(n: nat, k: nat)
    requires n < Pow256(k)
    ensures BigEndian(ToBigEndian(n, k)) == n
  {
    if k > 0 {
      BigEndianOfToBigEndian(n / 256, k - 1);
      BigEndianSnoc(ToBigEndian(n / 256, k - 1), n % 256);
    }
  }

  /** Writing out the value of `bs` in |bs| bytes gives `bs` back. */
  lemma {:induction false} ToBigEndianOfBigEndian(bs: seq<u8>)
    ensures BigEndian(bs) < Pow256(|bs|)
    ensures ToBigEndian(BigEndian(bs), |bs|) == bs
  {
    BigEndianBound(bs);
    if |bs| > 0 {
      var init, last := bs[..|bs| - 1], bs[|bs| - 1];
      assert bs == init + [last];
      BigEndianSnoc(init, last);
      ToBigEndianOfBigEndian(init);
      assert BigEndian(bs) / 256 == BigEndian(init);
      assert BigEndian(bs) % 256 == last;
    }
  }

  /** Equal-length byte strings with the same big-endian value are equal. */
  lemma BigEndianInjective(a: seq<u8>, b: seq<u8>)
    requires |a| == |b| && BigEndian(a) == BigEndian(b)
    ensures a == b
  {
    ToBigEndianOfBigEndian(a);
    ToBigEndianOfBigEndian(b);
  }

  /** An all-zero byte string reads as 0. */
  lemma {:induction false} BigEndianZeros(n: nat)
    ensures BigEndian(Zeros(n)) == 0
  {
    if n > 0 {
      assert Zeros(n)[1..] == Zeros(n - 1);
      BigEndianZeros(n - 1);
    }
  }
}
