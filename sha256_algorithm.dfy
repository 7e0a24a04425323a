// The hasher state handed to the `merkletree` crate: a 32-byte buffer whose
// first eight bytes `finish` folds into a `u64`. Its `hash` method, a call into
// the `sha2` crate, is not part of this model.
module Hasher {
  import opened Bytes

  class Sha256Algorithm {
    /** The `[u8; 32]` state. */
    var data: array<u8>

    ghost predicate Valid()
      reads this
    {
      data.Length == 32
    }

    /** `Default::default`: an all-zero state. */
    constructor Default()
      ensures Valid() && fresh(data)
      ensures data[..] == Zeros(32)
    {
      data := new u8[32](_ => 0);
    }

    /** `Hasher::write` ignores its input: neither the buffer nor its contents change. */
    method Write(bytes: seq<u8>)
      requires Valid()
      modifies this, data
      ensures Valid()
      ensures data == old(data) && data[..] == old(data[..])
    {
    }

    /**
     * `Hasher::finish`: the first eight bytes of the state read as a big-endian
     * `u64`; bytes 8..31 play no part. Each step is `(result << 8) | byte` on a
     * `u64`, written here as a wrapping multiplication by 256 plus the byte
     * (the shift leaves the low eight bits zero, so `|` adds).
     */
    method Finish() returns (r: u64)
      requires Valid()
      ensures r == BigEndian(data[..8])
    {
      var result: u64 := 0;
      var i := 0;
      while i < 8
        invariant 0 <= i <= 8
        invariant result == BigEndian(data[..i])
      {
        BigEndianBound(data[..i]);
        BigEndianSnoc(data[..i], data[i]);
        assert data[..i + 1] == data[..i] + [data[i]];
        PowBelowEight(i);
        result := (result * 256) % 0x1_0000_0000_0000_0000 + data[i];
        i := i + 1;
      }
      r := result;
    }
  }

  /** A value of at most seven bytes, shifted left by one byte, still fits in 64 bits. */
  lemma PowBelowEight(i: nat)
    requires i < 8
    ensures 256 * Pow256(i) <= 0x1_0000_0000_0000_0000
  {
    PowMonotone(i, 7);
    assert Pow256(7) == 256 * 256 * 256 * 256 * 256 * 256 * 256;
  }

  /** `Sha256Algorithm::default().finish()` is 0. */
  method FinishOfDefault() returns (r: u64)
    ensures r == 0
  {
    var h := new Sha256Algorithm.Default();
    r := h.Finish();
    BigEndianZeros(8);
    assert h.data[..8] == Zeros(8);
  }

  /** Two hashers finish with the same value exactly when their first eight bytes agree. */
  method FinishPair(a: Sha256Algorithm, b: Sha256Algorithm) returns (ra: u64, rb: u64)
    requires a.Valid() && b.Valid()
    ensures ra == rb <==> a.data[..8] == b.data[..8]
  {
    ra := a.Finish();
    rb := b.Finish();
    if ra == rb {
      BigEndianInjective(a.data[..8], b.data[..8]);
    }
  }

  /** Writing into the hasher never changes what `finish` returns. */
  method FinishAfterWrite(h: Sha256Algorithm, bytes: seq<u8>) returns (before: u64, after: u64)
    requires h.Valid()
    modifies h, h.data
    ensures before == after
  {
    before := h.Finish();
    h.Write(bytes);
    after := h.Finish();
  }
}
