// The byte layout of the contract's root list: `serialize_merkle_tree_data`
// writes the roots one after another, 32 bytes each, with no header or
// separator. `Flatten` is that layout; `Chunks` reads a buffer back as roots.
module Layout {
  import opened Bytes

  /** The roots laid end to end. */
  function Flatten(roots: seq<Hash32>): seq<u8>
  {
    if |roots| == 0 then [] else Flatten(roots[..|roots| - 1]) + roots[|roots| - 1]
  }

  /** A buffer whose length is a multiple of 32, cut into consecutive 32-byte roots. */
  function Chunks(buf: seq<u8>): (roots: seq<Hash32>)
    requires |buf| % 32 == 0
    ensures |roots| == |buf| / 32
  {
    seq(|buf| / 32, i requires 0 <= i < |buf| / 32 => buf[32 * i..32 * i + 32])
  }

  /** Each root takes exactly 32 bytes. */
  lemma {:induction false} FlattenLength(roots: seq<Hash32>)
    ensures |Flatten(roots)| == 32 * |roots|
  {
    if |roots| > 0 {
      FlattenLength(roots[..|roots| - 1]);
    }
  }

  /** Bytes [32*i, 32*i+32) of the layout are root `i`. */
  lemma {:induction false} FlattenChunk(roots: seq<Hash32>, i: nat)
    requires i < |roots|
    ensures |Flatten(roots)| == 32 * |roots|
    ensures Flatten(roots)[32 * i..32 * i + 32] == roots[i]
  {
    FlattenLength(roots);
    var n := |roots|;
    var init := roots[..n - 1];
    FlattenLength(init);
    assert Flatten(roots) == Flatten(init) + roots[n - 1];
    if i == n - 1 {
      assert Flatten(roots)[32 * i..32 * i + 32] == roots[n - 1];
    } else {
      FlattenChunk(init, i);
      assert Flatten(roots)[32 * i..32 * i + 32] == Flatten(init)[32 * i..32 * i + 32];
    }
  }

  /** Extending the root list by one root extends the layout by its 32 bytes. */
  lemma FlattenSnoc(roots: seq<Hash32>, root: Hash32)
    ensures Flatten(roots + [root]) == Flatten(roots) + root
  {
    assert (roots + [root])[..|roots|] == roots;
  }

  /** Cutting the layout back into chunks recovers the roots. */
  lemma ChunksOfFlatten(roots: seq<Hash32>)
    ensures |Flatten(roots)| % 32 == 0
    ensures Chunks(Flatten(roots)) == roots
  {
    FlattenLength(roots);
    forall i | 0 <= i < |roots|
      ensures Chunks(Flatten(roots))[i] == roots[i]
    {
      FlattenChunk(roots, i);
    }
  }

  /** Every buffer whose length is a multiple of 32 is the layout of its chunks. */
  lemma {:induction false} FlattenOfChunks(buf: seq<u8>)
    requires |buf| % 32 == 0
    ensures Flatten(Chunks(buf)) == buf
    decreases |buf|
  {
    if |buf| > 0 {
      var m := |buf| - 32;
      var front := buf[..m];
      var cs := Chunks(buf);
      assert cs[..|cs| - 1] == Chunks(front) by {
        forall i | 0 <= i < |cs| - 1
          ensures cs[i] == Chunks(front)[i]
        {
          assert front[32 * i..32 * i + 32] == buf[32 * i..32 * i + 32];
        }
      }
      assert cs[|cs| - 1] == buf[m..];
      FlattenOfChunks(front);
      assert buf == front + buf[m..];
    }
  }

  /** Different root lists have different layouts. */
  lemma FlattenInjective(a: seq<Hash32>, b: seq<Hash32>)
    requires Flatten(a) == Flatten(b)
    ensures a == b
  {
    ChunksOfFlatten(a);
    ChunksOfFlatten(b);
  }
}
