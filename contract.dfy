// `CompressedNFTContract`: the contract's owner, its list of Merkle roots and
// the map from NFT id to holder, with the calls that change them. A failed
// `require!` aborts the call; the model returns `Abort` with the panic message
// and leaves every field as it was.
module Contract {
  import opened Bytes
  import opened Layout

  /** A NEAR account id, opaque to the contract. */
  type AccountId = string

  /** `anyhow::Result`: the error is kept only as text. */
  datatype Result<T> = Ok(value: T) | Err(error: string)

  /**
   * A `merkletree` proof: the sibling hashes (the crate calls them the `lemma`) and the path bits of one leaf.
   * Whether it holds is decided by the crate's `Proof::validate`, which this
   * model takes as a parameter `validate` and does not interpret.
   */
  datatype Proof = Proof(siblings: seq<Hash32>, path: seq<nat>)

  /** What a call did: it ran to completion, or `require!` panicked. */
  datatype Outcome = Done | Abort(message: string)

  const OwnerOnlyMessage: string := "Only the owner can update the Merkle root"
  const InvalidProofMessage: string := "Invalid Merkle proof"
  /** The panic of `unwrap` on a failed parse. */
  const UnwrapErrMessage: string := "called `Result::unwrap()` on an `Err` value"

  /** The three fields of the contract, as one value. */
  datatype State = State(owner: AccountId, merkleTreeData: seq<Hash32>, nftOwners: map<string, AccountId>)

  /**
   * `verify_merkle_proof`: a proof is accepted only when it was built (`Ok`)
   * and the crate's validation returned `Ok(true)`; a validation error reads
   * as `false` (`unwrap_or(false)`). The NFT id plays no part.
   */
  predicate VerifyMerkleProof(nftId: string, proof: Result<Proof>, validate: Proof -> Result<bool>)
    ensures VerifyMerkleProof(nftId, proof, validate) <==> proof.Ok? && validate(proof.value) == Ok(true)
  {
    match proof
    case Ok(p) => (match validate(p) case Ok(valid) => valid case Err(_) => false)
    case Err(_) => false
  }

  /** A proof that could not be built is never accepted. */
  lemma FailedProofRejected(nftId: string, error: string, validate: Proof -> Result<bool>)
    ensures !VerifyMerkleProof(nftId, Err(error), validate)
  {
  }

  /** The verdict is the same whichever NFT id is asked about. */
  lemma VerifyIgnoresNftId(a: string, b: string, proof: Result<Proof>, validate: Proof -> Result<bool>)
    ensures VerifyMerkleProof(a, proof, validate) == VerifyMerkleProof(b, proof, validate)
  {
  }

  /** `update_merkle_root` as a state transition: only the owner may replace the roots. */
  function UpdateMerkleRootStep(s: State, signer: AccountId, newMerkleRoot: Hash32): (r: (State, Outcome))
    ensures r.1 == Done <==> signer == s.owner
    ensures r.1 == Done ==> r.0.merkleTreeData == [newMerkleRoot]
    ensures r.1 != Done ==> r.1 == Abort(OwnerOnlyMessage) && r.0 == s
    ensures r.0.owner == s.owner && r.0.nftOwners == s.nftOwners
  {
    if signer == s.owner then (s.(merkleTreeData := [newMerkleRoot]), Done)
    else (s, Abort(OwnerOnlyMessage))
  }

  /** `update_merkle_root_after_mint` as a state transition: only the owner may append a root. */
  function AfterMintStep(s: State, signer: AccountId, newMerkleRoot: Hash32): (r: (State, Outcome))
    ensures r.1 == Done <==> signer == s.owner
    ensures r.1 == Done ==>
      |r.0.merkleTreeData| == |s.merkleTreeData| + 1 &&
      r.0.merkleTreeData[..|s.merkleTreeData|] == s.merkleTreeData &&
      r.0.merkleTreeData[|s.merkleTreeData|] == newMerkleRoot
    ensures r.1 != Done ==> r.1 == Abort(OwnerOnlyMessage) && r.0 == s
    ensures r.0.owner == s.owner && r.0.nftOwners == s.nftOwners
  {
    if signer == s.owner then (s.(merkleTreeData := s.merkleTreeData + [newMerkleRoot]), Done)
    else (s, Abort(OwnerOnlyMessage))
  }

  /**
   * `transfer_nft` as a state transition: an accepted proof records the
   * receiver as holder of `nftId`, whoever signs and whatever roots are stored.
   */
  function TransferNftStep(s: State, receiverId: AccountId, nftId: string, merkleProof: Result<Proof>,
                           validate: Proof -> Result<bool>): (r: (State, Outcome))
    ensures r.1 == Done <==> VerifyMerkleProof(nftId, merkleProof, validate)
    ensures r.1 == Done ==>
      nftId in r.0.nftOwners && r.0.nftOwners[nftId] == receiverId &&
      r.0.nftOwners.Keys == s.nftOwners.Keys + {nftId} &&
      (forall id :: id in s.nftOwners && id != nftId ==> r.0.nftOwners[id] == s.nftOwners[id])
    ensures r.1 != Done ==> r.1 == Abort(InvalidProofMessage) && r.0 == s
    ensures r.0.owner == s.owner && r.0.merkleTreeData == s.merkleTreeData
  {
    if VerifyMerkleProof(nftId, merkleProof, validate) then
      (s.(nftOwners := s.nftOwners[nftId := receiverId]), Done)
    else
      (s, Abort(InvalidProofMessage))
  }

  /** Whether a transfer goes through does not depend on the stored state. */
  lemma TransferIgnoresState(s1: State, s2: State, receiverId: AccountId, nftId: string,
                                      merkleProof: Result<Proof>, validate: Proof -> Result<bool>)
    ensures TransferNftStep(s1, receiverId, nftId, merkleProof, validate).1
         == TransferNftStep(s2, receiverId, nftId, merkleProof, validate).1
  {
  }

  /**
   * `deserialize_merkle_tree` as a state transition. The JSON parse is the
   * `serde_json` crate's and arrives here as its result `parsed`; a parse
   * error panics in `unwrap`. A parsed list replaces the roots whoever signs.
   */
  function DeserializeMerkleTreeStep(s: State, parsed: Result<seq<Hash32>>): (r: (State, Outcome))
    ensures r.1 == Done <==> parsed.Ok?
    ensures r.1 == Done ==> r.0.merkleTreeData == parsed.value
    ensures r.1 != Done ==> r.1 == Abort(UnwrapErrMessage) && r.0 == s
    ensures r.0.owner == s.owner && r.0.nftOwners == s.nftOwners
  {
    match parsed
    case Ok(leaves) => (s.(merkleTreeData := leaves), Done)
    case Err(_) => (s, Abort(UnwrapErrMessage))
  }

  class CompressedNFTContract {
    var owner: AccountId
    var merkleTreeData: seq<Hash32>
    var nftOwners: map<string, AccountId>

    /** The fields as one `State` value. */
    function Snapshot(): (s: State)
      reads this
      ensures s.owner == owner && s.merkleTreeData == merkleTreeData && s.nftOwners == nftOwners
    {
      State(owner, merkleTreeData, nftOwners)
    }

    /** `new`: the given owner and roots, and no recorded NFT holders. */
    constructor New(owner: AccountId, merkleTreeData: seq<Hash32>)
      ensures this.owner == owner && this.merkleTreeData == merkleTreeData
      ensures nftOwners == map[]
    {
      this.owner := owner;
      this.merkleTreeData := merkleTreeData;
      nftOwners := map[];
    }

    /** `update_merkle_root`: the owner replaces the whole root list by one root. */
    method UpdateMerkleRoot(signer: AccountId, newMerkleRoot: Hash32) returns (outcome: Outcome)
      modifies this
      ensures (Snapshot(), outcome) == UpdateMerkleRootStep(old(Snapshot()), signer, newMerkleRoot)
      ensures signer == old(owner) ==> outcome == Done && merkleTreeData == [newMerkleRoot]
      ensures signer != old(owner) ==> outcome == Abort(OwnerOnlyMessage) && merkleTreeData == old(merkleTreeData)
      ensures owner == old(owner) && nftOwners == old(nftOwners)
    {
      if signer != owner {
        return Abort(OwnerOnlyMessage);
      }
      merkleTreeData := [newMerkleRoot];
      outcome := Done;
    }

    /** `update_merkle_root_after_mint`: the owner appends one root. */
    method UpdateMerkleRootAfterMint(signer: AccountId, newMerkleRoot: Hash32) returns (outcome: Outcome)
      modifies this
      ensures (Snapshot(), outcome) == AfterMintStep(old(Snapshot()), signer, newMerkleRoot)
      ensures signer == old(owner) ==> outcome == Done && merkleTreeData == old(merkleTreeData) + [newMerkleRoot]
      ensures signer != old(owner) ==> outcome == Abort(OwnerOnlyMessage) && merkleTreeData == old(merkleTreeData)
      ensures owner == old(owner) && nftOwners == old(nftOwners)
    {
      if signer != owner {
        return Abort(OwnerOnlyMessage);
      }
      merkleTreeData := merkleTreeData + [newMerkleRoot];
      outcome := Done;
    }

    /**
     * `transfer_nft`: after an accepted proof the receiver becomes the holder
     * of `nftId` (`HashMap::insert`). The signer is not consulted.
     */
    method TransferNft(signer: AccountId, receiverId: AccountId, nftId: string, merkleProof: Result<Proof>,
                       validate: Proof -> Result<bool>) returns (outcome: Outcome)
      modifies this
      ensures (Snapshot(), outcome) == TransferNftStep(old(Snapshot()), receiverId, nftId, merkleProof, validate)
      ensures VerifyMerkleProof(nftId, merkleProof, validate) ==>
        outcome == Done && nftOwners == old(nftOwners)[nftId := receiverId]
      ensures !VerifyMerkleProof(nftId, merkleProof, validate) ==>
        outcome == Abort(InvalidProofMessage) && nftOwners == old(nftOwners)
      ensures owner == old(owner) && merkleTreeData == old(merkleTreeData)
    {
      if !VerifyMerkleProof(nftId, merkleProof, validate) {
        return Abort(InvalidProofMessage);
      }
      nftOwners := nftOwners[nftId := receiverId];
      outcome := Done;
    }

    /**
     * `deserialize_merkle_tree`: the parsed leaves become the root list. There
     * is no owner check, so the signer is not a parameter.
     */
    method DeserializeMerkleTree(parsed: Result<seq<Hash32>>) returns (outcome: Outcome)
      modifies this
      ensures (Snapshot(), outcome) == DeserializeMerkleTreeStep(old(Snapshot()), parsed)
      ensures parsed.Ok? ==> outcome == Done && merkleTreeData == parsed.value
      ensures parsed.Err? ==> outcome == Abort(UnwrapErrMessage) && merkleTreeData == old(merkleTreeData)
      ensures owner == old(owner) && nftOwners == old(nftOwners)
    {
      if parsed.Err? {
        return Abort(UnwrapErrMessage);
      }
      merkleTreeData := parsed.value;
      outcome := Done;
    }

    /**
     * `serialize_merkle_tree_data`: a zeroed buffer of 32 bytes per root, into
     * which each root is copied at `start..end`, the window moving 32 bytes
     * per root. The contract is only read.
     */
    method SerializeMerkleTreeData() returns (serialized: seq<u8>)
      ensures |serialized| == 32 * |merkleTreeData|
      ensures forall i :: 0 <= i < |merkleTreeData| ==> serialized[32 * i..32 * i + 32] == merkleTreeData[i]
      ensures serialized == Flatten(merkleTreeData)
    {
      var buffer := new u8[32 * |merkleTreeData|](_ => 0);
      var start, end := 0, 32;
      var n := 0;
      while n < |merkleTreeData|
        invariant 0 <= n <= |merkleTreeData|
        invariant start == 32 * n && end == start + 32
        invariant buffer[..start] == Flatten(merkleTreeData[..n])
      {
        var element := merkleTreeData[n];
        ghost var done := buffer[..start];
        forall k | 0 <= k < 32 {
          buffer[start + k] := element[k];
        }
        assert buffer[..end] == done + element;
        assert merkleTreeData[..n + 1] == merkleTreeData[..n] + [element];
        FlattenSnoc(merkleTreeData[..n], element);
        start := start + 32;
        end := end + 32;
        n := n + 1;
      }
      assert merkleTreeData[..n] == merkleTreeData;
      serialized := buffer[..];
      forall i | 0 <= i < |merkleTreeData|
        ensures serialized[32 * i..32 * i + 32] == merkleTreeData[i]
      {
        FlattenChunk(merkleTreeData, i);
      }
    }
  }
}
