// Sequences of signed calls on the contract, one after another as the NEAR
// runtime delivers them, and the invariants that hold across any such
// sequence.
module Trace {
  import opened Bytes
  import opened Contract

  /** A public call that changes state. */
  datatype Call =
    | UpdateMerkleRoot(newMerkleRoot: Hash32)
    | UpdateMerkleRootAfterMint(mintedRoot: Hash32)
    | TransferNft(receiverId: AccountId, nftId: string, merkleProof: Result<Proof>)
    | DeserializeMerkleTree(parsed: Result<seq<Hash32>>)

  /** A call together with the account that signed its transaction. */
  datatype Request = Request(signer: AccountId, call: Call)

  /** One call applied to the state. */
  function Step(s: State, req: Request, validate: Proof -> Result<bool>): (r: (State, Outcome))
    ensures r.0.owner == s.owner
    ensures r.1.Abort? ==> r.0 == s
  {
    match req.call
    case UpdateMerkleRoot(root) => UpdateMerkleRootStep(s, req.signer, root)
    case UpdateMerkleRootAfterMint(root) => AfterMintStep(s, req.signer, root)
    case TransferNft(receiverId, nftId, proof) => TransferNftStep(s, receiverId, nftId, proof, validate)
    case DeserializeMerkleTree(parsed) => DeserializeMerkleTreeStep(s, parsed)
  }

  /** The state after the requests, each applied to the state the previous one left. */
  function Run(s: State, reqs: seq<Request>, validate: Proof -> Result<bool>): State
    decreases |reqs|
  {
    if |reqs| == 0 then s else Run(Step(s, reqs[0], validate).0, reqs[1..], validate)
  }

  /**
   * A request that cannot change the roots of a contract owned by `owner`: a
   * root update signed by someone else, a transfer, or a deserialization
   * whose parse failed.
   */
  predicate LeavesRoots(req: Request, owner: AccountId)
  {
    match req.call
    case UpdateMerkleRoot(_) => req.signer != owner
    case UpdateMerkleRootAfterMint(_) => req.signer != owner
    case TransferNft(_, _, _) => true
    case DeserializeMerkleTree(parsed) => parsed.Err?
  }

  /** No call changes the owner. */
  lemma {:induction false} RunKeepsOwner(s: State, reqs: seq<Request>, validate: Proof -> Result<bool>)
    ensures Run(s, reqs, validate).owner == s.owner
    decreases |reqs|
  {
    if |reqs| > 0 {
      RunKeepsOwner(Step(s, reqs[0], validate).0, reqs[1..], validate);
    }
  }

  /**
   * Unless the owner signs a root update or a parsed list is deserialized,
   * the roots stay as they are.
   */
  lemma {:induction false} RunWithoutOwnerKeepsRoots(s: State, reqs: seq<Request>, validate: Proof -> Result<bool>)
    requires forall i :: 0 <= i < |reqs| ==> LeavesRoots(reqs[i], s.owner)
    ensures Run(s, reqs, validate).merkleTreeData == s.merkleTreeData
    decreases |reqs|
  {
    if |reqs| > 0 {
      var next := Step(s, reqs[0], validate).0;
      assert LeavesRoots(reqs[0], s.owner);
      assert forall i :: 1 <= i < |reqs| ==> reqs[1..][i - 1] == reqs[i];
      RunWithoutOwnerKeepsRoots(next, reqs[1..], validate);
    }
  }

  /** Any signer can replace the roots with a successfully parsed list. */
  lemma DeserializeBypassesOwner(s: State, signer: AccountId, leaves: seq<Hash32>, validate: Proof -> Result<bool>)
    ensures Step(s, Request(signer, DeserializeMerkleTree(Ok(leaves))), validate) == (s.(merkleTreeData := leaves), Done)
  {
  }

  /** The roots minted by a list of requests, in order. */
  function MintedRoots(reqs: seq<Request>): seq<Hash32>
    requires forall i :: 0 <= i < |reqs| ==> reqs[i].call.UpdateMerkleRootAfterMint?
  {
    if |reqs| == 0 then [] else [reqs[0].call.mintedRoot] + MintedRoots(reqs[1..])
  }

  /** Owner-signed mints append their roots in order behind the roots already stored. */
  lemma {:induction false} RunOfMintsAppends(s: State, reqs: seq<Request>, validate: Proof -> Result<bool>)
    requires forall i :: 0 <= i < |reqs| ==> reqs[i].call.UpdateMerkleRootAfterMint? && reqs[i].signer == s.owner
    ensures Run(s, reqs, validate).merkleTreeData == s.merkleTreeData + MintedRoots(reqs)
    ensures Run(s, reqs, validate).nftOwners == s.nftOwners
    decreases |reqs|
  {
    if |reqs| > 0 {
      var next := Step(s, reqs[0], validate).0;
      assert next.merkleTreeData == s.merkleTreeData + [reqs[0].call.mintedRoot];
      RunOfMintsAppends(next, reqs[1..], validate);
      assert s.merkleTreeData + [reqs[0].call.mintedRoot] + MintedRoots(reqs[1..])
          == s.merkleTreeData + MintedRoots(reqs);
    }
  }

  /** A recorded holder is never removed: the NFT ids in the map only grow. */
  lemma {:induction false} RunKeepsNftIds(s: State, reqs: seq<Request>, validate: Proof -> Result<bool>)
    ensures s.nftOwners.Keys <= Run(s, reqs, validate).nftOwners.Keys
    decreases |reqs|
  {
    if |reqs| > 0 {
      var next := Step(s, reqs[0], validate).0;
      assert s.nftOwners.Keys <= next.nftOwners.Keys;
      RunKeepsNftIds(next, reqs[1..], validate);
    }
  }

  /**
   * Replaying an accepted transfer is accepted again: the proof is not bound
   * to the stored roots, to the signer or to what happened in between.
   */
  lemma TransferReplayAccepted(s: State, req: Request, reqs: seq<Request>, later: Request,
                               validate: Proof -> Result<bool>)
    requires req.call.TransferNft? && Step(s, req, validate).1 == Done
    requires later.call == req.call
    ensures Step(Run(Step(s, req, validate).0, reqs, validate), later, validate).1 == Done
  {
  }
}
