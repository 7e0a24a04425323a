# Compressed NFT contract — Dafny model

This project models the NEAR smart contract `CompressedNFTContract` of the
ShardNFTs repository (`src/lib.rs`) and proves properties of it. The
contract keeps three fields:

- `owner`: the account allowed to call the two root-update calls.
- `merkle_tree_data`: a list of 32-byte Merkle roots.
- `nft_owners`: a map from NFT id to the account that holds it.

Four calls change them:

- `update_merkle_root` replaces the root list by a single root. Only the owner may call it.
- `update_merkle_root_after_mint` appends one root. Only the owner may call it.
- `transfer_nft` records a new holder once a Merkle proof is accepted.
- `deserialize_merkle_tree` replaces the root list by a list parsed from JSON. It has no owner check, so any signer can rewrite the roots.

The file also holds two byte routines, both modelled:

- `serialize_merkle_tree_data` lays the roots end to end in a byte buffer.
- `Sha256Algorithm::finish` reads the first eight bytes of the hasher state as a big-endian `u64`.

Modules, one per concern of `src/lib.rs`:

- `Bytes` (`bytes.dfy`): `u8`, `u64`, `[u8; 32]` and the big-endian value of a byte string, with its inverse.
- `Hasher` (`sha256_algorithm.dfy`): the `Sha256Algorithm` class over a 32-byte `array`.
- `Layout` (`layout.dfy`): the 32-bytes-per-root layout and its inverse `Chunks`.
- `Contract` (`contract.dfy`): the contract as a class whose methods reassign its `seq` and `map` fields. Each call is also written as a pure state transition, and each method's postcondition ties it to that transition.
- `Trace` (`trace.dfy`): runs of signed calls applied one after another, and the invariants that hold across every such run.

Modelling choices:

- A `require!` panic becomes an `Abort` outcome that carries the panic message, with every field left as it was.
- The signer (`env::signer_account_id()`) is an explicit parameter.
- `Proof::validate` belongs to the external `merkletree` crate. It is a parameter `validate: Proof -> Result<bool>` that the model does not interpret.
- The JSON parse in `deserialize_merkle_tree` belongs to the external `serde_json` crate. Its result arrives as a parameter `parsed: Result<seq<Hash32>>`, and `Err` is the `unwrap` panic.

What the code does differs from the intended design of a proof-checked
ledger, and the model follows the code:

- `transfer_nft` never checks who signs.
- The proof is never compared with the stored roots.
- The proof is not tied to the NFT id.

So any account holding a proof that the crate accepts can move any NFT, as
often as it likes (`Contract.TransferIgnoresState`,
`Trace.TransferReplayAccepted`).

## Model

| member | source | states |
|---|---|---|
| Contract.CompressedNFTContract.New | src/lib.rs:65-71 | the new contract stores the given owner and root list unchanged, and its NFT-holder map is empty |
| Contract.CompressedNFTContract.UpdateMerkleRoot | src/lib.rs:78-84 | signed by the owner, the root list becomes exactly `[new_merkle_root]`; otherwise the call aborts with "Only the owner can update the Merkle root" and the roots are untouched; owner and holder map never change |
| Contract.CompressedNFTContract.UpdateMerkleRootAfterMint | src/lib.rs:94-104 | signed by the owner, the root list becomes the old list followed by `new_merkle_root`; otherwise the call aborts with the owner-only message and nothing changes; owner and holder map never change |
| Contract.CompressedNFTContract.TransferNft | src/lib.rs:86-92 | with an accepted proof, the holder map becomes the old map with `nft_id` mapped to `receiver_id`; with a rejected proof, the call aborts with "Invalid Merkle proof" and the map is unchanged; owner and roots never change, and the signer is not consulted |
| Contract.CompressedNFTContract.SerializeMerkleTreeData | src/lib.rs:121-131 | the buffer has 32 bytes per root, bytes `[32*i, 32*i+32)` are root `i`, and it equals the layout `Flatten` of the roots; the contract is only read |
| Contract.VerifyMerkleProof | src/lib.rs:109-116 | a proof is accepted if and only if it was built (`Ok`) and validation returned `Ok(true)`; a validation error counts as rejection |
| Contract.FailedProofRejected | src/lib.rs:114 | a proof that failed to build (`Err`) is always rejected |
| Contract.VerifyIgnoresNftId | src/lib.rs:109 | the verdict does not depend on the NFT id |
| Contract.UpdateMerkleRootStep | src/lib.rs:78-84 | the root replacement succeeds exactly when the signer is the owner; on success the roots are `[new_merkle_root]`; on failure the state is unchanged; owner and holder map are always kept |
| Contract.AfterMintStep | src/lib.rs:94-104 | the append succeeds exactly when the signer is the owner; on success the roots grow by one, the old roots stay in place and the new root is last; on failure the state is unchanged; owner and holder map are always kept |
| Contract.TransferNftStep | src/lib.rs:86-92 | the transfer succeeds exactly when the proof is accepted; on success `nft_id` maps to the receiver, its id joins the map's keys, and every other entry keeps its value; on failure the state is unchanged; owner and roots are always kept |
| Contract.TransferIgnoresState | src/lib.rs:86-92 | whether a transfer succeeds does not depend on the stored owner, roots and holders (the signer is not an input of the transition at all; `Trace.TransferReplayAccepted` covers any signer) |
| Contract.DeserializeMerkleTreeStep | src/lib.rs:133-139 | the call succeeds exactly when the parse succeeded, and then the roots are the parsed list; a failed parse aborts with the `unwrap` panic and leaves the state unchanged; owner and holder map are always kept |
| Contract.CompressedNFTContract.DeserializeMerkleTree | src/lib.rs:133-139 | a parsed list becomes the root list with no owner check; a failed parse aborts and leaves the roots; owner and holder map never change |
| Trace.Step | src/lib.rs:77-139 | no call changes the owner, and an aborted call leaves the whole state unchanged |
| Trace.RunKeepsOwner | src/lib.rs:77-139 | after any sequence of calls the owner is the one set at construction |
| Trace.RunWithoutOwnerKeepsRoots | src/lib.rs:77-139 | if the owner signs no root update and no parsed list is deserialized in a run, the root list at the end equals the one at the start |
| Trace.DeserializeBypassesOwner | src/lib.rs:133-139 | a deserialization with a parsed list replaces the roots whoever signs it |
| Trace.RunOfMintsAppends | src/lib.rs:94-104 | a run of owner-signed mints leaves the old roots followed by the minted roots in order, and leaves the holder map unchanged |
| Trace.RunKeepsNftIds | src/lib.rs:86-92 | no call removes an NFT id from the holder map |
| Trace.TransferReplayAccepted | src/lib.rs:86-116 | a transfer that was accepted once is accepted again after any later calls, whoever signs it |
| Layout.FlattenLength | src/lib.rs:122 | the layout of `n` roots is `32 * n` bytes long |
| Layout.FlattenChunk | src/lib.rs:125-129 | bytes `[32*i, 32*i+32)` of the layout are root `i` |
| Layout.FlattenSnoc | src/lib.rs:125-129 | writing one more root extends the layout by exactly that root's 32 bytes |
| Layout.ChunksOfFlatten | src/lib.rs:121-131 | cutting the layout into 32-byte chunks gives back the root list |
| Layout.FlattenOfChunks | src/lib.rs:121-131 | every buffer whose length is a multiple of 32 is the layout of its chunks |
| Layout.FlattenInjective | src/lib.rs:121-131 | different root lists serialize to different buffers |
| Hasher.Sha256Algorithm.Default | src/lib.rs:48-54 | the default hasher state is 32 zero bytes |
| Hasher.Sha256Algorithm.Write | src/lib.rs:21-23 | `write` changes neither the state buffer nor its contents |
| Hasher.Sha256Algorithm.Finish | src/lib.rs:25-32 | the result is the big-endian value of bytes 0..7 of the state, `Σ data[i]·256^(7-i)`; bytes 8..31 play no part; the `u64` shift never loses a bit |
| Hasher.FinishOfDefault | src/lib.rs:48-54 | `finish` on the default state returns 0 |
| Hasher.FinishAfterWrite | src/lib.rs:20-33 | `finish` returns the same value before and after a `write` |
| Bytes.BigEndianSnoc | src/lib.rs:29 | one shift-and-or step of the loop turns the value of the bytes read so far into the value with the next byte appended |
| Bytes.BigEndianBound | src/lib.rs:27-31 | `k` bytes give a value below `256^k`, so eight bytes fit in a `u64` |
| Bytes.BigEndianOfToBigEndian | src/lib.rs:25-32 | the big-endian value of the `k`-byte encoding of `n < 256^k` is `n` |
| Bytes.ToBigEndianOfBigEndian | src/lib.rs:25-32 | encoding the value of `bs` in as many bytes as `bs` has gives `bs` back |
| Bytes.BigEndianInjective | src/lib.rs:25-32 | equal-length byte strings with the same big-endian value are equal |
| Hasher.FinishPair | src/lib.rs:25-32 | two hashers' `finish` values are equal exactly when their first eight bytes are equal |
| Bytes.BigEndianZeros | src/lib.rs:48-54 | zero bytes read as 0 |

## Left out

- `get_merkle_tree` (`MerkleTree::from_data`): the tree is built by the external `merkletree` crate, whose code is not part of this model.
- `Sha256Algorithm::hash`: SHA-256 comes from the external `sha2` crate and is not modelled.
- `Proof::validate`: it is external, so the model takes it as an uninterpreted parameter `validate` and proves nothing about what it accepts.
- The JSON parse inside `deserialize_merkle_tree`: it is external `serde_json` code, so its result is a parameter. It parses JSON, so the method is not the inverse of `serialize_merkle_tree_data`, and no round trip with it is claimed. `Layout.Chunks` is a reference reading of the raw layout, not a model of this method.
- The caller identity `env::signer_account_id()` is a parameter. Gas, storage staking, `near_bindgen` and the serde derives are runtime matters.
- Contract.CompressedNFTContract.SerializeMerkleTreeData: does not model `usize` overflow of `32 * len`, because no list that fits in memory reaches it.
- The `Proof` datatype keeps the proof's sibling hashes and path but gives them no meaning, because only the external crate interprets them.
- `indexer/app.js`: an HTTP server with database and RPC calls, all of them I/O, and its proof generation is an empty stub.
- `tests/test_basics.rs`: it drives a different contract interface (`update_merkle_tree`, `get_leaf`) that `src/lib.rs` does not define.
