/** Hashes as free constructors: `keccak256` is total, injective and never zero. */
module Digests {

  type Address = nat

  const ZERO_ADDRESS: Address := 0

  /** A `bytes32`: a literal word or the hash of some preimage. */
  datatype Digest = Raw(value: nat) | Keccak(preimage: Preimage)

  /**
   * What is hashed. The ABI tuples have eight, five, four, seven, two and fourteen words,
   * so their encodings differ in length; the last two are ABI bytes and the UTF-16 units of a text.
   */
  datatype Preimage =
    | ClaimTuple(escrow: Address, agreement: Digest, policy: Digest, evidence: Digest,
                 evidenceType: Digest, chainKey: nat, transactionHash: Digest, subject: Address)
    | EvidenceTuple(policy: Digest, evidenceType: Digest, chainKey: nat,
                    transactionHash: Digest, subject: Address)
    | SourceTuple(evidenceType: Digest, chainKey: nat, transactionHash: Digest, subject: Address)
    | TermsTuple(buyer: Address, seller: Address, arbitrator: Address, requiredAmount: nat,
                 policy: Digest, nonce: Digest, registry: Address)
    | PairTuple(left: Digest, right: Digest)
    | Encoded(bytes: seq<nat>)
    | Text(units: seq<nat>)

  const ZERO_HASH := Raw(0)

  datatype Option<+T> = None | Some(value: T)
}
