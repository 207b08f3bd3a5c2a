/** The oracle's signed payload and the ticket receipt, as the records the program works on. */
module ShieldPayloads {
  import opened Widths

  datatype ShieldPayload = ShieldPayload(
    policyVersion: u8, userPubkey: Bytes32, initialPrice: u64, salesVelocityBps: i64, timeElapsed: u64,
    dignityScore: u8, adapterMask: u8, userMode: u8, zkProvider: u8,
    zkProofHash: Bytes32, scoringModelHash: Bytes32, attestationExpiry: i64, nonce: u64)
}
