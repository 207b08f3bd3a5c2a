/** The frozen 141-byte payload layout: the on-chain writer and reader, the JavaScript writer shared by the oracle
    and the SDK, and the slices the client cuts seeds from. */
module PayloadCodec {
  import opened Outcomes
  import opened Widths
  import opened Bytes
  import opened ShieldPayloads
  import Tickets

  const PAYLOAD_LEN: nat := 141

  /** The layout: fields in order, each at its fixed width. */
  function Layout(p: ShieldPayload): (r: seq<Byte>)
    ensures |r| == PAYLOAD_LEN
  {
    [p.policyVersion] + p.userPubkey + U64Bytes(p.initialPrice) + I64Bytes(p.salesVelocityBps) + U64Bytes(p.timeElapsed)
    + [p.dignityScore] + [p.adapterMask] + [p.userMode] + [p.zkProvider]
    + p.zkProofHash + p.scoringModelHash + I64Bytes(p.attestationExpiry) + U64Bytes(p.nonce)
  }

  datatype DecodeError = InvalidLength

  function Deserialize(data: seq<Byte>): Result<ShieldPayload, DecodeError> {
    if |data| != PAYLOAD_LEN then Err(InvalidLength)
    else
      Ok(ShieldPayload(data[0], data[1..33], U64From(data[33..41]), I64From(data[41..49]), U64From(data[49..57]),
                       data[57], data[58], data[59], data[60], data[61..93], data[93..125],
                       I64From(data[125..133]), U64From(data[133..141])))
  }

  // ----- Writers -----

  /** The on-chain writer. */
  method SerializeOnChain(p: ShieldPayload) returns (out: array<Byte>)
    ensures fresh(out) && out[..] == Layout(p)
  {
    out := new Byte[PAYLOAD_LEN](_ => 0);
    CopyInto(out, 0, [p.policyVersion]);
    assert out[..1] == [p.policyVersion];
    CopyInto(out, 1, p.userPubkey);
    CopyInto(out, 33, U64Bytes(p.initialPrice));
    CopyInto(out, 41, I64Bytes(p.salesVelocityBps));
    CopyInto(out, 49, U64Bytes(p.timeElapsed));
    CopyInto(out, 57, [p.dignityScore]);
    CopyInto(out, 58, [p.adapterMask]);
    CopyInto(out, 59, [p.userMode]);
    CopyInto(out, 60, [p.zkProvider]);
    CopyInto(out, 61, p.zkProofHash);
    CopyInto(out, 93, p.scoringModelHash);
    CopyInto(out, 125, I64Bytes(p.attestationExpiry));
    CopyInto(out, 133, U64Bytes(p.nonce));
    assert out[..] == out[..141];
  }

  /** A JavaScript payload: numbers of any size, byte strings of any length. */
  datatype RawPayload = RawPayload(
    policyVersion: int, userPubkey: seq<Byte>, initialPrice: int, salesVelocityBps: int, timeElapsed: int,
    dignityScore: int, adapterMask: int, userMode: int, zkProvider: int,
    zkProofHash: seq<Byte>, scoringModelHash: seq<Byte>, attestationExpiry: int, nonce: int)

  ghost predicate Encodable(p: RawPayload) {
    && |p.userPubkey| == 32 && |p.zkProofHash| == 32 && |p.scoringModelHash| == 32
    && 0 <= p.initialPrice <= U64_MAX && I64_MIN <= p.salesVelocityBps <= I64_MAX && 0 <= p.timeElapsed <= U64_MAX
    && I64_MIN <= p.attestationExpiry <= I64_MAX && 0 <= p.nonce <= U64_MAX
  }

  /** The payload a raw one stands for: the four byte-sized numbers are masked. */
  ghost function Masked(p: RawPayload): ShieldPayload
    requires Encodable(p)
  {
    ShieldPayload(p.policyVersion % 256, p.userPubkey, p.initialPrice, p.salesVelocityBps, p.timeElapsed,
                  p.dignityScore % 256, p.adapterMask % 256, p.userMode % 256, p.zkProvider % 256,
                  p.zkProofHash, p.scoringModelHash, p.attestationExpiry, p.nonce)
  }

  /** The JavaScript writer throws exactly on what does not fit, and otherwise writes the on-chain layout. */
  method SerializeInJavaScript(p: RawPayload) returns (out: array<Byte>, ok: bool)
    ensures ok <==> Encodable(p)
    ensures ok ==> out[..] == Layout(Masked(p))
  {
    out := new Byte[PAYLOAD_LEN](_ => 0);
    ok := |p.userPubkey| == 32 && |p.zkProofHash| == 32 && |p.scoringModelHash| == 32;
    if !ok { return; }
    CopyInto(out, 0, [p.policyVersion % 256]);
    assert out[..1] == [p.policyVersion % 256];
    CopyInto(out, 1, p.userPubkey);
    ok := WriteU64LE(out, 33, p.initialPrice);
    if !ok { return; }
    ok := WriteI64LE(out, 41, p.salesVelocityBps);
    if !ok { return; }
    ok := WriteU64LE(out, 49, p.timeElapsed);
    if !ok { return; }
    CopyInto(out, 57, [p.dignityScore % 256]);
    CopyInto(out, 58, [p.adapterMask % 256]);
    CopyInto(out, 59, [p.userMode % 256]);
    CopyInto(out, 60, [p.zkProvider % 256]);
    CopyInto(out, 61, p.zkProofHash);
    CopyInto(out, 93, p.scoringModelHash);
    ok := WriteI64LE(out, 125, p.attestationExpiry);
    if !ok { return; }
    ok := WriteU64LE(out, 133, p.nonce);
    if ok { assert out[..] == out[..141]; }
  }

  // ----- Round trips -----

  /** Where each field of the layout starts. */
  lemma LayoutSlices(p: ShieldPayload)
    ensures var d := Layout(p);
            && d[0] == p.policyVersion && d[1..33] == p.userPubkey && d[33..41] == U64Bytes(p.initialPrice)
            && d[41..49] == I64Bytes(p.salesVelocityBps) && d[49..57] == U64Bytes(p.timeElapsed)
            && d[57] == p.dignityScore && d[58] == p.adapterMask && d[59] == p.userMode && d[60] == p.zkProvider
            && d[61..93] == p.zkProofHash && d[93..125] == p.scoringModelHash
            && d[125..133] == I64Bytes(p.attestationExpiry) && d[133..141] == U64Bytes(p.nonce)
  {
  }

  /** Reading what was written gives the payload back. */
  lemma DeserializeSerialize(p: ShieldPayload)
    ensures Deserialize(Layout(p)) == Ok(p)
  {
    LayoutSlices(p);
    U64RoundTrip(p.initialPrice);
    I64RoundTrip(p.salesVelocityBps);
    U64RoundTrip(p.timeElapsed);
    I64RoundTrip(p.attestationExpiry);
    U64RoundTrip(p.nonce);
  }

  /** Every 141-byte string is the layout of the payload it reads as; every other string is refused. */
  lemma SerializeDeserialize(data: seq<Byte>)
    ensures Deserialize(data).Ok? <==> |data| == PAYLOAD_LEN
    ensures Deserialize(data).Ok? ==> Layout(Deserialize(data).value) == data
  {
    if |data| == PAYLOAD_LEN {
      IntegersAreTheirBytes(data[33..41]);
      IntegersAreTheirBytes(data[41..49]);
      IntegersAreTheirBytes(data[49..57]);
      IntegersAreTheirBytes(data[125..133]);
      IntegersAreTheirBytes(data[133..141]);
      assert data == [data[0]] + data[1..33] + data[33..41] + data[41..49] + data[49..57]
                     + [data[57], data[58], data[59], data[60]] + data[61..93] + data[93..125] + data[125..133] + data[133..141];
    }
  }

  /** Payloads are determined by their bytes, so a signature over the bytes binds every field. */
  lemma LayoutInjective(p: ShieldPayload, q: ShieldPayload)
    requires Layout(p) == Layout(q)
    ensures p == q
  {
    DeserializeSerialize(p);
    DeserializeSerialize(q);
  }

  // ----- Seeds -----

  datatype Seeds = Seeds(user: seq<Byte>, hash: seq<Byte>, nonce: seq<Byte>)

  /** The client's seeds: three slices of the payload bytes, or an error for a payload of another length. */
  function ClientSeeds(payload: seq<Byte>): Result<Seeds, DecodeError> {
    if |payload| != PAYLOAD_LEN then Err(InvalidLength)
    else Ok(Seeds(payload[1..33], payload[61..93], payload[133..141]))
  }

  function ChainSeeds(p: ShieldPayload): Seeds {
    Seeds(p.userPubkey, p.zkProofHash, U64Bytes(p.nonce))
  }

  /** The client derives the accounts the program derives: equal seeds, and equal only for the same ticket. */
  lemma ClientSeedsAreChainSeeds(p: ShieldPayload, q: ShieldPayload)
    ensures ClientSeeds(Layout(p)) == Ok(ChainSeeds(p))
    ensures ChainSeeds(p) == ChainSeeds(q) <==> Tickets.MintOf(p) == Tickets.MintOf(q)
    ensures ChainSeeds(p) == ChainSeeds(q) <==> Tickets.ProofOf(p) == Tickets.ProofOf(q)
  {
    LayoutSlices(p);
    U64RoundTrip(p.nonce);
    U64RoundTrip(q.nonce);
  }
}
