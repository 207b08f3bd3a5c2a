/** The 218-byte ticket receipt as the program writes it and the client reads it, and the bytes of an
    `execute_shield` instruction as the client builds them and the program checks them. */
module ReceiptCodec {
  import opened Outcomes
  import opened Widths
  import opened Bytes
  import opened ShieldPayloads
  import PayloadCodec

  const RECEIPT_LEN: nat := 218

  /** A receipt with its addresses as raw keys. */
  datatype RawReceipt = RawReceipt(
    mint: Bytes32, eventKey: Bytes32, originalBuyer: Bytes32, currentHolder: Bytes32,
    purchasePrice: u64, lastSalePrice: u64, issuedAt: i64, lastTransferAt: i64,
    nonce: u64, zkProofHash: Bytes32, listed: bool, resaleCount: u64, bump: u8)

  /** The account's bytes: a discriminator, then the fields in order. */
  function Layout(discriminator: seq<Byte>, r: RawReceipt): (d: seq<Byte>)
    requires |discriminator| == 8
    ensures |d| == RECEIPT_LEN
  {
    discriminator + r.mint + r.eventKey + r.originalBuyer + r.currentHolder
    + U64Bytes(r.purchasePrice) + U64Bytes(r.lastSalePrice) + I64Bytes(r.issuedAt) + I64Bytes(r.lastTransferAt)
    + U64Bytes(r.nonce) + r.zkProofHash + [if r.listed then 1 else 0] + U64Bytes(r.resaleCount) + [r.bump]
  }

  function Fresh(mint: Bytes32, eventKey: Bytes32, owner: Bytes32, price: u64, now: i64, p: ShieldPayload, bump: u8): RawReceipt {
    RawReceipt(mint, eventKey, owner, owner, price, price, now, now, p.nonce, p.zkProofHash, false, 0, bump)
  }

  /** The on-chain writer: slice by slice into an account that may be larger, or an error for one that is too small. */
  method WriteTicketReceipt(data: array<Byte>, discriminator: seq<Byte>, mint: Bytes32, eventKey: Bytes32, owner: Bytes32,
                            price: u64, now: i64, p: ShieldPayload, bump: u8)
    returns (ok: bool)
    requires |discriminator| == 8
    modifies data
    ensures ok <==> data.Length >= RECEIPT_LEN
    ensures ok ==> data[..RECEIPT_LEN] == Layout(discriminator, Fresh(mint, eventKey, owner, price, now, p, bump))
    ensures forall k :: RECEIPT_LEN <= k < data.Length ==> data[k] == old(data[k])
    ensures !ok ==> data[..] == old(data[..])
  {
    if data.Length < RECEIPT_LEN { return false; }
    CopyInto(data, 0, discriminator);
    assert data[..8] == discriminator;
    CopyInto(data, 8, mint);
    CopyInto(data, 40, eventKey);
    CopyInto(data, 72, owner);
    CopyInto(data, 104, owner);
    CopyInto(data, 136, U64Bytes(price));
    CopyInto(data, 144, U64Bytes(price));
    CopyInto(data, 152, I64Bytes(now));
    CopyInto(data, 160, I64Bytes(now));
    CopyInto(data, 168, U64Bytes(p.nonce));
    CopyInto(data, 176, p.zkProofHash);
    CopyInto(data, 208, [0]);
    CopyInto(data, 209, U64Bytes(0));
    CopyInto(data, 217, [bump]);
    return true;
  }

  /** What the client makes of an account's bytes; the discriminator is not looked at. */
  function Parse(data: seq<Byte>): Option<RawReceipt> {
    if |data| < RECEIPT_LEN then None
    else
      Some(RawReceipt(data[8..40], data[40..72], data[72..104], data[104..136],
                      U64From(data[136..144]), U64From(data[144..152]), I64From(data[152..160]), I64From(data[160..168]),
                      U64From(data[168..176]), data[176..208], data[208] != 0, U64From(data[209..217]), data[217]))
  }

  method ParseTicketReceiptAccount(data: seq<Byte>) returns (r: Option<RawReceipt>)
    ensures r == Parse(data)
  {
    if |data| < RECEIPT_LEN { return None; }
    var purchasePrice := ReadU64LE(data, 136);
    var lastSalePrice := ReadU64LE(data, 144);
    var issuedAt := ReadI64LE(data, 152);
    var lastTransferAt := ReadI64LE(data, 160);
    var nonce := ReadU64LE(data, 168);
    var resaleCount := ReadU64LE(data, 209);
    return Some(RawReceipt(data[8..40], data[40..72], data[72..104], data[104..136], purchasePrice, lastSalePrice,
                           issuedAt, lastTransferAt, nonce, data[176..208], data[208] != 0, resaleCount, data[217]));
  }

  lemma LayoutSlices(discriminator: seq<Byte>, r: RawReceipt, tail: seq<Byte>)
    requires |discriminator| == 8
    ensures var d := Layout(discriminator, r) + tail;
            && d[8..40] == r.mint && d[40..72] == r.eventKey && d[72..104] == r.originalBuyer && d[104..136] == r.currentHolder
            && d[136..144] == U64Bytes(r.purchasePrice) && d[144..152] == U64Bytes(r.lastSalePrice)
            && d[152..160] == I64Bytes(r.issuedAt) && d[160..168] == I64Bytes(r.lastTransferAt)
            && d[168..176] == U64Bytes(r.nonce) && d[176..208] == r.zkProofHash && (d[208] != 0 <==> r.listed)
            && d[209..217] == U64Bytes(r.resaleCount) && d[217] == r.bump
  {
  }

  /** The client recovers every field of a receipt the program wrote, whatever the account holds after it. */
  lemma ParseReadsWhatWasWritten(discriminator: seq<Byte>, r: RawReceipt, tail: seq<Byte>)
    requires |discriminator| == 8
    ensures Parse(Layout(discriminator, r) + tail) == Some(r)
  {
    LayoutSlices(discriminator, r, tail);
    U64RoundTrip(r.purchasePrice);
    U64RoundTrip(r.lastSalePrice);
    I64RoundTrip(r.issuedAt);
    I64RoundTrip(r.lastTransferAt);
    U64RoundTrip(r.nonce);
    U64RoundTrip(r.resaleCount);
  }

  /** The client reads any 218 bytes as some receipt; writing it again gives those bytes exactly when the flag is 0 or 1. */
  lemma WrittenExactlyWhenFlagIsBoolean(data: seq<Byte>)
    ensures Parse(data).Some? <==> |data| >= RECEIPT_LEN
    ensures Parse(data).Some? ==> (Layout(data[..8], Parse(data).value) == data[..RECEIPT_LEN] <==> data[208] <= 1)
  {
    if |data| >= RECEIPT_LEN {
      var r := Parse(data).value;
      IntegersAreTheirBytes(data[136..144]);
      IntegersAreTheirBytes(data[144..152]);
      IntegersAreTheirBytes(data[152..160]);
      IntegersAreTheirBytes(data[160..168]);
      IntegersAreTheirBytes(data[168..176]);
      IntegersAreTheirBytes(data[209..217]);
      assert data[..RECEIPT_LEN] ==
        data[..8] + data[8..40] + data[40..72] + data[72..104] + data[104..136] + data[136..144] + data[144..152]
        + data[152..160] + data[160..168] + data[168..176] + data[176..208] + [data[208]] + data[209..217] + [data[217]];
      var d := Layout(data[..8], r);
      assert d[208] == if r.listed then 1 else 0;
    }
  }

  // ----- The instruction -----

  const EXECUTE_SHIELD_DISCRIMINATOR: seq<Byte> := [121, 30, 47, 225, 69, 64, 66, 80]
  const SIGNATURE_LEN: nat := 64

  function Concat(parts: seq<seq<Byte>>): seq<Byte> {
    if parts == [] then [] else Concat(parts[..|parts| - 1]) + parts[|parts| - 1]
  }

  lemma ConcatStep(parts: seq<seq<Byte>>, i: nat)
    requires i < |parts|
    ensures Concat(parts[..i + 1]) == Concat(parts[..i]) + parts[i]
  {
    assert parts[..i + 1][..i] == parts[..i];
  }

  lemma {:induction false} ConcatGrows(parts: seq<seq<Byte>>, i: nat)
    requires i <= |parts|
    ensures |Concat(parts[..i])| <= |Concat(parts)|
    decreases |parts| - i
  {
    if i == |parts| {
      assert parts[..i] == parts;
    } else {
      ConcatStep(parts, i);
      ConcatGrows(parts, i + 1);
    }
  }

  /** The client's concatenation: the total length first, then part after part at a moving offset. */
  method ConcatBytes(parts: seq<seq<Byte>>) returns (out: array<Byte>)
    ensures fresh(out) && out[..] == Concat(parts)
  {
    var total: nat := 0;
    for i := 0 to |parts|
      invariant total == |Concat(parts[..i])|
    {
      ConcatStep(parts, i);
      total := total + |parts[i]|;
    }
    assert parts[..|parts|] == parts;
    out := new Byte[total](_ => 0);
    var offset: nat := 0;
    for i := 0 to |parts|
      invariant out.Length == |Concat(parts)| && fresh(out)
      invariant offset == |Concat(parts[..i])| <= out.Length
      invariant out[..offset] == Concat(parts[..i])
    {
      ConcatStep(parts, i);
      ConcatGrows(parts, i + 1);
      CopyInto(out, offset, parts[i]);
      offset := offset + |parts[i]|;
    }
    assert out[..] == out[..offset];
  }

  lemma ConcatOfThree(a: seq<Byte>, b: seq<Byte>, c: seq<Byte>)
    ensures Concat([a, b, c]) == a + b + c
  {
    ConcatStep([a, b, c], 0);
    ConcatStep([a, b, c], 1);
    ConcatStep([a, b, c], 2);
    assert [a, b, c][..3] == [a, b, c] && [a, b, c][..0] == [];
  }

  /** The client's instruction builder; `None` is its error on a wrong length. */
  method BuildExecuteInstructionData(payload: seq<Byte>, signature: seq<Byte>) returns (r: Option<seq<Byte>>)
    ensures r.Some? <==> |payload| == PayloadCodec.PAYLOAD_LEN && |signature| == SIGNATURE_LEN
    ensures r.Some? ==> r.value == EXECUTE_SHIELD_DISCRIMINATOR + payload + signature
  {
    if |payload| != PayloadCodec.PAYLOAD_LEN || |signature| != SIGNATURE_LEN { return None; }
    var out := ConcatBytes([EXECUTE_SHIELD_DISCRIMINATOR, payload, signature]);
    ConcatOfThree(EXECUTE_SHIELD_DISCRIMINATOR, payload, signature);
    return Some(out[..]);
  }

  /** The program's check that its own instruction data is what the decoded argument says. */
  predicate InstructionMatches(data: seq<Byte>, p: ShieldPayload) {
    && |data| == 8 + PayloadCodec.PAYLOAD_LEN + SIGNATURE_LEN
    && data[..8] == EXECUTE_SHIELD_DISCRIMINATOR
    && data[8..8 + PayloadCodec.PAYLOAD_LEN] == PayloadCodec.Layout(p)
  }

  lemma CutInThree(data: seq<Byte>, head: seq<Byte>, body: seq<Byte>)
    requires |data| >= |head| + |body|
    ensures data[..|head|] == head && data[|head|..|head| + |body|] == body <==> data == head + body + data[|head| + |body|..]
  {
    assert data == data[..|head|] + data[|head|..|head| + |body|] + data[|head| + |body|..];
  }

  /** The program accepts exactly what the client builds, and reads back the payload and the signature put in. */
  lemma ProgramAcceptsWhatClientBuilds(data: seq<Byte>, p: ShieldPayload)
    ensures InstructionMatches(data, p)
            <==> exists signature: seq<Byte> :: |signature| == SIGNATURE_LEN
                                                && data == EXECUTE_SHIELD_DISCRIMINATOR + PayloadCodec.Layout(p) + signature
    ensures InstructionMatches(data, p) ==> PayloadCodec.Deserialize(data[8..8 + PayloadCodec.PAYLOAD_LEN]) == Ok(p)
  {
    PayloadCodec.DeserializeSerialize(p);
    var head, body := EXECUTE_SHIELD_DISCRIMINATOR, PayloadCodec.Layout(p);
    if |data| == |head| + |body| + SIGNATURE_LEN { CutInThree(data, head, body); }
    forall signature: seq<Byte> | |signature| == SIGNATURE_LEN && data == head + body + signature
      ensures InstructionMatches(data, p)
    {
      assert data[|head| + |body|..] == signature;
    }
  }
}
