/** The price and the ticket together: what a buyer is shown, what the program charges, and what evidence buys. */
module EndToEnd {
  import opened Widths
  import opened ShieldPayloads
  import opened Quotes
  import opened Fairness
  import opened Ledger
  import opened Tickets
  import opened Custody
  import opened TicketRuns
  import O = Outsiders
  import P = Permanence
  import ReceiptCodec

  function InputOf(p: ShieldPayload): QuoteInput {
    QuoteInput(p.initialPrice, p.salesVelocityBps, p.timeElapsed, p.dignityScore)
  }

  lemma AdmittedIsValid(s: State, user: Address, treasury: Address, p: ShieldPayload, signed: bool, now: i64)
    requires Admitted(s, user, treasury, p, signed, now)
    ensures Valid(InputOf(p))
  {
  }

  /** An unblocked quote is the same in all three programs. */
  lemma UnblockedQuotesAgree(i: QuoteInput)
    requires Valid(i) && ChainQuote(i).Ok? && !ChainQuote(i).value.blocked
    ensures ClientOf(i).Ok? && ClientOf(i).value.finalPrice == ChainQuote(i).value.finalPrice && !ClientOf(i).value.blocked
    ensures SdkQuote(i) == ChainQuote(i)
  {
    ChainVersusClient(i);
    SdkVersusChain(i);
  }

  ghost predicate MintedAt(s: State, p: ShieldPayload, price: u64) {
    Minted(s, MintOf(p)) && ReceiptOf(s, MintOf(p)).purchasePrice == price
  }

  lemma ExecutedMints(s: State, s': State, user: Address, treasury: Address, p: ShieldPayload, price: u64, now: i64)
    requires Executed(s, s', user, treasury, p, price, now) && user.Wallet? && treasury.Wallet?
    ensures MintedAt(s', p, price)
    ensures user != treasury ==>
              s'.Balance(user) == s.Balance(user) - MintingRent(s) - price && s'.Balance(treasury) == s.Balance(treasury) + price
  {
  }

  /** The treasury is a wallet, as it is in every history. */
  ghost predicate Configured(s: State) {
    GlobalConfig in s.data && s.data[GlobalConfig].Global? && s.data[GlobalConfig].authority.Wallet?
  }

  lemma HistoryIsConfigured(start: State, ts: seq<O.Transaction>)
    requires O.Fresh(start)
    ensures Configured(O.History(start, ts)) && O.Safe(O.History(start, ts))
  {
    O.HistorySafe(start, ts);
    assert O.Shape(O.History(start, ts), GlobalConfig);
  }

  /** Runs of the program alone are histories without outsiders. */
  lemma {:induction false} RunsAreHistories(start: State, calls: seq<Call>) returns (ts: seq<O.Transaction>)
    ensures O.History(start, ts) == Run(start, calls) && forall k :: 0 <= k < |ts| ==> ts[k].Ours?
  {
    if calls == [] {
      ts := [];
    } else {
      var before := RunsAreHistories(start, calls[..|calls| - 1]);
      ts := before + [O.Ours(calls[|calls| - 1])];
      assert ts[..|before|] == before;
    }
  }

  /** A call that mints. */
  lemma MintOfState(s: State, c: Call)
    requires Configured(s) && c.DoExecute?
    ensures Try(s, c).Ok? <==> CanExecute(s, c.user, c.treasury, c.payload, c.signed, c.at)
    ensures Try(s, c).Ok? ==>
              && Valid(InputOf(c.payload)) && ChainQuote(InputOf(c.payload)).Ok? && !ChainQuote(InputOf(c.payload)).value.blocked
              && c.user.Wallet? && c.treasury.Wallet?
              && Executed(s, Step(s, c), c.user, c.treasury, c.payload, ChainQuote(InputOf(c.payload)).value.finalPrice, c.at)
              && MintedAt(Step(s, c), c.payload, ChainQuote(InputOf(c.payload)).value.finalPrice)
  {
    ExecuteExactly(s, c.user, c.treasury, c.payload, c.signed, c.at);
    if Try(s, c).Ok? {
      AdmittedIsValid(s, c.user, c.treasury, c.payload, c.signed, c.at);
      ExecutedMints(s, Step(s, c), c.user, c.treasury, c.payload, QuoteOf(c.payload).value.finalPrice, c.at);
    }
  }

  /** The rents of the five kinds of account, in units of the rate. */
  lemma RentsInFull(s: State)
    ensures MintingRent(s) == 1066 * s.rentRate
    ensures s.Rent(LISTING_SPACE) == 217 * s.rentRate && s.Rent(TOKEN_SPACE) == 293 * s.rentRate
    ensures RECEIPT_SPACE == ReceiptCodec.RECEIPT_LEN
  {
  }

  /** Everything a mint records: the proof, the receipt field by field, and the ticket in the user's account. */
  lemma NewTicketInFull(s: State, c: Call)
    requires Configured(s) && c.DoExecute? && Try(s, c).Ok?
    ensures ChainQuote(InputOf(c.payload)).Ok?
    ensures var (p, data, price) := (c.payload, Step(s, c).data, ChainQuote(InputOf(c.payload)).value.finalPrice);
            var mint := MintPda(p.userPubkey, p.zkProofHash, p.nonce);
            var proof := ProofUsePda(p.userPubkey, p.zkProofHash, p.nonce);
            && proof in data && data[proof] == ProofUse(p.userPubkey, p.zkProofHash, p.nonce, c.at)
            && mint in data && data[mint].Mint? && data[mint].supply == 1
            && TokenPda(mint, c.user) in data && data[TokenPda(mint, c.user)] == Token(mint, c.user, 1)
            && ReceiptPda(mint) in data
            && data[ReceiptPda(mint)] == ReceiptData(
                 Receipt(mint, GlobalConfig, c.user, c.user, price, price, c.at, c.at, p.nonce, p.zkProofHash, false, 0))
  {
    MintOfState(s, c);
  }

  /** The bytes the program writes for a receipt are those of the receipt it keeps, whatever keys its addresses have. */
  lemma WrittenReceiptIsTheLedgers(key: Address -> Bytes32, p: ShieldPayload, user: Address, price: u64, now: i64, bump: u8)
    ensures var (r, w) := (FirstReceipt(p, user, price, now),
                           ReceiptCodec.Fresh(key(MintOf(p)), key(GlobalConfig), key(user), price, now, p, bump));
            w == ReceiptCodec.RawReceipt(key(r.mint), key(r.eventKey), key(r.originalBuyer), key(r.currentHolder), r.purchasePrice,
                                         r.lastSalePrice, r.issuedAt, r.lastTransferAt, r.nonce, r.zkProofHash, r.listed, r.resaleCount, bump)
  {
  }

  /** Whenever a ticket is minted, in any history, the price on its receipt, which the user has just paid on top of the
      rents, is the price both the web client and the SDK compute from the payload, and both show the buyer as not blocked. */
  lemma ShownPriceIsCharged(start: State, ts: seq<O.Transaction>, c: Call)
    requires O.Fresh(start) && c.DoExecute? && Try(O.History(start, ts), c).Ok?
    ensures var (s, i) := (O.History(start, ts), InputOf(c.payload));
            && ClientOf(i).Ok? && !ClientOf(i).value.blocked && SdkQuote(i).Ok? && !SdkQuote(i).value.blocked
            && SdkQuote(i).value.finalPrice == ClientOf(i).value.finalPrice
            && MintedAt(Step(s, c), c.payload, SdkQuote(i).value.finalPrice)
            && (c.user != c.treasury ==> Charged(s, Step(s, c), c, SdkQuote(i).value.finalPrice))
  {
    var s := O.History(start, ts);
    HistoryIsConfigured(start, ts);
    MintOfState(s, c);
    UnblockedQuotesAgree(InputOf(c.payload));
    ExecutedMints(s, Step(s, c), c.user, c.treasury, c.payload, ChainQuote(InputOf(c.payload)).value.finalPrice, c.at);
  }

  ghost predicate Charged(s: State, s': State, c: Call, price: u64)
    requires c.DoExecute?
  {
    && s'.Balance(c.user) == s.Balance(c.user) - MintingRent(s) - price
    && s'.Balance(c.treasury) == s.Balance(c.treasury) + price
  }

  lemma FlatDemandCanPay(s: State, c: Call)
    requires c.DoExecute? && c.payload.salesVelocityBps <= 0
    requires Admitted(s, c.user, c.treasury, c.payload, c.signed, c.at)
    requires s.Balance(c.user) >= MintingRent(s) + Max(c.payload.initialPrice, 1)
    ensures QuoteOf(c.payload).Ok? && !QuoteOf(c.payload).value.blocked
    ensures QuoteOf(c.payload).value.finalPrice <= Max(c.payload.initialPrice, 1)
    ensures s.Balance(c.user) >= MintingRent(s) + QuoteOf(c.payload).value.finalPrice
  {
    AdmittedIsValid(s, c.user, c.treasury, c.payload, c.signed, c.at);
    CoolingQuoteIsFinite(InputOf(c.payload));
  }

  /** While demand is flat or falling nobody is priced out by the program alone: in its own runs a signed, valid, unused
      payload of a user who can pay the base price and the rents mints, at no more than the base price. */
  lemma FlatDemandSells(start: State, calls: seq<Call>, c: Call) returns (price: u64)
    requires Genesis(start) && c.DoExecute? && c.payload.salesVelocityBps <= 0
    requires Admitted(Run(start, calls), c.user, c.treasury, c.payload, c.signed, c.at)
    requires ProofOf(c.payload) !in Run(start, calls).data
    requires Run(start, calls).Balance(c.user) >= MintingRent(Run(start, calls)) + Max(c.payload.initialPrice, 1)
    ensures MintedAt(Step(Run(start, calls), c), c.payload, price) && price <= Max(c.payload.initialPrice, 1)
  {
    GenesisInv(start);
    RunKeepsInv(start, calls);
    FreshTicketUntouched(Run(start, calls), c.payload, c.user);
    FlatDemandCanPay(Run(start, calls), c);
    MintOfState(Run(start, calls), c);
    price := QuoteOf(c.payload).value.finalPrice;
  }

  /** Among outsiders such a request mints, at no more than the base price, exactly when nobody has sent lamports to one of
      the ticket's four addresses. */
  lemma FlatDemandSellsExactly(start: State, ts: seq<O.Transaction>, c: Call)
    requires O.Fresh(start) && c.DoExecute? && c.payload.salesVelocityBps <= 0
    requires Admitted(O.History(start, ts), c.user, c.treasury, c.payload, c.signed, c.at)
    requires ProofOf(c.payload) !in O.History(start, ts).data
    requires O.History(start, ts).Balance(c.user) >= MintingRent(O.History(start, ts)) + Max(c.payload.initialPrice, 1)
    ensures Try(O.History(start, ts), c).Ok? <==> P.Clean(O.History(start, ts), MintOf(c.payload))
    ensures Try(O.History(start, ts), c).Ok? ==>
              && QuoteOf(c.payload).Ok? && QuoteOf(c.payload).value.finalPrice <= Max(c.payload.initialPrice, 1)
              && MintedAt(Step(O.History(start, ts), c), c.payload, QuoteOf(c.payload).value.finalPrice)
  {
    var s := O.History(start, ts);
    HistoryIsConfigured(start, ts);
    FlatDemandCanPay(s, c);
    P.MintExactlyAmongOutsiders(s, c.user, c.treasury, c.payload, c.signed, c.at);
    MintOfState(s, c);
  }

  lemma HigherScoreCanMint(s: State, c: Call, score: u8)
    requires c.DoExecute? && c.payload.salesVelocityBps >= 0 && c.payload.dignityScore <= score <= 100
    requires CanExecute(s, c.user, c.treasury, c.payload, c.signed, c.at)
    ensures CanExecute(s, c.user, c.treasury, c.payload.(dignityScore := score), c.signed, c.at)
    ensures ChainQuote(InputOf(c.payload.(dignityScore := score))).value.finalPrice <= ChainQuote(InputOf(c.payload)).value.finalPrice
  {
    var i, p := InputOf(c.payload), c.payload.(dignityScore := score);
    AdmittedIsValid(s, c.user, c.treasury, c.payload, c.signed, c.at);
    HigherScoreNeverRaisesPrice(i, score);
    assert InputOf(p) == i.(dignityScore := score);
    ChainAndClientRejectAlike(InputOf(p));
  }

  /** While demand is flat or rising, a higher dignity score never costs a buyer the ticket, in any history: if the payload
      mints with a lower score it mints with the higher one, at no higher price. */
  lemma DignityNeverCosts(start: State, ts: seq<O.Transaction>, c: Call, score: u8) returns (price: u64, lower: u64)
    requires O.Fresh(start) && c.DoExecute? && Try(O.History(start, ts), c).Ok?
    requires c.payload.salesVelocityBps >= 0 && c.payload.dignityScore <= score <= 100
    ensures MintedAt(Step(O.History(start, ts), c), c.payload, price)
    ensures MintedAt(Step(O.History(start, ts), c.(payload := c.payload.(dignityScore := score))), c.payload, lower)
    ensures lower <= price
  {
    var s, p := O.History(start, ts), c.payload.(dignityScore := score);
    HistoryIsConfigured(start, ts);
    MintOfState(s, c);
    HigherScoreCanMint(s, c, score);
    MintOfState(s, c.(payload := p));
    price, lower := ChainQuote(InputOf(c.payload)).value.finalPrice, ChainQuote(InputOf(p)).value.finalPrice;
  }
}
