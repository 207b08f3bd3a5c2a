/** What each instruction, when it succeeds in any state whatever, has found and has written: the data of all accounts,
    rents and balances aside. */
module Instructions {
  import opened Outcomes
  import opened Widths
  import opened ShieldPayloads
  import opened Quotes
  import opened Ledger
  import opened Tickets

  /** The accounts of a resale instruction's seller are in order. */
  ghost predicate SellerOk(s: State, mint: Address, seller: Address) {
    seller.Wallet? && CheckReceipt(s, mint, seller).None?
  }

  ghost predicate TokenOf(s: State, a: Address, mint: Address, owner: Address, amount: nat) {
    a in s.data && s.data[a] == Token(mint, owner, amount)
  }

  lemma DepositData(s: State, mint: Address, token: Address, seller: Address)
    requires Deposit(s, mint, token, seller).Ok?
    requires EscrowPda(mint) in s.data && s.data[EscrowPda(mint)] == Token(mint, ListingPda(mint), 0) && token != EscrowPda(mint)
    ensures TokenOf(s, token, mint, seller, 1)
    ensures Deposit(s, mint, token, seller).value.data
         == s.data[EscrowPda(mint) := Token(mint, ListingPda(mint), 1)] - {token}
    ensures Deposit(s, mint, token, seller).value.rentRate == s.rentRate
  {
    var s1 := TransferToken(s, token, EscrowPda(mint), seller, TICKET_AMOUNT).value;
    assert s1.data[token].amount == 0;
  }

  /** A successful listing: an unlisted ticket in the seller's account, and a fresh listing and escrow. */
  lemma ListData(s: State, seller: Address, mint: Address, askPrice: u64, now: i64)
    requires ListTicket(s, seller, mint, askPrice, now).Ok?
    ensures SellerOk(s, mint, seller) && askPrice > 0 && !s.data[ReceiptPda(mint)].receipt.listed
    ensures ListingPda(mint) !in s.data && EscrowPda(mint) !in s.data
    ensures TokenOf(s, TokenPda(mint, seller), mint, seller, 1)
    ensures var s' := ListTicket(s, seller, mint, askPrice, now).value;
            s'.data == (s.data[ListingPda(mint) := Listing(seller, mint, askPrice, now)]
                              [EscrowPda(mint) := Token(mint, ListingPda(mint), 1)] - {TokenPda(mint, seller)})
                       [ReceiptPda(mint) := ReceiptData(s.data[ReceiptPda(mint)].receipt.(listed := true))]
  {
    var s1 := OpenListing(s, seller, mint, askPrice, now).value;
    DepositData(s1, mint, TokenPda(mint, seller), seller);
  }

  lemma ReleaseData(s: State, mint: Address, token: Address, seller: Address)
    requires ReleaseEscrow(s, mint, token, seller).Ok?
    requires token in s.data && s.data[token].Token? && s.data[token].amount == 0 && token != EscrowPda(mint) && token != ListingPda(mint)
    requires EscrowPda(mint) in s.data && s.data[EscrowPda(mint)].Token? && s.data[EscrowPda(mint)].amount == 1
    ensures ReleaseEscrow(s, mint, token, seller).value.data
         == s.data[token := s.data[token].(amount := 1)] - {EscrowPda(mint), ListingPda(mint)}
    ensures ReleaseEscrow(s, mint, token, seller).value.rentRate == s.rentRate
  {
    var s1 := TransferToken(s, EscrowPda(mint), token, ListingPda(mint), TICKET_AMOUNT).value;
    var s2 := CloseToken(s1, EscrowPda(mint), seller, ListingPda(mint)).value;
    assert s2.data == s1.data - {EscrowPda(mint)};
    assert Close(s2, ListingPda(mint), seller).data == s2.data - {ListingPda(mint)};
  }

  /** The listing a cancel or a fill works on. */
  ghost predicate ListingOk(s: State, mint: Address, seller: Address) {
    && SellerOk(s, mint, seller) && CheckListing(s, mint, seller).None?
    && s.data[ReceiptPda(mint)].receipt.listed && s.data[EscrowPda(mint)].amount == 1
  }

  lemma CancelData(s: State, seller: Address, mint: Address)
    requires CancelTicketListing(s, seller, mint).Ok?
    ensures ListingOk(s, mint, seller) && TokenPda(mint, seller) !in s.data
    ensures CancelTicketListing(s, seller, mint).value.data
         == (s.data[TokenPda(mint, seller) := Token(mint, seller, 1)] - {EscrowPda(mint), ListingPda(mint)})
            [ReceiptPda(mint) := ReceiptData(s.data[ReceiptPda(mint)].receipt.(listed := false))]
  {
    var s1 := AnchorInit(s, seller, TokenPda(mint, seller), TOKEN_SPACE, Token(mint, seller, 0)).value;
    ReleaseData(s1, mint, TokenPda(mint, seller), seller);
  }

  lemma SaleData(s: State, buyer: Address, seller: Address, feeRecipient: Address, salePrice: u64)
    requires PaySale(s, buyer, seller, feeRecipient, salePrice).Ok?
    ensures PaySale(s, buyer, seller, feeRecipient, salePrice).value.data == s.data
  {
  }

  lemma FillData(s: State, buyer: Address, seller: Address, feeRecipient: Address, mint: Address, now: i64)
    requires FillTicketListing(s, buyer, seller, feeRecipient, mint, now).Ok?
    ensures buyer.Wallet? && buyer != seller && TokenPda(mint, buyer) !in s.data
    ensures CheckReceipt(s, mint, seller).None? && CheckListing(s, mint, seller).None?
    ensures s.data[ReceiptPda(mint)].receipt.listed && s.data[EscrowPda(mint)].amount == 1
    ensures s.data[ReceiptPda(mint)].receipt.resaleCount < U64_MAX
    ensures FillTicketListing(s, buyer, seller, feeRecipient, mint, now).value.data
         == (s.data[TokenPda(mint, buyer) := Token(mint, buyer, 1)] - {EscrowPda(mint), ListingPda(mint)})
            [ReceiptPda(mint) := ReceiptData(Sold(s.data[ReceiptPda(mint)].receipt, buyer, s.data[ListingPda(mint)].askPrice, now))]
  {
    var salePrice := s.data[ListingPda(mint)].askPrice;
    var s1 := AnchorInit(s, buyer, TokenPda(mint, buyer), TOKEN_SPACE, Token(mint, buyer, 0)).value;
    SaleData(s1, buyer, seller, feeRecipient, salePrice);
    var s2 := PaySale(s1, buyer, seller, feeRecipient, salePrice).value;
    ReleaseData(s2, mint, TokenPda(mint, buyer), seller);
  }

  lemma IssueData(s: State, mint: Address, token: Address, owner: Address)
    requires IssueTicket(s, mint, token).Ok? && token != mint
    requires mint in s.data && s.data[mint] == Mint(0, Some(MintAuthority), Some(MintAuthority))
    requires token in s.data && s.data[token] == Token(mint, owner, 0)
    ensures IssueTicket(s, mint, token).value.data == s.data[mint := Mint(1, None, None)][token := Token(mint, owner, 1)]
  {
  }

  ghost predicate NoAccounts(s: State, p: ShieldPayload, user: Address) {
    ProofOf(p) !in s.data && MintOf(p) !in s.data && TokenPda(MintOf(p), user) !in s.data && ReceiptPda(MintOf(p)) !in s.data
  }

  lemma OpenData(s: State, user: Address, p: ShieldPayload, now: i64)
    requires OpenAccounts(s, user, p, now).Ok?
    ensures ProofOf(p) !in s.data && MintOf(p) !in s.data && TokenPda(MintOf(p), user) !in s.data
    ensures OpenAccounts(s, user, p, now).value.data
         == s.data[ProofOf(p) := ProofUse(p.userPubkey, p.zkProofHash, p.nonce, now)]
                  [MintOf(p) := Mint(0, Some(MintAuthority), Some(MintAuthority))]
                  [TokenPda(MintOf(p), user) := Token(MintOf(p), user, 0)]
  {
  }

  lemma MintIsFinish(s: State, user: Address, treasury: Address, p: ShieldPayload, now: i64) returns (s1: State)
    requires MintTicket(s, user, treasury, p, now).Ok?
    ensures OpenAccounts(s, user, p, now) == Ok(s1) && QuoteOf(p).Ok?
    ensures MintTicket(s, user, treasury, p, now) == FinishMint(s1, user, treasury, p, QuoteOf(p).value, now)
  {
    s1 := OpenAccounts(s, user, p, now).value;
  }

  lemma MintData(s: State, user: Address, treasury: Address, p: ShieldPayload, now: i64)
    requires MintTicket(s, user, treasury, p, now).Ok?
    ensures NoAccounts(s, p, user) && QuoteOf(p).Ok? && !QuoteOf(p).value.blocked
    ensures MintTicket(s, user, treasury, p, now).value.data == Ticketed(s.data, user, p, QuoteOf(p).value.finalPrice, now)
  {
    var s1 := MintIsFinish(s, user, treasury, p, now);
    OpenData(s, user, p, now);
    FinishData(s1, user, treasury, p, QuoteOf(p).value, now);
    Merged(s.data, user, p, QuoteOf(p).value.finalPrice, now);
  }

  lemma Merged(data: map<Address, AccountData>, user: Address, p: ShieldPayload, price: u64, now: i64)
    ensures data[ProofOf(p) := ProofUse(p.userPubkey, p.zkProofHash, p.nonce, now)]
                [MintOf(p) := Mint(0, Some(MintAuthority), Some(MintAuthority))]
                [TokenPda(MintOf(p), user) := Token(MintOf(p), user, 0)]
                [ReceiptPda(MintOf(p)) := ReceiptData(FirstReceipt(p, user, price, now))]
                [MintOf(p) := Mint(1, None, None)]
                [TokenPda(MintOf(p), user) := Token(MintOf(p), user, 1)]
         == Ticketed(data, user, p, price, now)
  {
  }

  /** The four accounts of a new ticket. */
  ghost function Ticketed(data: map<Address, AccountData>, user: Address, p: ShieldPayload, price: u64, now: i64)
    : map<Address, AccountData>
  {
    data[ProofOf(p) := ProofUse(p.userPubkey, p.zkProofHash, p.nonce, now)]
        [MintOf(p) := Mint(1, None, None)]
        [TokenPda(MintOf(p), user) := Token(MintOf(p), user, 1)]
        [ReceiptPda(MintOf(p)) := ReceiptData(FirstReceipt(p, user, price, now))]
  }

  lemma ExecuteIsMint(s: State, user: Address, treasury: Address, p: ShieldPayload, signed: bool, now: i64)
    requires ExecuteShield(s, user, treasury, p, signed, now).Ok?
    ensures user == Wallet(p.userPubkey) && signed
    ensures ExecuteShield(s, user, treasury, p, signed, now) == MintTicket(s, user, treasury, p, now)
  {
    ValidUser(p, s.data[AdminConfig].modelHash, user, now);
  }

  lemma ValidUser(p: ShieldPayload, modelHash: Bytes32, user: Address, now: i64)
    ensures ValidateRequest(p, modelHash, user, now).None? ==> user == Wallet(p.userPubkey)
  {
  }

  /** A successful mint: a signed payload of its user, an unblocked quote, four new accounts. */
  lemma ExecuteData(s: State, user: Address, treasury: Address, p: ShieldPayload, signed: bool, now: i64)
    requires ExecuteShield(s, user, treasury, p, signed, now).Ok?
    ensures user == Wallet(p.userPubkey) && signed && NoAccounts(s, p, user)
    ensures QuoteOf(p).Ok? && !QuoteOf(p).value.blocked
    ensures ExecuteShield(s, user, treasury, p, signed, now).value.data == Ticketed(s.data, user, p, QuoteOf(p).value.finalPrice, now)
  {
    ExecuteIsMint(s, user, treasury, p, signed, now);
    MintData(s, user, treasury, p, now);
  }

  lemma FinishData(s: State, user: Address, treasury: Address, p: ShieldPayload, quote: Quote, now: i64)
    requires FinishMint(s, user, treasury, p, quote, now).Ok?
    requires var (mint, token) := (MintOf(p), TokenPda(MintOf(p), user));
             && mint in s.data && s.data[mint] == Mint(0, Some(MintAuthority), Some(MintAuthority))
             && token in s.data && s.data[token] == Token(mint, user, 0)
    ensures ReceiptPda(MintOf(p)) !in s.data && !quote.blocked
    ensures FinishMint(s, user, treasury, p, quote, now).value.data
         == s.data[ReceiptPda(MintOf(p)) := ReceiptData(FirstReceipt(p, user, quote.finalPrice, now))]
                  [MintOf(p) := Mint(1, None, None)]
                  [TokenPda(MintOf(p), user) := Token(MintOf(p), user, 1)]
  {
    var mint := MintOf(p);
    var s1 := CreatePda(s, user, ReceiptPda(mint), RECEIPT_SPACE, ReceiptData(FirstReceipt(p, user, quote.finalPrice, now))).value;
    var s2 := TransferLamports(s1, user, treasury, quote.finalPrice).value;
    IssueData(s2, mint, TokenPda(mint, user), user);
  }
}
