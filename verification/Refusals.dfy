/** Why an instruction is refused, in any state whatever: every error names something that is wrong with the call or the
    accounts it found. */
module Refusals {
  import opened Outcomes
  import opened Widths
  import opened ShieldPayloads
  import opened Quotes
  import opened Ledger
  import opened Tickets
  import opened Outsiders
  import C = Custody

  /** What the errors about the receipt, and about the wallet that signs, say. */
  ghost predicate ReceiptTrouble(s: State, m: Address, holder: Address, e: Error) {
    var receipt := ReceiptPda(m);
    match e
    case MissingSignature => !holder.Wallet?
    case AccountNotInitialized => !(m in s.data && s.data[m].Mint?) || !(receipt in s.data && s.data[receipt].ReceiptData?)
    case TicketMintMismatch => receipt in s.data && s.data[receipt].ReceiptData? && s.data[receipt].receipt.mint != m
    case TicketOwnerMismatch => receipt in s.data && s.data[receipt].ReceiptData? && s.data[receipt].receipt.currentHolder != holder
    case _ => false
  }

  /** What the errors about the listing and its escrow say. */
  ghost predicate ListingTrouble(s: State, m: Address, seller: Address, e: Error) {
    var (listing, escrow) := (ListingPda(m), EscrowPda(m));
    match e
    case AccountNotInitialized => !(listing in s.data && s.data[listing].Listing?)
    case TicketOwnerMismatch => listing in s.data && s.data[listing].Listing? && s.data[listing].seller != seller
    case TicketMintMismatch => listing in s.data && s.data[listing].Listing? && s.data[listing].mint != m
    case InvalidTokenAccount => !OpenFor(s, escrow, m, listing)
    case TicketNotListed => ReceiptPda(m) in s.data && s.data[ReceiptPda(m)].ReceiptData? && !s.data[ReceiptPda(m)].receipt.listed
    case InvalidTicketAmount => OpenFor(s, escrow, m, listing) && s.data[escrow].amount != 1
    case _ => false
  }

  ghost predicate OpenFor(s: State, a: Address, m: Address, owner: Address) {
    a in s.data && s.data[a].Token? && s.data[a].mint == m && s.data[a].owner == owner
  }

  lemma ReceiptRefusal(s: State, m: Address, holder: Address)
    ensures match CheckReceipt(s, m, holder) case Some(e) => ReceiptTrouble(s, m, holder, e) case None => true
  {
  }

  lemma ListingRefusal(s: State, m: Address, seller: Address)
    ensures match CheckListing(s, m, seller) case Some(e) => ListingTrouble(s, m, seller, e) case None => true
  {
  }

  lemma OpenListingRefusal(s: State, seller: Address, m: Address, askPrice: u64, now: i64)
    requires seller.Wallet?
    ensures match OpenListing(s, seller, m, askPrice, now)
            case Ok(s') => EscrowPda(m) in s'.data && s'.data[EscrowPda(m)] == Token(m, ListingPda(m), 0)
                           && forall a :: a != EscrowPda(m) && a != ListingPda(m) ==> SameAt(s, s', a)
            case Err(e) => (e.AccountAlreadyInUse? && (ListingPda(m) in s.data || EscrowPda(m) in s.data))
                           || (e.InsufficientLamports? && s.Balance(seller) < Due(s, ListingPda(m), LISTING_SPACE) + Due(s, EscrowPda(m), TOKEN_SPACE))
  {
    InitExactly(s, seller, ListingPda(m), LISTING_SPACE, Listing(seller, m, askPrice, now));
    if AnchorInit(s, seller, ListingPda(m), LISTING_SPACE, Listing(seller, m, askPrice, now)).Ok? {
      var s1 := AnchorInit(s, seller, ListingPda(m), LISTING_SPACE, Listing(seller, m, askPrice, now)).value;
      InitExactly(s1, seller, EscrowPda(m), TOKEN_SPACE, Token(m, ListingPda(m), 0));
    }
  }

  lemma DepositGoes(s: State, m: Address, token: Address, seller: Address)
    requires token in s.data && s.data[token] == Token(m, seller, 1) && token != EscrowPda(m)
    requires EscrowPda(m) in s.data && s.data[EscrowPda(m)] == Token(m, ListingPda(m), 0)
    ensures Deposit(s, m, token, seller).Ok?
  {
  }

  ghost predicate ListTrouble(s: State, seller: Address, m: Address, askPrice: u64, e: Error) {
    var (token, receipt) := (TokenPda(m, seller), ReceiptPda(m));
    match e
    case InvalidTokenAccount => !OpenFor(s, token, m, seller)
    case AccountAlreadyInUse => ListingPda(m) in s.data || EscrowPda(m) in s.data
    case InsufficientLamports => s.Balance(seller) < Due(s, ListingPda(m), LISTING_SPACE) + Due(s, EscrowPda(m), TOKEN_SPACE)
    case InvalidListingPrice => askPrice == 0
    case TicketAlreadyListed => receipt in s.data && s.data[receipt].ReceiptData? && s.data[receipt].receipt.listed
    case InvalidTicketAmount => OpenFor(s, token, m, seller) && s.data[token].amount != 1
    case _ => ReceiptTrouble(s, m, seller, e)
  }

  /** Once the listing is open, only the handler's own checks are left. */
  lemma OpenedRefusal(s: State, s1: State, seller: Address, m: Address, askPrice: u64, now: i64)
    requires seller.Wallet? && CheckReceipt(s, m, seller).None? && OpenFor(s, TokenPda(m, seller), m, seller)
    requires OpenListing(s, seller, m, askPrice, now) == Ok(s1) && SameAt(s, s1, TokenPda(m, seller))
    requires EscrowPda(m) in s1.data && s1.data[EscrowPda(m)] == Token(m, ListingPda(m), 0)
    ensures match ListTicket(s, seller, m, askPrice, now) case Ok(_) => true case Err(e) => ListTrouble(s, seller, m, askPrice, e)
  {
    if s.data[TokenPda(m, seller)].amount == 1 { DepositGoes(s1, m, TokenPda(m, seller), seller); }
  }

  /** A seller whose listing is refused is told why. In particular the token program never refuses one. */
  lemma ListRefusal(s: State, seller: Address, m: Address, askPrice: u64, now: i64)
    ensures match ListTicket(s, seller, m, askPrice, now) case Ok(_) => true case Err(e) => ListTrouble(s, seller, m, askPrice, e)
  {
    ReceiptRefusal(s, m, seller);
    if seller.Wallet? && CheckReceipt(s, m, seller).None? && IsToken(s, TokenPda(m, seller), m, seller) {
      OpenListingRefusal(s, seller, m, askPrice, now);
      match OpenListing(s, seller, m, askPrice, now)
      case Ok(s1) => OpenedRefusal(s, s1, seller, m, askPrice, now);
      case Err(_) =>
    }
  }

  ghost predicate CancelTrouble(s: State, seller: Address, m: Address, e: Error) {
    match e
    case AccountAlreadyInUse => TokenPda(m, seller) in s.data
    case InsufficientLamports => s.Balance(seller) < Due(s, TokenPda(m, seller), TOKEN_SPACE)
    case _ => ReceiptTrouble(s, m, seller, e) || ListingTrouble(s, m, seller, e)
  }

  /** So is a seller whose cancel is refused. */
  lemma CancelRefusal(s: State, seller: Address, m: Address)
    ensures match CancelTicketListing(s, seller, m) case Ok(_) => true case Err(e) => CancelTrouble(s, seller, m, e)
  {
    ReceiptRefusal(s, m, seller);
    ListingRefusal(s, m, seller);
    InitExactly(s, seller, TokenPda(m, seller), TOKEN_SPACE, Token(m, seller, 0));
  }

  /** A payment fails for want of lamports or because the fee does not fit. */
  lemma PayRefusal(s: State, buyer: Address, seller: Address, feeRecipient: Address, price: u64)
    requires buyer != seller
    ensures match PaySale(s, buyer, seller, feeRecipient, price)
            case Ok(s') => s'.data == s.data
            case Err(e) => (e.InsufficientLamports? && s.Balance(buyer) < price) || (e.InvalidListingPrice? && price * 500 > U64_MAX)
  {
    C.SaleEffect(s, buyer, seller, feeRecipient, price);
    C.FeeFacts(price);
    if price * 500 <= U64_MAX { PaymentRefusal(s, buyer, seller, C.Fee(price), feeRecipient, price); }
  }

  lemma PaymentRefusal(s: State, buyer: Address, seller: Address, fee: u64, feeRecipient: Address, price: u64)
    requires ResaleFee(price) == Ok(fee) && fee <= price
    ensures PaySale(s, buyer, seller, feeRecipient, price).Err? ==>
              PaySale(s, buyer, seller, feeRecipient, price).error.InsufficientLamports?
  {
  }

  ghost predicate FillTrouble(s: State, buyer: Address, seller: Address, feeRecipient: Address, m: Address, e: Error) {
    var (listing, receipt) := (ListingPda(m), ReceiptPda(m));
    match e
    case MissingSignature => !buyer.Wallet?
    case TreasuryMismatch => GlobalConfig in s.data && s.data[GlobalConfig].Global? && s.data[GlobalConfig].authority != feeRecipient
    case AccountAlreadyInUse => TokenPda(m, buyer) in s.data
    case SelfTradeForbidden => buyer == seller
    case InsufficientLamports =>
      listing in s.data && s.data[listing].Listing? && s.Balance(buyer) < s.data[listing].askPrice + Due(s, TokenPda(m, buyer), TOKEN_SPACE)
    case InvalidListingPrice =>
      || (listing in s.data && s.data[listing].Listing? && s.data[listing].askPrice * 500 > U64_MAX)
      || (receipt in s.data && s.data[receipt].ReceiptData? && s.data[receipt].receipt.resaleCount == U64_MAX)
    case AccountNotInitialized =>
      || !(GlobalConfig in s.data && s.data[GlobalConfig].Global?) || seller in s.data || feeRecipient in s.data
      || ReceiptTrouble(s, m, seller, e) || ListingTrouble(s, m, seller, e)
    case _ => ReceiptTrouble(s, m, seller, e) || ListingTrouble(s, m, seller, e)
  }

  lemma SaleRefusal(s: State, buyer: Address, seller: Address, feeRecipient: Address, m: Address, now: i64)
    requires CheckSale(s, buyer, seller, feeRecipient, m).None?
    ensures match CompleteSale(s, buyer, seller, feeRecipient, m, now) case Ok(_) => true case Err(e) => FillTrouble(s, buyer, seller, feeRecipient, m, e)
  {
    var token, price := TokenPda(m, buyer), s.data[ListingPda(m)].askPrice;
    InitExactly(s, buyer, token, TOKEN_SPACE, Token(m, buyer, 0));
    var r1 := AnchorInit(s, buyer, token, TOKEN_SPACE, Token(m, buyer, 0));
    if r1.Ok? && s.data[ReceiptPda(m)].receipt.listed && s.data[EscrowPda(m)].amount == 1 && buyer != seller {
      assert s.data[EscrowPda(m)] == Token(m, ListingPda(m), 1);
      PayRefusal(r1.value, buyer, seller, feeRecipient, price);
      var r2 := PaySale(r1.value, buyer, seller, feeRecipient, price);
      if r2.Ok? { ReleaseGoes(r2.value, m, token, seller); }
    }
  }

  /** And a buyer whose purchase is refused. */
  lemma FillRefusal(s: State, buyer: Address, seller: Address, feeRecipient: Address, m: Address, now: i64)
    ensures match FillTicketListing(s, buyer, seller, feeRecipient, m, now)
            case Ok(_) => true
            case Err(e) => FillTrouble(s, buyer, seller, feeRecipient, m, e)
  {
    ReceiptRefusal(s, m, seller);
    ListingRefusal(s, m, seller);
    if CheckSale(s, buyer, seller, feeRecipient, m).None? { SaleRefusal(s, buyer, seller, feeRecipient, m, now); }
  }

  // ----- Mint -----

  ghost predicate Clean(s: State, a: Address) {
    a !in s.data && s.Balance(a) == 0
  }

  ghost predicate MintTrouble(s: State, user: Address, p: ShieldPayload, e: Error) {
    match e
    case InvalidExecuteShieldAccount =>
      !(Clean(s, ProofOf(p)) && Clean(s, MintOf(p)) && Clean(s, TokenPda(MintOf(p), user)) && Clean(s, ReceiptPda(MintOf(p))))
    case InsufficientLamports =>
      QuoteOf(p).Ok? && s.Balance(user) < C.MintingRent(s) + if QuoteOf(p).value.blocked then 0 else QuoteOf(p).value.finalPrice
    case ShieldBlocked => QuoteOf(p).Ok? && QuoteOf(p).value.blocked && s.Balance(user) >= C.MintingRent(s)
    case _ => false
  }

  lemma CreateRefusal(s: State, payer: Address, a: Address, space: nat, data: AccountData)
    requires payer.Wallet? && !a.Wallet?
    ensures match CreatePda(s, payer, a, space, data)
            case Ok(s') => s.Balance(payer) >= s.Rent(space) && s'.Balance(payer) == s.Balance(payer) - s.Rent(space)
                           && s'.rentRate == s.rentRate && s'.data == s.data[a := data]
                           && forall x :: x != a && x != payer ==> (Clean(s', x) <==> Clean(s, x))
            case Err(e) => (e.InvalidExecuteShieldAccount? && !Clean(s, a))
                           || (e.InsufficientLamports? && s.Balance(payer) < s.Rent(space))
  {
  }

  lemma OpenRefusal(s: State, user: Address, p: ShieldPayload, now: i64)
    requires user.Wallet?
    ensures var (mint, rent) := (MintOf(p), s.Rent(PROOF_USE_SPACE) + s.Rent(MINT_SPACE) + s.Rent(TOKEN_SPACE));
            match OpenAccounts(s, user, p, now)
            case Ok(s') => s.Balance(user) >= rent && s'.Balance(user) == s.Balance(user) - rent && s'.rentRate == s.rentRate
                           && C.IsBlankTicket(s', mint, user)
                           && (Clean(s', ReceiptPda(mint)) <==> Clean(s, ReceiptPda(mint)))
            case Err(e) => (e.InvalidExecuteShieldAccount? && !(Clean(s, ProofOf(p)) && Clean(s, mint) && Clean(s, TokenPda(mint, user))))
                           || (e.InsufficientLamports? && s.Balance(user) < rent)
  {
    var mint := MintOf(p);
    var proof, blank, empty := ProofUse(p.userPubkey, p.zkProofHash, p.nonce, now), Mint(0, Some(MintAuthority), Some(MintAuthority)), Token(mint, user, 0);
    CreateRefusal(s, user, ProofOf(p), PROOF_USE_SPACE, proof);
    var r1 := CreatePda(s, user, ProofOf(p), PROOF_USE_SPACE, proof);
    if r1.Ok? {
      CreateRefusal(r1.value, user, mint, MINT_SPACE, blank);
      var r2 := CreatePda(r1.value, user, mint, MINT_SPACE, blank);
      if r2.Ok? { CreateRefusal(r2.value, user, TokenPda(mint, user), TOKEN_SPACE, empty); }
    }
  }

  lemma FinishRefusal(s: State, user: Address, treasury: Address, p: ShieldPayload, quote: Quote, now: i64)
    requires user.Wallet? && C.IsBlankTicket(s, MintOf(p), user)
    ensures match FinishMint(s, user, treasury, p, quote, now)
            case Ok(_) => true
            case Err(InvalidExecuteShieldAccount) => !Clean(s, ReceiptPda(MintOf(p)))
            case Err(InsufficientLamports) => s.Balance(user) < s.Rent(RECEIPT_SPACE) + if quote.blocked then 0 else quote.finalPrice
            case Err(e) => e.ShieldBlocked? && quote.blocked && s.Balance(user) >= s.Rent(RECEIPT_SPACE)
  {
    var receipt := ReceiptData(FirstReceipt(p, user, quote.finalPrice, now));
    CreateRefusal(s, user, ReceiptPda(MintOf(p)), RECEIPT_SPACE, receipt);
    var r := CreatePda(s, user, ReceiptPda(MintOf(p)), RECEIPT_SPACE, receipt);
    if r.Ok? && !quote.blocked { IssueGoes(r.value, user, treasury, MintOf(p), quote.finalPrice); }
  }

  lemma IssueGoes(s: State, user: Address, treasury: Address, m: Address, price: u64)
    requires C.IsBlankTicket(s, m, user) && m != TokenPda(m, user)
    ensures match PayAndIssue(s, user, treasury, m, price)
            case Ok(_) => true
            case Err(e) => e.InsufficientLamports? && s.Balance(user) < price
  {
  }

  /** What an admitted request that is refused is told. The rents come before the verdict on the price. */
  lemma MintRefusal(s: State, user: Address, treasury: Address, p: ShieldPayload, signed: bool, now: i64)
    requires C.Admitted(s, user, treasury, p, signed, now)
    ensures match ExecuteShield(s, user, treasury, p, signed, now) case Ok(_) => true case Err(e) => MintTrouble(s, user, p, e)
  {
    C.AdmissionComesFirst(s, user, treasury, p, signed, now);
    OpenRefusal(s, user, p, now);
    match OpenAccounts(s, user, p, now)
    case Ok(s1) => FinishRefusal(s1, user, treasury, p, QuoteOf(p).value, now);
    case Err(_) =>
  }
}
