/** Custody of every ticket over every run of the four instructions. */
module Custody {
  import opened Outcomes
  import opened Widths
  import opened ShieldPayloads
  import opened Quotes
  import opened Ledger
  import opened Tickets

  /** The receipt of a minted ticket. */
  ghost predicate Minted(s: State, mint: Address) {
    ReceiptPda(mint) in s.data && s.data[ReceiptPda(mint)].ReceiptData?
  }

  ghost function ReceiptOf(s: State, mint: Address): Receipt
    requires Minted(s, mint)
  {
    s.data[ReceiptPda(mint)].receipt
  }

  ghost predicate ReceiptOk(mint: Address, r: Receipt) {
    && mint.MintPda?
    && r.mint == mint && r.eventKey == GlobalConfig && r.nonce == mint.nonce && r.zkProofHash == mint.hash
    && r.originalBuyer == Wallet(mint.user)
    && r.currentHolder.Wallet?
  }

  /** The ticket an account belongs to. */
  ghost function TicketOf(a: Address): Option<Address> {
    match a
    case ProofUsePda(u, h, n) => Some(MintPda(u, h, n))
    case MintPda(_, _, _) => Some(a)
    case TokenPda(m, _) => Some(m)
    case ReceiptPda(m) => Some(m)
    case ListingPda(m) => Some(m)
    case EscrowPda(m) => Some(m)
    case _ => None
  }

  ghost predicate Unused(s: State, a: Address) {
    a !in s.data && s.Balance(a) == 0
  }

  /** The account holds exactly this data and exactly its rent. */
  ghost predicate Holds(s: State, a: Address, space: nat, data: AccountData) {
    a in s.data && s.data[a] == data && s.Balance(a) == s.Rent(space)
  }

  /** A ticket that has not been minted has no accounts at all. */
  ghost predicate Absent(s: State, mint: Address) {
    && Unused(s, ReceiptPda(mint)) && Unused(s, ListingPda(mint)) && Unused(s, EscrowPda(mint))
    && (forall o :: Unused(s, TokenPda(mint, o)))
    && (mint.MintPda? ==> Unused(s, mint) && Unused(s, ProofUsePda(mint.user, mint.hash, mint.nonce)))
  }

  /** The permanent accounts of a minted ticket: a frozen supply of one, its proof record and its receipt. */
  ghost predicate Recorded(s: State, mint: Address) {
    && Minted(s, mint) && ReceiptOk(mint, ReceiptOf(s, mint))
    && s.Balance(ReceiptPda(mint)) == s.Rent(RECEIPT_SPACE)
    && Holds(s, mint, MINT_SPACE, Mint(1, None, None))
    && var proof := ProofUsePda(mint.user, mint.hash, mint.nonce);
       && proof in s.data && s.data[proof].ProofUse?
       && Holds(s, proof, PROOF_USE_SPACE, ProofUse(mint.user, mint.hash, mint.nonce, s.data[proof].usedAt))
  }

  /** The owner's account is the only token account and holds the ticket. */
  ghost predicate HeldByOwner(s: State, mint: Address, owner: Address) {
    && Holds(s, TokenPda(mint, owner), TOKEN_SPACE, Token(mint, owner, 1))
    && (forall o :: o != owner ==> Unused(s, TokenPda(mint, o)))
    && Unused(s, ListingPda(mint)) && Unused(s, EscrowPda(mint))
  }

  /** The escrow is the only token account and holds the ticket for the listing of its owner. */
  ghost predicate HeldInEscrow(s: State, mint: Address, owner: Address) {
    && Holds(s, EscrowPda(mint), TOKEN_SPACE, Token(mint, ListingPda(mint), 1))
    && (forall o :: Unused(s, TokenPda(mint, o)))
    && ListingPda(mint) in s.data && s.data[ListingPda(mint)].Listing?
    && s.data[ListingPda(mint)].seller == owner && s.data[ListingPda(mint)].mint == mint
    && s.data[ListingPda(mint)].askPrice > 0 && s.Balance(ListingPda(mint)) == s.Rent(LISTING_SPACE)
  }

  ghost predicate Live(s: State, mint: Address) {
    && Recorded(s, mint)
    && var r := ReceiptOf(s, mint);
       if r.listed then HeldInEscrow(s, mint, r.currentHolder) else HeldByOwner(s, mint, r.currentHolder)
  }

  /** Every account is a configuration account or belongs to a ticket, and every ticket is either absent or live. */
  ghost predicate Inv(s: State) {
    && GlobalConfig in s.data && s.data[GlobalConfig].Global? && s.data[GlobalConfig].authority.Wallet?
    && AdminConfig in s.data && s.data[AdminConfig].Admin?
    && (forall a :: a in s.data ==> a == GlobalConfig || a == AdminConfig || TicketOf(a).Some?)
    && (forall m: Address :: Absent(s, m) || Live(s, m))
  }

  // ----- The exact effect of each instruction -----

  ghost predicate CanList(s: State, seller: Address, mint: Address, askPrice: u64) {
    && Minted(s, mint) && seller == ReceiptOf(s, mint).currentHolder && !ReceiptOf(s, mint).listed
    && askPrice > 0
    && s.Balance(seller) >= s.Rent(LISTING_SPACE) + s.Rent(TOKEN_SPACE)
  }

  ghost predicate Listed(s: State, s': State, seller: Address, mint: Address, askPrice: u64, now: i64)
    requires Minted(s, mint)
  {
    && s'.rentRate == s.rentRate
    && s'.data == (s.data - {TokenPda(mint, seller)})
                    [ListingPda(mint) := Listing(seller, mint, askPrice, now)]
                    [EscrowPda(mint) := Token(mint, ListingPda(mint), 1)]
                    [ReceiptPda(mint) := ReceiptData(ReceiptOf(s, mint).(listed := true))]
    && forall a :: s'.Balance(a) ==
         if a == seller then s.Balance(a) - s.Rent(LISTING_SPACE)
         else if a == ListingPda(mint) then s.Rent(LISTING_SPACE)
         else if a == EscrowPda(mint) then s.Rent(TOKEN_SPACE)
         else if a == TokenPda(mint, seller) then 0
         else s.Balance(a)
  }

  /** Exactly the account `a` was created, at the payer's expense. */
  ghost predicate Created(s: State, s': State, payer: Address, a: Address, space: nat, data: AccountData) {
    && s'.rentRate == s.rentRate && s'.data == s.data[a := data]
    && forall b :: s'.Balance(b) ==
         if b == a then s.Rent(space) else s.Balance(b) - (if b == payer then s.Rent(space) else 0)
  }

  lemma InitEffect(s: State, payer: Address, a: Address, space: nat, data: AccountData)
    requires a !in s.data && s.Balance(a) == 0 && payer != a
    ensures var r := AnchorInit(s, payer, a, space, data);
            && (r.Ok? <==> s.Balance(payer) >= s.Rent(space))
            && (r.Ok? ==> Created(s, r.value, payer, a, space, data))
  {
  }

  /** The listing and its empty escrow exist, paid for by the seller. */
  ghost predicate Opened(s: State, s': State, seller: Address, mint: Address, askPrice: u64, now: i64) {
    && s'.rentRate == s.rentRate
    && s'.data == s.data[ListingPda(mint) := Listing(seller, mint, askPrice, now)]
                        [EscrowPda(mint) := Token(mint, ListingPda(mint), 0)]
    && forall a :: s'.Balance(a) ==
         if a == ListingPda(mint) then s.Rent(LISTING_SPACE)
         else if a == EscrowPda(mint) then s.Rent(TOKEN_SPACE)
         else s.Balance(a) - (if a == seller then s.Rent(LISTING_SPACE) + s.Rent(TOKEN_SPACE) else 0)
  }

  lemma OpenListingEffect(s: State, seller: Address, mint: Address, askPrice: u64, now: i64)
    requires seller.Wallet? && ListingPda(mint) !in s.data && EscrowPda(mint) !in s.data
    requires s.Balance(ListingPda(mint)) == 0 && s.Balance(EscrowPda(mint)) == 0
    ensures var r := OpenListing(s, seller, mint, askPrice, now);
            && (r.Ok? <==> s.Balance(seller) >= s.Rent(LISTING_SPACE) + s.Rent(TOKEN_SPACE))
            && (r.Ok? ==> Opened(s, r.value, seller, mint, askPrice, now))
  {
    InitEffect(s, seller, ListingPda(mint), LISTING_SPACE, Listing(seller, mint, askPrice, now));
    if s.Balance(seller) >= s.Rent(LISTING_SPACE) {
      var s1 := AnchorInit(s, seller, ListingPda(mint), LISTING_SPACE, Listing(seller, mint, askPrice, now)).value;
      InitEffect(s1, seller, EscrowPda(mint), TOKEN_SPACE, Token(mint, ListingPda(mint), 0));
    }
  }

  /** The ticket moved into escrow and the seller's account was closed in the seller's favour. */
  ghost predicate Deposited(s: State, s': State, seller: Address, mint: Address) {
    && s'.rentRate == s.rentRate
    && s'.data == (s.data - {TokenPda(mint, seller)})[EscrowPda(mint) := Token(mint, ListingPda(mint), 1)]
    && forall a :: s'.Balance(a) ==
         if a == seller then s.Balance(a) + s.Balance(TokenPda(mint, seller))
         else if a == TokenPda(mint, seller) then 0
         else s.Balance(a)
  }

  lemma DepositEffect(s: State, seller: Address, mint: Address)
    requires TokenPda(mint, seller) in s.data && s.data[TokenPda(mint, seller)] == Token(mint, seller, 1)
    requires EscrowPda(mint) in s.data && s.data[EscrowPda(mint)] == Token(mint, ListingPda(mint), 0)
    requires seller.Wallet?
    ensures var r := Deposit(s, mint, TokenPda(mint, seller), seller); r.Ok? && Deposited(s, r.value, seller, mint)
  {
  }

  /** What listing looks at in a live, unlisted ticket. */
  ghost predicate ReadyToList(s: State, seller: Address, mint: Address) {
    && seller.Wallet? && Minted(s, mint) && CheckReceipt(s, mint, seller).None? && !ReceiptOf(s, mint).listed
    && Holds(s, TokenPda(mint, seller), TOKEN_SPACE, Token(mint, seller, 1))
    && Unused(s, ListingPda(mint)) && Unused(s, EscrowPda(mint))
  }

  lemma ListStages(s: State, seller: Address, mint: Address, askPrice: u64, now: i64) returns (s1: State, s2: State)
    requires ReadyToList(s, seller, mint)
    ensures ListTicket(s, seller, mint, askPrice, now).Ok?
       <==> askPrice > 0 && s.Balance(seller) >= s.Rent(LISTING_SPACE) + s.Rent(TOKEN_SPACE)
    ensures ListTicket(s, seller, mint, askPrice, now).Ok? ==>
              && ListTicket(s, seller, mint, askPrice, now).value
              == s2.(data := s2.data[ReceiptPda(mint) := ReceiptData(ReceiptOf(s, mint).(listed := true))])
              && Opened(s, s1, seller, mint, askPrice, now) && Deposited(s1, s2, seller, mint)
  {
    s1, s2 := s, s;
    OpenListingEffect(s, seller, mint, askPrice, now);
    if OpenListing(s, seller, mint, askPrice, now).Ok? {
      s1 := OpenListing(s, seller, mint, askPrice, now).value;
      DepositEffect(s1, seller, mint);
      s2 := Deposit(s1, mint, TokenPda(mint, seller), seller).value;
    }
  }

  lemma ListEffect(s: State, s1: State, s2: State, s3: State, seller: Address, mint: Address, askPrice: u64, now: i64)
    requires ReadyToList(s, seller, mint)
    requires Opened(s, s1, seller, mint, askPrice, now) && Deposited(s1, s2, seller, mint)
    requires s3 == s2.(data := s2.data[ReceiptPda(mint) := ReceiptData(ReceiptOf(s, mint).(listed := true))])
    ensures Listed(s, s3, seller, mint, askPrice, now)
  {
    assert s2.data == (s.data - {TokenPda(mint, seller)})[ListingPda(mint) := Listing(seller, mint, askPrice, now)]
                                                         [EscrowPda(mint) := Token(mint, ListingPda(mint), 1)];
    assert forall a :: s3.Balance(a) == s2.Balance(a);
  }

  /** A listing succeeds exactly for the holder of an unlisted ticket with a positive price and the rents in hand. */
  lemma ListExactly(s: State, seller: Address, mint: Address, askPrice: u64, now: i64)
    requires Inv(s)
    ensures ListTicket(s, seller, mint, askPrice, now).Ok? <==> CanList(s, seller, mint, askPrice)
    ensures CanList(s, seller, mint, askPrice) ==>
              Listed(s, ListTicket(s, seller, mint, askPrice, now).value, seller, mint, askPrice, now)
  {
    if Minted(s, mint) {
      assert Live(s, mint);
      if seller == ReceiptOf(s, mint).currentHolder && !ReceiptOf(s, mint).listed {
        var s1, s2 := ListStages(s, seller, mint, askPrice, now);
        if CanList(s, seller, mint, askPrice) {
          ListEffect(s, s1, s2, ListTicket(s, seller, mint, askPrice, now).value, seller, mint, askPrice, now);
        }
      }
    }
  }

  // ----- Cancel -----

  /** The ticket left escrow for `owner`'s account; the escrow and the listing were closed in the seller's favour. */
  ghost predicate Released(s: State, s': State, mint: Address, owner: Address, seller: Address) {
    && s'.rentRate == s.rentRate
    && s'.data == (s.data - {EscrowPda(mint), ListingPda(mint)})[TokenPda(mint, owner) := Token(mint, owner, 1)]
    && forall a :: s'.Balance(a) ==
         if a == seller then s.Balance(a) + s.Balance(EscrowPda(mint)) + s.Balance(ListingPda(mint))
         else if a == EscrowPda(mint) || a == ListingPda(mint) then 0
         else s.Balance(a)
  }

  lemma ReleaseEffect(s: State, mint: Address, owner: Address, seller: Address)
    requires seller.Wallet?
    requires EscrowPda(mint) in s.data && s.data[EscrowPda(mint)] == Token(mint, ListingPda(mint), 1)
    requires TokenPda(mint, owner) in s.data && s.data[TokenPda(mint, owner)] == Token(mint, owner, 0)
    ensures var r := ReleaseEscrow(s, mint, TokenPda(mint, owner), seller); r.Ok? && Released(s, r.value, mint, owner, seller)
  {
  }

  ghost predicate CanCancel(s: State, seller: Address, mint: Address) {
    && Minted(s, mint) && seller == ReceiptOf(s, mint).currentHolder && ReceiptOf(s, mint).listed
    && s.Balance(seller) >= s.Rent(TOKEN_SPACE)
  }

  ghost predicate Canceled(s: State, s': State, seller: Address, mint: Address)
    requires Minted(s, mint)
  {
    && s'.rentRate == s.rentRate
    && s'.data == (s.data - {EscrowPda(mint), ListingPda(mint)})
                    [TokenPda(mint, seller) := Token(mint, seller, 1)]
                    [ReceiptPda(mint) := ReceiptData(ReceiptOf(s, mint).(listed := false))]
    && forall a :: s'.Balance(a) ==
         if a == seller then s.Balance(a) + s.Rent(LISTING_SPACE)
         else if a == ListingPda(mint) || a == EscrowPda(mint) then 0
         else if a == TokenPda(mint, seller) then s.Rent(TOKEN_SPACE)
         else s.Balance(a)
  }

  /** What cancelling and filling look at in a live, listed ticket that is to go to `to`. */
  ghost predicate ReadyToRelease(s: State, mint: Address, seller: Address, to: Address) {
    && seller.Wallet? && to.Wallet? && Minted(s, mint) && ReceiptOf(s, mint).listed
    && CheckReceipt(s, mint, seller).None? && CheckListing(s, mint, seller).None?
    && Holds(s, EscrowPda(mint), TOKEN_SPACE, Token(mint, ListingPda(mint), 1))
    && s.Balance(ListingPda(mint)) == s.Rent(LISTING_SPACE)
    && Unused(s, TokenPda(mint, to))
  }

  lemma CancelStages(s: State, seller: Address, mint: Address) returns (s1: State, s2: State)
    requires ReadyToRelease(s, mint, seller, seller)
    ensures CancelTicketListing(s, seller, mint).Ok? <==> s.Balance(seller) >= s.Rent(TOKEN_SPACE)
    ensures CancelTicketListing(s, seller, mint).Ok? ==>
              && CancelTicketListing(s, seller, mint).value
              == s2.(data := s2.data[ReceiptPda(mint) := ReceiptData(ReceiptOf(s, mint).(listed := false))])
              && Created(s, s1, seller, TokenPda(mint, seller), TOKEN_SPACE, Token(mint, seller, 0))
              && Released(s1, s2, mint, seller, seller)
  {
    s1, s2 := s, s;
    var token := TokenPda(mint, seller);
    InitEffect(s, seller, token, TOKEN_SPACE, Token(mint, seller, 0));
    if s.Balance(seller) >= s.Rent(TOKEN_SPACE) {
      s1 := AnchorInit(s, seller, token, TOKEN_SPACE, Token(mint, seller, 0)).value;
      ReleaseEffect(s1, mint, seller, seller);
      s2 := ReleaseEscrow(s1, mint, token, seller).value;
    }
  }

  lemma CancelEffect(s: State, s1: State, s2: State, s3: State, seller: Address, mint: Address)
    requires ReadyToRelease(s, mint, seller, seller)
    requires Created(s, s1, seller, TokenPda(mint, seller), TOKEN_SPACE, Token(mint, seller, 0))
    requires Released(s1, s2, mint, seller, seller)
    requires s3 == s2.(data := s2.data[ReceiptPda(mint) := ReceiptData(ReceiptOf(s, mint).(listed := false))])
    ensures Canceled(s, s3, seller, mint)
  {
    assert forall a :: s3.Balance(a) == s2.Balance(a);
  }

  /** A cancellation succeeds exactly for the seller of a listed ticket who can fund the new token account. */
  lemma CancelExactly(s: State, seller: Address, mint: Address)
    requires Inv(s)
    ensures CancelTicketListing(s, seller, mint).Ok? <==> CanCancel(s, seller, mint)
    ensures CanCancel(s, seller, mint) ==> Canceled(s, CancelTicketListing(s, seller, mint).value, seller, mint)
  {
    if Minted(s, mint) {
      assert Live(s, mint);
      if seller == ReceiptOf(s, mint).currentHolder && ReceiptOf(s, mint).listed {
        var s1, s2 := CancelStages(s, seller, mint);
        if CanCancel(s, seller, mint) {
          CancelEffect(s, s1, s2, CancelTicketListing(s, seller, mint).value, seller, mint);
        }
      }
    }
  }

  // ----- Fill -----

  ghost predicate CanFill(s: State, buyer: Address, seller: Address, feeRecipient: Address, mint: Address) {
    && Live(s, mint) && seller == ReceiptOf(s, mint).currentHolder && ReceiptOf(s, mint).listed
    && buyer.Wallet? && buyer != seller
    && GlobalConfig in s.data && s.data[GlobalConfig].Global? && feeRecipient == s.data[GlobalConfig].authority
    && Affordable(s, buyer, mint)
  }

  ghost predicate Affordable(s: State, buyer: Address, mint: Address)
    requires Minted(s, mint) && ListingPda(mint) in s.data && s.data[ListingPda(mint)].Listing?
  {
    && s.data[ListingPda(mint)].askPrice * 500 <= U64_MAX
    && s.Balance(buyer) >= s.Rent(TOKEN_SPACE) + s.data[ListingPda(mint)].askPrice
    && ReceiptOf(s, mint).resaleCount < U64_MAX
  }

  ghost function Fee(price: nat): nat {
    price * 500 / 10_000
  }

  ghost predicate Filled(s: State, s': State, buyer: Address, seller: Address, feeRecipient: Address, mint: Address, now: i64)
    requires Minted(s, mint) && ReceiptOf(s, mint).resaleCount < U64_MAX
    requires ListingPda(mint) in s.data && s.data[ListingPda(mint)].Listing?
  {
    var price := s.data[ListingPda(mint)].askPrice;
    && s'.rentRate == s.rentRate
    && s'.data == (s.data - {EscrowPda(mint), ListingPda(mint)})
                    [TokenPda(mint, buyer) := Token(mint, buyer, 1)]
                    [ReceiptPda(mint) := ReceiptData(Sold(ReceiptOf(s, mint), buyer, price, now))]
    && forall a :: s'.Balance(a) ==
         if a == ListingPda(mint) || a == EscrowPda(mint) then 0
         else if a == TokenPda(mint, buyer) then s.Rent(TOKEN_SPACE)
         else s.Balance(a)
              - (if a == buyer then s.Rent(TOKEN_SPACE) + price else 0)
              + (if a == seller then price - Fee(price) + s.Rent(TOKEN_SPACE) + s.Rent(LISTING_SPACE) else 0)
              + (if a == feeRecipient then Fee(price) else 0)
  }

  ghost predicate Transferred(s: State, s': State, from: Address, to: Address, amount: nat) {
    && s'.rentRate == s.rentRate && s'.data == s.data
    && forall a :: s'.Balance(a) == s.Balance(a) - (if a == from then amount else 0) + (if a == to then amount else 0)
  }

  lemma TransferEffect(s: State, from: Address, to: Address, amount: nat)
    ensures var r := TransferLamports(s, from, to, amount);
            && (r.Ok? <==> s.Balance(from) >= amount)
            && (r.Ok? ==> Transferred(s, r.value, from, to, amount))
  {
  }

  /** Proceeds and fee together are the price, whoever the fee recipient is. */
  ghost predicate Paid(s: State, s': State, buyer: Address, seller: Address, feeRecipient: Address, price: nat) {
    PaidWith(s, s', buyer, seller, feeRecipient, price, Fee(price))
  }

  ghost predicate PaidWith(s: State, s': State, buyer: Address, seller: Address, feeRecipient: Address, price: nat, fee: int) {
    && s'.rentRate == s.rentRate && s'.data == s.data
    && forall a :: s'.Balance(a) ==
         s.Balance(a) - (if a == buyer then price else 0) + (if a == seller then price - fee else 0)
                      + (if a == feeRecipient then fee else 0)
  }

  lemma FeeFacts(price: u64)
    ensures 0 <= Fee(price) <= price
    ensures ResaleFee(price) == if price * 500 > U64_MAX then Err(Error.InvalidListingPrice) else Ok(Fee(price))
  {
  }

  function TransferTwice(s: State, from: Address, first: Address, x: nat, second: Address, y: nat): Result<State, Error> {
    var s1 :- TransferLamports(s, from, first, x);
    TransferLamports(s1, from, second, y)
  }

  lemma TransferTwiceEffect(s: State, buyer: Address, seller: Address, feeRecipient: Address, price: nat, fee: nat)
    requires buyer != seller && fee <= price
    ensures var r := TransferTwice(s, buyer, seller, price - fee, feeRecipient, fee);
            && (r.Ok? <==> s.Balance(buyer) >= price)
            && (r.Ok? ==> PaidWith(s, r.value, buyer, seller, feeRecipient, price, fee))
  {
    TransferEffect(s, buyer, seller, price - fee);
    if s.Balance(buyer) >= price - fee {
      TransferEffect(TransferLamports(s, buyer, seller, price - fee).value, buyer, feeRecipient, fee);
    }
  }

  lemma SaleIsTwoTransfers(s: State, buyer: Address, seller: Address, feeRecipient: Address, price: u64)
    ensures 0 <= Fee(price) <= price
    ensures PaySale(s, buyer, seller, feeRecipient, price) ==
            if price * 500 > U64_MAX then Err(Error.InvalidListingPrice)
            else TransferTwice(s, buyer, seller, price - Fee(price), feeRecipient, Fee(price))
  {
    FeeFacts(price);
  }

  lemma SaleSucceeds(s: State, buyer: Address, seller: Address, feeRecipient: Address, price: u64)
    requires buyer != seller
    ensures PaySale(s, buyer, seller, feeRecipient, price).Ok? <==> price * 500 <= U64_MAX && s.Balance(buyer) >= price
  {
    SaleIsTwoTransfers(s, buyer, seller, feeRecipient, price);
    TransferTwiceEffect(s, buyer, seller, feeRecipient, price, Fee(price));
  }

  lemma SalePays(s: State, buyer: Address, seller: Address, feeRecipient: Address, price: u64)
    requires buyer != seller && PaySale(s, buyer, seller, feeRecipient, price).Ok?
    ensures Paid(s, PaySale(s, buyer, seller, feeRecipient, price).value, buyer, seller, feeRecipient, price)
  {
    var s' := PaySale(s, buyer, seller, feeRecipient, price).value;
    assert PaidWith(s, s', buyer, seller, feeRecipient, price, Fee(price)) by {
      SaleIsTwoTransfers(s, buyer, seller, feeRecipient, price);
      PaidByTransfers(s, s', buyer, seller, feeRecipient, price, Fee(price));
    }
  }

  lemma PaidByTransfers(s: State, s': State, buyer: Address, seller: Address, feeRecipient: Address, price: nat, fee: nat)
    requires buyer != seller && fee <= price && TransferTwice(s, buyer, seller, price - fee, feeRecipient, fee) == Ok(s')
    ensures PaidWith(s, s', buyer, seller, feeRecipient, price, fee)
  {
    TransferTwiceEffect(s, buyer, seller, feeRecipient, price, fee);
  }

  lemma SaleEffect(s: State, buyer: Address, seller: Address, feeRecipient: Address, price: u64)
    requires buyer != seller
    ensures var r := PaySale(s, buyer, seller, feeRecipient, price);
            && (r.Ok? <==> price * 500 <= U64_MAX && s.Balance(buyer) >= price)
            && (r.Ok? ==> Paid(s, r.value, buyer, seller, feeRecipient, price))
  {
    SaleSucceeds(s, buyer, seller, feeRecipient, price);
    if PaySale(s, buyer, seller, feeRecipient, price).Ok? { SalePays(s, buyer, seller, feeRecipient, price); }
  }

  lemma FillStages(s: State, buyer: Address, seller: Address, feeRecipient: Address, mint: Address, now: i64)
    returns (s1: State, s2: State, s3: State)
    requires ReadyToRelease(s, mint, seller, buyer) && buyer != seller
    requires GlobalConfig in s.data && s.data[GlobalConfig].Global? && feeRecipient == s.data[GlobalConfig].authority
    requires seller !in s.data && feeRecipient !in s.data && feeRecipient.Wallet?
    ensures FillTicketListing(s, buyer, seller, feeRecipient, mint, now).Ok? <==> Affordable(s, buyer, mint)
    ensures Affordable(s, buyer, mint) ==>
              var price := s.data[ListingPda(mint)].askPrice;
              && FillTicketListing(s, buyer, seller, feeRecipient, mint, now).value
              == s3.(data := s3.data[ReceiptPda(mint) := ReceiptData(Sold(ReceiptOf(s, mint), buyer, price, now))])
              && Created(s, s1, buyer, TokenPda(mint, buyer), TOKEN_SPACE, Token(mint, buyer, 0))
              && Paid(s1, s2, buyer, seller, feeRecipient, price)
              && Released(s2, s3, mint, buyer, seller)
  {
    s1, s2, s3 := s, s, s;
    var token, price := TokenPda(mint, buyer), s.data[ListingPda(mint)].askPrice;
    InitEffect(s, buyer, token, TOKEN_SPACE, Token(mint, buyer, 0));
    if s.Balance(buyer) >= s.Rent(TOKEN_SPACE) {
      s1 := AnchorInit(s, buyer, token, TOKEN_SPACE, Token(mint, buyer, 0)).value;
      SaleEffect(s1, buyer, seller, feeRecipient, price);
      if PaySale(s1, buyer, seller, feeRecipient, price).Ok? {
        s2 := PaySale(s1, buyer, seller, feeRecipient, price).value;
        ReleaseEffect(s2, mint, buyer, seller);
        s3 := ReleaseEscrow(s2, mint, token, seller).value;
      }
    }
  }

  lemma FillEffect(s: State, s1: State, s2: State, s3: State, s4: State,
                   buyer: Address, seller: Address, feeRecipient: Address, mint: Address, now: i64)
    requires ReadyToRelease(s, mint, seller, buyer) && Affordable(s, buyer, mint) && feeRecipient.Wallet? && buyer != seller
    requires Created(s, s1, buyer, TokenPda(mint, buyer), TOKEN_SPACE, Token(mint, buyer, 0))
    requires Paid(s1, s2, buyer, seller, feeRecipient, s.data[ListingPda(mint)].askPrice)
    requires Released(s2, s3, mint, buyer, seller)
    requires s4 == s3.(data := s3.data[ReceiptPda(mint) :=
                                         ReceiptData(Sold(ReceiptOf(s, mint), buyer, s.data[ListingPda(mint)].askPrice, now))])
    ensures Filled(s, s4, buyer, seller, feeRecipient, mint, now)
  {
    assert forall a :: s4.Balance(a) == s3.Balance(a);
  }

  /** A purchase succeeds exactly for a solvent buyer other than the seller, when the price times 500 fits 64 bits
      and the resale counter has room. */
  lemma FillExactly(s: State, buyer: Address, seller: Address, feeRecipient: Address, mint: Address, now: i64)
    requires Inv(s)
    ensures FillTicketListing(s, buyer, seller, feeRecipient, mint, now).Ok? <==> CanFill(s, buyer, seller, feeRecipient, mint)
    ensures CanFill(s, buyer, seller, feeRecipient, mint) ==>
              Filled(s, FillTicketListing(s, buyer, seller, feeRecipient, mint, now).value, buyer, seller, feeRecipient, mint, now)
  {
    if FillTicketListing(s, buyer, seller, feeRecipient, mint, now).Ok? {
      FillGuards(s, buyer, seller, feeRecipient, mint, now);
    }
    if FillTicketListing(s, buyer, seller, feeRecipient, mint, now).Ok? || CanFill(s, buyer, seller, feeRecipient, mint) {
      assert Live(s, mint);
      var s1, s2, s3 := FillStages(s, buyer, seller, feeRecipient, mint, now);
      FillEffect(s, s1, s2, s3, FillTicketListing(s, buyer, seller, feeRecipient, mint, now).value,
                 buyer, seller, feeRecipient, mint, now);
    }
  }

  lemma FillGuards(s: State, buyer: Address, seller: Address, feeRecipient: Address, mint: Address, now: i64)
    requires Inv(s) && FillTicketListing(s, buyer, seller, feeRecipient, mint, now).Ok?
    ensures Live(s, mint) && ReceiptOf(s, mint).listed && ReceiptOf(s, mint).currentHolder == seller
    ensures buyer.Wallet? && buyer != seller && feeRecipient == s.data[GlobalConfig].authority
  {
    assert Live(s, mint);
  }

  // ----- Mint -----

  /** The payload's fields are in order for this user at this time. */
  ghost predicate Acceptable(p: ShieldPayload, modelHash: Bytes32, user: Address, now: i64) {
    && p.policyVersion == 0
    && p.dignityScore <= 100
    && p.salesVelocityBps > -10_000
    && p.userMode <= 2
    && p.timeElapsed <= 2_592_000
    && p.attestationExpiry > now
    && p.scoringModelHash == modelHash
    && user == Wallet(p.userPubkey)
  }

  /** The request passes every check made before an account is created. */
  ghost predicate Admitted(s: State, user: Address, treasury: Address, p: ShieldPayload, signed: bool, now: i64) {
    && user.Wallet? && signed
    && GlobalConfig in s.data && s.data[GlobalConfig].Global?
    && treasury == s.data[GlobalConfig].authority && treasury !in s.data
    && AdminConfig in s.data && s.data[AdminConfig].Admin?
    && Acceptable(p, s.data[AdminConfig].modelHash, user, now)
  }

  /** Validation passes exactly the acceptable payloads, and its error names a requirement that is violated. */
  lemma ValidationIsExact(p: ShieldPayload, modelHash: Bytes32, user: Address, now: i64)
    ensures ValidateRequest(p, modelHash, user, now).None? <==> Acceptable(p, modelHash, user, now)
    ensures match ValidateRequest(p, modelHash, user, now)
            case Some(InvalidPolicyVersion) => p.policyVersion != 0
            case Some(InvalidDignityScore) => p.dignityScore > 100
            case Some(InvalidSalesVelocity) => p.salesVelocityBps <= -10_000
            case Some(InvalidUserMode) => p.userMode > 2
            case Some(InvalidTimeElapsed) => p.timeElapsed > 2_592_000
            case Some(AttestationExpired) => p.attestationExpiry <= now
            case Some(ScoringModelHashMismatch) => p.scoringModelHash != modelHash
            case Some(e) => e.UserPubkeyMismatch? && user != Wallet(p.userPubkey)
            case None => true
  {
  }

  /** The four addresses of the ticket are untouched, and its price and the rents can be paid. */
  ghost predicate CanMint(s: State, user: Address, p: ShieldPayload) {
    && Untouched(s, p, user)
    && QuoteOf(p).Ok? && !QuoteOf(p).value.blocked
    && s.Balance(user) >= MintingRent(s) + QuoteOf(p).value.finalPrice
  }

  ghost predicate CanExecute(s: State, user: Address, treasury: Address, p: ShieldPayload, signed: bool, now: i64) {
    Admitted(s, user, treasury, p, signed, now) && CanMint(s, user, p)
  }

  ghost function MintingRent(s: State): nat {
    s.Rent(PROOF_USE_SPACE) + s.Rent(MINT_SPACE) + s.Rent(TOKEN_SPACE) + s.Rent(RECEIPT_SPACE)
  }

  /** None of the four addresses at which a mint creates an account has ever held data or been sent lamports. */
  ghost predicate Untouched(s: State, p: ShieldPayload, user: Address) {
    && ProofOf(p) !in s.data && s.Balance(ProofOf(p)) == 0
    && MintOf(p) !in s.data && s.Balance(MintOf(p)) == 0
    && TokenPda(MintOf(p), user) !in s.data && s.Balance(TokenPda(MintOf(p), user)) == 0
    && ReceiptPda(MintOf(p)) !in s.data && s.Balance(ReceiptPda(MintOf(p))) == 0
  }

  ghost predicate Executed(s: State, s': State, user: Address, treasury: Address, p: ShieldPayload, price: u64, now: i64) {
    var mint := MintOf(p);
    && s'.rentRate == s.rentRate
    && s'.data == s.data[ProofOf(p) := ProofUse(p.userPubkey, p.zkProofHash, p.nonce, now)]
                        [mint := Mint(1, None, None)]
                        [TokenPda(mint, user) := Token(mint, user, 1)]
                        [ReceiptPda(mint) := ReceiptData(FirstReceipt(p, user, price, now))]
    && forall a :: s'.Balance(a) ==
         if a == ProofOf(p) then s.Rent(PROOF_USE_SPACE)
         else if a == mint then s.Rent(MINT_SPACE)
         else if a == TokenPda(mint, user) then s.Rent(TOKEN_SPACE)
         else if a == ReceiptPda(mint) then s.Rent(RECEIPT_SPACE)
         else s.Balance(a) - (if a == user then MintingRent(s) + price else 0) + (if a == treasury then price else 0)
  }

  lemma CreateEffect(s: State, payer: Address, a: Address, space: nat, data: AccountData)
    requires a !in s.data && s.Balance(a) == 0 && payer != a
    ensures var r := CreatePda(s, payer, a, space, data);
            && (r.Ok? <==> s.Balance(payer) >= s.Rent(space))
            && (r.Ok? ==> Created(s, r.value, payer, a, space, data))
  {
  }

  /** The three accounts created before the receipt. */
  ghost predicate Prepared(s: State, s': State, user: Address, p: ShieldPayload, now: i64) {
    && s'.rentRate == s.rentRate
    && s'.data == s.data[ProofOf(p) := ProofUse(p.userPubkey, p.zkProofHash, p.nonce, now)]
                        [MintOf(p) := Mint(0, Some(MintAuthority), Some(MintAuthority))]
                        [TokenPda(MintOf(p), user) := Token(MintOf(p), user, 0)]
    && forall a :: s'.Balance(a) ==
         if a == ProofOf(p) then s.Rent(PROOF_USE_SPACE)
         else if a == MintOf(p) then s.Rent(MINT_SPACE)
         else if a == TokenPda(MintOf(p), user) then s.Rent(TOKEN_SPACE)
         else if a == user then s.Balance(a) - OpeningRent(s)
         else s.Balance(a)
  }

  ghost function OpeningRent(s: State): nat {
    s.Rent(PROOF_USE_SPACE) + s.Rent(MINT_SPACE) + s.Rent(TOKEN_SPACE)
  }

  lemma OpenEffect(s: State, user: Address, p: ShieldPayload, now: i64)
    requires user.Wallet? && Untouched(s, p, user)
    ensures var r := OpenAccounts(s, user, p, now);
            && (r.Ok? <==> s.Balance(user) >= OpeningRent(s))
            && (r.Ok? ==> Prepared(s, r.value, user, p, now))
  {
    var mint, blank := MintOf(p), Mint(0, Some(MintAuthority), Some(MintAuthority));
    var proof := ProofUse(p.userPubkey, p.zkProofHash, p.nonce, now);
    CreateEffect(s, user, ProofOf(p), PROOF_USE_SPACE, proof);
    if s.Balance(user) >= s.Rent(PROOF_USE_SPACE) {
      var s1 := CreatePda(s, user, ProofOf(p), PROOF_USE_SPACE, proof).value;
      CreateEffect(s1, user, mint, MINT_SPACE, blank);
      if s1.Balance(user) >= s.Rent(MINT_SPACE) {
        var s2 := CreatePda(s1, user, mint, MINT_SPACE, blank).value;
        CreateEffect(s2, user, TokenPda(mint, user), TOKEN_SPACE, Token(mint, user, 0));
      }
    }
  }

  /** Minting one ticket and giving up both authorities leaves a supply of one that nobody can change. */
  lemma IssueEffect(s: State, mint: Address, token: Address, owner: Address)
    requires mint in s.data && s.data[mint] == Mint(0, Some(MintAuthority), Some(MintAuthority))
    requires token in s.data && s.data[token] == Token(mint, owner, 0)
    ensures IssueTicket(s, mint, token)
         == Ok(s.(data := s.data[mint := Mint(1, None, None)][token := Token(mint, owner, 1)]))
  {
    var s1 := MintTo(s, mint, token, MintAuthority, TICKET_AMOUNT).value;
    var s2 := RevokeAuthorities(s1, mint, MintAuthority).value;
    assert s2.data == s.data[mint := Mint(1, None, None)][token := Token(mint, owner, 1)];
  }

  ghost predicate Issued(s: State, s': State, user: Address, treasury: Address, mint: Address, price: nat) {
    && s'.rentRate == s.rentRate
    && s'.data == s.data[mint := Mint(1, None, None)][TokenPda(mint, user) := Token(mint, user, 1)]
    && forall a :: s'.Balance(a) ==
         s.Balance(a) - (if a == user then price else 0) + (if a == treasury then price else 0)
  }

  lemma PayAndIssueEffect(s: State, user: Address, treasury: Address, mint: Address, price: u64)
    requires mint in s.data && s.data[mint] == Mint(0, Some(MintAuthority), Some(MintAuthority))
    requires TokenPda(mint, user) in s.data && s.data[TokenPda(mint, user)] == Token(mint, user, 0)
    ensures var r := PayAndIssue(s, user, treasury, mint, price);
            && (r.Ok? <==> s.Balance(user) >= price)
            && (r.Ok? ==> Issued(s, r.value, user, treasury, mint, price))
  {
    TransferEffect(s, user, treasury, price);
    if s.Balance(user) >= price {
      IssueEffect(TransferLamports(s, user, treasury, price).value, mint, TokenPda(mint, user), user);
    }
  }

  /** The second half of a mint: its two stages, and when both go through. */
  lemma FinishStages(s: State, user: Address, treasury: Address, p: ShieldPayload, quote: Quote, now: i64) returns (s1: State)
    requires user.Wallet? && IsBlankTicket(s, MintOf(p), user)
    requires ReceiptPda(MintOf(p)) !in s.data && s.Balance(ReceiptPda(MintOf(p))) == 0
    ensures var r := FinishMint(s, user, treasury, p, quote, now);
            && (r.Ok? <==> !quote.blocked && s.Balance(user) >= s.Rent(RECEIPT_SPACE) + quote.finalPrice)
            && (r.Ok? ==>
                  && Created(s, s1, user, ReceiptPda(MintOf(p)), RECEIPT_SPACE, ReceiptData(FirstReceipt(p, user, quote.finalPrice, now)))
                  && Issued(s1, r.value, user, treasury, MintOf(p), quote.finalPrice))
  {
    var receipt := ReceiptData(FirstReceipt(p, user, quote.finalPrice, now));
    s1 := s;
    CreateEffect(s, user, ReceiptPda(MintOf(p)), RECEIPT_SPACE, receipt);
    if s.Balance(user) >= s.Rent(RECEIPT_SPACE) {
      s1 := CreatePda(s, user, ReceiptPda(MintOf(p)), RECEIPT_SPACE, receipt).value;
      PayAndIssueEffect(s1, user, treasury, MintOf(p), quote.finalPrice);
    }
  }

  ghost predicate IsBlankTicket(s: State, mint: Address, user: Address) {
    && mint in s.data && s.data[mint] == Mint(0, Some(MintAuthority), Some(MintAuthority))
    && TokenPda(mint, user) in s.data && s.data[TokenPda(mint, user)] == Token(mint, user, 0)
  }

  /** The three stages of a mint, and the condition under which all of them go through. */
  lemma MintStages(s: State, user: Address, treasury: Address, p: ShieldPayload, now: i64)
    requires user.Wallet? && Untouched(s, p, user) && QuoteOf(p).Ok?
    ensures var (r, quote) := (MintTicket(s, user, treasury, p, now), QuoteOf(p).value);
            && (r.Ok? <==> !quote.blocked && s.Balance(user) >= MintingRent(s) + quote.finalPrice)
            && (r.Ok? && treasury.Wallet? ==> Executed(s, r.value, user, treasury, p, quote.finalPrice, now))
  {
    OpenEffect(s, user, p, now);
    if s.Balance(user) >= OpeningRent(s) {
      var s1 := OpenAccounts(s, user, p, now).value;
      var s2 := FinishStages(s1, user, treasury, p, QuoteOf(p).value, now);
      if MintTicket(s, user, treasury, p, now).Ok? && treasury.Wallet? {
        MintEffect(s, s1, s2, MintTicket(s, user, treasury, p, now).value, user, treasury, p, QuoteOf(p).value.finalPrice, now);
      }
    }
  }

  lemma MintEffect(s: State, s1: State, s2: State, s3: State, user: Address, treasury: Address, p: ShieldPayload, price: u64, now: i64)
    requires user.Wallet? && treasury.Wallet?
    requires Prepared(s, s1, user, p, now)
    requires Created(s1, s2, user, ReceiptPda(MintOf(p)), RECEIPT_SPACE, ReceiptData(FirstReceipt(p, user, price, now)))
    requires Issued(s2, s3, user, treasury, MintOf(p), price)
    ensures Executed(s, s3, user, treasury, p, price, now)
  {
  }

  lemma FreshTicketUntouched(s: State, p: ShieldPayload, user: Address)
    requires Inv(s) && ProofOf(p) !in s.data
    ensures Untouched(s, p, user)
  {
    assert !Live(s, MintOf(p));
  }

  lemma OpenNeedsUntouched(s: State, user: Address, p: ShieldPayload, now: i64)
    requires user.Wallet? && OpenAccounts(s, user, p, now).Ok?
    ensures ProofOf(p) !in s.data && s.Balance(ProofOf(p)) == 0
    ensures MintOf(p) !in s.data && s.Balance(MintOf(p)) == 0
    ensures TokenPda(MintOf(p), user) !in s.data && s.Balance(TokenPda(MintOf(p), user)) == 0
    ensures var s' := OpenAccounts(s, user, p, now).value; var a := ReceiptPda(MintOf(p));
            (a in s'.data <==> a in s.data) && s'.Balance(a) == s.Balance(a)
  {
  }

  /** Every account a mint creates is one it found untouched. */
  lemma MintNeedsUntouched(s: State, user: Address, treasury: Address, p: ShieldPayload, now: i64)
    requires user.Wallet? && MintTicket(s, user, treasury, p, now).Ok?
    ensures Untouched(s, p, user) && QuoteOf(p).Ok?
  {
    OpenNeedsUntouched(s, user, p, now);
    var s1 := OpenAccounts(s, user, p, now).value;
    assert FinishMint(s1, user, treasury, p, QuoteOf(p).value, now).Ok?;
  }

  lemma MintExactly(s: State, user: Address, treasury: Address, p: ShieldPayload, now: i64)
    requires user.Wallet?
    ensures var r := MintTicket(s, user, treasury, p, now);
            && (r.Ok? <==> CanMint(s, user, p))
            && (r.Ok? && treasury.Wallet? ==> Executed(s, r.value, user, treasury, p, QuoteOf(p).value.finalPrice, now))
  {
    if MintTicket(s, user, treasury, p, now).Ok? { MintNeedsUntouched(s, user, treasury, p, now); }
    if Untouched(s, p, user) && QuoteOf(p).Ok? { MintStages(s, user, treasury, p, now); }
  }

  lemma AdmissionComesFirst(s: State, user: Address, treasury: Address, p: ShieldPayload, signed: bool, now: i64)
    ensures Admitted(s, user, treasury, p, signed, now) ==>
              ExecuteShield(s, user, treasury, p, signed, now) == MintTicket(s, user, treasury, p, now)
    ensures !Admitted(s, user, treasury, p, signed, now) ==> ExecuteShield(s, user, treasury, p, signed, now).Err?
  {
    if AdminConfig in s.data && s.data[AdminConfig].Admin? { ValidationIsExact(p, s.data[AdminConfig].modelHash, user, now); }
  }

  /** In any state whatever, a mint succeeds exactly for a signed, valid, unexpired payload of this user whose four addresses
      are untouched, whose quote is not blocked, and whose rents and price the user can pay. */
  lemma ExecuteExactly(s: State, user: Address, treasury: Address, p: ShieldPayload, signed: bool, now: i64)
    ensures ExecuteShield(s, user, treasury, p, signed, now).Ok? <==> CanExecute(s, user, treasury, p, signed, now)
    ensures CanExecute(s, user, treasury, p, signed, now) && treasury.Wallet? ==>
              Executed(s, ExecuteShield(s, user, treasury, p, signed, now).value, user, treasury, p, QuoteOf(p).value.finalPrice, now)
  {
    AdmissionComesFirst(s, user, treasury, p, signed, now);
    if Admitted(s, user, treasury, p, signed, now) { MintExactly(s, user, treasury, p, now); }
  }
}
