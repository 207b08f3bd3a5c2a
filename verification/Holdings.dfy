/** Whose a ticket is, among outsiders: the supply is what is held, a ticket leaves an account only with the consent of its
    owner, and escrow is released only to the holder or against payment. */
module Holdings {
  import opened Outcomes
  import opened Widths
  import opened ShieldPayloads
  import opened Ledger
  import opened Tickets
  import opened Instructions
  import opened Outsiders
  import C = Custody

  // ----- Supply -----

  ghost predicate SomeoneHolds(s: State, m: Address) {
    exists a :: Held(s, a, m) == 1
  }

  ghost function SupplyOf(s: State, m: Address): nat {
    if m in s.data && s.data[m].Mint? then s.data[m].supply else 0
  }

  /** The recorded supply is one when some account holds the ticket and zero when none does. */
  ghost predicate SupplyIsHeld(s: State, m: Address) {
    SupplyOf(s, m) == if SomeoneHolds(s, m) then 1 else 0
  }

  lemma SameSupply(s: State, s': State, m: Address)
    requires SupplyIsHeld(s, m) && SameHoldings(s, s', m) && SupplyOf(s', m) == SupplyOf(s, m)
    ensures SupplyIsHeld(s', m)
  {
    if a :| Held(s, a, m) == 1 { assert Held(s', a, m) == 1; }
    if a :| Held(s', a, m) == 1 { assert Held(s, a, m) == 1; }
  }

  lemma SendSupply(s: State, owner: Address, from: Address, to: Address, amount: nat, m: Address)
    requires Safe(s) && SupplyIsHeld(s, m) && Owned(s, from, owner) && TransferToken(s, from, to, owner, amount).Ok?
    ensures SupplyIsHeld(TransferToken(s, from, to, owner, amount).value, m)
  {
    var s', n := TransferToken(s, from, to, owner, amount).value, s.data[from].mint;
    SendMoves(s, owner, from, to, amount);
    assert OneHolder(s, n);
    assert SupplyOf(s', m) == SupplyOf(s, m);
    if m != n || amount == 0 || from == to {
      assert SameHoldings(s, s', m);
      SameSupply(s, s', m);
    } else {
      assert Held(s, from, m) == 1 && Held(s, to, m) == 0;
      assert Held(s', to, m) == 1;
    }
  }

  lemma BurnSupply(s: State, owner: Address, account: Address, amount: nat, m: Address)
    requires Safe(s) && SupplyIsHeld(s, m) && Apply(s, Burn(owner, account, amount)) != s
    ensures SupplyIsHeld(Apply(s, Burn(owner, account, amount)), m)
  {
    var s', n := Apply(s, Burn(owner, account, amount)), s.data[account].mint;
    BurnMoves(s, owner, account, amount);
    assert OneHolder(s, n) && Shape(s, n);
    if m != n || amount == 0 {
      assert SameHoldings(s, s', m);
      SameSupply(s, s', m);
    } else {
      assert Held(s, account, m) == 1 && SupplyOf(s', m) == SupplyOf(s, m) - 1;
      assert forall a :: Held(s', a, m) == 0;
    }
  }

  lemma OpenSupply(s: State, payer: Address, at: Bytes32, mint: Address, owner: Address, m: Address)
    requires Safe(s) && SupplyIsHeld(s, m) && mint in s.data && s.data[mint].Mint?
    requires AnchorInit(s, payer, Outer(at), TOKEN_SPACE, Token(mint, owner, 0)).Ok?
    ensures SupplyIsHeld(AnchorInit(s, payer, Outer(at), TOKEN_SPACE, Token(mint, owner, 0)).value, m)
  {
    SameSupply(s, AnchorInit(s, payer, Outer(at), TOKEN_SPACE, Token(mint, owner, 0)).value, m);
  }

  lemma CloseSupply(s: State, owner: Address, account: Address, to: Address, m: Address)
    requires Safe(s) && SupplyIsHeld(s, m) && Owned(s, account, owner) && CloseToken(s, account, to, owner).Ok?
    ensures SupplyIsHeld(CloseToken(s, account, to, owner).value, m)
  {
    var s' := CloseToken(s, account, to, owner).value;
    assert s'.data == s.data - {account};
    SameSupply(s, s', m);
  }

  lemma ReassignSupply(s: State, owner: Address, account: Address, newOwner: Address, m: Address)
    requires Safe(s) && SupplyIsHeld(s, m) && Owned(s, account, owner)
    ensures SupplyIsHeld(Apply(s, Reassign(owner, account, newOwner)), m)
  {
    SameSupply(s, Apply(s, Reassign(owner, account, newOwner)), m);
  }

  lemma OutsideSupply(s: State, o: Outside, m: Address)
    requires Safe(s) && SupplyIsHeld(s, m)
    ensures SupplyIsHeld(Apply(s, o), m)
  {
    var s' := Apply(s, o);
    if s' != s {
      match o
      case SendToken(owner, from, to, amount) => SendSupply(s, owner, from, to, amount, m);
      case Burn(owner, account, amount) => BurnSupply(s, owner, account, amount, m);
      case SendLamports(from, to, amount) => SameSupply(s, s', m);
      case OpenToken(payer, at, mint, owner) => OpenSupply(s, payer, at, mint, owner, m);
      case CloseEmpty(owner, account, to) => CloseSupply(s, owner, account, to, m);
      case Reassign(owner, account, newOwner) => ReassignSupply(s, owner, account, newOwner, m);
    }
  }

  /** An instruction that moves ticket m to account x, its supply being one already. */
  lemma MovedSupply(s: State, s': State, m: Address, x: Address, changed: set<Address>, n: Address)
    requires Safe(s) && Safe(s') && SupplyIsHeld(s, n)
    requires forall a :: a in changed ==> C.TicketOf(a) == Some(m)
    requires forall a :: a !in changed ==> SameAt(s, s', a)
    requires Held(s', x, m) == 1 && SupplyOf(s', m) == 1
    ensures SupplyIsHeld(s', n)
  {
    if n == m {
      assert SomeoneHolds(s', m);
    } else {
      assert OneHolder(s, n);
      OtherTicketFrame(s, s', m, n, changed);
      assert n.MintPda? ==> C.TicketOf(n) == Some(n);
      if n in s.data { assert Shape(s, n); }
      if n in s'.data { assert Shape(s', n); }
      SameSupply(s, s', n);
    }
  }

  lemma EscrowedSupply(s: State, s': State, seller: Address, m: Address, askPrice: u64, now: i64, receipt: Receipt, n: Address)
    requires Safe(s) && Safe(s') && SupplyIsHeld(s, n) && SupplyIsHeld(s, m) && TokenOf(s, TokenPda(m, seller), m, seller, 1)
    requires s'.data == (s.data[ListingPda(m) := Listing(seller, m, askPrice, now)]
                               [EscrowPda(m) := Token(m, ListingPda(m), 1)] - {TokenPda(m, seller)})
                        [ReceiptPda(m) := ReceiptData(receipt)]
    ensures SupplyIsHeld(s', n)
  {
    assert Held(s, TokenPda(m, seller), m) == 1;
    assert Shape(s, TokenPda(m, seller));
    assert SupplyOf(s', m) == SupplyOf(s, m);
    MovedSupply(s, s', m, EscrowPda(m), {ListingPda(m), EscrowPda(m), TokenPda(m, seller), ReceiptPda(m)}, n);
  }

  lemma ListSupply(s: State, seller: Address, m: Address, askPrice: u64, now: i64, n: Address)
    requires Safe(s) && SupplyIsHeld(s, n) && SupplyIsHeld(s, m) && ListTicket(s, seller, m, askPrice, now).Ok?
    ensures SupplyIsHeld(ListTicket(s, seller, m, askPrice, now).value, n)
  {
    ListData(s, seller, m, askPrice, now);
    ListSafe(s, seller, m, askPrice, now);
    EscrowedSupply(s, ListTicket(s, seller, m, askPrice, now).value, seller, m, askPrice, now,
                   s.data[ReceiptPda(m)].receipt.(listed := true), n);
  }

  lemma ReleasedSupply(s: State, s': State, owner: Address, m: Address, receipt: Receipt, n: Address)
    requires Safe(s) && Safe(s') && SupplyIsHeld(s, n) && SupplyIsHeld(s, m) && IsListed(s, m) && m in s.data
    requires s'.data == (s.data[TokenPda(m, owner) := Token(m, owner, 1)] - {EscrowPda(m), ListingPda(m)})
                        [ReceiptPda(m) := ReceiptData(receipt)]
    ensures SupplyIsHeld(s', n)
  {
    assert InCustody(s, m) && Shape(s, m);
    assert Held(s, EscrowPda(m), m) == 1;
    if m.MintPda? { assert SupplyOf(s', m) == SupplyOf(s, m); }
    MovedSupply(s, s', m, TokenPda(m, owner), {ListingPda(m), EscrowPda(m), TokenPda(m, owner), ReceiptPda(m)}, n);
  }

  lemma CancelSupply(s: State, seller: Address, m: Address, n: Address)
    requires Safe(s) && SupplyIsHeld(s, n) && SupplyIsHeld(s, m) && CancelTicketListing(s, seller, m).Ok?
    ensures SupplyIsHeld(CancelTicketListing(s, seller, m).value, n)
  {
    CancelData(s, seller, m);
    CancelSafe(s, seller, m);
    ReleasedSupply(s, CancelTicketListing(s, seller, m).value, seller, m, s.data[ReceiptPda(m)].receipt.(listed := false), n);
  }

  lemma FillSupply(s: State, buyer: Address, seller: Address, feeRecipient: Address, m: Address, now: i64, n: Address)
    requires Safe(s) && SupplyIsHeld(s, n) && SupplyIsHeld(s, m) && FillTicketListing(s, buyer, seller, feeRecipient, m, now).Ok?
    ensures SupplyIsHeld(FillTicketListing(s, buyer, seller, feeRecipient, m, now).value, n)
  {
    FillData(s, buyer, seller, feeRecipient, m, now);
    FillSafe(s, buyer, seller, feeRecipient, m, now);
    ReleasedSupply(s, FillTicketListing(s, buyer, seller, feeRecipient, m, now).value, buyer, m,
                   Sold(s.data[ReceiptPda(m)].receipt, buyer, s.data[ListingPda(m)].askPrice, now), n);
  }

  lemma TicketedSupply(s: State, s': State, user: Address, p: ShieldPayload, price: u64, now: i64, n: Address)
    requires Safe(s) && Safe(s') && SupplyIsHeld(s, n) && s'.data == Ticketed(s.data, user, p, price, now)
    ensures SupplyIsHeld(s', n)
  {
    var m := MintOf(p);
    assert Held(s', TokenPda(m, user), m) == 1 && SupplyOf(s', m) == 1;
    MovedSupply(s, s', m, TokenPda(m, user), {ProofOf(p), m, TokenPda(m, user), ReceiptPda(m)}, n);
  }

  lemma ExecuteSupply(s: State, user: Address, treasury: Address, p: ShieldPayload, signed: bool, now: i64, n: Address)
    requires Safe(s) && SupplyIsHeld(s, n) && ExecuteShield(s, user, treasury, p, signed, now).Ok?
    ensures SupplyIsHeld(ExecuteShield(s, user, treasury, p, signed, now).value, n)
  {
    ExecuteData(s, user, treasury, p, signed, now);
    ExecuteSafe(s, user, treasury, p, signed, now);
    TicketedSupply(s, ExecuteShield(s, user, treasury, p, signed, now).value, user, p, QuoteOf(p).value.finalPrice, now, n);
  }

  /** In every history the supply of every ticket is what is held of it: one from the mint on, and zero once its owner burns it. */
  lemma NextSupply(s: State, t: Transaction, m: Address)
    requires Safe(s) && forall n :: SupplyIsHeld(s, n)
    ensures SupplyIsHeld(Next(s, t), m)
  {
    match t
    case Theirs(o) => OutsideSupply(s, o, m);
    case Ours(c) =>
      if Try(s, c).Ok? {
        match c
        case DoExecute(user, treasury, p, signed, at) => ExecuteSupply(s, user, treasury, p, signed, at, m);
        case DoList(seller, mint, askPrice, at) => ListSupply(s, seller, mint, askPrice, at, m);
        case DoCancel(seller, mint) => CancelSupply(s, seller, mint, m);
        case DoFill(buyer, seller, feeRecipient, mint, at) => FillSupply(s, buyer, seller, feeRecipient, mint, at, m);
      }
  }

  lemma FreshSupply(start: State, m: Address)
    requires Fresh(start)
    ensures SupplyIsHeld(start, m)
  {
    assert forall a :: Held(start, a, m) == 0;
  }

  lemma {:induction false} SupplyIsAlwaysHeld(start: State, ts: seq<Transaction>, m: Address)
    requires Fresh(start)
    ensures SupplyIsHeld(History(start, ts), m)
  {
    if ts == [] {
      FreshSupply(start, m);
    } else {
      var before := ts[..|ts| - 1];
      HistorySafe(start, before);
      forall n
        ensures SupplyIsHeld(History(start, before), n)
      {
        SupplyIsAlwaysHeld(start, before, n);
      }
      NextSupply(History(start, before), ts[|ts| - 1], m);
    }
  }

  // ----- Consent -----

  /** The wallet that signs a transaction. */
  function Signer(t: Transaction): Address {
    match t
    case Theirs(SendLamports(from, _, _)) => from
    case Theirs(OpenToken(payer, _, _, _)) => payer
    case Theirs(SendToken(owner, _, _, _)) => owner
    case Theirs(CloseEmpty(owner, _, _)) => owner
    case Theirs(Reassign(owner, _, _)) => owner
    case Theirs(Burn(owner, _, _)) => owner
    case Ours(DoExecute(user, _, _, _, _)) => user
    case Ours(DoList(seller, _, _, _)) => seller
    case Ours(DoCancel(seller, _)) => seller
    case Ours(DoFill(buyer, _, _, _, _)) => buyer
  }

  /** The call takes ticket m out of escrow: its holder cancels, or somebody else buys it. */
  ghost predicate TakesOutOfEscrow(s: State, t: Transaction, m: Address) {
    && t.Ours? && Try(s, t.call).Ok? && IsListed(s, m)
    && (t.call.DoCancel? || t.call.DoFill?) && t.call.mint == m
    && t.call.seller == s.data[ReceiptPda(m)].receipt.currentHolder
  }

  lemma OutsideConsent(s: State, o: Outside, a: Address, m: Address)
    requires Safe(s) && Held(s, a, m) == 1 && Held(Apply(s, o), a, m) == 0
    ensures a in s.data && s.data[a].Token? && s.data[a].owner == Signer(Theirs(o)) && s.data[a].owner.Wallet?
  {
  }

  lemma ListConsent(s: State, seller: Address, n: Address, askPrice: u64, now: i64, a: Address, m: Address)
    requires Safe(s) && ListTicket(s, seller, n, askPrice, now).Ok?
    requires Held(s, a, m) == 1 && Held(ListTicket(s, seller, n, askPrice, now).value, a, m) == 0
    ensures a == TokenPda(n, seller) && a in s.data && s.data[a] == Token(n, seller, 1)
  {
    ListData(s, seller, n, askPrice, now);
  }

  lemma EscrowConsent(s: State, s': State, owner: Address, n: Address, receipt: Receipt, a: Address, m: Address)
    requires Safe(s) && IsListed(s, n) && TokenPda(n, owner) !in s.data
    requires s'.data == (s.data[TokenPda(n, owner) := Token(n, owner, 1)] - {EscrowPda(n), ListingPda(n)})
                        [ReceiptPda(n) := ReceiptData(receipt)]
    requires Held(s, a, m) == 1 && Held(s', a, m) == 0
    ensures a == EscrowPda(n) && m == n
  {
    assert InCustody(s, n) && Shape(s, EscrowPda(n)) && Shape(s, ListingPda(n)) && Shape(s, ReceiptPda(n));
  }

  /** A ticket leaves an account only when the account's owner signs, or when it is taken out of escrow. */
  lemma OnlyWithConsent(s: State, t: Transaction, a: Address, m: Address)
    requires Safe(s) && Held(s, a, m) == 1 && Held(Next(s, t), a, m) == 0
    ensures a in s.data && s.data[a].Token?
    ensures (s.data[a].owner == Signer(t) && Signer(t).Wallet?) || (a == EscrowPda(m) && TakesOutOfEscrow(s, t, m))
  {
    match t
    case Theirs(o) => OutsideConsent(s, o, a, m);
    case Ours(DoExecute(user, treasury, p, signed, at)) => ExecuteData(s, user, treasury, p, signed, at);
    case Ours(DoList(seller, n, askPrice, at)) => ListConsent(s, seller, n, askPrice, at, a, m);
    case Ours(DoCancel(seller, n)) =>
      CancelData(s, seller, n);
      EscrowConsent(s, Next(s, t), seller, n, s.data[ReceiptPda(n)].receipt.(listed := false), a, m);
    case Ours(DoFill(buyer, seller, feeRecipient, n, at)) =>
      FillData(s, buyer, seller, feeRecipient, n, at);
      EscrowConsent(s, Next(s, t), buyer, n, Sold(s.data[ReceiptPda(n)].receipt, buyer, s.data[ListingPda(n)].askPrice, at), a, m);
  }

  // ----- Payment -----

  lemma CloseTokenPays(s: State, x: Address, to: Address, authority: Address, a: Address)
    requires CloseToken(s, x, to, authority).Ok? && a != x
    ensures CloseToken(s, x, to, authority).value.Balance(a) == s.Balance(a) + if a == to then s.Balance(x) else 0
  {
  }

  /** Releasing the escrow gives its rent and the listing's to the seller and touches no other wallet. */
  lemma ReleasePays(s: State, m: Address, token: Address, seller: Address, w: Address)
    requires ReleaseEscrow(s, m, token, seller).Ok? && w.Wallet? && seller.Wallet?
    ensures ReleaseEscrow(s, m, token, seller).value.Balance(w)
         == s.Balance(w) + if w == seller then s.Balance(EscrowPda(m)) + s.Balance(ListingPda(m)) else 0
  {
    var s1 := TransferToken(s, EscrowPda(m), token, ListingPda(m), TICKET_AMOUNT).value;
    CloseTokenPays(s1, EscrowPda(m), seller, ListingPda(m), w);
    CloseTokenPays(s1, EscrowPda(m), seller, ListingPda(m), ListingPda(m));
  }

  /** A successful fill pays, in any state outsiders can bring about: the buyer gives the price and what the new account lacks
      in rent, the seller gets the price less five per cent and both released rents, the protocol the five per cent; and no
      other wallet is touched. */
  lemma FillPays(s: State, buyer: Address, seller: Address, feeRecipient: Address, m: Address, now: i64, w: Address)
    requires Safe(s) && FillTicketListing(s, buyer, seller, feeRecipient, m, now).Ok? && w.Wallet?
    ensures seller == s.data[ReceiptPda(m)].receipt.currentHolder && feeRecipient == s.data[GlobalConfig].authority
    ensures var (s', price) := (FillTicketListing(s, buyer, seller, feeRecipient, m, now).value, AskPrice(s, m));
            var fee := price * 500 / 10_000;
            s'.Balance(w) == s.Balance(w)
              - (if w == buyer then price + Due(s, TokenPda(m, buyer), TOKEN_SPACE) else 0)
              + (if w == seller then price - fee + s.Balance(EscrowPda(m)) + s.Balance(ListingPda(m)) else 0)
              + (if w == feeRecipient then fee else 0)
  {
    FillData(s, buyer, seller, feeRecipient, m, now);
    var price, token, blank := AskPrice(s, m), TokenPda(m, buyer), Token(m, buyer, 0);
    InitExactly(s, buyer, token, TOKEN_SPACE, blank);
    var s1 := AnchorInit(s, buyer, token, TOKEN_SPACE, blank).value;
    C.SaleEffect(s1, buyer, seller, feeRecipient, price);
    var s2 := PaySale(s1, buyer, seller, feeRecipient, price).value;
    PaidBalances(s1, s2, buyer, seller, feeRecipient, price, w);
    PaidBalances(s1, s2, buyer, seller, feeRecipient, price, EscrowPda(m));
    PaidBalances(s1, s2, buyer, seller, feeRecipient, price, ListingPda(m));
    SellerIsWallet(s, m, seller);
    ReleasePays(s2, m, token, seller, w);
  }

  lemma PaidBalances(s: State, s': State, buyer: Address, seller: Address, feeRecipient: Address, price: nat, a: Address)
    requires C.Paid(s, s', buyer, seller, feeRecipient, price)
    ensures s'.Balance(a) == s.Balance(a) - (if a == buyer then price else 0) + (if a == seller then price - price * 500 / 10_000 else 0)
                             + (if a == feeRecipient then price * 500 / 10_000 else 0)
  {
  }

  lemma SellerIsWallet(s: State, m: Address, seller: Address)
    requires Safe(s) && CheckReceipt(s, m, seller).None?
    ensures seller.Wallet?
    ensures s.data[GlobalConfig].Global? && s.data[GlobalConfig].authority.Wallet?
  {
    assert Shape(s, ReceiptPda(m)) && Shape(s, GlobalConfig);
  }
}
