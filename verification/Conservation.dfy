/** Lamports are neither created nor destroyed, whichever of the parties are the same account. */
module Conservation {
  import opened Outcomes
  import opened Widths
  import opened ShieldPayloads
  import opened Ledger
  import opened Tickets

  /** All the lamports there are. */
  ghost function Sum(m: map<Address, nat>): nat
    decreases |m|
  {
    if m == map[] then 0
    else
      var a :| a in m;
      m[a] + Sum(m - {a})
  }

  lemma {:induction false} SumRemove(m: map<Address, nat>, a: Address)
    requires a in m
    ensures Sum(m) == m[a] + Sum(m - {a})
    decreases |m|
  {
    var b :| b in m && Sum(m) == m[b] + Sum(m - {b});
    if a != b {
      SumRemove(m - {b}, a);
      SumRemove(m - {a}, b);
      assert m - {b} - {a} == m - {a} - {b};
    }
  }

  lemma SumUpdate(m: map<Address, nat>, a: Address, v: nat)
    ensures Sum(m[a := v]) + (if a in m then m[a] else 0) == Sum(m) + v
  {
    SumRemove(m[a := v], a);
    if a in m {
      SumRemove(m, a);
      assert m[a := v] - {a} == m - {a};
    } else {
      assert m[a := v] - {a} == m;
    }
  }

  ghost function Total(s: State): nat {
    Sum(s.lamports)
  }

  lemma MoveConserves(s: State, from: Address, to: Address, amount: nat)
    requires s.Balance(from) >= amount
    ensures Total(Move(s, from, to, amount)) == Total(s)
  {
    SumUpdate(s.lamports, from, s.Balance(from) - amount);
    var debited := s.lamports[from := s.Balance(from) - amount];
    var have := if to in debited then debited[to] else 0;
    SumUpdate(debited, to, have + amount);
  }

  lemma TransferConserves(s: State, from: Address, to: Address, amount: nat)
    ensures var r := TransferLamports(s, from, to, amount); r.Ok? ==> Total(r.value) == Total(s)
  {
    if s.Balance(from) >= amount { MoveConserves(s, from, to, amount); }
  }

  lemma CreateConserves(s: State, payer: Address, a: Address, space: nat, data: AccountData)
    ensures var r := CreatePda(s, payer, a, space, data); r.Ok? ==> Total(r.value) == Total(s)
  {
    if s.Balance(payer) >= s.Rent(space) { MoveConserves(s, payer, a, s.Rent(space)); }
  }

  lemma InitConserves(s: State, payer: Address, a: Address, space: nat, data: AccountData)
    ensures var r := AnchorInit(s, payer, a, space, data); r.Ok? ==> Total(r.value) == Total(s)
  {
    var due := if s.Balance(a) < s.Rent(space) then s.Rent(space) - s.Balance(a) else 0;
    if s.Balance(payer) >= due { MoveConserves(s, payer, a, due); }
  }

  lemma CloseConserves(s: State, a: Address, to: Address)
    ensures Total(Close(s, a, to)) == Total(s)
  {
    MoveConserves(s, a, to, s.Balance(a));
  }

  lemma ReleaseConserves(s: State, mint: Address, token: Address, seller: Address)
    ensures var r := ReleaseEscrow(s, mint, token, seller); r.Ok? ==> Total(r.value) == Total(s)
  {
    if ReleaseEscrow(s, mint, token, seller).Ok? {
      var s1 := TransferToken(s, EscrowPda(mint), token, ListingPda(mint), TICKET_AMOUNT).value;
      CloseConserves(s1, EscrowPda(mint), seller);
      CloseConserves(Close(s1, EscrowPda(mint), seller), ListingPda(mint), seller);
    }
  }

  lemma SaleConserves(s: State, buyer: Address, seller: Address, feeRecipient: Address, salePrice: u64)
    ensures var r := PaySale(s, buyer, seller, feeRecipient, salePrice); r.Ok? ==> Total(r.value) == Total(s)
  {
    if PaySale(s, buyer, seller, feeRecipient, salePrice).Ok? {
      var fee := ResaleFee(salePrice).value;
      TransferConserves(s, buyer, seller, salePrice - fee);
      TransferConserves(TransferLamports(s, buyer, seller, salePrice - fee).value, buyer, feeRecipient, fee);
    }
  }

  lemma OpenConserves(s: State, user: Address, p: ShieldPayload, now: i64)
    ensures var r := OpenAccounts(s, user, p, now); r.Ok? ==> Total(r.value) == Total(s)
  {
    if OpenAccounts(s, user, p, now).Ok? {
      var mint, proof := MintOf(p), ProofUse(p.userPubkey, p.zkProofHash, p.nonce, now);
      var blank := Mint(0, Some(MintAuthority), Some(MintAuthority));
      var s1 := CreatePda(s, user, ProofOf(p), PROOF_USE_SPACE, proof).value;
      CreateConserves(s, user, ProofOf(p), PROOF_USE_SPACE, proof);
      CreateConserves(s1, user, mint, MINT_SPACE, blank);
      CreateConserves(CreatePda(s1, user, mint, MINT_SPACE, blank).value,
                      user, TokenPda(mint, user), TOKEN_SPACE, Token(mint, user, 0));
    }
  }

  lemma MintConserves(s: State, user: Address, treasury: Address, p: ShieldPayload, now: i64)
    ensures var r := MintTicket(s, user, treasury, p, now); r.Ok? ==> Total(r.value) == Total(s)
  {
    if MintTicket(s, user, treasury, p, now).Ok? {
      var quote := QuoteOf(p).value;
      var receipt := ReceiptData(FirstReceipt(p, user, quote.finalPrice, now));
      OpenConserves(s, user, p, now);
      var s1 := OpenAccounts(s, user, p, now).value;
      CreateConserves(s1, user, ReceiptPda(MintOf(p)), RECEIPT_SPACE, receipt);
      TransferConserves(CreatePda(s1, user, ReceiptPda(MintOf(p)), RECEIPT_SPACE, receipt).value,
                        user, treasury, quote.finalPrice);
    }
  }

  lemma ListConserves(s: State, seller: Address, mint: Address, askPrice: u64, now: i64)
    ensures var r := ListTicket(s, seller, mint, askPrice, now); r.Ok? ==> Total(r.value) == Total(s)
  {
    if ListTicket(s, seller, mint, askPrice, now).Ok? {
      var token, escrow, listing := TokenPda(mint, seller), EscrowPda(mint), Listing(seller, mint, askPrice, now);
      var s1 := AnchorInit(s, seller, ListingPda(mint), LISTING_SPACE, listing).value;
      InitConserves(s, seller, ListingPda(mint), LISTING_SPACE, listing);
      var s2 := AnchorInit(s1, seller, escrow, TOKEN_SPACE, Token(mint, ListingPda(mint), 0)).value;
      InitConserves(s1, seller, escrow, TOKEN_SPACE, Token(mint, ListingPda(mint), 0));
      CloseConserves(TransferToken(s2, token, escrow, seller, TICKET_AMOUNT).value, token, seller);
    }
  }

  lemma CancelConserves(s: State, seller: Address, mint: Address)
    ensures var r := CancelTicketListing(s, seller, mint); r.Ok? ==> Total(r.value) == Total(s)
  {
    if CancelTicketListing(s, seller, mint).Ok? {
      var token := TokenPda(mint, seller);
      InitConserves(s, seller, token, TOKEN_SPACE, Token(mint, seller, 0));
      ReleaseConserves(AnchorInit(s, seller, token, TOKEN_SPACE, Token(mint, seller, 0)).value, mint, token, seller);
    }
  }

  lemma FillConserves(s: State, buyer: Address, seller: Address, feeRecipient: Address, mint: Address, now: i64)
    ensures var r := FillTicketListing(s, buyer, seller, feeRecipient, mint, now); r.Ok? ==> Total(r.value) == Total(s)
  {
    if FillTicketListing(s, buyer, seller, feeRecipient, mint, now).Ok? {
      var token, price := TokenPda(mint, buyer), s.data[ListingPda(mint)].askPrice;
      var s1 := AnchorInit(s, buyer, token, TOKEN_SPACE, Token(mint, buyer, 0)).value;
      InitConserves(s, buyer, token, TOKEN_SPACE, Token(mint, buyer, 0));
      SaleConserves(s1, buyer, seller, feeRecipient, price);
      ReleaseConserves(PaySale(s1, buyer, seller, feeRecipient, price).value, mint, token, seller);
    }
  }

  /** Every transaction, failed or not, conserves lamports. */
  lemma StepConserves(s: State, c: Call)
    ensures Total(Step(s, c)) == Total(s)
  {
    match c
    case DoExecute(user, treasury, p, signed, at) => MintConserves(s, user, treasury, p, at);
    case DoList(seller, mint, askPrice, at) => ListConserves(s, seller, mint, askPrice, at);
    case DoCancel(seller, mint) => CancelConserves(s, seller, mint);
    case DoFill(buyer, seller, fee, mint, at) => FillConserves(s, buyer, seller, fee, mint, at);
  }

  lemma {:induction false} RunConserves(s: State, calls: seq<Call>)
    ensures Total(Run(s, calls)) == Total(s)
  {
    if calls != [] {
      RunConserves(s, calls[..|calls| - 1]);
      StepConserves(Run(s, calls[..|calls| - 1]), calls[|calls| - 1]);
    }
  }
}
