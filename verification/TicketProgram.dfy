/** The instruction handlers as the program runs them: account by account on mutable state, with the runtime
    restoring everything when a handler fails. Each is proved to do what its function in `Tickets` says. */
module TicketProgram {
  import opened Outcomes
  import opened Widths
  import opened ShieldPayloads
  import L = Ledger
  import T = Tickets
  import Q = Quotes

  /** An operation either succeeded with the specified state or failed with the specified error. */
  ghost predicate Attempted(after: L.State, e: Option<L.Error>, spec: Result<L.State, L.Error>) {
    match spec
    case Ok(s) => e.None? && after == s
    case Err(x) => e == Some(x)
  }

  /** As `Attempted`, and a failure left no trace. */
  ghost predicate Performed(before: L.State, after: L.State, e: Option<L.Error>, spec: Result<L.State, L.Error>) {
    Attempted(after, e, spec) && (e.Some? ==> after == before)
  }

  class Bank {
    var lamports: map<L.Address, nat>
    var data: map<L.Address, L.AccountData>
    const rentRate: L.RentRate

    constructor (lamports: map<L.Address, nat>, data: map<L.Address, L.AccountData>, rentRate: L.RentRate)
      ensures View() == L.State(lamports, data, rentRate)
    {
      this.lamports, this.data, this.rentRate := lamports, data, rentRate;
    }

    function View(): L.State
      reads this
    {
      L.State(lamports, data, rentRate)
    }

    // ----- System and token program calls -----

    method Move(from: L.Address, to: L.Address, amount: nat)
      requires View().Balance(from) >= amount
      modifies this
      ensures View() == L.Move(old(View()), from, to, amount)
    {
      lamports := lamports[from := View().Balance(from) - amount];
      lamports := lamports[to := View().Balance(to) + amount];
    }

    method TransferLamports(from: L.Address, to: L.Address, amount: nat) returns (e: Option<L.Error>)
      modifies this
      ensures Performed(old(View()), View(), e, L.TransferLamports(old(View()), from, to, amount))
    {
      if amount == 0 { return None; }
      if View().Balance(from) < amount { return Some(L.InsufficientLamports); }
      Move(from, to, amount);
      return None;
    }

    method CreatePda(payer: L.Address, a: L.Address, space: nat, contents: L.AccountData) returns (e: Option<L.Error>)
      modifies this
      ensures Performed(old(View()), View(), e, L.CreatePda(old(View()), payer, a, space, contents))
    {
      if a in data || View().Balance(a) != 0 { return Some(L.Error.InvalidExecuteShieldAccount); }
      if View().Balance(payer) < View().Rent(space) { return Some(L.InsufficientLamports); }
      Move(payer, a, View().Rent(space));
      data := data[a := contents];
      return None;
    }

    method AnchorInit(payer: L.Address, a: L.Address, space: nat, contents: L.AccountData) returns (e: Option<L.Error>)
      modifies this
      ensures Performed(old(View()), View(), e, L.AnchorInit(old(View()), payer, a, space, contents))
    {
      if a in data { return Some(L.AccountAlreadyInUse); }
      var due := if View().Balance(a) < View().Rent(space) then View().Rent(space) - View().Balance(a) else 0;
      if View().Balance(payer) < due { return Some(L.InsufficientLamports); }
      Move(payer, a, due);
      data := data[a := contents];
      return None;
    }

    method Close(a: L.Address, to: L.Address)
      modifies this
      ensures View() == L.Close(old(View()), a, to)
    {
      Move(a, to, View().Balance(a));
      data := data - {a};
    }

    method TransferToken(from: L.Address, to: L.Address, authority: L.Address, amount: nat) returns (e: Option<L.Error>)
      modifies this
      ensures Performed(old(View()), View(), e, L.TransferToken(old(View()), from, to, authority, amount))
    {
      if !(from in data && data[from].Token? && to in data && data[to].Token?) { return Some(L.InvalidTokenAccount); }
      if data[from].mint != data[to].mint || data[from].owner != authority || data[from].amount < amount {
        return Some(L.InvalidTokenAccount);
      }
      data := data[from := data[from].(amount := data[from].amount - amount)];
      data := data[to := data[to].(amount := data[to].amount + amount)];
      return None;
    }

    method CloseToken(a: L.Address, to: L.Address, authority: L.Address) returns (e: Option<L.Error>)
      modifies this
      ensures Performed(old(View()), View(), e, L.CloseToken(old(View()), a, to, authority))
    {
      if !(a in data && data[a].Token? && data[a].owner == authority && data[a].amount == 0) {
        return Some(L.InvalidTokenAccount);
      }
      Close(a, to);
      return None;
    }

    method MintTo(mint: L.Address, to: L.Address, authority: L.Address, amount: nat) returns (e: Option<L.Error>)
      modifies this
      ensures Performed(old(View()), View(), e, L.MintTo(old(View()), mint, to, authority, amount))
    {
      if !(mint in data && data[mint].Mint? && to in data && data[to].Token? && data[to].mint == mint) {
        return Some(L.InvalidTokenAccount);
      }
      if data[mint].mintAuthority != Some(authority) { return Some(L.InvalidTokenAccount); }
      var credited := data[to].(amount := data[to].amount + amount);
      data := data[mint := data[mint].(supply := data[mint].supply + amount)];
      data := data[to := credited];
      return None;
    }

    method RevokeAuthorities(mint: L.Address, authority: L.Address) returns (e: Option<L.Error>)
      modifies this
      ensures Performed(old(View()), View(), e, L.RevokeAuthorities(old(View()), mint, authority))
    {
      if !(mint in data && data[mint].Mint?) { return Some(L.InvalidTokenAccount); }
      if data[mint].mintAuthority != Some(authority) || data[mint].freezeAuthority != Some(authority) {
        return Some(L.InvalidTokenAccount);
      }
      data := data[mint := data[mint].(mintAuthority := None, freezeAuthority := None)];
      return None;
    }

    // ----- Handlers, before the runtime undoes a failure -----

    method OpenAccounts(user: L.Address, p: ShieldPayload, now: i64) returns (e: Option<L.Error>)
      modifies this
      ensures Attempted(View(), e, T.OpenAccounts(old(View()), user, p, now))
    {
      var mint := T.MintOf(p);
      e := CreatePda(user, T.ProofOf(p), T.PROOF_USE_SPACE, L.ProofUse(p.userPubkey, p.zkProofHash, p.nonce, now));
      if e.Some? { return; }
      e := CreatePda(user, mint, T.MINT_SPACE, L.Mint(0, Some(L.MintAuthority), Some(L.MintAuthority)));
      if e.Some? { return; }
      e := CreatePda(user, L.TokenPda(mint, user), T.TOKEN_SPACE, L.Token(mint, user, 0));
    }

    method IssueTicket(mint: L.Address, token: L.Address) returns (e: Option<L.Error>)
      modifies this
      ensures Attempted(View(), e, T.IssueTicket(old(View()), mint, token))
    {
      e := MintTo(mint, token, L.MintAuthority, T.TICKET_AMOUNT);
      if e.Some? { return; }
      e := RevokeAuthorities(mint, L.MintAuthority);
    }

    method PayAndIssue(user: L.Address, treasury: L.Address, mint: L.Address, price: u64) returns (e: Option<L.Error>)
      modifies this
      ensures Attempted(View(), e, T.PayAndIssue(old(View()), user, treasury, mint, price))
    {
      e := TransferLamports(user, treasury, price);
      if e.None? {
        assert T.PayAndIssue(old(View()), user, treasury, mint, price) == T.IssueTicket(View(), mint, L.TokenPda(mint, user));
        e := IssueTicket(mint, L.TokenPda(mint, user));
      }
    }

    method FinishMint(user: L.Address, treasury: L.Address, p: ShieldPayload, quote: Q.Quote, now: i64) returns (e: Option<L.Error>)
      modifies this
      ensures Attempted(View(), e, T.FinishMint(old(View()), user, treasury, p, quote, now))
    {
      var mint := T.MintOf(p);
      e := CreatePda(user, L.ReceiptPda(mint), T.RECEIPT_SPACE, L.ReceiptData(T.FirstReceipt(p, user, quote.finalPrice, now)));
      if e.None? {
        if quote.blocked {
          e := Some(L.ShieldBlocked);
        } else {
          e := PayAndIssue(user, treasury, mint, quote.finalPrice);
        }
      }
    }

    method HandleMint(user: L.Address, treasury: L.Address, p: ShieldPayload, now: i64) returns (e: Option<L.Error>)
      modifies this
      ensures Attempted(View(), e, T.MintTicket(old(View()), user, treasury, p, now))
    {
      e := OpenAccounts(user, p, now);
      if e.None? {
        match T.QuoteOf(p)
        case Err(InvalidDignityScore) => e := Some(L.Error.InvalidDignityScore);
        case Err(InvalidSalesVelocity) => e := Some(L.Error.InvalidSalesVelocity);
        case Err(InvalidTimeElapsed) => e := Some(L.Error.InvalidTimeElapsed);
        case Ok(quote) =>
          assert T.MintTicket(old(View()), user, treasury, p, now) == T.FinishMint(View(), user, treasury, p, quote, now);
          e := FinishMint(user, treasury, p, quote, now);
      }
    }

    method HandleList(seller: L.Address, mint: L.Address, askPrice: u64, now: i64) returns (e: Option<L.Error>)
      modifies this
      ensures Attempted(View(), e, T.ListTicket(old(View()), seller, mint, askPrice, now))
    {
      var token, escrow, listing := L.TokenPda(mint, seller), L.EscrowPda(mint), L.ListingPda(mint);
      if !seller.Wallet? { return Some(L.MissingSignature); }
      e := T.CheckReceipt(View(), mint, seller);
      if e.Some? { return; }
      if !L.IsToken(View(), token, mint, seller) { return Some(L.InvalidTokenAccount); }
      var receipt, amount := data[L.ReceiptPda(mint)].receipt, data[token].amount;
      e := AnchorInit(seller, listing, T.LISTING_SPACE, L.Listing(seller, mint, askPrice, now));
      if e.Some? { return; }
      e := AnchorInit(seller, escrow, T.TOKEN_SPACE, L.Token(mint, listing, 0));
      if e.Some? { return; }
      if askPrice == 0 { return Some(L.Error.InvalidListingPrice); }
      if receipt.listed { return Some(L.TicketAlreadyListed); }
      if amount != T.TICKET_AMOUNT { return Some(L.InvalidTicketAmount); }
      e := TransferToken(token, escrow, seller, T.TICKET_AMOUNT);
      if e.Some? { return; }
      e := CloseToken(token, seller, seller);
      if e.Some? { return; }
      data := data[L.ReceiptPda(mint) := L.ReceiptData(receipt.(listed := true))];
    }

    method Release(mint: L.Address, token: L.Address, seller: L.Address) returns (e: Option<L.Error>)
      modifies this
      ensures Attempted(View(), e, T.ReleaseEscrow(old(View()), mint, token, seller))
    {
      e := TransferToken(L.EscrowPda(mint), token, L.ListingPda(mint), T.TICKET_AMOUNT);
      if e.Some? { return; }
      e := CloseToken(L.EscrowPda(mint), seller, L.ListingPda(mint));
      if e.Some? { return; }
      assert T.ReleaseEscrow(old(View()), mint, token, seller) == Ok(L.Close(View(), L.ListingPda(mint), seller));
      Close(L.ListingPda(mint), seller);
    }

    method HandleCancel(seller: L.Address, mint: L.Address) returns (e: Option<L.Error>)
      modifies this
      ensures Attempted(View(), e, T.CancelTicketListing(old(View()), seller, mint))
    {
      if !seller.Wallet? { return Some(L.MissingSignature); }
      e := T.CheckReceipt(View(), mint, seller);
      if e.Some? { return; }
      e := T.CheckListing(View(), mint, seller);
      if e.Some? { return; }
      var receipt, amount := data[L.ReceiptPda(mint)].receipt, data[L.EscrowPda(mint)].amount;
      e := AnchorInit(seller, L.TokenPda(mint, seller), T.TOKEN_SPACE, L.Token(mint, seller, 0));
      if e.Some? { return; }
      if !receipt.listed { return Some(L.TicketNotListed); }
      if amount != T.TICKET_AMOUNT { return Some(L.InvalidTicketAmount); }
      e := Release(mint, L.TokenPda(mint, seller), seller);
      if e.Some? { return; }
      data := data[L.ReceiptPda(mint) := L.ReceiptData(receipt.(listed := false))];
    }

    method Pay(buyer: L.Address, seller: L.Address, feeRecipient: L.Address, salePrice: u64) returns (e: Option<L.Error>)
      modifies this
      ensures Attempted(View(), e, T.PaySale(old(View()), buyer, seller, feeRecipient, salePrice))
    {
      if salePrice * 500 > U64_MAX { return Some(L.Error.InvalidListingPrice); }
      var fee := salePrice * 500 / 10_000;
      assert T.ResaleFee(salePrice) == Ok(fee) && fee <= salePrice;
      e := PayTwice(buyer, seller, salePrice - fee, feeRecipient, fee);
    }

    method PayTwice(from: L.Address, first: L.Address, x: nat, second: L.Address, y: nat) returns (e: Option<L.Error>)
      modifies this
      ensures var r := L.TransferLamports(old(View()), from, first, x);
              Attempted(View(), e, if r.Ok? then L.TransferLamports(r.value, from, second, y) else r)
    {
      e := TransferLamports(from, first, x);
      if e.Some? { return; }
      e := TransferLamports(from, second, y);
    }

    method Complete(buyer: L.Address, seller: L.Address, feeRecipient: L.Address, mint: L.Address, now: i64)
      returns (e: Option<L.Error>)
      requires T.CheckReceipt(View(), mint, seller).None? && T.CheckListing(View(), mint, seller).None?
      modifies this
      ensures Attempted(View(), e, T.CompleteSale(old(View()), buyer, seller, feeRecipient, mint, now))
    {
      var receipt, amount := data[L.ReceiptPda(mint)].receipt, data[L.EscrowPda(mint)].amount;
      var salePrice := data[L.ListingPda(mint)].askPrice;
      e := AnchorInit(buyer, L.TokenPda(mint, buyer), T.TOKEN_SPACE, L.Token(mint, buyer, 0));
      if e.Some? { return; }
      if !receipt.listed { return Some(L.TicketNotListed); }
      if amount != T.TICKET_AMOUNT { return Some(L.InvalidTicketAmount); }
      if buyer == seller { return Some(L.SelfTradeForbidden); }
      e := Pay(buyer, seller, feeRecipient, salePrice);
      if e.Some? { return; }
      e := Release(mint, L.TokenPda(mint, buyer), seller);
      if e.Some? { return; }
      if receipt.resaleCount == U64_MAX { return Some(L.Error.InvalidListingPrice); }
      data := data[L.ReceiptPda(mint) := L.ReceiptData(T.Sold(receipt, buyer, salePrice, now))];
    }

    method HandleFill(buyer: L.Address, seller: L.Address, feeRecipient: L.Address, mint: L.Address, now: i64)
      returns (e: Option<L.Error>)
      modifies this
      ensures Attempted(View(), e, T.FillTicketListing(old(View()), buyer, seller, feeRecipient, mint, now))
    {
      e := T.CheckSale(View(), buyer, seller, feeRecipient, mint);
      if e.None? { e := Complete(buyer, seller, feeRecipient, mint, now); }
    }

    // ----- Instructions -----

    /** One transaction: the handler runs, and a failure restores every account. */
    method Transact(c: T.Call) returns (e: Option<L.Error>)
      modifies this
      ensures Performed(old(View()), View(), e, T.Try(old(View()), c))
      ensures View() == T.Step(old(View()), c)
    {
      var savedLamports, savedData := lamports, data;
      match c {
        case DoExecute(user, treasury, p, signed, at) =>
          if !user.Wallet? { e := Some(L.MissingSignature); }
          else if !(L.GlobalConfig in data && data[L.GlobalConfig].Global?) || treasury in data {
            e := Some(L.AccountNotInitialized);
          } else if treasury != data[L.GlobalConfig].authority { e := Some(L.TreasuryMismatch); }
          else if !(L.AdminConfig in data && data[L.AdminConfig].Admin?) { e := Some(L.AccountNotInitialized); }
          else {
            e := T.ValidateRequest(p, data[L.AdminConfig].modelHash, user, at);
            if e.None? && !signed { e := Some(L.InvalidEd25519Instruction); }
            if e.None? { e := HandleMint(user, treasury, p, at); }
          }
        case DoList(seller, mint, askPrice, at) => e := HandleList(seller, mint, askPrice, at);
        case DoCancel(seller, mint) => e := HandleCancel(seller, mint);
        case DoFill(buyer, seller, fee, mint, at) => e := HandleFill(buyer, seller, fee, mint, at);
      }
      if e.Some? { lamports, data := savedLamports, savedData; }
    }
  }
}
