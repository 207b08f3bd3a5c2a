/** Properties of every run of the ticket program. */
module TicketRuns {
  import opened Outcomes
  import opened Widths
  import opened ShieldPayloads
  import opened Ledger
  import opened Tickets
  import opened Custody

  // ----- The custody invariant is kept -----

  /** Two states agree on the configuration and on every account of every ticket but `mint`. */
  ghost predicate OthersAgree(s: State, s': State, mint: Address) {
    forall a ::
      TicketOf(a) != Some(mint) ==>
        && (a in s.data <==> a in s'.data)
        && (a in s.data ==> s'.data[a] == s.data[a])
        && (TicketOf(a).Some? ==> s'.Balance(a) == s.Balance(a))
  }

  lemma OtherTicketKept(s: State, s': State, mint: Address, m: Address)
    requires OthersAgree(s, s', mint) && s'.rentRate == s.rentRate && m != mint
    requires Absent(s, m) || Live(s, m)
    ensures Absent(s', m) || Live(s', m)
  {
    assert TicketOf(ReceiptPda(m)) == TicketOf(ListingPda(m)) == TicketOf(EscrowPda(m)) == Some(m);
    assert forall o :: TicketOf(TokenPda(m, o)) == Some(m);
    if m.MintPda? {
      assert TicketOf(m) == TicketOf(ProofUsePda(m.user, m.hash, m.nonce)) == Some(m);
    }
  }

  /** An instruction on one ticket keeps the invariant if that ticket is live afterwards. */
  lemma OneTicketKeepsInv(s: State, s': State, mint: Address)
    requires Inv(s) && OthersAgree(s, s', mint) && s'.rentRate == s.rentRate && Live(s', mint)
    ensures Inv(s')
  {
    assert TicketOf(GlobalConfig) == TicketOf(AdminConfig) == None;
    forall m: Address
      ensures Absent(s', m) || Live(s', m)
    {
      if m != mint { OtherTicketKept(s, s', mint, m); }
    }
  }

  lemma ListTouchesOneTicket(s: State, s': State, seller: Address, mint: Address, askPrice: u64, now: i64)
    requires Minted(s, mint) && seller.Wallet? && Listed(s, s', seller, mint, askPrice, now)
    ensures OthersAgree(s, s', mint)
  {
  }

  lemma ListKeepsInv(s: State, s': State, seller: Address, mint: Address, askPrice: u64, now: i64)
    requires Inv(s) && CanList(s, seller, mint, askPrice) && Listed(s, s', seller, mint, askPrice, now)
    ensures Inv(s')
  {
    assert Live(s, mint);
    assert Live(s', mint);
    ListTouchesOneTicket(s, s', seller, mint, askPrice, now);
    OneTicketKeepsInv(s, s', mint);
  }

  lemma CancelTouchesOneTicket(s: State, s': State, seller: Address, mint: Address)
    requires Minted(s, mint) && seller.Wallet? && Canceled(s, s', seller, mint)
    ensures OthersAgree(s, s', mint)
  {
  }

  lemma CancelKeepsInv(s: State, s': State, seller: Address, mint: Address)
    requires Inv(s) && CanCancel(s, seller, mint) && Canceled(s, s', seller, mint)
    ensures Inv(s')
  {
    assert Live(s, mint);
    assert Live(s', mint);
    CancelTouchesOneTicket(s, s', seller, mint);
    OneTicketKeepsInv(s, s', mint);
  }

  lemma FillTouchesOneTicket(s: State, s': State, buyer: Address, seller: Address, feeRecipient: Address, mint: Address, now: i64)
    requires CanFill(s, buyer, seller, feeRecipient, mint) && feeRecipient.Wallet?
    requires Filled(s, s', buyer, seller, feeRecipient, mint, now)
    ensures OthersAgree(s, s', mint)
  {
  }

  lemma FillKeepsInv(s: State, s': State, buyer: Address, seller: Address, feeRecipient: Address, mint: Address, now: i64)
    requires Inv(s) && CanFill(s, buyer, seller, feeRecipient, mint)
    requires Filled(s, s', buyer, seller, feeRecipient, mint, now)
    ensures Inv(s')
  {
    assert Live(s', mint);
    FillTouchesOneTicket(s, s', buyer, seller, feeRecipient, mint, now);
    OneTicketKeepsInv(s, s', mint);
  }

  lemma ExecuteTouchesOneTicket(s: State, s': State, user: Address, treasury: Address, p: ShieldPayload, price: u64, now: i64)
    requires user.Wallet? && treasury.Wallet? && Executed(s, s', user, treasury, p, price, now)
    ensures OthersAgree(s, s', MintOf(p))
  {
  }

  lemma ExecuteMintsLive(s: State, s': State, user: Address, treasury: Address, p: ShieldPayload, price: u64, now: i64)
    requires user == Wallet(p.userPubkey) && treasury.Wallet? && Absent(s, MintOf(p))
    requires Executed(s, s', user, treasury, p, price, now)
    ensures Live(s', MintOf(p))
  {
  }

  lemma ExecuteKeepsInv(s: State, s': State, user: Address, treasury: Address, p: ShieldPayload, signed: bool, now: i64)
    requires Inv(s) && CanExecute(s, user, treasury, p, signed, now)
    requires Executed(s, s', user, treasury, p, QuoteOf(p).value.finalPrice, now)
    ensures Inv(s')
  {
    assert Absent(s, MintOf(p));
    ExecuteMintsLive(s, s', user, treasury, p, QuoteOf(p).value.finalPrice, now);
    ExecuteTouchesOneTicket(s, s', user, treasury, p, QuoteOf(p).value.finalPrice, now);
    OneTicketKeepsInv(s, s', MintOf(p));
  }

  lemma StepKeepsInv(s: State, c: Call)
    requires Inv(s)
    ensures Inv(Step(s, c))
  {
    if Try(s, c).Ok? {
      var s' := Step(s, c);
      match c
      case DoExecute(user, treasury, p, signed, at) =>
        ExecuteExactly(s, user, treasury, p, signed, at);
        ExecuteKeepsInv(s, s', user, treasury, p, signed, at);
      case DoList(seller, mint, askPrice, at) =>
        ListExactly(s, seller, mint, askPrice, at);
        ListKeepsInv(s, s', seller, mint, askPrice, at);
      case DoCancel(seller, mint) =>
        CancelExactly(s, seller, mint);
        CancelKeepsInv(s, s', seller, mint);
      case DoFill(buyer, seller, fee, mint, at) =>
        FillExactly(s, buyer, seller, fee, mint, at);
        FillKeepsInv(s, s', buyer, seller, fee, mint, at);
    }
  }

  lemma {:induction false} RunKeepsInv(s: State, calls: seq<Call>)
    requires Inv(s)
    ensures Inv(Run(s, calls))
  {
    if calls != [] {
      RunKeepsInv(s, calls[..|calls| - 1]);
      StepKeepsInv(Run(s, calls[..|calls| - 1]), calls[|calls| - 1]);
    }
  }

  /** The deployed program before its first ticket. */
  ghost predicate Genesis(s: State) {
    && s.data.Keys == {GlobalConfig, AdminConfig}
    && s.data[GlobalConfig].Global? && s.data[GlobalConfig].authority.Wallet?
    && s.data[AdminConfig].Admin?
    && forall a: Address :: TicketOf(a).Some? ==> s.Balance(a) == 0
  }

  lemma GenesisInv(s: State)
    requires Genesis(s)
    ensures Inv(s)
  {
  }

  // ----- What the invariant means for a reader -----

  /** In every state any run can reach, a minted ticket has a fixed supply of one and exactly one token account,
      which holds it: the escrow when it is listed, the current holder's account otherwise. Listing, escrow and
      the receipt's flag always agree, and the proof record, mint and receipt exist together. */
  lemma CustodyOfEveryTicket(start: State, calls: seq<Call>, mint: Address)
    requires Genesis(start)
    ensures var s := Run(start, calls);
            && (Minted(s, mint) ==>
                  var r := ReceiptOf(s, mint);
                  var place := if r.listed then EscrowPda(mint) else TokenPda(mint, r.currentHolder);
                  && mint in s.data && s.data[mint] == Mint(1, None, None)
                  && place in s.data && s.data[place].Token? && s.data[place].amount == 1
                  && (forall a :: a in s.data && s.data[a].Token? && s.data[a].mint == mint ==> a == place)
                  && (r.listed <==> ListingPda(mint) in s.data)
                  && (r.listed <==> EscrowPda(mint) in s.data)
                  && (r.listed ==> s.data[ListingPda(mint)].Listing?)
                  && (r.listed ==> s.data[ListingPda(mint)].seller == r.currentHolder && s.data[ListingPda(mint)].askPrice > 0))
            && (mint.MintPda? ==>
                  && (Minted(s, mint) <==> mint in s.data)
                  && (Minted(s, mint) <==> ProofUsePda(mint.user, mint.hash, mint.nonce) in s.data))
  {
    GenesisInv(start);
    RunKeepsInv(start, calls);
    var s := Run(start, calls);
    assert Absent(s, mint) || Live(s, mint);
    if Minted(s, mint) {
      forall a | a in s.data && s.data[a].Token? && s.data[a].mint == mint
        ensures a == if ReceiptOf(s, mint).listed then EscrowPda(mint) else TokenPda(mint, ReceiptOf(s, mint).currentHolder)
      {
        TokenAccountsAreTickets(s, a);
      }
    }
  }

  lemma TokenAccountsAreTickets(s: State, a: Address)
    requires Inv(s) && a in s.data && s.data[a].Token?
    ensures a == EscrowPda(s.data[a].mint) || (a.TokenPda? && a.mint == s.data[a].mint)
  {
    assert Live(s, TicketOf(a).value);
  }

  // ----- Listing and cancelling undo each other -----

  /** Listing a ticket and cancelling at once restores the whole state: every account's data and every balance. */
  lemma ListThenCancelIsIdentity(s: State, seller: Address, mint: Address, askPrice: u64, now: i64)
    requires Inv(s) && ListTicket(s, seller, mint, askPrice, now).Ok?
    ensures var s1 := ListTicket(s, seller, mint, askPrice, now).value;
            && CancelTicketListing(s1, seller, mint).Ok?
            && var s2 := CancelTicketListing(s1, seller, mint).value;
               s2.data == s.data && s2.rentRate == s.rentRate && forall a :: s2.Balance(a) == s.Balance(a)
  {
    ListExactly(s, seller, mint, askPrice, now);
    var s1 := ListTicket(s, seller, mint, askPrice, now).value;
    ListKeepsInv(s, s1, seller, mint, askPrice, now);
    CancelExactly(s1, seller, mint);
    assert Live(s, mint);
    UndoListing(s, s1, CancelTicketListing(s1, seller, mint).value, seller, mint, askPrice, now);
  }

  lemma UndoListing(s: State, s1: State, s2: State, seller: Address, mint: Address, askPrice: u64, now: i64)
    requires ReadyToList(s, seller, mint) && Listed(s, s1, seller, mint, askPrice, now)
    requires Minted(s1, mint) && Canceled(s1, s2, seller, mint)
    ensures s2.data == s.data && forall a :: s2.Balance(a) == s.Balance(a)
  {
  }

  // ----- No ticket is ever stuck -----

  /** In every reachable state a solvent holder can list, a solvent seller can cancel, and any other solvent buyer
      can fill exactly when the fee computation fits 64 bits (and the resale counter has room). */
  lemma NoTicketIsStuck(start: State, calls: seq<Call>, mint: Address)
    requires Genesis(start) && Minted(Run(start, calls), mint)
    ensures var s := Run(start, calls);
            var r := ReceiptOf(s, mint);
            if !r.listed then
              forall ask: u64, now: i64 :: ListTicket(s, r.currentHolder, mint, ask, now).Ok? <==>
                ask > 0 && s.Balance(r.currentHolder) >= s.Rent(LISTING_SPACE) + s.Rent(TOKEN_SPACE)
            else
              && ListingPda(mint) in s.data && s.data[ListingPda(mint)].Listing?
              && GlobalConfig in s.data && s.data[GlobalConfig].Global?
              && (CancelTicketListing(s, r.currentHolder, mint).Ok? <==> s.Balance(r.currentHolder) >= s.Rent(TOKEN_SPACE))
              && forall buyer: Address, now: i64 | buyer.Wallet? ::
                   FillTicketListing(s, buyer, r.currentHolder, s.data[GlobalConfig].authority, mint, now).Ok? <==>
                     && buyer != r.currentHolder
                     && s.data[ListingPda(mint)].askPrice * 500 <= U64_MAX
                     && r.resaleCount < U64_MAX
                     && s.Balance(buyer) >= s.Rent(TOKEN_SPACE) + s.data[ListingPda(mint)].askPrice
  {
    GenesisInv(start);
    RunKeepsInv(start, calls);
    var s := Run(start, calls);
    var r := ReceiptOf(s, mint);
    assert Live(s, mint);
    if !r.listed {
      forall ask: u64, now: i64
        ensures ListTicket(s, r.currentHolder, mint, ask, now).Ok? <==> CanList(s, r.currentHolder, mint, ask)
      {
        ListExactly(s, r.currentHolder, mint, ask, now);
      }
    } else {
      CancelExactly(s, r.currentHolder, mint);
      forall buyer: Address, now: i64
        ensures FillTicketListing(s, buyer, r.currentHolder, s.data[GlobalConfig].authority, mint, now).Ok?
           <==> CanFill(s, buyer, r.currentHolder, s.data[GlobalConfig].authority, mint)
      {
        FillExactly(s, buyer, r.currentHolder, s.data[GlobalConfig].authority, mint, now);
      }
    }
  }

  // ----- History -----

  ghost predicate SucceedsAt(start: State, calls: seq<Call>, k: nat)
    requires k < |calls|
  {
    Try(Run(start, calls[..k]), calls[k]).Ok?
  }

  ghost predicate MintsAt(start: State, calls: seq<Call>, k: nat, mint: Address)
    requires k < |calls|
  {
    calls[k].DoExecute? && MintOf(calls[k].payload) == mint && SucceedsAt(start, calls, k)
  }

  /** The number of successful purchases of a ticket during a run. */
  ghost function Sales(start: State, calls: seq<Call>, mint: Address): nat {
    if calls == [] then 0
    else
      var c := calls[|calls| - 1];
      Sales(start, calls[..|calls| - 1], mint)
      + (if c.DoFill? && c.mint == mint && Try(Run(start, calls[..|calls| - 1]), c).Ok? then 1 else 0)
  }

  /** A receipt keeps its identity, its first price and its first buyer; only a sale changes hands or counts. */
  ghost predicate Follows(r: Receipt, r': Receipt, sale: Option<(Address, u64, i64)>) {
    && r' == r.(currentHolder := r'.currentHolder, lastSalePrice := r'.lastSalePrice,
                lastTransferAt := r'.lastTransferAt, listed := r'.listed, resaleCount := r'.resaleCount)
    && match sale
       case None =>
         && r'.currentHolder == r.currentHolder && r'.lastSalePrice == r.lastSalePrice
         && r'.lastTransferAt == r.lastTransferAt && r'.resaleCount == r.resaleCount
       case Some((buyer, price, at)) =>
         && r'.currentHolder == buyer && r'.lastSalePrice == price && r'.lastTransferAt == at
         && r'.resaleCount == r.resaleCount + 1 && r.listed && !r'.listed
  }

  /** The purchase of `mint` that a call makes in a state, if it makes one. */
  ghost function SaleOf(s: State, c: Call, mint: Address): Option<(Address, u64, i64)> {
    if c.DoFill? && c.mint == mint && Try(s, c).Ok? && ListingPda(mint) in s.data && s.data[ListingPda(mint)].Listing?
    then Some((c.buyer, s.data[ListingPda(mint)].askPrice, c.at)) else None
  }

  lemma StepKeepsReceipt(s: State, c: Call, mint: Address)
    requires Inv(s) && Minted(s, mint)
    ensures Minted(Step(s, c), mint)
    ensures Follows(ReceiptOf(s, mint), ReceiptOf(Step(s, c), mint), SaleOf(s, c, mint))
    ensures SaleOf(s, c, mint).Some? <==> c.DoFill? && c.mint == mint && Try(s, c).Ok?
  {
    if Try(s, c).Ok? {
      var s' := Step(s, c);
      match c
      case DoExecute(user, treasury, p, signed, at) =>
        ExecuteExactly(s, user, treasury, p, signed, at);
        FreshTicketUntouched(s, p, user);
        ExecuteKeepsReceipt(s, s', user, treasury, p, QuoteOf(p).value.finalPrice, at, mint);
      case DoList(seller, m, askPrice, at) =>
        ListExactly(s, seller, m, askPrice, at);
        ListKeepsReceipt(s, s', seller, m, askPrice, at, mint);
      case DoCancel(seller, m) =>
        CancelExactly(s, seller, m);
        CancelKeepsReceipt(s, s', seller, m, mint);
      case DoFill(buyer, seller, fee, m, at) =>
        FillExactly(s, buyer, seller, fee, m, at);
        FillKeepsReceipt(s, s', buyer, seller, fee, m, at, mint);
    }
  }

  lemma ExecuteKeepsReceipt(s: State, s': State, user: Address, treasury: Address, p: ShieldPayload, price: u64, at: i64, mint: Address)
    requires Minted(s, mint) && ReceiptPda(MintOf(p)) !in s.data && Executed(s, s', user, treasury, p, price, at)
    ensures Minted(s', mint) && Follows(ReceiptOf(s, mint), ReceiptOf(s', mint), None)
  {
  }

  lemma ListKeepsReceipt(s: State, s': State, seller: Address, m: Address, askPrice: u64, at: i64, mint: Address)
    requires Minted(s, mint) && Minted(s, m) && Listed(s, s', seller, m, askPrice, at)
    ensures Minted(s', mint) && Follows(ReceiptOf(s, mint), ReceiptOf(s', mint), None)
  {
  }

  lemma CancelKeepsReceipt(s: State, s': State, seller: Address, m: Address, mint: Address)
    requires Minted(s, mint) && Minted(s, m) && Canceled(s, s', seller, m)
    ensures Minted(s', mint) && Follows(ReceiptOf(s, mint), ReceiptOf(s', mint), None)
  {
  }

  lemma FillKeepsReceipt(s: State, s': State, buyer: Address, seller: Address, fee: Address, m: Address, at: i64, mint: Address)
    requires Minted(s, mint) && CanFill(s, buyer, seller, fee, m) && Filled(s, s', buyer, seller, fee, m, at)
    ensures Minted(s', mint)
    ensures Follows(ReceiptOf(s, mint), ReceiptOf(s', mint),
                    if m == mint then Some((buyer, s.data[ListingPda(m)].askPrice, at)) else None)
  {
  }

  lemma NoReceiptElsewhere(s: State, s': State, m: Address, mint: Address)
    requires Minted(s, m) && !Minted(s, mint) && OthersAgree(s, s', m)
    ensures !Minted(s', mint)
  {
    assert TicketOf(ReceiptPda(mint)) == Some(mint);
  }

  /** Only a mint adds a receipt. */
  lemma OthersAddNoReceipt(s: State, c: Call, mint: Address)
    requires Inv(s) && !Minted(s, mint) && !c.DoExecute?
    ensures !Minted(Step(s, c), mint)
  {
    if Try(s, c).Ok? {
      var s' := Step(s, c);
      match c
      case DoList(seller, m, askPrice, at) =>
        ListExactly(s, seller, m, askPrice, at);
        assert Live(s, m);
        ListTouchesOneTicket(s, s', seller, m, askPrice, at);
      case DoCancel(seller, m) =>
        CancelExactly(s, seller, m);
        assert Live(s, m);
        CancelTouchesOneTicket(s, s', seller, m);
      case DoFill(buyer, seller, fee, m, at) =>
        FillExactly(s, buyer, seller, fee, m, at);
        FillTouchesOneTicket(s, s', buyer, seller, fee, m, at);
    }
    if Try(s, c).Ok? { NoReceiptElsewhere(s, Step(s, c), c.mint, mint); }
  }

  lemma NewReceipt(s: State, s': State, user: Address, treasury: Address, p: ShieldPayload, price: u64, at: i64, mint: Address)
    requires Executed(s, s', user, treasury, p, price, at) && !Minted(s, mint) && Minted(s', mint)
    ensures MintOf(p) == mint && ReceiptOf(s', mint) == FirstReceipt(p, user, price, at)
  {
  }

  /** A ticket appears only through a successful mint of an unblocked quote, at that quote's price. */
  lemma NewTicketsAreMinted(s: State, c: Call, mint: Address)
    requires Inv(s) && !Minted(s, mint) && Minted(Step(s, c), mint)
    ensures c.DoExecute? && MintOf(c.payload) == mint && Try(s, c).Ok?
    ensures QuoteOf(c.payload).Ok? && !QuoteOf(c.payload).value.blocked
    ensures ReceiptOf(Step(s, c), mint) == FirstReceipt(c.payload, c.user, QuoteOf(c.payload).value.finalPrice, c.at)
  {
    if c.DoExecute? {
      ExecuteExactly(s, c.user, c.treasury, c.payload, c.signed, c.at);
      NewReceipt(s, Step(s, c), c.user, c.treasury, c.payload, QuoteOf(c.payload).value.finalPrice, c.at, mint);
    } else {
      OthersAddNoReceipt(s, c, mint);
    }
  }

  lemma {:induction false} UnmintedHasNoSales(start: State, calls: seq<Call>, mint: Address)
    requires Inv(start) && !Minted(Run(start, calls), mint)
    ensures Sales(start, calls, mint) == 0
  {
    if calls != [] {
      var prefix, c := calls[..|calls| - 1], calls[|calls| - 1];
      RunKeepsInv(start, prefix);
      if Minted(Run(start, prefix), mint) {
        StepKeepsReceipt(Run(start, prefix), c, mint);
        assert false;
      }
      UnmintedHasNoSales(start, prefix, mint);
      if c.DoFill? && c.mint == mint {
        FillExactly(Run(start, prefix), c.buyer, c.seller, c.feeRecipient, c.mint, c.at);
      }
    }
  }

  /** Every ticket of every run was minted once, from an unblocked quote, by its original buyer at the price the
      receipt still shows, and its resale counter is the number of purchases since. */
  lemma {:induction false} HistoryOfEveryTicket(start: State, calls: seq<Call>, mint: Address) returns (k: nat)
    requires Genesis(start) && Minted(Run(start, calls), mint)
    ensures k < |calls| && MintsAt(start, calls, k, mint)
    ensures var p, r := calls[k].payload, ReceiptOf(Run(start, calls), mint);
            && QuoteOf(p).Ok? && !QuoteOf(p).value.blocked
            && r.purchasePrice == QuoteOf(p).value.finalPrice
            && r.originalBuyer == calls[k].user
            && r.resaleCount == Sales(start, calls, mint)
  {
    GenesisInv(start);
    if calls == [] {
      assert false;
    }
    var n := |calls| - 1;
    var prefix, c := calls[..n], calls[n];
    RunKeepsInv(start, prefix);
    var s := Run(start, prefix);
    if Minted(s, mint) {
      k := HistoryOfEveryTicket(start, prefix, mint);
      StepKeepsReceipt(s, c, mint);
      assert calls[..k] == prefix[..k];
    } else {
      NewTicketsAreMinted(s, c, mint);
      UnmintedHasNoSales(start, prefix, mint);
      k := n;
    }
  }

  lemma {:induction false} MintedForever(start: State, calls: seq<Call>, i: nat, j: nat, mint: Address)
    requires Inv(start) && i <= j <= |calls| && Minted(Run(start, calls[..i]), mint)
    ensures Minted(Run(start, calls[..j]), mint)
    decreases j
  {
    if i < j {
      MintedForever(start, calls, i, j - 1, mint);
      assert calls[..j][..j - 1] == calls[..j - 1];
      RunKeepsInv(start, calls[..j - 1]);
      StepKeepsReceipt(Run(start, calls[..j - 1]), calls[j - 1], mint);
    }
  }

  /** Each (user, proof hash, nonce) mints at most once in a run. */
  lemma ProofConsumedOnce(start: State, calls: seq<Call>, i: nat, j: nat, mint: Address)
    requires Genesis(start) && i < |calls| && j < |calls|
    requires MintsAt(start, calls, i, mint) && MintsAt(start, calls, j, mint)
    ensures i == j
  {
    if i < j { SecondMintFails(start, calls, i, j, mint); }
    if j < i { SecondMintFails(start, calls, j, i, mint); }
  }

  lemma SecondMintFails(start: State, calls: seq<Call>, i: nat, j: nat, mint: Address)
    requires Genesis(start) && i < j < |calls| && MintsAt(start, calls, i, mint)
    ensures !MintsAt(start, calls, j, mint)
  {
    GenesisInv(start);
    RunKeepsInv(start, calls[..i]);
    RunKeepsInv(start, calls[..j]);
    var s, c := Run(start, calls[..i]), calls[i];
    assert calls[..i + 1][..i] == calls[..i];
    ExecuteExactly(s, c.user, c.treasury, c.payload, c.signed, c.at);
    MintedForever(start, calls, i + 1, j, mint);
    assert Live(Run(start, calls[..j]), mint);
    if calls[j].DoExecute? {
      var d := calls[j];
      ExecuteExactly(Run(start, calls[..j]), d.user, d.treasury, d.payload, d.signed, d.at);
    }
  }
}
