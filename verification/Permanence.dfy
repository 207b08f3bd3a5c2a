/** What no later transaction can undo, neither the program's own nor an outsider's: lamports at an address a mint would
    create, and the closing of the account a ticket's holder would list it from. */
module Permanence {
  import opened Outcomes
  import opened Widths
  import opened ShieldPayloads
  import opened Quotes
  import opened Ledger
  import opened Tickets
  import opened Instructions
  import opened Outsiders
  import C = Custody

  // ----- Histories from any safe state -----

  lemma {:induction false} SafeHistory(s: State, ts: seq<Transaction>)
    requires Safe(s)
    ensures Safe(History(s, ts))
  {
    if ts != [] {
      SafeHistory(s, ts[..|ts| - 1]);
      NextSafe(History(s, ts[..|ts| - 1]), ts[|ts| - 1]);
    }
  }

  // ----- Balances of addresses without data -----

  ghost predicate Keeps(s: State, s': State, a: Address) {
    s'.Balance(a) >= s.Balance(a)
  }

  lemma InitKeeps(s: State, payer: Address, x: Address, space: nat, data: AccountData, a: Address)
    requires a != payer
    ensures var r := AnchorInit(s, payer, x, space, data); r.Ok? ==> Keeps(s, r.value, a)
  {
  }

  lemma CreateKeeps(s: State, payer: Address, x: Address, space: nat, data: AccountData, a: Address)
    requires a != payer
    ensures var r := CreatePda(s, payer, x, space, data); r.Ok? ==> Keeps(s, r.value, a)
  {
  }

  lemma PayKeeps(s: State, from: Address, to: Address, amount: nat, a: Address)
    requires a != from
    ensures var r := TransferLamports(s, from, to, amount); r.Ok? ==> Keeps(s, r.value, a)
  {
  }

  lemma CloseTokenKeeps(s: State, x: Address, to: Address, authority: Address, a: Address)
    requires a != x
    ensures var r := CloseToken(s, x, to, authority); r.Ok? ==> Keeps(s, r.value, a)
  {
  }

  lemma ListKeeps(s: State, seller: Address, m: Address, askPrice: u64, now: i64, a: Address)
    requires ListTicket(s, seller, m, askPrice, now).Ok? && a !in s.data && !a.Wallet?
    ensures Keeps(s, ListTicket(s, seller, m, askPrice, now).value, a)
  {
    ListData(s, seller, m, askPrice, now);
    var listing, token := Listing(seller, m, askPrice, now), TokenPda(m, seller);
    InitKeeps(s, seller, ListingPda(m), LISTING_SPACE, listing, a);
    var s1 := AnchorInit(s, seller, ListingPda(m), LISTING_SPACE, listing).value;
    InitKeeps(s1, seller, EscrowPda(m), TOKEN_SPACE, Token(m, ListingPda(m), 0), a);
    var s2 := AnchorInit(s1, seller, EscrowPda(m), TOKEN_SPACE, Token(m, ListingPda(m), 0)).value;
    var s3 := TransferToken(s2, token, EscrowPda(m), seller, TICKET_AMOUNT).value;
    CloseTokenKeeps(s3, token, seller, seller, a);
  }

  lemma ReleaseKeeps(s: State, m: Address, token: Address, seller: Address, a: Address)
    requires ReleaseEscrow(s, m, token, seller).Ok? && a != EscrowPda(m) && a != ListingPda(m)
    ensures Keeps(s, ReleaseEscrow(s, m, token, seller).value, a)
  {
    var s1 := TransferToken(s, EscrowPda(m), token, ListingPda(m), TICKET_AMOUNT).value;
    CloseTokenKeeps(s1, EscrowPda(m), seller, ListingPda(m), a);
  }

  lemma CancelKeeps(s: State, seller: Address, m: Address, a: Address)
    requires CancelTicketListing(s, seller, m).Ok? && a !in s.data && !a.Wallet?
    ensures Keeps(s, CancelTicketListing(s, seller, m).value, a)
  {
    CancelData(s, seller, m);
    var token, blank := TokenPda(m, seller), Token(m, seller, 0);
    InitKeeps(s, seller, token, TOKEN_SPACE, blank, a);
    ReleaseKeeps(AnchorInit(s, seller, token, TOKEN_SPACE, blank).value, m, token, seller, a);
  }

  lemma SaleKeeps(s: State, buyer: Address, seller: Address, feeRecipient: Address, price: u64, a: Address)
    requires PaySale(s, buyer, seller, feeRecipient, price).Ok? && a != buyer
    ensures Keeps(s, PaySale(s, buyer, seller, feeRecipient, price).value, a)
  {
    var fee := ResaleFee(price).value;
    PayKeeps(s, buyer, seller, price - fee, a);
    PayKeeps(TransferLamports(s, buyer, seller, price - fee).value, buyer, feeRecipient, fee, a);
  }

  lemma FillKeeps(s: State, buyer: Address, seller: Address, feeRecipient: Address, m: Address, now: i64, a: Address)
    requires FillTicketListing(s, buyer, seller, feeRecipient, m, now).Ok? && a !in s.data && !a.Wallet?
    ensures Keeps(s, FillTicketListing(s, buyer, seller, feeRecipient, m, now).value, a)
  {
    FillData(s, buyer, seller, feeRecipient, m, now);
    var token, blank, price := TokenPda(m, buyer), Token(m, buyer, 0), s.data[ListingPda(m)].askPrice;
    InitKeeps(s, buyer, token, TOKEN_SPACE, blank, a);
    var s1 := AnchorInit(s, buyer, token, TOKEN_SPACE, blank).value;
    SaleKeeps(s1, buyer, seller, feeRecipient, price, a);
    ReleaseKeeps(PaySale(s1, buyer, seller, feeRecipient, price).value, m, token, seller, a);
  }

  lemma OpenKeeps(s: State, user: Address, p: ShieldPayload, now: i64, a: Address)
    requires OpenAccounts(s, user, p, now).Ok? && a != user
    ensures Keeps(s, OpenAccounts(s, user, p, now).value, a)
  {
    var mint, blank := MintOf(p), Mint(0, Some(MintAuthority), Some(MintAuthority));
    var proof := ProofUse(p.userPubkey, p.zkProofHash, p.nonce, now);
    CreateKeeps(s, user, ProofOf(p), PROOF_USE_SPACE, proof, a);
    var s1 := CreatePda(s, user, ProofOf(p), PROOF_USE_SPACE, proof).value;
    CreateKeeps(s1, user, mint, MINT_SPACE, blank, a);
    CreateKeeps(CreatePda(s1, user, mint, MINT_SPACE, blank).value, user, TokenPda(mint, user), TOKEN_SPACE, Token(mint, user, 0), a);
  }

  lemma FinishKeeps(s: State, user: Address, treasury: Address, p: ShieldPayload, quote: Quote, now: i64, a: Address)
    requires FinishMint(s, user, treasury, p, quote, now).Ok? && a != user
    ensures Keeps(s, FinishMint(s, user, treasury, p, quote, now).value, a)
  {
    var receipt := ReceiptData(FirstReceipt(p, user, quote.finalPrice, now));
    CreateKeeps(s, user, ReceiptPda(MintOf(p)), RECEIPT_SPACE, receipt, a);
    PayKeeps(CreatePda(s, user, ReceiptPda(MintOf(p)), RECEIPT_SPACE, receipt).value, user, treasury, quote.finalPrice, a);
  }

  lemma ExecuteKeeps(s: State, user: Address, treasury: Address, p: ShieldPayload, signed: bool, now: i64, a: Address)
    requires ExecuteShield(s, user, treasury, p, signed, now).Ok? && !a.Wallet?
    ensures Keeps(s, ExecuteShield(s, user, treasury, p, signed, now).value, a)
  {
    ExecuteIsMint(s, user, treasury, p, signed, now);
    var s1 := MintIsFinish(s, user, treasury, p, now);
    OpenKeeps(s, user, p, now, a);
    FinishKeeps(s1, user, treasury, p, QuoteOf(p).value, now, a);
  }

  lemma OutsideKeeps(s: State, o: Outside, a: Address)
    requires a !in s.data && !a.Wallet?
    ensures Keeps(s, Apply(s, o), a)
  {
    match o
    case OpenToken(payer, at, mint, owner) =>
      if payer.Wallet? { InitKeeps(s, payer, Outer(at), TOKEN_SPACE, Token(mint, owner, 0), a); }
    case CloseEmpty(owner, account, to) =>
      if Owned(s, account, owner) { CloseTokenKeeps(s, account, to, owner, a); }
    case _ =>
  }

  /** Lamports at an address that holds no data and belongs to no wallet stay there, whatever the next transaction is. */
  lemma NextKeeps(s: State, t: Transaction, a: Address)
    requires a !in s.data && !a.Wallet?
    ensures Keeps(s, Next(s, t), a)
  {
    match t
    case Theirs(o) => OutsideKeeps(s, o, a);
    case Ours(c) =>
      if Try(s, c).Ok? {
        match c
        case DoExecute(user, treasury, p, signed, at) => ExecuteKeeps(s, user, treasury, p, signed, at, a);
        case DoList(seller, mint, askPrice, at) => ListKeeps(s, seller, mint, askPrice, at, a);
        case DoCancel(seller, mint) => CancelKeeps(s, seller, mint, a);
        case DoFill(buyer, seller, feeRecipient, mint, at) => FillKeeps(s, buyer, seller, feeRecipient, mint, at, a);
      }
  }

  // ----- Minting among outsiders -----

  /** The addresses at which a ticket's four accounts will be. */
  function AddressesOf(m: Address): set<Address>
    requires m.MintPda?
  {
    {ProofUsePda(m.user, m.hash, m.nonce), m, TokenPda(m, Wallet(m.user)), ReceiptPda(m)}
  }

  /** None of a ticket's addresses has been sent lamports. */
  ghost predicate Clean(s: State, m: Address)
    requires m.MintPda?
  {
    forall a :: a in AddressesOf(m) ==> s.Balance(a) == 0
  }

  lemma UnmintedHasNoData(s: State, m: Address)
    requires Safe(s) && m.MintPda? && m !in s.data
    ensures forall a :: a in AddressesOf(m) ==> a !in s.data
  {
    assert Recorded(s, m);
  }

  /** In every state outsiders can bring about, a mint succeeds exactly for an admitted request whose proof is unused, whose
      four addresses have been sent no lamports, whose quote is not blocked, and whose rents and price the user can pay. */
  lemma MintExactlyAmongOutsiders(s: State, user: Address, treasury: Address, p: ShieldPayload, signed: bool, now: i64)
    requires Safe(s)
    ensures ExecuteShield(s, user, treasury, p, signed, now).Ok? <==>
              && C.Admitted(s, user, treasury, p, signed, now)
              && ProofOf(p) !in s.data && Clean(s, MintOf(p))
              && QuoteOf(p).Ok? && !QuoteOf(p).value.blocked
              && s.Balance(user) >= C.MintingRent(s) + QuoteOf(p).value.finalPrice
  {
    var m := MintOf(p);
    C.ExecuteExactly(s, user, treasury, p, signed, now);
    if C.Admitted(s, user, treasury, p, signed, now) {
      if ProofOf(p) !in s.data {
        assert Recorded(s, m);
        UnmintedHasNoData(s, m);
        assert C.Untouched(s, p, user) <==> Clean(s, m);
      }
    }
  }

  /** A ticket that is not minted, one of whose addresses has been sent lamports. */
  ghost predicate Dusted(s: State, m: Address) {
    m.MintPda? && m !in s.data && !Clean(s, m)
  }

  lemma OnlyAMintMints(s: State, t: Transaction, m: Address)
    requires Safe(s) && m.MintPda? && m !in s.data && m in Next(s, t).data
    ensures t.Ours? && t.call.DoExecute? && MintOf(t.call.payload) == m && Try(s, t.call).Ok?
  {
    match t
    case Theirs(o) =>
    case Ours(c) =>
      if Try(s, c).Ok? {
        match c
        case DoExecute(user, treasury, p, signed, at) => ExecuteData(s, user, treasury, p, signed, at);
        case DoList(seller, mint, askPrice, at) => ListData(s, seller, mint, askPrice, at);
        case DoCancel(seller, mint) => CancelData(s, seller, mint);
        case DoFill(buyer, seller, feeRecipient, mint, at) => FillData(s, buyer, seller, feeRecipient, mint, at);
      }
  }

  lemma DustedFails(s: State, c: Call)
    requires Safe(s) && c.DoExecute? && Dusted(s, MintOf(c.payload))
    ensures Try(s, c).Err?
  {
    MintExactlyAmongOutsiders(s, c.user, c.treasury, c.payload, c.signed, c.at);
  }

  lemma DustStays(s: State, t: Transaction, m: Address)
    requires Safe(s) && Dusted(s, m)
    ensures Dusted(Next(s, t), m)
  {
    UnmintedHasNoData(s, m);
    if m in Next(s, t).data {
      OnlyAMintMints(s, t, m);
      DustedFails(s, t.call);
      assert false;
    }
    var a :| a in AddressesOf(m) && s.Balance(a) != 0;
    NextKeeps(s, t, a);
  }

  /** Lamports at one of its addresses keep a ticket from ever being minted: in every later history each request for that
      user, proof hash and nonce fails. */
  lemma {:induction false} DustedForever(s: State, ts: seq<Transaction>, m: Address)
    requires Safe(s) && Dusted(s, m)
    ensures Dusted(History(s, ts), m)
    ensures forall c: Call :: c.DoExecute? && MintOf(c.payload) == m ==> Try(History(s, ts), c).Err?
  {
    SafeHistory(s, ts);
    if ts != [] {
      SafeHistory(s, ts[..|ts| - 1]);
      DustedForever(s, ts[..|ts| - 1], m);
      DustStays(History(s, ts[..|ts| - 1]), ts[|ts| - 1], m);
    }
    forall c: Call | c.DoExecute? && MintOf(c.payload) == m
      ensures Try(History(s, ts), c).Err?
    {
      DustedFails(History(s, ts), c);
    }
  }

  /** One transfer is enough, from any wallet, to any of the four addresses of any ticket not yet minted. */
  lemma OneTransferDusts(s: State, from: Address, m: Address, a: Address, amount: nat)
    requires Safe(s) && m.MintPda? && m !in s.data && a in AddressesOf(m)
    requires from.Wallet? && s.Balance(from) >= amount > 0
    ensures Safe(Apply(s, SendLamports(from, a, amount))) && Dusted(Apply(s, SendLamports(from, a, amount)), m)
  {
    OutsideSafe(s, SendLamports(from, a, amount));
    assert Apply(s, SendLamports(from, a, amount)).Balance(a) >= amount;
  }

  // ----- Stranded tickets -----

  /** A minted, unlisted ticket whose holder's account for it is closed. */
  ghost predicate Stranded(s: State, m: Address) {
    && IsMint(s, m) && ReceiptPda(m) in s.data && s.data[ReceiptPda(m)].ReceiptData?
    && !s.data[ReceiptPda(m)].receipt.listed
    && TokenPda(m, s.data[ReceiptPda(m)].receipt.currentHolder) !in s.data
  }

  /** What an outside transaction may do at one address. */
  lemma OutsideAt(s: State, o: Outside, a: Address)
    ensures a in Apply(s, o).data && a !in s.data ==> a.Outer?
    ensures a in s.data && s.data[a].ReceiptData? ==> SameAt(s, Apply(s, o), a)
    ensures a in s.data && s.data[a].Mint? ==> a in Apply(s, o).data
  {
  }

  /** Ticket m keeps its mint, its receipt and its holder's account as they are. */
  ghost predicate Unmoved(s: State, s': State, m: Address) {
    m in s'.data && SameAt(s, s', ReceiptPda(m)) && forall o :: TokenPda(m, o) in s'.data ==> TokenPda(m, o) in s.data
  }

  lemma OutsideUnmoved(s: State, o: Outside, m: Address)
    requires Safe(s) && Stranded(s, m)
    ensures Unmoved(s, Apply(s, o), m)
  {
    assert Shape(s, m);
    OutsideAt(s, o, m);
    OutsideAt(s, o, ReceiptPda(m));
    forall x | TokenPda(m, x) in Apply(s, o).data
      ensures TokenPda(m, x) in s.data
    {
      OutsideAt(s, o, TokenPda(m, x));
    }
  }

  lemma ListUnmoved(s: State, seller: Address, n: Address, askPrice: u64, now: i64, m: Address)
    requires Stranded(s, m) && ListTicket(s, seller, n, askPrice, now).Ok?
    ensures Unmoved(s, ListTicket(s, seller, n, askPrice, now).value, m)
  {
    ListData(s, seller, n, askPrice, now);
  }

  lemma CancelUnmoved(s: State, seller: Address, n: Address, m: Address)
    requires Stranded(s, m) && CancelTicketListing(s, seller, n).Ok?
    ensures Unmoved(s, CancelTicketListing(s, seller, n).value, m)
  {
    CancelData(s, seller, n);
  }

  lemma FillUnmoved(s: State, buyer: Address, seller: Address, feeRecipient: Address, n: Address, now: i64, m: Address)
    requires Stranded(s, m) && FillTicketListing(s, buyer, seller, feeRecipient, n, now).Ok?
    ensures Unmoved(s, FillTicketListing(s, buyer, seller, feeRecipient, n, now).value, m)
  {
    FillData(s, buyer, seller, feeRecipient, n, now);
  }

  lemma ExecuteUnmoved(s: State, user: Address, treasury: Address, p: ShieldPayload, signed: bool, now: i64, m: Address)
    requires Stranded(s, m) && ExecuteShield(s, user, treasury, p, signed, now).Ok?
    ensures Unmoved(s, ExecuteShield(s, user, treasury, p, signed, now).value, m)
  {
    ExecuteData(s, user, treasury, p, signed, now);
  }

  lemma NextUnmoved(s: State, t: Transaction, m: Address)
    requires Safe(s) && Stranded(s, m)
    ensures Unmoved(s, Next(s, t), m)
  {
    match t
    case Theirs(o) => OutsideUnmoved(s, o, m);
    case Ours(c) =>
      if Try(s, c).Ok? {
        match c
        case DoExecute(user, treasury, p, signed, at) => ExecuteUnmoved(s, user, treasury, p, signed, at, m);
        case DoList(seller, mint, askPrice, at) => ListUnmoved(s, seller, mint, askPrice, at, m);
        case DoCancel(seller, mint) => CancelUnmoved(s, seller, mint, m);
        case DoFill(buyer, seller, feeRecipient, mint, at) => FillUnmoved(s, buyer, seller, feeRecipient, mint, at, m);
      }
  }

  lemma StrandedStays(s: State, s': State, m: Address)
    requires Stranded(s, m) && Unmoved(s, s', m)
    ensures Stranded(s', m)
  {
  }

  /** A stranded ticket stays stranded: in every later history nobody can list it, so it is never sold again. */
  lemma {:induction false} StrandedForever(s: State, ts: seq<Transaction>, m: Address)
    requires Safe(s) && Stranded(s, m)
    ensures Stranded(History(s, ts), m)
    ensures forall seller: Address, ask: u64, now: i64 :: ListTicket(History(s, ts), seller, m, ask, now).Err?
  {
    SafeHistory(s, ts);
    if ts != [] {
      SafeHistory(s, ts[..|ts| - 1]);
      StrandedForever(s, ts[..|ts| - 1], m);
      NextUnmoved(History(s, ts[..|ts| - 1]), ts[|ts| - 1], m);
      StrandedStays(History(s, ts[..|ts| - 1]), History(s, ts), m);
    }
    forall seller: Address, ask: u64, now: i64
      ensures ListTicket(History(s, ts), seller, m, ask, now).Err?
    {
      HolderCanList(History(s, ts), m, seller, ask, now);
    }
  }

  /** The holder of an unlisted ticket, who has it in the account the program opened. */
  ghost predicate HasTicket(s: State, m: Address, holder: Address) {
    && holder.Wallet? && TokenOf(s, TokenPda(m, holder), m, holder, 1)
    && ReceiptPda(m) in s.data && s.data[ReceiptPda(m)].ReceiptData? && !s.data[ReceiptPda(m)].receipt.listed
    && s.data[ReceiptPda(m)].receipt.currentHolder == holder
  }

  /** Opening another account and moving the ticket there. */
  function MoveAway(m: Address, holder: Address, at: Bytes32): seq<Transaction> {
    [Theirs(OpenToken(holder, at, m, holder)), Theirs(SendToken(holder, TokenPda(m, holder), Outer(at), 1))]
  }

  lemma TwoTransactions(s: State, t: Transaction, u: Transaction)
    ensures History(s, [t]) == Next(s, t) && History(s, [t, u]) == Next(Next(s, t), u)
  {
    assert [t, u][..1] == [t] && [t][..0] == [];
  }

  /** What a holder who moves the ticket away does to it, and what closing the emptied account then does. */
  lemma MovingAway(s: State, m: Address, holder: Address, at: Bytes32)
    requires Safe(s) && HasTicket(s, m, holder) && Outer(at) !in s.data && s.Balance(holder) >= Due(s, Outer(at), TOKEN_SPACE)
    ensures var s' := History(s, MoveAway(m, holder, at));
            && Safe(s') && IsMint(s', m) && SameAt(s, s', ReceiptPda(m))
            && TokenOf(s', TokenPda(m, holder), m, holder, 0) && Held(s', Outer(at), m) == 1
            && Stranded(Next(s', Theirs(CloseEmpty(holder, TokenPda(m, holder), holder))), m)
  {
    assert Shape(s, TokenPda(m, holder)) && Shape(s, m);
    SafeHistory(s, MoveAway(m, holder, at));
    TwoTransactions(s, MoveAway(m, holder, at)[0], MoveAway(m, holder, at)[1]);
    InitExactly(s, holder, Outer(at), TOKEN_SPACE, Token(m, holder, 0));
    var s1 := AnchorInit(s, holder, Outer(at), TOKEN_SPACE, Token(m, holder, 0)).value;
    assert Next(s, MoveAway(m, holder, at)[0]) == s1;
  }

  // ----- A history that gets there -----

  const Zeros: Bytes32 := seq(32, _ => 0)
  const Ones: Bytes32 := seq(32, _ => 1)

  /** One lamport at flat demand, for the wallet of key zero, valid until time one. */
  const Sample: ShieldPayload := ShieldPayload(0, Zeros, 1, 0, 0, 0, 0, 0, 0, Zeros, Zeros, 1, 0)

  const SampleStart: State :=
    State(map[Wallet(Zeros) := 10_000], map[GlobalConfig := Global(Wallet(Ones)), AdminConfig := Admin(Wallet(Ones), Zeros, Zeros)], 1)

  const SampleMint: Call := DoExecute(Wallet(Zeros), Wallet(Ones), Sample, true, 0)

  lemma SampleAdmitted()
    ensures Fresh(SampleStart) && Safe(SampleStart)
    ensures C.Admitted(SampleStart, Wallet(Zeros), Wallet(Ones), Sample, true, 0)
  {
    HistorySafe(SampleStart, []);
    assert History(SampleStart, []) == SampleStart;
  }

  lemma SampleQuote()
    ensures QuoteOf(Sample).Ok? && !QuoteOf(Sample).value.blocked && QuoteOf(Sample).value.finalPrice == 1
  {
    CoolingQuoteIsFinite(QuoteInput(1, 0, 0, 0));
  }

  lemma NewHolderHasTicket(s: State, s': State, user: Address, treasury: Address, p: ShieldPayload, price: u64, now: i64)
    requires C.Executed(s, s', user, treasury, p, price, now) && user.Wallet? && user != treasury
    ensures HasTicket(s', MintOf(p), user)
    ensures s'.rentRate == s.rentRate && s'.Balance(user) == s.Balance(user) - C.MintingRent(s) - price
    ensures forall key :: Outer(key) in s'.data ==> Outer(key) in s.data
  {
  }

  lemma SampleCanMint()
    ensures C.CanMint(SampleStart, Wallet(Zeros), Sample)
    ensures C.MintingRent(SampleStart) == 1066
  {
    SampleQuote();
  }

  lemma SampleMints()
    ensures Try(SampleStart, SampleMint).Ok?
    ensures var s := Step(SampleStart, SampleMint);
            && HasTicket(s, MintOf(Sample), Wallet(Zeros))
            && Outer(Zeros) !in s.data && s.Balance(Wallet(Zeros)) >= Due(s, Outer(Zeros), TOKEN_SPACE)
  {
    SampleAdmitted();
    SampleQuote();
    SampleCanMint();
    C.ExecuteExactly(SampleStart, Wallet(Zeros), Wallet(Ones), Sample, true, 0);
    var s := ExecuteShield(SampleStart, Wallet(Zeros), Wallet(Ones), Sample, true, 0).value;
    assert Wallet(Zeros) != Wallet(Ones) by { assert Zeros[0] != Ones[0]; }
    NewHolderHasTicket(SampleStart, s, Wallet(Zeros), Wallet(Ones), Sample, 1, 0);
  }

  /** From a fresh start a history leads to a ticket in the wrong account, and one more transaction strands it. */
  lemma MovedTicketsExist() returns (start: State, ts: seq<Transaction>, close: Transaction, m: Address, holder: Address)
    ensures Fresh(start)
    ensures var s := History(start, ts);
            && IsMint(s, m) && ReceiptPda(m) in s.data && s.data[ReceiptPda(m)].ReceiptData?
            && s.data[ReceiptPda(m)].receipt.currentHolder == holder && Held(s, TokenPda(m, holder), m) == 0
    ensures Stranded(Next(History(start, ts), close), m)
  {
    start, m, holder := SampleStart, MintOf(Sample), Wallet(Zeros);
    SampleAdmitted();
    SampleMints();
    var s := Step(SampleStart, SampleMint);
    NextSafe(SampleStart, Ours(SampleMint));
    MovingAway(s, m, holder, Zeros);
    ts := [Ours(SampleMint)] + MoveAway(m, holder, Zeros);
    close := Theirs(CloseEmpty(holder, TokenPda(m, holder), holder));
    ThreeTransactions(start, Ours(SampleMint), MoveAway(m, holder, Zeros)[0], MoveAway(m, holder, Zeros)[1]);
  }

  lemma ThreeTransactions(s: State, t: Transaction, u: Transaction, v: Transaction)
    ensures History(s, [t] + [u, v]) == History(Next(s, t), [u, v])
  {
    TwoTransactions(s, t, u);
    TwoTransactions(Next(s, t), u, v);
    assert ([t] + [u, v])[..2] == [t, u];
  }
}
