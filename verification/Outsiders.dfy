/** The ticket program among other programs: between its instructions, anyone may send lamports anywhere, open token
    accounts, and do with the tokens they own whatever the SPL Token program allows. What survives all of that. */
module Outsiders {
  import opened Outcomes
  import opened Widths
  import opened ShieldPayloads
  import opened Ledger
  import opened Tickets
  import opened Instructions
  import C = Custody
  import Conservation

  /** A transaction that does not go through the ticket program, signed by a wallet. */
  datatype Outside =
    | SendLamports(from: Address, to: Address, amount: nat)
    | OpenToken(payer: Address, at: Bytes32, mint: Address, owner: Address)
    | SendToken(owner: Address, from: Address, to: Address, amount: nat)
    | CloseEmpty(owner: Address, account: Address, to: Address)
    | Reassign(owner: Address, account: Address, newOwner: Address)
    | Burn(owner: Address, account: Address, amount: nat)

  function Owned(s: State, account: Address, owner: Address): bool {
    owner.Wallet? && account in s.data && s.data[account].Token? && s.data[account].owner == owner
  }

  /** A rejected transaction changes nothing. */
  function Apply(s: State, o: Outside): State {
    match o
    case SendLamports(from, to, amount) =>
      if from.Wallet? && s.Balance(from) >= amount then Move(s, from, to, amount) else s
    case OpenToken(payer, at, mint, owner) =>
      if payer.Wallet? && mint in s.data && s.data[mint].Mint? then
        (match AnchorInit(s, payer, Outer(at), TOKEN_SPACE, Token(mint, owner, 0)) case Ok(s') => s' case Err(_) => s)
      else s
    case SendToken(owner, from, to, amount) =>
      if Owned(s, from, owner) then (match TransferToken(s, from, to, owner, amount) case Ok(s') => s' case Err(_) => s) else s
    case CloseEmpty(owner, account, to) =>
      if Owned(s, account, owner) && to != account then (match CloseToken(s, account, to, owner) case Ok(s') => s' case Err(_) => s)
      else s
    case Reassign(owner, account, newOwner) =>
      if Owned(s, account, owner) then s.(data := s.data[account := s.data[account].(owner := newOwner)]) else s
    case Burn(owner, account, amount) =>
      if !Owned(s, account, owner) || s.data[account].amount < amount then s
      else
        var mint := s.data[account].mint;
        if !(mint in s.data && s.data[mint].Mint? && s.data[mint].supply >= amount) then s
        else
          s.(data := s.data[account := s.data[account].(amount := s.data[account].amount - amount)]
                           [mint := s.data[mint].(supply := s.data[mint].supply - amount)])
  }

  datatype Transaction = Ours(call: Call) | Theirs(outside: Outside)

  function Next(s: State, t: Transaction): State {
    match t
    case Ours(c) => Step(s, c)
    case Theirs(o) => Apply(s, o)
  }

  function History(s: State, ts: seq<Transaction>): State {
    if ts == [] then s else Next(History(s, ts[..|ts| - 1]), ts[|ts| - 1])
  }

  // ----- The invariant -----

  /** What may be stored at each kind of address. */
  ghost predicate Shape(s: State, a: Address)
    requires a in s.data
  {
    var d := s.data[a];
    match a
    case Wallet(_) => false
    case Outer(_) => d.Token? && IsMint(s, d.mint)
    case GlobalConfig => d.Global? && d.authority.Wallet?
    case AdminConfig => d.Admin?
    case MintAuthority => false
    case ProofUsePda(_, _, _) => d.ProofUse?
    case MintPda(_, _, _) => d.Mint? && d.mintAuthority == None && d.freezeAuthority == None && d.supply <= 1
    case TokenPda(m, _) => d.Token? && d.mint == m && IsMint(s, m)
    case ReceiptPda(m) => d.ReceiptData? && d.receipt.mint == m && d.receipt.currentHolder.Wallet?
    case ListingPda(m) => d.Listing? && d.mint == m
    case EscrowPda(m) => d.Token? && d.mint == m && d.owner == ListingPda(m) && IsMint(s, m)
  }

  ghost predicate IsMint(s: State, m: Address) {
    m in s.data && m.MintPda?
  }

  /** What an account holds of a ticket. */
  ghost function Held(s: State, a: Address, m: Address): nat {
    if a in s.data && s.data[a].Token? && s.data[a].mint == m then s.data[a].amount else 0
  }

  /** No two accounts hold the ticket, and none holds it twice. */
  ghost predicate OneHolder(s: State, m: Address) {
    && (forall a :: Held(s, a, m) <= 1)
    && (forall a, b :: a != b && Held(s, a, m) > 0 ==> Held(s, b, m) == 0)
  }

  ghost predicate IsListed(s: State, m: Address) {
    ReceiptPda(m) in s.data && s.data[ReceiptPda(m)].ReceiptData? && s.data[ReceiptPda(m)].receipt.listed
  }

  /** Listing, escrow and flag agree; a listed ticket is in escrow for the holder on the receipt; and the only account the
      program keeps open for a ticket is the holder's while it is not listed. */
  ghost predicate InCustody(s: State, m: Address) {
    && (IsListed(s, m) <==> ListingPda(m) in s.data)
    && (IsListed(s, m) <==> EscrowPda(m) in s.data)
    && (IsListed(s, m) ==>
          && s.data[ListingPda(m)].Listing?
          && s.data[ListingPda(m)].seller == s.data[ReceiptPda(m)].receipt.currentHolder && s.data[ListingPda(m)].askPrice > 0
          && Held(s, EscrowPda(m), m) == 1)
    && (forall o :: TokenPda(m, o) in s.data ==> IsUnlistedHolder(s, m, o))
  }

  ghost predicate IsUnlistedHolder(s: State, m: Address, o: Address) {
    && ReceiptPda(m) in s.data && s.data[ReceiptPda(m)].ReceiptData?
    && !s.data[ReceiptPda(m)].receipt.listed && s.data[ReceiptPda(m)].receipt.currentHolder == o
  }

  /** Mint, proof record and receipt exist together. */
  ghost predicate Recorded(s: State, m: Address) {
    && (ReceiptPda(m) in s.data ==> m.MintPda?)
    && (m.MintPda? ==> (m in s.data <==> ReceiptPda(m) in s.data)
                       && (m in s.data <==> ProofUsePda(m.user, m.hash, m.nonce) in s.data))
  }

  ghost predicate Safe(s: State) {
    && GlobalConfig in s.data && AdminConfig in s.data
    && (forall a :: a in s.data ==> Shape(s, a))
    && (forall m :: Recorded(s, m) && InCustody(s, m) && OneHolder(s, m))
  }

  // ----- Frames -----

  /** A step keeps a ticket's records, and at most closes token accounts of it. */
  ghost predicate SameRecords(s: State, s': State, m: Address) {
    && (m.MintPda? ==> (m in s'.data <==> m in s.data)
                       && (ProofUsePda(m.user, m.hash, m.nonce) in s'.data <==> ProofUsePda(m.user, m.hash, m.nonce) in s.data))
    && SameAt(s, s', ReceiptPda(m)) && SameAt(s, s', ListingPda(m))
    && (EscrowPda(m) in s'.data <==> EscrowPda(m) in s.data)
    && (forall o :: TokenPda(m, o) in s'.data ==> TokenPda(m, o) in s.data)
  }

  ghost predicate SameAt(s: State, s': State, a: Address) {
    (a in s'.data <==> a in s.data) && (a in s.data ==> s'.data[a] == s.data[a])
  }

  ghost predicate SameHoldings(s: State, s': State, m: Address) {
    forall a :: Held(s', a, m) == Held(s, a, m)
  }

  lemma FrameTicket(s: State, s': State, m: Address)
    requires SameRecords(s, s', m) && OneHolder(s', m)
    requires IsListed(s, m) ==> Held(s', EscrowPda(m), m) == Held(s, EscrowPda(m), m)
    requires Recorded(s, m) && InCustody(s, m)
    ensures Recorded(s', m) && InCustody(s', m)
  {
  }

  /** Accounts that stay keep their shape while no mint disappears. */
  lemma FrameShape(s: State, s': State, a: Address)
    requires a in s.data && Shape(s, a) && SameAt(s, s', a) && forall m :: IsMint(s, m) ==> IsMint(s', m)
    ensures Shape(s', a)
  {
  }

  // ----- Outside transactions -----

  /** What a transaction on the tokens of mint m leaves alone. */
  ghost predicate OnlyTokens(s: State, s': State, m: Address) {
    && (forall n :: SameRecords(s, s', n))
    && (forall n :: n != m ==> SameHoldings(s, s', n))
    && (IsListed(s, m) ==> Held(s', EscrowPda(m), m) == Held(s, EscrowPda(m), m))
    && OneHolder(s', m)
    && SameAt(s, s', GlobalConfig) && SameAt(s, s', AdminConfig)
    && (forall a :: a in s'.data ==> Shape(s', a))
  }

  lemma TokensSafe(s: State, s': State, m: Address)
    requires Safe(s) && OnlyTokens(s, s', m)
    ensures Safe(s')
  {
    forall n
      ensures Recorded(s', n) && InCustody(s', n) && OneHolder(s', n)
    {
      assert Recorded(s, n) && InCustody(s, n) && OneHolder(s, n) && SameRecords(s, s', n);
      if n != m { assert SameHoldings(s, s', n); }
      FrameTicket(s, s', n);
    }
  }

  lemma ShapesAfter(s: State, s': State, changed: set<Address>)
    requires Safe(s)
    requires forall a :: a !in changed ==> SameAt(s, s', a)
    requires forall m :: IsMint(s, m) ==> IsMint(s', m)
    requires forall a :: a in changed && a in s'.data ==> Shape(s', a)
    ensures forall a :: a in s'.data ==> Shape(s', a)
  {
    forall a | a in s'.data
      ensures Shape(s', a)
    {
      if a !in changed { FrameShape(s, s', a); }
    }
  }

  lemma MintOfToken(s: State, x: Address)
    requires Safe(s) && x in s.data && s.data[x].Token?
    ensures IsMint(s, s.data[x].mint) && (x.Outer? || x.TokenPda? || x.EscrowPda?)
    ensures x.EscrowPda? ==> !s.data[x].owner.Wallet?
  {
    assert Shape(s, x);
  }

  ghost predicate Moved(s: State, s': State, m: Address, from: Address, to: Address, amount: nat) {
    forall a :: Held(s', a, m) == Held(s, a, m) - (if a == from then amount else 0) + (if a == to then amount else 0)
  }

  /** Whoever holds the ticket, moving it leaves one holder, and nothing moves from or to anyone but the holder. */
  lemma OneHolderAfterMove(s: State, s': State, m: Address, from: Address, to: Address, amount: nat)
    requires OneHolder(s, m) && amount <= Held(s, from, m) && Moved(s, s', m, from, to, amount)
    ensures OneHolder(s', m)
    ensures forall x :: x != from && Held(s, x, m) == 1 ==> Held(s', x, m) == 1
  {
    assert Held(s, from, m) <= 1;
    if amount == 1 {
      assert forall a :: a != from ==> Held(s, a, m) == 0;
    }
  }

  lemma SendMoves(s: State, owner: Address, from: Address, to: Address, amount: nat)
    requires Safe(s) && Owned(s, from, owner) && TransferToken(s, from, to, owner, amount).Ok?
    ensures var (s', m) := (TransferToken(s, from, to, owner, amount).value, s.data[from].mint);
            && IsMint(s, m) && !from.EscrowPda? && amount <= Held(s, from, m)
            && Moved(s, s', m, from, to, amount)
            && (forall n :: n != m ==> SameHoldings(s, s', n))
            && (forall a :: a != from && a != to ==> SameAt(s, s', a))
            && from in s'.data && to in s'.data && Shape(s', from) && Shape(s', to)
            && (forall n :: SameRecords(s, s', n))
  {
    MintOfToken(s, from);
    MintOfToken(s, to);
    assert Shape(s, from) && Shape(s, to);
  }

  lemma SendSafe(s: State, owner: Address, from: Address, to: Address, amount: nat)
    requires Safe(s) && Owned(s, from, owner) && TransferToken(s, from, to, owner, amount).Ok?
    ensures Safe(TransferToken(s, from, to, owner, amount).value)
  {
    var s', m := TransferToken(s, from, to, owner, amount).value, s.data[from].mint;
    SendMoves(s, owner, from, to, amount);
    assert OneHolder(s, m) && InCustody(s, m);
    OneHolderAfterMove(s, s', m, from, to, amount);
    ShapesAfter(s, s', {from, to});
    TokensSafe(s, s', m);
  }

  /** A change that moves no ticket. */
  lemma NothingMovedSafe(s: State, s': State)
    requires Safe(s)
    requires forall n :: SameRecords(s, s', n) && SameHoldings(s, s', n)
    requires SameAt(s, s', GlobalConfig) && SameAt(s, s', AdminConfig)
    requires forall a :: a in s'.data ==> Shape(s', a)
    ensures Safe(s')
  {
    var m := GlobalConfig;
    assert OneHolder(s, m) && SameHoldings(s, s', m);
    assert OneHolder(s', m);
    TokensSafe(s, s', m);
  }

  lemma OpenSafe(s: State, payer: Address, at: Bytes32, mint: Address, owner: Address)
    requires Safe(s) && mint in s.data && s.data[mint].Mint?
    requires AnchorInit(s, payer, Outer(at), TOKEN_SPACE, Token(mint, owner, 0)).Ok?
    ensures Safe(AnchorInit(s, payer, Outer(at), TOKEN_SPACE, Token(mint, owner, 0)).value)
  {
    var s' := AnchorInit(s, payer, Outer(at), TOKEN_SPACE, Token(mint, owner, 0)).value;
    assert Shape(s, mint);
    assert forall n :: SameHoldings(s, s', n);
    ShapesAfter(s, s', {Outer(at)});
    NothingMovedSafe(s, s');
  }

  lemma CloseSafe(s: State, owner: Address, account: Address, to: Address)
    requires Safe(s) && Owned(s, account, owner) && CloseToken(s, account, to, owner).Ok?
    ensures Safe(CloseToken(s, account, to, owner).value)
  {
    var s' := CloseToken(s, account, to, owner).value;
    MintOfToken(s, account);
    assert s'.data == s.data - {account};
    assert forall n :: SameHoldings(s, s', n);
    ShapesAfter(s, s', {account});
    NothingMovedSafe(s, s');
  }

  lemma ReassignSafe(s: State, owner: Address, account: Address, newOwner: Address)
    requires Safe(s) && Owned(s, account, owner)
    ensures Safe(Apply(s, Reassign(owner, account, newOwner)))
  {
    var s' := Apply(s, Reassign(owner, account, newOwner));
    MintOfToken(s, account);
    assert Shape(s, account);
    assert forall n :: SameHoldings(s, s', n);
    ShapesAfter(s, s', {account});
    NothingMovedSafe(s, s');
  }

  lemma OneHolderWithLess(s: State, s': State, m: Address)
    requires OneHolder(s, m) && forall a :: Held(s', a, m) <= Held(s, a, m)
    ensures OneHolder(s', m)
  {
  }

  lemma BurnMoves(s: State, owner: Address, account: Address, amount: nat)
    requires Safe(s) && Apply(s, Burn(owner, account, amount)) != s
    ensures var s' := Apply(s, Burn(owner, account, amount));
            && account in s.data && s.data[account].Token? && !account.EscrowPda?
            && var m := s.data[account].mint;
            && (forall n :: n != m ==> SameHoldings(s, s', n))
            && (forall a :: Held(s', a, m) <= Held(s, a, m)) && Held(s', EscrowPda(m), m) == Held(s, EscrowPda(m), m)
            && (forall a :: a != account && a != m ==> SameAt(s, s', a))
            && (forall n :: IsMint(s, n) ==> IsMint(s', n))
            && Shape(s', account) && IsMint(s', m) && Shape(s', m)
            && (forall n :: SameRecords(s, s', n))
  {
    MintOfToken(s, account);
    assert Shape(s, account) && Shape(s, s.data[account].mint);
  }

  lemma BurnSafe(s: State, owner: Address, account: Address, amount: nat)
    requires Safe(s) && Apply(s, Burn(owner, account, amount)) != s
    ensures Safe(Apply(s, Burn(owner, account, amount)))
  {
    var s', m := Apply(s, Burn(owner, account, amount)), s.data[account].mint;
    BurnMoves(s, owner, account, amount);
    assert OneHolder(s, m) && InCustody(s, m);
    OneHolderWithLess(s, s', m);
    ShapesAfter(s, s', {account, m});
    TokensSafe(s, s', m);
  }

  lemma SameDataSafe(s: State, s': State)
    requires Safe(s) && s'.data == s.data
    ensures Safe(s')
  {
    assert forall n :: SameHoldings(s, s', n);
    ShapesAfter(s, s', {});
    NothingMovedSafe(s, s');
  }

  /** No outside transaction breaks the invariant. */
  lemma OutsideSafe(s: State, o: Outside)
    requires Safe(s)
    ensures Safe(Apply(s, o))
  {
    var s' := Apply(s, o);
    if s' != s {
      match o
      case SendLamports(from, to, amount) => SameDataSafe(s, s');
      case OpenToken(payer, at, mint, owner) => OpenSafe(s, payer, at, mint, owner);
      case SendToken(owner, from, to, amount) => SendSafe(s, owner, from, to, amount);
      case CloseEmpty(owner, account, to) => CloseSafe(s, owner, account, to);
      case Reassign(owner, account, newOwner) => ReassignSafe(s, owner, account, newOwner);
      case Burn(owner, account, amount) => BurnSafe(s, owner, account, amount);
    }
  }

  // ----- The instructions, in any safe state -----

  ghost predicate SoleHolder(s: State, m: Address, x: Address) {
    forall a :: Held(s, a, m) == if a == x then 1 else 0
  }

  lemma HolderIsSole(s: State, m: Address, x: Address)
    requires OneHolder(s, m) && Held(s, x, m) == 1
    ensures SoleHolder(s, m, x)
  {
  }

  /** Accounts of one ticket hold nothing of another. */
  lemma OtherTicketsHold(s: State, a: Address, m: Address, n: Address)
    requires a in s.data ==> Shape(s, a)
    requires C.TicketOf(a) == Some(m) && n != m
    ensures Held(s, a, n) == 0
  {
  }

  /** An instruction that changes accounts of one ticket only and leaves that ticket in order. */
  lemma InstructionSafe(s: State, s': State, m: Address, holder: Address, changed: set<Address>)
    requires Safe(s)
    requires forall a :: a in changed ==> C.TicketOf(a) == Some(m)
    requires forall a :: a !in changed ==> SameAt(s, s', a)
    requires m in s'.data
    requires forall a :: a in changed && a in s'.data ==> Shape(s', a)
    requires Recorded(s', m) && InCustody(s', m) && SoleHolder(s', m, holder)
    ensures Safe(s')
  {
    assert C.TicketOf(GlobalConfig) == C.TicketOf(AdminConfig) == None;
    assert forall n :: IsMint(s, n) && n != m ==> n !in changed;
    ShapesAfter(s, s', changed);
    forall n
      ensures Recorded(s', n) && InCustody(s', n) && OneHolder(s', n)
    {
      assert Recorded(s, n) && InCustody(s, n) && OneHolder(s, n);
      if n != m {
        OtherTicketFrame(s, s', m, n, changed);
        FrameTicket(s, s', n);
      }
    }
  }

  lemma OtherTicketFrame(s: State, s': State, m: Address, n: Address, changed: set<Address>)
    requires n != m && OneHolder(s, n)
    requires forall a :: a in s.data ==> Shape(s, a)
    requires forall a :: a in s'.data ==> Shape(s', a)
    requires forall a :: a in changed ==> C.TicketOf(a) == Some(m)
    requires forall a :: a !in changed ==> SameAt(s, s', a)
    ensures SameRecords(s, s', n) && SameHoldings(s, s', n) && OneHolder(s', n)
  {
    assert C.TicketOf(ReceiptPda(n)) == C.TicketOf(ListingPda(n)) == C.TicketOf(EscrowPda(n)) == Some(n);
    assert forall o :: C.TicketOf(TokenPda(n, o)) == Some(n);
    if n.MintPda? { assert C.TicketOf(n) == C.TicketOf(ProofUsePda(n.user, n.hash, n.nonce)) == Some(n); }
    forall a
      ensures Held(s', a, n) == Held(s, a, n)
    {
      if a in changed {
        OtherTicketsHold(s, a, m, n);
        OtherTicketsHold(s', a, m, n);
      }
    }
  }

  lemma ListSafe(s: State, seller: Address, m: Address, askPrice: u64, now: i64)
    requires Safe(s) && ListTicket(s, seller, m, askPrice, now).Ok?
    ensures Safe(ListTicket(s, seller, m, askPrice, now).value)
  {
    ListData(s, seller, m, askPrice, now);
    EscrowedSafe(s, ListTicket(s, seller, m, askPrice, now).value, seller, m, askPrice, now);
  }

  /** The data after a listing. */
  lemma EscrowedSafe(s: State, s': State, seller: Address, m: Address, askPrice: u64, now: i64)
    requires Safe(s) && SellerOk(s, m, seller) && askPrice > 0
    requires ListingPda(m) !in s.data && EscrowPda(m) !in s.data && TokenOf(s, TokenPda(m, seller), m, seller, 1)
    requires s'.data == (s.data[ListingPda(m) := Listing(seller, m, askPrice, now)]
                               [EscrowPda(m) := Token(m, ListingPda(m), 1)] - {TokenPda(m, seller)})
                        [ReceiptPda(m) := ReceiptData(s.data[ReceiptPda(m)].receipt.(listed := true))]
    ensures Safe(s')
  {
    assert Recorded(s, m) && OneHolder(s, m) && Shape(s, m) && Shape(s, ReceiptPda(m));
    HolderIsSole(s, m, TokenPda(m, seller));
    assert SoleHolder(s', m, EscrowPda(m)) by {
      forall a
        ensures Held(s', a, m) == if a == EscrowPda(m) then 1 else 0
      {
        assert Held(s, a, m) == if a == TokenPda(m, seller) then 1 else 0;
      }
    }
    InstructionSafe(s, s', m, EscrowPda(m), {ListingPda(m), EscrowPda(m), TokenPda(m, seller), ReceiptPda(m)});
  }

  /** The data after a listing has ended, by a cancel or a sale. */
  lemma ReleasedSafe(s: State, s': State, owner: Address, m: Address, receipt: Receipt)
    requires Safe(s) && owner.Wallet? && TokenPda(m, owner) !in s.data && IsListed(s, m) && m in s.data
    requires receipt.mint == m && receipt.currentHolder == owner && !receipt.listed
    requires s'.data == (s.data[TokenPda(m, owner) := Token(m, owner, 1)] - {EscrowPda(m), ListingPda(m)})
                        [ReceiptPda(m) := ReceiptData(receipt)]
    ensures Safe(s')
  {
    assert Recorded(s, m) && InCustody(s, m) && OneHolder(s, m) && Shape(s, m) && Shape(s, ReceiptPda(m));
    HolderIsSole(s, m, EscrowPda(m));
    assert SoleHolder(s', m, TokenPda(m, owner)) by {
      forall a
        ensures Held(s', a, m) == if a == TokenPda(m, owner) then 1 else 0
      {
        assert Held(s, a, m) == if a == EscrowPda(m) then 1 else 0;
      }
    }
    InstructionSafe(s, s', m, TokenPda(m, owner), {ListingPda(m), EscrowPda(m), TokenPda(m, owner), ReceiptPda(m)});
  }

  lemma CancelSafe(s: State, seller: Address, m: Address)
    requires Safe(s) && CancelTicketListing(s, seller, m).Ok?
    ensures Safe(CancelTicketListing(s, seller, m).value)
  {
    CancelData(s, seller, m);
    ReleasedSafe(s, CancelTicketListing(s, seller, m).value, seller, m, s.data[ReceiptPda(m)].receipt.(listed := false));
  }

  lemma FillSafe(s: State, buyer: Address, seller: Address, feeRecipient: Address, m: Address, now: i64)
    requires Safe(s) && FillTicketListing(s, buyer, seller, feeRecipient, m, now).Ok?
    ensures Safe(FillTicketListing(s, buyer, seller, feeRecipient, m, now).value)
  {
    FillData(s, buyer, seller, feeRecipient, m, now);
    ReleasedSafe(s, FillTicketListing(s, buyer, seller, feeRecipient, m, now).value, buyer, m,
                 Sold(s.data[ReceiptPda(m)].receipt, buyer, s.data[ListingPda(m)].askPrice, now));
  }

  lemma NobodyHoldsUnminted(s: State, m: Address)
    requires Safe(s) && m !in s.data
    ensures forall a :: Held(s, a, m) == 0
  {
    forall a
      ensures Held(s, a, m) == 0
    {
      if a in s.data { assert Shape(s, a); }
    }
  }

  lemma TicketedSafe(s: State, s': State, user: Address, p: ShieldPayload, price: u64, now: i64)
    requires Safe(s) && NoAccounts(s, p, user) && user.Wallet? && s'.data == Ticketed(s.data, user, p, price, now)
    ensures Safe(s')
  {
    var m := MintOf(p);
    assert Recorded(s, m) && InCustody(s, m);
    NobodyHoldsUnminted(s, m);
    assert SoleHolder(s', m, TokenPda(m, user)) by {
      forall a
        ensures Held(s', a, m) == if a == TokenPda(m, user) then 1 else 0
      {
        assert Held(s, a, m) == 0;
      }
    }
    InstructionSafe(s, s', m, TokenPda(m, user), {ProofOf(p), m, TokenPda(m, user), ReceiptPda(m)});
  }

  lemma ExecuteSafe(s: State, user: Address, treasury: Address, p: ShieldPayload, signed: bool, now: i64)
    requires Safe(s) && ExecuteShield(s, user, treasury, p, signed, now).Ok?
    ensures Safe(ExecuteShield(s, user, treasury, p, signed, now).value)
  {
    ExecuteData(s, user, treasury, p, signed, now);
    TicketedSafe(s, ExecuteShield(s, user, treasury, p, signed, now).value, user, p, QuoteOf(p).value.finalPrice, now);
  }

  // ----- Every history -----

  lemma NextSafe(s: State, t: Transaction)
    requires Safe(s)
    ensures Safe(Next(s, t))
  {
    match t
    case Theirs(o) => OutsideSafe(s, o);
    case Ours(c) =>
      if Try(s, c).Ok? {
        match c
        case DoExecute(user, treasury, p, signed, at) => ExecuteSafe(s, user, treasury, p, signed, at);
        case DoList(seller, mint, askPrice, at) => ListSafe(s, seller, mint, askPrice, at);
        case DoCancel(seller, mint) => CancelSafe(s, seller, mint);
        case DoFill(buyer, seller, feeRecipient, mint, at) => FillSafe(s, buyer, seller, feeRecipient, mint, at);
      }
  }

  /** The state after initialisation: the two configuration accounts and no other data; any balances at all. */
  ghost predicate Fresh(s: State) {
    && GlobalConfig in s.data && s.data[GlobalConfig].Global? && s.data[GlobalConfig].authority.Wallet?
    && AdminConfig in s.data && s.data[AdminConfig].Admin?
    && s.data.Keys == {GlobalConfig, AdminConfig}
  }

  lemma {:induction false} HistorySafe(start: State, ts: seq<Transaction>)
    requires Fresh(start)
    ensures Safe(History(start, ts))
  {
    if ts != [] {
      HistorySafe(start, ts[..|ts| - 1]);
      NextSafe(History(start, ts[..|ts| - 1]), ts[|ts| - 1]);
    }
  }

  /** Whatever outsiders do in between, a ticket exists at most once; a listed ticket is in escrow, for the holder on its
      receipt, at a positive price; and an unlisted one has neither listing nor escrow. */
  lemma EscrowHolds(start: State, ts: seq<Transaction>, m: Address)
    requires Fresh(start)
    ensures var s := History(start, ts);
            && (forall a, b :: a != b && Held(s, a, m) > 0 ==> Held(s, a, m) == 1 && Held(s, b, m) == 0)
            && (IsListed(s, m) <==> ListingPda(m) in s.data) && (IsListed(s, m) <==> EscrowPda(m) in s.data)
            && (IsListed(s, m) ==>
                  && s.data[EscrowPda(m)] == Token(m, ListingPda(m), 1)
                  && s.data[ListingPda(m)].Listing? && s.data[ListingPda(m)].askPrice > 0
                  && s.data[ListingPda(m)].seller == s.data[ReceiptPda(m)].receipt.currentHolder)
  {
    HistorySafe(start, ts);
    var s := History(start, ts);
    assert InCustody(s, m) && OneHolder(s, m);
    if IsListed(s, m) { assert Shape(s, EscrowPda(m)); }
  }

  // ----- What still works -----

  /** What it costs to open an account at an address that may have been sent lamports before. */
  function Due(s: State, a: Address, space: nat): nat {
    if s.Balance(a) < s.Rent(space) then s.Rent(space) - s.Balance(a) else 0
  }

  lemma InitExactly(s: State, payer: Address, a: Address, space: nat, data: AccountData)
    ensures var r := AnchorInit(s, payer, a, space, data);
            && (r.Ok? <==> a !in s.data && s.Balance(payer) >= Due(s, a, space))
            && (r.Ok? ==>
                  && r.value.data == s.data[a := data] && r.value.rentRate == s.rentRate
                  && forall x :: x != a ==> r.value.Balance(x) == s.Balance(x) - (if x == payer then Due(s, a, space) else 0))
  {
  }

  lemma ReleaseGoes(s: State, m: Address, token: Address, seller: Address)
    requires token in s.data && s.data[token].Token? && s.data[token].mint == m && token != EscrowPda(m)
    requires EscrowPda(m) in s.data && s.data[EscrowPda(m)] == Token(m, ListingPda(m), 1)
    ensures ReleaseEscrow(s, m, token, seller).Ok?
  {
  }

  lemma ListedChecks(s: State, m: Address)
    requires Safe(s) && IsListed(s, m)
    ensures var holder := s.data[ReceiptPda(m)].receipt.currentHolder;
            && holder.Wallet? && ListingOk(s, m, holder) && TokenPda(m, holder) !in s.data
            && s.data[EscrowPda(m)] == Token(m, ListingPda(m), 1)
  {
    assert Recorded(s, m) && InCustody(s, m);
    assert Shape(s, ReceiptPda(m)) && Shape(s, EscrowPda(m)) && Shape(s, ListingPda(m)) && Shape(s, m);
    ListedAccountsAreClosed(s, m, s.data[ReceiptPda(m)].receipt.currentHolder);
  }

  /** The holder of a listed ticket can always cancel: no outsider can do more than send lamports its way. */
  lemma HolderCanCancel(s: State, m: Address)
    requires Safe(s) && IsListed(s, m)
    ensures var holder := s.data[ReceiptPda(m)].receipt.currentHolder;
            CancelTicketListing(s, holder, m).Ok? <==> s.Balance(holder) >= Due(s, TokenPda(m, holder), TOKEN_SPACE)
  {
    var holder := s.data[ReceiptPda(m)].receipt.currentHolder;
    ListedChecks(s, m);
    var blank := Token(m, holder, 0);
    InitExactly(s, holder, TokenPda(m, holder), TOKEN_SPACE, blank);
    if s.Balance(holder) >= Due(s, TokenPda(m, holder), TOKEN_SPACE) {
      ReleaseGoes(AnchorInit(s, holder, TokenPda(m, holder), TOKEN_SPACE, blank).value, m, TokenPda(m, holder), holder);
    }
  }

  ghost function AskPrice(s: State, m: Address): u64 {
    if ListingPda(m) in s.data && s.data[ListingPda(m)].Listing? then s.data[ListingPda(m)].askPrice else 0
  }

  /** Any other buyer can fill exactly when solvent and when the fee and the counter fit: no account of theirs for a listed
      ticket is ever open, whatever they did with it before. */
  lemma BuyerCanFill(s: State, m: Address, buyer: Address, now: i64)
    requires Safe(s) && IsListed(s, m) && buyer.Wallet?
    ensures var (r, authority) := (s.data[ReceiptPda(m)].receipt, s.data[GlobalConfig].authority);
            FillTicketListing(s, buyer, r.currentHolder, authority, m, now).Ok? <==>
              && buyer != r.currentHolder
              && AskPrice(s, m) * 500 <= U64_MAX && r.resaleCount < U64_MAX
              && s.Balance(buyer) >= Due(s, TokenPda(m, buyer), TOKEN_SPACE) + AskPrice(s, m)
  {
    var (r, authority, price) := (s.data[ReceiptPda(m)].receipt, s.data[GlobalConfig].authority, AskPrice(s, m));
    ListedChecks(s, m);
    SaleChecks(s, m, buyer);
    ListedAccountsAreClosed(s, m, buyer);
    var blank := Token(m, buyer, 0);
    InitExactly(s, buyer, TokenPda(m, buyer), TOKEN_SPACE, blank);
    if buyer != r.currentHolder && s.Balance(buyer) >= Due(s, TokenPda(m, buyer), TOKEN_SPACE) {
      var s1 := AnchorInit(s, buyer, TokenPda(m, buyer), TOKEN_SPACE, blank).value;
      C.SaleEffect(s1, buyer, r.currentHolder, authority, price);
      if PaySale(s1, buyer, r.currentHolder, authority, price).Ok? {
        ReleaseGoes(PaySale(s1, buyer, r.currentHolder, authority, price).value, m, TokenPda(m, buyer), r.currentHolder);
      }
    }
  }

  lemma ListedAccountsAreClosed(s: State, m: Address, o: Address)
    requires Safe(s) && IsListed(s, m)
    ensures TokenPda(m, o) !in s.data
  {
    assert InCustody(s, m);
    assert TokenPda(m, o) in s.data ==> IsUnlistedHolder(s, m, o);
  }

  /** In every history, a listed ticket can be bought by every solvent wallet but its holder's, and taken back by its holder. */
  lemma ListedTicketsTrade(start: State, ts: seq<Transaction>, m: Address, buyer: Address, now: i64)
    requires Fresh(start) && IsListed(History(start, ts), m) && buyer.Wallet?
    ensures GlobalConfig in History(start, ts).data && History(start, ts).data[GlobalConfig].Global?
    ensures var s := History(start, ts);
            var (r, authority) := (s.data[ReceiptPda(m)].receipt, s.data[GlobalConfig].authority);
            && (FillTicketListing(s, buyer, r.currentHolder, authority, m, now).Ok? <==>
                  && buyer != r.currentHolder
                  && AskPrice(s, m) * 500 <= U64_MAX && r.resaleCount < U64_MAX
                  && s.Balance(buyer) >= Due(s, TokenPda(m, buyer), TOKEN_SPACE) + AskPrice(s, m))
            && (CancelTicketListing(s, r.currentHolder, m).Ok? <==>
                  s.Balance(r.currentHolder) >= Due(s, TokenPda(m, r.currentHolder), TOKEN_SPACE))
  {
    HistorySafe(start, ts);
    var s := History(start, ts);
    assert Shape(s, GlobalConfig);
    BuyerCanFill(s, m, buyer, now);
    HolderCanCancel(s, m);
  }

  lemma SaleChecks(s: State, m: Address, buyer: Address)
    requires Safe(s) && IsListed(s, m) && buyer.Wallet?
    ensures s.data[GlobalConfig].Global?
    ensures CheckSale(s, buyer, s.data[ReceiptPda(m)].receipt.currentHolder, s.data[GlobalConfig].authority, m).None?
  {
    var holder := s.data[ReceiptPda(m)].receipt.currentHolder;
    ListedChecks(s, m);
    assert Shape(s, GlobalConfig);
    WalletsHoldNoData(s, holder);
    WalletsHoldNoData(s, s.data[GlobalConfig].authority);
  }

  lemma WalletsHoldNoData(s: State, w: Address)
    requires Safe(s) && w.Wallet?
    ensures w !in s.data
  {
  }

  /** A ticket can be listed exactly by the holder on its receipt while the holder's own account holds it, when solvent
      and for a positive price. */
  lemma HolderCanList(s: State, m: Address, seller: Address, askPrice: u64, now: i64)
    requires Safe(s)
    ensures ListTicket(s, seller, m, askPrice, now).Ok? <==>
              && SellerOk(s, m, seller) && TokenOf(s, TokenPda(m, seller), m, seller, 1) && askPrice > 0
              && s.Balance(seller) >= Due(s, ListingPda(m), LISTING_SPACE) + Due(s, EscrowPda(m), TOKEN_SPACE)
  {
    if ListTicket(s, seller, m, askPrice, now).Ok? { ListData(s, seller, m, askPrice, now); }
    if SellerOk(s, m, seller) && TokenOf(s, TokenPda(m, seller), m, seller, 1) {
      assert InCustody(s, m) && !IsListed(s, m);
      OpenExactly(s, seller, m, askPrice, now);
      if OpenListing(s, seller, m, askPrice, now).Ok? {
        DepositGoes(OpenListing(s, seller, m, askPrice, now).value, m, TokenPda(m, seller), seller);
      }
    }
  }

  lemma OpenExactly(s: State, seller: Address, m: Address, askPrice: u64, now: i64)
    requires seller.Wallet? && ListingPda(m) !in s.data && EscrowPda(m) !in s.data
    ensures var r := OpenListing(s, seller, m, askPrice, now);
            && (r.Ok? <==> s.Balance(seller) >= Due(s, ListingPda(m), LISTING_SPACE) + Due(s, EscrowPda(m), TOKEN_SPACE))
            && (r.Ok? ==> r.value.data == s.data[ListingPda(m) := Listing(seller, m, askPrice, now)]
                                                [EscrowPda(m) := Token(m, ListingPda(m), 0)])
  {
    var listing := Listing(seller, m, askPrice, now);
    InitExactly(s, seller, ListingPda(m), LISTING_SPACE, listing);
    if s.Balance(seller) >= Due(s, ListingPda(m), LISTING_SPACE) {
      var s1 := AnchorInit(s, seller, ListingPda(m), LISTING_SPACE, listing).value;
      InitExactly(s1, seller, EscrowPda(m), TOKEN_SPACE, Token(m, ListingPda(m), 0));
    }
  }

  lemma DepositGoes(s: State, m: Address, token: Address, seller: Address)
    requires TokenOf(s, token, m, seller, 1) && TokenOf(s, EscrowPda(m), m, ListingPda(m), 0) && token != EscrowPda(m)
    ensures Deposit(s, m, token, seller).Ok?
  {
  }

  /** While the holder's own account does not hold the ticket, it cannot be listed by anybody. */
  lemma MovedTicketsCannotBeListed(s: State, m: Address, seller: Address, askPrice: u64, now: i64)
    requires Safe(s) && ReceiptPda(m) in s.data && s.data[ReceiptPda(m)].ReceiptData?
    requires Held(s, TokenPda(m, s.data[ReceiptPda(m)].receipt.currentHolder), m) == 0
    ensures ListTicket(s, seller, m, askPrice, now).Err?
  {
    HolderCanList(s, m, seller, askPrice, now);
  }

  // ----- Minting -----

  lemma MintsStay(s: State, t: Transaction, m: Address)
    requires Safe(s) && IsMint(s, m)
    ensures IsMint(Next(s, t), m)
  {
    if t.Ours? && Try(s, t.call).Ok? { MintsStayOurs(s, t.call, m); }
  }

  lemma MintsStayOurs(s: State, c: Call, m: Address)
    requires Safe(s) && IsMint(s, m) && Try(s, c).Ok?
    ensures IsMint(Step(s, c), m)
  {
    match c
    case DoExecute(user, treasury, p, signed, at) => ExecuteData(s, user, treasury, p, signed, at);
    case DoList(seller, mint, askPrice, at) => ListData(s, seller, mint, askPrice, at);
    case DoCancel(seller, mint) => CancelData(s, seller, mint);
    case DoFill(buyer, seller, feeRecipient, mint, at) => FillData(s, buyer, seller, feeRecipient, mint, at);
  }

  ghost predicate MintsAt(start: State, ts: seq<Transaction>, k: nat, m: Address)
    requires k < |ts|
  {
    ts[k].Ours? && ts[k].call.DoExecute? && MintOf(ts[k].call.payload) == m && Try(History(start, ts[..k]), ts[k].call).Ok?
  }

  lemma HistoryStep(start: State, ts: seq<Transaction>, j: nat)
    requires Fresh(start) && j < |ts|
    ensures History(start, ts[..j + 1]) == Next(History(start, ts[..j]), ts[j]) && Safe(History(start, ts[..j]))
  {
    assert ts[..j + 1][..j] == ts[..j];
    HistorySafe(start, ts[..j]);
  }

  lemma MintAppears(s: State, c: Call)
    requires c.DoExecute? && Try(s, c).Ok?
    ensures MintOf(c.payload) !in s.data && IsMint(Step(s, c), MintOf(c.payload))
  {
    ExecuteData(s, c.user, c.treasury, c.payload, c.signed, c.at);
  }

  lemma MintKept(start: State, ts: seq<Transaction>, j: nat, m: Address)
    requires Fresh(start) && j < |ts| && IsMint(History(start, ts[..j]), m)
    ensures IsMint(History(start, ts[..j + 1]), m)
  {
    HistoryStep(start, ts, j);
    MintsStay(History(start, ts[..j]), ts[j], m);
  }

  lemma MintMade(start: State, ts: seq<Transaction>, i: nat, m: Address)
    requires Fresh(start) && i < |ts| && MintsAt(start, ts, i, m)
    ensures !IsMint(History(start, ts[..i]), m) && IsMint(History(start, ts[..i + 1]), m)
  {
    HistoryStep(start, ts, i);
    MintAppears(History(start, ts[..i]), ts[i].call);
  }

  lemma MintedStays(start: State, ts: seq<Transaction>, i: nat, j: nat, m: Address)
    requires Fresh(start) && i <= j <= |ts| && IsMint(History(start, ts[..i]), m)
    ensures IsMint(History(start, ts[..j]), m)
  {
    for k := i to j
      invariant IsMint(History(start, ts[..k]), m)
    {
      MintKept(start, ts, k, m);
    }
  }

  /** Among outsiders too, each (user, proof hash, nonce) mints at most once. */
  lemma ProofConsumedOnce(start: State, ts: seq<Transaction>, i: nat, j: nat, m: Address)
    requires Fresh(start) && i < j < |ts| && MintsAt(start, ts, i, m)
    ensures !MintsAt(start, ts, j, m)
  {
    MintMade(start, ts, i, m);
    MintedStays(start, ts, i + 1, j, m);
    if MintsAt(start, ts, j, m) { MintMade(start, ts, j, m); }
  }

  // ----- Lamports -----

  lemma OutsideConserves(s: State, o: Outside)
    ensures Conservation.Total(Apply(s, o)) == Conservation.Total(s)
  {
    match o
    case SendLamports(from, to, amount) =>
      if s.Balance(from) >= amount { Conservation.MoveConserves(s, from, to, amount); }
    case OpenToken(payer, at, mint, owner) =>
      Conservation.InitConserves(s, payer, Outer(at), TOKEN_SPACE, Token(mint, owner, 0));
    case CloseEmpty(owner, account, to) => Conservation.CloseConserves(s, account, to);
    case SendToken(owner, from, to, amount) =>
    case Reassign(owner, account, newOwner) =>
    case Burn(owner, account, amount) =>
  }

  /** No lamport is made or lost in any history. */
  lemma {:induction false} HistoryConserves(start: State, ts: seq<Transaction>)
    ensures Conservation.Total(History(start, ts)) == Conservation.Total(start)
  {
    if ts != [] {
      var s, t := History(start, ts[..|ts| - 1]), ts[|ts| - 1];
      HistoryConserves(start, ts[..|ts| - 1]);
      match t
      case Ours(c) => Conservation.StepConserves(s, c);
      case Theirs(o) => OutsideConserves(s, o);
    }
  }
}
