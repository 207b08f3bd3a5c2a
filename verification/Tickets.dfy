/** The four ticket instructions. Each runs its account constraints, then its handler, on one state; an error at
    any point means the whole instruction has no effect. */
module Tickets {
  import opened Outcomes
  import opened Widths
  import opened ShieldPayloads
  import opened Quotes
  import opened Ledger

  const PROOF_USE_SPACE: nat := 89
  const MINT_SPACE: nat := 82
  const TOKEN_SPACE: nat := 165
  const RECEIPT_SPACE: nat := 218
  const LISTING_SPACE: nat := 89
  const TICKET_AMOUNT: nat := 1

  function ProofOf(p: ShieldPayload): Address {
    ProofUsePda(p.userPubkey, p.zkProofHash, p.nonce)
  }

  function MintOf(p: ShieldPayload): Address {
    MintPda(p.userPubkey, p.zkProofHash, p.nonce)
  }

  function QuoteOf(p: ShieldPayload): Result<Quote, QuoteError> {
    ChainQuote(QuoteInput(p.initialPrice, p.salesVelocityBps, p.timeElapsed, p.dignityScore))
  }

  function ValidateRequest(p: ShieldPayload, modelHash: Bytes32, user: Address, now: i64): Option<Error> {
    if p.policyVersion != 0 then Some(Error.InvalidPolicyVersion)
    else if p.dignityScore > 100 then Some(Error.InvalidDignityScore)
    else if p.salesVelocityBps <= -10_000 then Some(Error.InvalidSalesVelocity)
    else if p.userMode > 2 then Some(Error.InvalidUserMode)
    else if p.timeElapsed > MAX_TIME_ELAPSED_SECS then Some(Error.InvalidTimeElapsed)
    else if p.attestationExpiry <= now then Some(Error.AttestationExpired)
    else if p.scoringModelHash != modelHash then Some(Error.ScoringModelHashMismatch)
    else if Wallet(p.userPubkey) != user then Some(Error.UserPubkeyMismatch)
    else None
  }

  /** `signed` says that the instruction before this one is the oracle's signature check over this payload and
      that this instruction was called directly. */
  function ExecuteShield(s: State, user: Address, treasury: Address, p: ShieldPayload, signed: bool, now: i64)
    : (r: Result<State, Error>)
  {
    if !user.Wallet? then Err(Error.MissingSignature)
    else if !(GlobalConfig in s.data && s.data[GlobalConfig].Global?) || treasury in s.data then
      Err(Error.AccountNotInitialized)
    else if treasury != s.data[GlobalConfig].authority then Err(Error.TreasuryMismatch)
    else if !(AdminConfig in s.data && s.data[AdminConfig].Admin?) then Err(Error.AccountNotInitialized)
    else
      match ValidateRequest(p, s.data[AdminConfig].modelHash, user, now)
      case Some(e) => Err(e)
      case None =>
        if !signed then Err(Error.InvalidEd25519Instruction)
        else MintTicket(s, user, treasury, p, now)
  }

  function FirstReceipt(p: ShieldPayload, user: Address, price: u64, now: i64): Receipt {
    Receipt(MintOf(p), GlobalConfig, user, user, price, price, now, now, p.nonce, p.zkProofHash, false, 0)
  }

  /** Creates the proof record, the blank mint and the user's empty ticket account. */
  function OpenAccounts(s: State, user: Address, p: ShieldPayload, now: i64): Result<State, Error> {
    var mint := MintOf(p);
    var s1 :- CreatePda(s, user, ProofOf(p), PROOF_USE_SPACE, ProofUse(p.userPubkey, p.zkProofHash, p.nonce, now));
    var s2 :- CreatePda(s1, user, mint, MINT_SPACE, Mint(0, Some(MintAuthority), Some(MintAuthority)));
    CreatePda(s2, user, TokenPda(mint, user), TOKEN_SPACE, Token(mint, user, 0))
  }

  /** Mints the one ticket and gives up both authorities over the mint. */
  function IssueTicket(s: State, mint: Address, token: Address): Result<State, Error> {
    var s1 :- MintTo(s, mint, token, MintAuthority, TICKET_AMOUNT);
    RevokeAuthorities(s1, mint, MintAuthority)
  }

  function PayAndIssue(s: State, user: Address, treasury: Address, mint: Address, price: u64): Result<State, Error> {
    var s1 :- TransferLamports(s, user, treasury, price);
    IssueTicket(s1, mint, TokenPda(mint, user))
  }

  /** Creates the receipt and, unless the quote is blocked, takes the price and issues the ticket. */
  function FinishMint(s: State, user: Address, treasury: Address, p: ShieldPayload, quote: Quote, now: i64): Result<State, Error> {
    var mint := MintOf(p);
    var s1 :- CreatePda(s, user, ReceiptPda(mint), RECEIPT_SPACE, ReceiptData(FirstReceipt(p, user, quote.finalPrice, now)));
    if quote.blocked then Err(Error.ShieldBlocked)
    else PayAndIssue(s1, user, treasury, mint, quote.finalPrice)
  }

  function MintTicket(s: State, user: Address, treasury: Address, p: ShieldPayload, now: i64): Result<State, Error> {
    var s1 :- OpenAccounts(s, user, p, now);
    match QuoteOf(p)
    case Err(InvalidDignityScore) => Err(Error.InvalidDignityScore)
    case Err(InvalidSalesVelocity) => Err(Error.InvalidSalesVelocity)
    case Err(InvalidTimeElapsed) => Err(Error.InvalidTimeElapsed)
    case Ok(quote) => FinishMint(s1, user, treasury, p, quote, now)
  }

  /** The constraints every resale instruction puts on the receipt, as the error they raise. */
  function CheckReceipt(s: State, mint: Address, holder: Address): Option<Error> {
    if !(mint in s.data && s.data[mint].Mint?) then Some(Error.AccountNotInitialized)
    else if !(ReceiptPda(mint) in s.data && s.data[ReceiptPda(mint)].ReceiptData?) then Some(Error.AccountNotInitialized)
    else if s.data[ReceiptPda(mint)].receipt.mint != mint then Some(Error.TicketMintMismatch)
    else if s.data[ReceiptPda(mint)].receipt.currentHolder != holder then Some(Error.TicketOwnerMismatch)
    else None
  }

  /** Creates the listing and its empty escrow account. */
  function OpenListing(s: State, seller: Address, mint: Address, askPrice: u64, now: i64): Result<State, Error> {
    var s1 :- AnchorInit(s, seller, ListingPda(mint), LISTING_SPACE, Listing(seller, mint, askPrice, now));
    AnchorInit(s1, seller, EscrowPda(mint), TOKEN_SPACE, Token(mint, ListingPda(mint), 0))
  }

  /** Moves the ticket from the seller's account into escrow and closes that account in the seller's favour. */
  function Deposit(s: State, mint: Address, token: Address, seller: Address): Result<State, Error> {
    var s1 :- TransferToken(s, token, EscrowPda(mint), seller, TICKET_AMOUNT);
    CloseToken(s1, token, seller, seller)
  }

  function ListTicket(s: State, seller: Address, mint: Address, askPrice: u64, now: i64): (r: Result<State, Error>)
  {
    if !seller.Wallet? then Err(Error.MissingSignature)
    else
      match CheckReceipt(s, mint, seller)
      case Some(e) => Err(e)
      case None =>
        var receipt := s.data[ReceiptPda(mint)].receipt;
        var token := TokenPda(mint, seller);
        if !IsToken(s, token, mint, seller) then Err(Error.InvalidTokenAccount)
        else
          var s1 :- OpenListing(s, seller, mint, askPrice, now);
          if askPrice == 0 then Err(Error.InvalidListingPrice)
          else if receipt.listed then Err(Error.TicketAlreadyListed)
          else if s.data[token].amount != TICKET_AMOUNT then Err(Error.InvalidTicketAmount)
          else
            var s2 :- Deposit(s1, mint, token, seller);
            Ok(s2.(data := s2.data[ReceiptPda(mint) := ReceiptData(receipt.(listed := true))]))
  }

  /** The listing and the escrow a cancel or a fill needs, as the error their absence raises. */
  function CheckListing(s: State, mint: Address, seller: Address): Option<Error> {
    if !(ListingPda(mint) in s.data && s.data[ListingPda(mint)].Listing?) then Some(Error.AccountNotInitialized)
    else if s.data[ListingPda(mint)].seller != seller then Some(Error.TicketOwnerMismatch)
    else if s.data[ListingPda(mint)].mint != mint then Some(Error.TicketMintMismatch)
    else if !IsToken(s, EscrowPda(mint), mint, ListingPda(mint)) then Some(Error.InvalidTokenAccount)
    else None
  }

  /** Moves the ticket out of escrow to `token`, then closes the escrow and the listing in favour of the seller. */
  function ReleaseEscrow(s: State, mint: Address, token: Address, seller: Address): (r: Result<State, Error>)
  {
    var s1 :- TransferToken(s, EscrowPda(mint), token, ListingPda(mint), TICKET_AMOUNT);
    var s2 :- CloseToken(s1, EscrowPda(mint), seller, ListingPda(mint));
    Ok(Close(s2, ListingPda(mint), seller))
  }

  function CancelTicketListing(s: State, seller: Address, mint: Address): (r: Result<State, Error>)
  {
    if !seller.Wallet? then Err(Error.MissingSignature)
    else
      match (CheckReceipt(s, mint, seller), CheckListing(s, mint, seller))
      case (Some(e), _) => Err(e)
      case (None, Some(e)) => Err(e)
      case (None, None) =>
        var receipt := s.data[ReceiptPda(mint)].receipt;
        var s1 :- AnchorInit(s, seller, TokenPda(mint, seller), TOKEN_SPACE, Token(mint, seller, 0));
        if !receipt.listed then Err(Error.TicketNotListed)
        else if s.data[EscrowPda(mint)].amount != TICKET_AMOUNT then Err(Error.InvalidTicketAmount)
        else
          var s2 :- ReleaseEscrow(s1, mint, TokenPda(mint, seller), seller);
          Ok(s2.(data := s2.data[ReceiptPda(mint) := ReceiptData(receipt.(listed := false))]))
  }

  /** The protocol takes 500 basis points. */
  function ResaleFee(salePrice: u64): Result<u64, Error> {
    if salePrice * 500 > U64_MAX then Err(Error.InvalidListingPrice)
    else Ok(salePrice * 500 / 10_000)
  }

  function Sold(receipt: Receipt, buyer: Address, salePrice: u64, now: i64): Receipt
    requires receipt.resaleCount < U64_MAX
  {
    receipt.(currentHolder := buyer, lastSalePrice := salePrice, lastTransferAt := now, listed := false,
             resaleCount := receipt.resaleCount + 1)
  }

  /** The buyer pays the seller the proceeds and the protocol its fee. */
  function PaySale(s: State, buyer: Address, seller: Address, feeRecipient: Address, salePrice: u64): Result<State, Error> {
    var fee :- ResaleFee(salePrice);
    var s1 :- TransferLamports(s, buyer, seller, salePrice - fee);
    TransferLamports(s1, buyer, feeRecipient, fee)
  }

  /** The handler of a purchase, once the constraints on its accounts hold. */
  function CompleteSale(s: State, buyer: Address, seller: Address, feeRecipient: Address, mint: Address, now: i64)
    : Result<State, Error>
    requires CheckReceipt(s, mint, seller).None? && CheckListing(s, mint, seller).None?
  {
    var receipt := s.data[ReceiptPda(mint)].receipt;
    var salePrice := s.data[ListingPda(mint)].askPrice;
    var s1 :- AnchorInit(s, buyer, TokenPda(mint, buyer), TOKEN_SPACE, Token(mint, buyer, 0));
    if !receipt.listed then Err(Error.TicketNotListed)
    else if s.data[EscrowPda(mint)].amount != TICKET_AMOUNT then Err(Error.InvalidTicketAmount)
    else if buyer == seller then Err(Error.SelfTradeForbidden)
    else
      var s2 :- PaySale(s1, buyer, seller, feeRecipient, salePrice);
      var s3 :- ReleaseEscrow(s2, mint, TokenPda(mint, buyer), seller);
      if receipt.resaleCount == U64_MAX then Err(Error.InvalidListingPrice)
      else Ok(s3.(data := s3.data[ReceiptPda(mint) := ReceiptData(Sold(receipt, buyer, salePrice, now))]))
  }

  /** The constraints on the accounts of a purchase, as the error the first violated one raises. */
  function CheckSale(s: State, buyer: Address, seller: Address, feeRecipient: Address, mint: Address): (r: Option<Error>)
    ensures r.None? ==> CheckReceipt(s, mint, seller).None? && CheckListing(s, mint, seller).None?
  {
    if !buyer.Wallet? then Some(Error.MissingSignature)
    else if !(GlobalConfig in s.data && s.data[GlobalConfig].Global?) || seller in s.data || feeRecipient in s.data then
      Some(Error.AccountNotInitialized)
    else if feeRecipient != s.data[GlobalConfig].authority then Some(Error.TreasuryMismatch)
    else if CheckReceipt(s, mint, seller).Some? then CheckReceipt(s, mint, seller)
    else CheckListing(s, mint, seller)
  }

  function FillTicketListing(s: State, buyer: Address, seller: Address, feeRecipient: Address, mint: Address, now: i64)
    : Result<State, Error>
  {
    match CheckSale(s, buyer, seller, feeRecipient, mint)
    case Some(e) => Err(e)
    case None => CompleteSale(s, buyer, seller, feeRecipient, mint, now)
  }

  // ----- Runs -----

  datatype Call =
    | DoExecute(user: Address, treasury: Address, payload: ShieldPayload, signed: bool, at: i64)
    | DoList(seller: Address, mint: Address, askPrice: u64, at: i64)
    | DoCancel(seller: Address, mint: Address)
    | DoFill(buyer: Address, seller: Address, feeRecipient: Address, mint: Address, at: i64)

  function Try(s: State, c: Call): (r: Result<State, Error>)
  {
    match c
    case DoExecute(user, treasury, p, signed, at) => ExecuteShield(s, user, treasury, p, signed, at)
    case DoList(seller, mint, askPrice, at) => ListTicket(s, seller, mint, askPrice, at)
    case DoCancel(seller, mint) => CancelTicketListing(s, seller, mint)
    case DoFill(buyer, seller, feeRecipient, mint, at) => FillTicketListing(s, buyer, seller, feeRecipient, mint, at)
  }

  /** One transaction: a failed instruction leaves no trace. */
  function Step(s: State, c: Call): (r: State)
  {
    match Try(s, c)
    case Ok(s') => s'
    case Err(_) => s
  }

  function Run(s: State, calls: seq<Call>): (r: State)
  {
    if calls == [] then s else Step(Run(s, calls[..|calls| - 1]), calls[|calls| - 1])
  }
}
