/** The part of Solana the ticket program uses: addresses, lamports, rent, and the create, transfer and close
    operations of the System and SPL Token programs.

    A program-derived address is a constructor applied to its seeds, so distinct seeds give distinct addresses;
    a `Wallet` is an address that can sign and holds no data, an `Outer` address one of an account that some other
    program keeps. */
module Ledger {
  import opened Outcomes
  import opened Widths

  datatype Address =
    | Wallet(key: Bytes32)
    | Outer(key: Bytes32)
    | GlobalConfig
    | AdminConfig
    | MintAuthority
    | ProofUsePda(user: Bytes32, hash: Bytes32, nonce: u64)
    | MintPda(user: Bytes32, hash: Bytes32, nonce: u64)
    | TokenPda(mint: Address, owner: Address)
    | ReceiptPda(mint: Address)
    | ListingPda(mint: Address)
    | EscrowPda(mint: Address)

  datatype Receipt = Receipt(
    mint: Address, eventKey: Address, originalBuyer: Address, currentHolder: Address,
    purchasePrice: u64, lastSalePrice: u64, issuedAt: i64, lastTransferAt: i64,
    nonce: u64, zkProofHash: Bytes32, listed: bool, resaleCount: u64)

  datatype AccountData =
    | Global(authority: Address)
    | Admin(authority: Address, oraclePubkey: Bytes32, modelHash: Bytes32)
    | Mint(supply: nat, mintAuthority: Option<Address>, freezeAuthority: Option<Address>)
    | Token(mint: Address, owner: Address, amount: nat)
    | ProofUse(user: Bytes32, hash: Bytes32, nonce: u64, usedAt: i64)
    | ReceiptData(receipt: Receipt)
    | Listing(seller: Address, mint: Address, askPrice: u64, createdAt: i64)

  type RentRate = x: int | x > 0 witness 1

  /** Accounts that hold data; an address outside `data` is a plain system account. */
  datatype State = State(lamports: map<Address, nat>, data: map<Address, AccountData>, rentRate: RentRate) {
    function Balance(a: Address): nat {
      if a in lamports then lamports[a] else 0
    }

    /** The rent-exempt minimum for an account of the given size. */
    function Rent(space: nat): nat {
      (128 + space) * rentRate
    }
  }

  datatype Error =
    | InsufficientLamports
    | AccountAlreadyInUse
    | AccountNotInitialized
    | InvalidTokenAccount
    | MissingSignature
    | InvalidExecuteShieldAccount
    | InvalidEd25519Instruction
    | InvalidPolicyVersion
    | InvalidDignityScore
    | InvalidSalesVelocity
    | InvalidUserMode
    | InvalidTimeElapsed
    | AttestationExpired
    | ScoringModelHashMismatch
    | UserPubkeyMismatch
    | TreasuryMismatch
    | ShieldBlocked
    | InvalidListingPrice
    | TicketAlreadyListed
    | TicketNotListed
    | InvalidTicketAmount
    | TicketMintMismatch
    | TicketOwnerMismatch
    | SelfTradeForbidden

  // ----- System program -----

  function Move(s: State, from: Address, to: Address, amount: nat): (r: State)
    requires s.Balance(from) >= amount
    ensures r.data == s.data && r.rentRate == s.rentRate
    ensures forall a :: r.Balance(a) == s.Balance(a) - (if a == from then amount else 0) + (if a == to then amount else 0)
  {
    var debited := s.lamports[from := s.Balance(from) - amount];
    var have := if to in debited then debited[to] else 0;
    s.(lamports := debited[to := have + amount])
  }

  function TransferLamports(s: State, from: Address, to: Address, amount: nat): (r: Result<State, Error>)
    ensures r.Ok? <==> s.Balance(from) >= amount
  {
    if amount == 0 then Ok(s)
    else if s.Balance(from) < amount then Err(InsufficientLamports)
    else Ok(Move(s, from, to, amount))
  }

  /** Creates an account at a derived address that must be untouched. */
  function CreatePda(s: State, payer: Address, a: Address, space: nat, data: AccountData): (r: Result<State, Error>)
  {
    if a in s.data || s.Balance(a) != 0 then Err(InvalidExecuteShieldAccount)
    else if s.Balance(payer) < s.Rent(space) then Err(InsufficientLamports)
    else
      var paid := Move(s, payer, a, s.Rent(space));
      Ok(paid.(data := paid.data[a := data]))
  }

  /** Anchor's `init`: tops an already funded address up to the rent and takes it over. */
  function AnchorInit(s: State, payer: Address, a: Address, space: nat, data: AccountData): (r: Result<State, Error>)
  {
    if a in s.data then Err(AccountAlreadyInUse)
    else
      var due := if s.Balance(a) < s.Rent(space) then s.Rent(space) - s.Balance(a) else 0;
      if s.Balance(payer) < due then Err(InsufficientLamports)
      else
        var paid := Move(s, payer, a, due);
        Ok(paid.(data := paid.data[a := data]))
  }

  /** Removes an account and sends all its lamports to `to`. */
  function Close(s: State, a: Address, to: Address): (r: State)
  {
    var paid := Move(s, a, to, s.Balance(a));
    paid.(data := paid.data - {a})
  }

  // ----- SPL Token program -----

  function IsToken(s: State, a: Address, mint: Address, owner: Address): bool {
    a in s.data && s.data[a].Token? && s.data[a].mint == mint && s.data[a].owner == owner
  }

  function TransferToken(s: State, from: Address, to: Address, authority: Address, amount: nat): (r: Result<State, Error>)
    ensures r.Ok? ==> r.value.lamports == s.lamports
  {
    if !(from in s.data && s.data[from].Token? && to in s.data && s.data[to].Token?) then Err(InvalidTokenAccount)
    else if s.data[from].mint != s.data[to].mint || s.data[from].owner != authority || s.data[from].amount < amount then
      Err(InvalidTokenAccount)
    else
      var debited := s.data[from := s.data[from].(amount := s.data[from].amount - amount)];
      Ok(s.(data := debited[to := debited[to].(amount := debited[to].amount + amount)]))
  }

  function CloseToken(s: State, a: Address, to: Address, authority: Address): (r: Result<State, Error>)
  {
    if !(a in s.data && s.data[a].Token? && s.data[a].owner == authority && s.data[a].amount == 0) then
      Err(InvalidTokenAccount)
    else Ok(Close(s, a, to))
  }

  function MintTo(s: State, mint: Address, to: Address, authority: Address, amount: nat): (r: Result<State, Error>)
    ensures r.Ok? ==> r.value.lamports == s.lamports
  {
    if !(mint in s.data && s.data[mint].Mint? && to in s.data && s.data[to].Token? && s.data[to].mint == mint) then
      Err(InvalidTokenAccount)
    else if s.data[mint].mintAuthority != Some(authority) then Err(InvalidTokenAccount)
    else
      Ok(s.(data := s.data[mint := s.data[mint].(supply := s.data[mint].supply + amount)]
                          [to := s.data[to].(amount := s.data[to].amount + amount)]))
  }

  /** Gives up the authority to mint and the authority to freeze for good. */
  function RevokeAuthorities(s: State, mint: Address, authority: Address): (r: Result<State, Error>)
    ensures r.Ok? ==> r.value.lamports == s.lamports
  {
    if !(mint in s.data && s.data[mint].Mint?) then Err(InvalidTokenAccount)
    else if s.data[mint].mintAuthority != Some(authority) || s.data[mint].freezeAuthority != Some(authority) then
      Err(InvalidTokenAccount)
    else Ok(s.(data := s.data[mint := s.data[mint].(mintAuthority := None, freezeAuthority := None)]))
  }
}
