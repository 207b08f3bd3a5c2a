# UNFORGIVEN v2: a verified model of the fairness pipeline

This project models, in Dafny, the parts of UNFORGIVEN v2 on which its fairness rests, and proves what they promise:

- **The price.** The VRGDA quote is written three times: on chain with checked 128-bit arithmetic, in the SDK with emulated
  checks, and in the web client on unbounded integers. `FixedPow` bounds the error of the truncating square-and-multiply
  power on both sides and shows that overflow detection is never spurious; `Quotes` proves exactly when the three programs
  decide alike, and `PriceValue` says what a quote is worth: base·(1 + v/10^4)^t less the discount, up to named truncation.
  `Dignity`, `Evidence` and `Fairness` take this from a buyer's attestations to the price paid.
- **The ticket.** `Ledger` and `Tickets` specify the four instructions over accounts, lamports and tokens; `Custody` gives
  each one's exact success condition and exact effect, and `Refusals` what every error means; `TicketRuns` and `Conservation` prove what holds over every run of
  the program alone. `Instructions` and `Outsiders` let anyone send lamports and use the SPL Token program directly in
  between, and prove what survives; `Holdings` proves whose a ticket is, who pays whom, and whose consent moves it;
  `Permanence` proves what they cannot undo. `TicketProgram` is the same program on mutable accounts with rollback, proved to
  do what `Tickets` says.
  `EndToEnd` joins ticket and price: what the client shows is what the program charges.
- **The bytes.** `Bytes`, `PayloadCodec` and `ReceiptCodec` cover the 141-byte payload, the 218-byte receipt and the
  instruction data, each with its writers and readers in both languages.
- **The guards.** Each service keeps a small mutable index of a long history. `SentinelWindows`, `SentinelDetection`,
  `Governance`, `RateLimits`, `RateLimitRuns`, `Claims`, `Replay`, `GraphStore` and `GraphRuns` prove that the index agrees
  with the history over whole runs, under interleavings and restarts.
- **The game.** `OpenWorld`, `OpenWorldEngine`, `OpenWorldScores`, `OpenWorldRules` and `OpenWorldRuns` treat the open-world
  session: its rules, its budget, its gates, and the bounded influence of the language model on the score.

Code that changes things step by step is modelled by methods and classes whose contracts equate the new state with a
specification function of the old one; what the source promises is then proved about those functions, for all inputs and
all runs. Derived addresses are constructors applied to their seeds, and digests stand for what they are digests of, so
both are injective by construction. Times are readings of a clock that does not go back.

`dafny verify dfyconfig.toml` checks everything.

## Findings

Where a promise is false of the code, the code is modelled as it is and the exact condition is proved.

- Client and chain disagree on whether a buyer is blocked exactly when the client's price is over 64 bits and under the
  blocking threshold (`Quotes.WhenClientAndChainDiffer`). No base price up to 2^64/100 has such an input; every one from
  2^64/99.9999 has (`Quotes.ClientAndChainDecideAlike`, `Quotes.ThresholdHypothesisNeeded`).
- SDK and chain can quote different prices for a blocked buyer, since one tests the 64-bit range before the cap and the other
  after it (`Quotes.WhenSdkAndChainDiffer`); this happens at every base price whose cap fits 64 bits and at no other
  (`Quotes.SdkAndChainCanDiffer`). The SDK has no limit on the elapsed time (`Quotes.SdkAcceptsMore`).
- At negative sales velocity a higher dignity score can raise the price, because the score also dampens the decay
  (`Fairness.FairExactlyWhenNotCooling`).
- A ticket that its holder moves directly through the SPL Token program can be listed by nobody while the holder's own account
  does not hold it (`Outsiders.MovedTicketsCannotBeListed`); once that account is closed as well, it can never be listed
  again (`Permanence.StrandedForever`, reached by `Permanence.MovedTicketsExist`). Escrow is unaffected by anything outsiders
  do (`Outsiders.EscrowHolds`), and any solvent buyer can fill (`Outsiders.ListedTicketsTrade`).
- A mint needs its four addresses to hold no lamports (`Custody.ExecuteExactly`). Anyone can send some, and then that user,
  proof hash and nonce can never be minted (`Permanence.OneTransferDusts`, `Permanence.DustedForever`); nothing else stands
  in the way of an admitted, unused, unblocked, affordable request (`Permanence.MintExactlyAmongOutsiders`).
- The rate limiter admits up to 2·limit - 1 requests of a key in an interval as long as its window, and that many do occur
  (`RateLimitRuns.QuotasHold`, `RateLimitRuns.LimiterReachesBound`).
- The 300-second window of a verified proof is 299.001 seconds in the worst case, the clock being floored to seconds
  (`Replay.SpacingIsTight`).
- A signature can be counted twice in the sentinel's window exactly when the dedupe remembers for less than the window
  (`SentinelDetection.TwicePerWindow`).
- Edge identifiers collide for wallet texts that contain a colon and an edge type (`EdgeKeys.AmbiguousCollides`); the API
  admits only public keys, which have none.
- An anchor filed after an await is under the wrong version exactly when the graph changed in between
  (`GraphRuns.RaceExactly`); a restart files it correctly (`GraphRuns.RestartRepairs`).
- Scaling the language model's deltas to a total of six can leave seven or eight (`OpenWorldScores.TotalCanReachEight`):
  exactly when the clamped total is 7 or 11, or 8 with at most one entry that is 3, -3 or -2, or 10 with an entry that is 1
  or -1, or 12 with at most one -3 (`OpenWorldScores.TotalExceedsSixExactly`).

## Model

| member | source | states |
|---|---|---|
| FixedPow.PowFixedChecked | programs/unforgiven_v2/src/unforgiven_math.rs:130-145 | the in-place checked loop computes the checked power; the SDK's loop is the same |
| FixedPow.PowFixedClient | lib/unforgiven-v2-client.ts:166-182 | the unbounded loop computes the unbounded power |
| FixedPow.CheckedIsExactWhenFinite | programs/unforgiven_v2/src/unforgiven_math.rs:130-145 | a finite checked result is the unbounded one |
| FixedPow.PowNeverAbove | programs/unforgiven_v2/src/unforgiven_math.rs:130-145 | truncation only loses: r·S^(e-1) ≤ b^e, S = 10^9 |
| FixedPow.PowRelativeLoss | programs/unforgiven_v2/src/unforgiven_math.rs:130-145 | for b ≥ S: r·S^(2e-2) ≥ b^e·(S-1)^(e-1), and r ≥ S |
| FixedPow.PowAbsoluteLoss | programs/unforgiven_v2/src/unforgiven_math.rs:130-145 | for b ≤ S: (r+e-1)·S^(e-1) ≥ b^e, and r ≤ S |
| FixedPow.PowLossBound | programs/unforgiven_v2/src/unforgiven_math.rs:130-145 | for b ≥ S the relative loss is at most (e-1)/S |
| FixedPow.WithinProduct | programs/unforgiven_v2/src/unforgiven_math.rs:135-140 | each of the three bounds survives one truncated product, exponents adding up |
| FixedPow.OverflowWitness | programs/unforgiven_v2/src/unforgiven_math.rs:134-141 | when the loop gives up, two of its values with exponents summing to at most e overflow 128 bits |
| FixedPow.SmallBaseNeverOverflows | programs/unforgiven_v2/src/unforgiven_math.rs:130-145 | a base of at most one never overflows |
| FixedPow.InfiniteIsNeverSpurious | programs/unforgiven_v2/src/unforgiven_math.rs:130-145 | infinite implies b^e·S² > U128_MAX·S^e exactly |
| FixedPow.FiniteIsNearlyExact | programs/unforgiven_v2/src/unforgiven_math.rs:130-145 | finite implies the exact power exceeds the limit by no more than the accumulated loss |
| FixedPow.PowFpMonotone | programs/unforgiven_v2/src/unforgiven_math.rs:130-145 | the power is monotone in its base, infinite counting as the top |
| Quotes.DefensiveBranchesUnreachable | programs/unforgiven_v2/src/unforgiven_math.rs:48-75 | the velocity conversion, the nonpositive growth branch and two overflow branches are dead; infinity needs positive velocity |
| Quotes.EffectiveVelocityRange | programs/unforgiven_v2/src/unforgiven_math.rs:45-58 | weighting a velocity never enlarges it nor changes its sign, with division truncating toward zero; by how much it is weighted is PriceValue.VelocityIsWeighted |
| PriceValue.VelocityIsWeighted | programs/unforgiven_v2/src/unforgiven_math.rs:45-58 | all three programs quote at the velocity times the square of (100 - score), over 10^4, truncated toward zero |
| PriceValue.ClientPriceIsExactValue | lib/unforgiven-v2-client.ts:312-359 | the shown price is base·(1 + v/10^4)^t·(1 - 0.003·max(0, score - 70)) in exact arithmetic, up to two units and (t-1)/10^9, capped at 120 times the base and blocked from 100; never above the exact value unless it is one |
| PriceValue.ChainPriceIsExactValue | programs/unforgiven_v2/src/unforgiven_math.rs:33-96 | so is the charged price when finite; an infinite quote means the exact value is at least 100 times the base or beyond 64 bits |
| PriceValue.OpeningPrice | programs/unforgiven_v2/src/unforgiven_math.rs:64-77 | at time zero the price is exactly the base price less the discount, floored, and at least one |
| Quotes.CoolingQuoteIsFinite | programs/unforgiven_v2/src/unforgiven_math.rs:33-96 | velocity ≤ 0 gives a finite, unblocked quote between 1 and the base price |
| Quotes.ChainAndClientRejectAlike | lib/unforgiven-v2-client.ts:321-329 | chain and client reject the same inputs for the same reason |
| Quotes.ChainVersusClient | lib/unforgiven-v2-client.ts:312-359 | a finite chain quote has the client's price, surcharge, flag and velocity; chain blocked exactly when client blocked or its price leaves 64 bits |
| Quotes.ClientAndChainDecideAlike | lib/unforgiven-v2-client.ts:312-359 | equal blocked flags whenever 100·base ≤ 2^64 |
| Quotes.WhenClientAndChainDiffer | lib/unforgiven-v2-client.ts:348-352 | without that hypothesis: they differ exactly when the client's price is over 64 bits and under the threshold |
| Quotes.ThresholdHypothesisNeeded | programs/unforgiven_v2/src/unforgiven_math.rs:79-88 | every base from 2^64/99.9999 up has a valid input on which they differ (none below 2^64/100 does) |
| Quotes.SdkVersusChain | packages/universal-shield-sdk/src/index.ts:390-454 | blocked flags always equal; a finite SDK quote is the chain's quote; a difference means the chain is at the 120x cap |
| Quotes.WhenSdkAndChainDiffer | packages/universal-shield-sdk/src/index.ts:430-439 | the quotes differ exactly when the uncapped price leaves 64 bits and the cap does not |
| Quotes.SdkAndChainDifferAt | packages/universal-shield-sdk/src/index.ts:430-439 | an input on which they differ, for every base price whose cap fits 64 bits |
| Quotes.SdkAndChainCanDiffer | packages/universal-shield-sdk/src/index.ts:430-439 | a base price has an input on which they differ if and only if its cap fits 64 bits |
| Quotes.SdkAcceptsMore | packages/universal-shield-sdk/src/index.ts:396-401 | the SDK accepts more than the chain exactly for elapsed times over 30 days |
| Dignity.ExtractGithubCommits | services/dignity-scoring/src/adapters.ts:4-15 | the loop returns the largest contribution of any attestation, zero included |
| Dignity.ExtractSpotifyHours | services/dignity-scoring/src/adapters.ts:17-28 | the loop returns the largest contribution of any attestation, zero included |
| Dignity.ExtractTwitterSignals | services/dignity-scoring/src/adapters.ts:30-49 | the loop returns the largest contribution of any attestation, zero included |
| Dignity.ExtractGoogleFallbackAgeDays | services/dignity-scoring/src/adapters.ts:51-62 | the loop returns the largest contribution of any attestation, zero included |
| Dignity.ComputeDignityScore | services/dignity-scoring/src/index.ts:7-36 | the breakdown is the specified score of the attestations, whose meaning is Evidence.PointsFromEvidence |
| Evidence.PointsFromEvidence | services/dignity-scoring/src/index.ts:7-36 | 40 points exactly when some attestation naming github reads over 50 commits, 30 for over 10 hours on spotify, 20 for a year and activity of 50 on twitter or x.com; the total is their sum and the mask marks the positive ones |
| Evidence.ScoreFromEvidence | services/shield-oracle/src/shield_score.ts:55-91 | the score from the attestations in each mode: zero for a suspected bot, at least 25 for a guest, the points when verified |
| Dignity.LargestIsUpperBound | services/dignity-scoring/src/adapters.ts:4-62 | the extracted signal is at least every attestation's contribution |
| Dignity.LargestIsLeast | services/dignity-scoring/src/adapters.ts:4-62 | and no larger than any nonnegative bound of them |
| Dignity.ScoreMonotone | services/shield-oracle/src/shield_score.ts:55-91 | a superset of attestations never lowers the score in any mode |
| Dignity.ScoreOrderIndependent | services/dignity-scoring/src/index.ts:7-36 | the breakdown depends only on which attestations there are |
| Fairness.HigherScoreNeverRaisesPrice | programs/unforgiven_v2/src/unforgiven_math.rs:33-96 | at velocity ≥ 0 a higher score never raises the price and never blocks an unblocked buyer |
| Fairness.ColdPriceRises | programs/unforgiven_v2/src/unforgiven_math.rs:45-58 | at every velocity < 0 some input has a higher price for a higher score |
| Fairness.FairExactlyWhenNotCooling | programs/unforgiven_v2/src/unforgiven_math.rs:33-96 | the monotonicity promise holds for a velocity if and only if it is not negative |
| Fairness.MoreAttestationsNeverRaisePrice | services/shield-oracle/src/shield_score.ts:55-91 | end to end: more attestations never raise the price nor block, in any mode, for velocity ≥ 0 |
| Ledger.Move | programs/unforgiven_v2/src/lib.rs:778-790 | a transfer changes exactly the two balances, also when they are the same account |
| Custody.ExecuteExactly | programs/unforgiven_v2/src/lib.rs:313-574 | in any state whatever, execute_shield succeeds exactly for a payload whose fields are in order (policy 0, score at most 100, velocity over -10000, mode at most 2, time at most 2592000, unexpired, the configured model, this user), signed, unblocked and affordable, whose four addresses hold neither data nor lamports; and its whole effect |
| Custody.ValidationIsExact | programs/unforgiven_v2/src/lib.rs:967-1002 | validation passes exactly the payloads whose fields are in order, and its error names a field that is not |
| Refusals.MintRefusal | programs/unforgiven_v2/src/lib.rs:368-500 | what a refused admitted request is told, in any state: a touched address, too few lamports, or, the rents being there, a blocked price |
| Refusals.ListRefusal | programs/unforgiven_v2/src/lib.rs:576-598 | every error of a listing names what is wrong, in any state |
| Refusals.CancelRefusal | programs/unforgiven_v2/src/lib.rs:630-638 | so does every error of a cancel |
| Refusals.FillRefusal | programs/unforgiven_v2/src/lib.rs:680-711 | and of a fill; not enough lamports means less than price and rent |
| Custody.ListExactly | programs/unforgiven_v2/src/lib.rs:576-628 | list_ticket succeeds exactly when the holder can pay two rents and asks a positive price, and its whole effect |
| Custody.CancelExactly | programs/unforgiven_v2/src/lib.rs:630-678 | cancel succeeds exactly when listed and one rent can be advanced, and its whole effect |
| Custody.FillExactly | programs/unforgiven_v2/src/lib.rs:680-768 | fill succeeds exactly for another buyer who can pay price and rent when fee and counter fit, and its whole effect, aliasing included |
| Custody.SaleEffect | programs/unforgiven_v2/src/lib.rs:705-725 | proceeds and fee add up to the price; fee is floor(5%) |
| Custody.IssueEffect | programs/unforgiven_v2/src/lib.rs:492-545 | after issuing, supply is one and both authorities are gone |
| TicketRuns.StepKeepsInv | programs/unforgiven_v2/src/lib.rs:313-768 | every instruction, failed or not, keeps the custody invariant |
| TicketRuns.RunKeepsInv | programs/unforgiven_v2/src/lib.rs:313-768 | so does every run |
| TicketRuns.GenesisInv | programs/unforgiven_v2/src/lib.rs:238-256 | the state after initialisation satisfies it |
| TicketRuns.CustodyOfEveryTicket | programs/unforgiven_v2/src/lib.rs:1317-1476 | in every reachable state: supply one, one token account, in escrow exactly when listed; listing, escrow and flag agree; seller is holder; ask positive; proof record, mint and receipt exist together |
| TicketRuns.ListThenCancelIsIdentity | programs/unforgiven_v2/src/lib.rs:576-678 | listing then cancelling restores every account and every balance |
| TicketRuns.NoTicketIsStuck | programs/unforgiven_v2/src/lib.rs:1317-1476 | in every reachable state: who can list, cancel and fill, as exact conditions on solvency, price and counter |
| TicketRuns.StepKeepsReceipt | programs/unforgiven_v2/src/lib.rs:736-745 | only a sale changes holder, last price, time of transfer or count, and it sets them to the buyer, the asked price, the clock and one more; original buyer and purchase price never change |
| TicketRuns.NewTicketsAreMinted | programs/unforgiven_v2/src/lib.rs:313-574 | a ticket appears only through a mint of an unblocked quote at that quote's price |
| TicketRuns.HistoryOfEveryTicket | programs/unforgiven_v2/src/lib.rs:887-917 | each ticket goes back to one successful mint of an unblocked quote; resale_count is the number of fills |
| TicketRuns.MintedForever | programs/unforgiven_v2/src/lib.rs:867-885 | receipts and proof records are never removed |
| TicketRuns.ProofConsumedOnce | programs/unforgiven_v2/src/lib.rs:368-405 | each (user, proof hash, nonce) mints at most once in a run |
| Conservation.MintConserves | programs/unforgiven_v2/src/lib.rs:313-574 | a mint conserves the total of lamports |
| Conservation.ListConserves | programs/unforgiven_v2/src/lib.rs:576-628 | listing conserves the total of lamports |
| Conservation.CancelConserves | programs/unforgiven_v2/src/lib.rs:630-678 | cancelling conserves the total of lamports |
| Conservation.FillConserves | programs/unforgiven_v2/src/lib.rs:680-768 | a fill conserves the total of lamports |
| Conservation.RunConserves | programs/unforgiven_v2/src/lib.rs:313-768 | every run conserves lamports, rents, fees and aliased accounts included |
| TicketProgram.Bank.HandleMint | programs/unforgiven_v2/src/lib.rs:368-553 | the handler on mutable accounts does what its specification says, error by error |
| TicketProgram.Bank.HandleList | programs/unforgiven_v2/src/lib.rs:576-628 | the handler on mutable accounts does what its specification says, error by error |
| TicketProgram.Bank.HandleCancel | programs/unforgiven_v2/src/lib.rs:630-678 | the handler on mutable accounts does what its specification says, error by error |
| TicketProgram.Bank.HandleFill | programs/unforgiven_v2/src/lib.rs:680-768 | the handler on mutable accounts does what its specification says, error by error |
| TicketProgram.Bank.CreatePda | programs/unforgiven_v2/src/lib.rs:792-824 | creates an account only at an untouched address, paying its rent |
| TicketProgram.Bank.Transact | programs/unforgiven_v2/src/lib.rs:313-768 | one instruction with rollback is one step of the specification; a failure changes nothing |
| Instructions.ListData | programs/unforgiven_v2/src/lib.rs:576-628 | whatever the state, a successful listing found an unlisted ticket in the seller's account and wrote exactly this data |
| Instructions.CancelData | programs/unforgiven_v2/src/lib.rs:630-678 | the same for a cancel |
| Instructions.FillData | programs/unforgiven_v2/src/lib.rs:680-768 | the same for a fill |
| Instructions.ExecuteData | programs/unforgiven_v2/src/lib.rs:313-574 | a successful mint had a signed payload of its user, an unblocked quote and four absent accounts, and wrote exactly this data |
| Outsiders.OutsideSafe | programs/unforgiven_v2/src/lib.rs:1317-1476 | no direct lamport or token transaction breaks the custody of any ticket |
| Outsiders.NextSafe | programs/unforgiven_v2/src/lib.rs:313-768 | nor does any instruction, from any state outsiders can bring about |
| Outsiders.EscrowHolds | programs/unforgiven_v2/src/lib.rs:1317-1476 | in every mixed history: a ticket exists at most once; a listed one is in escrow for the holder on its receipt at a positive price |
| Outsiders.HolderCanCancel | programs/unforgiven_v2/src/lib.rs:630-678 | a listed ticket's holder can cancel exactly when able to advance what the token account still lacks in rent |
| Outsiders.BuyerCanFill | programs/unforgiven_v2/src/lib.rs:680-768 | any other buyer can fill exactly when solvent and when fee and counter fit; no account of theirs for a listed ticket is ever open |
| Outsiders.ListedTicketsTrade | programs/unforgiven_v2/src/lib.rs:630-768 | the exact conditions for fill and cancel, in every mixed history |
| Outsiders.HolderCanList | programs/unforgiven_v2/src/lib.rs:1317-1359 | the exact condition for a listing among outsiders |
| Outsiders.MovedTicketsCannotBeListed | programs/unforgiven_v2/src/lib.rs:1324-1342 | while the holder's own account does not hold the ticket, nobody can list it |
| Permanence.StrandedForever | programs/unforgiven_v2/src/lib.rs:1317-1359 | once the holder's account of an unlisted ticket is closed, nobody can list that ticket in any later history |
| Permanence.MovingAway | programs/unforgiven_v2/src/lib.rs:1324-1342 | a holder who moves the ticket away empties that account, and closing it strands the ticket |
| Permanence.MovedTicketsExist | programs/unforgiven_v2/src/lib.rs:1324-1342 | a history from a fresh start that reaches a moved ticket, and a transaction that strands it |
| Permanence.MintExactlyAmongOutsiders | programs/unforgiven_v2/src/lib.rs:792-824 | in every state outsiders can bring about, the exact condition for a mint: besides admission, quote and balance, an unused proof and no lamports at the four addresses |
| Permanence.NextKeeps | programs/unforgiven_v2/src/lib.rs:792-824 | lamports at an address that holds no data and belongs to no wallet stay there |
| Permanence.OneTransferDusts | programs/unforgiven_v2/src/lib.rs:800-807 | one transfer to one of the four addresses of an unminted ticket is enough to block its mint |
| Permanence.DustedForever | programs/unforgiven_v2/src/lib.rs:800-807 | lamports at one of its addresses keep a ticket from being minted in every later history |
| Holdings.SupplyIsAlwaysHeld | programs/unforgiven_v2/src/lib.rs:492-545 | in every mixed history the recorded supply of a ticket is one exactly while some account holds it, and zero otherwise |
| Holdings.OnlyWithConsent | programs/unforgiven_v2/src/lib.rs:1317-1476 | a ticket leaves an account only when the account's owner signs, or from escrow by its holder's cancel or a purchase |
| Holdings.FillPays | programs/unforgiven_v2/src/lib.rs:680-768 | in any state outsiders can bring about: what every wallet pays and receives in a fill, to the lamport, whichever of them coincide |
| Outsiders.ProofConsumedOnce | programs/unforgiven_v2/src/lib.rs:368-405 | each (user, proof hash, nonce) mints at most once among outsiders too |
| Outsiders.HistoryConserves | programs/unforgiven_v2/src/lib.rs:313-768 | lamports are conserved in every mixed history |
| Conservation.StepConserves | programs/unforgiven_v2/src/lib.rs:313-768 | every instruction, failed or not, conserves lamports |
| EndToEnd.ShownPriceIsCharged | lib/unforgiven-v2-client.ts:312-359 | whenever a ticket is minted, in any mixed history, the receipt's price, just paid to the treasury on top of the rents, is the one client and SDK compute, and both show the buyer unblocked |
| EndToEnd.NewTicketInFull | programs/unforgiven_v2/src/lib.rs:488-553 | everything a mint records, field by field: the proof, the receipt and the token |
| EndToEnd.RentsInFull | programs/unforgiven_v2/src/lib.rs:792-824 | the rents of the five kinds of account as numbers times the rate |
| EndToEnd.WrittenReceiptIsTheLedgers | programs/unforgiven_v2/src/lib.rs:887-917 | the receipt whose bytes are written is the receipt the ledger keeps |
| EndToEnd.FlatDemandSells | programs/unforgiven_v2/src/lib.rs:313-574 | at velocity ≤ 0, in runs of the program alone, an admitted, unused, solvent request mints at no more than the base price |
| EndToEnd.FlatDemandSellsExactly | programs/unforgiven_v2/src/lib.rs:313-574 | among outsiders such a request mints exactly when the four addresses have been sent no lamports |
| EndToEnd.DignityNeverCosts | programs/unforgiven_v2/src/lib.rs:313-574 | at velocity ≥ 0, in any mixed history, what mints with a lower score mints with a higher one, at no higher price |
| Bytes.WriteU64LE | services/shield-oracle/src/shield_score.ts:158-166 | shift-and-mask writes the little-endian bytes, or refuses what does not fit |
| Bytes.WriteI64LE | services/shield-oracle/src/shield_score.ts:168-176 | two's complement, or refuses what does not fit |
| Bytes.ReadU64LE | lib/unforgiven-v2-client.ts:141-147 | or-ing shifted bytes reads the number they denote, missing bytes being zero |
| Bytes.ReadI64LE | lib/unforgiven-v2-client.ts:149-153 | and its signed value, missing bytes being zero |
| Bytes.EncodeU64LE | lib/unforgiven-v2-client.ts:514-522 | shifting the input writes the value modulo 2^64 |
| Bytes.U64RoundTrip | programs/unforgiven_v2/src/lib.rs:919-937 | decoding an encoded u64 gives it back |
| Bytes.I64RoundTrip | programs/unforgiven_v2/src/lib.rs:919-937 | decoding an encoded i64 gives it back |
| Bytes.IntegersAreTheirBytes | programs/unforgiven_v2/src/lib.rs:1074-1121 | encoding what any eight bytes decode to gives those bytes, signed or not |
| PayloadCodec.SerializeOnChain | programs/unforgiven_v2/src/lib.rs:919-937 | the slice-copying writer produces the layout |
| PayloadCodec.SerializeInJavaScript | packages/universal-shield-sdk/src/index.ts:512-541 | the loop writers of SDK and oracle produce the same bytes, and throw exactly on what does not fit |
| PayloadCodec.DeserializeSerialize | programs/unforgiven_v2/src/lib.rs:1074-1121 | reading a written payload gives it back |
| PayloadCodec.LayoutSlices | programs/unforgiven_v2/src/lib.rs:919-937 | which field lies at which offset of the 141 bytes |
| PayloadCodec.SerializeDeserialize | programs/unforgiven_v2/src/lib.rs:1074-1121 | every 141-byte string is the layout of the payload it reads as; other lengths are refused |
| PayloadCodec.LayoutInjective | programs/unforgiven_v2/src/lib.rs:919-937 | bytes determine the payload |
| PayloadCodec.ClientSeedsAreChainSeeds | lib/unforgiven-v2-client.ts:253-287 | the client's slices are the on-chain seeds, and equal seeds mean the same ticket and proof record |
| ReceiptCodec.WriteTicketReceipt | programs/unforgiven_v2/src/lib.rs:887-917 | the slice writer produces the receipt layout in any account of at least 218 bytes, and an error otherwise |
| ReceiptCodec.ParseTicketReceiptAccount | lib/unforgiven-v2-client.ts:415-436 | the client's parser reads exactly the specified fields |
| ReceiptCodec.ParseReadsWhatWasWritten | lib/unforgiven-v2-client.ts:415-436 | a written receipt is recovered field by field |
| ReceiptCodec.WrittenExactlyWhenFlagIsBoolean | lib/unforgiven-v2-client.ts:415-436 | any 218 bytes parse; rewriting gives them back exactly when the flag byte is 0 or 1 |
| ReceiptCodec.LayoutSlices | programs/unforgiven_v2/src/lib.rs:887-917 | which field lies at which offset of the 218 bytes |
| ReceiptCodec.ConcatBytes | lib/unforgiven-v2-client.ts:155-164 | parts are copied one after the other |
| ReceiptCodec.BuildExecuteInstructionData | lib/unforgiven-v2-client.ts:491-512 | discriminator, payload, signature; an error on other lengths |
| ReceiptCodec.ProgramAcceptsWhatClientBuilds | programs/unforgiven_v2/src/lib.rs:332-348 | the program accepts exactly what the client builds and reads back the payload put in |
| SentinelWindows.FrontEvictionIsExact | crates/sentinel/src/main.rs:244-253 | evicting from the front leaves the recent entries if and only if no expired entry lies behind a fresh one |
| SentinelWindows.EvictionComposes | crates/sentinel/src/main.rs:239-253 | evicting after every push equals evicting the whole log once |
| SentinelWindows.SlidingWindow.Push | crates/sentinel/src/main.rs:239-253 | the window is what one eviction of everything pushed leaves: the recent samples, for sorted times |
| SentinelWindows.SignatureDedupe.InsertIfNew | crates/sentinel/src/main.rs:326-335 | false exactly when the signature was accepted within the time to live; the set indexes the queue, which has no duplicates |
| SentinelWindows.SignatureDedupe.EvictExpired | crates/sentinel/src/main.rs:337-347 | queue and set shrink together |
| SentinelDetection.AcceptedExactlyOncePerTtl | crates/sentinel/src/main.rs:704-707 | accepted arrivals of one signature are more than the time to live apart; a refused one follows an accepted one within it |
| SentinelDetection.DetectionLoop | crates/sentinel/src/main.rs:696-718 | after any trace the window holds the recent samples of the accepted arrivals |
| SentinelDetection.OncePerWindow | crates/sentinel/src/main.rs:696-718 | no signature is counted twice in a window when the time to live is at least the window |
| SentinelDetection.TwicePerWindow | crates/sentinel/src/main.rs:696-718 | for every shorter time to live a trace counts one twice |
| Governance.GovernanceExecutor.TryBegin | crates/sentinel/src/main.rs:533-548 | the first critical section |
| Governance.GovernanceExecutor.Finish | crates/sentinel/src/main.rs:571-577 | the second critical section |
| Governance.MutualExclusion | crates/sentinel/src/main.rs:533-577 | at most one action in flight in every interleaving |
| Governance.StartsExactlyWhenDue | crates/sentinel/src/main.rs:533-548 | a call starts exactly when its tier asks, nothing is in flight and every success, bypasses included, is an interval back |
| Governance.SuccessRate | crates/sentinel/src/main.rs:571-577 | n successes take at least n-1 intervals |
| RateLimits.BucketMap.Take | services/shield-oracle/src/rate_limit.ts:92-122 | the in-place bucket update is the specified one |
| RateLimits.BucketMap.Cleanup | services/shield-oracle/src/rate_limit.ts:157-165 | the deleting loop keeps exactly the open windows |
| RateLimits.EvaluateShieldRateLimit | services/shield-oracle/src/rate_limit.ts:222-261 | clean both maps, address, then wallet; a wallet refusal keeps the address charge |
| RateLimits.ServeAllBounded | services/shield-oracle/src/rate_limit.ts:92-122 | at most limit admissions a window and at most 2·limit-1 in any interval of window length |
| RateLimitRuns.CleanupNeverChangesVerdicts | services/shield-oracle/src/rate_limit.ts:157-165 | running cleanup before every request changes no verdict of any run |
| RateLimitRuns.AddressesAreIndependent | services/shield-oracle/src/rate_limit.ts:222-245 | an address's verdicts depend on its own requests only |
| RateLimitRuns.WalletsAreIndependent | services/shield-oracle/src/rate_limit.ts:247-258 | a wallet's verdicts depend only on its requests that passed the address check |
| RateLimitRuns.QuotasHold | services/shield-oracle/src/rate_limit.ts:222-261 | both quotas over whole runs of the limiter, at 2·limit-1 |
| RateLimitRuns.BoundIsReached | services/shield-oracle/src/rate_limit.ts:92-122 | one key's requests reach 2·limit-1, for every limit and every window of at least two milliseconds |
| RateLimitRuns.LimiterReachesBound | services/shield-oracle/src/rate_limit.ts:222-261 | so does a run of the whole limiter, for the requests of one address that pass |
| RateLimitRuns.RetryReachesFreshWindow | services/shield-oracle/src/rate_limit.ts:109-118 | waiting retryAfterSec opens a fresh window; a second less does not |
| RateLimitRuns.VerdictNamesItsWait | services/shield-oracle/src/rate_limit.ts:109-118 | a refusal names the bucket that refused and the seconds until its window closes, rounded up |
| RateLimitRuns.RefusedAddressRecovers | services/shield-oracle/src/rate_limit.ts:222-261 | a refused address that waits is not refused again, whatever other keys do meanwhile |
| Claims.ClaimFollowsLog | services/shield-oracle/src/proof_replay_store.ts:83-91 | a claim succeeds exactly when no claim of its key is still running, and store and log stay in step |
| Claims.MemoryStore.ClaimInMemory | services/shield-oracle/src/proof_replay_store.ts:83-91 | the in-place claim is the specified one |
| Claims.MemoryStore.Cleanup | services/shield-oracle/src/proof_replay_store.ts:75-81 | the deleting loop keeps exactly the unexpired entries |
| Replay.TrimIsSlice | services/shield-oracle/src/proof_replay_store.ts:97 | trimming leaves a slice with nothing but spaces around it, and it is empty or begins and ends with none |
| Replay.PaddingIsTrimmed | services/shield-oracle/src/reclaim_verify.ts:112-116 | adding spaces on either side of a text does not change what it trims to |
| Replay.TrimIsIdempotent | services/shield-oracle/src/reclaim_verify.ts:112-116 | the bundle's trimmed identifiers are the ones the store claims |
| Replay.KeysDiffer | services/shield-oracle/src/proof_replay_store.ts:97-99 | two identifiers share a key exactly when they are equal once trimmed; what trimming does is Replay.TrimIsSlice and Replay.PaddingIsTrimmed |
| Replay.BundleLoop.Turn | services/shield-oracle/src/reclaim_verify.ts:121-129 | one turn of the claim loop between two suspensions |
| Replay.RunKeepsInv | services/shield-oracle/src/reclaim_verify.ts:119-131 | every interleaving keeps store, log and bundles in step |
| Replay.ClaimsWereMade | services/shield-oracle/src/reclaim_verify.ts:119-131 | every claim in the log was made by an enabled turn of its bundle for the identifier it was about to claim |
| Replay.SharedIdentifiersAreSpaced | services/shield-oracle/src/reclaim_verify.ts:119-131 | two successful bundles sharing an identifier, or one listing it twice, made two claims of it, at least the time to live apart; failed bundles' claims count |
| Replay.PaddedIdentifiersAreSpaced | services/shield-oracle/src/reclaim_verify.ts:119-131 | the same for bundles one of which lists an identifier with spaces around it |
| Replay.PaddedCopyIsRefused | services/shield-oracle/src/proof_replay_store.ts:93-126 | a turn for a padded copy of an identifier whose claim is still running is refused |
| Replay.RefusedExactlyWhenRunning | services/shield-oracle/src/proof_replay_store.ts:93-126 | a turn is refused exactly for an empty identifier or one whose claim is still running |
| Replay.ShieldHandler.HandleShieldScoreRequest | services/shield-oracle/src/handler.ts:140-175 | clean, score, check, build, set: a request that throws on the way sets nothing |
| Replay.ShieldHandler.CleanupSeen | services/shield-oracle/src/handler.ts:68-74 | the deleting loop keeps exactly the unexpired entries |
| Replay.VerifiedPayloadsAreSpaced | services/shield-oracle/src/handler.ts:143-175 | two verified payloads for one proof and wallet are 300 clock seconds apart, so over 299000 ms |
| Replay.SpacingIsTight | services/shield-oracle/src/handler.ts:143-145 | 299001 ms suffice: the clock is floored to seconds |
| Replay.RefusedExactlyInWindow | services/shield-oracle/src/handler.ts:143-175 | a verified request that can be scored is refused exactly within 300 clock seconds of a signed one; it is signed exactly when not refused and its payload can be built |
| EdgeKeys.KeyIsInjectiveExactly | services/fan-pass-hub/src/graph_store.ts:264 | an edge id is unshared with equally long or shorter wallets exactly when the wallet text is not ambiguous; public keys never are |
| EdgeKeys.AmbiguousCollides | services/fan-pass-hub/src/graph_store.ts:264 | every ambiguous wallet text has a colliding edge |
| GraphStore.ListRoundTrip | services/fan-pass-hub/src/graph_store.ts:75-103 | listing a map and rebuilding it is the identity exactly when each value carries its own key |
| GraphStore.HydrateAfterPersist | services/fan-pass-hub/src/graph_store.ts:75-103 | reading back what was written gives the same graph exactly when anchors are filed under their own version |
| GraphStore.RoundedWeight | services/fan-pass-hub/src/graph_store.ts:143-145 | rounding and clamping stays in 0..100 and within a half of weights that fit |
| GraphStore.HubGraphStore.IngestGraphEvent | services/fan-pass-hub/src/graph_store.ts:229-256 | adds the event, bumps the version, saves |
| GraphStore.HubGraphStore.UpsertRelationEdge | services/fan-pass-hub/src/graph_store.ts:258-283 | sets the edge, bumps the version, saves |
| GraphStore.HubGraphStore.FinishAnchor | services/fan-pass-hub/src/graph_store.ts:319-321 | files the receipt under the version of that moment, saves |
| GraphStore.HubGraphStore.HydrateStateIfNeeded | services/fan-pass-hub/src/graph_store.ts:92-104 | loads the file once |
| GraphStore.HubGraphStore.WritePersistedState | services/fan-pass-hub/src/graph_store.ts:75-90 | leaves a file that stores the state |
| GraphRuns.VersionCountsMutations | services/fan-pass-hub/src/graph_store.ts:147-150 | version is 1 plus the number of changes, across restarts and races |
| GraphRuns.AtomicAnchorsAreCurrent | services/fan-pass-hub/src/graph_store.ts:311-322 | with one-step anchoring an anchor at the current version carries the current hash; a restart changes nothing |
| GraphRuns.RestartsAreInvisible | services/fan-pass-hub/src/graph_store.ts:92-121 | a run with restarts ends as the run without them |
| GraphRuns.RaceExactly | services/fan-pass-hub/src/graph_store.ts:311-322 | with anchoring split by its await: current exactly when nothing changed in between |
| GraphRuns.RestartRepairs | services/fan-pass-hub/src/graph_store.ts:96-101 | after a restart every anchor is filed under its own version |
| GraphRuns.EveryEventIsKept | services/fan-pass-hub/src/graph_store.ts:229-256 | in every run, restarts and split anchors included, an identifier has a stored event exactly when some ingest carried it, and it is the last such event |
| GraphRuns.OneEdgePerTriple | services/fan-pass-hub/src/graph_store.ts:258-283 | one edge per (wallet, type, target), and it says what the last upsert of the triple said, at the time of that upsert |
| GraphRuns.EveryAnchorIsKept | services/fan-pass-hub/src/graph_store.ts:311-322 | with one-step anchoring: every anchor is kept under the version it was made at, with the content and time of then, across changes and restarts |
| GraphRuns.HashDeterminesContent | services/fan-pass-hub/src/graph_store.ts:199-219 | equal snapshot hashes mean equal versions, events and edges |
| OpenWorldEngine.OpenWorldSession.TruthGainAfterPhaseGate | services/hide-sis-engine/src/openworld_engine.ts:255-290 | the gate on truth, and the one place that confirms the resolution |
| OpenWorldEngine.OpenWorldSession.ApplyAction | services/hide-sis-engine/src/openworld_engine.ts:296-431 | an action on the mutable session is the specified one |
| OpenWorldEngine.OpenWorldSession.ApplyOpenWorldAction | services/hide-sis-engine/src/openworld_engine.ts:817-863 | nothing on a completed session; otherwise the action, and the ending when time runs out |
| OpenWorldEngine.OpenWorldSession.FinalizeSession | services/hide-sis-engine/src/openworld_engine.ts:570-587 | the first call fixes the score, later calls change nothing |
| OpenWorldRuns.NextOfPrefix | services/hide-sis-engine/src/openworld_engine.ts:241-244 | with the first n clues in hand the next one is clue n |
| OpenWorldRuns.InventoryIsPrefix | services/hide-sis-engine/src/openworld_engine.ts:314-336 | the inventory is always a prefix of the world's clues |
| OpenWorldRuns.RunFollowsCase | services/hide-sis-engine/src/openworld_engine.ts:296-431 | clock, evidence and number of clues evolve on their own; nothing else decides a gate or an ending |
| OpenWorldRuns.AtMostThirteenActions | services/hide-sis-engine/src/openworld_engine.ts:43-51 | at most thirteen accepted actions, and thirteen complete the session |
| OpenWorldRuns.ThirteenActionsHappen | services/hide-sis-engine/src/openworld_engine.ts:43-51 | thirteen is reached |
| OpenWorldRuns.CompletedNeverChanges | services/hide-sis-engine/src/openworld_engine.ts:819-831 | a completed session never changes |
| OpenWorldRuns.ConfirmedExactly | services/hide-sis-engine/src/openworld_engine.ts:278-287 | the resolution is confirmed exactly when a clue was used on a core character who was later interrogated at 75 or later |
| OpenWorldRuns.OnlyConfirmationRaisesTruth | services/hide-sis-engine/src/openworld_engine.ts:278-287 | in the last phase nothing else raises the truth |
| OpenWorldRuns.NoClueNoTopGrade | services/hide-sis-engine/src/openworld_engine.ts:464-534 | a run that used no clue never ends with grade S |
| OpenWorldRules.TimeCosts | services/hide-sis-engine/src/openworld_engine.ts:43-51 | the clock after each kind of action |
| OpenWorldRules.SearchIsWorth | services/hide-sis-engine/src/openworld_engine.ts:314-336 | a search that finds a clue is worth the clue's truth, worn out by repetition, halved from time 40 and nothing from 75 |
| OpenWorldRules.QuestionIsWorth | services/hide-sis-engine/src/openworld_engine.ts:337-357 | a question is worth 8 or 5, worn out; from 40 at most 2 without a clue used on that character, from 75 nothing unless it is a core character confronted |
| OpenWorldRules.ClueIsWorth | services/hide-sis-engine/src/openworld_engine.ts:358-386 | a used clue is worth 55 hundredths of its truth, worn out, and nothing from 75 |
| OpenWorldRules.HeatAndPollution | services/hide-sis-engine/src/openworld_engine.ts:296-431 | what every action does to heat and pollution, within their bounds |
| OpenWorldRules.RelationsAndDignity | services/hide-sis-engine/src/openworld_engine.ts:296-431 | what every action does to a relation and to dignity |
| OpenWorldRules.RepetitionIsCounted | services/hide-sis-engine/src/openworld_engine.ts:225-239 | what wears an action out is how often the run has accepted it |
| OpenWorldRules.TruthScoreIs | services/hide-sis-engine/src/openworld_engine.ts:469-488 | truth: the progress less 12, 16 and 20 for what was not done |
| OpenWorldRules.RelationScoreIs | services/hide-sis-engine/src/openworld_engine.ts:494-522 | relation: four fifths the two core characters, rounded, less ten in the heat |
| OpenWorldRules.HumanityScoreIs | services/hide-sis-engine/src/openworld_engine.ts:503-522 | humanity from alliances, rests, lies, heat and pollution, rounded, less eight in the heat |
| OpenWorldRules.ScoreIs | services/hide-sis-engine/src/openworld_engine.ts:464-534 | the composite's weights, its rounding and the bands of the grades |
| OpenWorldRules.PlaceAndBudget | services/hide-sis-engine/src/openworld_engine.ts:296-313 | where a move leads, the tick and the budget of every action |
| OpenWorldRules.TalliesCount | services/hide-sis-engine/src/openworld_engine.ts:225-239 | lies, alliances and rests are counted exactly over any run |
| OpenWorldRules.EndsExactly | services/hide-sis-engine/src/openworld_engine.ts:817-863 | a session ends exactly when asked to or with the action that uses up the time |
| OpenWorldRules.FinalScoreIs | services/hide-sis-engine/src/openworld_engine.ts:536-587 | the final score is the engine's, each dimension moved by what is left of the proposal, weighed and graded again |
| OpenWorldScores.SmallShiftsNeverFallBack | services/hide-sis-engine/src/openworld_engine.ts:536-558 | shifts of at most ten points move the grade by at most one, so the fallback is not taken |
| OpenWorldScores.ElevenPointsFallBack | services/hide-sis-engine/src/openworld_engine.ts:554-556 | eleven points can skip a grade |
| OpenWorldRules.ProposalIs | services/hide-sis-engine/src/openworld_llm.ts:320-337 | entries limited to three either way, and scaled to six, each rounded to the nearest integer, when they add up to more |
| OpenWorldScores.NormalizedDeltaIsSmall | services/hide-sis-engine/src/openworld_llm.ts:320-337 | normalised deltas are at most three a dimension and eight in total |
| OpenWorldScores.TotalExceedsSixExactly | services/hide-sis-engine/src/openworld_llm.ts:327-334 | which proposals scaling leaves above six, as a condition on the clamped entries |
| OpenWorldScores.TotalCanReachEight | services/hide-sis-engine/src/openworld_llm.ts:327-334 | (3,3,3,3) is left at eight |
| OpenWorldRuns.FinalScoreIsNearEngineScore | services/hide-sis-engine/src/openworld_engine.ts:570-587 | whatever the language model proposes, the final composite is within three of the engine's and the grade within one step |

## Left out

- Pages, components, hooks, API routes and the parsing of request bodies: user interface and plumbing.
- Ed25519, SHA-256, keccak, blake3 and Reclaim verification: signatures are a flag on the call and digests are injective; the
  parsing of the preceding Ed25519 instruction is that flag, `signed`.
- SPL Token, the System program and Anchor beyond the create, transfer, close, mint and authority effects the instructions
  use; compute limits, and the runtime's rule that a wallet keeps no balance between zero and its rent minimum.
- The order in which Anchor reports several violated constraints on one instruction: the model picks one order; which calls
  fail, and that a failure changes nothing, does not depend on it.
- Outsiders.HolderCanList: token delegates and close authorities, which a holder can set and which would let others move the
  ticket or make the listing's close fail; outsiders move, close and reassign tokens as their owners.
- Wallets that other programs turn into data accounts: a wallet stays a wallet.
- The causes for which scoring a request or building its payload throws: two flags of the request say whether it does.
- Monotonicity of the price in elapsed time: not promised; truncation in square-and-multiply need not respect it.
- The v1 program and its mathematics: the same power loop, weaker results.
- Floating point: dignity signals and weights are reals, and the open-world score is computed in exact hundredths.
- The path lookup of an attestation's numbers: an attestation is its provider and the numbers found under each path.
- Redis: the services run on their in-memory stores. The disk is one stored value, written and renamed in one step, and the
  order and text of its lists are abstracted.
- Parsing of the ordinary listing account and of events: the same readers as the receipt's, in a shorter layout.
- Sentinel scoring (sigmoid, entropy, root mean square) and the construction of patches: floating point without a sharp claim.
- Cancellation or panic of a governance call between its two critical sections: calls that begin may also never end.
- Two requests on one open-world session that overlap while the language model answers: actions are atomic, though the code
  would accept an action during the wait of the one that ends the session.
- The open-world journal, action trace, scene text, guidance and previews; the visual-novel script and its replay.
- Hub decision thresholds, reputation scores and risk signals: sums and single-branch facts.
- RateLimits.EvaluateShieldRateLimit: does not model the await between reading the clock and using it; each request is one step.
- Replay.ShieldHandler.HandleShieldScoreRequest: models the stretch without awaits; what comes before it is the bundle's claims.
