# CredMesh Solana lane: a verified model

CredMesh lends USDC from a pool to autonomous agents. LPs deposit USDC for shares; a bridge signs
short-lived attestations of an agent's credit on the EVM side; `request_advance` pays out against
one; `claim_and_settle` takes repayment with fees and a late penalty; `liquidate` writes off an
advance 14 days past its expiry; parameters change behind a timelock; a registry lists the bridge's
signers. This project models those programs and the bridge code that feeds them, and proves what
holds over every run.

## How it is built

- `Numbers`, `MapSum`: machine integers, checked arithmetic, error codes; sums over maps.
- `Pricing`: share conversion, fee curve, late penalty, utilization.
- `Attestation`, `Introspection`: the 128-byte message, the ed25519 instruction parser, the memo and Squads scans.
- `Ledger`: all accounts as one value; the events; when each event may happen (`Permitted`) and what it does (`Evolve`).
- `Handlers`: each instruction as a function from accounts to an event or an error, checks in program
  order, Anchor's account checks first.
- `Runs`: a run is any sequence of instructions, accepted or rejected, from a fresh pool, with the
  journal of accepted events. Transfers of USDC and shares outside the programs, share burns, direct
  gifts to the vault and transfers into and out of the treasury are instructions too, so runs include them.
- `Accounting`, `Window`, `History`, `Invariants`: what each event keeps, and the induction over runs.
- `Completeness`: the declarative guards are exact: an event is permitted and fits the machine widths
  iff some transaction makes the programs produce it.
- `Effects`, `Refusals`: what each instruction asks for, what it changes in whose account, and which
  error answers which state, in plain figures rather than through the handlers' own definitions.
- `Safety`, `Shares`, `Holders`, `Lifecycle`: the theorems about runs.
- `Scenarios`: runs that exist, built through `Completeness`, reaching the bounds and the failing states.
- `Program`: the class `Escrow`, one method per instruction, updating account copies in the program's
  order and writing them back only on success. `Process` is proved to take exactly one `Step` of a run,
  so every theorem about runs holds of the object.
- `Base58`, `RateLimiting`: the bridge's encoder and rate limiter.

A rejected instruction changes nothing, as on Solana. A program-derived address is a map key, `init`
means the key is absent, `close` removes it, and a fresh issuance ledger is an absent one. The clock,
the transaction's instructions and signature validity are parameters. The release profile keeps
Rust's overflow checks on, so unchecked operators fail with `ArithmeticPanic`.

## Where the code and its comments differ

- "Vault balance == idle" (`programs/credmesh-escrow/src/instructions/withdraw.rs:48-50`) holds exactly
  when skimmed fees equal gifts to the vault (`Safety.VaultConservation`): a settlement already pays the
  protocol cut to the treasury, and a later skim pays it again out of the vault without touching
  `total_assets`. `Scenarios.SkimBreaksIdle` is a run where the two differ.
- The "trailing" 24-hour cap (`programs/credmesh-escrow/src/state.rs:49-50`) bounds the ledger's own
  windows (`Safety.EveryWindowWithinCap`). It bounds every 24-hour interval of every run exactly when the
  cap is below two minimum advances (`Scenarios.TrailingCapExactly`); from there on the bound is twice the
  cap less one minimum advance (`Safety.SlidingWindow`), and a run reaches it (`Scenarios.SlidingBoundReached`).
- An attestation may carry an expiry too large for the grace period to be added; such an advance can
  never be settled or liquidated, whatever follows (`Safety.UnendingForever`), and that is the only
  reason one cannot end in a run without gifts (`Safety.EndsIffExpiryLeavesRoom`). No guard keeps it from
  being issued (`Safety.ExpiryIsUnbounded`), and a run issues one (`Scenarios.UnendingReached`). The
  bridge's own 15-minute limit (`ts/bridge/src/index.ts:203`) does.
- That LPs absorb a liquidation's loss (`programs/credmesh-escrow/src/instructions/liquidate.rs:94-95`)
  presumes that the booked assets cover the principal (`Safety.LiquidationExactly`). They do in every run
  without gifts to the vault (`Safety.NoAdvanceStuck`); after a gift LPs can withdraw what is lent out, and
  `Scenarios.GiftBlocksLiquidation` is a run where liquidation is then refused.
- `MAX_LATE_DAYS` never acts: settlement closes after 13 whole late days (`Safety.DebtBounded`), which are
  reached (`Safety.ThirteenLateDays`).
- At full utilization the curve gives the maximum rate, except that with a kink of 10,000 it stops at
  the kink rate (`Pricing.CurvePoints`).
- `bytesToBase58` writes one '1' too many for input that is all zero bytes (`Base58.BytesToBase58`).

## Model

| member | source | states |
|---|---|---|
| `Safety.VaultConservation` | programs/credmesh-escrow/src/instructions/withdraw.rs:45-99 | in every run vault + deployed + skimmed = assets + gifts; deployed stays within assets iff gifts do not exceed vault + skims, so in every run without gifts; vault = idle iff skims equal gifts |
| `Safety.FeeAndTokenAccounting` | programs/credmesh-escrow/src/instructions/skim_protocol_fees.rs:41-78 | in every run accrued + skimmed = all protocol cuts, the treasury gained the cuts, the skims and the net of outside transfers, and total USDC over all accounts is constant |
| `Safety.SettlementSplitsExactly` | programs/credmesh-escrow/src/instructions/claim_and_settle.rs:121-230 | the agent pays exactly principal, fee and a day's penalty per whole late day up to 365, whatever it offered and only if it offered that; 15% of the fees, rounded down, to the treasury, the rest to the vault and the booked assets; no other wallet moves |
| `Safety.SettlementNamesItsLoan` | programs/credmesh-escrow/src/instructions/claim_and_settle.rs:107-119 | an accepted settlement carries a memo with the nonce of the attestation that issued the advance, on the terms issued, in every run |
| `Lifecycle.EveryLoanExplained` | programs/credmesh-escrow/src/instructions/claim_and_settle.rs:89-234 | in every run each settlement in the journal answers one earlier issue: in time, for its principal and exactly the fees due then; each liquidation likewise, late enough and for its principal; each tombstone repeats principal, expiry and the time of the write-off |
| `Holders.BalancesExplained` | programs/credmesh-escrow/src/instructions/withdraw.rs:53-99 | in every run each holder's shares and each holder's USDC are exactly what the journal gave it and took from it, and the share count is all minted less all redeemed |
| `Safety.PrincipalSumsAgree` | programs/credmesh-escrow/src/instructions/claim_and_settle.rs:212-222 | in every run the pool's deployed counter is the sum of live principals and each agent's counter the sum of its own |
| `Safety.IssuedOnceEndsOnce` | programs/credmesh-escrow/src/instructions/request_advance.rs:39-61 | in every run a key is issued at most once; a consumed key is live, settled once or liquidated once, exclusively; tombstones are exactly the liquidated keys |
| `Safety.DebtBounded` | programs/credmesh-escrow/src/instructions/claim_and_settle.rs:99-138 | in every run a settleable advance is at most 13 days late and owes between 1 and 2.1 times its principal |
| `Safety.ThirteenLateDays` | programs/credmesh-escrow/src/instructions/claim_and_settle.rs:99-138 | in the last second of the settlement window thirteen late days are due |
| `Safety.SettlementExactly` | programs/credmesh-escrow/src/instructions/claim_and_settle.rs:89-230 | in every run, settling a live advance succeeds iff its window is open, the memo is present, payment and wallet both cover what is owed, and the four u64 sums fit; the counter subtractions never fail |
| `Safety.LiquidationExactly` | programs/credmesh-escrow/src/instructions/liquidate.rs:70-104 | in every run, gifts included, liquidating a live advance succeeds iff 1,209,600 seconds have passed since its expiry and its principal is within the booked assets |
| `Safety.NoAdvanceStuck` | programs/credmesh-escrow/src/instructions/liquidate.rs:72-114 | in every run without gifts a live advance can be liquidated iff 1,209,600 seconds have passed since its expiry, and its settlement window is open exactly before that |
| `Safety.EndsIffExpiryLeavesRoom` | programs/credmesh-escrow/src/instructions/liquidate.rs:72-77 | in every run without gifts a live advance ends in some clock-ordered continuation iff its expiry leaves room for the grace period |
| `Safety.UnendingForever` | programs/credmesh-escrow/src/instructions/claim_and_settle.rs:99-105 | an advance whose expiry leaves no such room is live and unchanged after every continuation |
| `Safety.ExpiryIsUnbounded` | programs/credmesh-escrow/src/instructions/request_advance.rs:164-189 | no guard bounds the expiry: any advance that may be issued may also be issued with the largest expiry |
| `Safety.ExposureWithinOneAttestation` | programs/credmesh-escrow/src/instructions/request_advance.rs:222-241 | in every run an agent's live principal is within limit less outstanding of some single attestation accepted for it |
| `Safety.SlidingWindow` | programs/credmesh-escrow/src/instructions/request_advance.rs:193-220 | in every run with caps in (0, M] an agent is issued, in any 24 hours, at most M if M is below two minimum advances and at most 2M - MIN otherwise |
| `Safety.EveryWindowWithinCap` | programs/credmesh-escrow/src/instructions/request_advance.rs:206-220 | in such a run every window the ledger has ever had, past or current, holds at most the cap |
| `Scenarios.SlidingBoundReached` | programs/credmesh-escrow/src/state.rs:205-209 | for every cap an advance fits in, a run of accepted transactions from a fresh pool under that cap issues exactly the sliding bound in one 24-hour interval |
| `Scenarios.TrailingCapExactly` | programs/credmesh-escrow/src/state.rs:49-50 | no run exceeds the cap in any 24 hours iff the cap is below two minimum advances |
| `Scenarios.UnendingReached` | programs/credmesh-escrow/src/instructions/request_advance.rs:164-189 | a run without gifts issues an advance that every continuation leaves live |
| `Scenarios.SkimBreaksIdle` | programs/credmesh-escrow/src/instructions/skim_protocol_fees.rs:41-78 | a run of one loan, its settlement and a skim leaves less in the vault than the books call idle |
| `Scenarios.GiftBlocksLiquidation` | programs/credmesh-escrow/src/instructions/liquidate.rs:94-104 | after a gift and a withdrawal, liquidating the live advance fails at every time its window is open |
| `Window.LedgerRolls` | programs/credmesh-escrow/src/instructions/request_advance.rs:206-220 | rolling and charging the ledger keeps it equal to what the journal holds since its start, with every earlier issuance accounted for |
| `Safety.ParametersTimelocked` | programs/credmesh-escrow/src/instructions/execute_params.rs:18-34 | in every run each execution applies the latest proposal, made at least the timelock earlier, nothing in between; curves in force and pending are valid; timelock and chain id never change |
| `Safety.GovernanceControls` | crates/credmesh-shared/src/ix_introspection.rs:158-204 | staging parameters, skimming, and changing the signer list or its governance happen only in a transaction with a Squads instruction on the right vault; parameters in force change only to the staged ones |
| `Safety.AttestorsListed` | programs/credmesh-attestor-registry/src/lib.rs:48-100 | in every run the allow list is what additions and removals leave, and every advance was issued on a signer listed at that moment |
| `Safety.IssuanceIsSigned` | programs/credmesh-escrow/src/instructions/request_advance.rs:116-189 | an accepted request after a native verification means a listed signer signed exactly the encoder's bytes for the credit underwritten, for this agent, pool and cluster |
| `Completeness.DecidedIffPermitted` | programs/credmesh-escrow/src/lib.rs:20-64 | for every event, some transaction at that time makes the programs produce exactly it iff its declarative guards hold and the intermediate products fit their widths |
| `Shares.PriceFallsOnlyByLiquidation` | programs/credmesh-escrow/src/instructions/liquidate.rs:94-104 | a permitted event lowers the share price iff it is a liquidation |
| `Shares.PriceMonotone` | programs/credmesh-escrow/src/pricing.rs:12-46 | over any liquidation-free stretch of any run the share price does not fall and nothing is lost |
| `Shares.NoProfitFromRounding` | programs/credmesh-escrow/src/pricing.rs:12-46 | between two moments with the same share count and no liquidation, withdrawals are at most deposits plus LP fees |
| `Shares.ClaimsCovered` | programs/credmesh-escrow/src/pricing.rs:29-46 | in every run all holders' redemption values sum to less than assets + 1,000,000, and to at most the assets if nothing was liquidated; they are what the redeem preview returns, which errs for no holder while assets + 1,000,000 fits a u64 |
| `Pricing.DepositRedeemRoundTrip` | programs/credmesh-escrow/src/pricing.rs:10-46 | redeeming what a deposit minted never profits and loses less than a share's assets plus one atom |
| `Pricing.DepositKeepsPrice` | programs/credmesh-escrow/src/pricing.rs:12-27 | rounding the minted shares down never lowers the price |
| `Pricing.WithdrawKeepsPrice` | programs/credmesh-escrow/src/pricing.rs:31-46 | rounding the returned assets down never lowers the price |
| `Pricing.ComputeFeeAmount` | programs/credmesh-escrow/src/pricing.rs:52-101 | the step-by-step computation is the fee `FeeExactly` gives in figures, errors included |
| `Pricing.FeeExactly` | programs/credmesh-escrow/src/pricing.rs:52-101 | on a valid curve the fee is the floor of the principal times the piecewise curve rate plus the daily and per-default premiums, capped at the maximum rate |
| `Pricing.CurvePoints` | programs/credmesh-escrow/src/pricing.rs:61-79 | the curve passes through base at 0, kink rate at the kink and maximum at full utilization, with the exception of a kink of 10,000 |
| `Pricing.UtilizationRateMonotone` | programs/credmesh-escrow/src/pricing.rs:61-79 | on a valid curve the rate is defined and rises with utilization across the kink, including kinks 0 and 10,000 |
| `Pricing.FeeMonotone` | programs/credmesh-escrow/src/pricing.rs:52-101 | on a valid curve the fee never errors, lies between base and maximum rate, and rises with principal, duration, utilization and defaults |
| `Pricing.LatePenaltyBound` | programs/credmesh-escrow/src/pricing.rs:104-121 | a day's penalty never errors, and 130 of them are at most the principal under any surcharge |
| `Pricing.LatePenaltyExactly` | programs/credmesh-escrow/src/pricing.rs:104-121 | a day's penalty is a thousandth of the principal marked up by the surcharge, each rounded down |
| `Pricing.UtilizationWithinPool` | programs/credmesh-escrow/src/pricing.rs:124-134 | utilization is at most 10,000 while lending is within the assets |
| `Pricing.UtilizationExactly` | programs/credmesh-escrow/src/pricing.rs:124-134 | the lent share of the assets in basis points, rounded down; 10,000 for an empty pool |
| `Handlers.InitPool` | programs/credmesh-escrow/src/instructions/init_pool.rs:63-93 | a pool is accepted iff the percentage, timelock, chain id and curve guards hold, the first failing one names the error, and an accepted pool has zero counters, the given parameters and nothing pending |
| `Completeness.IssueIsAccepted` | programs/credmesh-escrow/src/instructions/request_advance.rs:102-306 | an advance the guards permit is issued, with exactly these terms, by a transaction carrying the encoded attestation |
| `Effects.DepositOutcome` | programs/credmesh-escrow/src/instructions/deposit.rs:38-92 | accepted iff the amount, the minted floor, the balances and the widths allow; the LP alone pays exactly the amount and gains exactly the floor; nothing else changes |
| `Effects.WithdrawOutcome` | programs/credmesh-escrow/src/instructions/withdraw.rs:38-99 | accepted iff the shares, the returned floor, the vault and the balances allow; the LP alone loses exactly the shares and gains exactly the floor; nothing else changes |
| `Effects.RequestOutcome` | programs/credmesh-escrow/src/instructions/request_advance.rs:102-306 | accepted iff a listed signer's fresh 128-byte credit for this agent, pool, nonce and cluster is shown and the amount is within minimum, limits, 86,400-second window, credit, vault and assets; the agent alone is paid, and advance, record and window appear with the quoted terms |
| `Effects.SettleOutcome` | programs/credmesh-escrow/src/instructions/claim_and_settle.rs:89-234 | accepted iff window, memo, payment, wallet, counters and widths allow; the agent alone pays principal and fees; treasury, vault and counters move by the stated parts; nothing else changes |
| `Effects.LiquidateOutcome` | programs/credmesh-escrow/src/instructions/liquidate.rs:70-114 | accepted iff 1,209,600 seconds have passed since the expiry and the counters cover the principal; the tombstone carries principal, expiry and the time; no token moves |
| `Effects.SkimOutcome` | programs/credmesh-escrow/src/instructions/skim_protocol_fees.rs:41-78 | accepted iff Squads governance, a positive amount within the accrued fees, the vault and the treasury's width; vault to treasury and nothing else but the accrued counter |
| `Effects.ProposeOutcome` | programs/credmesh-escrow/src/instructions/propose_params.rs:34-56 | accepted iff Squads governance and a curve in order; the parameters are staged for exactly now plus the timelock |
| `Effects.ExecuteOutcome` | programs/credmesh-escrow/src/instructions/execute_params.rs:18-34 | accepted iff something is staged and its time has come; exactly the staged parameters come into force |
| `Effects.RegistryOutcome` | programs/credmesh-attestor-registry/src/lib.rs:48-100 | adding, removing and handing over are accepted iff authorised and applicable, and change exactly the entry or the governance given |
| `Refusals.DepositRefused` | programs/credmesh-escrow/src/instructions/deposit.rs:38-92 | which of the three errors a refused deposit gets, state by state |
| `Refusals.WithdrawRefused` | programs/credmesh-escrow/src/instructions/withdraw.rs:38-99 | which of the four errors a refused withdrawal gets, state by state |
| `Refusals.RequestRefused` | programs/credmesh-escrow/src/instructions/request_advance.rs:102-306 | which error a refused request gets: accounts, minimum, attestation, window, credit, absolute limit, vault, wallet, exposure, in that order |
| `Refusals.SettleRefused` | programs/credmesh-escrow/src/instructions/claim_and_settle.rs:89-222 | which error a refused settlement gets: accounts, payer, window, memo, payment, transfers, counters, in that order |
| `Refusals.LiquidateRefused` | programs/credmesh-escrow/src/instructions/liquidate.rs:70-104 | which of the four errors a refused liquidation gets, state by state |
| `Handlers.AcceptCredit` | programs/credmesh-escrow/src/instructions/request_advance.rs:116-189 | an accepted attestation is the decoded previous instruction, for this agent, pool, cluster and nonce, at most 15 minutes old, unexpired, from a listed bridge signer |
| `Handlers.ChargeLedger` | programs/credmesh-escrow/src/instructions/request_advance.rs:193-241 | a charged ledger is within the window cap, and outstanding plus live plus the new amount within the credit limit |
| `Effects.SplitAccepted` | programs/credmesh-escrow/src/instructions/claim_and_settle.rs:121-169 | the split succeeds iff the payment covers principal plus fee plus late penalty and the lateness fits; the cut is 15% of those fees, rounded down, and the LPs get the rest |
| `Program.Escrow.constructor` | programs/credmesh-escrow/src/instructions/init_pool.rs:76-93 | the fresh object is the start of a run |
| `Program.Escrow.Process` | programs/credmesh-escrow/src/lib.rs:20-64 | each call takes exactly one step of a run: the decided event's effect, or no change and the decided error |
| `Program.Escrow.Deposit` | programs/credmesh-escrow/src/instructions/deposit.rs:38-92 | the decided event or error, and exactly that event's effect on all accounts; in figures, what `DepositAsks` and `DepositDoes` say |
| `Program.Escrow.Withdraw` | programs/credmesh-escrow/src/instructions/withdraw.rs:38-99 | as for deposit, with the burn before the payment: the LP's shares fall by exactly those given, nobody else's move |
| `Program.Escrow.RequestAdvance` | programs/credmesh-escrow/src/instructions/request_advance.rs:102-306 | as for deposit: the new advance, consumed record, ledger and balances together, or nothing |
| `Program.Escrow.RollAndCharge` | programs/credmesh-escrow/src/instructions/request_advance.rs:193-241 | the ledger updates made before the credit check are the specified charge |
| `Program.Escrow.ClaimAndSettle` | programs/credmesh-escrow/src/instructions/claim_and_settle.rs:89-234 | as for deposit: transfers, both counters, fees, and the closed advance together, or nothing |
| `Program.Escrow.ComputeWaterfall` | programs/credmesh-escrow/src/instructions/claim_and_settle.rs:121-169 | the settlement arithmetic, clamp and overflow checks included, is the specified split, and succeeds iff the payment covers principal, fee and late penalty |
| `Program.Escrow.Liquidate` | programs/credmesh-escrow/src/instructions/liquidate.rs:70-114 | as for deposit: from 1,209,600 seconds after the expiry on, loss, tombstone and closed advance together, or nothing |
| `Program.Escrow.ProposeParams` | programs/credmesh-escrow/src/instructions/propose_params.rs:34-56 | as for deposit; the caller's own execution time is overwritten |
| `Program.Escrow.ExecuteParams` | programs/credmesh-escrow/src/instructions/execute_params.rs:18-34 | as for deposit |
| `Program.Escrow.SkimProtocolFees` | programs/credmesh-escrow/src/instructions/skim_protocol_fees.rs:41-78 | as for deposit; the booked assets stay |
| `Program.Escrow.AddAllowedSigner` | programs/credmesh-attestor-registry/src/lib.rs:48-72 | as for deposit, on the signer list |
| `Program.Escrow.RemoveAllowedSigner` | programs/credmesh-attestor-registry/src/lib.rs:74-82 | as for deposit, on the signer list |
| `Program.Escrow.SetGovernance` | programs/credmesh-attestor-registry/src/lib.rs:84-100 | as for deposit, on the registry's governance |
| `Attestation.EncodeAttestation` | ts/bridge/src/attestation.ts:32-82 | returns the canonical 128 bytes iff every field has its length and range, and throws the right error otherwise |
| `Attestation.DecodeOfLayout` | programs/credmesh-escrow/src/instructions/request_advance.rs:148-170 | decoding an encoded credit gives back every field, signed ones included, and version 1 |
| `Attestation.LayoutOfDecode` | crates/credmesh-shared/src/lib.rs:83-111 | re-encoding any decoded version-1 message gives back the same 128 bytes |
| `Attestation.FieldPositions` | crates/credmesh-shared/src/lib.rs:69-111 | where each field lies in the 128 bytes and how its bytes make the number, signed ones included |
| `Introspection.ParsedIsVerified` | crates/credmesh-shared/src/ix_introspection.rs:67-128 | the returned key and message are ones the native program verified, whatever the offsets |
| `Introspection.SignedExactly` | crates/credmesh-shared/src/ix_introspection.rs:51-128 | a key and a message are returned iff the previous instruction is an ed25519 one with exactly one signature whose three instruction indices name itself and whose offsets lie inside it; they are the bytes there |
| `Introspection.RejectedFor` | crates/credmesh-shared/src/ix_introspection.rs:75-110 | more than one signature is malformed; an index naming another instruction is a mismatch |
| `Introspection.PackedIsParsed` | crates/credmesh-shared/src/ix_introspection.rs:51-128 | a self-contained verify instruction just before the current one is parsed back to its key and message, at any position in the transaction |
| `Introspection.RequireMemoNonce` | crates/credmesh-shared/src/ix_introspection.rs:141-156 | finds a memo with these bytes iff one is among the first 64 instructions |
| `Introspection.RequireSquadsGovernanceCpi` | crates/credmesh-shared/src/ix_introspection.rs:182-204 | succeeds iff one of the first 64 instructions is a Squads one listing the vault as writable |
| `Introspection.ScansSeeFirst64` | crates/credmesh-shared/src/ix_introspection.rs:130-204 | both scans depend on exactly the first 64 instructions |
| `Base58.BytesToBase58` | ts/bridge/src/event_tail.ts:213-237 | the output is in the alphabet and decodes to the input iff the input has a nonzero byte; n zero bytes give n + 1 ones |
| `Base58.AlphabetIs` | ts/bridge/src/event_tail.ts:214 | the characters are the digits and letters without 0, I, O and l |
| `Base58.KnownDecodings` | ts/bridge/src/event_tail.ts:213-237 | published base58 strings decode to their bytes, most significant first |
| `Base58.AddByte` | ts/bridge/src/event_tail.ts:221-232 | the two carry loops turn the digits of v into those of 256 v + b, with a nonzero top digit |
| `RateLimiting.RateLimiter.Consume` | ts/bridge/src/index.ts:141-154 | after any history, accepts iff the call keeps its key within capacity plus refill over every interval up to now, and leaves every other key's bucket alone |
| `RateLimiting.AcceptedCallsBounded` | ts/bridge/src/index.ts:135-155 | with a clock that never runs back, calls accepted for one key in any interval number at most the capacity plus the refill over its length |
| `RateLimiting.AcceptsExactly` | ts/bridge/src/index.ts:141-154 | after any attempts under any keys, a call is accepted iff over every interval ending now the accepted cost for its key plus its own is at most the capacity plus the refill over the interval |
| `RateLimiting.BurstAccepted` | ts/bridge/src/index.ts:141-154 | until a key's calls add up to more than the capacity every one is accepted, however fast |
| `RateLimiting.SpacedCallsAccepted` | ts/bridge/src/index.ts:135-155 | unit calls at least one token's refill apart are all accepted, whatever other keys do |

## Left out

- Program.Escrow.constructor: creating the vault and share mint, rent, bumps, discriminators and address derivation are account plumbing; record fields that repeat an address's seeds, and the advance state that is only ever observed as issued, are left out with them.
- Scenarios.TrailingCapExactly: for caps with 2,000 times the cap within a u64, so that one deposit can fund the run; the half saying that small caps do trail has no such bound.
- Scenarios.SlidingBoundReached: the same bound on the cap.
- Refusals.RequestRefused: where gifts have let lending exceed the booked assets no request succeeds, but whether pricing or the exposure check stops it is not said.
- Pricing.FeeExactly: valid curves and utilization of at most 10,000; above that, which only a gift makes possible, no advance is issued.
- Safety.EndsIffExpiryLeavesRoom: runs without gifts; with gifts an open liquidation can be refused until the booked assets grow again.
- Completeness.DecidedIffPermitted: the token program's own supply counter for shares is not kept; it never exceeds the pool's share count, whose overflow is checked.
- Safety.FeeAndTokenAccounting: one USDC wallet per key; the treasury is an account of its own, never the wallet of an LP or an agent.
- RateLimiting.AcceptedCallsBounded: seconds and tokens are real numbers, so floating-point rounding is not modelled.
- Safety.IssuanceIsSigned: ed25519 itself is an uninterpreted check performed by the native program.
- Squads and Memo are only the transaction scans; what a Squads instruction authorises is outside the model.
- `max_advance_pct_bps` is stored and carried but, as in the code, enforced nowhere after `init_pool`.
- HTTP server, EVM reads, websocket tail, event forwarding, keeper loop, deployment scripts: input and output.
- `ts/server` pricing and sign-in: floating point with other formulas, and a small nonce map.
- `cross_program.rs`: a straight-line account check over opaque deserialisation.
