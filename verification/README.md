# Imari bank: verified model of the money core

A Dafny model of the part of the Imari banking back end that holds and moves money, with the sessions, codes
and limits around it. `dafny verify dfyconfig.toml` checks the whole project.

## How the model is built

* **Tables.** `Schema` has one datatype per table and the class `Database`, whose fields are the tables that the
  services update. A row id is the position of the row: rows are only appended, so new ids are new. Money is a
  whole number of 0.0001 units, the precision of `Decimal(18,4)`. `Database.Snapshot()` is the value of all tables.
* **Services.** `WalletService`, `SavingsService`, `VirtualCardService`, `AdminFinanceService`, `AdminKycService` and
  `OnboardingService` are written as the original is, check by check and write by write on the fields of
  `Database`. Each method is proved equal to a specification function of the state before it, and the serializable
  transaction of an endpoint is a method of its own, proved for whatever rows it is given.
* **Specifications.** A money endpoint first reads outside any database transaction and then writes inside one
  serializable transaction. `Endpoints.Check` is the first phase; it yields a *flight* that carries the rows it has
  read. `Endpoints.Land` is the second phase; it uses the carried rows exactly where the source does, and fresh
  ones where the source reads again. `Endpoints.Serve` is both phases without interruption. `Direct` specifies the
  endpoints served in one piece.
* **Machine.** `Machine.Run` runs any sequence of actions from the empty bank: whole requests, checks that park a
  flight, and flights that land or are aborted by the database, in any interleaving. The log collects what each
  call reported. Laws over whole runs relate the tables to that log, or to the ledger alone.
* **Stale rows.** A flight is `Fresh` when the columns its transaction writes back still hold what it has read.
  `UndisturbedRun` says that no stale flight lands. Deposits and transfers carry no row, so they may interleave with
  everything. `Drift` gives the law without the condition: after any run at all the rows are off by exactly the columns
  carried less the columns overwritten, summed over the flights that landed stale, and the ledger is never off. The
  lemmas of `Interleaving` show that the condition is exact for each endpoint: a withdrawal or vault move leaves its
  rows reconciled if and only if its flight was fresh, and a completion settles for the first time if and only if the
  ledger still balances under its transaction.
* **Admission and attribution.** `Admission`, `CardTerms` and `Onboarding` say exactly which requests go through and
  what they record, `Attribution` that every row and ledger entry names its owners, and `CashFlows` what that does to
  the users' snapshots.
* **Witnesses.** What an exact condition leaves open is reached by a concrete run from the empty bank in `Witnesses`.
* **Around the core.** `Sessions`, `OneTimeCodes`, `LoginLockout` and `PinThrottle` are machines of their own with a
  class that updates the table in place; `Analytics` is the monthly fold and `Months` its calendar; `Luhn` is the card check digit.

## What the proofs found

* Completing a withdrawal does not lower `balance` (wallet.service.ts:810-835), so `balance` exceeds
  `availableBalance` by every withdrawal ever opened, settled or not (`Books.WalletReconciles`).
* A settled deposit or withdrawal has a single settlement leg; the "sum MUST be zero" rule of
  prisma/schema.prisma:561-563 fails for exactly these, by exactly their amount (`Lifecycle.LedgerImbalanceExact`).
* The suspense account is credited when deposits and withdrawals are opened, and no settlement ever debits it, although
  comments in the source say that funds leave suspense (`Books.SuspenseReconciles`).
* A withdrawal, a vault move and a completion whose rows go stale between check and transaction break the books by
  exactly their gap (`Drift`): 120 units are opened for withdrawal where 100 were deposited
  (`Witnesses.StaleWithdrawalOverdraws`), 60 units are withdrawn and saved at once
  (`Witnesses.StaleVaultDepositDoubles`), and one deposit is credited twice (`Witnesses.DepositCreditedTwice`).
* A transfer stores its idempotency key after the money has moved and looks only at keys of the same user, so a key
  taken by another user lets the money move and then fails (`Transfers.TransferIgnoresForeignKeysExactly`); sent again,
  the same request moves the money again (`Witnesses.ForeignKeyMovesTwice`).
* A transfer does not compare the receiver's currency; money per currency is kept exactly when the two wallets
  share it (`Transfers.TransferKeepsCurrenciesExactly`, `Witnesses.TransferChangesCurrency`).
* A savings rule may hold a negative amount; its deposit then takes money out of the vault
  (`Solvency.SolventExactly`, `Witnesses.NegativeRuleEmptiesVault`).
* The error handler of the rule loops writes an audit action that prisma/schema.prisma:235-254 does not have, so the
  first rejected deposit ends the loop instead of being skipped. Told from the state before the loop, every deposit is
  made if and only if each finds its wallet and the wallet covers it with all before it
  (`RuleCompletion.LoopCompletesExactly`); a later rule that could be paid is lost
  (`Witnesses.RejectedRuleStopsLaterOne`).
* Nothing resets `spentToday`, so a daily card limit bounds the card's lifetime; the spending limit is no bound, since
  outstanding authorizations are not counted: it holds under all captures exactly when it covers what is spent and
  everything outstanding (`CardLimits.CapturesKeepSpendingLimitExactly`, `Witnesses.CapturesExceedLimit`).
* The hash of a request does not contain the endpoint, so a withdrawal under a deposit's key is answered with the
  deposit's response and opens nothing (`KeyRecords.WithdrawalGetsDepositsAnswer`).
* A rejection checked before an approval and written after it undoes the verification and keeps the tier
  (`KycGate.StaleRejectionExactly`, `KycGate.ReviewsCheckedTogether`).
* The PIN check of a withdrawal does not look at the PIN lock (`PinThrottle.WithdrawalsAreNotThrottled`).

* The daily limit of a wallet is compared with one transfer and not with a day (`TransferLimits.SameAgainExactly`); no
  request of the model locks a wallet or changes its limit (`TransferLimits.TransfersAlwaysCapped`).
* Nothing grants the third tier, so no wallet in UGX or TZS is ever opened (`Onboarding.WalletOpenedExactly`).
* A partial reversal of a card payment takes the whole payment out of its owner's cash flow
  (`CashFlows.CardReversalMovesCashFlow`), and a vault withdrawal never lowers what a snapshot shows as saved
  (`CashFlows.SavingShows`).

## Model

| member | source | states |
|---|---|---|
| WalletService.InitiateDeposit | src/modules/wallet/wallet.service.ts:219-314 | in-place deposit initiation: answers a known key, rejects in the source's order, else reserves the key, adds a PENDING transaction with its two suspense legs and stores the response; all tables as `Serve` says |
| WalletService.CommitDeposit | src/modules/wallet/wallet.service.ts:245-309 | the deposit's transaction, write by write, leaves all tables as `LandDeposit` says and aborts on a key taken meanwhile |
| WalletService.InitiateWithdraw | src/modules/wallet/wallet.service.ts:317-420 | in-place withdrawal: checks, key, PENDING transaction, hold legs, and only `availableBalance` lowered; all tables as `Serve` says |
| WalletService.CommitWithdrawal | src/modules/wallet/wallet.service.ts:351-415 | the withdrawal's transaction on the wallet row read before it, stale or not, as `LandWithdraw` says |
| WalletService.TransferP2P | src/modules/wallet/wallet.service.ts:516-717 | in-place transfer: moves both columns of both wallets with two legs, then stores the key or reports that it is taken; all tables as `Serve` says |
| WalletService.CommitTransfer | src/modules/wallet/wallet.service.ts:586-689 | the transfer's transaction reads both wallets again, refuses an overdraft, and moves both columns of both, as `LandTransfer` says |
| WalletService.CompleteTransaction | src/modules/wallet/wallet.service.ts:762-838 | settles a PENDING deposit (wallet credited) or withdrawal (payout leg only) of its own user, and nothing else |
| Admission.AnsweredExactly | src/modules/wallet/wallet.service.ts:317-350 | a deposit, withdrawal or vault move opens iff wallet or vault is the user's, PIN, lock, currency and funds allow it and the key is unused; it gets the stored answer iff they allow it and the same user used the key for the same content; else it is rejected and changes nothing |
| Admission.OpenedRecordsRequest | src/modules/wallet/wallet.service.ts:258-306 | the new row, the stored key and the answer carry the request's own user, wallet or vault, amount, currency, key and time |
| Admission.RefusalsTell | src/modules/wallet/wallet.service.ts:321-341 | which refusals a wrong PIN, a lock, another user's wallet or vault and a key used otherwise get |
| Admission.FundRecordsContribution | src/modules/savings/savings.service.ts:156-166 | a vault deposit leaves one contribution of its vault, wallet, transaction, amount and source |
| Admission.HoldRecordsBalance | src/modules/wallet/wallet.service.ts:380-393 | the hold of a withdrawal records the wallet's balance and what remains after payout |
| Admission.DepositNamesProvider | src/modules/wallet/wallet.service.ts:275-300 | the debit side of a deposit is the provider of the request |
| Admission.SettledExactly | src/modules/wallet/wallet.service.ts:764-808 | in every reachable state a completion settles iff the transaction is a pending deposit or withdrawal on a wallet of the caller; strangers are refused, settled ones answered with their status |
| Admission.SettlerOpenedIt | src/modules/wallet/wallet.service.ts:770-774 | over runs, whoever settles a transaction is the user who opened it |
| Attribution.AlwaysAttributed | src/modules/wallet/wallet.service.ts:607-671 | in every run each transaction names the owners of its wallets in their roles, and each ledger entry has the account, direction, currency and amount its transaction accounts for |
| WalletService.CreateWallet | src/modules/wallet/wallet.service.ts:106-160 | adds an empty non-primary wallet if the tier allows the currency and the user has none in it |
| WalletService.EnsurePrimaryWallet | src/modules/wallet/wallet.service.ts:36-71 | adds a primary RWF wallet exactly when the user has no wallet |
| WalletService.SetPrimaryWallet | src/modules/wallet/wallet.service.ts:166-208 | the loop that clears the mark and the write that sets it leave exactly the specified marks |
| SavingsService.CreateVault | src/modules/savings/savings.service.ts:37-60 | an empty, unlocked vault on a wallet of the same user |
| SavingsService.SetVaultLock | src/modules/savings/savings.service.ts:95-105 | only the lock of the user's own vault changes |
| Admission.VaultMadeExactly | src/modules/savings/savings.service.ts:37-60 | a vault is made iff the wallet is the user's, and only that user can then pay into it |
| Admission.LockedVaultPaysNothing | src/modules/savings/savings.service.ts:183-189 | nothing leaves a locked vault, unlocking restores it, and only its owner does either |
| SavingsService.DepositToVault | src/modules/savings/savings.service.ts:108-180 | in-place move from wallet to vault with legs, contribution and key; all tables as `Serve` says |
| SavingsService.CommitDeposit | src/modules/savings/savings.service.ts:126-177 | the vault deposit's transaction on the rows read before it, stale or not, as `LandFund` says |
| SavingsService.WithdrawFromVault | src/modules/savings/savings.service.ts:183-237 | in-place move from vault to wallet with legs and key; all tables as `Serve` says |
| SavingsService.CommitWithdrawal | src/modules/savings/savings.service.ts:202-234 | the vault withdrawal's transaction on the rows read before it, stale or not, as `LandDrain` says |
| SavingsService.ApplyRulesForTransaction | src/modules/savings/savings.service.ts:273-299 | the loop makes the deposits of the rules in order up to the first rejected one, and says whether it completed |
| SavingsService.RunScheduledRules | src/modules/savings/savings.service.ts:302-314 | the same for scheduled rules, each for its own user |
| SavingsRules.RoundUpIsLeast | src/modules/savings/savings.service.ts:278-285 | a round-up saving is positive, below one unit, and the least that takes the spending to a whole unit; none iff it is whole |
| SavingsRules.PercentageIsExact | src/modules/savings/savings.service.ts:288-292 | a percentage rule saves exactly its share of a positive amount, none iff the share is not positive |
| SavingsRules.RulesAskForSavings | src/modules/savings/savings.service.ts:278-292 | a rule's deposit is on its own vault, for the sender or the rule's owner, of its saving and under its source |
| SavingsRules.DepositAllOrNothing | src/modules/savings/savings.service.ts:126-177 | one rule's deposit moves its full amount with one contribution record of that amount, or leaves every table as it was |
| SavingsRules.RulesConserve | src/modules/savings/savings.service.ts:273-314 | for any rule list wallets plus vaults are conserved, and the vaults gain what the contribution records created add up to |
| SavingsRules.RulesAreARun | src/modules/savings/savings.service.ts:273-314 | the rule loop is an undisturbed run of ordinary vault deposits |
| SavingsRules.RulesKeepBooks | src/modules/savings/savings.service.ts:273-314 | after any reachable state and any rule list all books still agree |
| SavingsRules.StopsAtFirstRejection | src/modules/savings/savings.service.ts:294-297 | the loop is cut short iff a deposit was rejected, and that is the last one made |
| RuleCompletion.LoopCompletesExactly | src/modules/savings/savings.service.ts:273-299 | from the state before: under generated keys every deposit is made iff each vault is its requester's and has a wallet, and each wallet covers, deposit by deposit, all that draw on it so far |
| RuleCompletion.StopsAtFirstUnpayable | src/modules/savings/savings.service.ts:294-297 | the loop is cut short at the first deposit that is not payable and leaves exactly what the ones before it made |
| Witnesses.RejectedRuleStopsLaterOne | src/modules/savings/savings.service.ts:294-297 | in a reachable state a rejected rule keeps a later payable one from being applied |
| VirtualCardService.GenerateCardNumber | src/modules/virtual-card/virtual-card.service.ts:14-33 | the two loops extend fifteen digits to sixteen that the independent validator accepts |
| Luhn.CheckDigitIsTheOne | src/modules/virtual-card/virtual-card.service.ts:21-32 | for a prefix of any length a last digit makes the number valid iff it is the generated one |
| Luhn.SingleErrorDetected | src/modules/virtual-card/virtual-card.service.ts:13-33 | changing any single digit of a valid number makes it invalid |
| Luhn.ExchangeDetectedExactly | src/modules/virtual-card/virtual-card.service.ts:13-33 | exchanging two different neighbours goes unnoticed iff they are 0 and 9 |
| VirtualCardService.CreateVirtualCard | src/modules/virtual-card/virtual-card.service.ts:43-107 | an active card with nothing spent, on a wallet of the same user |
| VirtualCardService.UpdateVirtualCard | src/modules/virtual-card/virtual-card.service.ts:164-192 | replaces exactly the limits that are given |
| VirtualCardService.FreezeVirtualCard | src/modules/virtual-card/virtual-card.service.ts:194-208 | only the status of the user's own card changes |
| VirtualCardService.AuthorizeTransaction | src/modules/virtual-card/virtual-card.service.ts:210-298 | PENDING card payment under a unique key, AUTHORIZED record and higher daily spending, within both limits as they stand; a key any transaction carries aborts it |
| VirtualCardService.CaptureTransaction | src/modules/virtual-card/virtual-card.service.ts:300-398 | captures up to the authorized amount once; ledger legs only, the wallet row untouched |
| VirtualCardService.ReverseTransaction | src/modules/virtual-card/virtual-card.service.ts:400-489 | gives back up to the captured amount of a COMPLETED payment to both spending counters |
| CardTerms.AuthorizedExactly | src/modules/virtual-card/virtual-card.service.ts:210-234 | a payment is authorized iff card, status, currency, both limits and an unused key allow it |
| CardTerms.AuthorizationRecords | src/modules/virtual-card/virtual-card.service.ts:244-286 | it reserves its amount of the day and records the owner's pending payment from the card's wallet |
| CardTerms.CapturedExactly | src/modules/virtual-card/virtual-card.service.ts:300-389 | in every reachable state a capture succeeds iff the authorization is open, on the user's card and covers the part asked for, and books exactly that part, or all, on record, payment, card, both legs and history |
| CardTerms.ReversedExactly | src/modules/virtual-card/virtual-card.service.ts:400-480 | a reversal succeeds iff the payment is completed, on the user's card and covers the part, and takes exactly that part, or all, off both counters and back in both legs |
| CardTerms.OnlyCardPaymentsReverse | src/modules/virtual-card/virtual-card.service.ts:400-416 | nothing but the user's own card payment is reversed |
| CardTerms.CardMadeExactly | src/modules/virtual-card/virtual-card.service.ts:43-84 | a card is made iff the wallet is the user's, and its limits bind its payments |
| CardTerms.FrozenCardPaysNothing | src/modules/virtual-card/virtual-card.service.ts:194-208 | a frozen card authorizes nothing, and activating it restores it |
| CardTerms.NewLimitsBind | src/modules/virtual-card/virtual-card.service.ts:164-173 | limits that are given bind the next payment, those not given stay |
| CardAccounting.CardsAlwaysOk | src/modules/virtual-card/virtual-card.service.ts:210-489 | in every state of every run, rows, transactions and spending of all cards agree with the reported history |
| CardAccounting.SpendingFollowsHistory | src/modules/virtual-card/virtual-card.service.ts:280-286 | 0 <= total <= today; the gap is exactly the uncaptured authorized amounts; each authorization is captured and reversed at most once |
| CardAccounting.DailyLimitBoundsLifetime | src/modules/virtual-card/virtual-card.service.ts:229-231 | after an authorization the limit in force bounds everything ever authorized on the card net of reversals |
| CardLimits.CaptureReleases | src/modules/virtual-card/virtual-card.service.ts:311-354 | a capture lowers spent plus outstanding by exactly the part of its authorization left uncaptured |
| CardLimits.CapturesKeepSpendingLimitExactly | src/modules/virtual-card/virtual-card.service.ts:232-234 | in every reachable state no captures, in any number, order and parts, take a card above its spending limit iff the limit covers what is spent and everything outstanding |
| Witnesses.CapturesExceedLimit | src/modules/virtual-card/virtual-card.service.ts:232-234 | a run ends with 120 captured on a card limited to 100 |
| AdminFinanceService.FreezeWallet | src/modules/admin/finance/admin-finance.service.ts:633-655 | freezes exactly an active wallet |
| AdminFinanceService.UnfreezeWallet | src/modules/admin/finance/admin-finance.service.ts:657-678 | reactivates exactly a frozen wallet |
| AdminFinanceService.ReverseTransaction | src/modules/admin/finance/admin-finance.service.ts:680-711 | marks a COMPLETED or PROCESSING transaction REVERSED and moves no money |
| AdminFinanceService.FlagTransaction | src/modules/admin/finance/admin-finance.service.ts:713-748 | marks any transaction not yet flagged and moves no money |
| CashFlows.AdminMarksExactly | src/modules/admin/finance/admin-finance.service.ts:680-729 | reversing works iff completed or processing, flagging iff not flagged, and only the status changes |
| CashFlows.AdminMarkMovesCashFlow | src/modules/admin/finance/admin-finance.service.ts:680-748 | either mark takes a completed transaction out of the cash flow of its parties while its money stays moved |
| AdminKycService.ApproveKyc | src/modules/admin/kyc/admin-kyc.service.ts:66-98 | verifies an undecided document together with its user and the user's tier |
| AdminKycService.RejectKyc | src/modules/admin/kyc/admin-kyc.service.ts:100-131 | rejects an undecided document together with its user |
| OnboardingService.Register | src/modules/auth/auth.service.ts:55-92 | a pending user of the lowest tier, unless the e-mail address or the phone number is registered |
| OnboardingService.VerifyEmail | src/modules/auth/auth.service.ts:94-118 | activates the user once and ensures the primary wallet |
| OnboardingService.SubmitKyc | src/modules/identity/identity.service.ts:152-195 | upserts the one document of an unverified user and clears its rejection |
| Onboarding.StatusAlwaysTells | src/modules/admin/kyc/admin-kyc.service.ts:80-84 | in every run users are active iff their e-mail is verified, of the second tier iff their identity is, and the identity status is what their one document says |
| Onboarding.VerifiedByCodeExactly | src/modules/auth/auth.service.ts:94-111 | exactly those users have a verified e-mail for whom a code was accepted in the run |
| Onboarding.ReviewedExactly | src/modules/admin/kyc/admin-kyc.service.ts:66-131 | an approval or rejection succeeds iff the document's user waits for a decision, and decides document and user together |
| Onboarding.SubmittedExactly | src/modules/identity/identity.service.ts:152-188 | a submission is taken iff the user is active and not verified, who then waits for a decision |
| Onboarding.WalletOpenedExactly | src/modules/wallet/wallet.service.ts:106-131 | a wallet is opened iff none is open in its currency and that is RWF, or USD, EUR or KES with a verified identity |
| Onboarding.OpenedWalletIsReady | src/modules/wallet/wallet.service.ts:133-160 | it is empty, active, unlocked, not primary and the user's |
| Onboarding.PrimarySetExactly | src/modules/wallet/wallet.service.ts:166-208 | the owner of an active or already primary wallet, and nobody else, makes it the one primary wallet |
| Onboarding.RegisteredExactly | src/modules/auth/auth.service.ts:56-65 | a registration succeeds iff nobody has the address or the number, and then nobody registers with either again |
| Onboarding.FrozenExactly | src/modules/admin/finance/admin-finance.service.ts:633-678 | exactly an active wallet is frozen and a frozen one unfrozen; nothing else moves |
| Onboarding.FreezeUnfreeze | src/modules/admin/finance/admin-finance.service.ts:633-678 | freezing and unfreezing undo each other and neither works twice |
| Onboarding.GuardNeedsVerifiedEmail | src/modules/auth/strategies/jwt.strategy.ts:48-58 | the guarded requests of a user without a verified e-mail are refused |
| KycGate.ContactsAlwaysDistinct | src/modules/auth/auth.service.ts:56-65 | in every state of every run no two users share an e-mail address or a phone number |
| KycGate.GateAlwaysHolds | src/modules/wallet/wallet.service.ts:21-26 | in every state of every run wallets, users, documents and primary marks satisfy the whole gate invariant |
| KycGate.ForeignWalletsAreVerified | src/modules/wallet/wallet.service.ts:115-122 | a non-RWF wallet belongs to a user verified by an approved document |
| KycGate.ExactlyOnePrimary | src/modules/wallet/wallet.service.ts:162-196 | an e-mail-verified user has exactly one primary wallet |
| KycGate.OneWalletPerCurrencyAlways | src/modules/wallet/wallet.service.ts:124-131 | no user ever has two wallets in one currency |
| KycGate.VerifiedForEver | src/modules/identity/identity.service.ts:160-162 | a verified user stays verified in every continuation |
| KycGate.StaleSubmissionExactly | src/modules/identity/identity.service.ts:153-188 | a submission written after a stale check keeps the gate iff the user is still unverified at the write |
| KycGate.StaleRejectionExactly | src/modules/admin/kyc/admin-kyc.service.ts:100-131 | a rejection written after a stale check keeps the gate and verified identities iff the document is still not approved |
| KycGate.StaleApprovalKeepsGate | src/modules/admin/kyc/admin-kyc.service.ts:66-98 | an approval written after a stale check keeps the gate whatever happened since |
| KycGate.ReviewsCheckedTogether | src/modules/admin/kyc/admin-kyc.service.ts:66-131 | an approval and a rejection checked together end refused with the verified tier |
| KycGate.MovePrimaryKeeps | src/modules/wallet/wallet.service.ts:183-196 | moving the mark leaves its user exactly one primary wallet and every other user's untouched |
| Endpoints.PrimaryWallet | src/modules/wallet/wallet.service.ts:544-548 | finds an active primary wallet of the user whenever there is one |
| Direct.AuthOf | src/modules/virtual-card/virtual-card.service.ts:401-408 | finds the card record of a transaction whenever there is one |
| Effects.LandEffect | src/modules/wallet/wallet.service.ts:245-835 | each transaction of a fresh flight moves wallet columns, vaults and every ledger account by exactly what its outcome means |
| Effects.GuardedEffect | src/modules/virtual-card/virtual-card.service.ts:356-480 | the same for every request served in one piece; only card captures and reversals post legs |
| Effects.ServeEffect | src/modules/savings/savings.service.ts:108-237 | the same for every uninterrupted money request |
| Books.BooksHold | src/modules/wallet/wallet.service.ts:219-838 | in every undisturbed run: balances plus vaults equal settled deposits; available plus vaults equal settled deposits minus opened withdrawals; every wallet and vault reconciles with the ledger and the holds; the ledger's imbalance is exact; suspense and payout accounts reconcile |
| Books.AlwaysWired | src/modules/wallet/wallet.service.ts:767-774 | in every run a parked request keeps what its checks relied on, and card records refer to card payments |
| Books.StepGrows | prisma/schema.prisma:605-657 | no step drops rows, changes the terms of a transaction or returns one to PENDING |
| WalletHistory.WalletsFollowLedger | src/modules/wallet/wallet.service.ts:626-671 | both columns of every wallet are sums of ledger entries alone, and every wallet entry except a hold records the wallet's balance before and after |
| VaultHistory.VaultEntriesChain | src/modules/savings/savings.service.ts:150-171 | every vault entry records the running sum before and after itself |
| VaultHistory.ConsecutiveEntriesMeet | src/modules/savings/savings.service.ts:223-229 | the next entry of a vault starts from what the previous one ended with |
| Solvency.SolventAlways | src/modules/wallet/wallet.service.ts:333-409 | 0 <= availableBalance <= balance and no negative vault, in every undisturbed run of valid amounts |
| Solvency.SolventExactly | src/modules/savings/savings.service.ts:108-171 | an undisturbed run with vault deposits of any sign is solvent throughout iff no deposit takes more out of its vault than the vault holds |
| Witnesses.NegativeRuleEmptiesVault | src/modules/savings/savings.service.ts:286-287 | a run in which a rule with a negative amount takes a vault below zero |
| Solvency.TermsAlwaysPositive | src/modules/wallet/wallet.service.ts:222-223 | under every interleaving only positive deposits and withdrawals are ever opened |
| Solvency.FundKeepsVaultExactly | src/modules/savings/savings.service.ts:286-287 | a vault deposit of any sign keeps solvency iff it takes no more than the vault holds |
| Lifecycle.SettledAtMostOnce | src/modules/wallet/wallet.service.ts:764-808 | each deposit and withdrawal is settled at most once and only out of PENDING, with admin and card steps interleaved |
| Lifecycle.LedgerImbalanceExact | src/modules/wallet/wallet.service.ts:783-826 | credits minus debits of a transaction: 0, or +amount for a settled deposit, or -amount for a settled withdrawal |
| Lifecycle.NeverPendingAgain | src/modules/admin/finance/admin-finance.service.ts:680-729 | under every interleaving a transaction that left PENDING never returns to it |
| Lifecycle.StepSettles | src/modules/wallet/wallet.service.ts:776-803 | a settling step settles a transaction that was PENDING, for its own amount, into its own wallet |
| Drift.BooksAreOffByGaps | src/modules/wallet/wallet.service.ts:333-415 | in every run and interleaving each wallet, each vault and both totals are off by exactly the summed gaps of the stale transactions; the ledger and suspense laws hold without condition |
| Drift.BooksAgreeExactly | src/modules/savings/savings.service.ts:108-237 | after any run the books agree iff those gaps cancel |
| Drift.NeverNegative | src/modules/wallet/wallet.service.ts:333-409 | under every interleaving of valid requests no available balance and no vault falls below zero |
| Drift.OverdraftIsAtMostTheGaps | src/modules/wallet/wallet.service.ts:333-415 | withdrawals opened exceed deposits settled by at most the gaps |
| Interleaving.StaleWithdrawExactly | src/modules/wallet/wallet.service.ts:351-415 | a withdrawal leaves its wallet reconciled iff the available balance is still the one it read |
| Interleaving.StaleFundExactly | src/modules/savings/savings.service.ts:126-177 | a vault deposit leaves wallet and vault reconciled iff all columns it read are current |
| Interleaving.StaleDrainExactly | src/modules/savings/savings.service.ts:202-234 | the same for a vault withdrawal |
| Interleaving.StaleSettleExactly | src/modules/wallet/wallet.service.ts:764-808 | a completion checked at any earlier time settles its transaction for the first time iff the ledger balances under it when it lands |
| Interleaving.ConcurrentCompletionsCreditTwice | src/modules/wallet/wallet.service.ts:764-803 | two completions of one pending deposit, both checked before either lands, credit it twice |
| Witnesses.StaleWithdrawalOverdraws | src/modules/wallet/wallet.service.ts:333-409 | a run opens withdrawals of 120 against a deposit of 100 |
| Witnesses.StaleVaultDepositDoubles | src/modules/savings/savings.service.ts:115-171 | a run withdraws 60 and saves the same 60 of a deposit of 100 |
| Witnesses.DepositCreditedTwice | src/modules/wallet/wallet.service.ts:764-803 | a run credits one deposit of 100 as 200 |
| Transfers.TransfersConserve | src/modules/wallet/wallet.service.ts:541-689 | from any state, every interleaving of stale-checked transfers keeps both totals and overdraws no wallet |
| Transfers.TransferKeepsCurrenciesExactly | src/modules/wallet/wallet.service.ts:563-604 | a transfer keeps every currency's total iff both wallets have one currency |
| Witnesses.TransferChangesCurrency | src/modules/wallet/wallet.service.ts:563-604 | a run in which an admitted transfer turns 60 RWF into 60 USD |
| Transfers.TransferAdmittedExactly | src/modules/wallet/wallet.service.ts:529-599 | a transfer happens iff its key is not the sender's own, the PIN is right and a wallet may send it, and that wallet is the only one |
| Admission.TransferNamesParties | src/modules/wallet/wallet.service.ts:607-623 | the row of a transfer names the requester as sender, the receiving wallet's owner as receiver, both wallets, amount, currency and time |
| Admission.FrozenTransfersNothing | src/modules/wallet/wallet.service.ts:544-575 | a frozen wallet neither sends nor receives |
| TransferLimits.TransfersAlwaysCapped | src/modules/wallet/wallet.service.ts:581-584 | under every interleaving each transfer is positive and at most 500,000 units |
| TransferLimits.SameAgainExactly | src/modules/wallet/wallet.service.ts:581-584 | a transfer that went through goes through again at once iff the amount is still available; the daily limit bounds no day |
| Transfers.TransferIgnoresForeignKeysExactly | src/modules/wallet/wallet.service.ts:529-539 | an otherwise admitted transfer moves money iff its key is unknown or another user's, and then reports the clash iff it was taken |
| Witnesses.ForeignKeyMovesTwice | src/modules/wallet/wallet.service.ts:529-539 | a run in which one request sent twice under another user's key moves its amount both times |
| Transfers.TransferReplays | src/modules/wallet/wallet.service.ts:691-704 | after any further run, a transfer whose key was stored is answered with its first response when its sender repeats the key |
| Idempotency.KeysAlwaysOk | src/modules/wallet/wallet.service.ts:236-309 | in every run, stale transactions included, keys, responses, transactions and reported commits correspond |
| Idempotency.AtMostOncePerKey | src/modules/savings/savings.service.ts:117-177 | no key ever has two transactions or two commits, its response names its transaction, and a card payment's key is never a commit's |
| Idempotency.ReplayMovesNothing | src/modules/savings/savings.service.ts:193-234 | after any further run a request with a stored key gets the stored response or a rejection, changes nothing, and a parked one aborts |
| Idempotency.RepeatedDepositReplays | src/modules/wallet/wallet.service.ts:235-243 | the identical deposit request, at any later time, gets its first response and does nothing |
| Idempotency.StoredKeysStay | prisma/schema.prisma:659-675 | a stored key row is never changed |
| KeyRecords.ReplayIsOwnKindExactly | src/modules/wallet/wallet.service.ts:228-243 | a replayed request is answered with a transaction of its own amount, and of its own kind iff its own endpoint stored the key |
| KeyRecords.WithdrawalGetsDepositsAnswer | src/modules/wallet/wallet.service.ts:332-350 | an otherwise admitted withdrawal under the key of a deposit with its content gets the deposit's response and opens nothing |
| Sessions.SessionTable.CreateSession | src/modules/auth/auth.service.ts:406-428 | adds an active session holding the new pair |
| Sessions.SessionTable.RefreshTokens | src/modules/auth/auth.service.ts:204-234 | rotates the pair iff the token is accepted, as a read step followed by a write step |
| Sessions.SessionTable.Logout | src/modules/auth/auth.service.ts:236-247 | the loop revokes exactly the user's session with that jti |
| Sessions.SessionTable.RevokeForReset | src/modules/auth/auth.service.ts:280-283 | the loop revokes exactly the user's active sessions |
| Sessions.AcceptedExactlyWhileLive | src/modules/auth/strategies/jwt.strategy.ts:33-61 | an issued access or refresh token is accepted iff its pair is the live one of its session, not expired, and (access) its user active |
| Sessions.AcceptedSpeaksForItsSession | src/modules/auth/strategies/jwt.strategy.ts:60 | an accepted token identifies the user and session it was issued for |
| Sessions.AtMostOneLivePair | src/modules/auth/auth.service.ts:222-230 | if either token of two pairs issued for one session is accepted, at whatever times, the pairs are one |
| Sessions.ReplacedPairsAreRejected | src/modules/auth/auth.service.ts:227-230 | a pair replaced by a refresh is rejected in every continuation |
| Sessions.RevokedForEver | src/modules/auth/auth.service.ts:236-240 | a session that is not active never becomes active, even when a refresh straddles the logout |
| Sessions.ResetEndsAllTokens | src/modules/auth/auth.service.ts:266-290 | after a password reset no earlier token of the user is ever accepted |
| Sessions.LogOutEndsThePair | src/modules/auth/auth.service.ts:236-247 | after a logout with a pair's access token neither token of it is ever accepted, even if a refresh overtook the logout |
| Sessions.ActiveExactlyUntilEnded | src/modules/auth/auth.service.ts:236-283 | an active session stays active through a run iff no logout with its own token and no reset of its own user is in it |
| Sessions.AcceptedThirtyDays | src/modules/auth/auth.service.ts:222-230 | a pair is accepted exactly while it is live and thirty days have not passed since it was handed out |
| Sessions.SpeaksForWhoLoggedIn | src/modules/auth/auth.service.ts:406-428 | while accepted, a pair speaks for the user who logged in |
| OneTimeCodes.CodeTable.DispatchEmailOtp | src/modules/auth/auth.service.ts:294-317 | the loop retires the open codes of the target and purpose, then adds the new one |
| OneTimeCodes.CodeTable.ConsumeOtp | src/modules/auth/auth.service.ts:319-338 | compares with the newest open code, counts the attempt and uses the code up on success |
| OneTimeCodes.CodesAreSingleUse | src/modules/auth/auth.service.ts:319-338 | each code is compared at most five times and accepted at most once, and only the last one issued can be accepted |
| OneTimeCodes.AcceptedExactly | src/modules/auth/auth.service.ts:294-338 | a code is accepted iff it is the last one sent there for that purpose, reads the same, is at most ten minutes old (thirty for a reset), was compared fewer than five times and never accepted |
| LoginLockout.LoginAttempts.LogIn | src/modules/auth/auth.service.ts:124-148 | refuses iff the window holds five failures, else records the verdict |
| LoginLockout.LoginAttempts.CountFailures | src/modules/auth/auth.service.ts:340-344 | counts the identifier's failures since a time |
| LoginLockout.FailuresBounded | src/modules/auth/auth.service.ts:30-31 | every closed window of fifteen minutes holds at most five recorded failures per identifier, over any run |
| LoginLockout.FailuresAreWrongPasswords | src/modules/auth/auth.service.ts:144-148 | the failures the table holds for an identifier between two times are exactly its wrong passwords looked at between them |
| LoginLockout.RefusedExactly | src/modules/auth/auth.service.ts:340-350 | a login is refused iff five wrong passwords of its identifier were looked at in the fifteen minutes before it, told from the logins alone |
| LoginLockout.StaleRecordExactly | src/modules/auth/auth.service.ts:340-370 | a failure recorded after a stale check keeps that bound iff the identifier is not locked out when it is recorded |
| PinThrottle.WalletPin.VerifyUserPin | src/modules/wallet/wallet.service.ts:742-757 | compares only while unlocked; a wrong PIN counts and locks from the fifth on |
| PinThrottle.WalletPin.HandleFailedAttempt | src/modules/wallet/wallet.service.ts:719-740 | one more attempt, a lock of fifteen minutes from the fifth on, none before |
| PinThrottle.WalletPin.ChangePin | src/modules/wallet/wallet.service.ts:441-481 | as verification, and a right PIN clears the counter |
| PinThrottle.WalletPin.CheckForWithdrawal | src/modules/wallet/wallet.service.ts:318-325 | compares even while locked |
| PinThrottle.WalletPin.ClearAfterTransfer | src/modules/wallet/wallet.service.ts:673-677 | clears counter and lock |
| PinThrottle.ThrottleBound | src/modules/wallet/wallet.service.ts:719-757 | in any stretch without a clearing at most 5 + floor(D / 15 min) wrong PINs are compared, withdrawals in between or not |
| PinThrottle.AllComparisonsBound | src/modules/wallet/wallet.service.ts:318-325 | wrong PINs compared by events of every kind are at most 5 + floor(D / 15 min) + wrong withdrawals |
| PinThrottle.RecordTellsHistory | src/modules/wallet/wallet.service.ts:719-740 | counter and lock are those of the wrong PINs since the last committed transfer or right change |
| PinThrottle.LockedExactly | src/modules/wallet/wallet.service.ts:742-750 | a PIN is locked iff five or more were wrong since then, the last less than fifteen minutes ago |
| PinThrottle.WithdrawalsAreNotThrottled | src/modules/wallet/wallet.service.ts:318-325 | the last term is needed: once locked, verifications compare nothing and n withdrawals compare n wrong PINs at one instant |
| Analytics.ComputeSnapshot | src/modules/analytics/services/analytics-snapshot.service.ts:58-125 | the fold's totals are the sums over its rows, its category amounts too and they add up to the expenses, its rate is that of the totals, and its top category is a maximal one, none iff none is positive |
| Analytics.SnapshotTable.ComputeAndUpsertSnapshot | src/modules/analytics/services/analytics-snapshot.service.ts:38-156 | reads the period's rows of the user and stores their snapshot as the one row of user and period |
| Analytics.FindTop | src/modules/analytics/services/analytics-snapshot.service.ts:112-120 | a maximal positive category, none iff there is none |
| Analytics.OrderDoesNotMatter | src/modules/analytics/services/analytics-snapshot.service.ts:39-125 | reordering the rows changes no total and not the top amount |
| Analytics.FeesFallOnSender | src/modules/analytics/services/analytics-snapshot.service.ts:11-27 | receipts count net amounts and payments whole ones; which kinds count as which |
| Analytics.OwnCategoryWins | src/modules/analytics/services/analytics-snapshot.service.ts:92-104 | a category the row has wins; the resolver matters only for rows without one |
| Analytics.SnapshotsAddUp | src/modules/analytics/services/analytics-snapshot.service.ts:39-125 | the totals, counts and category amounts of adjacent half-open periods add up to those of their union |
| Months.OnlyOneMonth | src/modules/analytics/services/analytics-snapshot.service.ts:212-217 | every instant lies in exactly one month |
| Months.YearLength | src/modules/analytics/services/analytics-snapshot.service.ts:212-217 | twelve months from a January are 365 days, 366 in a leap year |
| Months.LastAndCurrentAddUp | src/modules/analytics/services/analytics-snapshot.service.ts:212-224 | the last month ends where the current one begins, the clock is inside the current one, and both snapshots add up to that of the two months |
| PeerFlows.TransfersCancel | src/modules/analytics/services/analytics-snapshot.service.ts:65-110 | summed over any users that contain all parties, net cash flows are the flows with the outside; transfers contribute zero |
| PeerFlows.BankTransfersCancel | src/modules/analytics/services/analytics-snapshot.service.ts:65-110 | in every reachable state the net cash flows of the users' snapshots sum to the flows with the outside; the bank's transfers contribute zero |
| CashFlows.CashFlowIsWorth | src/modules/analytics/services/analytics-snapshot.service.ts:38-106 | a user's cash flow is the worth of the completed transactions of the period by kind, and of nothing else |
| CashFlows.TransferMovesCashFlow | src/modules/wallet/wallet.service.ts:607-623 | a transfer moves its amount from the sender's cash flow to that of the receiving wallet's owner and touches nobody else's |
| CashFlows.OpeningMovesNoCashFlow | src/modules/analytics/services/analytics-snapshot.service.ts:38-45 | opening a deposit or withdrawal and moving money into or out of a vault moves nobody's cash flow |
| CashFlows.SettlingMovesCashFlow | src/modules/wallet/wallet.service.ts:799-835 | settling brings a deposit to its owner's cash flow and takes a withdrawal from it, at the time it was opened |
| CashFlows.CaptureMovesCashFlow | src/modules/virtual-card/virtual-card.service.ts:336-354 | a capture costs the card's owner the amount captured |
| CashFlows.CardReversalMovesCashFlow | src/modules/virtual-card/virtual-card.service.ts:433-448 | reversing a card payment, even in part, takes all of it out of the owner's cash flow |
| CashFlows.SavingShows | src/modules/analytics/services/analytics-snapshot.service.ts:79-82 | a vault deposit shows as saved by its owner; taking it out does not undo that |

## Left out

- Per-currency books: the source never converts or compares currencies when it sums, so totals are plain sums; the one exact currency law is for transfers.
- Solvency.SolventAlways: the vault endpoints are taken with non-negative amounts, as their DTO patterns demand; vault deposits of any sign, which savings rules can ask for, are covered by `Solvency.SolventExactly`.
- Drift.NeverNegative: the same; a negative rule can take a vault below zero without any stale row.
- SavingsService.ApplyRulesForTransaction: percentage savings are taken to be whole numbers of 0.0001 units, because how a finer amount is stored depends on the database.
- WalletService.TransferP2P: the reset of the PIN counter inside the transaction is `PinThrottle.WalletPin.ClearAfterTransfer`, not a column of the bank state.
- WalletService.CommitTransfer: the same reset is not among its writes.
- WalletService.InitiateWithdraw: the PIN comparison is an input (its counter and lock are the PIN model); so are the comparison and the lock in a transfer, and a user without a PIN is one of the verdicts.
- VirtualCardService.UpdateVirtualCard: the online, international and merchant restrictions of a card are not columns of the model; no operation of the source reads them.
- OnboardingService.Register: names, password and referral are not modelled; a wallet number, a reference and a generated key are taken to be new, and a key clash is an abort.
- KycGate.VerifiedForEver: in a run reviews and submissions check and write in one piece; their late writes have exact lemmas of their own and are not parked in the machine.
- Sessions.RevokedForEver: devices, MFA and the token's own expiry claim are not modelled; hashes are injective and generated tokens never repeat.
- Analytics.ComputeSnapshot: the savings rate is a real number where the source divides floating-point numbers.
- Months.LastAndCurrentAddUp: the clock runs at a fixed offset; a server whose offset changes with the season shifts the bounds by it.
- Abort of a database transaction is possible for any parked flight; requests served in one piece, card operations among them, are taken as uninterrupted.
- References built from the clock (`SAV-`, `WDR-`) can collide within a millisecond and abort; this is one of the aborts and is not modelled on its own.
- Row columns without a law: descriptions, references, directions and merchant data of transactions, entry types of legs, vault targets and dates, card numbers.
- Vault edits and deletion, beneficiaries, devices, listings, notifications, insights, scores, forecasts and budgets: reads, plain edits or floating point.
- Snapshot caching, category percentages and keyword tables: a cached row may lag by design, percentages are floating point, and the resolver is an arbitrary function in the fold.
