# NovaPay, modelled and proved in Dafny

NovaPay is a double-entry money system: accounts, a ledger of balanced postings, and services that
move money through that ledger. This project models its money-moving core and proves what the
design promises.

- `Ledger`, `LedgerLaws`, `Reversals`: the ledger as a value, one committed step per call, and its laws.
- `Spellings`: postings that spell one account id in two ways, and exactly when they lose money.
- `Posting`: the posting path as code, with its tables, its two locked passes and its loops.
- `Locking`: the account row locks of concurrent postings and payments.
- `Fraud`, `Windows`: the fraud gate and its sliding windows over Redis sorted sets.
- `Payments`, `PaymentService`: idempotent payments as a step, and the code that performs it.
- `Canonical`, `JsonText`: the canonical form and the text behind the request fingerprint.
- `Payroll`, `PayrollLaws`, `PayrollRuns`, `PayrollService`: the payroll saga as transactions and as
  any number of interleaved processors that crash and lose acknowledgements; then the orchestrator.
  `PayrollRecords`: what each payroll transaction writes, row by row, and what that makes of whole runs.
  `PayrollProgress`: that one run ends, whatever other runs do meanwhile.
- `Outbox`, `OutboxLaws`, `OutboxService`: the relay protocol, its guarantees, and one worker's code.
- `Loans`, `LoanLaws`, `LoanService` and `Fx`, `FxService`: services that nest the above in larger
  transactions.
- `Money`: the four decimal parsers and printers.
- `System`: all services on one ledger at once.
- `Examples`: short runs from the empty state on which promises fail.

One database transaction is one step: it commits as a whole or changes nothing. Money is an integer
number of 1/10000 units. Ids are positions in insertion order, except account ids: a request names an
account by a text (a number in base 128, so that equally long texts sort as their numbers do), and the
row it names is the text in lower case, as a uuid column keeps it. The classes hold the tables as fields and their methods follow the
code statement by statement, including the writes that a later error rolls back; their postconditions
equate the new state with the one-step specification, about which the lemmas speak. What a step writes,
when it goes through and how it is refused is also stated row by row, in the terms of requests, rows and
ledger lines alone: the lemmas named `...Writes`, `...Stores`, `...Exactly` and `...Refusals`.

## Where the code and its promises part

- Account ids are compared as texts, but a uuid in capitals names the same row. A posting that spells one
  account in two ways can be accepted and lose money: exactly when the deltas of all spellings but the
  last do not cancel (`Spellings.PostKeepsAgreementExactly`, `Spellings.SpellingExample`). Conservation,
  the overdraft limit of the history and the order of locks have their own exact conditions
  (`Spellings.PostConservesExactly`, `Spellings.PostKeepsHistoryInLimitsExactly`,
  `Locking.TwoDeadlockExactly`). Payments and loans are never affected.
- The project README (section 10) promises at-least-once delivery of events. A publish that throws
  makes the row FAILED for good, so this holds only if publishing never fails before delivery
  (`OutboxLaws.AtLeastOnceExactly`); and FAILED does not mean undelivered
  (`OutboxLaws.FailedMeansUndeliveredExactly`).
- Overlapping runs of one payroll batch can take a FAILED header back to DISBURSING
  (`PayrollRuns.OverlapRevivesFailedBatch`, `PayrollRuns.TerminalHeaderChangesExactly`). Items, ledger
  and clearing stay right in every interleaving.
- The completion report of a batch that failed at funding accounts for none of the scheduled total
  (`PayrollRuns.ReportAddsUpExactly`, `Examples.ReportExample`).
- A REVERSAL posted through the free-form route need not cancel its target
  (`Reversals.FreeFormReversalExactly` says when); one made by `reverse` always does.
- Repeating a successful final repayment is refused instead of answered
  (`LoanLaws.RepeatedRepaymentExactly`), and a loan of zero can never be closed
  (`LoanLaws.EmptyLoanStaysOpen`); a repayment paid from the funding account itself closes a loan without
  any money moving (`LoanLaws.LedgerShowsOutstandingExactly`, `Examples.RepaymentExample`).
- A transfer must spell the locked amount as the database prints it; the same amount written with
  fewer decimals is refused (`Fx.TransferExecutesExactly`, `Money.StoredTextExactly`).
- A payment debits only its submitter's own account (`Payments.PaidByItsOwner`); for an FX transfer the
  owner of the accounts is no condition (`Fx.OwnersDoNotMatter`), and although its request carries a
  retry key, repeating an executed transfer always throws (`Fx.RepeatedTransferThrows`).

## Model

| member | source | states |
|---|---|---|
| `LedgerLaws.PrecheckMakesProjectionInfallible` | nova-pay/src/modules/ledger/service/posting.service.ts:219-277 | accounts that pass the first, locked pass can never be refused by the second pass over the same lines, however they are spelled |
| `LedgerLaws.PrecheckExactly` | nova-pay/src/modules/ledger/service/posting.service.ts:219-277 | the first pass accepts exactly when every spelling names an existing, active account of the line currency (so none mixes currencies) that can go down by the net delta of that spelling alone within its overdraft limit |
| `LedgerLaws.PostAcceptsExactly` | nova-pay/src/modules/ledger/service/posting.service.ts:81-193 | a posting under an unused id is accepted if and only if its reversal target is sound, it balances per currency, its line numbers are all omitted or all distinct, and its accounts can carry every spelling alone |
| `LedgerLaws.PostStores` | nova-pay/src/modules/ledger/service/posting.service.ts:109-193 | an accepted posting appends one transaction with the type, target and id of the request and one line per line: same side, amount and currency, on the row its text names, numbered as asked or 1, 2, ...; accounts it does not name keep everything, the others only move both balances alike |
| `LedgerLaws.PostRepeats` | nova-pay/src/modules/ledger/service/posting.service.ts:90-97 | a posting that is not accepted changes nothing, and a used id is answered, whatever else the request says, with the transaction that used it |
| `LedgerLaws.BundleRefusals` | nova-pay/src/modules/ledger/service/posting.service.ts:285-403 | each refusal of target, balance and line numbers comes in exactly its own case |
| `LedgerLaws.PrecheckRefusals` | nova-pay/src/modules/ledger/service/posting.service.ts:219-277 | a refused account is the first offending text in lock order, all before it are fine, and the error says what is wrong with the row it names |
| `LedgerLaws.PostKeepsInv` | nova-pay/src/modules/ledger/service/posting.service.ts:81-193 | posting keeps, for every spelling of its accounts: available is the stored balance and above minus the overdraft limit, every stored bundle balances, ids are unique, reversals are sound |
| `LedgerLaws.NextKeepsInv` | nova-pay/src/modules/accounts/service/accounts.service.ts:48-85 | opening accounts, status changes, postings and reversals all keep that invariant |
| `LedgerLaws.AccountCommands` | nova-pay/src/modules/accounts/service/accounts.service.ts:48-198 | an account is opened with nothing on it under an unused id and number; a status change touches the status of the row it names and nothing else; neither writes transactions |
| `LedgerLaws.AccountNumbersAreUnique` | nova-pay/src/modules/accounts/service/accounts.service.ts:48-85 | over every run no two accounts share their number |
| `LedgerLaws.ReachableLedger` | nova-pay/src/modules/ledger/service/posting.service.ts:65-193 | every ledger reachable from the empty one satisfies it |
| `LedgerLaws.ExecExtends` | nova-pay/src/modules/ledger/service/posting.service.ts:81-193 | runs only append transactions and never change who an account belongs to, its currency or its limit |
| `LedgerLaws.Conservation` | nova-pay/src/modules/ledger/service/posting.service.ts:362-385 | while stored balances agree with their history, they add up to zero in every currency |
| `LedgerLaws.ExposureBound` | nova-pay/src/modules/accounts/service/accounts.service.ts:262-274 | while they agree, no account holds more than the overdraft limits of the other accounts in its currency allow |
| `LedgerLaws.BalancedMeansAllCurrencies` | nova-pay/src/modules/ledger/service/posting.service.ts:362-385 | checking the configured currencies is checking all of them |
| `LedgerLaws.TransferEffects` | nova-pay/src/modules/payments/service/payment-orchestrator.service.ts:515-545 | a two-line transfer balances, names its two texts and moves the amount from the one text to the other (nothing when the texts are the same) |
| `Spellings.PostKeepsAgreementExactly` | nova-pay/src/modules/accounts/service/accounts.service.ts:227-278 | an accepted posting keeps every stored balance equal to its history if and only if, on every account, the deltas of all its spellings except the last in sort order add up to zero |
| `Spellings.PostMovesGap` | nova-pay/src/modules/accounts/service/accounts.service.ts:242-278 | it moves the gap between balance and history of an account by exactly those deltas |
| `Spellings.OneSpellingLosesNothing` | nova-pay/src/modules/ledger/service/posting.service.ts:223-243 | a posting that spells every account one way, which its caller can check, always keeps agreement |
| `Spellings.SpellingsAddUp` | nova-pay/src/modules/ledger/service/posting.service.ts:149-159 | the stored lines move an account by the deltas of all its spellings together |
| `Spellings.PostShiftsCurrency` | nova-pay/src/modules/ledger/service/posting.service.ts:362-385 | the sum of the stored balances of a currency moves by exactly what an accepted posting loses in it |
| `Spellings.PostConservesExactly` | nova-pay/src/modules/ledger/service/posting.service.ts:362-385 | a currency that added up to zero still does if and only if what was lost in it adds up to zero |
| `Spellings.PostKeepsHistoryInLimitsExactly` | nova-pay/src/modules/ledger/service/posting.service.ts:267-275 | the history of every account stays within its overdraft limit if and only if all its spellings together can be paid; each one alone is what is checked |
| `Spellings.NextKeepsAgreement` | nova-pay/src/modules/accounts/service/accounts.service.ts:227-278 | account commands, reversals and postings that lose nothing keep balances equal to history |
| `Spellings.ReachableAgrees` | nova-pay/src/modules/accounts/service/accounts.service.ts:223-279 | hence every ledger reached by such commands agrees with its history |
| `Spellings.SpellingExample` | nova-pay/src/modules/ledger/service/posting.service.ts:223-276 | debit "a" 80, debit "A" 80, credit 160 on an account of 100: accepted, balance 20, history -60, and the currency adds up to 80 |
| `Spellings.RowLowersEachChar` | nova-pay/src/modules/ledger/service/posting.service.ts:149-159 | the row a text names is that text with its capital letters, and nothing else, in lower case |
| `Posting.LedgerTables.AssertBalancedPerCurrency` | nova-pay/src/modules/ledger/service/posting.service.ts:362-385 | the debit and credit sums kept by the loop are equal in every currency exactly when the bundle balances |
| `Posting.LedgerTables.Aggregate` | nova-pay/src/modules/ledger/service/posting.service.ts:224-242 | the loop yields the net delta and the currency of every spelling, or finds one used in two currencies |
| `Posting.LedgerTables.CheckLockedAccount` | nova-pay/src/modules/ledger/service/posting.service.ts:243-276 | the refusal of one spelling of a locked account, in the order of the checks |
| `Posting.LedgerTables.ValidateAccountBalancesBeforeLedgerInsert` | nova-pay/src/modules/ledger/service/posting.service.ts:219-277 | the first pass: the first refusal in the order of the texts, having locked exactly the rows up to it |
| `Posting.LedgerTables.ApplyLedgerPostingProjections` | nova-pay/src/modules/accounts/service/accounts.service.ts:223-279 | the second pass: every spelling is projected from the stored row and the last save of a row stays; on a refusal nothing is saved; the locks are those of the first pass, up to a refusal |
| `Posting.SavedIsLastWrite` | nova-pay/src/modules/accounts/service/accounts.service.ts:273-278 | saving the projected rows in order leaves on every account the delta of its last spelling |
| `Posting.LedgerTables.InsertAndProject` | nova-pay/src/modules/ledger/service/posting.service.ts:109-193 | after a passed first pass, insert and projection always succeed together |
| `Posting.LedgerTables.PostWithSharedManager` | nova-pay/src/modules/ledger/service/posting.service.ts:81-193 | the whole new ledger state and result equal the one-step specification; the row locks asked for are both passes of an accepted posting, an initial part of one pass of a refused one, none of a replay |
| `Posting.LedgerTables.CreateAccount` | nova-pay/src/modules/accounts/service/accounts.service.ts:48-85 | a new account starts at zero with the given or default status and limit, no other row changes; it is refused exactly when an account has its number |
| `Reversals.ReverseAcceptsExactly` | nova-pay/src/modules/ledger/service/reversal.service.ts:34-79 | a reversal under a fresh id is accepted exactly when the original has none yet and its accounts are active and can give the money back; balance, line numbers and currencies never stop it |
| `Reversals.ReversalCancels` | nova-pay/src/modules/ledger/service/reversal.service.ts:34-79 | on every account the reversal is the negation of its original |
| `Reversals.ReversalStores` | nova-pay/src/modules/ledger/service/reversal.service.ts:45-79 | a reversal stores the original's lines in order and under their numbers, debit and credit exchanged and nothing else, and points back at it |
| `Reversals.ReversalRefusals` | nova-pay/src/modules/ledger/service/reversal.service.ts:22-60 | a used id is answered with the transaction that used it; an unknown or empty original, a reversal, and a reversed original are each refused in exactly their case; nothing changes |
| `Reversals.ReversalErasesOriginal` | nova-pay/src/modules/ledger/service/reversal.service.ts:34-79 | whatever runs afterwards, every history is what it would be without both transactions, and so is every stored balance while no posting loses anything |
| `Reversals.ReversedAtMostOnce` | nova-pay/src/modules/ledger/service/posting.service.ts:285-320 | over any run an original has at most one reversal, and no reversal is reversed |
| `Reversals.FreeFormReversalExactly` | nova-pay/src/modules/ledger/service/posting.service.ts:285-320 | for every original without a reversal: the free-form route admits a REVERSAL that does not cancel if and only if the original moves some account and any account is active, or it moves nothing and some active account can pay a unit to another of its currency |
| `Reversals.FreeFormReversalNeedNotCancel` | nova-pay/src/modules/ledger/service/posting.service.ts:285-320 | one such REVERSAL is the original posted again, whenever it can be funded again |
| `Reversals.FreeFormReversalExample` | nova-pay/src/modules/ledger/service/posting.service.ts:285-320 | a concrete ledger, sound by the invariant, on which that happens |
| `Locking.NoWaitCycle` | nova-pay/src/modules/ledger/service/posting.service.ts:243-249 | while every transaction asks for its rows in climbing order, no reachable set of them waits in a circle |
| `Locking.SomeTransactionCanProceed` | nova-pay/src/modules/ledger/service/posting.service.ts:243-249 | and while any transaction is unfinished some unfinished one is not blocked |
| `Locking.WaitingAscends` | nova-pay/src/modules/ledger/service/posting.service.ts:243-249 | whoever blocks a waiting transaction waits, if at all, for a larger account id |
| `Locking.LocksAreHeldToTheEnd` | nova-pay/src/modules/ledger/service/posting.service.ts:243-249 | a transaction holds every row it took until it finishes, and none afterwards |
| `Locking.ScriptsClimb` | nova-pay/src/modules/payments/service/payment-orchestrator.service.ts:393-420 | the requests of postings and payments, accepted or refused at any point, climb whenever the texts of their ids sort as their rows do |
| `Locking.StoredIdsAreInOrder` | nova-pay/src/modules/ledger/service/posting.service.ts:243-249 | as the ids do that are spelled the way the database spells them |
| `Locking.TwoDeadlockExactly` | nova-pay/src/modules/ledger/service/posting.service.ts:243-249 | two transactions can come to wait for each other if and only if they share rows and the first shared row of the one is not the first shared row of the other |
| `Locking.SpellingsCanDeadlock` | nova-pay/src/modules/ledger/service/posting.service.ts:243-249 | two transfers between the same accounts can, when one of them spells an id in capitals |
| `Fraud.AggregateRows` | nova-pay/src/modules/fraud/service/fraud.service.ts:192-223 | the loop returns BLOCKED exactly with an ERROR row or a triggered row recommending it, else ACTION_REQUIRED or REVIEW exactly when a triggered row recommends it, and lists exactly the rules that did not pass |
| `Fraud.WorstRowDecides` | nova-pay/src/modules/fraud/service/fraud.service.ts:25-30 | the precedence of all four decisions, by the outcomes and recommendations of the rows |
| `Fraud.OrderDoesNotMatter` | nova-pay/src/modules/fraud/service/fraud.service.ts:192-223 | any order of the rule rows gives the same decision |
| `Fraud.ApprovedExactly` | nova-pay/src/modules/fraud/service/fraud.service.ts:192-223 | APPROVED if and only if no row is ERROR and none triggered above APPROVED |
| `Fraud.EveryRuleHasOneRow` | nova-pay/src/modules/fraud/service/fraud-rule-engine.service.ts:43-70 | every run aggregates exactly one row for each of the five rules |
| `Fraud.ApprovalIsProven` | nova-pay/src/modules/fraud/service/fraud.service.ts:124-190 | the evaluation returns APPROVED exactly when it was stored, the engine finished within budget and without an exception, and all five rules reported without error or alarm |
| `Fraud.DecisionExactly` | nova-pay/src/modules/fraud/service/fraud.service.ts:124-190 | every other answer by the five reports: BLOCKED, ACTION_REQUIRED and REVIEW each if and only if the worst report asks for it; BLOCKED for an engine that threw or overran; none exactly when the decision could not be stored |
| `Windows.RunAgrees` | nova-pay/src/modules/fraud/service/fraud-rule-engine.service.ts:156-242 | over any run with a clock that never goes back, pruning and key expiry leave the index faithful to the complete log inside the window |
| `Windows.EvaluationExactly` | nova-pay/src/modules/fraud/service/fraud-rule-engine.service.ts:181-204 | one evaluation reads exactly the members in the window of a key that has not expired, drops older ones, and records the attempt with its time and the renewed lifetime |
| `Windows.VelocityCountMatchesHistory` | nova-pay/src/modules/fraud/service/fraud-rule-engine.service.ts:181-204 | the velocity count is the number of distinct attempts of the last minute in the complete log |
| `Windows.DistinctSendersMatchHistory` | nova-pay/src/modules/fraud/service/fraud-rule-engine.service.ts:438-477 | the distinct senders of a recipient are those of the last hour in the full list of transfers, although the key expires after two |
| `Windows.SenderRoundTrip` | nova-pay/src/modules/fraud/service/fraud-rule-engine.service.ts:438-477 | the sender read back from a set member is the one that was written |
| `Windows.FraudIndex.RuleVelocity` | nova-pay/src/modules/fraud/service/fraud-rule-engine.service.ts:156-238 | the rule as it runs, with Redis missing, failing at any call or the budget running out at any check: REVIEW exactly from 5 attempts in 60 s on and recorded, or an error, or superseded without recording |
| `Windows.FraudIndex.RuleRecipientVelocity` | nova-pay/src/modules/fraud/service/fraud-rule-engine.service.ts:413-518 | likewise for the recipient: REVIEW exactly with more than 20 distinct senders in an hour, in a key that lives two hours; when only the last call fails, the attempt is recorded under the old lifetime |
| `Payments.UsedKeyChangesNothing` | nova-pay/src/modules/payments/service/payment-orchestrator.service.ts:230-343 | a used key changes nothing: the same body by the owner of its account (debited, of a collection credited) returns the stored payment, another body is refused |
| `Payments.FreshKeyCases` | nova-pay/src/modules/payments/service/payment-orchestrator.service.ts:107-223 | a new key throws without effect, or adds exactly one payment that is already COMPLETED or FAILED with its slot, events and ledger |
| `Payments.FreshPaymentWrites` | nova-pay/src/modules/payments/service/payment-orchestrator.service.ts:107-223 | what a returned submission under a new key writes, row by row: the payment, its slot, two events, and exactly when COMPLETED one ledger transaction, a fee or a payment, from source to destination |
| `Payments.OwnersAndLegs` | nova-pay/src/modules/payments/service/payment-orchestrator.service.ts:350-445 | the ownership and leg refusals, each in exactly its own case |
| `Payments.SubmitRefusals` | nova-pay/src/modules/payments/service/payment-orchestrator.service.ts:107-184 | whoever does not own the account throws without effect, before unready legs and an unstored decision do |
| `Payments.SubmitKeepsInv` | nova-pay/src/modules/payments/service/payment-orchestrator.service.ts:107-223 | a submission keeps slots, payments, events and ledger matching |
| `Payments.NextKeepsInv` | nova-pay/src/modules/payments/service/payment-orchestrator.service.ts:107-223 | and so does any other ledger traffic under other ids |
| `Payments.PaymentOutcome` | nova-pay/src/modules/payments/service/payment-orchestrator.service.ts:180-222 | a FAILED payment has no ledger transaction, a COMPLETED one exactly one, which takes its amount from its source to its destination as a fee or a payment; each has one created and one terminal event, of its own outcome |
| `Payments.ReachablePayments` | nova-pay/src/modules/payments/service/payment-orchestrator.service.ts:93-223 | every reachable payment state satisfies the invariant |
| `Payments.OnePaymentPerSlot` | nova-pay/src/modules/payments/service/payment-orchestrator.service.ts:230-343 | at most one payment per key and scope |
| `Payments.RetriesAreSafe` | nova-pay/src/modules/payments/service/payment-orchestrator.service.ts:230-343 | after anything else, the same request returns the same payment and changes nothing whatever fraud would say now; the key with another body (also one that writes the amount otherwise) is refused without effect |
| `Payments.MoneyMovesOnlyIfApproved` | nova-pay/src/modules/payments/service/payment-orchestrator.service.ts:161-184 | the ledger changes only if the evaluation finished, was stored, and all five rules reported without error or alarm |
| `Payments.FreshPaymentCompletesExactly` | nova-pay/src/modules/payments/service/payment-orchestrator.service.ts:107-223 | a new payment completes exactly when its caller owns the source account (for a collection: the destination), both accounts are spelled as stored, active and in the currency, the evaluation was stored and finished with all five rules clean, and the source can pay |
| `Payments.SubmitKeepsAgreement` | nova-pay/src/modules/payments/service/payment-orchestrator.service.ts:393-423 | a payment never loses anything: a leg that is not spelled as the database spells it is not found after locking |
| `Payments.PaidByItsOwner` | nova-pay/src/modules/payments/service/payment-orchestrator.service.ts:117-158 | over whole runs, behind every payment on the ledger stands a submission of that body by the owner of its source account (for a collection: of its destination) |
| `PaymentService.PaymentOrchestrator.ResolveIdempotencySlot` | nova-pay/src/modules/payments/service/payment-orchestrator.service.ts:230-343 | locks or creates slot and payment, or refuses another body |
| `PaymentService.PaymentOrchestrator.AssertOwnedByActor` | nova-pay/src/modules/payments/service/payment-orchestrator.service.ts:117-135 | passes exactly the owner of the source account, for a collection of the destination |
| `PaymentService.PaymentOrchestrator.LoadPaymentAccountsLocked` | nova-pay/src/modules/payments/service/payment-orchestrator.service.ts:393-445 | locks the rows of both legs in the order of their texts, up to a missing one, then reports the first missing, differently spelled, inactive or wrong-currency leg |
| `PaymentService.PaymentOrchestrator.PostAndFinish` | nova-pay/src/modules/payments/service/payment-orchestrator.service.ts:175-223 | posting, or catching its error, ends the payment COMPLETED or FAILED with slot and event, holding an initial part of both locking passes |
| `PaymentService.PaymentOrchestrator.SubmitPaymentWithSharedManager` | nova-pay/src/modules/payments/service/payment-orchestrator.service.ts:107-223 | the step-by-step code equals the one-step specification (whose effect FreshPaymentWrites and SubmitRefusals write out), and however it ends its lock requests are an initial part of the payment script |
| `PaymentService.PaymentOrchestrator.SubmitPayment` | nova-pay/src/modules/payments/service/payment-orchestrator.service.ts:93-100 | the transaction commits that step or leaves every table as it was; it returns a payment only to the owner of its source (for a collection: destination) |
| `Canonical.CanonDecidesMeaning` | nova-pay/src/modules/payments/service/payment-orchestrator.service.ts:610-642 | canonicalization is idempotent, and two values get the same canonical form exactly when they mean the same |
| `Canonical.CanonIsCanonical` | nova-pay/src/modules/payments/service/payment-orchestrator.service.ts:610-642 | the result has sorted keys and no undefined property at any depth |
| `Canonical.CanonKeepsMeaning` | nova-pay/src/modules/payments/service/payment-orchestrator.service.ts:610-642 | it keeps the order-free meaning of every value |
| `Canonical.CanonicalFormsAreUnique` | nova-pay/src/modules/payments/service/payment-orchestrator.service.ts:610-642 | canonical values with one meaning are one value |
| `Canonical.ReorderedObjectsMeanTheSame` | nova-pay/src/modules/payments/service/payment-orchestrator.service.ts:628-640 | property order and undefined properties do not enter into the meaning |
| `JsonText.ReadsOneWay` | nova-pay/src/modules/payments/service/payment-orchestrator.service.ts:644-651 | the JSON text of a canonical value can be read in one way only |
| `JsonText.FingerprintDecidesMeaning` | nova-pay/src/modules/payments/service/payment-orchestrator.service.ts:644-651 | the hashed text is the same for two bodies exactly when they mean the same |
| `JsonText.BodiesShareTextExactly` | nova-pay/src/modules/payments/service/payment-orchestrator.service.ts:644-651 | two payment requests share it, whatever their property order and however a missing property is left out, exactly when every field is the same text, null or absent |
| `JsonText.BodyTextExactly` | nova-pay/src/modules/payments/service/payment-orchestrator.service.ts:644-651 | the very text that is hashed for any request: its keys in alphabetical order, absent ones left out, null ones as null, the rest as JSON strings |
| `JsonText.EscapesAreJson` | nova-pay/src/modules/payments/service/payment-orchestrator.service.ts:644-651 | quotes, backslashes and control characters are escaped as JSON escapes them |
| `JsonText.ScalarTexts` | nova-pay/src/modules/payments/service/payment-orchestrator.service.ts:610-627 | big integers, dates and other values are hashed as the texts they print as |
| `PayrollLaws.NextKeepsInv` | nova-pay/src/modules/payroll/service/payroll-orchestrator.service.ts:77-151 | every step of any number of interleaved processors, crashes, lost acknowledgements and other ledger traffic keeps funding, payouts, totals and clearing matching |
| `PayrollLaws.FundKeepsCore` | nova-pay/src/modules/payroll/service/payroll-orchestrator.service.ts:164-258 | the funding transaction keeps it |
| `PayrollLaws.PayKeepsCore` | nova-pay/src/modules/payroll/service/payroll-orchestrator.service.ts:266-326 | an item payout keeps it |
| `PayrollLaws.CreateKeepsCore` | nova-pay/src/modules/payroll/service/payroll.service.ts:82-134 | creating a batch keeps it (PayrollRecords.CreateWrites says what is created) |
| `PayrollLaws.ItemFailureKeepsCore` | nova-pay/src/modules/payroll/service/payroll.service.ts:310-326 | marking an item FAILED keeps it |
| `PayrollLaws.LaterLedgerKeepsCore` | nova-pay/src/modules/payroll/service/payroll-orchestrator.service.ts:164-330 | whatever other services post keeps it |
| `PayrollRuns.ReachablePayroll` | nova-pay/src/modules/payroll/service/payroll-orchestrator.service.ts:77-330 | every state reachable by any interleaving satisfies the invariant |
| `PayrollRuns.CrashStep` | nova-pay/src/modules/payroll/service/payroll-orchestrator.service.ts:77-151 | a processor can be gone after any step; what it committed stays |
| `PayrollRuns.PaidExactlyOnce` | nova-pay/src/modules/payroll/service/payroll-orchestrator.service.ts:266-330 | an item is COMPLETED exactly when one payout was posted for it, which takes its amount from the clearing account to its employee; a batch is funded at most once, before any payout, by its total from its employer to the clearing account |
| `PayrollRecords.CreateWrites` | nova-pay/src/modules/payroll/service/payroll.service.ts:82-134 | a valid request under an unused employer and key adds one DRAFT header of its terms and one PENDING item per line, for that line's own employee, amount, currency and reference; any other request changes nothing |
| `PayrollRecords.CreatedAsAsked` | nova-pay/src/modules/payroll/service/payroll.service.ts:82-134 | over whole runs, under every interleaving, each batch has the terms and, in order, the lines of one creation request of the run |
| `PayrollRecords.OneBatchPerKey` | nova-pay/src/modules/payroll/service/payroll.service.ts:82-134 | at most one batch per employer and key in every reachable state |
| `PayrollRecords.ExecKeepsTerms` | nova-pay/src/modules/payroll/service/payroll-orchestrator.service.ts:77-330 | no run changes the terms of a batch or item, a reservation, or the outcome of an item |
| `PayrollRecords.EachLineIsPaidOnce` | nova-pay/src/modules/payroll/service/payroll-orchestrator.service.ts:77-330 | from empty tables, whatever happens: each item is one line of one request, paid at most once and exactly as that line says |
| `PayrollRecords.EventsTellOnce` | nova-pay/src/modules/payroll/service/payroll-orchestrator.service.ts:164-326 | one creation event per batch, one funding event exactly for a funded one, one payment event exactly for a COMPLETED item, under every interleaving |
| `PayrollRecords.FundWrites` | nova-pay/src/modules/payroll/service/payroll-orchestrator.service.ts:179-257 | an accepted funding posts one transfer of the total from the employer to the clearing account, with header and event |
| `PayrollRecords.FundingExactly` | nova-pay/src/modules/payroll/service/payroll-orchestrator.service.ts:164-258 | it is accepted exactly with a configured clearing account, two usable accounts and an employer who can pay |
| `PayrollRecords.PayWrites` | nova-pay/src/modules/payroll/service/payroll-orchestrator.service.ts:271-326 | an accepted payout posts one transfer of the item's amount from the clearing account to its employee, with item and event |
| `PayrollRecords.RefusedMoneyChangesNothing` | nova-pay/src/modules/payroll/service/payroll-orchestrator.service.ts:164-326 | a funding or payout that is refused or not due leaves ledger and tables as they are |
| `PayrollRecords.PayFailWritesExactly` | nova-pay/src/modules/payroll/service/payroll.service.ts:310-326 | marking an item FAILED touches a PENDING item only |
| `PayrollRecords.HeaderWritesExactly` | nova-pay/src/modules/payroll/service/payroll.service.ts:263-414 | the marking, opening and finalizing transactions with their guards, row by row |
| `PayrollRecords.DecideExactly` | nova-pay/src/modules/payroll/service/payroll-orchestrator.service.ts:77-111 | how a run goes on after reading the header: fund, open, resume or end, each in exactly its case |
| `PayrollRecords.RereadExactly` | nova-pay/src/modules/payroll/service/payroll-orchestrator.service.ts:118-141 | the work list of a run is its PENDING items in order |
| `PayrollRuns.ClearingHoldsWhatItOwes` | nova-pay/src/modules/payroll/service/payroll-orchestrator.service.ts:207-226 | the posted lines leave on a dedicated clearing account exactly the unpaid items of all funded batches, and so does its balance while it agrees with them |
| `PayrollRuns.PayoutRefusedOnlyForAccounts` | nova-pay/src/modules/payroll/service/payroll-orchestrator.service.ts:291-313 | so a pending item of a funded batch is refused only for an account that is not usable, never for lack of funds |
| `PayrollRuns.InitialOrderly` | nova-pay/src/modules/payroll/service/payroll-orchestrator.service.ts:77-151 | the empty tables satisfy the header invariant |
| `PayrollRuns.NextOrderly` | nova-pay/src/modules/payroll/service/payroll.service.ts:136-141 | while runs of one batch do not overlap, every step keeps the header, its items, its events and what its processor knows in agreement |
| `PayrollRuns.OrderlyRunsKeepHeaders` | nova-pay/src/modules/payroll/service/payroll-orchestrator.service.ts:77-151 | hence over whole runs with crashes anywhere |
| `PayrollRuns.FinalizeEnds` | nova-pay/src/modules/payroll/service/payroll.service.ts:331-414 | finalizing a batch with nothing pending makes it COMPLETED, or FAILED exactly when some item failed, with one terminal event |
| `PayrollRuns.TerminalIsAbsorbing` | nova-pay/src/modules/payroll/service/payroll.service.ts:331-414 | header, items and the single terminal event of a finished batch never change again |
| `PayrollRuns.OverlapRevivesFailedBatch` | nova-pay/src/modules/payroll/service/payroll-orchestrator.service.ts:106-115 | two overlapping runs can take a FAILED batch back to DISBURSING, unfunded and with its terminal event already sent |
| `PayrollRuns.OverlapExample` | nova-pay/src/modules/payroll/service/payroll-orchestrator.service.ts:106-115 | such a run from the empty tables: two accounts, one batch, two processors |
| `PayrollRuns.TerminalHeaderChangesExactly` | nova-pay/src/modules/payroll/service/payroll.service.ts:136-141 | in any interleaving a terminal header changes if and only if a run already past its funding transaction writes DISBURSING |
| `PayrollRuns.ReportAddsUpExactly` | nova-pay/src/modules/payroll/service/payroll.service.ts:203-247 | succeeded plus failed amounts equal the scheduled total exactly when the batch was funded (or its total is zero) |
| `Examples.ReportExample` | nova-pay/src/modules/payroll/service/payroll.service.ts:203-247 | a reachable batch of 5 that is FAILED, unfunded, and reports 0 |
| `PayrollProgress.UncrashedRunSettles` | nova-pay/src/modules/payroll/service/payroll-orchestrator.service.ts:112-151 | a run past funding that does not crash, with runs of other batches interleaved, is still under way with fewer steps left, or is over and its batch is settled |
| `PayrollProgress.OwnStep` | nova-pay/src/modules/payroll/service/payroll-orchestrator.service.ts:260-331 | each of its own steps, with any fault, uses up some of a bound on the steps left, or ends the run with the batch settled |
| `PayrollService.PayrollOrchestrator.AssertCreateBatchValid` | nova-pay/src/modules/payroll/service/payroll-validation.service.ts:25-61 | the loop accepts exactly active accounts in one currency with distinct references and the exact total |
| `PayrollService.PayrollOrchestrator.CreatePayrollBatch` | nova-pay/src/modules/payroll/service/payroll.service.ts:82-134 | the code stores, for an acceptable request, its header and exactly one item per line for that line's employee with one event, and otherwise nothing |
| `PayrollService.PayrollOrchestrator.AssertItemTotalsMatchBatchHeader` | nova-pay/src/modules/payroll/service/payroll-validation.service.ts:91-110 | the loop accepts exactly matching currencies and total |
| `PayrollService.PayrollOrchestrator.AssertBatchReadyForProcessing` | nova-pay/src/modules/payroll/service/payroll-validation.service.ts:66-86 | ready means items exist, are all PENDING and match the header |
| `PayrollService.PayrollOrchestrator.ReserveEmployerFunds` | nova-pay/src/modules/payroll/service/payroll-orchestrator.service.ts:164-258 | the transaction commits the specified funding step or changes nothing |
| `PayrollService.PayrollOrchestrator.MarkBatchFundingFailed` | nova-pay/src/modules/payroll/service/payroll.service.ts:263-304 | FAILED with one event, only from DRAFT, and nothing else changes |
| `PayrollService.PayrollOrchestrator.UpdateBatchStatus` | nova-pay/src/modules/payroll/service/payroll.service.ts:136-141 | the unconditional header write |
| `PayrollService.PayrollOrchestrator.PayItem` | nova-pay/src/modules/payroll/service/payroll-orchestrator.service.ts:271-326 | one payout transaction commits the specified step or changes nothing |
| `PayrollService.PayrollOrchestrator.MarkItemPayoutFailed` | nova-pay/src/modules/payroll/service/payroll.service.ts:310-326 | FAILED only from PENDING |
| `PayrollService.PayrollOrchestrator.FinalizePayrollBatchAfterDisbursement` | nova-pay/src/modules/payroll/service/payroll.service.ts:331-414 | a DISBURSING batch whose items are all COMPLETED or FAILED ends, FAILED exactly with a failed item, with one event; any other stays |
| `PayrollService.PayrollOrchestrator.TryPay` | nova-pay/src/modules/payroll/service/payroll-orchestrator.service.ts:270-329 | a payout attempt, and after any error the marking, are steps of the processor machine |
| `PayrollService.PayrollOrchestrator.ExecutePayrollItemPayouts` | nova-pay/src/modules/payroll/service/payroll-orchestrator.service.ts:260-331 | the payout loop is a run of the machine that works through every item that was PENDING |
| `PayrollService.PayrollOrchestrator.ProcessPayrollBatch` | nova-pay/src/modules/payroll/service/payroll-orchestrator.service.ts:77-151 | one call, in which any transaction may abort or lose its acknowledgement, is a run of the machine; it returns exactly when the batch can be finished, and then nothing is pending and FAILED means some item failed |
| `PayrollService.CanFinishExactly` | nova-pay/src/modules/payroll/service/payroll-orchestrator.service.ts:77-151 | which batches can be finished, by header, items, accounts and funds |
| `PayrollService.PayrollOrchestrator.CompletionReport` | nova-pay/src/modules/payroll/service/payroll.service.ts:203-247 | a report exists exactly for finished batches and gives their completed and failed sums |
| `Outbox.SelectIsTheQuery` | nova-pay/src/infrastructure/outbox/outbox.repository.ts:49-63 | the claim query returns distinct unlocked PENDING rows, oldest first, leaving none out below the limit |
| `OutboxLaws.NextKeepsInv` | nova-pay/src/infrastructure/outbox/outbox-processor.service.ts:32-105 | every step of any workers, crashes, reclaims, late marks and wrong broker answers keeps the relay invariant |
| `OutboxLaws.RelayIsSafe` | nova-pay/src/infrastructure/outbox/outbox.repository.ts:49-141 | PUBLISHED means the broker confirmed that id, delivered ids are rows, deliveries of a row never exceed its claims, open claims are disjoint |
| `OutboxLaws.TerminalRowsAreFinal` | nova-pay/src/infrastructure/outbox/outbox.repository.ts:81-121 | rows are never removed, PUBLISHED and FAILED never change |
| `OutboxLaws.NoRowIsLost` | nova-pay/src/infrastructure/outbox/outbox.repository.ts:128-141 | any other row becomes PENDING by a late enough reclaim, and then only an open claim or a full batch of older rows keeps it from the next claim |
| `OutboxLaws.AtLeastOnceExactly` | nova-pay/src/infrastructure/outbox/outbox-processor.service.ts:64-79 | every terminal row was delivered in every run if and only if no publish ever fails before delivery |
| `OutboxLaws.FailedMeansUndeliveredExactly` | nova-pay/src/infrastructure/outbox/outbox-processor.service.ts:64-79 | FAILED means not delivered in every run if and only if no error follows a delivery and confirms and failures never mix |
| `OutboxLaws.FailingRun` | nova-pay/src/infrastructure/outbox/outbox-processor.service.ts:64-79 | a run that ends FAILED after one thrown publish, delivered or not |
| `OutboxLaws.ConfirmedThenFailed` | nova-pay/src/infrastructure/outbox/outbox-processor.service.ts:64-104 | a run in which a confirmed row ends FAILED |
| `OutboxService.OutboxRepository.EnqueueInTransaction` | nova-pay/src/infrastructure/outbox/outbox.repository.ts:28-42 | a new PENDING row |
| `OutboxService.EnqueueExactly` | nova-pay/src/infrastructure/outbox/outbox.repository.ts:28-42 | the same of the step that runs beside all workers |
| `OutboxService.OutboxRepository.ClaimPendingBatchForRelay` | nova-pay/src/infrastructure/outbox/outbox.repository.ts:49-75 | exactly the oldest unlocked PENDING rows up to the limit become CLAIMED at the given time, all other rows stay |
| `OutboxService.OutboxRepository.AssertMarkPublishedExactlyOne` | nova-pay/src/infrastructure/outbox/outbox.repository.ts:97-112 | PUBLISHED only from CLAIMED, and reports whether one row changed |
| `OutboxService.OutboxRepository.MarkFailed` | nova-pay/src/infrastructure/outbox/outbox.repository.ts:115-121 | FAILED only from CLAIMED |
| `OutboxService.OutboxRepository.ReclaimStaleClaimed` | nova-pay/src/infrastructure/outbox/outbox.repository.ts:128-141 | exactly the CLAIMED rows whose claim time (without one: creation time) is before the cutoff go back to PENDING, fresh claims and all other rows stay, and the number of changed rows is returned |
| `OutboxService.ReclaimExactly` | nova-pay/src/infrastructure/outbox/outbox.repository.ts:128-141 | the same of the reclaim step that runs beside all workers; a claim at or after the cutoff is untouched |
| `OutboxService.OutboxProcessor.MarkWithRetries` | nova-pay/src/infrastructure/outbox/outbox-processor.service.ts:81-103 | the retry loop ends PUBLISHED exactly when some attempt committed, else leaves the row CLAIMED |
| `OutboxService.OutboxProcessor.RelayRow` | nova-pay/src/infrastructure/outbox/outbox-processor.service.ts:56-104 | one row: publish, then FAILED or the retry loop |
| `OutboxService.OutboxProcessor.RelayPendingBatch` | nova-pay/src/infrastructure/outbox/outbox-processor.service.ts:32-105 | one pass is a run of the protocol beside any other workers: each claimed row ends FAILED when its publish threw, PUBLISHED when it was confirmed and some mark committed, else CLAIMED; no other row changes but by the reclaim |
| `LoanLaws.NextKeepsInv` | nova-pay/src/modules/loans/service/loan-orchestration.service.ts:48-339 | every application, disbursement, repayment, sweep, direct payment and ledger step keeps loans, repayments and payments matching |
| `LoanLaws.ReachableLoans` | nova-pay/src/modules/loans/service/loan-orchestration.service.ts:48-339 | hence in every reachable state |
| `LoanLaws.PrincipalIsConserved` | nova-pay/src/modules/loans/service/loan-orchestration.service.ts:183-195 | after disbursement outstanding plus repayments equal the principal; CLOSED means all repaid; an open loan with principal owes something |
| `LoanLaws.EmptyLoanStaysOpen` | nova-pay/src/modules/loans/service/loan-orchestration.service.ts:253-257 | an open loan owes nothing exactly when its principal is zero, and then no repayment can close it |
| `Examples.EmptyLoanExample` | nova-pay/src/modules/loans/service/loan-orchestration.service.ts:183-195 | a reachable loan of zero, ACTIVE for good |
| `LoanLaws.CreditMatchesLedger` | nova-pay/src/modules/loans/service/loan-orchestration.service.ts:259-320 | each payment is credited once across all loans, to the loan and with the amount its ledger lines moved into that loan's funding account |
| `LoanLaws.DisbursementMatchesLedger` | nova-pay/src/modules/loans/service/loan-orchestration.service.ts:158-195 | a disbursed loan stands on one completed payment, whose ledger lines took its principal from its funding account to its wallet |
| `LoanLaws.ApplyExactly` | nova-pay/src/modules/loans/service/loan-orchestration.service.ts:48-120 | an application by its borrower is APPROVED with its own terms and nothing outstanding; a known key returns its loan; anybody else is refused |
| `LoanLaws.DisburseExactly` | nova-pay/src/modules/loans/service/loan-orchestration.service.ts:122-213 | every outcome of a disbursement: its refusals in order, and when the payment of the principal from funding account to wallet completes, the loan row and event |
| `LoanLaws.RepayExactly` | nova-pay/src/modules/loans/service/loan-orchestration.service.ts:215-339 | every outcome of a repayment: its refusals in order, and when its payment into the funding account completes uncredited, the reduced debt, closing at zero, repayment row and event |
| `LoanLaws.FundingPosition` | nova-pay/src/modules/loans/service/loan-orchestration.service.ts:158-195 | the loan's own ledger transactions leave its funding account short by the outstanding principal, up to money sent from that account to itself |
| `LoanLaws.LedgerShowsOutstandingExactly` | nova-pay/src/modules/loans/service/loan-orchestration.service.ts:259-320 | the ledger shows the outstanding principal exactly when no repayment was paid from the funding account itself |
| `LoanLaws.RepeatedRepaymentExactly` | nova-pay/src/modules/loans/service/loan-orchestration.service.ts:284-292 | repeating a repayment never takes effect twice; it returns exactly while the loan is open with at least that much outstanding |
| `Examples.RepaymentExample` | nova-pay/src/modules/loans/service/loan-orchestration.service.ts:240-292 | a reachable loan whose final repayment returns and whose repetition throws, paid from the funding account so that the ledger does not show what the loan does |
| `LoanLaws.RepeatedDisbursementExactly` | nova-pay/src/modules/loans/service/loan-orchestration.service.ts:133-147 | a disbursed loan is never disbursed again; the repeated call returns exactly while it is ACTIVE |
| `LoanService.SweepMarksExactly` | nova-pay/src/modules/loans/service/loan-overdue.service.ts:27-67 | a sweep turns exactly the listed loans that are ACTIVE with a maturity before the cutoff OVERDUE, with one event each, and nothing else |
| `LoanService.LoanOrchestrator.ApplyForLoan` | nova-pay/src/modules/loans/service/loan-orchestration.service.ts:48-120 | one loan per application key, approved with nothing outstanding |
| `LoanService.LoanOrchestrator.SubmitOrUndo` | nova-pay/src/modules/loans/service/loan-orchestration.service.ts:171-181 | a nested payment that throws or does not complete leaves no trace |
| `LoanService.LoanOrchestrator.DisburseApprovedToWallet` | nova-pay/src/modules/loans/service/loan-orchestration.service.ts:122-213 | payment, loan row and event commit together as specified, or nothing does |
| `LoanService.LoanOrchestrator.RepayFromWallet` | nova-pay/src/modules/loans/service/loan-orchestration.service.ts:215-339 | payment, credit, closing and event commit together as specified, or nothing does |
| `LoanService.LoanOrchestrator.SweepOverdueLoans` | nova-pay/src/modules/loans/service/loan-overdue.service.ts:27-67 | the loop marks exactly the ACTIVE loans with a maturity before the cutoff whose transaction does not fail |
| `Fx.FourLegsBalance` | nova-pay/src/modules/fx/service/international-transfer-orchestrator.service.ts:138-168 | the four-leg bundle balances in every currency for every converted amount |
| `Fx.NextKeepsInv` | nova-pay/src/modules/fx/service/international-transfer-orchestrator.service.ts:92-227 | locks, transfers, sweeps and other ledger traffic keep locks, trades and ledger matching |
| `Fx.ReachableFx` | nova-pay/src/modules/fx/service/international-transfer-orchestrator.service.ts:92-227 | hence in every reachable state |
| `Fx.SingleUse` | nova-pay/src/modules/fx/service/international-transfer-orchestrator.service.ts:96-173 | a lock is CONSUMED exactly when it backs one COMPLETED trade with one balanced posting, which debits a customer and credits the house in the source currency, debits the house and credits a beneficiary in the target currency; other locks back none |
| `Fx.SpentIsFinal` | nova-pay/src/modules/fx/service/fx-lock-expiry-sweep.service.ts:25-67 | CONSUMED and EXPIRED are final, so no lock is ever both |
| `Fx.SweepExpiresExactly` | nova-pay/src/modules/fx/service/fx-lock-expiry-sweep.service.ts:40-67 | a sweep expires exactly the ACTIVE, overdue locks among its candidates, with one event each |
| `Fx.TransferExecutesExactly` | nova-pay/src/modules/fx/service/fx.service.ts:181-213 | a transfer goes through exactly for the user of the lock, an ACTIVE unexpired lock, the amount in the stored spelling, configured settlement accounts, and a debited source and house that can pay the four written-out legs |
| `Fx.TransferWrites` | nova-pay/src/modules/fx/service/international-transfer-orchestrator.service.ts:92-227 | an executed transfer: the lock CONSUMED now, one COMPLETED trade of its terms, two events, and one ledger transaction that debits the source account and credits its house with the locked amount, debits the target house and credits the destination with the converted one |
| `Fx.TransferRefusals` | nova-pay/src/modules/fx/service/fx.service.ts:181-213 | every other call throws, changes nothing, and names the first condition that fails |
| `Fx.TransferredAsAsked` | nova-pay/src/modules/fx/service/international-transfer-orchestrator.service.ts:92-173 | over whole runs, behind every FX transaction stands one call by the user of its lock, and the money went from the account it names as source to the one it names as destination |
| `Fx.RepeatedTransferThrows` | nova-pay/src/modules/fx/service/international-transfer-orchestrator.service.ts:96-109 | an executed transfer can never be repeated: whoever asks, whenever, it throws |
| `Fx.OwnersDoNotMatter` | nova-pay/src/modules/fx/service/international-transfer-orchestrator.service.ts:138-168 | who owns the debited and credited accounts is no condition of a transfer |
| `Examples.SpellingOfAmountExample` | nova-pay/src/modules/fx/service/fx.service.ts:207-211 | a reachable lock over 100.0000 that refuses "100" and accepts "100.0000", on an account of somebody else |
| `FxService.FxOrchestrator.LockRate` | nova-pay/src/modules/fx/service/fx.service.ts:53-113 | a new ACTIVE lock with the terms of the call, and its event |
| `FxService.FxOrchestrator.AssertLockConsumableWithLock` | nova-pay/src/modules/fx/service/fx.service.ts:181-213 | the checks in their order; passed exactly by the user of an ACTIVE unexpired lock over the written amount |
| `FxService.FxOrchestrator.ExecuteInternationalTransfer` | nova-pay/src/modules/fx/service/international-transfer-orchestrator.service.ts:92-227 | lock, trade, ledger and events commit together as specified (Fx.TransferWrites writes it out), or nothing does |
| `FxService.FxOrchestrator.SweepExpiredLocks` | nova-pay/src/modules/fx/service/fx-lock-expiry-sweep.service.ts:25-73 | the loop equals the specified sweep and counts its events, at most 200 |
| `Money.RoundTrips` | nova-pay/src/modules/accounts/service/accounts.service.ts:282-304 | parse(format(v)) is v: all integers in accounts, the non-negative ones in loans, ledger and payroll, and no negative one there |
| `Money.DecimalsPrinted` | nova-pay/src/modules/accounts/service/accounts.service.ts:282-304 | the account printer writes no needless zero or dot, the others always write four decimals |
| `Money.ParsersAgree` | nova-pay/src/modules/loans/utils/loan-money.util.ts:5-17 | on the request grammar all parsers agree and stay below 10^19 |
| `Money.LoanParserDiffersExactly` | nova-pay/src/modules/loans/utils/loan-money.util.ts:5-17 | the loan parser differs from the ledger parser exactly on text it accepts with no whole part or a second dot |
| `Money.SpaceAroundIsIgnored` | nova-pay/src/modules/loans/utils/loan-money.util.ts:5-17 | blanks, tabs and line ends around an amount do not matter to any parser; the report reads 0 where there is no amount |
| `Money.StoredTextExactly` | nova-pay/src/modules/fx/service/fx.service.ts:207-211 | an amount text equals its stored spelling exactly with four decimals and no needless leading zero |
| `Money.SumDecimalAmountStrings` | nova-pay/src/modules/payroll/service/payroll.service.ts:520-544 | the printed sum reads back as the sum of what the texts mean |
| `System.NextKeepsInv` | nova-pay/src/modules/ledger/service/posting.service.ts:90-97 | with free-form calls off the reserved id prefixes, every service's invariant survives every step of every other |
| `System.StepsAreTheServices` | nova-pay/src/modules/ledger/service/posting.service.ts:90-97 | a step of one service is that service's own function on the shared ledger and its own tables, and leaves the tables of the others |
| `System.RunsGoStepByStep` | nova-pay/src/modules/ledger/service/posting.service.ts:65-97 | a run of all services is its steps one after another |
| `System.OtherTrafficIsFree` | nova-pay/src/modules/ledger/service/posting.service.ts:90-97 | seen from one service, the rest of the traffic is every command that does not use its ids |
| `System.MoneyIsSafe` | nova-pay/src/modules/accounts/service/accounts.service.ts:223-279 | in every state reachable by all services together: available is the stored balance and within the overdraft limit; and after every run that loses nothing by its spellings: balance is history, currencies sum to zero, exposure is bounded |
| `System.NextKeepsAgreement` | nova-pay/src/modules/accounts/service/accounts.service.ts:227-278 | the steps of payments and loans never lose anything, payroll steps do not when clearing accounts are configured as the database spells them, free-form postings and FX transfers do not when their own lines lose nothing |
| `System.EveryTransactionIsExplained` | nova-pay/src/modules/ledger/service/posting.service.ts:81-97 | each ledger transaction belongs to the one completed payment, funded batch, completed item or completed trade that points back at it, or to a free-form caller |

## Left out

- Canonical.CanonDecidesMeaning: numbers are integers (NaN and infinities print as null); keys are ordered by code point rather than by UTF-16 unit; lone surrogates, integer-like and `__proto__` property names, symbols and invalid dates are not modelled. Payment bodies hold only texts.
- JsonText.FingerprintDecidesMeaning: the same restriction on values.
- PayrollService.PayrollOrchestrator.ProcessPayrollBatch: no other processor is alive during the call, because methods run alone; runs beside runs of other batches are covered by PayrollProgress.UncrashedRunSettles, runs that overlap on one batch by PayrollRuns.
- OutboxService.OutboxProcessor.RelayPendingBatch: other workers hold their rows but take no steps during the pass, because methods run alone; interleaved passes are covered by OutboxLaws.
- Windows.RunAgrees: evaluations of one key are sequential; one superseded by the timeout prunes and records nothing; a run in which only the renewal of the recipient key's lifetime fails is left out of the agreement with the log.
- SHA-256: two different texts are assumed to have different digests, so a payment slot stores the body itself, with the amount as number and as text.
- Concurrent inserts: a unique violation is an aborted step or a replay of the winner, both of which leave the committed state as it was.
- TypeORM writes a row only where a column text changed: when the last of several spellings has a net delta of zero on a balance with four decimals, an earlier spelling's save can stay instead. The last save stays here.
- Floating-point conversion of FX amounts: the converted amount is any non-negative number of units.
- White space that `trim` removes: blank, tab, line feed and carriage return only.
- Width of numeric(19,4) columns: amounts are unbounded; a value the column cannot hold aborts in the database.
- Account status changes read without a row lock before they write: they are one atomic step here.
- Payroll reads outside transactions (header, reservation and items before the payouts) are taken at two moments: when the run decides and when it reads its work list.
- Payroll clearing and FX settlement accounts are fixed per currency for a whole run; the environment is not re-read.
- The fraud rules without state (large amount, new device, unusual hour), the hour histogram and the device registry: their rows are inputs of the aggregate.
- Ledger and account event rows, memo and metadata fields, event payloads, timestamps other than those that decide something.
- The configured defaults of the relay (batch size, stale age, retries): any values are allowed.
- Crash of a relay worker inside the claim transaction releases its row locks and rolls it back; PostgreSQL, Redis and RabbitMQ themselves are not modelled.
- Controllers, validation decorators, authentication, pagination, read-only views, migrations, unused payroll runs and standalone write helpers: they would only add easy members.
