/** Short runs from the empty state on which promises of the services fail, one for each exact condition. */
module Examples {
  import opened Basics
  import L = Ledger
  import LedgerLaws
  import Fraud
  import P = Payments
  import Money
  import Loans
  import LoanLaws
  import Fx
  import Payroll
  import PayrollRuns
  import PayrollService

  // ---------- loans ----------

  const CLEAN := Fraud.Evaluation(Fraud.Finished(Fraud.Report(Fraud.NotTriggered, Fraud.Approved), Fraud.Report(Fraud.NotTriggered, Fraud.Approved),
                                                 Fraud.Report(Fraud.NotTriggered, Fraud.Approved), Fraud.Report(Fraud.NotTriggered, Fraud.Approved),
                                                 Fraud.Report(Fraud.NotTriggered, Fraud.Approved)), true)

  const FUNDING: L.AccountId := 1
  const WALLET: L.AccountId := 2
  const BORROWER: nat := 8

  function Open(id: L.AccountId, number: string): Loans.Action {
    Loans.OtherPayment(P.OtherLedgerCommand(L.OpenAccount(id, BORROWER, number, L.USD, L.Active, 5)))
  }

  function Application(principal: nat): Loans.Application {
    Loans.Application(BORROWER, principal, L.USD, Some(WALLET), Some(FUNDING), None, P.SlotKey("apply", ""))
  }

  const DISBURSE := Loans.DisburseRequest(0, P.SlotKey("disburse", ""), "loan", None)

  /** Two accounts of the borrower, a loan paid from the one into the other. */
  function LoanRun(principal: nat): seq<Loans.Action> {
    [Open(FUNDING, "funding"), Open(WALLET, "wallet"), Loans.ApplyForLoan(Application(principal), BORROWER),
     Loans.DisburseLoan(DISBURSE, BORROWER, CLEAN)]
  }

  /** Paid back from the funding account itself, which the borrower happens to own. */
  const REPAY := Loans.RepayRequest(0, 5, "5", FUNDING, P.SlotKey("repay", ""), "loan", None)

  lemma CleanIsApproved()
    ensures Fraud.Decide(CLEAN) == Some(Fraud.Approved)
  {
    Fraud.ApprovalIsProven(CLEAN);
  }

  predicate Ready(accounts: map<L.AccountId, L.Account>) {
    && FUNDING in accounts && WALLET in accounts
    && accounts[FUNDING].owner == BORROWER && accounts[FUNDING].status == L.Active && accounts[FUNDING].currency == L.USD
    && accounts[WALLET].owner == BORROWER && accounts[WALLET].status == L.Active && accounts[WALLET].currency == L.USD
  }

  lemma PostKeepsReady(l: L.State, p: L.Posting)
    requires Ready(l.accounts)
    ensures Ready(L.Post(l, p).0.accounts)
  {
    hide L.Delta;
  }

  lemma ExecFour(s: Loans.State, xs: seq<Loans.Action>)
    requires |xs| == 4
    ensures Loans.Exec(s, xs) == Loans.Next(Loans.Next(Loans.Next(Loans.Next(s, xs[0]), xs[1]), xs[2]), xs[3])
  {
    hide Loans.Next;
    var t := Loans.Next(s, xs[0]);
    var u := Loans.Next(t, xs[1]);
    var v := Loans.Next(u, xs[2]);
    assert Loans.Exec(s, xs) == Loans.Exec(t, xs[1..]);
    assert xs[1..][1..] == xs[2..] && Loans.Exec(t, xs[1..]) == Loans.Exec(u, xs[2..]);
    assert xs[2..][1..] == xs[3..] && Loans.Exec(u, xs[2..]) == Loans.Exec(v, xs[3..]);
    assert xs[3..][1..] == [] && Loans.Exec(v, xs[3..]) == Loans.Next(v, xs[3]);
  }

  /** The state before the disbursement. */
  function Applied(principal: nat): Loans.State {
    var account := L.Account(BORROWER, "", L.USD, L.Active, 0, 0, 5);
    Loans.State(P.State(L.State(map[FUNDING := account.(number := "funding"), WALLET := account.(number := "wallet")], []), P.EmptyBook),
                Loans.Book([Loans.Loan(BORROWER, Loans.Approved, principal, 0, L.USD, Some(WALLET), Some(FUNDING), None,
                                       P.SlotKey("apply", ""), None, None)], [], [Loans.Applied(0)]))
  }

  lemma LoanRunApplies(principal: nat)
    ensures Loans.Exec(Loans.Empty, LoanRun(principal)) ==
            Loans.Disburse(Applied(principal), DISBURSE, BORROWER, CLEAN).0
  {
    hide Loans.Disburse;
    var xs := LoanRun(principal);
    var t := Loans.Next(Loans.Empty, xs[0]);
    assert t.pay.ledger.accounts == map[FUNDING := L.Account(BORROWER, "funding", L.USD, L.Active, 0, 0, 5)];
    var u := Loans.Next(t, xs[1]);
    assert u.pay.ledger.accounts == Applied(principal).pay.ledger.accounts;
    var v := Loans.Next(u, xs[2]);
    assert v.book == Applied(principal).book;
    ExecFour(Loans.Empty, xs);
  }

  /** What holds after the disbursement. */
  ghost predicate Disbursed(s: Loans.State, principal: nat) {
    && Loans.Inv(s) && Ready(s.pay.ledger.accounts)
    && REPAY.key !in s.pay.book.slots
    && |s.book.loans| == 1 && s.book.repayments == []
    && s.book.loans[0].borrower == BORROWER && s.book.loans[0].status == Loans.Active
    && s.book.loans[0].principal == s.book.loans[0].outstanding == principal
    && s.book.loans[0].wallet == Some(WALLET) && s.book.loans[0].funding == Some(FUNDING) && s.book.loans[0].currency == L.USD
  }

  function DisburseRequest(principal: nat): P.Request {
    P.Request(DISBURSE.key, Loans.DisburseBody(0, Applied(principal).book.loans[0], DISBURSE))
  }

  lemma PaymentCompletes(principal: nat)
    requires principal <= 5
    ensures var (t, o) := P.Submit(Applied(principal).pay, DisburseRequest(principal), BORROWER, CLEAN);
            && o == P.Returned(0) && t.book.payments[0].status == P.PaymentStatus.Completed
            && Ready(t.ledger.accounts) && REPAY.key !in t.book.slots
  {
    AppliedInv(principal);
    CleanIsApproved();
    var s := Applied(principal);
    var r := DisburseRequest(principal);
    RowsHere();
    hide P.Inv, P.Submit, L.Row, L.Post, Fraud.Decide;
    P.FreshPaymentCompletesExactly(s.pay, r, BORROWER, CLEAN);
    PaymentAdded(s.pay, r);
    PostKeepsReady(s.pay.ledger, P.LedgerPosting(r.body, 0));
  }

  lemma RowsHere()
    ensures L.Row(FUNDING) == FUNDING && L.Row(WALLET) == WALLET
  {
  }

  lemma PaymentAdded(s: P.State, r: P.Request)
    requires P.Inv(s) && r.key !in s.book.slots && P.Submit(s, r, BORROWER, CLEAN).1.Returned?
    ensures var (t, o) := P.Submit(s, r, BORROWER, CLEAN);
            && o == P.Returned(|s.book.payments|)
            && (t.ledger == s.ledger || t.ledger == L.Post(s.ledger, P.LedgerPosting(r.body, |s.book.payments|)).0)
            && t.book.slots.Keys == s.book.slots.Keys + {r.key}
  {
    P.FreshKeyCases(s, r, BORROWER, CLEAN);
    hide L.Post, P.Submit, P.Inv, P.LegsError, P.OwnershipError, P.LedgerPosting;
  }

  lemma LoanDisburses(principal: nat)
    requires principal <= 5
    ensures Disbursed(Loans.Exec(Loans.Empty, LoanRun(principal)), principal)
  {
    hide Loans.Inv, Loans.Exec, Loans.Disburse, LoanRun;
    LoanLaws.ReachableLoans(LoanRun(principal));
    LoanRunApplies(principal);
    DisburseResult(principal);
  }

  lemma DisburseResult(principal: nat)
    requires principal <= 5
    ensures var s := Loans.Disburse(Applied(principal), DISBURSE, BORROWER, CLEAN).0;
            && Ready(s.pay.ledger.accounts) && REPAY.key !in s.pay.book.slots
            && s.book == Loans.Book([Applied(principal).book.loans[0].(status := Loans.Active, outstanding := principal, disbursement := Some(0))],
                                    [], [Loans.Applied(0)] + [Loans.Disbursed(0, 0)])
  {
    hide P.Submit, Ready;
    PaymentCompletes(principal);
  }

  lemma AppliedInv(principal: nat)
    ensures P.Inv(Applied(principal).pay)
  {
    var p := Applied(principal).pay;
    var cs := [P.OtherLedgerCommand(L.OpenAccount(FUNDING, BORROWER, "funding", L.USD, L.Active, 5)),
               P.OtherLedgerCommand(L.OpenAccount(WALLET, BORROWER, "wallet", L.USD, L.Active, 5))];
    P.ReachablePayments(cs);
    var t := P.Next(P.Empty, cs[0]);
    assert t.ledger.accounts == map[FUNDING := L.Account(BORROWER, "funding", L.USD, L.Active, 0, 0, 5)];
    assert P.Next(t, cs[1]).ledger.accounts == p.ledger.accounts;
    assert cs[1..][0] == cs[1] && cs[1..][1..] == [];
    assert P.Exec(P.Empty, cs) == P.Exec(t, cs[1..]) == P.Exec(P.Next(t, cs[1]), []);
  }

  /** A loan of nothing: ACTIVE, nothing outstanding, and no repayment can close it. */
  lemma EmptyLoanExample(r: Loans.RepayRequest, actor: nat, fraud: Fraud.Evaluation)
    requires r.loan == 0
    ensures var s := Loans.Exec(Loans.Empty, LoanRun(0));
            && Loans.Inv(s) && |s.book.loans| == 1
            && s.book.loans[0].status == Loans.Active && s.book.loans[0].outstanding == 0 && s.book.loans[0].disbursement.Some?
            && Loans.Repay(s, r, actor, fraud).1.Thrown?
  {
    LoanDisburses(0);
    var s := Loans.Exec(Loans.Empty, LoanRun(0));
    assert Loans.LoanFits(s.pay, s.book, 0);
    LoanLaws.EmptyLoanStaysOpen(s, r, actor, fraud);
  }

  /** The final repayment returns and closes the loan; the same request again throws. It was paid from
      the funding account to itself, so the ledger does not show what the loan does. */
  lemma RepaymentExample()
    ensures var s := Loans.Exec(Loans.Empty, LoanRun(5));
            var (t, o) := Loans.Repay(s, REPAY, BORROWER, CLEAN);
            && Loans.Inv(s) && o == Loans.Returned(0) && Loans.Inv(t)
            && |t.book.loans| == 1 && t.book.loans[0].status == Loans.Closed && t.book.loans[0].outstanding == 0
            && Loans.Repay(t, REPAY, BORROWER, CLEAN) == (t, Loans.Thrown(Loans.NotOpen))
            && |t.book.repayments| == 1 && LoanLaws.PaidFrom(t, 0, FUNDING)
            && t.book.loans[0].disbursement.Some?
            && LoanLaws.Moves(t.pay, t.book.loans[0].disbursement.value, FUNDING) + Sum(LoanLaws.RepaidInto(t, 0, FUNDING)) != 0
  {
    LoanDisburses(5);
    var s := Loans.Exec(Loans.Empty, LoanRun(5));
    RepaysFromFunding(s);
    LoanLaws.RepayKeepsInv(s, REPAY, BORROWER, CLEAN);
    var t := Loans.Repay(s, REPAY, BORROWER, CLEAN).0;
    ClosedIsDisbursed(t);
    hide Loans.Inv, Loans.Exec, Loans.Repay, LoanLaws.PaidFrom;
    LoanLaws.LedgerShowsOutstandingExactly(t, 0);
  }

  lemma ClosedIsDisbursed(t: Loans.State)
    requires Loans.Inv(t) && |t.book.loans| == 1 && t.book.loans[0].status == Loans.Closed
    ensures t.book.loans[0].disbursement.Some?
  {
    assert Loans.LoanFits(t.pay, t.book, 0);
  }

  lemma RepaysFromFunding(s: Loans.State)
    requires Disbursed(s, 5)
    ensures var (t, o) := Loans.Repay(s, REPAY, BORROWER, CLEAN);
            && o == Loans.Returned(0)
            && |t.book.loans| == 1 && t.book.loans[0].status == Loans.Closed && t.book.loans[0].outstanding == 0
            && t.book.loans[0].wallet == Some(WALLET) && t.book.loans[0].funding == Some(FUNDING)
            && Loans.Repay(t, REPAY, BORROWER, CLEAN) == (t, Loans.Thrown(Loans.NotOpen))
            && |t.book.repayments| == 1 && t.book.repayments[0].loan == 0 && LoanLaws.PaidFrom(t, 0, FUNDING)
  {
    RepaymentCompletes(s);
    assert L.Row(FUNDING) == FUNDING;
    hide P.Inv, P.Submit, L.Row, L.Post, Loans.BookFits;
  }

  lemma RepaymentCompletes(s: Loans.State)
    requires Disbursed(s, 5)
    ensures var r := P.Request(REPAY.key, Loans.RepayBody(0, s.book.loans[0], REPAY));
            var (pay, o) := P.Submit(s.pay, r, BORROWER, CLEAN);
            && o.Returned? && pay.book.payments[o.payment].status == P.PaymentStatus.Completed && pay.book.payments[o.payment].body == r.body
  {
    hide P.Inv, P.Submit, L.Post, Loans.BookFits;
    CleanIsApproved();
    RowsHere();
    hide L.Row;
    var r := P.Request(REPAY.key, Loans.RepayBody(0, s.book.loans[0], REPAY));
    P.FreshPaymentCompletesExactly(s.pay, r, BORROWER, CLEAN);
    P.ReturnedIsStored(s.pay, r, BORROWER, CLEAN);
  }

  // ---------- FX ----------

  const TRADER: nat := 9
  const OWNER: nat := 1
  const SETTLEMENT: map<L.Currency, L.AccountRef> := map[L.USD := 3, L.EUR := 4]

  function House(id: L.AccountId, number: string, c: L.Currency): Fx.Action {
    Fx.OtherLedgerCommand(L.OpenAccount(id, OWNER, number, c, L.Active, 1000000))
  }

  /** Four accounts of one owner, and a rate lock of another user over 100 dollars. */
  const FX_RUN: seq<Fx.Action> :=
    [House(1, "a", L.USD), House(2, "b", L.EUR), House(3, "c", L.USD), House(4, "d", L.EUR),
     Fx.Lock(TRADER, L.USD, L.EUR, 1000000, 60)]

  function FxAccount(number: string, c: L.Currency): L.Account {
    L.Account(OWNER, number, c, L.Active, 0, 0, 1000000)
  }

  const FX_ACCOUNTS: map<L.AccountId, L.Account> :=
    map[1 := FxAccount("a", L.USD), 2 := FxAccount("b", L.EUR), 3 := FxAccount("c", L.USD), 4 := FxAccount("d", L.EUR)]

  const FX_STATE: Fx.State :=
    Fx.State(L.State(FX_ACCOUNTS, []),
             Fx.Book(SETTLEMENT, [Fx.RateLock(TRADER, L.USD, L.EUR, 1000000, 60, None, Fx.LockActive)], [], [Fx.RateLocked(0)]))

  lemma FxOpens(s: Fx.State, id: L.AccountId, number: string, c: L.Currency)
    requires id !in s.ledger.accounts && L.Row(id) == id && !L.NumberTaken(s.ledger.accounts, number)
    ensures Fx.Next(s, House(id, number, c)) == s.(ledger := s.ledger.(accounts := s.ledger.accounts[id := FxAccount(number, c)]))
  {
  }

  lemma FxRunReaches()
    ensures Fx.Exec(Fx.Initial(SETTLEMENT), FX_RUN) == FX_STATE && Fx.Inv(FX_STATE)
  {
    Fx.ReachableFx(SETTLEMENT, FX_RUN);
    assert L.Row(1) == 1 && L.Row(2) == 2 && L.Row(3) == 3 && L.Row(4) == 4;
    hide Fx.Next, Fx.Inv, L.Row;
    var s := Fx.Initial(SETTLEMENT);
    FxOpens(s, 1, "a", L.USD);
    var t := Fx.Next(s, FX_RUN[0]);
    FxOpens(t, 2, "b", L.EUR);
    var u := Fx.Next(t, FX_RUN[1]);
    FxOpens(u, 3, "c", L.USD);
    var v := Fx.Next(u, FX_RUN[2]);
    FxOpens(v, 4, "d", L.EUR);
    var w := Fx.Next(v, FX_RUN[3]);
    assert w.ledger.accounts == FX_ACCOUNTS;
    FxLocks(w);
    var xs := FX_RUN;
    assert Fx.Exec(s, xs) == Fx.Exec(t, xs[1..]);
    assert xs[1..][1..] == xs[2..] && Fx.Exec(t, xs[1..]) == Fx.Exec(u, xs[2..]);
    assert xs[2..][1..] == xs[3..] && Fx.Exec(u, xs[2..]) == Fx.Exec(v, xs[3..]);
    assert xs[3..][1..] == xs[4..] && Fx.Exec(v, xs[3..]) == Fx.Exec(w, xs[4..]);
    assert xs[4..][1..] == [] && Fx.Exec(w, xs[4..]) == Fx.Next(w, xs[4]);
  }

  lemma FxLocks(w: Fx.State)
    requires w.ledger == L.State(FX_ACCOUNTS, []) && w.book == Fx.Initial(SETTLEMENT).book
    ensures Fx.Next(w, FX_RUN[4]) == FX_STATE
  {
    assert Fx.Next(w, FX_RUN[4]).book == FX_STATE.book;
  }

  /** The lock is kept as "100.0000"; "100" is the same amount, but another text. */
  lemma AmountTexts()
    ensures Money.FormatFixed(1000000) == "100.0000" && Money.ParseAmount("100") == Money.ParseAmount("100.0000") == Some(1000000)
  {
    hide Money.ParseAmount, Money.FormatFixed, Money.ParseSigned, Money.ParseLoan, Money.ParseReport, Money.Value, Money.Print, Money.Scaled;
    assert Money.Text("100", "", false) == "100" && Money.Text("100", "0000", true) == "100" + "." + "0000" == "100.0000";
    Money.ReadsDecimal("100", "", false);
    Money.ReadsDecimal("100", "0000", true);
    HundredScaled();
    Money.FixedParts("100", "0000");
    Money.PrintIsCanonical("100");
    Money.FractionOfFour("0000");
  }

  lemma HundredScaled()
    ensures Money.Scaled("100", "") == Money.Scaled("100", "0000") == 1000000
  {
    assert "100"[..2] == "10" && "10"[..1] == "1" && "1"[..0] == "";
    assert Money.Value("1") == 1 && Money.Value("10") == 10 && Money.Value("100") == 100;
    assert Money.Fraction("") == Money.Zeros(4) && Money.Fraction("0000") == Money.Zeros(4);
    Money.ValueOfZeros(4);
  }

  /** The same amount written with fewer decimals is refused; in the stored spelling it goes through, and
      the account it debits belongs to somebody else than the caller. */
  lemma SpellingOfAmountExample()
    ensures var s := Fx.Exec(Fx.Initial(SETTLEMENT), FX_RUN);
            && Fx.Inv(s) && 1 in s.ledger.accounts && s.ledger.accounts[1].owner != TRADER
            && Fx.Transfer(s, TRADER, Fx.Request(0, "100", 1, 2), 0, 900000).1 == Fx.Thrown(Fx.AmountMismatch)
            && Fx.Transfer(s, TRADER, Fx.Request(0, "100.0000", 1, 2), 0, 900000).1.Executed?
  {
    hide Fx.Exec, Fx.Inv, Fx.Transfer;
    FxRunReaches();
    ShortTextRefused();
    StoredTextAccepted();
  }

  lemma ShortTextRefused()
    ensures Fx.Transfer(FX_STATE, TRADER, Fx.Request(0, "100", 1, 2), 0, 900000).1 == Fx.Thrown(Fx.AmountMismatch)
  {
    AmountTexts();
    hide Money.FormatFixed, Money.ParseAmount, L.Post, Fx.Traded, Fx.Legs;
    assert |"100"| != |"100.0000"|;
  }

  lemma StoredTextAccepted()
    requires Fx.Inv(FX_STATE)
    ensures Fx.Transfer(FX_STATE, TRADER, Fx.Request(0, "100.0000", 1, 2), 0, 900000).1.Executed?
  {
    hide Fx.Inv, Fx.Transfer, Money.FormatFixed, Money.ParseAmount, Fx.Legs, LedgerLaws.Fundable;
    AmountTexts();
    FxLegsFundable();
    Fx.TransferExecutesExactly(FX_STATE, TRADER, Fx.Request(0, "100.0000", 1, 2), 0, 900000);
  }

  lemma FxLegsFundable()
    ensures LedgerLaws.Fundable(FX_ACCOUNTS, [L.Line(1, L.Debit, 1000000, L.USD), L.Line(3, L.Credit, 1000000, L.USD),
                                              L.Line(4, L.Debit, 900000, L.EUR), L.Line(2, L.Credit, 900000, L.EUR)])
  {
    var lines := [L.Line(1, L.Debit, 1000000, L.USD), L.Line(3, L.Credit, 1000000, L.USD),
                  L.Line(4, L.Debit, 900000, L.EUR), L.Line(2, L.Credit, 900000, L.EUR)];
    assert L.Row(1) == 1 && L.Row(2) == 2 && L.Row(3) == 3 && L.Row(4) == 4;
    forall r | r in L.Touched(lines)
      ensures L.Net(lines, r) >= -1000000
    {
      NetOfFour(lines, r);
    }
  }

  lemma NetOfFour(lines: seq<L.Line>, r: L.AccountRef)
    requires |lines| == 4
    ensures L.Net(lines, r) == (if lines[0].account == r then L.Signed(lines[0]) else 0) + (if lines[1].account == r then L.Signed(lines[1]) else 0)
                               + (if lines[2].account == r then L.Signed(lines[2]) else 0) + (if lines[3].account == r then L.Signed(lines[3]) else 0)
  {
    assert lines[..1][..0] == [] && L.Net(lines[..1], r) == if lines[0].account == r then L.Signed(lines[0]) else 0;
    assert lines[..2][..1] == lines[..1];
    assert L.Net(lines[..2], r) == L.Net(lines[..1], r) + if lines[1].account == r then L.Signed(lines[1]) else 0;
    assert lines[..3][..2] == lines[..2];
    assert L.Net(lines[..3], r) == L.Net(lines[..2], r) + if lines[2].account == r then L.Signed(lines[2]) else 0;
  }

  // ---------- payroll ----------

  const CLEARING: map<L.Currency, L.AccountRef> := map[L.USD := 3]

  const FAILING_RUN: seq<Payroll.Action> :=
    [Payroll.Start(0, 0)] + [Payroll.Decide(0)] + [Payroll.Fund(0, Payroll.Aborted)] + [Payroll.FundFail(0)]

  /** A batch of 5 whose funding transaction aborts is FAILED and unfunded, and its report adds up to 0. */
  lemma ReportExample() returns (s: Payroll.State, t: Payroll.State)
    ensures |t.book.batches| == 1 && t.book.batches[0].status == Payroll.BatchFailed && t.book.batches[0].reservation.None?
    ensures t.book.batches[0].total == 5
    ensures Sum(PayrollRuns.AmountsWith(t.book, 0, Payroll.ItemCompleted)) + Sum(PayrollRuns.AmountsWith(t.book, 0, Payroll.ItemFailed)) != 5
    ensures PayrollRuns.OrderlyInv(t)
    ensures PayrollRuns.Reaches(s, FAILING_RUN, t)
    ensures PayrollRuns.Reaches(Payroll.Initial(CLEARING), PayrollRuns.EXAMPLE_SETUP, s)
  {
    hide PayrollRuns.OrderlyInv, Payroll.Inv, PayrollRuns.Exec, Payroll.Ready, PayrollRuns.OrderlyRun;
    s := PayrollRuns.SetupReached();
    var funding := PayrollService.Solo(s.ledger, s.book, 0, Payroll.Funding);
    PayrollService.SoloFunding(s, 0);
    var trace := [Payroll.Start(0, 0)] + [Payroll.Decide(0)];
    var refused := PayrollService.Solo(s.ledger, s.book, 0, Payroll.FundingErr);
    PayrollService.SoloFund(s, trace, funding, 0, Payroll.Aborted, refused);
    PayrollService.SoloFundFail(s, trace + [Payroll.Fund(0, Payroll.Aborted)], refused, 0);
    t := PayrollService.Idle(s.ledger, Payroll.FundFailTx(s.book, 0));
    PayrollRuns.HeaderOf(s, 0);
    PayrollRuns.ReportAddsUpExactly(t, 0);
  }
}
