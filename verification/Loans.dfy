/**
 * Loans on top of payments: apply, disburse, repay and the overdue sweep, each one transaction that
 * contains a whole payment submission and is abandoned unless that payment is COMPLETED.
 */
module Loans {
  import opened Basics
  import L = Ledger
  import Fraud
  import P = Payments
  import Money

  datatype LoanStatus = Draft | PendingReview | Approved | Active | Overdue | Closed | Rejected

  datatype Loan = Loan(borrower: nat, status: LoanStatus, principal: nat, outstanding: nat, currency: L.Currency,
                       wallet: Option<L.AccountId>, funding: Option<L.AccountId>, maturity: Option<int>,
                       slot: P.SlotKey, disbursement: Option<nat>, lastRepayment: Option<nat>)

  datatype Repayment = Repayment(loan: nat, amount: nat, payment: nat)

  datatype Event =
    | Applied(loan: nat) | Disbursed(loan: nat, payment: nat)
    | Received(loan: nat, payment: nat, outstanding: nat) | PastDue(loan: nat)

  datatype Book = Book(loans: seq<Loan>, repayments: seq<Repayment>, outbox: seq<Event>)
  datatype State = State(pay: P.State, book: Book)

  /** Account ids of requests are texts; the loan row keeps the ids they name. */
  datatype Application = Application(borrower: nat, principal: nat, currency: L.Currency, wallet: Option<L.AccountRef>,
                                     funding: Option<L.AccountRef>, maturity: Option<int>, slot: P.SlotKey)
  datatype DisburseRequest = DisburseRequest(loan: nat, key: P.SlotKey, reference: string, memo: Option<string>)
  datatype RepayRequest = RepayRequest(loan: nat, amount: nat, written: string, source: L.AccountRef, key: P.SlotKey,
                                       reference: string, memo: Option<string>)

  datatype LoanError =
    | OtherBorrower | NotFound | NotDisbursable | MissingAccounts | NotPositive | NotBorrower | NotOpen
    | NoFundingAccount | ExceedsOutstanding | PaymentThrew(error: P.SubmitError) | PaymentNotCompleted
  datatype Outcome = Returned(loan: nat) | Thrown(error: LoanError)

  function FindApplication(loans: seq<Loan>, slot: P.SlotKey): (r: Option<nat>)
    ensures r.Some? ==> r.value < |loans| && loans[r.value].slot == slot
    ensures r.None? ==> forall n :: 0 <= n < |loans| ==> loans[n].slot != slot
  {
    if loans == [] then None
    else if loans[|loans| - 1].slot == slot then Some(|loans| - 1)
    else FindApplication(loans[..|loans| - 1], slot)
  }

  function RowOf(r: Option<L.AccountRef>): Option<L.AccountId> {
    match r
    case None => None
    case Some(text) => Some(L.Row(text))
  }

  function Apply(s: State, a: Application, actor: nat): (State, Outcome) {
    var existing := FindApplication(s.book.loans, a.slot);
    if a.borrower != actor then (s, Thrown(OtherBorrower))
    else if existing.Some? then (s, Returned(existing.value))
    else
      var n := |s.book.loans|;
      var loan := Loan(a.borrower, Approved, a.principal, 0, a.currency, RowOf(a.wallet), RowOf(a.funding), a.maturity, a.slot, None, None);
      (s.(book := s.book.(loans := s.book.loans + [loan], outbox := s.book.outbox + [Applied(n)])), Returned(n))
  }

  /** The payment of a disbursement, from funding account to wallet, tied to the loan by its trace. */
  function DisburseBody(n: nat, loan: Loan, r: DisburseRequest): P.Body
    requires loan.wallet.Some? && loan.funding.Some?
  {
    P.Body(P.InternalTransfer, r.reference, loan.funding.value, loan.wallet.value, loan.principal,
           Money.FormatFixed(loan.principal), loan.currency, P.LoanDisburse(n), r.memo)
  }

  function RepayBody(n: nat, loan: Loan, r: RepayRequest): P.Body
    requires loan.funding.Some?
  {
    P.Body(P.InternalTransfer, r.reference, r.source, loan.funding.value, r.amount, r.written, loan.currency,
           P.LoanRepay(n), r.memo)
  }

  function WithLoan(s: State, n: nat, loan: Loan, e: Event): State
    requires n < |s.book.loans|
  {
    s.(book := s.book.(loans := s.book.loans[n := loan], outbox := s.book.outbox + [e]))
  }

  function DisburseError(s: State, n: nat): Option<LoanError> {
    if n >= |s.book.loans| then Some(NotFound)
    else
      var loan := s.book.loans[n];
      if loan.status != Approved && loan.status != PendingReview then Some(NotDisbursable)
      else if loan.wallet.None? || loan.funding.None? then Some(MissingAccounts)
      else None
  }

  function Disburse(s: State, r: DisburseRequest, actor: nat, fraud: Fraud.Evaluation): (State, Outcome) {
    var n := r.loan;
    if n < |s.book.loans| && s.book.loans[n].status == Active && s.book.loans[n].disbursement.Some? then (s, Returned(n))
    else
      var e := DisburseError(s, n);
      if e.Some? then (s, Thrown(e.value))
      else
        var loan := s.book.loans[n];
        var (pay, o) := P.Submit(s.pay, P.Request(r.key, DisburseBody(n, loan, r)), actor, fraud);
        if o.Thrown? then (s, Thrown(PaymentThrew(o.error)))
        else if pay.book.payments[o.payment].status != P.PaymentStatus.Completed then (s, Thrown(PaymentNotCompleted))
        else
          (WithLoan(s.(pay := pay), n,
                    loan.(status := Active, outstanding := loan.principal, disbursement := Some(o.payment)),
                    Disbursed(n, o.payment)), Returned(n))
  }

  predicate Open(loan: Loan) {
    loan.status == Active || loan.status == Overdue
  }

  function RepayError(s: State, r: RepayRequest, actor: nat): Option<LoanError> {
    if r.amount == 0 then Some(NotPositive)
    else if r.loan >= |s.book.loans| then Some(NotFound)
    else
      var loan := s.book.loans[r.loan];
      if loan.borrower != actor then Some(NotBorrower)
      else if !Open(loan) then Some(NotOpen)
      else if loan.funding.None? then Some(NoFundingAccount)
      else if loan.outstanding < r.amount then Some(ExceedsOutstanding)
      else None
  }

  predicate Credited(b: Book, n: nat, payment: nat) {
    exists k :: 0 <= k < |b.repayments| && b.repayments[k].loan == n && b.repayments[k].payment == payment
  }

  /** The effect of a completed repayment payment that was not credited before. */
  function Credit(s: State, n: nat, amount: nat, payment: nat): State
    requires n < |s.book.loans| && amount <= s.book.loans[n].outstanding
  {
    var loan := s.book.loans[n];
    var rest := loan.outstanding - amount;
    var t := WithLoan(s, n, loan.(outstanding := rest, lastRepayment := Some(payment), status := if rest == 0 then Closed else loan.status),
                      Received(n, payment, rest));
    t.(book := t.book.(repayments := t.book.repayments + [Repayment(n, amount, payment)]))
  }

  function Repay(s: State, r: RepayRequest, actor: nat, fraud: Fraud.Evaluation): (State, Outcome) {
    var e := RepayError(s, r, actor);
    if e.Some? then (s, Thrown(e.value))
    else
      var (pay, o) := P.Submit(s.pay, P.Request(r.key, RepayBody(r.loan, s.book.loans[r.loan], r)), actor, fraud);
      if o.Thrown? then (s, Thrown(PaymentThrew(o.error)))
      else if pay.book.payments[o.payment].status != P.PaymentStatus.Completed then (s, Thrown(PaymentNotCompleted))
      else if Credited(s.book, r.loan, o.payment) then (s.(pay := pay), Returned(r.loan))
      else (Credit(s.(pay := pay), r.loan, r.amount, o.payment), Returned(r.loan))
  }

  predicate PastMaturity(loan: Loan, cutoff: int) {
    loan.status == Active && loan.maturity.Some? && loan.maturity.value < cutoff
  }

  /** One transaction of the sweep: re-checked under the row lock. */
  function MarkOverdue(s: State, n: nat, cutoff: int): State {
    if n < |s.book.loans| && PastMaturity(s.book.loans[n], cutoff)
    then WithLoan(s, n, s.book.loans[n].(status := Overdue), PastDue(n)) else s
  }

  datatype Action =
    | ApplyForLoan(application: Application, actor: nat)
    | DisburseLoan(disburse: DisburseRequest, actor: nat, fraud: Fraud.Evaluation)
    | RepayLoan(repay: RepayRequest, actor: nat, fraud: Fraud.Evaluation)
    | SweepLoan(loan: nat, cutoff: int)
    | OtherPayment(action: P.Action)

  function Next(s: State, a: Action): State {
    match a
    case ApplyForLoan(r, actor) => Apply(s, r, actor).0
    case DisburseLoan(r, actor, fraud) => Disburse(s, r, actor, fraud).0
    case RepayLoan(r, actor, fraud) => Repay(s, r, actor, fraud).0
    case SweepLoan(n, cutoff) => MarkOverdue(s, n, cutoff)
    case OtherPayment(x) => s.(pay := P.Next(s.pay, x))
  }

  function Exec(s: State, actions: seq<Action>): State
    decreases |actions|
  {
    if actions == [] then s else Exec(Next(s, actions[0]), actions[1..])
  }

  const EmptyBook := Book([], [], [])
  const Empty := State(P.Empty, EmptyBook)

  // ---------- the invariant ----------

  function AmountsTo(repayments: seq<Repayment>, n: nat): seq<int> {
    seq(|repayments|, k requires 0 <= k < |repayments| => if repayments[k].loan == n then repayments[k].amount else 0)
  }

  /** A completed payment with this trace, amount and currency between these accounts. */
  ghost predicate PaidAs(pay: P.State, p: nat, trace: P.Trace, amount: nat, c: L.Currency) {
    && p < |pay.book.payments|
    && pay.book.payments[p].status == P.PaymentStatus.Completed
    && pay.book.payments[p].body.trace == trace
    && pay.book.payments[p].body.amount == amount
    && pay.book.payments[p].body.currency == c
    && pay.book.payments[p].body.kind == P.InternalTransfer
  }

  ghost predicate LoanFits(pay: P.State, b: Book, n: nat)
    requires n < |b.loans|
  {
    var loan := b.loans[n];
    RowOf(loan.wallet) == loan.wallet && RowOf(loan.funding) == loan.funding &&
    match loan.disbursement
    case None => loan.status == Approved && loan.outstanding == 0 && forall k :: 0 <= k < |b.repayments| ==> b.repayments[k].loan != n
    case Some(p) =>
      && loan.wallet.Some? && loan.funding.Some?
      && PaidAs(pay, p, P.LoanDisburse(n), loan.principal, loan.currency)
      && pay.book.payments[p].body.source == loan.funding.value
      && pay.book.payments[p].body.dest == loan.wallet.value
      && loan.outstanding + Sum(AmountsTo(b.repayments, n)) == loan.principal
      && (loan.status == Closed || Open(loan))
      && (loan.status == Closed ==> loan.outstanding == 0)
      && (Open(loan) ==> (loan.outstanding > 0 <==> loan.principal > 0))
  }

  ghost predicate RepaymentFits(pay: P.State, b: Book, k: nat)
    requires k < |b.repayments|
  {
    var r := b.repayments[k];
    && r.loan < |b.loans|
    && r.amount > 0
    && b.loans[r.loan].disbursement.Some?
    && b.loans[r.loan].funding.Some?
    && PaidAs(pay, r.payment, P.LoanRepay(r.loan), r.amount, b.loans[r.loan].currency)
    && pay.book.payments[r.payment].body.dest == b.loans[r.loan].funding.value
  }

  ghost predicate BookFits(pay: P.State, b: Book) {
    && (forall n :: 0 <= n < |b.loans| ==> LoanFits(pay, b, n))
    && (forall k :: 0 <= k < |b.repayments| ==> RepaymentFits(pay, b, k))
    && (forall j, k :: 0 <= j < k < |b.repayments| ==> b.repayments[j].payment != b.repayments[k].payment)
    && (forall m, n :: 0 <= m < n < |b.loans| ==> b.loans[m].slot != b.loans[n].slot)
  }

  ghost predicate Inv(s: State) {
    P.Inv(s.pay) && BookFits(s.pay, s.book)
  }
}
