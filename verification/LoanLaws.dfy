/** Conservation of principal, single credit per payment, agreement with the ledger, and retries. */
module LoanLaws {
  import opened Basics
  import L = Ledger
  import LedgerLaws
  import Spellings
  import Fraud
  import P = Payments
  import Money
  import opened Loans

  // ---------- every step keeps the invariant ----------

  /** What a submission that returns a COMPLETED payment leaves behind. */
  lemma SubmitFacts(s: P.State, r: P.Request, actor: nat, fraud: Fraud.Evaluation)
    requires P.Inv(s)
    ensures var (t, o) := P.Submit(s, r, actor, fraud);
            && P.Inv(t) && P.Later(s, t)
            && (o.Returned? ==> o.payment < |t.book.payments| && t.book.payments[o.payment].body == r.body)
  {
    P.SubmitKeepsInv(s, r, actor, fraud);
    P.NextIsLater(s, P.SubmitPayment(r, actor, fraud));
    if P.Submit(s, r, actor, fraud).1.Returned? {
      P.ReturnedIsStored(s, r, actor, fraud);
    }
    hide P.Inv, P.Submit, P.Later;
  }

  /** Later payments never disturb the loans. */
  lemma LaterPaymentsKeepBook(pay: P.State, later: P.State, b: Book)
    requires BookFits(pay, b) && P.Later(pay, later)
    ensures BookFits(later, b)
  {
    hide P.Inv, L.Extends;
    assert forall p :: 0 <= p < |pay.book.payments| ==> later.book.payments[p] == pay.book.payments[p];
    forall n | 0 <= n < |b.loans|
      ensures LoanFits(later, b, n)
    {
      assert LoanFits(pay, b, n);
    }
    forall k | 0 <= k < |b.repayments|
      ensures RepaymentFits(later, b, k)
    {
      assert RepaymentFits(pay, b, k);
    }
  }

  lemma AppliedKeepsBook(s: State, a: Application, actor: nat)
    requires BookFits(s.pay, s.book)
    ensures BookFits(s.pay, Apply(s, a, actor).0.book)
  {
    var b, c := s.book, Apply(s, a, actor).0.book;
    if c != b {
      forall k | 0 <= k < |b.repayments|
        ensures b.repayments[k].loan < |b.loans|
      {
        assert RepaymentFits(s.pay, b, k);
      }
      forall n | 0 <= n < |c.loans|
        ensures LoanFits(s.pay, c, n)
      {
        assert n < |b.loans| ==> LoanFits(s.pay, b, n) && c.loans[n] == b.loans[n];
        RowOfRow(a.wallet);
        RowOfRow(a.funding);
      }
      forall k | 0 <= k < |c.repayments|
        ensures RepaymentFits(s.pay, c, k)
      {
        assert RepaymentFits(s.pay, b, k);
      }
    }
  }

  lemma RowOfRow(r: Option<L.AccountRef>)
    ensures RowOf(RowOf(r)) == RowOf(r)
  {
    if r.Some? {
      Spellings.RowIsARow(r.value);
    }
  }

  /** Replacing one loan by another with the same terms, in the same or a later stage. */
  lemma LoanReplaced(pay: P.State, b: Book, c: Book, n: nat)
    requires BookFits(pay, b) && n < |b.loans| == |c.loans| && c.repayments == b.repayments
    requires c.loans == b.loans[n := c.loans[n]] && LoanFits(pay, c, n)
    requires c.loans[n].slot == b.loans[n].slot && c.loans[n].currency == b.loans[n].currency
    requires c.loans[n].funding == b.loans[n].funding && (b.loans[n].disbursement.Some? ==> c.loans[n].disbursement.Some?)
    ensures BookFits(pay, c)
  {
    hide PaidAs;
    forall m | 0 <= m < |c.loans|
      ensures LoanFits(pay, c, m)
    {
      assert m != n ==> LoanFits(pay, b, m) && c.loans[m] == b.loans[m];
    }
    forall k | 0 <= k < |c.repayments|
      ensures RepaymentFits(pay, c, k)
    {
      assert RepaymentFits(pay, b, k);
    }
  }

  lemma DisburseKeepsInv(s: State, r: DisburseRequest, actor: nat, fraud: Fraud.Evaluation)
    requires Inv(s)
    ensures Inv(Disburse(s, r, actor, fraud).0)
  {
    hide P.Inv, P.Submit, P.Later, BookFits;
    var t := Disburse(s, r, actor, fraud).0;
    if t != s {
      var n := r.loan;
      var loan := s.book.loans[n];
      var request := P.Request(r.key, DisburseBody(n, loan, r));
      SubmitFacts(s.pay, request, actor, fraud);
      var (pay, o) := P.Submit(s.pay, request, actor, fraud);
      LaterPaymentsKeepBook(s.pay, pay, s.book);
      assert PaidAs(pay, o.payment, P.LoanDisburse(n), loan.principal, loan.currency);
      DisbursedFits(t.pay, s.book, t.book, n);
      LoanReplaced(t.pay, s.book, t.book, n);
    }
  }

  lemma DisbursedFits(pay: P.State, b: Book, c: Book, n: nat)
    requires BookFits(pay, b) && n < |b.loans| == |c.loans| && c.repayments == b.repayments
    requires b.loans[n].status == Approved || b.loans[n].status == PendingReview
    requires var p := c.loans[n].disbursement;
             && p.Some? && b.loans[n].wallet.Some? && b.loans[n].funding.Some?
             && c.loans[n] == b.loans[n].(status := Active, outstanding := b.loans[n].principal, disbursement := p)
             && PaidAs(pay, p.value, P.LoanDisburse(n), b.loans[n].principal, b.loans[n].currency)
             && pay.book.payments[p.value].body.source == b.loans[n].funding.value
             && pay.book.payments[p.value].body.dest == b.loans[n].wallet.value
    ensures LoanFits(pay, c, n)
  {
    hide PaidAs;
    assert LoanFits(pay, b, n);
    SumZero(AmountsTo(c.repayments, n));
  }

  lemma AmountsAppend(rs: seq<Repayment>, r: Repayment, n: nat)
    ensures Sum(AmountsTo(rs + [r], n)) == Sum(AmountsTo(rs, n)) + if r.loan == n then r.amount else 0
  {
    assert AmountsTo(rs + [r], n)[..|rs|] == AmountsTo(rs, n);
  }

  /** A payment that carries this loan's trace has been credited to this loan or to none. */
  lemma UncreditedIsNew(pay: P.State, b: Book, n: nat, amount: nat, c: L.Currency, payment: nat)
    requires BookFits(pay, b) && PaidAs(pay, payment, P.LoanRepay(n), amount, c) && !Credited(b, n, payment)
    ensures forall k :: 0 <= k < |b.repayments| ==> b.repayments[k].payment != payment
  {
    hide LoanFits;
    forall k | 0 <= k < |b.repayments|
      ensures b.repayments[k].payment != payment
    {
      assert RepaymentFits(pay, b, k);
    }
  }

  lemma CreditKeepsBook(s: State, n: nat, amount: nat, payment: nat)
    requires BookFits(s.pay, s.book) && n < |s.book.loans| && Open(s.book.loans[n]) && s.book.loans[n].funding.Some?
    requires 0 < amount <= s.book.loans[n].outstanding && !Credited(s.book, n, payment)
    requires PaidAs(s.pay, payment, P.LoanRepay(n), amount, s.book.loans[n].currency)
    requires s.pay.book.payments[payment].body.dest == s.book.loans[n].funding.value
    ensures BookFits(s.pay, Credit(s, n, amount, payment).book)
  {
    var b, c := s.book, Credit(s, n, amount, payment).book;
    UncreditedIsNew(s.pay, b, n, amount, b.loans[n].currency, payment);
    hide PaidAs, Credited;
    assert LoanFits(s.pay, b, n);
    forall m | 0 <= m < |c.loans|
      ensures LoanFits(s.pay, c, m)
    {
      assert LoanFits(s.pay, b, m);
      AmountsAppend(b.repayments, Repayment(n, amount, payment), m);
    }
    forall k | 0 <= k < |c.repayments|
      ensures RepaymentFits(s.pay, c, k)
    {
      assert k < |b.repayments| ==> RepaymentFits(s.pay, b, k) && c.repayments[k] == b.repayments[k];
    }
  }

  lemma RepayKeepsInv(s: State, r: RepayRequest, actor: nat, fraud: Fraud.Evaluation)
    requires Inv(s)
    ensures Inv(Repay(s, r, actor, fraud).0)
  {
    hide P.Inv, P.Submit, P.Later, BookFits, Credit, Credited;
    if RepayError(s, r, actor).None? {
      var n := r.loan;
      var request := P.Request(r.key, RepayBody(n, s.book.loans[n], r));
      SubmitFacts(s.pay, request, actor, fraud);
      var (pay, o) := P.Submit(s.pay, request, actor, fraud);
      LaterPaymentsKeepBook(s.pay, pay, s.book);
      if o.Returned? && pay.book.payments[o.payment].status == P.PaymentStatus.Completed && !Credited(s.book, n, o.payment) {
        CreditKeepsBook(s.(pay := pay), n, r.amount, o.payment);
        CreditPays(s.(pay := pay), n, r.amount, o.payment);
      }
    }
  }

  lemma CreditPays(s: State, n: nat, amount: nat, payment: nat)
    requires n < |s.book.loans| && amount <= s.book.loans[n].outstanding
    ensures Credit(s, n, amount, payment).pay == s.pay
  {
  }

  lemma SweepKeepsInv(s: State, n: nat, cutoff: int)
    requires Inv(s)
    ensures Inv(MarkOverdue(s, n, cutoff))
  {
    hide P.Inv, PaidAs;
    var t := MarkOverdue(s, n, cutoff);
    if t != s {
      assert LoanFits(s.pay, s.book, n);
      LoanReplaced(s.pay, s.book, t.book, n);
    }
  }

  lemma NextKeepsInv(s: State, a: Action)
    requires Inv(s)
    ensures Inv(Next(s, a))
  {
    hide P.Inv, BookFits, P.Next, P.Later, Disburse, Repay, MarkOverdue;
    match a {
      case ApplyForLoan(r, actor) => AppliedKeepsBook(s, r, actor);
      case DisburseLoan(r, actor, fraud) => DisburseKeepsInv(s, r, actor, fraud);
      case RepayLoan(r, actor, fraud) => RepayKeepsInv(s, r, actor, fraud);
      case SweepLoan(n, cutoff) => SweepKeepsInv(s, n, cutoff);
      case OtherPayment(x) =>
        P.NextKeepsInv(s.pay, x);
        P.NextIsLater(s.pay, x);
        LaterPaymentsKeepBook(s.pay, P.Next(s.pay, x), s.book);
    }
  }

  lemma {:induction false} ExecKeepsInv(s: State, actions: seq<Action>)
    requires Inv(s)
    ensures Inv(Exec(s, actions))
    decreases |actions|
  {
    if actions != [] {
      NextKeepsInv(s, actions[0]);
      ExecKeepsInv(Next(s, actions[0]), actions[1..]);
    }
  }

  /** Every reachable state: applications, disbursements, repayments, sweeps, direct payments (also
      ones that carry a loan's trace), and other ledger traffic, in any order and with any keys. */
  lemma ReachableLoans(actions: seq<Action>)
    ensures Inv(Exec(Empty, actions))
  {
    P.ReachablePayments([]);
    ExecKeepsInv(Empty, actions);
  }

  // ---------- what it means ----------

  /** After disbursement the outstanding principal and all repayments add up to the principal. */
  lemma PrincipalIsConserved(s: State, n: nat)
    requires Inv(s) && n < |s.book.loans|
    ensures var loan := s.book.loans[n];
            && (loan.disbursement.Some? <==> loan.status == Closed || Open(loan))
            && (loan.disbursement.Some? ==> loan.outstanding + Sum(AmountsTo(s.book.repayments, n)) == loan.principal)
            && (loan.status == Closed ==> Sum(AmountsTo(s.book.repayments, n)) == loan.principal)
            && (Open(loan) && loan.principal > 0 ==> loan.outstanding > 0)
  {
    assert LoanFits(s.pay, s.book, n);
  }

  /** The exception: a loan of nothing is ACTIVE with nothing outstanding, and no repayment can close it. */
  lemma EmptyLoanStaysOpen(s: State, r: RepayRequest, actor: nat, fraud: Fraud.Evaluation)
    requires Inv(s) && r.loan < |s.book.loans| && Open(s.book.loans[r.loan])
    ensures s.book.loans[r.loan].outstanding == 0 <==> s.book.loans[r.loan].principal == 0
    ensures s.book.loans[r.loan].principal == 0 ==> Repay(s, r, actor, fraud).1.Thrown?
  {
    hide P.Inv, P.Submit, PaidAs;
    assert LoanFits(s.pay, s.book, r.loan);
  }

  /** Each payment is credited once across all loans, to the loan it names and in its full amount,
      and its ledger transaction moved that amount into that loan's funding account. */
  lemma CreditMatchesLedger(s: State, k: nat)
    requires Inv(s) && k < |s.book.repayments|
    ensures var r := s.book.repayments[k];
            && r.loan < |s.book.loans| && r.payment < |s.pay.book.payments|
            && s.book.loans[r.loan].funding.Some?
            && (forall j :: 0 <= j < |s.book.repayments| && s.book.repayments[j].payment == r.payment ==> j == k)
            && (forall m :: 0 <= m < |s.book.loans| ==> s.book.loans[m].disbursement != Some(r.payment))
            && PostedLines(s.pay, r.payment).Some?
            && PostedLines(s.pay, r.payment).value ==
                 [L.Line(L.Row(s.pay.book.payments[r.payment].body.source), L.Debit, r.amount, s.book.loans[r.loan].currency),
                  L.Line(s.book.loans[r.loan].funding.value, L.Credit, r.amount, s.book.loans[r.loan].currency)]
  {
    hide L.Inv, P.EventsMatch, P.SlotsMatch, L.Row;
    assert RepaymentFits(s.pay, s.book, k);
    var r := s.book.repayments[k];
    assert LoanFits(s.pay, s.book, r.loan);
    var body := s.pay.book.payments[r.payment].body;
    LedgerLaws.StoredTransfer(body.source, body.dest, body.amount, body.currency);
    forall m | 0 <= m < |s.book.loans|
      ensures s.book.loans[m].disbursement != Some(s.book.repayments[k].payment)
    {
      assert LoanFits(s.pay, s.book, m);
    }
  }

  /** A disbursed loan stands on one completed payment, which took its principal from its funding account to
      its wallet. */
  lemma DisbursementMatchesLedger(s: State, n: nat)
    requires Inv(s) && n < |s.book.loans| && s.book.loans[n].disbursement.Some?
    ensures var loan := s.book.loans[n];
            && loan.funding.Some? && loan.wallet.Some? && loan.disbursement.value < |s.pay.book.payments|
            && s.pay.book.payments[loan.disbursement.value].body.trace == P.LoanDisburse(n)
            && PostedLines(s.pay, loan.disbursement.value) ==
                 Some([L.Line(loan.funding.value, L.Debit, loan.principal, loan.currency),
                       L.Line(loan.wallet.value, L.Credit, loan.principal, loan.currency)])
  {
    hide L.Inv, P.EventsMatch, P.SlotsMatch, L.Row;
    assert LoanFits(s.pay, s.book, n);
    var body := s.pay.book.payments[s.book.loans[n].disbursement.value].body;
    LedgerLaws.StoredTransfer(body.source, body.dest, body.amount, body.currency);
  }

  /** The ledger lines a completed payment posted. */
  function PostedLines(pay: P.State, p: nat): Option<seq<L.Line>> {
    if p < |pay.book.payments| && pay.book.payments[p].ledgerTx.Some? && pay.book.payments[p].ledgerTx.value < |pay.ledger.transactions|
    then Some(pay.ledger.transactions[pay.book.payments[p].ledgerTx.value].lines) else None
  }

  /** What payment `p` moved on account `a`. */
  function Moves(pay: P.State, p: nat, a: L.AccountId): int {
    var lines := PostedLines(pay, p);
    if lines.None? then 0 else L.Net(lines.value, a)
  }

  function RepaidInto(s: State, n: nat, a: L.AccountId): seq<int> {
    seq(|s.book.repayments|, k requires 0 <= k < |s.book.repayments| =>
      if s.book.repayments[k].loan == n then Moves(s.pay, s.book.repayments[k].payment, a) else 0)
  }

  predicate PaidFrom(s: State, k: nat, a: L.AccountId)
    requires k < |s.book.repayments|
  {
    var p := s.book.repayments[k].payment;
    p < |s.pay.book.payments| && L.Row(s.pay.book.payments[p].body.source) == a
  }

  /** Repayments of loan `n` whose source is account `a` itself. */
  function CircularInto(s: State, n: nat, a: L.AccountId): seq<int> {
    seq(|s.book.repayments|, k requires 0 <= k < |s.book.repayments| =>
      if s.book.repayments[k].loan == n && PaidFrom(s, k, a) then s.book.repayments[k].amount else 0)
  }

  lemma TransferMoves(pay: P.State, p: nat, a: L.AccountId)
    requires P.Inv(pay) && p < |pay.book.payments| && pay.book.payments[p].status == P.PaymentStatus.Completed
    ensures var b := pay.book.payments[p].body;
            Moves(pay, p, a) == (if L.Row(b.dest) == a then b.amount else 0) - (if L.Row(b.source) == a then b.amount else 0)
  {
    hide L.Inv, P.EventsMatch, P.SlotsMatch, L.Row;
    var b := pay.book.payments[p].body;
    assert PostedLines(pay, p) == Some(L.Stored(P.LedgerPosting(b, p).lines));
    LedgerLaws.StoredTransfer(b.source, b.dest, b.amount, b.currency);
    LedgerLaws.TransferEffects(L.Row(b.source), L.Row(b.dest), b.amount, b.currency);
  }

  /** The loan's own ledger transactions leave its funding account short by exactly the outstanding
      principal, except for money that was sent from the funding account to itself. */
  lemma FundingPosition(s: State, n: nat)
    requires Inv(s) && n < |s.book.loans| && s.book.loans[n].disbursement.Some?
    ensures var loan := s.book.loans[n];
            && loan.funding.Some? && loan.wallet.Some?
            && var f := loan.funding.value;
               Moves(s.pay, loan.disbursement.value, f) + Sum(RepaidInto(s, n, f)) ==
                 (if loan.wallet.value == f then loan.principal else 0) - loan.outstanding - Sum(CircularInto(s, n, f))
  {
    hide P.Inv, Moves;
    assert LoanFits(s.pay, s.book, n);
    var loan := s.book.loans[n];
    var f := loan.funding.value;
    TransferMoves(s.pay, loan.disbursement.value, f);
    forall k | 0 <= k < |s.book.repayments|
      ensures AmountsTo(s.book.repayments, n)[k] == RepaidInto(s, n, f)[k] + CircularInto(s, n, f)[k]
    {
      assert RepaymentFits(s.pay, s.book, k);
      TransferMoves(s.pay, s.book.repayments[k].payment, f);
    }
    assert Sum(AmountsTo(s.book.repayments, n)) == loan.principal - loan.outstanding;
    assert Moves(s.pay, loan.disbursement.value, f) == (if loan.wallet.value == f then loan.principal else 0) - loan.principal;
    SumPointwise(RepaidInto(s, n, f), CircularInto(s, n, f), AmountsTo(s.book.repayments, n));
  }

  /** So for a loan paid out of its funding account, the ledger shows the outstanding principal exactly
      when no repayment was sent from the funding account to itself. */
  lemma LedgerShowsOutstandingExactly(s: State, n: nat)
    requires Inv(s) && n < |s.book.loans| && s.book.loans[n].disbursement.Some?
    requires s.book.loans[n].funding.Some? && s.book.loans[n].wallet != s.book.loans[n].funding
    ensures var loan := s.book.loans[n];
            var f := loan.funding.value;
            Moves(s.pay, loan.disbursement.value, f) + Sum(RepaidInto(s, n, f)) == 0 - loan.outstanding <==>
              forall k :: 0 <= k < |s.book.repayments| && s.book.repayments[k].loan == n ==> !PaidFrom(s, k, f)
  {
    hide P.Inv, LoanFits, Moves, RepaidInto;
    FundingPosition(s, n);
    var f := s.book.loans[n].funding.value;
    var circular := CircularInto(s, n, f);
    if k :| 0 <= k < |s.book.repayments| && s.book.repayments[k].loan == n && PaidFrom(s, k, f) {
      assert RepaymentFits(s.pay, s.book, k);
      assert circular[k] > 0;
      SumBoundsElement(circular, k);
    } else {
      SumZero(circular);
    }
  }

  // ---------- retries ----------

  /** Loans keep their terms, payments and repayments are only added. */
  ghost predicate Later(s: State, t: State) {
    && P.Later(s.pay, t.pay)
    && s.book.repayments <= t.book.repayments
    && |s.book.loans| <= |t.book.loans|
    && (forall n :: 0 <= n < |s.book.loans| ==> SameTerms(s.book.loans[n], t.book.loans[n]))
  }

  ghost predicate SameTerms(x: Loan, y: Loan) {
    && y.borrower == x.borrower && y.principal == x.principal && y.currency == x.currency
    && y.wallet == x.wallet && y.funding == x.funding && y.slot == x.slot
    && (x.disbursement.Some? ==> y.disbursement == x.disbursement && y.outstanding <= x.outstanding)
    && (x.status == Closed ==> y.status == Closed)
  }

  lemma SelfLater(pay: P.State)
    ensures P.Later(pay, pay)
  {
  }

  lemma NextIsLater(s: State, a: Action)
    requires Inv(s)
    ensures Later(s, Next(s, a))
  {
    hide P.Inv, P.Later, P.Submit, P.Next, Credited, PaidAs;
    SelfLater(s.pay);
    match a {
      case ApplyForLoan(r, actor) =>
      case DisburseLoan(r, actor, fraud) =>
        if DisburseError(s, r.loan).None? {
          assert LoanFits(s.pay, s.book, r.loan);
          SubmitFacts(s.pay, P.Request(r.key, DisburseBody(r.loan, s.book.loans[r.loan], r)), actor, fraud);
        }
      case RepayLoan(r, actor, fraud) =>
        if RepayError(s, r, actor).None? {
          SubmitFacts(s.pay, P.Request(r.key, RepayBody(r.loan, s.book.loans[r.loan], r)), actor, fraud);
        }
      case SweepLoan(n, cutoff) =>
      case OtherPayment(x) => P.NextIsLater(s.pay, x);
    }
  }

  lemma LaterTransitive(s: State, t: State, u: State)
    requires Later(s, t) && Later(t, u)
    ensures Later(s, u)
  {
  }

  lemma {:induction false} ExecIsLater(s: State, actions: seq<Action>)
    requires Inv(s)
    ensures Later(s, Exec(s, actions))
    decreases |actions|
  {
    if actions == [] {
      SelfLater(s.pay);
    } else {
      NextKeepsInv(s, actions[0]);
      NextIsLater(s, actions[0]);
      ExecIsLater(Next(s, actions[0]), actions[1..]);
      LaterTransitive(s, Next(s, actions[0]), Exec(s, actions));
    }
  }

  /** A repayment repeated after anything else never takes effect twice. It returns again exactly while
      the loan is still open with at least that much outstanding, so repeating the final one throws. */
  lemma RepeatedRepaymentExactly(s: State, r: RepayRequest, actor: nat, fraud: Fraud.Evaluation, between: seq<Action>, fraud2: Fraud.Evaluation)
    requires Inv(s) && Repay(s, r, actor, fraud).1.Returned?
    ensures var u := Exec(Repay(s, r, actor, fraud).0, between);
            && Repay(u, r, actor, fraud2).0 == u
            && r.loan < |u.book.loans|
            && (Repay(u, r, actor, fraud2).1.Returned? <==>
                  Open(u.book.loans[r.loan]) && u.book.loans[r.loan].outstanding >= r.amount)
  {
    var t := Repay(s, r, actor, fraud).0;
    RepayKeepsInv(s, r, actor, fraud);
    RepaidIsStored(s, r, actor, fraud);
    ExecKeepsInv(t, between);
    ExecIsLater(t, between);
    RepeatedRepayment(t, Exec(t, between), r, actor, fraud2);
    hide Exec, Repay, Inv, Later;
  }

  /** The payment of this request is stored, completed and credited. */
  ghost predicate Stored(t: State, r: RepayRequest, actor: nat, p: nat) {
    && r.loan < |t.book.loans| && r.amount > 0
    && t.book.loans[r.loan].borrower == actor && t.book.loans[r.loan].funding.Some?
    && Credited(t.book, r.loan, p)
    && r.key in t.pay.book.slots && t.pay.book.slots[r.key].linked == Some(p)
    && p < |t.pay.book.payments| && t.pay.book.payments[p].status == P.PaymentStatus.Completed
    && t.pay.book.payments[p].body == RepayBody(r.loan, t.book.loans[r.loan], r)
    && P.OwnedBy(t.pay.ledger.accounts, t.pay.book.payments[p].body, actor)
  }

  lemma RepaidIsStored(s: State, r: RepayRequest, actor: nat, fraud: Fraud.Evaluation)
    requires Inv(s) && Repay(s, r, actor, fraud).1.Returned?
    ensures exists p: nat :: Stored(Repay(s, r, actor, fraud).0, r, actor, p)
  {
    hide P.Inv, P.Submit, P.Later, BookFits, P.OwnedBy;
    var request := P.Request(r.key, RepayBody(r.loan, s.book.loans[r.loan], r));
    var (pay, o) := P.Submit(s.pay, request, actor, fraud);
    P.ReturnedIsStored(s.pay, request, actor, fraud);
    var t := Repay(s, r, actor, fraud).0;
    if !Credited(s.book, r.loan, o.payment) {
      assert t.book.repayments[|s.book.repayments|] == Repayment(r.loan, r.amount, o.payment);
    }
    assert Stored(t, r, actor, o.payment);
  }

  lemma RepeatedRepayment(t: State, u: State, r: RepayRequest, actor: nat, fraud: Fraud.Evaluation)
    requires Inv(u) && Later(t, u) && exists p: nat :: Stored(t, r, actor, p)
    ensures Repay(u, r, actor, fraud).0 == u && r.loan < |u.book.loans|
    ensures Repay(u, r, actor, fraud).1.Returned? <==>
              Open(u.book.loans[r.loan]) && u.book.loans[r.loan].outstanding >= r.amount
  {
    hide P.EventsMatch, P.LedgerMatches, P.SlotsMatch, L.Inv, P.Submit, BookFits, P.OwnedBy, Later, Credit;
    var p: nat :| Stored(t, r, actor, p);
    StoredStays(t, u, r, actor, p);
    P.UsedKeyChangesNothing(u.pay, P.Request(r.key, RepayBody(r.loan, u.book.loans[r.loan], r)), actor, fraud);
  }

  lemma StoredStays(t: State, u: State, r: RepayRequest, actor: nat, p: nat)
    requires Later(t, u) && Stored(t, r, actor, p)
    ensures Stored(u, r, actor, p)
  {
  }

  /** A disbursed loan is never disbursed again; the repeated call returns exactly while it is ACTIVE. */
  lemma RepeatedDisbursementExactly(s: State, r: DisburseRequest, actor: nat, fraud: Fraud.Evaluation)
    requires Inv(s) && r.loan < |s.book.loans| && s.book.loans[r.loan].disbursement.Some?
    ensures Disburse(s, r, actor, fraud).0 == s
    ensures Disburse(s, r, actor, fraud).1.Returned? <==> s.book.loans[r.loan].status == Active
  {
    hide P.Inv, P.Submit, PaidAs;
    assert LoanFits(s.pay, s.book, r.loan);
  }

  // ---------- what a call does, written out ----------

  /** An application by the borrower is APPROVED at once, with nothing outstanding, under a key no loan has; a known
      key returns its loan; anybody else is refused. */
  lemma ApplyExactly(s: State, a: Application, actor: nat)
    ensures var (t, o) := Apply(s, a, actor);
            var n := |s.book.loans|;
            if a.borrower != actor then o == Thrown(OtherBorrower) && t == s
            else if exists m :: 0 <= m < n && s.book.loans[m].slot == a.slot then
              && t == s && o.Returned? && o.loan < n && s.book.loans[o.loan].slot == a.slot
            else
              && o == Returned(n) && t.pay == s.pay && t.book.repayments == s.book.repayments
              && t.book.outbox == s.book.outbox + [Applied(n)]
              && t.book.loans == s.book.loans +
                   [Loan(a.borrower, Approved, a.principal, 0, a.currency,
                         if a.wallet.Some? then Some(L.Row(a.wallet.value)) else None,
                         if a.funding.Some? then Some(L.Row(a.funding.value)) else None,
                         a.maturity, a.slot, None, None)]
  {
    hide L.Row;
  }

  /** The nested payment: submitted for the caller, and completed or not. */
  ghost predicate Pays(s: P.State, r: P.Request, actor: nat, fraud: Fraud.Evaluation, t: P.State, p: nat) {
    && P.Submit(s, r, actor, fraud) == (t, P.Returned(p))
    && p < |t.book.payments| && t.book.payments[p].status == P.PaymentStatus.Completed
  }

  /** A disbursement takes effect exactly for an approved loan with both accounts whose payment, of the principal from
      funding account to wallet, completes; then the loan is ACTIVE and owes its principal. */
  lemma DisburseExactly(s: State, r: DisburseRequest, actor: nat, fraud: Fraud.Evaluation)
    requires Inv(s)
    ensures var (t, o) := Disburse(s, r, actor, fraud);
            && (o.Thrown? ==> t == s)
            && (o == Thrown(NotFound) <==> r.loan >= |s.book.loans|)
            && (r.loan < |s.book.loans| ==>
                  var n, loan := r.loan, s.book.loans[r.loan];
                  if loan.status == Active then o == Returned(n) && t == s
                  else if loan.status != Approved then o == Thrown(NotDisbursable)
                  else if loan.wallet.None? || loan.funding.None? then o == Thrown(MissingAccounts)
                  else
                    var request := P.Request(r.key, P.Body(P.InternalTransfer, r.reference, loan.funding.value, loan.wallet.value,
                                             loan.principal, Money.FormatFixed(loan.principal), loan.currency, P.LoanDisburse(n), r.memo));
                    var (pay, x) := P.Submit(s.pay, request, actor, fraud);
                    if x.Thrown? then o == Thrown(PaymentThrew(x.error))
                    else if !Pays(s.pay, request, actor, fraud, pay, x.payment) then o == Thrown(PaymentNotCompleted)
                    else
                      && o == Returned(n) && t.pay == pay && t.book.repayments == s.book.repayments
                      && t.book.loans == s.book.loans[n := loan.(status := Active, outstanding := loan.principal,
                                                                 disbursement := Some(x.payment))]
                      && t.book.outbox == s.book.outbox + [Disbursed(n, x.payment)])
  {
    hide P.Inv, P.Submit, PaidAs, Money.FormatFixed;
    if r.loan < |s.book.loans| {
      assert LoanFits(s.pay, s.book, r.loan);
    }
  }

  /** A repayment takes effect exactly for a positive amount, from the borrower, on an open loan with a funding account
      and at least that much outstanding, when its payment into the funding account completes and was not
      credited to the loan before; then the loan owes that much less, and nothing left closes it. */
  lemma RepayExactly(s: State, r: RepayRequest, actor: nat, fraud: Fraud.Evaluation)
    requires Inv(s)
    ensures var (t, o) := Repay(s, r, actor, fraud);
            && (o.Thrown? ==> t == s)
            && (o == Thrown(NotPositive) <==> r.amount == 0)
            && (r.amount > 0 ==> (o == Thrown(NotFound) <==> r.loan >= |s.book.loans|))
            && (r.amount > 0 && r.loan < |s.book.loans| ==>
                  var n, loan := r.loan, s.book.loans[r.loan];
                  if loan.borrower != actor then o == Thrown(NotBorrower)
                  else if loan.status != Active && loan.status != Overdue then o == Thrown(NotOpen)
                  else if r.amount > loan.outstanding then o == Thrown(ExceedsOutstanding)
                  else
                    && loan.funding.Some?
                    && var request := P.Request(r.key, P.Body(P.InternalTransfer, r.reference, r.source, loan.funding.value,
                                                r.amount, r.written, loan.currency, P.LoanRepay(n), r.memo));
                       var (pay, x) := P.Submit(s.pay, request, actor, fraud);
                       if x.Thrown? then o == Thrown(PaymentThrew(x.error))
                       else if !Pays(s.pay, request, actor, fraud, pay, x.payment) then o == Thrown(PaymentNotCompleted)
                       else if exists k :: 0 <= k < |s.book.repayments|
                                           && s.book.repayments[k].loan == n && s.book.repayments[k].payment == x.payment
                       then o == Returned(n) && t == s.(pay := pay)
                       else
                         && o == Returned(n) && t.pay == pay
                         && t.book.repayments == s.book.repayments + [Repayment(n, r.amount, x.payment)]
                         && t.book.outbox == s.book.outbox + [Received(n, x.payment, loan.outstanding - r.amount)]
                         && t.book.loans == s.book.loans[n := loan.(outstanding := loan.outstanding - r.amount,
                                                                    lastRepayment := Some(x.payment),
                                                                    status := if loan.outstanding == r.amount then Closed else loan.status)])
  {
    hide P.Inv, P.Submit, PaidAs;
    if r.amount > 0 && r.loan < |s.book.loans| {
      assert LoanFits(s.pay, s.book, r.loan);
    }
  }
}
