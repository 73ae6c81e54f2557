/** The loan services as they run: row writes around a nested payment submission, undone together
    when the payment does not complete, and the loop of the overdue sweep. */
module LoanService {
  import opened Basics
  import L = Ledger
  import Fraud
  import P = Payments
  import opened Loans
  import opened PaymentService

  // ---------- the sweep on states ----------

  /** Sweeping the listed loans one transaction after another. */
  function SweepAll(s: State, ids: seq<nat>, cutoff: int): State {
    if ids == [] then s else MarkOverdue(SweepAll(s, ids[..|ids| - 1], cutoff), ids[|ids| - 1], cutoff)
  }

  function PastDueIds(loans: seq<Loan>, cutoff: int): (ids: seq<nat>)
    ensures forall n :: n in ids <==> 0 <= n < |loans| && PastMaturity(loans[n], cutoff)
  {
    if loans == [] then []
    else
      var k := |loans| - 1;
      var ids := PastDueIds(loans[..k], cutoff);
      assert forall n :: 0 <= n < k ==> loans[..k][n] == loans[n];
      if PastMaturity(loans[k], cutoff) then ids + [k] else ids
  }

  /** Whatever the candidates, a sweep turns exactly the listed loans that are ACTIVE with a maturity before
      the cutoff OVERDUE, with one event each, and touches nothing else. */
  lemma {:induction false} SweepMarksExactly(s: State, ids: seq<nat>, cutoff: int)
    ensures var t := SweepAll(s, ids, cutoff);
            && t.pay == s.pay && t.book.repayments == s.book.repayments && |t.book.loans| == |s.book.loans|
            && (forall n :: 0 <= n < |s.book.loans| ==>
                  var loan := s.book.loans[n];
                  t.book.loans[n] == if n in ids && loan.status == Active && loan.maturity.Some? && loan.maturity.value < cutoff
                                     then loan.(status := Overdue) else loan)
            && forall e :: multiset(t.book.outbox)[e] == multiset(s.book.outbox)[e] +
                 if e.PastDue? && e.loan < |s.book.loans| && t.book.loans[e.loan] != s.book.loans[e.loan] then 1 else 0
  {
    if ids != [] {
      var k := |ids| - 1;
      SweepMarksExactly(s, ids[..k], cutoff);
      assert ids == ids[..k] + [ids[k]];
    }
  }

  class LoanOrchestrator {
    const payments: PaymentOrchestrator
    var loans: seq<Loan>
    var repayments: seq<Repayment>
    var outbox: seq<Event>

    function Contents(): State
      reads this, payments, payments.tables
    {
      State(payments.Contents(), Book(loans, repayments, outbox))
    }

    constructor (p: PaymentOrchestrator)
      ensures payments == p && Contents() == State(p.Contents(), EmptyBook)
    {
      payments := p;
      loans, repayments, outbox := [], [], [];
    }

    method ApplyForLoan(a: Application, actor: nat) returns (o: Outcome)
      modifies this`loans, this`outbox
      ensures (Contents(), o) == Apply(old(Contents()), a, actor)
    {
      if a.borrower != actor {
        return Thrown(OtherBorrower);
      }
      var existing := FindApplication(loans, a.slot);
      if existing.Some? {
        return Returned(existing.value);
      }
      var n := |loans|;
      loans := loans + [Loan(a.borrower, Approved, a.principal, 0, a.currency, RowOf(a.wallet), RowOf(a.funding), a.maturity, a.slot, None, None)];
      outbox := outbox + [Applied(n)];
      return Returned(n);
    }

    /** The nested submission; when it throws or its payment is not COMPLETED, nothing of it stays. */
    method SubmitOrUndo(r: P.Request, actor: nat, fraud: Fraud.Evaluation) returns (error: Option<LoanError>, payment: nat)
      modifies payments`slots, payments`payments, payments`outbox, payments.tables
      ensures var (pay, o) := P.Submit(old(payments.Contents()), r, actor, fraud);
              if o.Thrown? then error == Some(PaymentThrew(o.error)) && payments.Contents() == old(payments.Contents())
              else if pay.book.payments[o.payment].status != P.PaymentStatus.Completed
              then error == Some(PaymentNotCompleted) && payments.Contents() == old(payments.Contents())
              else error == None && payment == o.payment && payments.Contents() == pay
    {
      hide P.Submit;
      var accounts, transactions := payments.tables.accounts, payments.tables.transactions;
      var slots0, payments0, outbox0 := payments.slots, payments.payments, payments.outbox;
      var o := payments.SubmitPaymentWithSharedManager(r, actor, fraud);
      payment := 0;
      match o {
        case Thrown(e) => error := Some(PaymentThrew(e));
        case Returned(p) =>
          payment := p;
          error := if payments.payments[p].status == P.PaymentStatus.Completed then None else Some(PaymentNotCompleted);
      }
      if error.Some? {
        payments.tables.accounts, payments.tables.transactions := accounts, transactions;
        payments.slots, payments.payments, payments.outbox := slots0, payments0, outbox0;
      }
    }

    method DisburseApprovedToWallet(r: DisburseRequest, actor: nat, fraud: Fraud.Evaluation) returns (o: Outcome)
      modifies this`loans, this`outbox, payments`slots, payments`payments, payments`outbox, payments.tables
      ensures (Contents(), o) == Disburse(old(Contents()), r, actor, fraud)
    {
      hide P.Submit;
      var n := r.loan;
      if n < |loans| && loans[n].status == Active && loans[n].disbursement.Some? {
        return Returned(n);
      }
      var refused := DisburseError(Contents(), n);
      if refused.Some? {
        return Thrown(refused.value);
      }
      var loan := loans[n];
      var error, payment := SubmitOrUndo(P.Request(r.key, DisburseBody(n, loan, r)), actor, fraud);
      if error.Some? {
        return Thrown(error.value);
      }
      loans := loans[n := loan.(status := Active, outstanding := loan.principal, disbursement := Some(payment))];
      outbox := outbox + [Disbursed(n, payment)];
      return Returned(n);
    }

    method RepayFromWallet(r: RepayRequest, actor: nat, fraud: Fraud.Evaluation) returns (o: Outcome)
      modifies this`loans, this`repayments, this`outbox, payments`slots, payments`payments, payments`outbox, payments.tables
      ensures (Contents(), o) == Repay(old(Contents()), r, actor, fraud)
    {
      hide P.Submit;
      var refused := RepayError(Contents(), r, actor);
      if refused.Some? {
        return Thrown(refused.value);
      }
      var n := r.loan;
      var loan := loans[n];
      var error, payment := SubmitOrUndo(P.Request(r.key, RepayBody(n, loan, r)), actor, fraud);
      if error.Some? {
        return Thrown(error.value);
      }
      if Credited(Book(loans, repayments, outbox), n, payment) {
        return Returned(n);
      }
      var newOutstanding := loan.outstanding - r.amount;
      loan := loan.(outstanding := newOutstanding, lastRepayment := Some(payment));
      if newOutstanding == 0 {
        loan := loan.(status := Closed);
      }
      loans := loans[n := loan];
      repayments := repayments + [Repayment(n, r.amount, payment)];
      outbox := outbox + [Received(n, payment, newOutstanding)];
      return Returned(n);
    }

    /** The candidates are read first; each one is then locked and checked again in its own transaction.
        A transaction that fails is logged and changes nothing, and the sweep goes on. */
    method SweepOverdueLoans(cutoff: int, fails: nat -> bool)
      modifies this`loans, this`outbox
      ensures Contents() == SweepAll(old(Contents()), Without(PastDueIds(old(loans), cutoff), fails), cutoff)
      ensures |loans| == |old(loans)|
      ensures forall n :: 0 <= n < |loans| ==>
                var loan := old(loans)[n];
                loans[n] == if loan.status == Active && loan.maturity.Some? && loan.maturity.value < cutoff && !fails(n)
                            then loan.(status := Overdue) else loan
    {
      ghost var start := Contents();
      var candidates := PastDueIds(loans, cutoff);
      for k := 0 to |candidates|
        invariant |loans| == |old(loans)|
        invariant Contents() == SweepAll(start, Without(candidates[..k], fails), cutoff)
      {
        assert candidates[..k + 1][..k] == candidates[..k];
        var n := candidates[k];
        assert n in candidates;
        if fails(n) {
          continue;
        }
        ghost var done := Without(candidates[..k], fails);
        assert (done + [n])[..|done|] == done;
        if loans[n].status != Active || loans[n].maturity.None? || loans[n].maturity.value >= cutoff {
          continue;
        }
        loans := loans[n := loans[n].(status := Overdue)];
        outbox := outbox + [PastDue(n)];
      }
      assert candidates[..|candidates|] == candidates;
      SweepMarksExactly(start, Without(candidates, fails), cutoff);
    }
  }

  /** The listed loans whose transaction does not fail. */
  function Without(ids: seq<nat>, fails: nat -> bool): (kept: seq<nat>)
    ensures forall n :: n in kept <==> n in ids && !fails(n)
  {
    if ids == [] then []
    else
      var k := |ids| - 1;
      var kept := Without(ids[..k], fails);
      assert ids == ids[..k] + [ids[k]];
      if fails(ids[k]) then kept else kept + [ids[k]]
  }
}
