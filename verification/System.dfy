/** The services together on one ledger: each keeps its own promises while the others run, so the
    guarantees of ledger, payments, loans, payroll and FX hold at once in every reachable state. Stored
    balances agree with the posted lines as long as no posting spells one account two ways and loses by it. */
module System {
  import opened Basics
  import L = Ledger
  import LedgerLaws
  import Spellings
  import P = Payments
  import Loans
  import LoanLaws
  import Payroll
  import PayrollLaws
  import PayrollRuns
  import Fx

  datatype State = State(ledger: L.State, pay: P.Book, loans: Loans.Book, payroll: Payroll.Book,
                         processors: map<nat, Payroll.Processor>, fx: Fx.Book)

  function Lending(s: State): Loans.State {
    Loans.State(P.State(s.ledger, s.pay), s.loans)
  }

  function Payrolling(s: State): Payroll.State {
    Payroll.State(s.ledger, s.payroll, s.processors)
  }

  function Exchange(s: State): Fx.State {
    Fx.State(s.ledger, s.fx)
  }

  /** Direct payments are `LoanStep(OtherPayment(...))`. */
  datatype Action =
    | LedgerCommand(command: L.Command)
    | LoanStep(loan: Loans.Action)
    | PayrollStep(payroll: Payroll.Action)
    | FxStep(fx: Fx.Action)

  /** Free-form ledger calls stay off the reserved correlation prefixes. */
  predicate Public(c: L.Command) {
    match c
    case PostEntries(p) => p.correlation.Free?
    case ReverseTx(_, correlation) => correlation.Free?
    case _ => true
  }

  predicate Own(a: Action) {
    match a
    case LedgerCommand(c) => Public(c)
    case LoanStep(x) => x.OtherPayment? ==> x.action.SubmitPayment?
    case PayrollStep(x) => !x.OtherLedgerCommand?
    case FxStep(x) => !x.OtherLedgerCommand?
  }

  function Next(s: State, a: Action): State
    requires Payroll.Valid(Payrolling(s))
  {
    if !Own(a) then s
    else
      match a
      case LedgerCommand(c) => s.(ledger := L.Next(s.ledger, c))
      case LoanStep(x) =>
        var t := Loans.Next(Lending(s), x);
        s.(ledger := t.pay.ledger, pay := t.pay.book, loans := t.book)
      case PayrollStep(x) =>
        var t := Payroll.Next(Payrolling(s), x);
        s.(ledger := t.ledger, payroll := t.book, processors := t.processors)
      case FxStep(x) =>
        var t := Fx.Next(Exchange(s), x);
        s.(ledger := t.ledger, fx := t.book)
  }

  ghost predicate Inv(s: State) {
    Loans.Inv(Lending(s)) && Payroll.Inv(Payrolling(s)) && Fx.Inv(Exchange(s))
  }

  function Initial(clearing: map<L.Currency, L.AccountRef>, settlement: map<L.Currency, L.AccountRef>): State {
    State(L.Empty, P.EmptyBook, Loans.EmptyBook, Payroll.EmptyBook(clearing), map[], Fx.Initial(settlement).book)
  }

  // ---------- who posts what ----------

  datatype Service = Caller | PaymentService | PayrollService | FxService

  function Owner(c: L.Correlation): Service {
    match c
    case Free(_) => Caller
    case ForPayment(_) => PaymentService
    case ForPayrollFunding(_) => PayrollService
    case ForPayrollItem(_) => PayrollService
    case ForFxTrade(_) => FxService
  }

  /** A later, sound ledger whose new transactions all carry one service's correlation ids. */
  ghost predicate Grows(l: L.State, later: L.State, who: Service) {
    && L.Inv(later)
    && L.Extends(l, later)
    && forall i :: |l.transactions| <= i < |later.transactions| ==> Owner(later.transactions[i].correlation) == who
  }

  lemma PostGrows(l: L.State, p: L.Posting)
    requires L.Inv(l)
    ensures Grows(l, L.Post(l, p).0, Owner(p.correlation))
  {
    LedgerLaws.PostKeepsInv(l, p);
    LedgerLaws.PostExtends(l, p);
    hide L.Post, L.Inv, L.Extends;
  }

  lemma StandsStill(l: L.State, who: Service)
    requires L.Inv(l)
    ensures Grows(l, l, who)
  {
  }

  lemma CommandGrows(l: L.State, c: L.Command)
    requires L.Inv(l) && Public(c)
    ensures Grows(l, L.Next(l, c), Caller)
  {
    LedgerLaws.NextKeepsInv(l, c);
    LedgerLaws.NextExtends(l, c);
    match c {
      case PostEntries(p) => PostGrows(l, p);
      case _ =>
    }
  }

  lemma SubmitGrows(s: P.State, r: P.Request, actor: nat, fraud: P.Fraud.Evaluation)
    requires L.Inv(s.ledger)
    ensures Grows(s.ledger, P.Submit(s, r, actor, fraud).0.ledger, PaymentService)
  {
    hide L.Post, L.Inv, L.Extends, Grows, P.OwnershipError, P.LegsError, P.Materialize, P.MarkFailed, P.MarkCompleted, P.Fraud.Decide;
    StandsStill(s.ledger, PaymentService);
    PostGrows(s.ledger, P.LedgerPosting(r.body, P.Materialize(s.book, r).1));
  }

  lemma LendingGrows(s: Loans.State, a: Loans.Action)
    requires L.Inv(s.pay.ledger) && (a.OtherPayment? ==> a.action.SubmitPayment?)
    ensures Grows(s.pay.ledger, Loans.Next(s, a).pay.ledger, PaymentService)
  {
    hide L.Inv, L.Extends, Grows, P.Submit;
    StandsStill(s.pay.ledger, PaymentService);
    match a {
      case DisburseLoan(r, actor, fraud) =>
        if Loans.DisburseError(s, r.loan).None? {
          SubmitGrows(s.pay, P.Request(r.key, Loans.DisburseBody(r.loan, s.book.loans[r.loan], r)), actor, fraud);
        }
      case RepayLoan(r, actor, fraud) =>
        if Loans.RepayError(s, r, actor).None? {
          SubmitGrows(s.pay, P.Request(r.key, Loans.RepayBody(r.loan, s.book.loans[r.loan], r)), actor, fraud);
        }
      case OtherPayment(x) => SubmitGrows(s.pay, x.request, x.actor, x.fraud);
      case _ =>
    }
  }

  lemma FundGrows(l: L.State, b: Payroll.Book, n: nat)
    requires L.Inv(l) && n < |b.batches|
    ensures Grows(l, Payroll.FundTx(l, b, n).ledger, PayrollService)
  {
    hide L.Post, L.Inv, L.Extends, Grows;
    StandsStill(l, PayrollService);
    if b.batches[n].currency in b.clearing {
      PostGrows(l, Payroll.FundPosting(b, n));
    }
  }

  lemma PayGrows(l: L.State, b: Payroll.Book, i: nat)
    requires L.Inv(l) && i < |b.items| && b.items[i].currency in b.clearing
    ensures Grows(l, Payroll.PayTx(l, b, i).ledger, PayrollService)
  {
    hide L.Post, L.Inv, L.Extends, Grows;
    StandsStill(l, PayrollService);
    PostGrows(l, Payroll.PayPosting(b, i));
  }

  lemma PayrollGrows(s: Payroll.State, a: Payroll.Action)
    requires L.Inv(s.ledger) && Payroll.Valid(s) && !a.OtherLedgerCommand?
    ensures Grows(s.ledger, Payroll.Next(s, a).ledger, PayrollService)
  {
    hide L.Inv, L.Extends, Grows, Payroll.FundTx, Payroll.PayTx, Payroll.FinalizeTx, Payroll.Decision, Payroll.CreateTx;
    StandsStill(s.ledger, PayrollService);
    if a.Fund? && a.p in s.processors {
      FundGrows(s.ledger, s.book, s.processors[a.p].batch);
    } else if a.Pay? && a.p in s.processors && s.processors[a.p].phase.Paying? && s.processors[a.p].phase.todo != [] {
      PayGrows(s.ledger, s.book, s.processors[a.p].phase.todo[0]);
    }
  }

  lemma FxGrows(s: Fx.State, a: Fx.Action)
    requires L.Inv(s.ledger) && !a.OtherLedgerCommand?
    ensures Grows(s.ledger, Fx.Next(s, a).ledger, FxService)
  {
    hide L.Post, L.Inv, L.Extends, Grows, Fx.Money.FormatFixed, Fx.Traded, Fx.Consumption, Fx.Legs;
    StandsStill(s.ledger, FxService);
    if a.Execute? && a.request.rateLock < |s.book.locks| {
      var k := s.book.locks[a.request.rateLock];
      if k.source in s.book.settlement && k.target in s.book.settlement {
        PostGrows(s.ledger, Fx.TradePosting(s.book, k, a.request, a.targetAmount, |s.book.trades|));
      }
    }
  }

  // ---------- what others post does not disturb ----------

  lemma LendingRelies(s: Loans.State, later: L.State, who: Service)
    requires Loans.Inv(s) && Grows(s.pay.ledger, later, who) && who != PaymentService
    ensures Loans.Inv(Loans.State(P.State(later, s.pay.book), s.book))
  {
    P.LaterLedgerKeepsInv(s.pay, later);
    hide P.Inv, L.Inv, L.Extends;
    BookIgnoresLedger(s.pay, P.State(later, s.pay.book), s.book);
  }

  lemma BookIgnoresLedger(pay: P.State, later: P.State, b: Loans.Book)
    requires Loans.BookFits(pay, b) && later.book == pay.book
    ensures Loans.BookFits(later, b)
  {
    forall n | 0 <= n < |b.loans|
      ensures Loans.LoanFits(later, b, n)
    {
      assert Loans.LoanFits(pay, b, n);
    }
    forall k | 0 <= k < |b.repayments|
      ensures Loans.RepaymentFits(later, b, k)
    {
      assert Loans.RepaymentFits(pay, b, k);
    }
  }

  lemma PayrollRelies(s: Payroll.State, later: L.State, who: Service)
    requires Payroll.Inv(s) && Grows(s.ledger, later, who) && who != PayrollService
    ensures Payroll.Inv(Payroll.State(later, s.book, s.processors))
  {
    hide Payroll.Core, L.Inv, L.Extends, Payroll.Valid, Payroll.PayersAreFunded;
    PayrollLaws.LaterLedgerKeepsCore(s.ledger, s.book, later);
    PayrollLaws.GrowsKeepsProcessors(s, later, s.book);
  }

  lemma FxRelies(s: Fx.State, later: L.State, who: Service)
    requires Fx.Inv(s) && Grows(s.ledger, later, who) && who != FxService
    ensures Fx.Inv(Fx.State(later, s.book))
  {
    hide L.Inv, L.Extends, Fx.BookFits;
    Fx.LaterLedgerKeepsInv(s, later);
  }

  lemma LedgerInvOf(s: State)
    requires Inv(s)
    ensures L.Inv(s.ledger) && Payroll.Valid(Payrolling(s))
  {
  }

  lemma NextKeepsInv(s: State, a: Action)
    requires Inv(s)
    ensures Payroll.Valid(Payrolling(s)) && Inv(Next(s, a))
  {
    LedgerInvOf(s);
    hide Loans.Inv, Payroll.Inv, Fx.Inv, L.Inv, L.Next, Loans.Next, Payroll.Next, Fx.Next, Grows, Payroll.Valid, Public;
    var t := Next(s, a);
    if Own(a) {
      match a {
        case LedgerCommand(c) =>
          CommandGrows(s.ledger, c);
          LendingRelies(Lending(s), t.ledger, Caller);
          PayrollRelies(Payrolling(s), t.ledger, Caller);
          FxRelies(Exchange(s), t.ledger, Caller);
        case LoanStep(x) =>
          LoanLaws.NextKeepsInv(Lending(s), x);
          LendingGrows(Lending(s), x);
          PayrollRelies(Payrolling(s), t.ledger, PaymentService);
          FxRelies(Exchange(s), t.ledger, PaymentService);
        case PayrollStep(x) =>
          PayrollLaws.NextKeepsInv(Payrolling(s), x);
          PayrollGrows(Payrolling(s), x);
          LendingRelies(Lending(s), t.ledger, PayrollService);
          FxRelies(Exchange(s), t.ledger, PayrollService);
        case FxStep(x) =>
          Fx.NextKeepsInv(Exchange(s), x);
          FxGrows(Exchange(s), x);
          LendingRelies(Lending(s), t.ledger, FxService);
          PayrollRelies(Payrolling(s), t.ledger, FxService);
      }
    }
  }

  function Exec(s: State, actions: seq<Action>): State
    requires Inv(s)
    decreases |actions|
  {
    if actions == [] then s
    else
      NextKeepsInv(s, actions[0]);
      Exec(Next(s, actions[0]), actions[1..])
  }

  lemma {:induction false} ExecKeepsInv(s: State, actions: seq<Action>)
    requires Inv(s)
    ensures Inv(Exec(s, actions))
    decreases |actions|
  {
    if actions != [] {
      NextKeepsInv(s, actions[0]);
      hide Inv, Next;
      ExecKeepsInv(Next(s, actions[0]), actions[1..]);
    }
  }

  lemma InitialInv(clearing: map<L.Currency, L.AccountRef>, settlement: map<L.Currency, L.AccountRef>)
    ensures Inv(Initial(clearing, settlement))
  {
    LoanLaws.ReachableLoans([]);
    PayrollRuns.InitialInv(clearing);
    Fx.ReachableFx(settlement, []);
  }

  // ---------- agreement of balances and history ----------

  predicate SpelledAsStored(configured: map<L.Currency, L.AccountRef>) {
    forall c :: c in configured ==> L.Row(configured[c]) == configured[c]
  }

  /** What callers and configuration must look after: a free-form posting or a transfer whose lines lose
      nothing (as none does that spells each account one way), and clearing accounts configured by the
      ids the database uses. Payments and loans need nothing. */
  predicate LosesNothing(s: State, a: Action) {
    match a
    case LedgerCommand(c) => Spellings.Guarded(c)
    case LoanStep(_) => true
    case PayrollStep(_) => SpelledAsStored(s.payroll.clearing)
    case FxStep(x) => x.Execute? ==> TransferLosesNothing(s.fx, x.request, x.targetAmount)
  }

  predicate TransferLosesNothing(b: Fx.Book, r: Fx.Request, amount: nat) {
    r.rateLock < |b.locks| && b.locks[r.rateLock].source in b.settlement && b.locks[r.rateLock].target in b.settlement ==>
      Spellings.Agreeing(Fx.Legs(b, b.locks[r.rateLock], r, amount))
  }

  lemma LendingAgrees(s: Loans.State, a: Loans.Action)
    requires P.Inv(s.pay) && L.Agrees(s.pay.ledger) && (a.OtherPayment? ==> a.action.SubmitPayment?)
    ensures L.Agrees(Loans.Next(s, a).pay.ledger)
  {
    hide P.Inv, L.Agrees, P.Submit;
    match a {
      case DisburseLoan(r, actor, fraud) =>
        if Loans.DisburseError(s, r.loan).None? {
          P.SubmitKeepsAgreement(s.pay, P.Request(r.key, Loans.DisburseBody(r.loan, s.book.loans[r.loan], r)), actor, fraud);
        }
      case RepayLoan(r, actor, fraud) =>
        if Loans.RepayError(s, r, actor).None? {
          P.SubmitKeepsAgreement(s.pay, P.Request(r.key, Loans.RepayBody(r.loan, s.book.loans[r.loan], r)), actor, fraud);
        }
      case OtherPayment(x) => P.SubmitKeepsAgreement(s.pay, x.request, x.actor, x.fraud);
      case _ =>
    }
  }

  lemma TransferAgrees(l: L.State, p: L.Posting, source: L.AccountRef, dest: L.AccountRef, amount: nat, c: L.Currency)
    requires L.Agrees(l) && p.lines == L.TransferLines(source, dest, amount, c) && L.Row(source) == source && L.Row(dest) == dest
    ensures L.Agrees(L.Post(l, p).0)
  {
    Spellings.RowsAreOneSpelling(p.lines);
    Spellings.OneSpellingLosesNothing(p.lines);
    hide L.Post, L.Agrees, Spellings.Agreeing;
    Spellings.PostAgrees(l, p);
  }

  lemma FundAgrees(l: L.State, b: Payroll.Book, n: nat)
    requires L.Agrees(l) && Payroll.ItemsFit(b) && n < |b.batches| && SpelledAsStored(b.clearing)
    ensures L.Agrees(Payroll.FundTx(l, b, n).ledger)
  {
    if b.batches[n].currency in b.clearing {
      var batch := b.batches[n];
      hide L.Post, L.Agrees, L.Row;
      TransferAgrees(l, Payroll.FundPosting(b, n), batch.employer, b.clearing[batch.currency], batch.total, batch.currency);
    }
  }

  lemma PayAgrees(l: L.State, b: Payroll.Book, i: nat)
    requires L.Agrees(l) && Payroll.ItemsFit(b) && i < |b.items| && b.items[i].currency in b.clearing && SpelledAsStored(b.clearing)
    ensures L.Agrees(Payroll.PayTx(l, b, i).ledger)
  {
    var item := b.items[i];
    hide L.Post, L.Agrees, L.Row;
    TransferAgrees(l, Payroll.PayPosting(b, i), b.clearing[item.currency], item.employee, item.amount, item.currency);
  }

  lemma PayrollAgrees(s: Payroll.State, a: Payroll.Action)
    requires L.Agrees(s.ledger) && Payroll.Valid(s) && Payroll.ItemsFit(s.book) && !a.OtherLedgerCommand? && SpelledAsStored(s.book.clearing)
    ensures L.Agrees(Payroll.Next(s, a).ledger)
  {
    hide L.Agrees, Payroll.FundTx, Payroll.PayTx, Payroll.FinalizeTx, Payroll.Decision, Payroll.CreateTx, Payroll.ItemsFit, SpelledAsStored;
    if a.Fund? && a.p in s.processors {
      FundAgrees(s.ledger, s.book, s.processors[a.p].batch);
    } else if a.Pay? && a.p in s.processors && s.processors[a.p].phase.Paying? && s.processors[a.p].phase.todo != [] {
      PayAgrees(s.ledger, s.book, s.processors[a.p].phase.todo[0]);
    }
  }

  lemma FxAgrees(s: Fx.State, a: Fx.Action)
    requires L.Agrees(s.ledger) && !a.OtherLedgerCommand? && (a.Execute? ==> TransferLosesNothing(s.book, a.request, a.targetAmount))
    ensures L.Agrees(Fx.Next(s, a).ledger)
  {
    hide L.Post, L.Agrees, Spellings.Agreeing, Fx.Money.FormatFixed, Fx.Traded, Fx.Consumption, Fx.Legs;
    if a.Execute? && a.request.rateLock < |s.book.locks| {
      var k := s.book.locks[a.request.rateLock];
      if k.source in s.book.settlement && k.target in s.book.settlement {
        Spellings.PostAgrees(s.ledger, Fx.TradePosting(s.book, k, a.request, a.targetAmount, |s.book.trades|));
      }
    }
  }

  lemma InvParts(s: State)
    requires Inv(s)
    ensures P.Inv(Lending(s).pay) && Payroll.ItemsFit(s.payroll) && L.Inv(s.ledger) && Payroll.Valid(Payrolling(s))
  {
  }

  /** A step that loses nothing keeps every stored balance equal to what the posted lines add up to. */
  lemma NextKeepsAgreement(s: State, a: Action)
    requires Inv(s) && L.Agrees(s.ledger) && LosesNothing(s, a)
    ensures Payroll.Valid(Payrolling(s)) && L.Agrees(Next(s, a).ledger)
  {
    InvParts(s);
    hide Inv, P.Inv, L.Agrees, L.Inv, L.Next, Loans.Next, Payroll.Next, Fx.Next, Payroll.Valid, Public, Payroll.ItemsFit, SpelledAsStored, TransferLosesNothing, Spellings.Guarded;
    if Own(a) {
      match a {
        case LedgerCommand(c) => Spellings.NextKeepsAgreement(s.ledger, c);
        case LoanStep(x) => LendingAgrees(Lending(s), x);
        case PayrollStep(x) => PayrollAgrees(Payrolling(s), x);
        case FxStep(x) => FxAgrees(Exchange(s), x);
      }
    }
  }

  ghost predicate RunLosesNothing(s: State, actions: seq<Action>)
    requires Inv(s)
    decreases |actions|
  {
    actions == [] ||
    (LosesNothing(s, actions[0]) && (NextKeepsInv(s, actions[0]); RunLosesNothing(Next(s, actions[0]), actions[1..])))
  }

  lemma {:induction false} ExecKeepsAgreement(s: State, actions: seq<Action>)
    requires Inv(s) && L.Agrees(s.ledger) && RunLosesNothing(s, actions)
    ensures L.Agrees(Exec(s, actions).ledger)
    decreases |actions|
  {
    if actions != [] {
      NextKeepsInv(s, actions[0]);
      NextKeepsAgreement(s, actions[0]);
      hide Inv, Next, L.Agrees, LosesNothing;
      ExecKeepsAgreement(Next(s, actions[0]), actions[1..]);
    }
  }

  /** In every state reachable by any interleaving of account, ledger, payment, loan, payroll and FX steps:
      every stored available balance is the stored balance and stays above minus its overdraft limit.
      And after any such run that loses nothing by its spellings: every stored balance is the history of
      posted lines, every currency sums to zero, and no account holds more than the others may owe. */
  lemma MoneyIsSafe(clearing: map<L.Currency, L.AccountRef>, settlement: map<L.Currency, L.AccountRef>,
                    actions: seq<Action>, c: L.Currency, a: L.AccountId)
    ensures Inv(Initial(clearing, settlement))
    ensures var s := Exec(Initial(clearing, settlement), actions);
            && Inv(s)
            && (a in s.ledger.accounts ==>
                  s.ledger.accounts[a].balance == s.ledger.accounts[a].available >= 0 - s.ledger.accounts[a].overdraft)
            && (RunLosesNothing(Initial(clearing, settlement), actions) ==>
                  && MapSum(LedgerLaws.Balances(s.ledger.accounts, c)) == 0
                  && (a in s.ledger.accounts ==>
                        && s.ledger.accounts[a].balance == L.History(s.ledger.transactions, a)
                        && s.ledger.accounts[a].balance <= MapSum(LedgerLaws.OtherOverdrafts(s.ledger.accounts, a))))
  {
    var s0 := Initial(clearing, settlement);
    InitialInv(clearing, settlement);
    ExecKeepsInv(s0, actions);
    var s := Exec(s0, actions);
    InvParts(s);
    if a in s.ledger.accounts {
      Spellings.LimitsOf(s.ledger, a);
    }
    assert L.Agrees(s0.ledger);
    hide Inv, Exec, Initial, LedgerLaws.Balances, LedgerLaws.OtherOverdrafts, L.Inv, L.Agrees, RunLosesNothing;
    if RunLosesNothing(s0, actions) {
      ExecKeepsAgreement(s0, actions);
      LedgerLaws.Conservation(s.ledger, c);
      if a in s.ledger.accounts {
        Spellings.BalanceShown(s.ledger, a);
        LedgerLaws.ExposureBound(s.ledger, a);
      }
    }
  }

  /** Every ledger transaction is the doing of exactly one business record that points back at it, or
      a caller's free-form posting; and no two transactions share a correlation id. */
  lemma EveryTransactionIsExplained(s: State, i: nat)
    requires Inv(s) && i < |s.ledger.transactions|
    ensures forall j :: 0 <= j < |s.ledger.transactions| && j != i ==>
              s.ledger.transactions[j].correlation != s.ledger.transactions[i].correlation
    ensures match s.ledger.transactions[i].correlation
            case Free(_) => true
            case ForPayment(p) =>
              p < |s.pay.payments| && s.pay.payments[p].status == P.PaymentStatus.Completed && s.pay.payments[p].ledgerTx == Some(i)
            case ForPayrollFunding(n) => n < |s.payroll.batches| && s.payroll.batches[n].reservation == Some(i)
            case ForPayrollItem(k) =>
              && k < |s.payroll.items| && s.payroll.items[k].status == Payroll.ItemCompleted
              && s.payroll.items[k].ledgerTx == Some(i)
            case ForFxTrade(t) => t < |s.fx.trades| && Fx.Posted(s.ledger.transactions, s.fx, t)
  {
  }

  // ---------- the steps are the services' own ----------

  /** A run is its steps one after another. */
  lemma RunsGoStepByStep(s: State, a: Action, rest: seq<Action>)
    requires Inv(s)
    ensures Exec(s, []) == s
    ensures Payroll.Valid(Payrolling(s)) && Inv(Next(s, a)) && Exec(s, [a] + rest) == Exec(Next(s, a), rest)
  {
    hide Inv, Next;
    NextKeepsInv(s, a);
    assert ([a] + rest)[1..] == rest;
  }

  /** A step of one service is that service's own function on the shared ledger and its own tables, and the
      tables of the others stay; free-form commands are all those that keep off the reserved ids. */
  lemma StepsAreTheServices(s: State, a: Action)
    requires Payroll.Valid(Payrolling(s))
    ensures var t := Next(s, a);
            match a
            case LedgerCommand(c) =>
              && (t.pay, t.loans, t.payroll, t.processors, t.fx) == (s.pay, s.loans, s.payroll, s.processors, s.fx)
              && ((c.PostEntries? ==> c.posting.correlation.Free?) && (c.ReverseTx? ==> c.correlation.Free?) ==>
                    t.ledger == L.Next(s.ledger, c))
            case LoanStep(x) =>
              && (t.payroll, t.processors, t.fx) == (s.payroll, s.processors, s.fx)
              && (match x
                 case ApplyForLoan(r, actor) => Lending(t) == Loans.Apply(Lending(s), r, actor).0
                 case DisburseLoan(r, actor, fraud) => Lending(t) == Loans.Disburse(Lending(s), r, actor, fraud).0
                 case RepayLoan(r, actor, fraud) => Lending(t) == Loans.Repay(Lending(s), r, actor, fraud).0
                 case SweepLoan(n, cutoff) => Lending(t) == Loans.MarkOverdue(Lending(s), n, cutoff)
                 case OtherPayment(SubmitPayment(r, actor, fraud)) =>
                   t.loans == s.loans && P.State(t.ledger, t.pay) == P.Submit(P.State(s.ledger, s.pay), r, actor, fraud).0
                 case OtherPayment(_) => t == s)
            case PayrollStep(x) =>
              && (t.pay, t.loans, t.fx) == (s.pay, s.loans, s.fx)
              && (!x.OtherLedgerCommand? ==> Payrolling(t) == Payroll.Next(Payrolling(s), x))
            case FxStep(x) =>
              && (t.pay, t.loans, t.payroll, t.processors) == (s.pay, s.loans, s.payroll, s.processors)
              && (match x
                 case Lock(user, source, target, amount, expiresAt) =>
                   Exchange(t) == Fx.LockRate(Exchange(s), user, source, target, amount, expiresAt)
                 case Execute(user, r, now, amount) => Exchange(t) == Fx.Transfer(Exchange(s), user, r, now, amount).0
                 case Sweep(ids, now) => t.ledger == s.ledger && t.fx == Fx.ExpireAll(s.fx, ids, now)
                 case OtherLedgerCommand(_) => t == s)
  {
    hide L.Next, Loans.Apply, Loans.Disburse, Loans.Repay, Loans.MarkOverdue, P.Submit;
    hide Payroll.Next, Payroll.Valid, Fx.Transfer, Fx.LockRate, Fx.ExpireAll;
  }

  /** Seen from one service, the rest of the ledger's traffic is every command that does not use its ids. */
  lemma OtherTrafficIsFree(pay: P.State, payroll: Payroll.State, fx: Fx.State, c: L.Command)
    requires Payroll.Valid(payroll)
    ensures (c.PostEntries? ==> !c.posting.correlation.ForPayment?) && (c.ReverseTx? ==> !c.correlation.ForPayment?) ==>
              P.Next(pay, P.OtherLedgerCommand(c)) == P.State(L.Next(pay.ledger, c), pay.book)
    ensures && (c.PostEntries? ==> !c.posting.correlation.ForPayrollFunding? && !c.posting.correlation.ForPayrollItem?)
            && (c.ReverseTx? ==> !c.correlation.ForPayrollFunding? && !c.correlation.ForPayrollItem?) ==>
              Payroll.Next(payroll, Payroll.OtherLedgerCommand(c)) == Payroll.State(L.Next(payroll.ledger, c), payroll.book, payroll.processors)
    ensures (c.PostEntries? ==> !c.posting.correlation.ForFxTrade?) && (c.ReverseTx? ==> !c.correlation.ForFxTrade?) ==>
              Fx.Next(fx, Fx.OtherLedgerCommand(c)) == Fx.State(L.Next(fx.ledger, c), fx.book)
  {
    hide L.Next, Payroll.Valid;
  }
}
