/** The payroll orchestrator as it runs: its loops and its transactions one after another, each
    tied to a step of the processor machine, so that what holds for all interleavings holds here. */
module PayrollService {
  import opened Basics
  import L = Ledger
  import LedgerLaws
  import opened Posting
  import opened Payroll
  import PayrollLaws
  import PayrollRecords
  import opened PayrollRuns

  // ---------- runs of the machine ----------

  ghost predicate Reached(start: State, trace: seq<Action>, s: State) {
    OrderlyInv(start) && OrderlyRun(start, trace) && Exec(start, trace) == s && OrderlyInv(s)
  }

  lemma {:induction false} OrderlyRunAppend(s: State, trace: seq<Action>, a: Action)
    requires OrderlyInv(s) && OrderlyRun(s, trace) && Orderly(Exec(s, trace), a)
    ensures OrderlyRun(s, trace + [a])
    decreases |trace|
  {
    hide Inv, Header, Knows, EventsKnown, Alone, Next, Orderly;
    if trace == [] {
      assert ([] + [a])[0] == a && ([] + [a])[1..] == [];
      InvAfter(s, a);
    } else {
      InvAfter(s, trace[0]);
      NextOrderly(s, trace[0]);
      OrderlyRunAppend(Next(s, trace[0]), trace[1..], a);
      assert (trace + [a])[0] == trace[0] && (trace + [a])[1..] == trace[1..] + [a];
    }
  }

  lemma Advance(start: State, trace: seq<Action>, s: State, a: Action)
    requires Reached(start, trace, s) && Orderly(s, a)
    ensures Valid(s) && Reached(start, trace + [a], Next(s, a))
  {
    hide Inv, Header, Knows, EventsKnown, Alone, Next, Orderly, Exec;
    InvAfter(s, a);
    ExecAppend(start, trace, a);
    OrderlyRunAppend(start, trace, a);
    NextOrderly(s, a);
  }

  /** The only processor alive, as the orchestrator of one process sees the tables. */
  function Solo(l: L.State, b: Book, n: nat, phase: Phase): State {
    State(l, b, map[0 := Processor(n, phase)])
  }

  function Idle(l: L.State, b: Book): State {
    State(l, b, map[])
  }

  lemma Begins(l: L.State, b: Book, n: nat)
    requires OrderlyInv(Idle(l, b)) && n < |b.batches|
    ensures Reached(Idle(l, b), [Start(0, n)], Solo(l, b, n, Started(b.batches[n].status)))
  {
    hide Inv, Header, Knows, EventsKnown, Alone;
    assert Reached(Idle(l, b), [], Idle(l, b));
    Advance(Idle(l, b), [], Idle(l, b), Start(0, n));
    assert [] + [Start(0, n)] == [Start(0, n)];
  }

  // ---------- the items still ahead of the payout loop ----------

  function PendingFrom(items: seq<Item>, n: nat, i: nat): seq<nat>
    requires i <= |items|
    decreases |items| - i
  {
    if i == |items| then []
    else (if items[i].batch == n && items[i].status == Pending then [i] else []) + PendingFrom(items, n, i + 1)
  }

  lemma {:induction false} PendingSplit(items: seq<Item>, n: nat, i: nat)
    requires i <= |items|
    ensures PendingIds(items[..i], n) + PendingFrom(items, n, i) == PendingIds(items, n)
    decreases |items| - i
  {
    if i == |items| {
      assert items[..i] == items && PendingFrom(items, n, i) == [];
    } else {
      PendingSplit(items, n, i + 1);
      assert items[..i + 1][..i] == items[..i];
      var here := if items[i].batch == n && items[i].status == Pending then [i] else [];
      assert PendingIds(items[..i + 1], n) == PendingIds(items[..i], n) + here;
      assert PendingFrom(items, n, i) == here + PendingFrom(items, n, i + 1);
      hide PendingIds, PendingFrom;
      Regroup(PendingIds(items[..i], n), here, PendingFrom(items, n, i + 1));
    }
  }

  lemma PendingAll(items: seq<Item>, n: nat)
    ensures PendingFrom(items, n, 0) == PendingIds(items, n) && PendingFrom(items, n, |items|) == []
  {
    PendingSplit(items, n, 0);
    assert [] + PendingFrom(items, n, 0) == PendingFrom(items, n, 0);
  }

  lemma PendingStep(items: seq<Item>, n: nat, i: nat)
    requires i < |items|
    ensures var todo, rest := PendingFrom(items, n, i), PendingFrom(items, n, i + 1);
            if items[i].batch == n && items[i].status == Pending then todo != [] && todo[0] == i && todo[1..] == rest else todo == rest
  {
  }

  lemma LineSum(lines: seq<NewLine>, k: nat)
    ensures Sum(LineAmounts(lines)[..0]) == 0
    ensures k < |lines| ==> Sum(LineAmounts(lines)[..k + 1]) == Sum(LineAmounts(lines)[..k]) + lines[k].amount
  {
    if k < |lines| {
      assert LineAmounts(lines)[..k + 1][..k] == LineAmounts(lines)[..k];
    }
  }

  // ---------- what a run without a crash achieves ----------

  /** Exactly the batches that a run without a crash brings to (or finds in) a state it returns. */
  predicate CanFinish(l: L.State, b: Book, n: nat, fault: Fault) {
    && n < |b.batches|
    && match b.batches[n].status
       case Draft => Ready(b, n) && fault == NoFault && FundTx(l, b, n).ok
       case FundingReserved => true
       case Disbursing => HasItems(b, n)
       case BatchCompleted => true
       case _ => false
  }

  /** The same, written out: a DRAFT batch needs items, an undisturbed funding transaction, two usable accounts and
      an employer who can pay; a DISBURSING one needs items; a funded or completed one nothing more. */
  lemma CanFinishExactly(l: L.State, b: Book, n: nat, fault: Fault)
    requires OrderlyInv(Idle(l, b)) && n < |b.batches|
    ensures CanFinish(l, b, n, fault) <==>
            var batch := b.batches[n];
            var items := exists i :: 0 <= i < |b.items| && b.items[i].batch == n;
            || batch.status == FundingReserved
            || batch.status == BatchCompleted
            || (batch.status == Disbursing && items)
            || (&& batch.status == Draft && items && fault == NoFault && batch.currency in b.clearing
                && (forall x :: x in {batch.employer, L.Row(b.clearing[batch.currency])} ==>
                      x in l.accounts && l.accounts[x].status == L.Active && l.accounts[x].currency == batch.currency)
                && (batch.employer == b.clearing[batch.currency]
                    || l.accounts[batch.employer].available - batch.total >= 0 - l.accounts[batch.employer].overdraft))
  {
    HeaderOf(Idle(l, b), n);
    CoreAfter(Idle(l, b));
    hide Inv, OrderlyInv, Core, Ready, Resumable, FundTx, L.Row;
    PayrollRecords.ReadyExactly(l, b, n);
    if b.batches[n].status == Draft {
      PayrollRecords.FundingExactly(l, b, n);
    }
  }

  /** Terminal, nothing pending, and FAILED exactly when some item failed. */
  ghost predicate Settled(b: Book, n: nat) {
    && n < |b.batches|
    && AllItemsTerminal(b, n)
    && !SomeItem(b, n, Pending)
    && b.batches[n].status == (if SomeItem(b, n, ItemFailed) then BatchFailed else BatchCompleted)
  }

  lemma CompletedIsSettled(s: State, n: nat)
    requires OrderlyInv(s) && n < |s.book.batches| && s.book.batches[n].status == BatchCompleted
    ensures Settled(s.book, n)
  {
    assert Header(s.book, n);
    hide Inv, Knows;
  }

  lemma FinalizeSettles(s: State, n: nat)
    requires OrderlyInv(s) && s == Solo(s.ledger, s.book, n, Paying([]))
    ensures n < |s.book.batches| && Settled(FinalizeTx(s.book, n), n)
  {
    StepFacts(s, 0);
    hide Inv, Header, EventsKnown, Alone, OrderlyInv, ItemsFit;
    FinalizeEnds(s.book, n);
    assert SomeItem(s.book, n, ItemFailed) <==> SomeItem(FinalizeTx(s.book, n), n, ItemFailed);
  }

  lemma ClearingConfigured(s: State, n: nat)
    requires OrderlyInv(s) && n < |s.book.batches| && s.book.batches[n].reservation.Some?
    ensures s.book.batches[n].currency in s.book.clearing
  {
  }

  /** What a processor in a given phase may rely on. */
  lemma SoloFacts(s: State, n: nat, phase: Phase)
    requires OrderlyInv(s) && s == Solo(s.ledger, s.book, n, phase)
    ensures n < |s.book.batches| && Knows(s.book, Processor(n, phase)) && Header(s.book, n) && Valid(s)
  {
    StepFacts(s, 0);
  }

  class PayrollOrchestrator {
    const tables: LedgerTables
    const clearing: map<L.Currency, L.AccountRef>
    var batches: seq<Batch>
    var items: seq<Item>
    var outbox: seq<Event>

    function Contents(): Book
      reads this
    {
      Book(clearing, batches, items, outbox)
    }

    constructor (t: LedgerTables, configured: map<L.Currency, L.AccountRef>)
      ensures tables == t && Contents() == EmptyBook(configured)
    {
      tables, clearing := t, configured;
      batches, items, outbox := [], [], [];
    }

    /** One pass over the payload: active accounts, distinct references, one currency, exact total. */
    method AssertCreateBatchValid(r: NewBatch) returns (ok: bool)
      ensures ok <==> ValidNewBatch(tables.accounts, r)
    {
      hide UsableAccount, Sum;
      LineSum(r.lines, 0);
      if !UsableAccount(tables.accounts, r.employer, r.currency) {
        return false;
      }
      var seenRefs: set<string>, sum := {}, 0;
      for k := 0 to |r.lines|
        invariant forall x :: x in seenRefs <==> exists i :: 0 <= i < k && r.lines[i].reference == x
        invariant forall i, j :: 0 <= i < j < k ==> r.lines[i].reference != r.lines[j].reference
        invariant forall i :: 0 <= i < k ==>
                    UsableAccount(tables.accounts, r.lines[i].employee, r.lines[i].currency) && r.lines[i].currency == r.currency
        invariant sum == Sum(LineAmounts(r.lines)[..k])
      {
        var line := r.lines[k];
        if line.reference in seenRefs {
          return false;
        }
        seenRefs := seenRefs + {line.reference};
        if !UsableAccount(tables.accounts, line.employee, line.currency) || line.currency != r.currency {
          return false;
        }
        LineSum(r.lines, k);
        sum := sum + line.amount;
      }
      assert LineAmounts(r.lines)[..|r.lines|] == LineAmounts(r.lines);
      return sum == r.total;
    }

    method CreatePayrollBatch(r: NewBatch)
      modifies this`batches, this`items, this`outbox
      ensures Contents() == CreateTx(tables.Contents(), old(Contents()), r)
      ensures PayrollRecords.CreatedFrom(tables.accounts, old(Contents()), r, Contents())
    {
      PayrollRecords.CreateWrites(tables.Contents(), Contents(), r);
      hide L.Row, PayrollRecords.CreatedFrom;
      if KeyTaken(Contents(), r.employer, r.key) {
        return;
      }
      var valid := AssertCreateBatchValid(r);
      if valid {
        var n := |batches|;
        batches := batches + [Batch(L.Row(r.employer), r.key, r.total, r.currency, Draft, None)];
        items := items + NewItems(n, r.lines);
        outbox := outbox + [Created(n)];
      }
    }

    /** Re-checks the stored lines against the header before any money moves. */
    method AssertItemTotalsMatchBatchHeader(n: nat) returns (ok: bool)
      requires n < |batches|
      ensures ok <==>
                && (forall i :: 0 <= i < |items| && items[i].batch == n ==> items[i].currency == batches[n].currency)
                && Sum(AmountsOf(items, n)) == batches[n].total
    {
      var sum := 0;
      for k := 0 to |items|
        invariant forall i :: 0 <= i < k && items[i].batch == n ==> items[i].currency == batches[n].currency
        invariant sum == Sum(AmountsOf(items, n)[..k])
      {
        assert AmountsOf(items, n)[..k + 1][..k] == AmountsOf(items, n)[..k];
        if items[k].batch == n {
          if items[k].currency != batches[n].currency {
            return false;
          }
          sum := sum + items[k].amount;
        }
      }
      assert AmountsOf(items, n)[..|items|] == AmountsOf(items, n);
      return sum == batches[n].total;
    }

    method AssertBatchReadyForProcessing(n: nat) returns (ok: bool)
      requires n < |batches|
      ensures ok <==> Ready(Contents(), n)
    {
      if !HasItems(Contents(), n) || exists i :: 0 <= i < |items| && items[i].batch == n && items[i].status != Pending {
        return false;
      }
      ok := AssertItemTotalsMatchBatchHeader(n);
    }

    /** The funding transaction: at most one post per batch, and the header and event with it. */
    method ReserveEmployerFunds(n: nat) returns (ok: bool)
      requires n < |batches|
      modifies this`batches, this`outbox, tables
      ensures Commit(tables.Contents(), Contents(), ok) == FundTx(old(tables.Contents()), old(Contents()), n)
    {
      hide L.Post;
      var batch := batches[n];
      if batch.currency !in clearing {
        return false;
      }
      if batch.status != Draft {
        return true;
      }
      if batch.reservation.Some? {
        batches := batches[n := batch.(status := FundingReserved)];
        return true;
      }
      var r := tables.PostWithSharedManager(FundPosting(Contents(), n));
      match r {
        case Rejected(_) => LedgerLaws.RejectionChangesNothing(old(tables.Contents()), FundPosting(Contents(), n)); ok := false;
        case _ =>
          batches := batches[n := batch.(status := FundingReserved, reservation := Some(r.id))];
          outbox := outbox + [Funded(n)];
          ok := true;
      }
    }

    method MarkBatchFundingFailed(n: nat)
      requires n < |batches|
      modifies this`batches, this`outbox
      ensures Contents() == FundFailTx(old(Contents()), n)
      ensures old(batches)[n].status != Draft ==> batches == old(batches) && outbox == old(outbox)
      ensures old(batches)[n].status == Draft ==>
                && batches == old(batches)[n := old(batches)[n].(status := BatchFailed)]
                && outbox == old(outbox) + [Finished(n, false)]
    {
      if batches[n].status == Draft {
        batches := batches[n := batches[n].(status := BatchFailed)];
        outbox := outbox + [Finished(n, false)];
      }
    }

    method UpdateBatchStatus(n: nat, status: BatchStatus)
      requires n < |batches|
      modifies this`batches
      ensures Contents() == WithBatch(old(Contents()), n, old(batches[n]).(status := status))
    {
      batches := batches[n := batches[n].(status := status)];
    }

    /** One payout transaction: re-checks PENDING under the row lock, posts, completes the item. */
    method PayItem(i: nat) returns (ok: bool)
      requires i < |items| && items[i].currency in clearing
      modifies this`items, this`outbox, tables
      ensures Commit(tables.Contents(), Contents(), ok) == PayTx(old(tables.Contents()), old(Contents()), i)
    {
      hide L.Post;
      if items[i].status != Pending {
        return true;
      }
      var r := tables.PostWithSharedManager(PayPosting(Contents(), i));
      match r {
        case Rejected(_) => LedgerLaws.RejectionChangesNothing(old(tables.Contents()), PayPosting(Contents(), i)); ok := false;
        case _ =>
          items := items[i := items[i].(status := ItemCompleted, ledgerTx := Some(r.id))];
          outbox := outbox + [ItemPaid(i)];
          ok := true;
      }
    }

    method MarkItemPayoutFailed(i: nat)
      requires i < |items|
      modifies this`items
      ensures Contents() == PayFailTx(old(Contents()), i)
      ensures items == if old(items)[i].status == Pending then old(items)[i := old(items)[i].(status := ItemFailed)] else old(items)
    {
      if items[i].status == Pending {
        items := items[i := items[i].(status := ItemFailed)];
      }
    }

    method FinalizePayrollBatchAfterDisbursement(n: nat)
      requires n < |batches|
      modifies this`batches, this`outbox
      ensures Contents() == FinalizeTx(old(Contents()), n)
      ensures var done := forall i :: 0 <= i < |items| && items[i].batch == n ==> items[i].status == ItemCompleted || items[i].status == ItemFailed;
              var failed := exists i :: 0 <= i < |items| && items[i].batch == n && items[i].status == ItemFailed;
              if old(batches)[n].status != Disbursing || !done then batches == old(batches) && outbox == old(outbox)
              else
                && batches == old(batches)[n := old(batches)[n].(status := if failed then BatchFailed else BatchCompleted)]
                && outbox == old(outbox) + [Finished(n, !failed)]
    {
      PayrollRecords.HeaderWritesExactly(Contents(), n);
      var b := Contents();
      if batches[n].status != Disbursing || SomeItem(b, n, Pending) || !AllItemsTerminal(b, n) {
        return;
      }
      var failed := SomeItem(b, n, ItemFailed);
      batches := batches[n := batches[n].(status := if failed then BatchFailed else BatchCompleted)];
      outbox := outbox + [Finished(n, !failed)];
    }

    /** The payout attempt of one item: a transaction, and on any error a second one that marks it. */
    method TryPay(n: nat, i: nat, fault: Fault, ghost start: State, ghost trace: seq<Action>, ghost todo: seq<nat>)
      returns (ghost longer: seq<Action>)
      requires todo != [] && todo[0] == i
      requires Reached(start, trace, Solo(tables.Contents(), Contents(), n, Paying(todo)))
      modifies this`items, this`outbox, tables
      ensures Reached(start, longer, Solo(tables.Contents(), Contents(), n, Paying(todo[1..])))
      ensures |items| == old(|items|)
    {
      hide Inv, OrderlyInv, OrderlyRun, Exec, PayTx, Knows, Header, Valid;
      ghost var s := Solo(tables.Contents(), Contents(), n, Paying(todo));
      SoloPays(s, n, todo);
      PayTxEffect(s.ledger, s.book, i);
      Advance(start, trace, s, Pay(0, fault));
      longer := trace + [Pay(0, fault)];
      var ok := false;
      if fault != Aborted {
        ok := PayItem(i);
      }
      ghost var t := Solo(tables.Contents(), Contents(), n, if ok && fault == NoFault then Paying(todo[1..]) else PayErr(i, todo[1..]));
      SoloPay(s, n, todo, fault, t);
      if !ok || fault != NoFault {
        Advance(start, longer, t, PayFail(0));
        longer := longer + [PayFail(0)];
        MarkItemPayoutFailed(i);
        SoloPayFail(t, n, i, todo[1..], Solo(tables.Contents(), Contents(), n, Paying(todo[1..])));
      }
    }

    /** The loop over the items read before it, skipping those that were not PENDING then. */
    method ExecutePayrollItemPayouts(n: nat, faults: nat -> Fault, ghost start: State, ghost trace: seq<Action>)
      returns (ghost longer: seq<Action>)
      requires Reached(start, trace, Solo(tables.Contents(), Contents(), n, Paying(PendingIds(items, n))))
      modifies this`items, this`outbox, tables
      ensures Reached(start, longer, Solo(tables.Contents(), Contents(), n, Paying([])))
    {
      hide Reached, PendingIds, PendingFrom;
      longer := trace;
      var rows := items;
      PendingAll(rows, n);
      for i := 0 to |rows|
        invariant Reached(start, longer, Solo(tables.Contents(), Contents(), n, Paying(PendingFrom(rows, n, i))))
      {
        PendingStep(rows, n, i);
        if rows[i].batch != n || rows[i].status != Pending {
          continue;
        }
        longer := TryPay(n, i, faults(i), start, longer, PendingFrom(rows, n, i));
      }
    }

    /** The part after funding: the last checks, the payouts, the finalizing transaction. */
    method Disburse(n: nat, faults: nat -> Fault, ghost start: State, ghost trace: seq<Action>)
      returns (ghost longer: seq<Action>)
      requires Reached(start, trace, Solo(tables.Contents(), Contents(), n, Opened))
      modifies this, tables
      ensures Reached(start, longer, Idle(tables.Contents(), Contents())) && Settled(Contents(), n)
    {
      hide Inv, OrderlyInv, OrderlyRun, Exec, PayTx, Knows, Header, Valid, FinalizeTx, Settled, Reached;
      ghost var s := Solo(tables.Contents(), Contents(), n, Opened);
      SoloReread(start, trace, s, n);
      longer := trace + [Reread(0)];
      longer := ExecutePayrollItemPayouts(n, faults, start, longer);
      s := Solo(tables.Contents(), Contents(), n, Paying([]));
      SoloFinalize(start, longer, s, n);
      FinalizePayrollBatchAfterDisbursement(n);
      longer := longer + [Finalize(0)];
    }

    /** One run of a batch, new or resumed, in which any single transaction may abort or lose its
        acknowledgement: it is a run of the machine, and it settles the batch exactly when it returns. */
    method ProcessPayrollBatch(n: nat, fundFault: Fault, payFaults: nat -> Fault)
      returns (status: Option<BatchStatus>, ghost trace: seq<Action>)
      requires OrderlyInv(Idle(tables.Contents(), Contents()))
      modifies this, tables
      ensures Reached(old(Idle(tables.Contents(), Contents())), trace, Idle(tables.Contents(), Contents()))
      ensures status.Some? <==> CanFinish(old(tables.Contents()), old(Contents()), n, fundFault)
      ensures status.Some? ==> Settled(Contents(), n) && status.value == batches[n].status
    {
      hide Inv, OrderlyInv, OrderlyRun, Exec, FundTx, Knows, Header, Valid, Settled, Reached, Ready, Resumable, FundFailTx;
      ghost var start := Idle(tables.Contents(), Contents());
      trace, status := [], None;
      NoSteps(start);
      if n >= |batches| {
        return;
      }
      var seen := batches[n].status;
      match seen {
        case BatchCompleted => CompletedIsSettled(start, n); return Some(seen), [];
        case BatchFailed => return;
        case Cancelled => return;
        case Draft =>
          var ready := AssertBatchReadyForProcessing(n);
          if !ready {
            return;
          }
          SoloFunding(start, n);
          trace := [Start(0, n)] + [Decide(0)];
          ghost var s := Solo(tables.Contents(), Contents(), n, Funding);
          var ok := false;
          if fundFault != Aborted {
            ok := ReserveEmployerFunds(n);
          }
          ghost var t := Solo(tables.Contents(), Contents(), n, if ok && fundFault == NoFault then Opening else FundingErr);
          SoloFund(start, trace, s, n, fundFault, t);
          trace := trace + [Fund(0, fundFault)];
          if !ok || fundFault != NoFault {
            SoloFundFail(start, trace, t, n);
            MarkBatchFundingFailed(n);
            trace := trace + [FundFail(0)];
            return;
          }
          SoloOpen(start, trace, t, n);
          UpdateBatchStatus(n, Disbursing);
          trace := trace + [Open(0)];
        case FundingReserved =>
          SoloReserved(start, n);
          trace := [Start(0, n)] + [Decide(0)];
          SoloOpen(start, trace, Solo(tables.Contents(), Contents(), n, Opening), n);
          UpdateBatchStatus(n, Disbursing);
          trace := trace + [Open(0)];
        case Disbursing =>
          if !HasItems(Contents(), n) {
            return;
          }
          SoloResumed(start, n);
          trace := [Start(0, n)] + [Decide(0)];
      }
      trace := Disburse(n, payFaults, start, trace);
      assert n < |batches| by { SettledInRange(Contents(), n); }
      status := Some(batches[n].status);
    }

    /** Succeeded and failed amounts of a terminal batch. */
    method CompletionReport(n: nat) returns (report: Option<(nat, nat)>)
      requires n < |batches|
      ensures report.Some? <==> Done(Contents(), n)
      ensures report.Some? ==> report.value.0 == Sum(AmountsWith(Contents(), n, ItemCompleted))
      ensures report.Some? ==> report.value.1 == Sum(AmountsWith(Contents(), n, ItemFailed))
    {
      if batches[n].status != BatchCompleted && batches[n].status != BatchFailed {
        return None;
      }
      var succeeded := SumAmounts(n, ItemCompleted);
      var failed := SumAmounts(n, ItemFailed);
      return Some((succeeded, failed));
    }

    method SumAmounts(n: nat, status: ItemStatus) returns (acc: nat)
      ensures acc == Sum(AmountsWith(Contents(), n, status))
    {
      acc := 0;
      var b := Contents();
      for k := 0 to |items|
        invariant acc == Sum(AmountsWith(b, n, status)[..k])
      {
        assert AmountsWith(b, n, status)[..k + 1][..k] == AmountsWith(b, n, status)[..k];
        if items[k].batch == n && items[k].status == status {
          acc := acc + items[k].amount;
        }
      }
      assert AmountsWith(b, n, status)[..|items|] == AmountsWith(b, n, status);
    }
  }

  // ---------- one step of the only processor ----------

  lemma NoSteps(start: State)
    requires OrderlyInv(start)
    ensures Reached(start, [], start)
  {
    hide OrderlyInv;
    InvOf(start);
  }

  lemma InvOf(s: State)
    requires OrderlyInv(s)
    ensures Inv(s)
  {
  }

  lemma SettledInRange(b: Book, n: nat)
    requires Settled(b, n)
    ensures n < |b.batches|
  {
  }

  lemma SoloPays(s: State, n: nat, todo: seq<nat>)
    requires OrderlyInv(s) && s == Solo(s.ledger, s.book, n, Paying(todo)) && todo != []
    ensures todo[0] < |s.book.items| && s.book.items[todo[0]].currency in s.book.clearing && Valid(s)
  {
    PayerTodo(s, 0);
    SoloFacts(s, n, Paying(todo));
    hide OrderlyInv, Valid, Header, Knows;
  }

  lemma SoloPay(s: State, n: nat, todo: seq<nat>, fault: Fault, t: State)
    requires Valid(s) && s == Solo(s.ledger, s.book, n, Paying(todo)) && todo != []
    requires todo[0] < |s.book.items| && s.book.items[todo[0]].currency in s.book.clearing
    requires var c := PayTx(s.ledger, s.book, todo[0]);
             var paid := fault != Aborted && c.ok && fault == NoFault;
             t == Solo(if fault == Aborted then s.ledger else c.ledger, if fault == Aborted then s.book else c.book, n,
                       if paid then Paying(todo[1..]) else PayErr(todo[0], todo[1..]))
    ensures Next(s, Pay(0, fault)) == t
  {
  }

  lemma SoloPayFail(s: State, n: nat, i: nat, todo: seq<nat>, t: State)
    requires Valid(s) && s == Solo(s.ledger, s.book, n, PayErr(i, todo)) && i < |s.book.items|
    requires t == Solo(s.ledger, PayFailTx(s.book, i), n, Paying(todo))
    ensures Next(s, PayFail(0)) == t
  {
  }

  lemma SoloReread(start: State, trace: seq<Action>, s: State, n: nat)
    requires Reached(start, trace, s) && s == Solo(s.ledger, s.book, n, Opened)
    ensures Reached(start, trace + [Reread(0)], Solo(s.ledger, s.book, n, Paying(PendingIds(s.book.items, n))))
  {
    hide Inv, OrderlyRun, Exec, TodoOk, ItemOk, EventsKnown, Alone;
    SoloFacts(s, n, Opened);
    assert s.book.batches[n].reservation.Some?;
    ClearingConfigured(s, n);
    Advance(start, trace, s, Reread(0));
    hide OrderlyInv, Valid, Header, Knows;
    assert Next(s, Reread(0)).processors == map[0 := Processor(n, Paying(PendingIds(s.book.items, n)))];
  }

  lemma SoloFinalize(start: State, trace: seq<Action>, s: State, n: nat)
    requires Reached(start, trace, s) && s == Solo(s.ledger, s.book, n, Paying([]))
    ensures n < |s.book.batches| && Settled(FinalizeTx(s.book, n), n)
    ensures Reached(start, trace + [Finalize(0)], Idle(s.ledger, FinalizeTx(s.book, n)))
  {
    hide Inv, OrderlyRun, Exec, TodoOk, ItemOk, FinalizeTx, OrderlyInv, Settled;
    SoloFacts(s, n, Paying([]));
    FinalizeSettles(s, n);
    Advance(start, trace, s, Finalize(0));
    hide Valid, Header, Knows;
    assert Next(s, Finalize(0)).processors == map[];
  }

  lemma SoloDecide(start: State, n: nat, next: Phase)
    requires OrderlyInv(start) && start.processors == map[] && n < |start.book.batches|
    requires Decision(start.book, n, start.book.batches[n].status) == Some(next)
    ensures Reached(start, [Start(0, n)] + [Decide(0)], Solo(start.ledger, start.book, n, next))
  {
    hide Inv, OrderlyRun, Exec, OrderlyInv, Decision;
    Begins(start.ledger, start.book, n);
    var s := Solo(start.ledger, start.book, n, Started(start.book.batches[n].status));
    Advance(start, [Start(0, n)], s, Decide(0));
    hide Valid, Header, Knows;
    assert Next(s, Decide(0)).processors == map[0 := Processor(n, next)];
  }

  lemma SoloFunding(start: State, n: nat)
    requires OrderlyInv(start) && start.processors == map[] && n < |start.book.batches|
    requires start.book.batches[n].status == Draft && Ready(start.book, n)
    ensures Reached(start, [Start(0, n)] + [Decide(0)], Solo(start.ledger, start.book, n, Funding))
  {
    hide OrderlyInv, Ready;
    SoloDecide(start, n, Funding);
  }

  lemma SoloReserved(start: State, n: nat)
    requires OrderlyInv(start) && start.processors == map[] && n < |start.book.batches|
    requires start.book.batches[n].status == FundingReserved
    ensures Reached(start, [Start(0, n)] + [Decide(0)], Solo(start.ledger, start.book, n, Opening))
  {
    assert Header(start.book, n);
    hide OrderlyInv, Ready;
    SoloDecide(start, n, Opening);
  }

  lemma SoloResumed(start: State, n: nat)
    requires OrderlyInv(start) && start.processors == map[] && n < |start.book.batches|
    requires start.book.batches[n].status == Disbursing && HasItems(start.book, n)
    ensures Reached(start, [Start(0, n)] + [Decide(0)], Solo(start.ledger, start.book, n, Opened))
  {
    assert Header(start.book, n) && ItemsFit(start.book);
    assert Resumable(start.book, n);
    hide OrderlyInv, Resumable;
    SoloDecide(start, n, Opened);
  }

  lemma SoloFund(start: State, trace: seq<Action>, s: State, n: nat, fault: Fault, t: State)
    requires Reached(start, trace, s) && s == Solo(s.ledger, s.book, n, Funding) && n < |s.book.batches|
    requires var c := FundTx(s.ledger, s.book, n);
             t == if fault == Aborted then Solo(s.ledger, s.book, n, FundingErr)
                  else Solo(c.ledger, c.book, n, if c.ok && fault == NoFault then Opening else FundingErr)
    ensures Reached(start, trace + [Fund(0, fault)], t)
  {
    hide Inv, OrderlyRun, Exec, OrderlyInv, FundTx;
    Advance(start, trace, s, Fund(0, fault));
    hide Valid, Header, Knows;
    assert Next(s, Fund(0, fault)).processors == t.processors;
  }

  lemma SoloFundFail(start: State, trace: seq<Action>, s: State, n: nat)
    requires Reached(start, trace, s) && s == Solo(s.ledger, s.book, n, FundingErr)
    ensures n < |s.book.batches| && Reached(start, trace + [FundFail(0)], Idle(s.ledger, FundFailTx(s.book, n)))
  {
    hide Inv, OrderlyRun, Exec, OrderlyInv, FundFailTx;
    SoloFacts(s, n, FundingErr);
    Advance(start, trace, s, FundFail(0));
    hide Valid, Header, Knows;
    assert Next(s, FundFail(0)).processors == map[];
  }

  lemma SoloOpen(start: State, trace: seq<Action>, s: State, n: nat)
    requires Reached(start, trace, s) && s == Solo(s.ledger, s.book, n, Opening)
    ensures n < |s.book.batches| && Reached(start, trace + [Open(0)], Solo(s.ledger, OpenTx(s.book, n), n, Opened))
  {
    hide Inv, OrderlyRun, Exec, OrderlyInv;
    SoloFacts(s, n, Opening);
    Advance(start, trace, s, Open(0));
    hide Valid, Header, Knows;
    assert Next(s, Open(0)).processors == map[0 := Processor(n, Opened)];
  }
}
