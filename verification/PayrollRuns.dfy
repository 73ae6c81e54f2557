/** Whole payroll runs: exactly-once payment and solvency for every interleaving; header status,
    progress and events when runs on one batch do not overlap; and what overlapping runs break. */
module PayrollRuns {
  import opened Basics
  import L = Ledger
  import LedgerLaws
  import opened Payroll
  import opened PayrollLaws

  function Exec(s: State, actions: seq<Action>): State
    requires Inv(s)
    decreases |actions|
  {
    if actions == [] then s
    else
      NextKeepsInv(s, actions[0]);
      Exec(Next(s, actions[0]), actions[1..])
  }

  lemma {:induction false} ExecKeepsInv(s: State, actions: seq<Action>)
    requires Inv(s)
    ensures Inv(Exec(s, actions))
    decreases |actions|
  {
    if actions != [] {
      NextKeepsInv(s, actions[0]);
      ExecKeepsInv(Next(s, actions[0]), actions[1..]);
    }
  }

  lemma {:induction false} ExecAppend(s: State, actions: seq<Action>, a: Action)
    requires Inv(s)
    ensures Inv(Exec(s, actions)) && Valid(Exec(s, actions)) && Exec(s, actions + [a]) == Next(Exec(s, actions), a)
    decreases |actions|
  {
    hide Inv, Next, Valid;
    ExecKeepsInv(s, actions);
    InvIsValid(s);
    if actions == [] {
      NextKeepsInv(s, a);
      assert [] + [a] == [a] && [a][1..] == [];
    } else {
      NextKeepsInv(s, actions[0]);
      ExecAppend(Next(s, actions[0]), actions[1..], a);
      assert (actions + [a])[1..] == actions[1..] + [a];
    }
  }

  lemma InitialInv(clearing: map<L.Currency, L.AccountRef>)
    ensures Inv(Initial(clearing))
  {
    hide L.Inv, Solvent, ItemsFit, TotalsFit, FundingMatches, PayoutsMatch;
    LedgerLaws.EmptyInv();
    EmptyBookFits(clearing);
  }

  lemma EmptyBookFits(clearing: map<L.Currency, L.AccountRef>)
    ensures var b := EmptyBook(clearing);
            ItemsFit(b) && TotalsFit(b) && FundingMatches([], b) && PayoutsMatch([], b) && Solvent([], b)
  {
    hide Dedicated;
    forall x
      ensures OwedAll(EmptyBook(clearing), x) == []
    {
    }
  }

  /** Every state reachable by any interleaving of processors, crashes, lost acknowledgements,
      other ledger traffic and batch creation satisfies the invariant. */
  lemma ReachablePayroll(clearing: map<L.Currency, L.AccountRef>, actions: seq<Action>)
    ensures Inv(Initial(clearing))
    ensures Inv(Exec(Initial(clearing), actions))
  {
    InitialInv(clearing);
    ExecKeepsInv(Initial(clearing), actions);
  }

  // ---------- exactly once ----------

  ghost function Posts(txs: seq<L.Transaction>, c: L.Correlation): set<L.TxId> {
    set t | 0 <= t < |txs| && txs[t].correlation == c
  }

  /** An item is COMPLETED exactly when one payout was posted for it, otherwise none was; the payout takes
      the item's amount from the clearing account to its employee, and comes after the one funding post of
      its batch, which took the total from the employer to the clearing account. */
  lemma PaidExactlyOnce(s: State, i: nat)
    requires Inv(s) && i < |s.book.items|
    ensures var txs, item, b := s.ledger.transactions, s.book.items[i], s.book;
            var payouts, fundings := Posts(txs, L.ForPayrollItem(i)), Posts(txs, L.ForPayrollFunding(item.batch));
            && (item.status == ItemCompleted ==>
                  && item.currency in b.clearing && item.ledgerTx.Some? && payouts == {item.ledgerTx.value}
                  && var batch, house := b.batches[item.batch], L.Row(b.clearing[item.currency]);
                     && batch.reservation.Some? && fundings == {batch.reservation.value}
                     && batch.reservation.value < item.ledgerTx.value < |txs|
                     && txs[item.ledgerTx.value].txType == txs[batch.reservation.value].txType == L.Transfer
                     && txs[item.ledgerTx.value].lines ==
                          [L.Line(house, L.Debit, item.amount, item.currency), L.Line(item.employee, L.Credit, item.amount, item.currency)]
                     && txs[batch.reservation.value].lines ==
                          [L.Line(batch.employer, L.Debit, batch.total, item.currency), L.Line(house, L.Credit, batch.total, item.currency)])
            && (item.status != ItemCompleted ==> payouts == {})
            && |fundings| <= 1
  {
    hide L.Inv, Solvent, TotalsFit, Valid, PayersAreFunded, L.Row;
    var b, item := s.book, s.book.items[i];
    var n := item.batch;
    if b.batches[n].reservation.Some? {
      assert Posts(s.ledger.transactions, L.ForPayrollFunding(n)) == {b.batches[n].reservation.value};
    } else {
      assert Posts(s.ledger.transactions, L.ForPayrollFunding(n)) == {};
    }
    if item.status == ItemCompleted {
      LedgerLaws.StoredTransfer(b.clearing[item.currency], item.employee, item.amount, item.currency);
      LedgerLaws.StoredTransfer(b.batches[n].employer, b.clearing[item.currency], b.batches[n].total, item.currency);
    }
  }

  // ---------- solvency ----------

  /** What the posted lines leave on a dedicated clearing account is exactly what it owes; so is the stored
      balance, as long as it agrees with its lines. */
  lemma ClearingHoldsWhatItOwes(s: State, x: L.AccountId)
    requires Inv(s) && Dedicated(s.ledger.transactions, s.book, x)
    ensures L.History(s.ledger.transactions, x) == Sum(OwedAll(s.book, x)) >= 0
    ensures x in s.ledger.accounts && L.Agrees(s.ledger) ==> s.ledger.accounts[x].balance == Sum(OwedAll(s.book, x))
  {
    assert forall i :: 0 <= i < |s.book.items| ==> OwedAll(s.book, x)[i] >= 0;
    SumNonNegative(OwedAll(s.book, x));
  }

  /** No payout is ever refused for lack of funds: for a pending item of a funded batch whose
      clearing account is dedicated and agrees with its lines, only an account that is not active (or
      missing) can stop it. */
  lemma PayoutRefusedOnlyForAccounts(s: State, i: nat)
    requires Inv(s) && i < |s.book.items| && s.book.items[i].status == Pending
    requires s.book.batches[s.book.items[i].batch].reservation.Some?
    requires s.book.items[i].currency in s.book.clearing
    requires Dedicated(s.ledger.transactions, s.book, L.Row(s.book.clearing[s.book.items[i].currency])) && L.Agrees(s.ledger)
    ensures var item := s.book.items[i];
            PayTx(s.ledger, s.book, i).ok <==>
            && UsableAccount(s.ledger.accounts, s.book.clearing[item.currency], item.currency)
            && UsableAccount(s.ledger.accounts, item.employee, item.currency)
  {
    ItemBatchKnown(s, i);
    hide Inv, Dedicated, Core, LedgerLaws.Fundable, OwedAll, PayTx, L.TransferLines, L.Agrees, L.Row;
    var item := s.book.items[i];
    var x := L.Row(s.book.clearing[item.currency]);
    PayoutNeedsFunds(s, i);
    if x in s.ledger.accounts {
      ClearingHoldsWhatItOwes(s, x);
      OwedCoversItem(s, i);
    }
    ClearingIsNoEmployee(s, i);
    TransferFundable(s.ledger, s.book.clearing[item.currency], item.employee, item.amount, item.currency);
  }

  lemma PayoutNeedsFunds(s: State, i: nat)
    requires Inv(s) && i < |s.book.items| && s.book.items[i].status == Pending && s.book.items[i].currency in s.book.clearing
    ensures PayTx(s.ledger, s.book, i).ok <==> LedgerLaws.Fundable(s.ledger.accounts, PayPosting(s.book, i).lines)
  {
    hide L.Post, Inv, LedgerLaws.Fundable, L.FindCorrelation, L.TransferLines;
    FreshPayout(s, i);
    var item := s.book.items[i];
    LedgerLaws.TransferPosts(s.ledger, PayPosting(s.book, i), s.book.clearing[item.currency], item.employee, item.amount, item.currency);
  }

  lemma ItemBatchKnown(s: State, i: nat)
    requires Inv(s) && i < |s.book.items|
    ensures s.book.items[i].batch < |s.book.batches| && Core(s.ledger, s.book) && L.WithinLimits(s.ledger)
  {
  }

  lemma ClearingIsNoEmployee(s: State, i: nat)
    requires Inv(s) && i < |s.book.items| && s.book.items[i].currency in s.book.clearing
    requires Dedicated(s.ledger.transactions, s.book, L.Row(s.book.clearing[s.book.items[i].currency]))
    ensures L.Row(s.book.clearing[s.book.items[i].currency]) != L.Row(s.book.items[i].employee)
  {
    hide L.Row;
  }

  lemma FreshPayout(s: State, i: nat)
    requires Inv(s) && i < |s.book.items| && s.book.items[i].status == Pending
    ensures L.FindCorrelation(s.ledger.transactions, L.ForPayrollItem(i)).None?
  {
  }

  lemma OwedCoversItem(s: State, i: nat)
    requires Inv(s) && i < |s.book.items| && s.book.items[i].status == Pending
    requires s.book.batches[s.book.items[i].batch].reservation.Some?
    requires s.book.items[i].currency in s.book.clearing
    ensures Sum(OwedAll(s.book, L.Row(s.book.clearing[s.book.items[i].currency]))) >= s.book.items[i].amount
  {
    hide L.Row;
    var xs := OwedAll(s.book, L.Row(s.book.clearing[s.book.items[i].currency]));
    SumBoundsElement(xs, i);
  }

  lemma TransferFundable(l: L.State, source: L.AccountRef, dest: L.AccountRef, amount: nat, c: L.Currency)
    requires L.WithinLimits(l)
    ensures LedgerLaws.Fundable(l.accounts, L.TransferLines(source, dest, amount, c)) <==>
            && UsableAccount(l.accounts, source, c)
            && UsableAccount(l.accounts, dest, c)
            && (source == dest || l.accounts[L.Row(source)].available - amount >= 0 - l.accounts[L.Row(source)].overdraft)
  {
    LedgerLaws.TransferEffects(source, dest, amount, c);
    hide L.Row, L.Net, L.Touched;
    var lines := L.TransferLines(source, dest, amount, c);
    assert lines[0].account == source && lines[1].account == dest;
  }

  // ---------- single steps of a processor whose phase is known ----------

  /** A processor can crash anywhere: it is gone, what it committed stays. */
  lemma CrashStep(s: State, p: nat)
    requires Valid(s)
    ensures Next(s, Crash(p)) == State(s.ledger, s.book, s.processors - {p})
  {
    hide Valid;
    assert p !in s.processors ==> s.processors - {p} == s.processors;
  }

  lemma StartStep(s: State, p: nat, n: nat)
    requires Valid(s) && p !in s.processors && n < |s.book.batches|
    ensures Next(s, Start(p, n)) == s.(processors := s.processors[p := Processor(n, Started(s.book.batches[n].status))])
  {
  }

  lemma DecideStep(s: State, p: nat, n: nat)
    requires Valid(s) && p in s.processors && s.processors[p] == Processor(n, Started(Draft)) && n < |s.book.batches| && Ready(s.book, n)
    ensures Next(s, Decide(p)) == s.(processors := s.processors[p := Processor(n, Funding)])
  {
  }

  lemma AbortStep(s: State, p: nat, n: nat)
    requires Valid(s) && p in s.processors && s.processors[p] == Processor(n, Funding)
    ensures Next(s, Fund(p, Aborted)) == s.(processors := s.processors[p := Processor(n, FundingErr)])
  {
  }

  lemma FundFailStep(s: State, p: nat, n: nat)
    requires Valid(s) && p in s.processors && s.processors[p] == Processor(n, FundingErr) && n < |s.book.batches|
    ensures Next(s, FundFail(p)) == State(s.ledger, FundFailTx(s.book, n), s.processors - {p})
  {
  }

  lemma FundLateStep(s: State, p: nat, n: nat)
    requires Valid(s) && p in s.processors && s.processors[p] == Processor(n, Funding) && n < |s.book.batches|
    requires s.book.batches[n].status == BatchFailed && s.book.batches[n].currency in s.book.clearing
    ensures Next(s, Fund(p, NoFault)) == s.(processors := s.processors[p := Processor(n, Opening)])
  {
  }

  lemma OpenStep(s: State, p: nat, n: nat)
    requires Valid(s) && p in s.processors && s.processors[p] == Processor(n, Opening) && n < |s.book.batches|
    ensures Next(s, Open(p)) == State(s.ledger, OpenTx(s.book, n), s.processors[p := Processor(n, Opened)])
  {
  }

  lemma DecideOn(s: State, p: nat, n: nat, seen: BatchStatus, next: Phase)
    requires Valid(s) && p in s.processors && s.processors[p] == Processor(n, Started(seen)) && n < |s.book.batches|
    requires Decision(s.book, n, seen) == Some(next)
    ensures Next(s, Decide(p)) == s.(processors := s.processors[p := Processor(n, next)])
  {
    hide Valid, Decision;
  }

  lemma RereadStep(s: State, p: nat, n: nat)
    requires Valid(s) && p in s.processors && s.processors[p] == Processor(n, Opened) && n < |s.book.batches|
    requires s.book.batches[n].reservation.Some? && s.book.batches[n].currency in s.book.clearing
    ensures Next(s, Reread(p)) == s.(processors := s.processors[p := Processor(n, Paying(PendingIds(s.book.items, n)))])
  {
    hide Valid, PendingIds;
  }

  lemma PayStep(s: State, p: nat, n: nat, todo: seq<nat>, fault: Fault)
    requires Valid(s) && p in s.processors && s.processors[p] == Processor(n, Paying(todo)) && todo != []
    requires todo[0] < |s.book.items| && s.book.items[todo[0]].currency in s.book.clearing
    ensures var c := if fault == Aborted then Commit(s.ledger, s.book, false) else PayTx(s.ledger, s.book, todo[0]);
            Next(s, Pay(p, fault)) == State(c.ledger, c.book, s.processors[p := Processor(n,
              if c.ok && fault == NoFault then Paying(todo[1..]) else PayErr(todo[0], todo[1..]))])
  {
    hide Valid, PayTx;
  }

  lemma PayFailStep(s: State, p: nat, n: nat, i: nat, todo: seq<nat>)
    requires Valid(s) && p in s.processors && s.processors[p] == Processor(n, PayErr(i, todo)) && i < |s.book.items|
    ensures Next(s, PayFail(p)) == State(s.ledger, PayFailTx(s.book, i), s.processors[p := Processor(n, Paying(todo))])
  {
    hide Valid, PayFailTx;
  }

  lemma FinalizeStep(s: State, p: nat, n: nat)
    requires Valid(s) && p in s.processors && s.processors[p] == Processor(n, Paying([])) && n < |s.book.batches|
    ensures Next(s, Finalize(p)) == State(s.ledger, FinalizeTx(s.book, n), s.processors - {p})
  {
    hide Valid, FinalizeTx;
  }

  lemma QuietStep(s: State, a: Action, p: nat)
    requires Valid(s) && (a.OtherLedgerCommand? || a.Start?)
    ensures Next(s, a).book == s.book
    ensures p in s.processors ==> p in Next(s, a).processors && Next(s, a).processors[p] == s.processors[p]
  {
    hide Valid, L.Next;
  }

  lemma AbsentStep(s: State, a: Action)
    requires Valid(s) && !a.CreateBatch? && !a.OtherLedgerCommand? && !a.Start? && a.p !in s.processors
    ensures Next(s, a) == s
  {
    hide Valid;
  }

  // ---------- headers, when runs on a batch do not overlap ----------

  ghost predicate AllItems(b: Book, n: nat, status: ItemStatus) {
    forall i :: 0 <= i < |b.items| && b.items[i].batch == n ==> b.items[i].status == status
  }

  ghost function Count(b: Book, e: Event): nat {
    multiset(b.outbox)[e]
  }

  /** What the status of header `n` says about its funding, its items and its terminal event. */
  ghost predicate Header(b: Book, n: nat)
    requires n < |b.batches|
  {
    match b.batches[n].status
    case Draft => b.batches[n].reservation.None? && AllItems(b, n, Pending) && Unfinished(b, n)
    case FundingReserved => b.batches[n].reservation.Some? && AllItems(b, n, Pending) && Unfinished(b, n)
    case Disbursing => b.batches[n].reservation.Some? && Unfinished(b, n)
    case BatchCompleted =>
      b.batches[n].reservation.Some? && AllItems(b, n, ItemCompleted) && FinishedOnce(b, n, true)
    case BatchFailed =>
      && FinishedOnce(b, n, false)
      && (if b.batches[n].reservation.Some? then AllItemsTerminal(b, n) && SomeItem(b, n, ItemFailed)
          else AllItems(b, n, Pending))
    case Cancelled => false
  }

  ghost predicate Unfinished(b: Book, n: nat) {
    Count(b, Finished(n, true)) == 0 && Count(b, Finished(n, false)) == 0
  }

  ghost predicate FinishedOnce(b: Book, n: nat, ok: bool) {
    Count(b, Finished(n, ok)) == 1 && Count(b, Finished(n, !ok)) == 0
  }

  /** Every pending item of the batch is still ahead of its processor. */
  ghost predicate Covers(b: Book, n: nat, todo: seq<nat>) {
    forall i :: 0 <= i < |b.items| && b.items[i].batch == n && b.items[i].status == Pending ==> i in todo
  }

  /** What a processor that is alone on its batch knows about it. */
  ghost predicate Knows(b: Book, x: Processor)
    requires x.batch < |b.batches|
  {
    var status := b.batches[x.batch].status;
    match x.phase
    case Started(seen) => status == seen
    case Funding => status == Draft
    case FundingErr => status == Draft || status == FundingReserved
    case Opening => status == FundingReserved
    case Opened => status == Disbursing
    case Paying(todo) => status == Disbursing && Covers(b, x.batch, todo)
    case PayErr(item, todo) => status == Disbursing && Covers(b, x.batch, [item] + todo)
  }

  ghost predicate Alone(s: State) {
    forall p, q :: p in s.processors && q in s.processors && s.processors[p].batch == s.processors[q].batch ==> p == q
  }

  ghost predicate EventsKnown(b: Book) {
    forall n, ok :: n >= |b.batches| ==> Count(b, Finished(n, ok)) == 0
  }

  ghost predicate OrderlyInv(s: State) {
    && Inv(s)
    && Alone(s)
    && EventsKnown(s.book)
    && (forall n :: 0 <= n < |s.book.batches| ==> Header(s.book, n))
    && (forall p :: p in s.processors ==> s.processors[p].batch < |s.book.batches| && Knows(s.book, s.processors[p]))
  }

  /** A run of one batch starts only when no other run of it is alive. */
  predicate Orderly(s: State, a: Action) {
    a.Start? ==> forall q :: q in s.processors ==> s.processors[q].batch != a.batch
  }

  /** Batch `n` and its items and terminal events are the same in both books. */
  ghost predicate SameFor(b: Book, c: Book, n: nat) {
    && n < |b.batches| && n < |c.batches| && c.batches[n] == b.batches[n]
    && |b.items| <= |c.items|
    && (forall i :: 0 <= i < |b.items| && b.items[i].batch == n ==> c.items[i] == b.items[i])
    && (forall i :: 0 <= i < |c.items| && c.items[i].batch == n ==> i < |b.items| && c.items[i] == b.items[i])
    && Count(c, Finished(n, true)) == Count(b, Finished(n, true))
    && Count(c, Finished(n, false)) == Count(b, Finished(n, false))
  }

  lemma HeaderFrame(b: Book, c: Book, n: nat)
    requires SameFor(b, c, n) && Header(b, n)
    ensures Header(c, n)
  {
  }

  lemma KnowsFrame(b: Book, c: Book, x: Processor)
    requires SameFor(b, c, x.batch) && Knows(b, x)
    ensures Knows(c, x)
  {
  }

  /** A step that only touches batch `n`, whose own header and processor stay right, keeps everything. */
  lemma TouchOneBatch(s: State, t: State, n: nat)
    requires OrderlyInv(s) && Inv(t) && n < |s.book.batches| == |t.book.batches|
    requires forall m :: 0 <= m < |s.book.batches| && m != n ==> SameFor(s.book, t.book, m)
    requires Header(t.book, n) && EventsKnown(t.book)
    requires forall p :: p in t.processors ==>
               || (p in s.processors && s.processors[p].batch == t.processors[p].batch && t.processors[p].batch == n && Knows(t.book, t.processors[p]))
               || (p in s.processors && t.processors[p] == s.processors[p] && t.processors[p].batch != n)
    ensures OrderlyInv(t)
  {
    hide Inv, Header, Knows, SameFor, EventsKnown;
    forall m | 0 <= m < |t.book.batches|
      ensures Header(t.book, m)
    {
      if m != n {
        HeaderFrame(s.book, t.book, m);
      }
    }
    forall p | p in t.processors
      ensures t.processors[p].batch < |t.book.batches| && Knows(t.book, t.processors[p])
    {
      if t.processors[p].batch != n {
        KnowsFrame(s.book, t.book, t.processors[p]);
      }
    }
  }

  lemma BookUntouched(s: State, t: State, n: nat)
    requires OrderlyInv(s) && Inv(t) && n < |s.book.batches| && t.book == s.book
    requires forall p :: p in t.processors ==>
               || (p in s.processors && s.processors[p].batch == t.processors[p].batch == n && Knows(t.book, t.processors[p]))
               || (p in s.processors && t.processors[p] == s.processors[p] && t.processors[p].batch != n)
    ensures OrderlyInv(t)
  {
  }

  /** Only header `n` and the outbox change, and the outbox by at most one event. */
  lemma HeaderTouched(b: Book, c: Book, n: nat, e: Event)
    requires n < |b.batches| == |c.batches| && c.items == b.items
    requires forall m :: 0 <= m < |b.batches| && m != n ==> c.batches[m] == b.batches[m]
    requires c.outbox == b.outbox || c.outbox == b.outbox + [e]
    requires e == Funded(n) || e == Finished(n, true) || e == Finished(n, false)
    requires EventsKnown(b)
    ensures forall m :: 0 <= m < |b.batches| && m != n ==> SameFor(b, c, m)
    ensures EventsKnown(c)
    ensures forall f :: Count(c, f) == Count(b, f) + if c.outbox != b.outbox && f == e then 1 else 0
  {
  }

  lemma ItemTouched(b: Book, c: Book, i: nat)
    requires i < |b.items| == |c.items| && c.batches == b.batches && b.items[i].batch < |b.batches|
    requires c.items[i].batch == b.items[i].batch
    requires forall k :: 0 <= k < |b.items| && k != i ==> c.items[k] == b.items[k]
    requires c.outbox == b.outbox || c.outbox == b.outbox + [ItemPaid(i)]
    requires EventsKnown(b)
    ensures forall m :: 0 <= m < |b.batches| && m != b.items[i].batch ==> SameFor(b, c, m)
    ensures EventsKnown(c)
    ensures Unfinished(b, b.items[i].batch) ==> Unfinished(c, b.items[i].batch)
  {
  }

  lemma OthersStay(s: State, t: State, p: nat)
    requires Alone(s) && p in s.processors
    requires forall q :: q in t.processors && q != p ==> q in s.processors && t.processors[q] == s.processors[q]
    ensures forall q :: q in t.processors && q != p ==>
              q in s.processors && t.processors[q] == s.processors[q] && t.processors[q].batch != s.processors[p].batch
  {
  }

  lemma FundedHeader(l: L.State, b: Book, n: nat)
    requires Core(l, b) && n < |b.batches| && Header(b, n) && b.batches[n].status == Draft
    ensures var c := FundTx(l, b, n);
            && Header(c.book, n) && c.book.items == b.items && |c.book.batches| == |b.batches|
            && (forall m :: 0 <= m < |b.batches| && m != n ==> c.book.batches[m] == b.batches[m])
            && (c.book.outbox == b.outbox || c.book.outbox == b.outbox + [Funded(n)])
            && (if c.ok then c.book.batches[n].status == FundingReserved else c.book == b)
  {
  }

  lemma FundOrderly(s: State, p: nat, fault: Fault)
    requires OrderlyInv(s) && p in s.processors && s.processors[p].phase == Funding
    ensures OrderlyInv(Next(s, Fund(p, fault)))
  {
    hide Inv, Valid, Header, EventsKnown, OrderlyInv, Alone, ItemsFit, SameFor, FundTx, Core;
    StepFacts(s, p);
    CoreAfter(s);
    var n := s.processors[p].batch;
    var t := Next(s, Fund(p, fault));
    InvAfter(s, Fund(p, fault));
    OthersStay(s, t, p);
    FundedHeader(s.ledger, s.book, n);
    HeaderTouched(s.book, t.book, n, Funded(n));
    TouchOneBatch(s, t, n);
  }

  lemma CoreAfter(s: State)
    requires OrderlyInv(s)
    ensures Core(s.ledger, s.book)
  {
  }

  lemma FundFailOrderly(s: State, p: nat)
    requires OrderlyInv(s) && p in s.processors && s.processors[p].phase == FundingErr
    ensures OrderlyInv(Next(s, FundFail(p)))
  {
    hide Inv, Valid, Header, EventsKnown, OrderlyInv, Alone, ItemsFit, SameFor, FundFailTx;
    StepFacts(s, p);
    var n := s.processors[p].batch;
    var t := Next(s, FundFail(p));
    InvAfter(s, FundFail(p));
    OthersStay(s, t, p);
    FundFailHeader(s.book, n);
    HeaderTouched(s.book, t.book, n, Finished(n, false));
    TouchOneBatch(s, t, n);
  }

  lemma FundFailHeader(b: Book, n: nat)
    requires n < |b.batches| && Header(b, n) && (b.batches[n].status == Draft || b.batches[n].status == FundingReserved)
    ensures var c := FundFailTx(b, n);
            && Header(c, n) && c.items == b.items && |c.batches| == |b.batches|
            && (forall m :: 0 <= m < |b.batches| && m != n ==> c.batches[m] == b.batches[m])
            && (c.outbox == b.outbox || c.outbox == b.outbox + [Finished(n, false)])
  {
  }

  /** What an orderly state says about one of its processors. */
  lemma StepFacts(s: State, p: nat)
    requires OrderlyInv(s) && p in s.processors
    ensures var n := s.processors[p].batch;
            && n < |s.book.batches| && Knows(s.book, s.processors[p]) && Header(s.book, n)
            && Valid(s) && Alone(s) && EventsKnown(s.book) && ItemsFit(s.book)
  {
  }

  lemma OpenHeader(b: Book, n: nat)
    requires n < |b.batches| && Header(b, n) && b.batches[n].status == FundingReserved
    ensures Header(OpenTx(b, n), n)
  {
  }

  lemma OpenOrderly(s: State, p: nat)
    requires OrderlyInv(s) && p in s.processors && s.processors[p].phase == Opening
    ensures OrderlyInv(Next(s, Open(p)))
  {
    hide Inv, Valid, Header, EventsKnown, OrderlyInv, Alone, ItemsFit, SameFor;
    StepFacts(s, p);
    var n := s.processors[p].batch;
    var t := Next(s, Open(p));
    InvAfter(s, Open(p));
    OthersStay(s, t, p);
    OpenHeader(s.book, n);
    HeaderTouched(s.book, t.book, n, Funded(n));
    TouchOneBatch(s, t, n);
  }

  lemma InvAfter(s: State, a: Action)
    requires OrderlyInv(s)
    ensures Valid(s) && Inv(Next(s, a))
  {
    hide Header, Knows, EventsKnown, Next;
    NextKeepsInv(s, a);
  }

  /** Dealing with item `i` leaves only the later items of the list. */
  lemma CoversAfter(b: Book, c: Book, n: nat, i: nat, todo: seq<nat>)
    requires Covers(b, n, [i] + todo) && |c.items| == |b.items| && i < |b.items|
    requires forall k :: 0 <= k < |b.items| && k != i ==> c.items[k] == b.items[k]
    requires c.items[i].status != Pending
    ensures Covers(c, n, todo)
  {
  }

  /** An item payout leaves the item alone, or completes it; nothing else of its book changes. */
  lemma PayTxEffect(l: L.State, b: Book, i: nat)
    requires i < |b.items| && b.items[i].currency in b.clearing
    ensures var c := PayTx(l, b, i);
            && c.book.batches == b.batches && |c.book.items| == |b.items|
            && (c.book == b || c.book.outbox == b.outbox + [ItemPaid(i)])
            && (forall k :: 0 <= k < |b.items| && k != i ==> c.book.items[k] == b.items[k])
            && c.book.items[i].batch == b.items[i].batch
            && (c.ok ==> c.book.items[i].status != Pending)
            && (!c.ok ==> c.book == b)
            && (c.book != b ==> c.book.items[i].status != Pending)
  {
  }

  /** In DISBURSING the header says nothing about items, so item steps keep it. */
  lemma ItemHeader(b: Book, c: Book, n: nat)
    requires n < |b.batches| && Header(b, n) && b.batches[n].status == Disbursing
    requires c.batches == b.batches && (Unfinished(b, n) ==> Unfinished(c, n))
    ensures Header(c, n)
  {
  }

  lemma PayKnows(b: Book, c: Book, n: nat, todo: seq<nat>)
    requires todo != [] && Covers(b, n, todo) && todo[0] < |b.items| == |c.items|
    requires forall k :: 0 <= k < |b.items| && k != todo[0] ==> c.items[k] == b.items[k]
    requires c == b || c.items[todo[0]].status != Pending
    ensures Covers(c, n, [todo[0]] + todo[1..])
    ensures c.items[todo[0]].status != Pending ==> Covers(c, n, todo[1..])
  {
  }

  lemma PayOrderly(s: State, p: nat, fault: Fault)
    requires OrderlyInv(s) && p in s.processors && s.processors[p].phase.Paying? && s.processors[p].phase.todo != []
    ensures OrderlyInv(Next(s, Pay(p, fault)))
  {
    hide Inv, Valid, Header, EventsKnown, OrderlyInv, Alone, ItemsFit, SameFor, Covers, PayTx, Unfinished, Next;
    StepFacts(s, p);
    var n, todo := s.processors[p].batch, s.processors[p].phase.todo;
    PayerTodo(s, p);
    var i := todo[0];
    PayStep(s, p, n, todo, fault);
    var t := Next(s, Pay(p, fault));
    InvAfter(s, Pay(p, fault));
    OthersStay(s, t, p);
    PayTxEffect(s.ledger, s.book, i);
    ItemTouched(s.book, t.book, i);
    ItemHeader(s.book, t.book, n);
    PayKnows(s.book, t.book, n, todo);
    TouchOneBatch(s, t, n);
  }

  lemma PayerTodo(s: State, p: nat)
    requires OrderlyInv(s) && p in s.processors && s.processors[p].phase.Paying? && s.processors[p].phase.todo != []
    ensures ItemOk(s.book, s.processors[p].batch, s.processors[p].phase.todo[0])
  {
  }

  lemma PayFailOrderly(s: State, p: nat)
    requires OrderlyInv(s) && p in s.processors && s.processors[p].phase.PayErr?
    ensures OrderlyInv(Next(s, PayFail(p)))
  {
    hide Inv, Valid, Header, EventsKnown, OrderlyInv, Alone, ItemsFit, SameFor, Covers, Unfinished;
    StepFacts(s, p);
    var n, i, todo := s.processors[p].batch, s.processors[p].phase.item, s.processors[p].phase.todo;
    FailedItem(s, p);
    var t := Next(s, PayFail(p));
    InvAfter(s, PayFail(p));
    OthersStay(s, t, p);
    ItemTouched(s.book, t.book, i);
    ItemHeader(s.book, t.book, n);
    CoversAfter(s.book, t.book, n, i, todo);
    TouchOneBatch(s, t, n);
  }

  lemma FailedItem(s: State, p: nat)
    requires OrderlyInv(s) && p in s.processors && s.processors[p].phase.PayErr?
    ensures ItemOk(s.book, s.processors[p].batch, s.processors[p].phase.item)
  {
  }

  /** An uninterrupted run that has worked through its list makes the batch terminal, and FAILED
      exactly when some item failed. */
  lemma FinalizeEnds(b: Book, n: nat)
    requires ItemsFit(b) && n < |b.batches| && b.batches[n].status == Disbursing && Covers(b, n, [])
    ensures var c := FinalizeTx(b, n);
            && c.batches[n].status == (if SomeItem(b, n, ItemFailed) then BatchFailed else BatchCompleted)
            && c.items == b.items && !SomeItem(c, n, Pending)
            && c.outbox == b.outbox + [Finished(n, !SomeItem(b, n, ItemFailed))]
            && AllItemsTerminal(c, n)
            && (!SomeItem(b, n, ItemFailed) ==> AllItems(c, n, ItemCompleted))
  {
  }

  lemma FinalizedHeader(b: Book, n: nat)
    requires n < |b.batches| && Header(b, n) && b.batches[n].status == Disbursing && Covers(b, n, []) && ItemsFit(b)
    ensures Header(FinalizeTx(b, n), n)
  {
  }

  lemma FinalizeOrderly(s: State, p: nat)
    requires OrderlyInv(s) && p in s.processors && s.processors[p].phase == Paying([])
    ensures OrderlyInv(Next(s, Finalize(p)))
  {
    hide Inv, Valid, Header, EventsKnown, OrderlyInv, Alone, ItemsFit, SameFor, Covers, SomeItem, AllItemsTerminal;
    StepFacts(s, p);
    var n := s.processors[p].batch;
    var t := Next(s, Finalize(p));
    InvAfter(s, Finalize(p));
    OthersStay(s, t, p);
    FinalizedHeader(s.book, n);
    HeaderTouched(s.book, t.book, n, Finished(n, !SomeItem(s.book, n, ItemFailed)));
    TouchOneBatch(s, t, n);
  }

  lemma QuietOrderly(s: State, a: Action)
    requires OrderlyInv(s) && (a.Decide? || a.Reread? || a.Crash?) && a.p in s.processors
    ensures OrderlyInv(Next(s, a))
  {
    hide Inv, Valid, Header, EventsKnown, OrderlyInv, Alone, ItemsFit, SameFor, Ready, Resumable;
    StepFacts(s, a.p);
    var t := Next(s, a);
    InvAfter(s, a);
    OthersStay(s, t, a.p);
    BookUntouched(s, t, s.processors[a.p].batch);
  }

  lemma CreateOrderly(s: State, r: NewBatch)
    requires OrderlyInv(s)
    ensures OrderlyInv(Next(s, CreateBatch(r)))
  {
    hide Inv, Valid, Header, Knows, CreateTx, EventsKnown, Core, ItemsFit, SameFor;
    InvAfter(s, CreateBatch(r));
    CoreAfter(s);
    PayrollLaws.CoreHasLedgerInv(s.ledger, s.book);
    var t := Next(s, CreateBatch(r));
    if t != s {
      var n := |s.book.batches|;
      CreatedFrame(s.ledger, s.book, r);
      forall m | 0 <= m < |t.book.batches|
        ensures Header(t.book, m)
      {
        if m < n {
          HeaderFrame(s.book, t.book, m);
        }
      }
      forall p | p in t.processors
        ensures t.processors[p].batch < |t.book.batches| && Knows(t.book, t.processors[p])
      {
        KnowsFrame(s.book, t.book, t.processors[p]);
      }
    }
  }

  lemma CreatedFrame(l: L.State, b: Book, r: NewBatch)
    requires ItemsFit(b) && EventsKnown(b) && CreateTx(l, b, r) != b
    ensures var c := CreateTx(l, b, r);
            && |c.batches| == |b.batches| + 1
            && (forall m :: 0 <= m < |b.batches| ==> SameFor(b, c, m))
            && Header(c, |b.batches|)
            && EventsKnown(c)
  {
  }

  lemma NextOrderly(s: State, a: Action)
    requires OrderlyInv(s) && Orderly(s, a)
    ensures OrderlyInv(Next(s, a))
  {
    hide Inv, Header, Knows, EventsKnown, L.Next, CreateTx;
    match a {
      case CreateBatch(r) => CreateOrderly(s, r);
      case OtherLedgerCommand(c) => NextKeepsInv(s, a);
      case Start(p, n) => StartOrderly(s, p, n);
      case _ =>
        if a.p in s.processors {
          StepOrderly(s, a);
        }
    }
  }

  lemma StartOrderly(s: State, p: nat, n: nat)
    requires OrderlyInv(s) && Orderly(s, Start(p, n))
    ensures OrderlyInv(Next(s, Start(p, n)))
  {
    hide Inv, Valid, Header, EventsKnown, Covers;
    InvAfter(s, Start(p, n));
  }

  lemma StepOrderly(s: State, a: Action)
    requires OrderlyInv(s) && !a.CreateBatch? && !a.OtherLedgerCommand? && !a.Start? && a.p in s.processors
    ensures OrderlyInv(Next(s, a))
  {
    hide Inv, Header, Knows, EventsKnown, Alone, FundTx, PayTx, FundFailTx, PayFailTx, FinalizeTx, OpenTx;
    var phase := s.processors[a.p].phase;
    if a.Decide? || a.Reread? || a.Crash? {
      QuietOrderly(s, a);
    } else if a.Fund? && phase == Funding {
      FundOrderly(s, a.p, a.fault);
    } else if a.FundFail? && phase == FundingErr {
      FundFailOrderly(s, a.p);
    } else if a.Open? && phase == Opening {
      OpenOrderly(s, a.p);
    } else if a.Pay? && phase.Paying? && phase.todo != [] {
      PayOrderly(s, a.p, a.fault);
    } else if a.PayFail? && phase.PayErr? {
      PayFailOrderly(s, a.p);
    } else if a.Finalize? && phase == Paying([]) {
      FinalizeOrderly(s, a.p);
    } else {
      InvAfter(s, a);
      assert Next(s, a) == s;
    }
  }

  // ---------- whole non-overlapping runs ----------

  ghost predicate OrderlyRun(s: State, actions: seq<Action>)
    requires Inv(s)
    decreases |actions|
  {
    actions == [] ||
    (Orderly(s, actions[0]) && Inv(Next(s, actions[0])) && OrderlyRun(Next(s, actions[0]), actions[1..]))
  }

  lemma InitialOrderly(clearing: map<L.Currency, L.AccountRef>)
    ensures OrderlyInv(Initial(clearing))
  {
    InitialInv(clearing);
  }

  /** With non-overlapping runs per batch, and crashes anywhere, every header is right at all times. */
  lemma {:induction false} OrderlyRunsKeepHeaders(s: State, actions: seq<Action>)
    requires OrderlyInv(s) && OrderlyRun(s, actions)
    ensures OrderlyInv(Exec(s, actions))
    decreases |actions|
  {
    if actions != [] {
      NextOrderly(s, actions[0]);
      OrderlyRunsKeepHeaders(Next(s, actions[0]), actions[1..]);
    }
  }

  ghost predicate Done(b: Book, n: nat) {
    n < |b.batches| && (b.batches[n].status == BatchCompleted || b.batches[n].status == BatchFailed)
  }

  lemma DoneStays(s: State, a: Action, n: nat)
    requires OrderlyInv(s) && Orderly(s, a) && Done(s.book, n)
    ensures SameFor(s.book, Next(s, a).book, n)
  {
    hide Inv, Valid, OrderlyInv, SameFor, Next;
    InvAfter(s, a);
    SelfSame(s.book, n);
    if a.CreateBatch? {
      CreateStep(s, a.request);
      DoneAndCreate(s, a.request, n);
    } else if a.OtherLedgerCommand? || a.Start? {
      QuietStep(s, a, 0);
    } else if a.p !in s.processors {
      AbsentStep(s, a);
    } else if s.processors[a.p].batch == n {
      DoneAndOwn(s, a, n);
    } else {
      DoneAndOther(s, a, n);
    }
  }

  /** A processor on a finished batch can only have read its header. */
  lemma DoneAndOwn(s: State, a: Action, n: nat)
    requires OrderlyInv(s) && !a.CreateBatch? && !a.OtherLedgerCommand? && !a.Start? && a.p in s.processors
    requires Done(s.book, n) && s.processors[a.p].batch == n
    ensures Valid(s) && Next(s, a).book == s.book
  {
    hide Inv, Valid, Header, EventsKnown, Alone, Ready, Resumable, FundTx, PayTx;
    StepFacts(s, a.p);
  }

  lemma DoneAndCreate(s: State, r: NewBatch, n: nat)
    requires OrderlyInv(s) && n < |s.book.batches|
    ensures SameFor(s.book, CreateTx(s.ledger, s.book, r), n)
  {
    hide Header, Knows, Core, Valid, PayersAreFunded, ValidNewBatch, KeyTaken, L.Row;
    CoreAfter(s);
    PayrollLaws.CoreHasLedgerInv(s.ledger, s.book);
    SelfSame(s.book, n);
    hide OrderlyInv, Inv;
  }

  /** A step of a processor on one batch leaves the others as they are. */
  lemma DoneAndOther(s: State, a: Action, n: nat)
    requires OrderlyInv(s) && !a.CreateBatch? && !a.OtherLedgerCommand? && !a.Start? && a.p in s.processors
    requires n < |s.book.batches| && s.processors[a.p].batch != n
    ensures Valid(s) && SameFor(s.book, Next(s, a).book, n)
  {
    hide Inv, OrderlyInv, Valid, Header, Knows, EventsKnown, Alone, SameFor, ItemsFit, Next;
    StepFacts(s, a.p);
    var p, m, phase := a.p, s.processors[a.p].batch, s.processors[a.p].phase;
    if a.Pay? && phase.Paying? && phase.todo != [] {
      OtherPays(s, p, m, phase.todo, a.fault, n);
    } else if a.PayFail? && phase.PayErr? {
      OtherFailsItem(s, p, m, phase.item, phase.todo, n);
    } else {
      OtherWritesHeader(s, a, n);
    }
  }

  lemma OtherPays(s: State, p: nat, m: nat, todo: seq<nat>, fault: Fault, n: nat)
    requires OrderlyInv(s) && p in s.processors && s.processors[p] == Processor(m, Paying(todo)) && todo != []
    requires n < |s.book.batches| && m != n
    ensures Valid(s) && SameFor(s.book, Next(s, Pay(p, fault)).book, n)
  {
    hide Inv, OrderlyInv, Valid, Header, Knows, SameFor, Next, PayTx, EventsKnown;
    StepFacts(s, p);
    PayerTodo(s, p);
    PayStep(s, p, m, todo, fault);
    PayTxEffect(s.ledger, s.book, todo[0]);
    SelfSame(s.book, n);
    ItemTouched(s.book, Next(s, Pay(p, fault)).book, todo[0]);
  }

  lemma OtherFailsItem(s: State, p: nat, m: nat, i: nat, todo: seq<nat>, n: nat)
    requires OrderlyInv(s) && p in s.processors && s.processors[p] == Processor(m, PayErr(i, todo))
    requires n < |s.book.batches| && m != n
    ensures Valid(s) && SameFor(s.book, Next(s, PayFail(p)).book, n)
  {
    hide Inv, OrderlyInv, Valid, Header, Knows, SameFor, Next, EventsKnown;
    StepFacts(s, p);
    FailedItem(s, p);
    PayFailStep(s, p, m, i, todo);
    PayFailTouches(s.book, i);
    ItemTouched(s.book, PayFailTx(s.book, i), i);
  }

  lemma OtherWritesHeader(s: State, a: Action, n: nat)
    requires OrderlyInv(s) && !a.CreateBatch? && !a.OtherLedgerCommand? && !a.Start? && a.p in s.processors
    requires n < |s.book.batches| && s.processors[a.p].batch != n
    requires !(a.Pay? && s.processors[a.p].phase.Paying? && s.processors[a.p].phase.todo != [])
    requires !(a.PayFail? && s.processors[a.p].phase.PayErr?)
    ensures Valid(s) && SameFor(s.book, Next(s, a).book, n)
  {
    hide Inv, Header, Knows, EventsKnown, Alone, SameFor, FundTx, ItemsFit, Ready, Resumable, TodoOk, FundFailTx, FinalizeTx, OpenTx, SomeItem;
    StepFacts(s, a.p);
    var m := s.processors[a.p].batch;
    var c := Next(s, a).book;
    FundTxEffect(s.ledger, s.book, m);
    HeaderWrites(s.book, m);
    if a.Fund? {
      HeaderTouched(s.book, c, m, Funded(m));
    } else if a.Finalize? {
      HeaderTouched(s.book, c, m, Finished(m, !SomeItem(s.book, m, ItemFailed)));
    } else {
      HeaderTouched(s.book, c, m, Finished(m, false));
    }
  }

  lemma PayFailTouches(b: Book, i: nat)
    requires i < |b.items|
    ensures var c := PayFailTx(b, i);
            && |c.items| == |b.items| && c.batches == b.batches && c.outbox == b.outbox && c.items[i].batch == b.items[i].batch
            && forall k :: 0 <= k < |b.items| && k != i ==> c.items[k] == b.items[k]
  {
  }

  /** What a transaction that only writes header `n` leaves alone. */
  ghost predicate OnlyHeader(b: Book, c: Book, n: nat, e: Event) {
    && c.items == b.items && |c.batches| == |b.batches| && (c.outbox == b.outbox || c.outbox == b.outbox + [e])
    && forall m :: 0 <= m < |b.batches| && m != n ==> c.batches[m] == b.batches[m]
  }

  lemma HeaderWrites(b: Book, n: nat)
    requires n < |b.batches|
    ensures OnlyHeader(b, FundFailTx(b, n), n, Finished(n, false)) && OnlyHeader(b, OpenTx(b, n), n, Finished(n, false))
    ensures OnlyHeader(b, FinalizeTx(b, n), n, Finished(n, !SomeItem(b, n, ItemFailed)))
  {
    hide SomeItem, AllItemsTerminal;
  }

  lemma SelfSame(b: Book, n: nat)
    requires n < |b.batches|
    ensures SameFor(b, b, n)
  {
  }

  lemma FundTxEffect(l: L.State, b: Book, n: nat)
    requires n < |b.batches|
    ensures var c := FundTx(l, b, n).book;
            && c.items == b.items && |c.batches| == |b.batches|
            && (forall m :: 0 <= m < |b.batches| && m != n ==> c.batches[m] == b.batches[m])
            && (c.outbox == b.outbox || c.outbox == b.outbox + [Funded(n)])
  {
  }

  /** COMPLETED and FAILED are final: header, items and the one terminal event never change again. */
  lemma {:induction false} TerminalIsAbsorbing(s: State, actions: seq<Action>, n: nat)
    requires OrderlyInv(s) && OrderlyRun(s, actions) && Done(s.book, n)
    ensures SameFor(s.book, Exec(s, actions).book, n)
    decreases |actions|
  {
    if actions == [] {
      SelfSame(s.book, n);
    } else {
      var t := Next(s, actions[0]);
      NextOrderly(s, actions[0]);
      DoneStays(s, actions[0], n);
      TerminalIsAbsorbing(t, actions[1..], n);
      SameTransitive(s.book, t.book, Exec(s, actions).book, n);
    }
  }

  lemma SameTransitive(b: Book, c: Book, d: Book, n: nat)
    requires SameFor(b, c, n) && SameFor(c, d, n)
    ensures SameFor(b, d, n)
  {
  }

  // ---------- overlapping runs ----------

  /** Two runs of one draft batch: the second still holds the DRAFT it read when the first fails the batch. */
  function Overlap(n: nat, p: nat, q: nat): (actions: seq<Action>)
    ensures |actions| == 8
  {
    [Start(p, n), Start(q, n), Decide(p), Decide(q), Fund(p, Aborted), FundFail(p), Fund(q, NoFault), Open(q)]
  }

  /** One more action of a run, when the step from the state reached so far is known. */
  lemma Extend(s: State, xs: seq<Action>, t: State, a: Action, u: State)
    requires Inv(s) && Exec(s, xs) == t && Valid(t) && Next(t, a) == u
    ensures Exec(s, xs + [a]) == u && Inv(u)
  {
    hide Inv, Next, Exec, Valid;
    ExecAppend(s, xs, a);
    ExecKeepsInv(s, xs + [a]);
  }

  function Both(s: State, p: nat, q: nat, n: nat, x: Phase, y: Phase): State {
    s.(processors := s.processors[p := Processor(n, x)][q := Processor(n, y)])
  }

  lemma SplitPair(xs: seq<Action>, k: nat)
    requires k + 2 <= |xs|
    ensures xs[..k + 2] == xs[..k] + [xs[k]] + [xs[k + 1]]
  {
  }

  /** Two more actions of a run. */
  lemma ExtendTwice(s: State, xs: seq<Action>, k: nat, t: State, u: State, v: State)
    requires k + 2 <= |xs| && Inv(s) && Exec(s, xs[..k]) == t && Valid(t) && Next(t, xs[k]) == u && Valid(u) && Next(u, xs[k + 1]) == v
    ensures Exec(s, xs[..k + 2]) == v && Valid(v)
  {
    hide Inv, Next, Exec, Valid;
    Extend(s, xs[..k], t, xs[k], u);
    Extend(s, xs[..k] + [xs[k]], u, xs[k + 1], v);
    SplitPair(xs, k);
    InvIsValid(v);
  }

  lemma InvIsValid(s: State)
    requires Inv(s)
    ensures Valid(s)
  {
  }

  lemma StepValid(s: State, xs: seq<Action>, t: State, a: Action)
    requires Inv(s) && Exec(s, xs) == t && Valid(t)
    ensures Valid(Next(t, a))
  {
    hide Inv, Next, Exec, Valid;
    Extend(s, xs, t, a, Next(t, a));
    InvIsValid(Next(t, a));
  }

  lemma BothUpdates(s: State, p: nat, q: nat, n: nat, x: Phase, y: Phase, z: Phase)
    requires p != q
    ensures Both(s, p, q, n, x, y).processors[p := Processor(n, z)] == Both(s, p, q, n, z, y).processors
    ensures Both(s, p, q, n, x, y).processors[q := Processor(n, z)] == Both(s, p, q, n, x, z).processors
  {
  }

  lemma OverlapStarts(s: State, n: nat, p: nat, q: nat)
    requires Inv(s) && n < |s.book.batches| && s.book.batches[n].status == Draft
    requires p != q && p !in s.processors && q !in s.processors
    ensures Exec(s, Overlap(n, p, q)[..2]) == Both(s, p, q, n, Started(Draft), Started(Draft))
    ensures Valid(Both(s, p, q, n, Started(Draft), Started(Draft)))
  {
    hide Inv, Next, Exec, Valid;
    var xs := Overlap(n, p, q);
    ExecNothing(s, xs);
    var t := s.(processors := s.processors[p := Processor(n, Started(Draft))]);
    StartStep(s, p, n);
    StepValid(s, xs[..0], s, Start(p, n));
    StartStep(t, q, n);
    ExtendTwice(s, xs, 0, s, t, Both(s, p, q, n, Started(Draft), Started(Draft)));
  }

  lemma OverlapDecides(s: State, n: nat, p: nat, q: nat)
    requires Inv(s) && n < |s.book.batches| && Ready(s.book, n) && p != q
    requires var b := Both(s, p, q, n, Started(Draft), Started(Draft)); Valid(b) && Exec(s, Overlap(n, p, q)[..2]) == b
    ensures Exec(s, Overlap(n, p, q)[..4]) == Both(s, p, q, n, Funding, Funding)
    ensures Valid(Both(s, p, q, n, Funding, Funding))
  {
    hide Inv, Next, Exec, Valid, Ready;
    var xs := Overlap(n, p, q);
    var u := Both(s, p, q, n, Started(Draft), Started(Draft));
    DecideStep(u, p, n);
    BothUpdates(s, p, q, n, Started(Draft), Started(Draft), Funding);
    var v := Both(s, p, q, n, Funding, Started(Draft));
    StepValid(s, xs[..2], u, Decide(p));
    DecideStep(v, q, n);
    BothUpdates(s, p, q, n, Funding, Started(Draft), Funding);
    ExtendTwice(s, xs, 2, u, v, Both(s, p, q, n, Funding, Funding));
  }

  lemma OverlapFails(s: State, n: nat, p: nat, q: nat)
    requires Inv(s) && n < |s.book.batches| && p != q
    requires var b := Both(s, p, q, n, Funding, Funding); Valid(b) && Exec(s, Overlap(n, p, q)[..4]) == b
    ensures var t := Exec(s, Overlap(n, p, q)[..6]);
            && t.ledger == s.ledger && t.book == FundFailTx(s.book, n)
            && q in t.processors && t.processors[q] == Processor(n, Funding) && Valid(t)
  {
    hide Inv, Next, Exec, Valid, FundFailTx;
    var xs := Overlap(n, p, q);
    var b := Both(s, p, q, n, Funding, Funding);
    AbortStep(b, p, n);
    var c := b.(processors := b.processors[p := Processor(n, FundingErr)]);
    StepValid(s, xs[..4], b, Fund(p, Aborted));
    FundFailStep(c, p, n);
    ExtendTwice(s, xs, 4, b, c, State(s.ledger, FundFailTx(s.book, n), c.processors - {p}));
  }

  lemma OverlapRevives(s: State, n: nat, p: nat, q: nat, t: State)
    requires Inv(s) && t == Exec(s, Overlap(n, p, q)[..6]) && Valid(t)
    requires n < |t.book.batches| && t.book.batches[n].status == BatchFailed
    requires q in t.processors && t.processors[q] == Processor(n, Funding) && t.book.batches[n].currency in t.book.clearing
    ensures Exec(s, Overlap(n, p, q)).book == OpenTx(t.book, n)
  {
    hide Inv, Next, Exec, Valid, OpenTx;
    var xs := Overlap(n, p, q);
    FundLateStep(t, q, n);
    var u := t.(processors := t.processors[q := Processor(n, Opening)]);
    StepValid(s, xs[..6], t, Fund(q, NoFault));
    OpenStep(u, q, n);
    ExtendTwice(s, xs, 6, t, u, State(t.ledger, OpenTx(t.book, n), u.processors[q := Processor(n, Opened)]));
    assert xs[..8] == xs;
  }

  lemma ExecNothing(s: State, xs: seq<Action>)
    requires Inv(s)
    ensures Exec(s, xs[..0]) == s && Valid(s)
  {
  }

  /** When runs overlap, FAILED is not final: the batch is DISBURSING again, with a terminal event
      already sent and without any funding. (Items and ledger stay right: PaidExactlyOnce.) */
  lemma OverlapRevivesFailedBatch(s: State, n: nat, p: nat, q: nat)
    requires OrderlyInv(s) && n < |s.book.batches| && s.book.batches[n].status == Draft && Ready(s.book, n)
    requires s.book.batches[n].currency in s.book.clearing
    requires p != q && p !in s.processors && q !in s.processors
    ensures var t := Exec(s, Overlap(n, p, q)[..6]);
            var u := Exec(s, Overlap(n, p, q));
            && n < |t.book.batches| && n < |u.book.batches|
            && t.book.batches[n].status == BatchFailed && FinishedOnce(t.book, n, false)
            && u.book.batches[n].status == Disbursing && u.book.batches[n].reservation.None? && FinishedOnce(u.book, n, false)
  {
    hide Inv, OrderlyInv, Ready, Exec, Next, Overlap, Valid, Both, Header;
    HeaderOf(s, n);
    DraftHeader(s.book, n);
    OverlapStarts(s, n, p, q);
    OverlapDecides(s, n, p, q);
    OverlapFails(s, n, p, q);
    OverlapRevives(s, n, p, q, Exec(s, Overlap(n, p, q)[..6]));
    CountAppend(s.book.outbox, Finished(n, false), Finished(n, true));
    CountAppend(s.book.outbox, Finished(n, false), Finished(n, false));
  }

  lemma DraftHeader(b: Book, n: nat)
    requires n < |b.batches| && Header(b, n) && b.batches[n].status == Draft
    ensures b.batches[n].reservation.None? && Unfinished(b, n)
  {
  }

  lemma HeaderOf(s: State, n: nat)
    requires OrderlyInv(s) && n < |s.book.batches|
    ensures Header(s.book, n) && Inv(s) && Valid(s)
  {
  }

  const EXAMPLE_BATCH: NewBatch := NewBatch(1, "key", 5, L.USD, [NewLine(2, 5, L.USD, "line")])

  /** Two open accounts and one batch with one line. */
  const EXAMPLE_SETUP: seq<Action> :=
    [OtherLedgerCommand(L.OpenAccount(1, 0, "employer", L.USD, L.Active, 100)),
     OtherLedgerCommand(L.OpenAccount(2, 0, "employee", L.USD, L.Active, 0)),
     CreateBatch(EXAMPLE_BATCH)]

  const EXAMPLE_ACCOUNTS: map<L.AccountId, L.Account> :=
    map[1 := L.Account(0, "employer", L.USD, L.Active, 0, 0, 100), 2 := L.Account(0, "employee", L.USD, L.Active, 0, 0, 0)]

  const EXAMPLE_BOOK: Book :=
    Book(map[L.USD := 3], [Batch(1, "key", 5, L.USD, Draft, None)], [Item(0, 2, 5, L.USD, "line", Pending, None)], [Created(0)])

  lemma ExampleAccounts(s: State)
    requires s == Initial(map[L.USD := 3])
    ensures Valid(s) && Valid(Next(s, EXAMPLE_SETUP[0]))
    ensures Next(Next(s, EXAMPLE_SETUP[0]), EXAMPLE_SETUP[1]) == s.(ledger := L.State(EXAMPLE_ACCOUNTS, []))
  {
    var t := Next(s, EXAMPLE_SETUP[0]);
    assert t.ledger == L.State(map[1 := L.Account(0, "employer", L.USD, L.Active, 0, 0, 100)], []);
  }

  lemma ExampleCreates(l: L.State)
    requires l.accounts == EXAMPLE_ACCOUNTS
    ensures CreateTx(l, EmptyBook(map[L.USD := 3]), EXAMPLE_BATCH) == EXAMPLE_BOOK
    ensures Ready(EXAMPLE_BOOK, 0)
  {
    assert LineAmounts(EXAMPLE_BATCH.lines) == [5] && AmountsOf(EXAMPLE_BOOK.items, 0) == [5];
    assert [5][..0] == [];
    assert Sum([5]) == 5;
    assert NewItems(0, EXAMPLE_BATCH.lines) == EXAMPLE_BOOK.items;
    assert EXAMPLE_BOOK.items[0].batch == 0;
  }

  ghost predicate Reaches(s: State, xs: seq<Action>, t: State) {
    Inv(s) && Exec(s, xs) == t
  }

  /** The state after the setup. */
  lemma SetupReached() returns (s: State)
    ensures OrderlyInv(s) && s.book == EXAMPLE_BOOK && s.processors == map[] && Ready(s.book, 0)
    ensures Reaches(Initial(map[L.USD := 3]), EXAMPLE_SETUP, s)
  {
    hide Inv, OrderlyInv, Next, Valid, Ready, CreateTx, Exec;
    var s0 := Initial(map[L.USD := 3]);
    InitialOrderly(map[L.USD := 3]);
    ExampleAccounts(s0);
    InvAfter(s0, EXAMPLE_SETUP[0]);
    var s1 := Next(s0, EXAMPLE_SETUP[0]);
    NextOrderly(s0, EXAMPLE_SETUP[0]);
    InvAfter(s1, EXAMPLE_SETUP[1]);
    var s2 := Next(s1, EXAMPLE_SETUP[1]);
    NextOrderly(s1, EXAMPLE_SETUP[1]);
    InvAfter(s2, EXAMPLE_SETUP[2]);
    ExampleCreates(s2.ledger);
    CreateStep(s2, EXAMPLE_BATCH);
    s := Next(s2, EXAMPLE_SETUP[2]);
    NextOrderly(s2, EXAMPLE_SETUP[2]);
    ExecThree(s0, EXAMPLE_SETUP, s1, s2, s);
  }

  /** Such a state is reachable from nothing, so the overlap really happens. */
  lemma OverlapExample() returns (s: State, u: State)
    ensures |u.book.batches| > 0 && u.book.batches[0].status == Disbursing && u.book.batches[0].reservation.None?
    ensures FinishedOnce(u.book, 0, false)
    ensures OrderlyInv(s)
    ensures Reaches(s, Overlap(0, 0, 1), u)
    ensures Reaches(Initial(map[L.USD := 3]), EXAMPLE_SETUP, s)
  {
    hide Inv, OrderlyInv, Ready, Overlap, Exec;
    s := SetupReached();
    HeaderOf(s, 0);
    OverlapRevivesFailedBatch(s, 0, 0, 1);
    u := Exec(s, Overlap(0, 0, 1));
  }

  lemma CreateStep(s: State, r: NewBatch)
    requires Valid(s)
    ensures Next(s, CreateBatch(r)) == s.(book := CreateTx(s.ledger, s.book, r))
  {
    hide CreateTx, Valid;
  }

  lemma ExecThree(s: State, xs: seq<Action>, t: State, u: State, v: State)
    requires |xs| == 3 && Inv(s) && Valid(s) && Next(s, xs[0]) == t && Valid(t) && Next(t, xs[1]) == u && Valid(u) && Next(u, xs[2]) == v
    ensures Exec(s, xs) == v
  {
    hide Inv, Next, Exec, Valid;
    ExecNothing(s, xs);
    ExtendTwice(s, xs, 0, s, t, u);
    Extend(s, xs[..2], u, xs[2], v);
    assert xs[..2] + [xs[2]] == xs;
  }

  /** In every interleaving, the one step that takes a terminal header out of its state is the
      unconditional write to DISBURSING by a run that was already past its funding transaction. */
  lemma TerminalHeaderChangesExactly(s: State, a: Action, n: nat)
    requires Inv(s) && Done(s.book, n)
    ensures n < |Next(s, a).book.batches|
    ensures Next(s, a).book.batches[n] != s.book.batches[n] <==>
              a.Open? && a.p in s.processors && s.processors[a.p] == Processor(n, Opening)
  {
    hide Core, PayersAreFunded, L.Post, L.Next, Ready, Resumable, SomeItem, AllItemsTerminal, ValidNewBatch, KeyTaken;
  }

  // ---------- the completion report ----------

  function AmountsWith(b: Book, n: nat, status: ItemStatus): seq<int> {
    seq(|b.items|, i requires 0 <= i < |b.items| =>
      if b.items[i].batch == n && b.items[i].status == status then b.items[i].amount else 0)
  }

  lemma TerminalItemsAddUp(b: Book, n: nat)
    requires AllItemsTerminal(b, n)
    ensures Sum(AmountsWith(b, n, ItemCompleted)) + Sum(AmountsWith(b, n, ItemFailed)) == Sum(AmountsOf(b.items, n))
  {
    SumPointwise(AmountsWith(b, n, ItemCompleted), AmountsWith(b, n, ItemFailed), AmountsOf(b.items, n));
  }

  /** The report of a terminal batch accounts for the whole scheduled total exactly when the batch
      was funded (a batch FAILED at funding reports nothing, so only a zero total agrees). */
  lemma ReportAddsUpExactly(s: State, n: nat)
    requires OrderlyInv(s) && Done(s.book, n)
    ensures Sum(AmountsWith(s.book, n, ItemCompleted)) + Sum(AmountsWith(s.book, n, ItemFailed)) == s.book.batches[n].total
            <==> s.book.batches[n].reservation.Some? || s.book.batches[n].total == 0
  {
    hide Inv, OrderlyInv, EventsKnown, Alone;
    HeaderOf(s, n);
    TotalOf(s, n);
    if s.book.batches[n].reservation.Some? {
      TerminalItemsAddUp(s.book, n);
    } else {
      NothingReported(s.book, n);
    }
  }

  lemma TotalOf(s: State, n: nat)
    requires Inv(s) && n < |s.book.batches|
    ensures Sum(AmountsOf(s.book.items, n)) == s.book.batches[n].total
  {
  }

  lemma NothingReported(b: Book, n: nat)
    requires AllItems(b, n, Pending)
    ensures Sum(AmountsWith(b, n, ItemCompleted)) == 0 && Sum(AmountsWith(b, n, ItemFailed)) == 0
  {
    SumZero(AmountsWith(b, n, ItemCompleted));
    SumZero(AmountsWith(b, n, ItemFailed));
  }
}
