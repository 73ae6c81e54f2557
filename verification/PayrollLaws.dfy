/** Payroll under every interleaving: items and ledger agree, funding happens once and first,
    and a dedicated clearing account can always pay what it owes. */
module PayrollLaws {
  import opened Basics
  import L = Ledger
  import LedgerLaws
  import Spellings
  import opened Payroll

  // ---------- sums of owed items ----------

  lemma OwedAllSame(b: Book, c: Book, x: L.AccountId)
    requires |b.items| == |c.items|
    requires forall i :: 0 <= i < |b.items| ==> Owed(b, x, i) == Owed(c, x, i)
    ensures OwedAll(b, x) == OwedAll(c, x)
  {
  }

  /** What account `x` starts to owe when batch `n` becomes funded. */
  ghost function NewlyOwed(b: Book, x: L.AccountId, n: nat): seq<int>
    requires n < |b.batches|
  {
    if b.batches[n].currency in b.clearing && L.Row(b.clearing[b.batches[n].currency]) == x then AmountsOf(b.items, n)
    else seq(|b.items|, i => 0)
  }

  lemma OwedAfterFunding(b: Book, x: L.AccountId, n: nat, funded: Batch)
    requires n < |b.batches| && ItemsFit(b) && TotalsFit(b)
    requires b.batches[n].reservation.None? && funded.reservation.Some? && funded.currency == b.batches[n].currency
    requires forall i :: 0 <= i < |b.items| && b.items[i].batch == n ==> b.items[i].status != ItemCompleted
    ensures Sum(OwedAll(WithBatch(b, n, funded), x)) == Sum(OwedAll(b, x)) +
              if b.batches[n].currency in b.clearing && L.Row(b.clearing[b.batches[n].currency]) == x then b.batches[n].total else 0
  {
    var c := WithBatch(b, n, funded);
    var extra := NewlyOwed(b, x, n);
    forall i | 0 <= i < |b.items|
      ensures OwedAll(c, x)[i] == OwedAll(b, x)[i] + extra[i]
    {
    }
    SumPointwise(OwedAll(b, x), extra, OwedAll(c, x));
    if !(b.batches[n].currency in b.clearing && L.Row(b.clearing[b.batches[n].currency]) == x) {
      SumZero(extra);
    }
  }

  lemma OwedAfterPayout(b: Book, x: L.AccountId, i: nat, paid: Item)
    requires i < |b.items| && paid.status == ItemCompleted
    ensures Sum(OwedAll(WithItem(b, i, paid), x)) == Sum(OwedAll(b, x)) - Owed(b, x, i)
  {
    var c := WithItem(b, i, paid);
    assert OwedAll(c, x) == OwedAll(b, x)[i := 0];
    SumUpdate(OwedAll(b, x), i, 0);
  }

  lemma {:induction false} HistoryBeyond(txs: seq<L.Transaction>, later: seq<L.Transaction>, x: L.AccountId)
    requires txs <= later
    requires forall t :: |txs| <= t < |later| ==> x !in L.Touched(later[t].lines)
    ensures L.History(later, x) == L.History(txs, x)
    decreases |later|
  {
    if |later| == |txs| {
      assert later == txs;
    } else {
      var k := |later| - 1;
      HistoryBeyond(txs, later[..k], x);
      LedgerLaws.NetUntouched(later[k].lines, x);
    }
  }

  // ---------- creation ----------

  lemma AmountsAfterCreate(b: Book, lines: seq<NewLine>, n: nat)
    requires n <= |b.batches| && ItemsFit(b)
    ensures Sum(AmountsOf(b.items + NewItems(|b.batches|, lines), n))
            == if n == |b.batches| then Sum(LineAmounts(lines)) else Sum(AmountsOf(b.items, n))
  {
    var added := NewItems(|b.batches|, lines);
    assert AmountsOf(b.items + added, n) == AmountsOf(b.items, n) + AmountsOf(added, n);
    SumAppend(AmountsOf(b.items, n), AmountsOf(added, n));
    if n == |b.batches| {
      SumZero(AmountsOf(b.items, n));
      assert AmountsOf(added, n) == LineAmounts(lines);
    } else {
      SumZero(AmountsOf(added, n));
    }
  }

  lemma OwedAfterCreate(l: L.State, b: Book, r: NewBatch, x: L.AccountId)
    requires ItemsFit(b) && CreateTx(l, b, r) != b
    ensures Sum(OwedAll(CreateTx(l, b, r), x)) == Sum(OwedAll(b, x))
  {
    var c := CreateTx(l, b, r);
    var zeros := seq(|r.lines|, i => 0);
    assert |c.items| == |b.items| + |r.lines| && c.clearing == b.clearing;
    forall i | 0 <= i < |c.items|
      ensures Owed(c, x, i) == if i < |b.items| then Owed(b, x, i) else 0
    {
    }
    hide Owed, CreateTx;
    assert OwedAll(c, x) == OwedAll(b, x) + zeros;
    SumAppend(OwedAll(b, x), zeros);
    SumZero(zeros);
  }

  lemma CreateTotals(l: L.State, b: Book, r: NewBatch)
    requires ItemsFit(b) && TotalsFit(b)
    ensures TotalsFit(CreateTx(l, b, r)) && ItemsFit(CreateTx(l, b, r))
  {
    var c := CreateTx(l, b, r);
    if c != b {
      CreateFits(l, b, r);
      forall n | 0 <= n < |c.batches|
        ensures Sum(AmountsOf(c.items, n)) == c.batches[n].total
      {
        AmountsAfterCreate(b, r.lines, n);
      }
    }
  }

  lemma CreateFits(l: L.State, b: Book, r: NewBatch)
    requires ItemsFit(b) && CreateTx(l, b, r) != b
    ensures ItemsFit(CreateTx(l, b, r))
  {
    Spellings.RowIsARow(r.employer);
    forall i | 0 <= i < |r.lines|
      ensures L.Row(L.Row(r.lines[i].employee)) == L.Row(r.lines[i].employee)
    {
      Spellings.RowIsARow(r.lines[i].employee);
    }
    hide L.Row;
  }

  lemma CreateMatches(l: L.State, b: Book, r: NewBatch)
    requires FundingMatches(l.transactions, b) && PayoutsMatch(l.transactions, b)
    ensures FundingMatches(l.transactions, CreateTx(l, b, r)) && PayoutsMatch(l.transactions, CreateTx(l, b, r))
  {
  }

  lemma CreateSolvent(l: L.State, b: Book, r: NewBatch)
    requires ItemsFit(b) && Solvent(l.transactions, b)
    ensures Solvent(l.transactions, CreateTx(l, b, r))
  {
    var c := CreateTx(l, b, r);
    if c != b {
      forall x | Dedicated(l.transactions, c, x)
        ensures L.History(l.transactions, x) == Sum(OwedAll(c, x))
      {
        assert forall n :: 0 <= n < |b.batches| ==> c.batches[n] == b.batches[n];
        assert forall i :: 0 <= i < |b.items| ==> c.items[i] == b.items[i];
        assert Dedicated(l.transactions, b, x);
        OwedAfterCreate(l, b, r, x);
      }
    }
  }

  lemma CreateKeepsCore(l: L.State, b: Book, r: NewBatch)
    requires Core(l, b)
    ensures Core(l, CreateTx(l, b, r))
  {
    hide L.Inv, CreateTx, ItemsFit, TotalsFit, FundingMatches, PayoutsMatch, Solvent;
    CreateTotals(l, b, r);
    CreateMatches(l, b, r);
    CreateSolvent(l, b, r);
  }

  // ---------- header and item status changes ----------

  lemma StatusKeepsCore(l: L.State, b: Book, n: nat, status: BatchStatus, outbox: seq<Event>)
    requires Core(l, b) && n < |b.batches| && status != Draft
    ensures Core(l, WithBatch(b, n, b.batches[n].(status := status)).(outbox := outbox))
  {
    hide L.Inv;
    var c := WithBatch(b, n, b.batches[n].(status := status)).(outbox := outbox);
    StatusSolvent(l.transactions, b, c);
    hide Solvent, Dedicated;
    StatusMatches(l.transactions, b, c, n);
    hide FundingMatches, PayoutsMatch;
  }

  lemma StatusMatches(txs: seq<L.Transaction>, b: Book, c: Book, n: nat)
    requires FundingMatches(txs, b) && PayoutsMatch(txs, b) && n < |b.batches|
    requires c.items == b.items && c.clearing == b.clearing && |c.batches| == |b.batches| && c.batches == b.batches[n := b.batches[n].(status := c.batches[n].status)]
    requires c.batches[n].status != Draft
    ensures FundingMatches(txs, c) && PayoutsMatch(txs, c)
  {
  }

  /** Header statuses and events do not enter into what is owed. */
  lemma StatusSolvent(txs: seq<L.Transaction>, b: Book, c: Book)
    requires Solvent(txs, b) && c.items == b.items && c.clearing == b.clearing && |c.batches| == |b.batches|
    requires forall k :: 0 <= k < |b.batches| ==> c.batches[k] == b.batches[k].(status := c.batches[k].status)
    ensures Solvent(txs, c)
  {
    forall x | Dedicated(txs, c, x)
      ensures L.History(txs, x) == Sum(OwedAll(c, x))
    {
      assert forall k :: 0 <= k < |b.batches| ==> c.batches[k].employer == b.batches[k].employer;
      assert Dedicated(txs, b, x);
      OwedAllSame(b, c, x);
    }
  }

  lemma ItemFailureTotals(b: Book, i: nat)
    requires ItemsFit(b) && TotalsFit(b) && i < |b.items|
    ensures ItemsFit(PayFailTx(b, i)) && TotalsFit(PayFailTx(b, i))
  {
    var c := PayFailTx(b, i);
    forall n | 0 <= n < |b.batches|
      ensures Sum(AmountsOf(c.items, n)) == b.batches[n].total
    {
      assert AmountsOf(c.items, n) == AmountsOf(b.items, n);
    }
  }

  lemma ItemFailureMatches(txs: seq<L.Transaction>, b: Book, i: nat)
    requires FundingMatches(txs, b) && PayoutsMatch(txs, b) && i < |b.items|
    ensures FundingMatches(txs, PayFailTx(b, i)) && PayoutsMatch(txs, PayFailTx(b, i))
  {
  }

  lemma ItemFailureSolvent(txs: seq<L.Transaction>, b: Book, i: nat)
    requires Solvent(txs, b) && i < |b.items|
    ensures Solvent(txs, PayFailTx(b, i))
  {
    var c := PayFailTx(b, i);
    forall x | Dedicated(txs, c, x)
      ensures L.History(txs, x) == Sum(OwedAll(c, x))
    {
      assert forall k :: 0 <= k < |b.items| ==> c.items[k].employee == b.items[k].employee;
      assert Dedicated(txs, b, x);
      OwedAllSame(b, c, x);
    }
  }

  lemma ItemFailureKeepsCore(l: L.State, b: Book, i: nat)
    requires Core(l, b) && i < |b.items|
    ensures Core(l, PayFailTx(b, i))
  {
    hide L.Inv, ItemsFit, TotalsFit, FundingMatches, PayoutsMatch, Solvent, PayFailTx;
    ItemFailureTotals(b, i);
    ItemFailureMatches(l.transactions, b, i);
    ItemFailureSolvent(l.transactions, b, i);
  }

  // ---------- the two money transactions ----------

  lemma FundingIsNew(l: L.State, b: Book, n: nat)
    requires FundingMatches(l.transactions, b) && n < |b.batches| && b.batches[n].reservation.None?
    requires b.batches[n].currency in b.clearing
    ensures !L.Post(l, FundPosting(b, n)).1.Replayed?
  {
  }

  lemma PayoutIsNew(l: L.State, b: Book, i: nat)
    requires PayoutsMatch(l.transactions, b) && i < |b.items| && b.items[i].status != ItemCompleted
    requires b.items[i].currency in b.clearing
    ensures !L.Post(l, PayPosting(b, i)).1.Replayed?
  {
  }

  lemma FundedMatches(txs: seq<L.Transaction>, b: Book, n: nat, tx: L.Transaction)
    requires FundingMatches(txs, b) && PayoutsMatch(txs, b) && n < |b.batches|
    requires b.batches[n].reservation.None? && b.batches[n].currency in b.clearing
    requires tx.txType == L.Transfer && tx.correlation == L.ForPayrollFunding(n) && tx.lines == L.Stored(FundPosting(b, n).lines)
    ensures var c := WithBatch(b, n, b.batches[n].(status := FundingReserved, reservation := Some(|txs|)))
                       .(outbox := b.outbox + [Funded(n)]);
            FundingMatches(txs + [tx], c) && PayoutsMatch(txs + [tx], c)
  {
    hide L.Stored, L.TransferLines, L.Row, PayoutsMatch;
    var c := WithBatch(b, n, b.batches[n].(status := FundingReserved, reservation := Some(|txs|))).(outbox := b.outbox + [Funded(n)]);
    FundedKeepsPayouts(txs, b, n, tx, c);
  }

  lemma FundedKeepsPayouts(txs: seq<L.Transaction>, b: Book, n: nat, tx: L.Transaction, c: Book)
    requires PayoutsMatch(txs, b) && n < |b.batches| == |c.batches| && tx.correlation == L.ForPayrollFunding(n)
    requires b.batches[n].reservation.None? && c.items == b.items && c.clearing == b.clearing
    requires forall m :: 0 <= m < |b.batches| && m != n ==> c.batches[m] == b.batches[m]
    ensures PayoutsMatch(txs + [tx], c)
  {
    hide L.Stored, L.TransferLines, L.Row;
  }

  lemma PaidKeepsFunding(txs: seq<L.Transaction>, b: Book, i: nat, tx: L.Transaction, c: Book)
    requires FundingMatches(txs, b) && i < |b.items| && tx.correlation == L.ForPayrollItem(i)
    requires c.batches == b.batches && c.clearing == b.clearing
    ensures FundingMatches(txs + [tx], c)
  {
    hide L.Stored, L.TransferLines;
  }

  lemma PaidMatches(txs: seq<L.Transaction>, b: Book, i: nat, tx: L.Transaction)
    requires FundingMatches(txs, b) && PayoutsMatch(txs, b) && ItemsFit(b) && i < |b.items|
    requires b.items[i].status == Pending && b.items[i].currency in b.clearing
    requires b.batches[b.items[i].batch].reservation.Some?
    requires tx.txType == L.Transfer && tx.correlation == L.ForPayrollItem(i) && tx.lines == L.Stored(PayPosting(b, i).lines)
    ensures var c := WithItem(b, i, b.items[i].(status := ItemCompleted, ledgerTx := Some(|txs|)))
                       .(outbox := b.outbox + [ItemPaid(i)]);
            FundingMatches(txs + [tx], c) && PayoutsMatch(txs + [tx], c)
  {
    var c := WithItem(b, i, b.items[i].(status := ItemCompleted, ledgerTx := Some(|txs|))).(outbox := b.outbox + [ItemPaid(i)]);
    PaidKeepsFunding(txs, b, i, tx, c);
    ReservationsKnown(txs, b);
    hide FundingMatches, L.Stored, L.TransferLines, L.Row;
  }

  lemma ReservationsKnown(txs: seq<L.Transaction>, b: Book)
    requires FundingMatches(txs, b)
    ensures forall n :: 0 <= n < |b.batches| && b.batches[n].reservation.Some? ==> b.batches[n].reservation.value < |txs|
  {
  }

  lemma UnfundedItemsUnpaid(txs: seq<L.Transaction>, b: Book, n: nat)
    requires PayoutsMatch(txs, b) && n < |b.batches| && b.batches[n].reservation.None?
    ensures forall i :: 0 <= i < |b.items| && b.items[i].batch == n ==> b.items[i].status != ItemCompleted
  {
  }

  /** The stored lines of a transfer move a row by what its two legs name. */
  lemma StoredTransferMoves(source: L.AccountRef, dest: L.AccountRef, amount: nat, c: L.Currency, x: L.AccountId)
    ensures L.Net(L.Stored(L.TransferLines(source, dest, amount, c)), x)
            == (if L.Row(dest) == x then amount else 0) - (if L.Row(source) == x then amount else 0)
  {
    LedgerLaws.StoredTransfer(source, dest, amount, c);
    LedgerLaws.TransferEffects(L.Row(source), L.Row(dest), amount, c);
  }

  lemma StillDedicated(txs: seq<L.Transaction>, tx: L.Transaction, b: Book, c: Book, x: L.AccountId)
    requires Dedicated(txs + [tx], c, x) && |b.batches| <= |c.batches| && |b.items| <= |c.items|
    requires forall n :: 0 <= n < |b.batches| ==> c.batches[n].employer == b.batches[n].employer
    requires forall i :: 0 <= i < |b.items| ==> c.items[i].employee == b.items[i].employee
    ensures Dedicated(txs, b, x)
  {
    assert forall t :: 0 <= t < |txs| ==> (txs + [tx])[t] == txs[t];
    hide L.Touched;
  }

  lemma FundedOwes(txs: seq<L.Transaction>, b: Book, n: nat, tx: L.Transaction, c: Book, x: L.AccountId)
    requires Solvent(txs, b) && ItemsFit(b) && TotalsFit(b) && PayoutsMatch(txs, b) && n < |b.batches|
    requires b.batches[n].reservation.None? && b.batches[n].currency in b.clearing
    requires tx.lines == L.Stored(FundPosting(b, n).lines)
    requires c == WithBatch(b, n, b.batches[n].(status := FundingReserved, reservation := Some(|txs|)))
                    .(outbox := b.outbox + [Funded(n)])
    requires Dedicated(txs + [tx], c, x)
    ensures L.History(txs + [tx], x) == Sum(OwedAll(c, x))
  {
    var batch := b.batches[n];
    StillDedicated(txs, tx, b, c, x);
    UnfundedItemsUnpaid(txs, b, n);
    assert batch.employer != x && L.Row(batch.employer) == batch.employer by { assert c.batches[n].employer != x; }
    assert L.History(txs, x) == Sum(OwedAll(b, x));
    hide Solvent, Dedicated, PayoutsMatch, L.Net, L.Row, L.Stored, OwedAll;
    OwedAfterFunding(b, x, n, batch.(status := FundingReserved, reservation := Some(|txs|)));
    OwedAllSame(WithBatch(b, n, batch.(status := FundingReserved, reservation := Some(|txs|))), c, x);
    LedgerLaws.HistoryAppend(txs, tx, x);
    StoredTransferMoves(batch.employer, b.clearing[batch.currency], batch.total, batch.currency, x);
  }

  lemma FundedSolvent(txs: seq<L.Transaction>, b: Book, n: nat, tx: L.Transaction, c: Book)
    requires Solvent(txs, b) && ItemsFit(b) && TotalsFit(b) && PayoutsMatch(txs, b) && n < |b.batches|
    requires b.batches[n].reservation.None? && b.batches[n].currency in b.clearing
    requires tx.lines == L.Stored(FundPosting(b, n).lines)
    requires c == WithBatch(b, n, b.batches[n].(status := FundingReserved, reservation := Some(|txs|)))
                    .(outbox := b.outbox + [Funded(n)])
    ensures Solvent(txs + [tx], c)
  {
    forall x | Dedicated(txs + [tx], c, x)
      ensures L.History(txs + [tx], x) == Sum(OwedAll(c, x))
    {
      FundedOwes(txs, b, n, tx, c, x);
    }
  }

  lemma PaidOwes(txs: seq<L.Transaction>, b: Book, i: nat, tx: L.Transaction, c: Book, x: L.AccountId)
    requires Solvent(txs, b) && ItemsFit(b) && i < |b.items|
    requires b.items[i].status == Pending && b.items[i].currency in b.clearing
    requires b.batches[b.items[i].batch].reservation.Some?
    requires tx.lines == L.Stored(PayPosting(b, i).lines)
    requires c == WithItem(b, i, b.items[i].(status := ItemCompleted, ledgerTx := Some(|txs|)))
                    .(outbox := b.outbox + [ItemPaid(i)])
    requires Dedicated(txs + [tx], c, x)
    ensures L.History(txs + [tx], x) == Sum(OwedAll(c, x))
  {
    var item := b.items[i];
    StillDedicated(txs, tx, b, c, x);
    assert item.employee != x && L.Row(item.employee) == item.employee by { assert c.items[i].employee != x; }
    assert L.History(txs, x) == Sum(OwedAll(b, x));
    hide Solvent, Dedicated, L.Net, L.Row, L.Stored, OwedAll;
    OwedAfterPayout(b, x, i, item.(status := ItemCompleted, ledgerTx := Some(|txs|)));
    OwedAllSame(WithItem(b, i, item.(status := ItemCompleted, ledgerTx := Some(|txs|))), c, x);
    LedgerLaws.HistoryAppend(txs, tx, x);
    StoredTransferMoves(b.clearing[item.currency], item.employee, item.amount, item.currency, x);
  }

  lemma PaidSolvent(txs: seq<L.Transaction>, b: Book, i: nat, tx: L.Transaction, c: Book)
    requires Solvent(txs, b) && ItemsFit(b) && i < |b.items|
    requires b.items[i].status == Pending && b.items[i].currency in b.clearing
    requires b.batches[b.items[i].batch].reservation.Some?
    requires tx.lines == L.Stored(PayPosting(b, i).lines)
    requires c == WithItem(b, i, b.items[i].(status := ItemCompleted, ledgerTx := Some(|txs|)))
                    .(outbox := b.outbox + [ItemPaid(i)])
    ensures Solvent(txs + [tx], c)
  {
    forall x | Dedicated(txs + [tx], c, x)
      ensures L.History(txs + [tx], x) == Sum(OwedAll(c, x))
    {
      PaidOwes(txs, b, i, tx, c, x);
    }
  }

  lemma PaidTotals(b: Book, i: nat, tx: L.TxId, outbox: seq<Event>)
    requires ItemsFit(b) && TotalsFit(b) && i < |b.items|
    ensures var c := WithItem(b, i, b.items[i].(status := ItemCompleted, ledgerTx := Some(tx))).(outbox := outbox);
            ItemsFit(c) && TotalsFit(c)
  {
    var c := WithItem(b, i, b.items[i].(status := ItemCompleted, ledgerTx := Some(tx))).(outbox := outbox);
    forall n | 0 <= n < |b.batches|
      ensures Sum(AmountsOf(c.items, n)) == b.batches[n].total
    {
      assert AmountsOf(c.items, n) == AmountsOf(b.items, n);
    }
  }

  lemma FundKeepsCore(l: L.State, b: Book, n: nat)
    requires Core(l, b) && n < |b.batches|
    ensures var c := FundTx(l, b, n); Core(c.ledger, c.book)
  {
    hide L.Post, L.Inv, ItemsFit, TotalsFit, FundingMatches, PayoutsMatch, Solvent;
    var batch := b.batches[n];
    if batch.currency in b.clearing && batch.status == Draft {
      DraftIsUnfunded(l.transactions, b, n);
      var (later, r) := L.Post(l, FundPosting(b, n));
      FundingIsNew(l, b, n);
      LedgerLaws.PostExtends(l, FundPosting(b, n));
      LedgerLaws.PostKeepsInv(l, FundPosting(b, n));
      if r.Posted? {
        LedgerLaws.PostStores(l, FundPosting(b, n));
        var tx := later.transactions[r.id];
        assert later.transactions == l.transactions + [tx];
        var c := FundTx(l, b, n).book;
        FundedMatches(l.transactions, b, n, tx);
        FundedSolvent(l.transactions, b, n, tx, c);
        StatusTotals(b, n, batch.(status := FundingReserved, reservation := Some(r.id)), c.outbox);
      }
    }
  }

  lemma DraftIsUnfunded(txs: seq<L.Transaction>, b: Book, n: nat)
    requires FundingMatches(txs, b) && n < |b.batches| && b.batches[n].status == Draft
    ensures b.batches[n].reservation.None?
  {
  }

  lemma StatusTotals(b: Book, n: nat, batch: Batch, outbox: seq<Event>)
    requires ItemsFit(b) && TotalsFit(b) && n < |b.batches|
    requires batch.currency == b.batches[n].currency && batch.total == b.batches[n].total && batch.employer == b.batches[n].employer
    ensures ItemsFit(WithBatch(b, n, batch).(outbox := outbox)) && TotalsFit(WithBatch(b, n, batch).(outbox := outbox))
  {
  }

  lemma PayKeepsCore(l: L.State, b: Book, i: nat)
    requires Core(l, b) && i < |b.items| && b.items[i].currency in b.clearing
    requires b.items[i].batch < |b.batches| && b.batches[b.items[i].batch].reservation.Some?
    ensures var c := PayTx(l, b, i); Core(c.ledger, c.book)
  {
    hide L.Post, L.Inv, ItemsFit, TotalsFit, FundingMatches, PayoutsMatch, Solvent;
    if b.items[i].status == Pending {
      var (later, r) := L.Post(l, PayPosting(b, i));
      PayoutIsNew(l, b, i);
      LedgerLaws.PostExtends(l, PayPosting(b, i));
      LedgerLaws.PostKeepsInv(l, PayPosting(b, i));
      if r.Posted? {
        LedgerLaws.PostStores(l, PayPosting(b, i));
        var tx := later.transactions[r.id];
        assert later.transactions == l.transactions + [tx];
        var c := PayTx(l, b, i).book;
        PaidMatches(l.transactions, b, i, tx);
        PaidSolvent(l.transactions, b, i, tx, c);
        PaidTotals(b, i, r.id, c.outbox);
      }
    }
  }

  // ---------- everybody else's ledger traffic ----------

  ghost predicate AddsNoPayroll(l: L.State, later: L.State) {
    forall t :: |l.transactions| <= t < |later.transactions| ==>
      !later.transactions[t].correlation.ForPayrollFunding? && !later.transactions[t].correlation.ForPayrollItem?
  }

  lemma LaterLedgerKeepsCore(l: L.State, b: Book, later: L.State)
    requires Core(l, b) && L.Inv(later) && L.Extends(l, later) && AddsNoPayroll(l, later)
    ensures Core(later, b)
  {
    assert FundingMatches(later.transactions, b) && PayoutsMatch(later.transactions, b) by {
      assert forall t :: 0 <= t < |l.transactions| ==> later.transactions[t] == l.transactions[t];
    }
    forall x | Dedicated(later.transactions, b, x)
      ensures L.History(later.transactions, x) == Sum(OwedAll(b, x))
    {
      assert forall t :: 0 <= t < |l.transactions| ==> later.transactions[t] == l.transactions[t];
      assert Dedicated(l.transactions, b, x);
      HistoryBeyond(l.transactions, later.transactions, x);
    }
    hide L.Inv;
  }

  lemma ForeignCommand(l: L.State, c: L.Command)
    requires Foreign(c)
    ensures AddsNoPayroll(l, L.Next(l, c))
  {
  }

  // ---------- the interleaved machine ----------

  /** Rows are only added; what identifies them and a posted reservation never changes. */
  ghost predicate Grows(b: Book, c: Book) {
    && c.clearing == b.clearing
    && |b.batches| <= |c.batches|
    && |b.items| <= |c.items|
    && (forall n :: 0 <= n < |b.batches| && b.batches[n].reservation.Some? ==> c.batches[n].reservation.Some?)
    && (forall i :: 0 <= i < |b.items| ==> c.items[i].batch == b.items[i].batch && c.items[i].currency == b.items[i].currency)
  }

  lemma GrowsKeepsProcessors(s: State, l: L.State, c: Book)
    requires Valid(s) && PayersAreFunded(s) && Grows(s.book, c)
    ensures Valid(State(l, c, s.processors)) && PayersAreFunded(State(l, c, s.processors))
  {
    forall p | p in s.processors && s.processors[p].phase.Paying?
      ensures TodoOk(c, s.processors[p].batch, s.processors[p].phase.todo)
    {
      TodoGrows(s.book, c, s.processors[p].batch, s.processors[p].phase.todo);
    }
    forall p | p in s.processors && s.processors[p].phase.PayErr?
      ensures TodoOk(c, s.processors[p].batch, s.processors[p].phase.todo)
    {
      TodoGrows(s.book, c, s.processors[p].batch, s.processors[p].phase.todo);
    }
  }

  lemma TodoGrows(b: Book, c: Book, n: nat, todo: seq<nat>)
    requires TodoOk(b, n, todo) && Grows(b, c)
    ensures TodoOk(c, n, todo)
  {
  }

  lemma TodoTail(b: Book, n: nat, todo: seq<nat>)
    requires TodoOk(b, n, todo) && todo != []
    ensures ItemOk(b, n, todo[0]) && TodoOk(b, n, todo[1..])
  {
  }

  lemma FreshTodo(b: Book, n: nat)
    requires ItemsFit(b) && n < |b.batches| && b.batches[n].currency in b.clearing
    ensures TodoOk(b, n, PendingIds(b.items, n))
  {
    var ids := PendingIds(b.items, n);
    forall k | 0 <= k < |ids|
      ensures ItemOk(b, n, ids[k])
    {
      assert ids[k] in ids;
    }
  }

  lemma AtKeeps(s: State, p: nat, phase: Phase)
    requires Valid(s) && PayersAreFunded(s) && p in s.processors
    requires phase.Paying? || phase.PayErr? ==>
               TodoOk(s.book, s.processors[p].batch, phase.todo)
               && s.book.batches[s.processors[p].batch].reservation.Some?
    requires phase.PayErr? ==> ItemOk(s.book, s.processors[p].batch, phase.item)
    ensures Valid(At(s, p, phase)) && PayersAreFunded(At(s, p, phase))
  {
  }

  lemma StopKeeps(s: State, p: nat)
    requires Valid(s) && PayersAreFunded(s)
    ensures Valid(Stop(s, p)) && PayersAreFunded(Stop(s, p))
  {
  }

  lemma PayTxGrows(l: L.State, b: Book, i: nat)
    requires i < |b.items| && b.items[i].currency in b.clearing
    ensures Grows(b, PayTx(l, b, i).book)
  {
  }

  lemma FundTxGrows(l: L.State, b: Book, n: nat)
    requires n < |b.batches|
    ensures Grows(b, FundTx(l, b, n).book)
  {
  }

  lemma StatusGrows(b: Book, n: nat, status: BatchStatus, outbox: seq<Event>)
    requires n < |b.batches|
    ensures Grows(b, WithBatch(b, n, b.batches[n].(status := status)).(outbox := outbox))
  {
  }

  lemma PayFailGrows(b: Book, i: nat)
    requires i < |b.items|
    ensures Grows(b, PayFailTx(b, i))
  {
  }

  /** What a processor in phase Paying or PayErr can rely on. */
  lemma PayerFacts(s: State, p: nat)
    requires Inv(s) && p in s.processors && (s.processors[p].phase.Paying? || s.processors[p].phase.PayErr?)
    ensures Core(s.ledger, s.book)
    ensures var n := s.processors[p].batch;
            && n < |s.book.batches| && s.book.batches[n].reservation.Some?
            && TodoOk(s.book, n, s.processors[p].phase.todo)
            && (s.processors[p].phase.PayErr? ==> ItemOk(s.book, n, s.processors[p].phase.item))
  {
  }

  lemma PayStepKeepsInv(s: State, p: nat, fault: Fault)
    requires Inv(s) && p in s.processors && s.processors[p].phase.Paying?
    ensures Inv(Step(s, Pay(p, fault)))
  {
    hide Core, L.Post, Valid, PayersAreFunded, TodoOk, PayTx, Grows;
    var n, todo := s.processors[p].batch, s.processors[p].phase.todo;
    PayerFacts(s, p);
    if todo != [] {
      TodoTail(s.book, n, todo);
      var i, rest := todo[0], todo[1..];
      var c := PayTx(s.ledger, s.book, i);
      PayKeepsCore(s.ledger, s.book, i);
      PayTxGrows(s.ledger, s.book, i);
      GrowsKeepsProcessors(s, c.ledger, c.book);
      TodoGrows(s.book, c.book, n, rest);
      StillFunded(s.book, c.book, n, i);
      var mid := State(c.ledger, c.book, s.processors);
      AtKeeps(mid, p, Paying(rest));
      AtKeeps(mid, p, PayErr(i, rest));
      AtKeeps(s, p, PayErr(i, rest));
    }
  }

  lemma StillFunded(b: Book, c: Book, n: nat, i: nat)
    requires Grows(b, c) && n < |b.batches| && b.batches[n].reservation.Some? && ItemOk(b, n, i)
    ensures n < |c.batches| && c.batches[n].reservation.Some? && ItemOk(c, n, i)
  {
  }

  lemma FundStepKeepsInv(s: State, p: nat, fault: Fault)
    requires Inv(s) && p in s.processors && s.processors[p].phase.Funding?
    ensures Inv(Step(s, Fund(p, fault)))
  {
    hide Core, L.Post, PayersAreFunded, TodoOk, FundTx, Grows;
    var n := s.processors[p].batch;
    var c := FundTx(s.ledger, s.book, n);
    FundKeepsCore(s.ledger, s.book, n);
    FundTxGrows(s.ledger, s.book, n);
    GrowsKeepsProcessors(s, c.ledger, c.book);
    var mid := State(c.ledger, c.book, s.processors);
    AtKeeps(mid, p, Opening);
    AtKeeps(mid, p, FundingErr);
    AtKeeps(s, p, FundingErr);
  }

  lemma HeaderStepKeepsInv(s: State, a: Action)
    requires Inv(s) && (a.FundFail? || a.Open? || a.Finalize?) && a.p in s.processors
    ensures Inv(Step(s, a))
  {
    hide Core, L.Post, PayersAreFunded, TodoOk, Grows, SomeItem, AllItemsTerminal;
    var p, n := a.p, s.processors[a.p].batch;
    var c := if a.FundFail? then FundFailTx(s.book, n) else if a.Open? then OpenTx(s.book, n) else FinalizeTx(s.book, n);
    var status := c.batches[n].status;
    if c != s.book {
      assert c == WithBatch(s.book, n, s.book.batches[n].(status := status)).(outbox := c.outbox);
      StatusKeepsCore(s.ledger, s.book, n, status, c.outbox);
      StatusGrows(s.book, n, status, c.outbox);
      GrowsKeepsProcessors(s, s.ledger, c);
    }
    var mid := State(s.ledger, c, s.processors);
    StopKeeps(mid, p);
    AtKeeps(mid, p, Opened);
  }

  lemma PayFailStepKeepsInv(s: State, a: Action)
    requires Inv(s) && a.PayFail? && a.p in s.processors && s.processors[a.p].phase.PayErr?
    ensures Inv(Step(s, a))
  {
    hide Core, L.Post, Valid, PayersAreFunded, TodoOk, PayFailTx, Grows;
    var p, n, item, todo := a.p, s.processors[a.p].batch, s.processors[a.p].phase.item, s.processors[a.p].phase.todo;
    PayerFacts(s, p);
    var c := PayFailTx(s.book, item);
    ItemFailureKeepsCore(s.ledger, s.book, item);
    PayFailGrows(s.book, item);
    GrowsKeepsProcessors(s, s.ledger, c);
    TodoGrows(s.book, c, n, todo);
    StillFunded(s.book, c, n, item);
    AtKeeps(State(s.ledger, c, s.processors), p, Paying(todo));
  }

  lemma NextKeepsInv(s: State, a: Action)
    requires Inv(s)
    ensures Inv(Next(s, a))
  {
    hide Core, L.Post, L.Inv, L.Next, L.Extends, AddsNoPayroll, CreateTx, Valid, PayersAreFunded, TodoOk, Ready, Resumable;
    match a {
      case CreateBatch(r) =>
        CreateKeepsCore(s.ledger, s.book, r);
        CreateGrows(s.ledger, s.book, r);
        GrowsKeepsProcessors(s, s.ledger, CreateTx(s.ledger, s.book, r));
      case OtherLedgerCommand(c) =>
        if Foreign(c) {
          var later := L.Next(s.ledger, c);
          CoreHasLedgerInv(s.ledger, s.book);
          LedgerLaws.NextKeepsInv(s.ledger, c);
          LedgerLaws.NextExtends(s.ledger, c);
          ForeignCommand(s.ledger, c);
          LaterLedgerKeepsCore(s.ledger, s.book, later);
          GrowsKeepsProcessors(s, later, s.book);
        }
      case Start(p, n) => StartKeeps(s, p, n);
      case _ =>
        if a.p in s.processors {
          StepKeepsInv(s, a);
        }
    }
  }

  lemma CoreHasLedgerInv(l: L.State, b: Book)
    requires Core(l, b)
    ensures L.Inv(l) && ItemsFit(b)
  {
  }

  lemma CreateGrows(l: L.State, b: Book, r: NewBatch)
    ensures Grows(b, CreateTx(l, b, r))
  {
  }

  lemma StartKeeps(s: State, p: nat, n: nat)
    requires Inv(s)
    ensures Inv(Next(s, Start(p, n)))
  {
    hide Core, TodoOk, ItemOk;
  }

  lemma StepKeepsInv(s: State, a: Action)
    requires Inv(s) && !a.CreateBatch? && !a.OtherLedgerCommand? && !a.Start? && a.p in s.processors
    ensures Inv(Step(s, a))
  {
    hide Core, L.Post, Valid, PayersAreFunded, TodoOk, Ready, Resumable, PayTx, FundTx, FundFailTx, PayFailTx, OpenTx, FinalizeTx;
    var p := a.p;
    if a.Pay? && s.processors[p].phase.Paying? {
      PayStepKeepsInv(s, p, a.fault);
    } else if a.Fund? && s.processors[p].phase.Funding? {
      FundStepKeepsInv(s, p, a.fault);
    } else if a.FundFail? || a.Open? || a.Finalize? {
      HeaderStepKeepsInv(s, a);
    } else if a.PayFail? && s.processors[p].phase.PayErr? {
      PayFailStepKeepsInv(s, a);
    } else {
      QuietStepKeepsInv(s, a);
    }
  }

  lemma QuietStepKeepsInv(s: State, a: Action)
    requires Inv(s) && (a.Decide? || a.Reread? || a.Crash? || a.Pay? || a.Fund? || a.PayFail?) && a.p in s.processors
    requires !(a.PayFail? && s.processors[a.p].phase.PayErr?)
    requires !(a.Pay? && s.processors[a.p].phase.Paying?) && !(a.Fund? && s.processors[a.p].phase.Funding?)
    ensures Inv(Step(s, a))
  {
    hide Core, Ready, Resumable, TodoOk, PendingIds;
    CoreHasLedgerInv(s.ledger, s.book);
    var p, n := a.p, s.processors[a.p].batch;
    StopKeeps(s, p);
    match (a, s.processors[p].phase) {
      case (Decide(_), Started(seen)) =>
        var next := Decision(s.book, n, seen);
        if next.Some? {
          AtKeeps(s, p, next.value);
        }
      case (Reread(_), Opened) =>
        if s.book.batches[n].reservation.Some? && s.book.batches[n].currency in s.book.clearing {
          FreshTodo(s.book, n);
          AtKeeps(s, p, Paying(PendingIds(s.book.items, n)));
        }
      case _ =>
    }
    hide Core, Valid, PayersAreFunded;
  }
}
