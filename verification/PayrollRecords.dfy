/** What every payroll transaction writes, written out; and what that makes of whole runs: each stored
    batch is what one request asked for, its terms never change, and its events tell what happened. */
module PayrollRecords {
  import opened Basics
  import L = Ledger
  import LedgerLaws
  import opened Payroll
  import opened PayrollLaws
  import opened PayrollRuns

  // ---------- the transactions, written out ----------

  /** The request may be stored: active accounts, one currency, distinct references, the exact total, and an
      (employer, key) that no batch has. */
  ghost predicate Acceptable(accounts: map<L.AccountId, L.Account>, b: Book, r: NewBatch) {
    && (forall n :: 0 <= n < |b.batches| ==> !(b.batches[n].employer == L.Row(r.employer) && b.batches[n].key == r.key))
    && L.Row(r.employer) in accounts && accounts[L.Row(r.employer)].status == L.Active
    && accounts[L.Row(r.employer)].currency == r.currency
    && (forall i :: 0 <= i < |r.lines| ==>
          && r.lines[i].currency == r.currency && L.Row(r.lines[i].employee) in accounts
          && accounts[L.Row(r.lines[i].employee)].status == L.Active
          && accounts[L.Row(r.lines[i].employee)].currency == r.currency)
    && (forall i, j :: 0 <= i < j < |r.lines| ==> r.lines[i].reference != r.lines[j].reference)
    && Sum(seq(|r.lines|, i requires 0 <= i < |r.lines| => r.lines[i].amount)) == r.total
  }

  /** An acceptable request adds one DRAFT header without a reservation and one PENDING item per line, each
      for that line's own employee, amount, currency and reference; any other request changes nothing. */
  ghost predicate CreatedFrom(accounts: map<L.AccountId, L.Account>, b: Book, r: NewBatch, c: Book) {
    if Acceptable(accounts, b, r) then
      && c.clearing == b.clearing
      && c.batches == b.batches + [Batch(L.Row(r.employer), r.key, r.total, r.currency, Draft, None)]
      && |c.items| == |b.items| + |r.lines| && (forall i :: 0 <= i < |b.items| ==> c.items[i] == b.items[i])
      && (forall i :: 0 <= i < |r.lines| ==>
            c.items[|b.items| + i] ==
              Item(|b.batches|, L.Row(r.lines[i].employee), r.lines[i].amount, r.lines[i].currency, r.lines[i].reference, Pending, None))
      && c.outbox == b.outbox + [Created(|b.batches|)]
    else c == b
  }

  lemma CreateWrites(l: L.State, b: Book, r: NewBatch)
    ensures CreatedFrom(l.accounts, b, r, CreateTx(l, b, r))
  {
    hide L.Row, Sum;
    assert LineAmounts(r.lines) == seq(|r.lines|, i requires 0 <= i < |r.lines| => r.lines[i].amount);
    AcceptableExactly(l.accounts, b, r);
    var c := CreateTx(l, b, r);
    if Acceptable(l.accounts, b, r) {
      assert c.items == b.items + NewItems(|b.batches|, r.lines);
    }
    hide Acceptable, ValidNewBatch, KeyTaken;
  }

  lemma AcceptableExactly(accounts: map<L.AccountId, L.Account>, b: Book, r: NewBatch)
    ensures Acceptable(accounts, b, r) <==> !KeyTaken(b, r.employer, r.key) && ValidNewBatch(accounts, r)
  {
    hide L.Row, Sum;
    assert LineAmounts(r.lines) == seq(|r.lines|, i requires 0 <= i < |r.lines| => r.lines[i].amount);
  }

  /** What an accepted funding of a DRAFT batch writes: one transfer of the total from the employer to the
      clearing account, and header and event with it. */
  lemma FundWrites(l: L.State, b: Book, n: nat)
    requires Core(l, b) && n < |b.batches| && b.batches[n].status == Draft && FundTx(l, b, n).ok
    ensures b.batches[n].currency in b.clearing
    ensures var c := FundTx(l, b, n);
            var (batch, tx) := (b.batches[n], |l.transactions|);
            && c.ledger.transactions == l.transactions +
                 [L.StoredTx.Transaction(L.Transfer, None, L.ForPayrollFunding(n),
                    [L.Line(batch.employer, L.Debit, batch.total, batch.currency),
                     L.Line(L.Row(b.clearing[batch.currency]), L.Credit, batch.total, batch.currency)], [1, 2])]
            && c.book == Book(b.clearing,
                              b.batches[n := Batch(batch.employer, batch.key, batch.total, batch.currency, FundingReserved, Some(tx))],
                              b.items, b.outbox + [Funded(n)])
  {
    DraftIsUnfunded(l.transactions, b, n);
    FundingIsNew(l, b, n);
    assert L.Row(b.batches[n].employer) == b.batches[n].employer;
    hide L.Post, Core, L.Row;
    var p := FundPosting(b, n);
    LedgerLaws.PostStores(l, p);
    TransferStored(l, L.Post(l, p).0, p);
  }

  /** The transaction behind a posted transfer. */
  lemma TransferStored(l: L.State, t: L.State, p: L.Posting)
    requires L.Post(l, p).0 == t && L.Post(l, p).1.Posted? && |p.lines| == 2 && p.numbers == [None, None]
    ensures L.Post(l, p).1 == L.Posted(|l.transactions|)
    ensures t.transactions == l.transactions +
              [L.StoredTx.Transaction(p.txType, p.reverses, p.correlation,
                 [L.Line(L.Row(p.lines[0].account), p.lines[0].entryType, p.lines[0].amount, p.lines[0].currency),
                  L.Line(L.Row(p.lines[1].account), p.lines[1].entryType, p.lines[1].amount, p.lines[1].currency)], [1, 2])]
  {
    LedgerLaws.PostStores(l, p);
    hide L.Post, L.Row;
    var tx := t.transactions[|l.transactions|];
    assert t.transactions == l.transactions + [tx];
    assert |tx.lines| == 2 && tx.lines == [tx.lines[0], tx.lines[1]] && tx.numbers == [1, 2];
  }

  /** What an accepted payout of a PENDING item writes: one transfer of its amount from the clearing account
      to its own employee, and item and event with it. */
  lemma PayWrites(l: L.State, b: Book, i: nat)
    requires Core(l, b) && i < |b.items| && b.items[i].currency in b.clearing
    requires b.items[i].status == Pending && PayTx(l, b, i).ok
    ensures var c := PayTx(l, b, i);
            var (item, tx) := (b.items[i], |l.transactions|);
            && c.ledger.transactions == l.transactions +
                 [L.StoredTx.Transaction(L.Transfer, None, L.ForPayrollItem(i),
                    [L.Line(L.Row(b.clearing[item.currency]), L.Debit, item.amount, item.currency),
                     L.Line(item.employee, L.Credit, item.amount, item.currency)], [1, 2])]
            && c.book == Book(b.clearing, b.batches,
                              b.items[i := Item(item.batch, item.employee, item.amount, item.currency, item.reference,
                                                ItemCompleted, Some(tx))],
                              b.outbox + [ItemPaid(i)])
  {
    PayoutIsNew(l, b, i);
    assert L.Row(b.items[i].employee) == b.items[i].employee;
    hide L.Post, Core, L.Row;
    var p := PayPosting(b, i);
    LedgerLaws.PostStores(l, p);
    TransferStored(l, L.Post(l, p).0, p);
  }

  /** A funding or payout that is refused, or not due, leaves ledger and tables as they are. */
  lemma RefusedMoneyChangesNothing(l: L.State, b: Book, n: nat, i: nat)
    ensures n < |b.batches| && (!FundTx(l, b, n).ok || b.batches[n].status != Draft) ==>
              FundTx(l, b, n).ledger == l && FundTx(l, b, n).book == b
    ensures i < |b.items| && b.items[i].currency in b.clearing && (!PayTx(l, b, i).ok || b.items[i].status != Pending) ==>
              PayTx(l, b, i).ledger == l && PayTx(l, b, i).book == b
  {
    hide L.Post;
  }

  /** The first funding of a batch goes through exactly with a configured clearing account, two usable accounts
      and (unless the employer's account is the clearing account itself) an employer who can pay the total. */
  lemma FundingExactly(l: L.State, b: Book, n: nat)
    requires Core(l, b) && n < |b.batches| && b.batches[n].status == Draft
    ensures FundTx(l, b, n).ok <==>
            var batch := b.batches[n];
            && batch.currency in b.clearing
            && (forall x :: x in {batch.employer, L.Row(b.clearing[batch.currency])} ==>
                  x in l.accounts && l.accounts[x].status == L.Active && l.accounts[x].currency == batch.currency)
            && (batch.employer == b.clearing[batch.currency]
                || l.accounts[batch.employer].available - batch.total >= 0 - l.accounts[batch.employer].overdraft)
  {
    var batch := b.batches[n];
    FreshFunding(l, b, n);
    hide Core;
    if batch.currency in b.clearing {
      hide L.Post, LedgerLaws.Fundable, L.FindCorrelation, L.TransferLines, L.Row, L.WithinLimits;
      LedgerLaws.TransferPosts(l, FundPosting(b, n), batch.employer, b.clearing[batch.currency], batch.total, batch.currency);
      TransferFundable(l, batch.employer, b.clearing[batch.currency], batch.total, batch.currency);
    }
  }

  lemma FreshFunding(l: L.State, b: Book, n: nat)
    requires Core(l, b) && n < |b.batches| && b.batches[n].status == Draft
    ensures b.batches[n].reservation.None? && L.Row(b.batches[n].employer) == b.batches[n].employer && L.WithinLimits(l)
    ensures L.FindCorrelation(l.transactions, L.ForPayrollFunding(n)).None?
  {
    DraftIsUnfunded(l.transactions, b, n);
    hide L.Row, Solvent, PayoutsMatch, TotalsFit;
  }

  /** The four transactions that move no money, each with its guard. */
  lemma HeaderWritesExactly(b: Book, n: nat)
    requires n < |b.batches|
    ensures FundFailTx(b, n) ==
            if b.batches[n].status == Draft
            then Book(b.clearing, b.batches[n := b.batches[n].(status := BatchFailed)], b.items, b.outbox + [Finished(n, false)]) else b
    ensures OpenTx(b, n) == Book(b.clearing, b.batches[n := b.batches[n].(status := Disbursing)], b.items, b.outbox)
    ensures var done := forall i :: 0 <= i < |b.items| && b.items[i].batch == n ==>
                          b.items[i].status == ItemCompleted || b.items[i].status == ItemFailed;
            var failed := exists i :: 0 <= i < |b.items| && b.items[i].batch == n && b.items[i].status == ItemFailed;
            FinalizeTx(b, n) ==
            if b.batches[n].status != Disbursing || !done then b
            else Book(b.clearing, b.batches[n := b.batches[n].(status := if failed then BatchFailed else BatchCompleted)],
                      b.items, b.outbox + [Finished(n, !failed)])
  {
  }

  lemma PayFailWritesExactly(b: Book, i: nat)
    requires i < |b.items|
    ensures PayFailTx(b, i) ==
            if b.items[i].status == Pending
            then Book(b.clearing, b.batches, b.items[i := b.items[i].(status := ItemFailed)], b.outbox) else b
  {
  }

  /** A batch that keeps its invariant and is DRAFT may be processed exactly when it has items, all PENDING. */
  lemma ReadyExactly(l: L.State, b: Book, n: nat)
    requires Core(l, b) && n < |b.batches|
    ensures Ready(b, n) <==>
            && (exists i :: 0 <= i < |b.items| && b.items[i].batch == n)
            && (forall i :: 0 <= i < |b.items| && b.items[i].batch == n ==> b.items[i].status == Pending)
    ensures Resumable(b, n) <==> exists i :: 0 <= i < |b.items| && b.items[i].batch == n
  {
    hide L.Inv, Solvent, FundingMatches, PayoutsMatch, L.Row;
  }

  /** How a run goes on after reading the header: a DRAFT batch is funded when it has items, all PENDING; a
      funded one is opened; a DISBURSING one is resumed when it is funded and has items; else the run ends. */
  lemma DecideExactly(s: State, p: nat, n: nat, seen: BatchStatus)
    requires Inv(s) && p in s.processors && s.processors[p] == Processor(n, Started(seen)) && n < |s.book.batches|
    ensures var t, b := Next(s, Decide(p)), s.book;
            var items := exists i :: 0 <= i < |b.items| && b.items[i].batch == n;
            var pending := forall i :: 0 <= i < |b.items| && b.items[i].batch == n ==> b.items[i].status == Pending;
            var funded := b.batches[n].reservation.Some?;
            && t.ledger == s.ledger && t.book == b
            && t.processors == if seen == Draft && items && pending then s.processors[p := Processor(n, Funding)]
                               else if seen == FundingReserved && funded then s.processors[p := Processor(n, Opening)]
                               else if seen == Disbursing && funded && items then s.processors[p := Processor(n, Opened)]
                               else s.processors - {p}
  {
    hide Core, Ready, Resumable, Valid, PayersAreFunded;
    ReadyExactly(s.ledger, s.book, n);
  }

  /** The work list of a run: the PENDING items of its batch at that moment, in order. */
  lemma RereadExactly(s: State, p: nat, n: nat)
    requires Inv(s) && p in s.processors && s.processors[p] == Processor(n, Opened) && n < |s.book.batches|
    requires s.book.batches[n].reservation.Some?
    ensures var t := Next(s, Reread(p));
            && t.ledger == s.ledger && t.book == s.book && p in t.processors
            && t.processors[p].phase.Paying? && t.processors == s.processors[p := Processor(n, Paying(t.processors[p].phase.todo))]
            && Increasing(t.processors[p].phase.todo)
            && (forall i :: i in t.processors[p].phase.todo <==>
                  0 <= i < |s.book.items| && s.book.items[i].batch == n && s.book.items[i].status == Pending)
  {
    FundedIsConfigured(s, n);
    PendingInOrder(s.book.items, n);
    hide Inv, Core, Valid, PayersAreFunded, PendingIds;
    RereadStep(s, p, n);
  }

  lemma FundedIsConfigured(s: State, n: nat)
    requires Inv(s) && n < |s.book.batches| && s.book.batches[n].reservation.Some?
    ensures Valid(s) && s.book.batches[n].currency in s.book.clearing
  {
  }

  lemma {:induction false} PendingInOrder(items: seq<Item>, n: nat)
    ensures Increasing(PendingIds(items, n))
  {
    if items != [] {
      var k := |items| - 1;
      var ids := PendingIds(items[..k], n);
      PendingInOrder(items[..k], n);
      assert forall j :: 0 <= j < |ids| ==> ids[j] in ids;
    }
  }

  // ---------- every step is one of the transactions ----------

  ghost predicate Writes(l: L.State, b: Book, c: Book) {
    || c == b
    || (exists r: NewBatch :: c == CreateTx(l, b, r))
    || (exists n: nat :: n < |b.batches| && c == FundTx(l, b, n).book)
    || (exists n: nat :: n < |b.batches| && c == FundFailTx(b, n))
    || (exists n: nat :: n < |b.batches| && c == OpenTx(b, n))
    || (exists n: nat :: n < |b.batches| && c == FinalizeTx(b, n))
    || (exists i: nat :: i < |b.items| && b.items[i].currency in b.clearing && c == PayTx(l, b, i).book)
    || (exists i: nat :: i < |b.items| && c == PayFailTx(b, i))
  }

  lemma NextWrites(s: State, a: Action)
    requires Inv(s)
    ensures Valid(s) && Writes(s.ledger, s.book, Next(s, a).book)
  {
    hide Core, Valid, PayersAreFunded, CreateTx, Writes, Step, L.Next;
    if a.CreateBatch? {
      CreateIsWrite(s.ledger, s.book, a.request);
    } else if a.OtherLedgerCommand? || a.Start? || a.p !in s.processors {
      NothingIsWrite(s.ledger, s.book);
    } else {
      StepWrites(s, a);
    }
  }

  lemma CreateIsWrite(l: L.State, b: Book, r: NewBatch)
    ensures Writes(l, b, CreateTx(l, b, r))
  {
  }

  lemma NothingIsWrite(l: L.State, b: Book)
    ensures Writes(l, b, b)
  {
  }

  lemma StepWrites(s: State, a: Action)
    requires Inv(s) && !a.CreateBatch? && !a.OtherLedgerCommand? && !a.Start? && a.p in s.processors
    ensures Writes(s.ledger, s.book, Step(s, a).book)
  {
    hide Core, CreateTx, FundTx, FundFailTx, OpenTx, FinalizeTx, PayTx, PayFailTx, Ready, Resumable;
    var p, n := a.p, s.processors[a.p].batch;
    if s.processors[p].phase.Paying? || s.processors[p].phase.PayErr? {
      PayerFacts(s, p);
    }
  }

  // ---------- terms never change ----------

  /** Rows are only added, and of stored rows only statuses, reservations and posted ids change; a reservation
      and an outcome never do. */
  ghost predicate Terms(b: Book, c: Book) {
    && c.clearing == b.clearing && |b.batches| <= |c.batches| && |b.items| <= |c.items|
    && (forall n :: 0 <= n < |b.batches| ==>
          && c.batches[n].(status := b.batches[n].status, reservation := b.batches[n].reservation) == b.batches[n]
          && (b.batches[n].reservation.Some? ==> c.batches[n].reservation == b.batches[n].reservation))
    && (forall i :: 0 <= i < |b.items| ==>
          && c.items[i].(status := b.items[i].status, ledgerTx := b.items[i].ledgerTx) == b.items[i]
          && (b.items[i].status != Pending ==> c.items[i] == b.items[i]))
    && (forall i :: |b.items| <= i < |c.items| ==> c.items[i].batch >= |b.batches|)
  }

  lemma TermsTransitive(b: Book, c: Book, d: Book)
    requires Terms(b, c) && Terms(c, d)
    ensures Terms(b, d)
  {
  }

  lemma CreateKeepsTerms(l: L.State, b: Book, r: NewBatch)
    ensures Terms(b, CreateTx(l, b, r))
  {
    hide ValidNewBatch, KeyTaken, L.Row;
  }

  lemma BatchWritesKeepTerms(l: L.State, b: Book, n: nat)
    requires FundingMatches(l.transactions, b) && n < |b.batches|
    ensures Terms(b, FundTx(l, b, n).book) && Terms(b, FundFailTx(b, n)) && Terms(b, OpenTx(b, n)) && Terms(b, FinalizeTx(b, n))
  {
    DraftsUnfunded(l.transactions, b);
    hide FundingMatches, L.Post, FundTx, SomeItem, AllItemsTerminal, Terms;
    FundKeepsTerms(l, b, n);
    HeaderKeepsTerms(b, FundFailTx(b, n), n);
    HeaderKeepsTerms(b, OpenTx(b, n), n);
    HeaderKeepsTerms(b, FinalizeTx(b, n), n);
  }

  lemma HeaderKeepsTerms(b: Book, c: Book, n: nat)
    requires n < |b.batches| == |c.batches| && c.clearing == b.clearing && c.items == b.items
    requires c.batches == b.batches[n := b.batches[n].(status := c.batches[n].status)]
    ensures Terms(b, c)
  {
  }

  lemma FundKeepsTerms(l: L.State, b: Book, n: nat)
    requires n < |b.batches| && (b.batches[n].status == Draft ==> b.batches[n].reservation.None?)
    ensures Terms(b, FundTx(l, b, n).book)
  {
    hide L.Post, FundPosting;
  }

  lemma ItemWritesKeepTerms(l: L.State, b: Book, i: nat)
    requires i < |b.items|
    ensures b.items[i].currency in b.clearing ==> Terms(b, PayTx(l, b, i).book)
    ensures Terms(b, PayFailTx(b, i))
  {
    hide L.Post;
  }

  lemma NextKeepsTerms(s: State, a: Action)
    requires Inv(s)
    ensures Valid(s) && Terms(s.book, Next(s, a).book)
  {
    NextWrites(s, a);
    FundingOf(s);
    var l, b, c := s.ledger, s.book, Next(s, a).book;
    hide Inv, Valid, Next, Terms, FundingMatches, CreateTx, FundTx, FundFailTx, OpenTx, FinalizeTx, PayTx, PayFailTx;
    if r: NewBatch :| c == CreateTx(l, b, r) {
      CreateKeepsTerms(l, b, r);
    } else if n: nat :| n < |b.batches| && c == FundTx(l, b, n).book {
      BatchWritesKeepTerms(l, b, n);
    } else if n: nat :| n < |b.batches| && c == FundFailTx(b, n) {
      BatchWritesKeepTerms(l, b, n);
    } else if n: nat :| n < |b.batches| && c == OpenTx(b, n) {
      BatchWritesKeepTerms(l, b, n);
    } else if n: nat :| n < |b.batches| && c == FinalizeTx(b, n) {
      BatchWritesKeepTerms(l, b, n);
    } else if i: nat :| i < |b.items| && b.items[i].currency in b.clearing && c == PayTx(l, b, i).book {
      ItemWritesKeepTerms(l, b, i);
    } else if i: nat :| i < |b.items| && c == PayFailTx(b, i) {
      ItemWritesKeepTerms(l, b, i);
    } else {
      SameTerms(b);
    }
  }

  lemma SameTerms(b: Book)
    ensures Terms(b, b)
  {
  }

  lemma FundingOf(s: State)
    requires Inv(s)
    ensures Valid(s) && FundingMatches(s.ledger.transactions, s.book) && ItemsFit(s.book)
  {
  }

  lemma {:induction false} ExecKeepsTerms(s: State, actions: seq<Action>)
    requires Inv(s)
    ensures Terms(s.book, Exec(s, actions).book)
    decreases |actions|
  {
    hide Inv, Valid, Next, Terms;
    if actions == [] {
      SameTerms(s.book);
    } else {
      NextKeepsInv(s, actions[0]);
      NextKeepsTerms(s, actions[0]);
      ExecKeepsTerms(Next(s, actions[0]), actions[1..]);
      TermsTransitive(s.book, Next(s, actions[0]).book, Exec(s, actions).book);
    }
  }

  // ---------- every batch is what one request asked for ----------

  /** The item is for the employee, amount, currency and reference of the line. */
  ghost predicate IsLine(item: Item, n: nat, line: NewLine) {
    && item.batch == n && item.employee == L.Row(line.employee) && item.amount == line.amount
    && item.currency == line.currency && item.reference == line.reference
  }

  /** Batch `n` has the terms of request `r`, and its items are the lines of `r` in order, from `from` on. */
  ghost predicate AskedFor(b: Book, n: nat, from: nat, r: NewBatch) {
    && n < |b.batches| && from + |r.lines| <= |b.items|
    && b.batches[n].employer == L.Row(r.employer) && b.batches[n].key == r.key
    && b.batches[n].total == r.total && b.batches[n].currency == r.currency
    && (forall i :: 0 <= i < |r.lines| ==> IsLine(b.items[from + i], n, r.lines[i]))
    && (forall i :: 0 <= i < |b.items| && b.items[i].batch == n ==> from <= i < from + |r.lines|)
  }

  lemma StillAskedFor(b: Book, c: Book, n: nat, from: nat, r: NewBatch)
    requires AskedFor(b, n, from, r) && Terms(b, c)
    ensures AskedFor(c, n, from, r)
  {
    hide L.Row;
    forall i | 0 <= i < |c.items| && c.items[i].batch == n
      ensures from <= i < from + |r.lines|
    {
      assert i < |b.items| && b.items[i].batch == n;
    }
  }

  lemma NewBatchIsAskedFor(l: L.State, b: Book, r: NewBatch)
    requires ItemsFit(b) && |CreateTx(l, b, r).batches| > |b.batches|
    ensures |CreateTx(l, b, r).batches| == |b.batches| + 1
    ensures AskedFor(CreateTx(l, b, r), |b.batches|, |b.items|, r)
  {
    hide L.Row, Acceptable, CreateTx, ItemsFit, AskedFor;
    ItemsKnown(b);
    CreateWrites(l, b, r);
    AddedIsAskedFor(l.accounts, b, r, CreateTx(l, b, r));
  }

  lemma AddedIsAskedFor(accounts: map<L.AccountId, L.Account>, b: Book, r: NewBatch, c: Book)
    requires CreatedFrom(accounts, b, r, c) && |c.batches| > |b.batches|
    requires forall i :: 0 <= i < |b.items| ==> b.items[i].batch < |b.batches|
    ensures AskedFor(c, |b.batches|, |b.items|, r)
  {
    hide L.Row, Acceptable;
    var n, from := |b.batches|, |b.items|;
    assert c.batches[n] == Batch(L.Row(r.employer), r.key, r.total, r.currency, Draft, None);
    forall i | 0 <= i < |r.lines|
      ensures IsLine(c.items[from + i], n, r.lines[i])
    {
      var line := r.lines[i];
      assert c.items[from + i] == Item(n, L.Row(line.employee), line.amount, line.currency, line.reference, Pending, None);
    }
    forall i | 0 <= i < |c.items| && c.items[i].batch == n
      ensures from <= i < from + |r.lines|
    {
    }
  }

  lemma ItemsKnown(b: Book)
    requires ItemsFit(b)
    ensures forall i :: 0 <= i < |b.items| ==> b.items[i].batch < |b.batches|
  {
    hide L.Row;
  }

  lemma OnlyCreateAdds(s: State, a: Action)
    requires Inv(s)
    ensures Valid(s) && (|Next(s, a).book.batches| > |s.book.batches| ==> a.CreateBatch?)
  {
    hide Core, L.Post, L.Next, PayersAreFunded, TodoOk, CreateTx, Ready, Resumable, SomeItem, AllItemsTerminal;
    InvIsValid(s);
  }

  /** Over whole runs, under every interleaving: each batch is what one CreateBatch of the run asked for. */
  lemma {:induction false} CreatedAsAsked(s: State, actions: seq<Action>, n: nat)
    requires Inv(s) && |s.book.batches| <= n < |Exec(s, actions).book.batches|
    ensures exists k, from: nat ::
              0 <= k < |actions| && actions[k].CreateBatch? && AskedFor(Exec(s, actions).book, n, from, actions[k].request)
    decreases |actions|
  {
    hide Inv, Valid, Next, AskedFor, ItemsFit, Terms;
    FundingOf(s);
    NextKeepsInv(s, actions[0]);
    OnlyCreateAdds(s, actions[0]);
    var t, end := Next(s, actions[0]), Exec(s, actions);
    if n < |t.book.batches| {
      var r := actions[0].request;
      CreateStep(s, r);
      NewBatchIsAskedFor(s.ledger, s.book, r);
      ExecKeepsTerms(t, actions[1..]);
      StillAskedFor(t.book, end.book, n, |s.book.items|, r);
      assert AskedFor(end.book, n, |s.book.items|, actions[0].request);
    } else {
      CreatedAsAsked(t, actions[1..], n);
      var k, from: nat :| 0 <= k < |actions[1..]| && actions[1..][k].CreateBatch? && AskedFor(end.book, n, from, actions[1..][k].request);
      assert actions[k + 1] == actions[1..][k];
    }
  }

  // ---------- one batch per employer and key ----------

  ghost predicate OnePerKey(b: Book) {
    forall m, n :: 0 <= m < n < |b.batches| ==> !(b.batches[m].employer == b.batches[n].employer && b.batches[m].key == b.batches[n].key)
  }

  lemma NextKeepsKeys(s: State, a: Action)
    requires Inv(s) && OnePerKey(s.book)
    ensures Valid(s) && OnePerKey(Next(s, a).book)
  {
    hide Inv, Next, Valid, Acceptable;
    NextKeepsTerms(s, a);
    OnlyCreateAdds(s, a);
    var b, c := s.book, Next(s, a).book;
    assert forall n :: 0 <= n < |b.batches| ==> c.batches[n].employer == b.batches[n].employer && c.batches[n].key == b.batches[n].key;
    if |c.batches| > |b.batches| {
      hide Terms, CreateTx, L.Row;
      CreateStep(s, a.request);
      CreateWrites(s.ledger, b, a.request);
      KeyIsNew(s.ledger.accounts, b, a.request, c);
    }
  }

  lemma KeyIsNew(accounts: map<L.AccountId, L.Account>, b: Book, r: NewBatch, c: Book)
    requires CreatedFrom(accounts, b, r, c) && |c.batches| > |b.batches| && OnePerKey(b)
    ensures OnePerKey(c)
  {
    hide L.Row;
  }

  /** At most one batch per (employer, key), in every reachable state. */
  lemma {:induction false} OneBatchPerKey(s: State, actions: seq<Action>)
    requires Inv(s) && OnePerKey(s.book)
    ensures OnePerKey(Exec(s, actions).book)
    decreases |actions|
  {
    hide Inv, Next, Valid, OnePerKey;
    if actions != [] {
      NextKeepsInv(s, actions[0]);
      NextKeepsKeys(s, actions[0]);
      OneBatchPerKey(Next(s, actions[0]), actions[1..]);
    }
  }

  // ---------- events ----------

  /** One Created per batch, one Funded exactly for a reserved one, one ItemPaid exactly for a COMPLETED item. */
  ghost predicate EventsTell(b: Book) {
    && (forall e :: e in b.outbox ==> if e.ItemPaid? then e.item < |b.items| else e.batch < |b.batches|)
    && (forall n :: 0 <= n < |b.batches| ==>
          && Count(b, Created(n)) == 1
          && Count(b, Funded(n)) == if b.batches[n].reservation.Some? then 1 else 0)
    && (forall i :: 0 <= i < |b.items| ==> Count(b, ItemPaid(i)) == if b.items[i].status == ItemCompleted then 1 else 0)
  }

  lemma CreateTells(l: L.State, b: Book, r: NewBatch)
    requires EventsTell(b)
    ensures EventsTell(CreateTx(l, b, r))
  {
    hide ValidNewBatch, KeyTaken, L.Row;
    var c := CreateTx(l, b, r);
    if c != b {
      forall e
        ensures Count(c, e) == Count(b, e) + if e == Created(|b.batches|) then 1 else 0
      {
        CountAppend(b.outbox, Created(|b.batches|), e);
      }
      assert forall i :: |b.items| <= i < |c.items| ==> c.items[i].status == Pending && ItemPaid(i) !in b.outbox;
      assert Created(|b.batches|) !in b.outbox && Funded(|b.batches|) !in b.outbox;
    }
  }

  lemma BatchWritesTell(l: L.State, b: Book, n: nat)
    requires EventsTell(b) && FundingMatches(l.transactions, b) && n < |b.batches|
    ensures EventsTell(FundTx(l, b, n).book) && EventsTell(FundFailTx(b, n)) && EventsTell(OpenTx(b, n)) && EventsTell(FinalizeTx(b, n))
  {
    hide FundingMatches, FundTx, EventsTell, SomeItem, AllItemsTerminal, L.Post;
    DraftsUnfunded(l.transactions, b);
    FundTells(l, b, n);
    HeaderTells(b, FundFailTx(b, n), n, false);
    HeaderTells(b, OpenTx(b, n), n, false);
    HeaderTells(b, FinalizeTx(b, n), n, !SomeItem(b, n, ItemFailed));
  }

  lemma FundTells(l: L.State, b: Book, n: nat)
    requires EventsTell(b) && n < |b.batches| && (b.batches[n].status == Draft ==> b.batches[n].reservation.None?)
    ensures EventsTell(FundTx(l, b, n).book)
  {
    hide L.Post, FundPosting, EventsTell;
    var c := FundTx(l, b, n).book;
    if c != b {
      FundedTells(b, c, n);
    }
  }

  lemma FundedTells(b: Book, c: Book, n: nat)
    requires EventsTell(b) && n < |b.batches| == |c.batches| && c.items == b.items
    requires b.batches[n].reservation.None? && c.batches[n].reservation.Some? && c.outbox == b.outbox + [Funded(n)]
    requires forall m :: 0 <= m < |b.batches| && m != n ==> c.batches[m] == b.batches[m]
    ensures EventsTell(c)
  {
    forall e
      ensures Count(c, e) == Count(b, e) + if e == Funded(n) then 1 else 0
    {
      CountAppend(b.outbox, Funded(n), e);
    }
    hide Count;
  }

  lemma HeaderTells(b: Book, c: Book, n: nat, ok: bool)
    requires EventsTell(b) && n < |b.batches| == |c.batches| && c.items == b.items
    requires forall m :: 0 <= m < |b.batches| ==> c.batches[m].reservation == b.batches[m].reservation
    requires c.outbox == b.outbox || c.outbox == b.outbox + [Finished(n, ok)]
    ensures EventsTell(c)
  {
    forall e
      ensures Count(c, e) == Count(b, e) + if c.outbox != b.outbox && e == Finished(n, ok) then 1 else 0
    {
      CountAppend(b.outbox, Finished(n, ok), e);
    }
    hide Count;
  }

  lemma DraftsUnfunded(txs: seq<L.Transaction>, b: Book)
    requires FundingMatches(txs, b)
    ensures forall n :: 0 <= n < |b.batches| && b.batches[n].status == Draft ==> b.batches[n].reservation.None?
  {
  }

  lemma ItemWritesTell(l: L.State, b: Book, i: nat)
    requires EventsTell(b) && i < |b.items|
    ensures b.items[i].currency in b.clearing ==> EventsTell(PayTx(l, b, i).book)
    ensures EventsTell(PayFailTx(b, i))
  {
    hide L.Post;
  }

  lemma NextTells(s: State, a: Action)
    requires Inv(s) && EventsTell(s.book)
    ensures Valid(s) && EventsTell(Next(s, a).book)
  {
    NextWrites(s, a);
    FundingOf(s);
    var l, b, c := s.ledger, s.book, Next(s, a).book;
    hide Inv, Valid, Next, EventsTell, FundingMatches, CreateTx, FundTx, FundFailTx, OpenTx, FinalizeTx, PayTx, PayFailTx;
    if r: NewBatch :| c == CreateTx(l, b, r) {
      CreateTells(l, b, r);
    } else if n: nat :| n < |b.batches| && c == FundTx(l, b, n).book {
      BatchWritesTell(l, b, n);
    } else if n: nat :| n < |b.batches| && c == FundFailTx(b, n) {
      BatchWritesTell(l, b, n);
    } else if n: nat :| n < |b.batches| && c == OpenTx(b, n) {
      BatchWritesTell(l, b, n);
    } else if n: nat :| n < |b.batches| && c == FinalizeTx(b, n) {
      BatchWritesTell(l, b, n);
    } else if i: nat :| i < |b.items| && b.items[i].currency in b.clearing && c == PayTx(l, b, i).book {
      ItemWritesTell(l, b, i);
    } else if i: nat :| i < |b.items| && c == PayFailTx(b, i) {
      ItemWritesTell(l, b, i);
    }
  }

  /** Under every interleaving the outbox tells what happened, once. */
  lemma {:induction false} EventsTellOnce(s: State, actions: seq<Action>)
    requires Inv(s) && EventsTell(s.book)
    ensures EventsTell(Exec(s, actions).book)
    decreases |actions|
  {
    hide Inv, Next, Valid, EventsTell;
    if actions != [] {
      NextKeepsInv(s, actions[0]);
      NextTells(s, actions[0]);
      EventsTellOnce(Next(s, actions[0]), actions[1..]);
    }
  }

  // ---------- the whole of it ----------

  /** Item `i` is line `i - from` of request `r`: COMPLETED exactly with one payout, which takes the amount of that
      line from the clearing account to the employee of that line; otherwise there is none. */
  ghost predicate PaysLine(s: State, i: nat, from: nat, r: NewBatch) {
    && i < |s.book.items| && from <= i < from + |r.lines|
    && AskedFor(s.book, s.book.items[i].batch, from, r)
    && var item, line, txs := s.book.items[i], r.lines[i - from], s.ledger.transactions;
       if item.status == ItemCompleted then
         && item.ledgerTx.Some? && item.ledgerTx.value < |txs| && line.currency in s.book.clearing
         && Posts(txs, L.ForPayrollItem(i)) == {item.ledgerTx.value}
         && txs[item.ledgerTx.value].lines ==
              [L.Line(L.Row(s.book.clearing[line.currency]), L.Debit, line.amount, line.currency),
               L.Line(L.Row(line.employee), L.Credit, line.amount, line.currency)]
       else Posts(txs, L.ForPayrollItem(i)) == {}
  }

  lemma ItemPaysLine(s: State, i: nat, from: nat, r: NewBatch)
    requires Inv(s) && i < |s.book.items| && AskedFor(s.book, s.book.items[i].batch, from, r)
    ensures PaysLine(s, i, from, r)
  {
    PaidExactlyOnce(s, i);
    hide Inv, L.Row, Posts;
    assert from <= i < from + |r.lines|;
    assert s.book.items[from + (i - from)] == s.book.items[i];
  }

  lemma EmptyTables(clearing: map<L.Currency, L.AccountRef>)
    ensures OnePerKey(Initial(clearing).book) && EventsTell(Initial(clearing).book)
  {
  }

  /** From empty tables, under every interleaving, crash and lost acknowledgement: each item is one line of a
      request of the run and is paid as that line says, at most once; its batch is the only one of its
      employer and key; and the outbox tells what happened. */
  lemma EachLineIsPaidOnce(clearing: map<L.Currency, L.AccountRef>, actions: seq<Action>, s: State, i: nat)
    requires i < |s.book.items| && Reaches(Initial(clearing), actions, s)
    ensures s.book.clearing == clearing && OnePerKey(s.book) && EventsTell(s.book)
    ensures exists k, from: nat :: 0 <= k < |actions| && actions[k].CreateBatch? && PaysLine(s, i, from, actions[k].request)
  {
    var start := Initial(clearing);
    EmptyTables(clearing);
    hide Inv, Exec, Valid, OnePerKey, EventsTell, L.Row, PaysLine, AskedFor;
    ExecKeepsInv(start, actions);
    ExecKeepsTerms(start, actions);
    OneBatchPerKey(start, actions);
    EventsTellOnce(start, actions);
    FundingOf(s);
    var n := s.book.items[i].batch;
    CreatedAsAsked(start, actions, n);
    var k, from: nat :| 0 <= k < |actions| && actions[k].CreateBatch? && AskedFor(s.book, n, from, actions[k].request);
    ItemPaysLine(s, i, from, actions[k].request);
  }
}
