/**
 * The payroll saga: fund a batch once, pay its items in separate transactions, finalize.
 * The `...Tx` functions are the database transactions; `Next` lets any number of processors run
 * them step by step, crash anywhere, lose acknowledgements, and meet other ledger traffic.
 */
module Payroll {
  import opened Basics
  import L = Ledger
  import LedgerLaws

  datatype BatchStatus = Draft | FundingReserved | Disbursing | BatchCompleted | BatchFailed | Cancelled
  datatype ItemStatus = Pending | Processing | ItemCompleted | ItemFailed | Skipped

  /** `reservation` is the ledger transaction of the batch's POSTED funding reservation row. */
  datatype Batch = Batch(employer: L.AccountId, key: string, total: nat, currency: L.Currency,
                         status: BatchStatus, reservation: Option<L.TxId>)

  datatype Item = Item(batch: nat, employee: L.AccountId, amount: nat, currency: L.Currency,
                       reference: string, status: ItemStatus, ledgerTx: Option<L.TxId>)

  datatype Event = Created(batch: nat) | Funded(batch: nat) | ItemPaid(item: nat) | Finished(batch: nat, ok: bool)

  /** The payroll tables; `clearing` is the configured clearing account per currency, as text. */
  datatype Book = Book(clearing: map<L.Currency, L.AccountRef>, batches: seq<Batch>, items: seq<Item>, outbox: seq<Event>)

  // ---------- the transactions ----------

  datatype NewLine = NewLine(employee: L.AccountRef, amount: nat, currency: L.Currency, reference: string)
  datatype NewBatch = NewBatch(employer: L.AccountRef, key: string, total: nat, currency: L.Currency, lines: seq<NewLine>)

  function LineAmounts(lines: seq<NewLine>): seq<int> {
    seq(|lines|, i requires 0 <= i < |lines| => lines[i].amount)
  }

  predicate UsableAccount(accounts: map<L.AccountId, L.Account>, r: L.AccountRef, c: L.Currency) {
    L.Row(r) in accounts && accounts[L.Row(r)].status == L.Active && accounts[L.Row(r)].currency == c
  }

  predicate ValidNewBatch(accounts: map<L.AccountId, L.Account>, r: NewBatch) {
    && UsableAccount(accounts, r.employer, r.currency)
    && (forall i, j :: 0 <= i < j < |r.lines| ==> r.lines[i].reference != r.lines[j].reference)
    && (forall i :: 0 <= i < |r.lines| ==>
          UsableAccount(accounts, r.lines[i].employee, r.lines[i].currency) && r.lines[i].currency == r.currency)
    && Sum(LineAmounts(r.lines)) == r.total
  }

  function NewItems(batch: nat, lines: seq<NewLine>): seq<Item> {
    seq(|lines|, i requires 0 <= i < |lines| =>
      Item(batch, L.Row(lines[i].employee), lines[i].amount, lines[i].currency, lines[i].reference, Pending, None))
  }

  predicate KeyTaken(b: Book, employer: L.AccountRef, key: string) {
    exists n :: 0 <= n < |b.batches| && b.batches[n].employer == L.Row(employer) && b.batches[n].key == key
  }

  /** Insert header and lines; a known (employer, key) or an invalid request changes nothing. */
  function CreateTx(l: L.State, b: Book, r: NewBatch): Book {
    if KeyTaken(b, r.employer, r.key) || !ValidNewBatch(l.accounts, r) then b
    else b.(batches := b.batches + [Batch(L.Row(r.employer), r.key, r.total, r.currency, Draft, None)],
            items := b.items + NewItems(|b.batches|, r.lines),
            outbox := b.outbox + [Created(|b.batches|)])
  }

  function FundPosting(b: Book, n: nat): L.Posting
    requires n < |b.batches| && b.batches[n].currency in b.clearing
  {
    var batch := b.batches[n];
    L.RawPosting.Posting(L.Transfer, None, L.ForPayrollFunding(n),
                         L.TransferLines(batch.employer, b.clearing[batch.currency], batch.total, batch.currency), [None, None])
  }

  function PayPosting(b: Book, i: nat): L.Posting
    requires i < |b.items| && b.items[i].currency in b.clearing
  {
    var item := b.items[i];
    L.RawPosting.Posting(L.Transfer, None, L.ForPayrollItem(i),
                         L.TransferLines(b.clearing[item.currency], item.employee, item.amount, item.currency), [None, None])
  }

  function WithBatch(b: Book, n: nat, batch: Batch): Book
    requires n < |b.batches|
  {
    b.(batches := b.batches[n := batch])
  }

  function WithItem(b: Book, i: nat, item: Item): Book
    requires i < |b.items|
  {
    b.(items := b.items[i := item])
  }

  /** The ledger, the tables, and whether the transaction committed (false: it threw, no effect). */
  datatype Commit = Commit(ledger: L.State, book: Book, ok: bool)

  /** reserveEmployerFunds: post employer -> clearing once and mark FUNDING_RESERVED. */
  function FundTx(l: L.State, b: Book, n: nat): Commit
    requires n < |b.batches|
  {
    var batch := b.batches[n];
    if batch.currency !in b.clearing then Commit(l, b, false)
    else if batch.status != Draft then Commit(l, b, true)
    else if batch.reservation.Some? then Commit(l, WithBatch(b, n, batch.(status := FundingReserved)), true)
    else
      var (later, r) := L.Post(l, FundPosting(b, n));
      if r.Rejected? then Commit(l, b, false)
      else Commit(later, WithBatch(b, n, batch.(status := FundingReserved, reservation := Some(r.id)))
                           .(outbox := b.outbox + [Funded(n)]), true)
  }

  /** markBatchFundingFailed */
  function FundFailTx(b: Book, n: nat): Book
    requires n < |b.batches|
  {
    if b.batches[n].status != Draft then b
    else WithBatch(b, n, b.batches[n].(status := BatchFailed)).(outbox := b.outbox + [Finished(n, false)])
  }

  /** updateBatchStatus(DISBURSING): unconditional. */
  function OpenTx(b: Book, n: nat): Book
    requires n < |b.batches|
  {
    WithBatch(b, n, b.batches[n].(status := Disbursing))
  }

  /** One item payout: clearing -> employee, then COMPLETED. */
  function PayTx(l: L.State, b: Book, i: nat): Commit
    requires i < |b.items| && b.items[i].currency in b.clearing
  {
    if b.items[i].status != Pending then Commit(l, b, true)
    else
      var (later, r) := L.Post(l, PayPosting(b, i));
      if r.Rejected? then Commit(l, b, false)
      else Commit(later, WithItem(b, i, b.items[i].(status := ItemCompleted, ledgerTx := Some(r.id)))
                           .(outbox := b.outbox + [ItemPaid(i)]), true)
  }

  /** markItemPayoutFailed */
  function PayFailTx(b: Book, i: nat): Book
    requires i < |b.items|
  {
    if b.items[i].status != Pending then b
    else WithItem(b, i, b.items[i].(status := ItemFailed))
  }

  predicate SomeItem(b: Book, n: nat, status: ItemStatus) {
    exists i :: 0 <= i < |b.items| && b.items[i].batch == n && b.items[i].status == status
  }

  predicate AllItemsTerminal(b: Book, n: nat) {
    forall i :: 0 <= i < |b.items| && b.items[i].batch == n ==> b.items[i].status == ItemCompleted || b.items[i].status == ItemFailed
  }

  /** finalizePayrollBatchAfterDisbursement */
  function FinalizeTx(b: Book, n: nat): Book
    requires n < |b.batches|
  {
    if b.batches[n].status != Disbursing || SomeItem(b, n, Pending) || !AllItemsTerminal(b, n) then b
    else
      var ok := !SomeItem(b, n, ItemFailed);
      WithBatch(b, n, b.batches[n].(status := if ok then BatchCompleted else BatchFailed))
        .(outbox := b.outbox + [Finished(n, ok)])
  }

  // ---------- processors ----------

  datatype Phase =
    | Started(seen: BatchStatus)
    | Funding
    | FundingErr
    | Opening
    | Opened
    | Paying(todo: seq<nat>)
    | PayErr(item: nat, todo: seq<nat>)

  datatype Processor = Processor(batch: nat, phase: Phase)
  datatype State = State(ledger: L.State, book: Book, processors: map<nat, Processor>)

  /** A transaction can fail before commit, or commit while its caller sees an error. */
  datatype Fault = NoFault | Aborted | LostAck

  function AmountsOf(items: seq<Item>, n: nat): seq<int> {
    seq(|items|, i requires 0 <= i < |items| => if items[i].batch == n then items[i].amount else 0)
  }

  predicate HasItems(b: Book, n: nat) {
    exists i :: 0 <= i < |b.items| && b.items[i].batch == n
  }

  /** assertBatchReadyForProcessing: items exist, are PENDING, and add up to the header. */
  predicate Ready(b: Book, n: nat)
    requires n < |b.batches|
  {
    && HasItems(b, n)
    && (forall i :: 0 <= i < |b.items| && b.items[i].batch == n ==>
          b.items[i].status == Pending && b.items[i].currency == b.batches[n].currency)
    && Sum(AmountsOf(b.items, n)) == b.batches[n].total
  }

  predicate Resumable(b: Book, n: nat) {
    HasItems(b, n) && forall i :: 0 <= i < |b.items| && b.items[i].batch == n ==>
      b.items[i].status in {Pending, ItemCompleted, ItemFailed}
  }

  /** The next phase of a processor that has read the header, or None when it returns or throws. */
  function Decision(b: Book, n: nat, seen: BatchStatus): Option<Phase>
    requires n < |b.batches|
  {
    match seen
    case Draft => if Ready(b, n) then Some(Funding) else None
    case FundingReserved => if b.batches[n].reservation.Some? then Some(Opening) else None
    case Disbursing => if b.batches[n].reservation.Some? && Resumable(b, n) then Some(Opened) else None
    case _ => None
  }

  /** The PENDING items of a batch in order. */
  function PendingIds(items: seq<Item>, n: nat): (ids: seq<nat>)
    ensures forall i :: i in ids <==> 0 <= i < |items| && items[i].batch == n && items[i].status == Pending
  {
    if items == [] then []
    else
      var k := |items| - 1;
      var ids := PendingIds(items[..k], n);
      assert forall i :: 0 <= i < k ==> items[..k][i] == items[i];
      if items[k].batch == n && items[k].status == Pending then ids + [k] else ids
  }

  datatype Action =
    | CreateBatch(request: NewBatch)
    | Start(p: nat, batch: nat)
    | Decide(p: nat)
    | Fund(p: nat, fault: Fault)
    | FundFail(p: nat)
    | Open(p: nat)
    | Reread(p: nat)
    | Pay(p: nat, fault: Fault)
    | PayFail(p: nat)
    | Finalize(p: nat)
    | Crash(p: nat)
    | OtherLedgerCommand(command: L.Command)

  predicate Foreign(c: L.Command) {
    match c
    case PostEntries(x) => !x.correlation.ForPayrollFunding? && !x.correlation.ForPayrollItem?
    case ReverseTx(_, x) => !x.ForPayrollFunding? && !x.ForPayrollItem?
    case _ => true
  }

  function Stop(s: State, p: nat): State {
    s.(processors := s.processors - {p})
  }

  function At(s: State, p: nat, phase: Phase): State
    requires p in s.processors
  {
    s.(processors := s.processors[p := s.processors[p].(phase := phase)])
  }

  predicate Valid(s: State) {
    && (forall p :: p in s.processors ==> s.processors[p].batch < |s.book.batches|)
    && (forall p :: p in s.processors && s.processors[p].phase.Paying? ==>
          TodoOk(s.book, s.processors[p].batch, s.processors[p].phase.todo))
    && (forall p :: p in s.processors && s.processors[p].phase.PayErr? ==>
          && ItemOk(s.book, s.processors[p].batch, s.processors[p].phase.item)
          && TodoOk(s.book, s.processors[p].batch, s.processors[p].phase.todo))
  }

  /** What a paying processor holds: items of its own batch, payable from a configured account. */
  predicate TodoOk(b: Book, n: nat, todo: seq<nat>) {
    forall k :: 0 <= k < |todo| ==> ItemOk(b, n, todo[k])
  }

  predicate ItemOk(b: Book, n: nat, i: nat) {
    i < |b.items| && b.items[i].batch == n && b.items[i].currency in b.clearing
  }

  function Next(s: State, a: Action): State
    requires Valid(s)
  {
    match a
    case CreateBatch(r) => s.(book := CreateTx(s.ledger, s.book, r))
    case OtherLedgerCommand(c) => if Foreign(c) then s.(ledger := L.Next(s.ledger, c)) else s
    case Start(p, n) =>
      if p in s.processors || n >= |s.book.batches| then s
      else s.(processors := s.processors[p := Processor(n, Started(s.book.batches[n].status))])
    case _ => if a.p !in s.processors then s else Step(s, a)
  }

  /** The actions of a running processor; an action that does not fit its phase does nothing. */
  function Step(s: State, a: Action): State
    requires Valid(s) && !a.CreateBatch? && !a.OtherLedgerCommand? && !a.Start?
    requires a.p in s.processors
  {
    var p, n := a.p, s.processors[a.p].batch;
    match (a, s.processors[p].phase)
    case (Crash(_), _) => Stop(s, p)
    case (Decide(_), Started(seen)) =>
      var next := Decision(s.book, n, seen);
      if next.None? then Stop(s, p) else At(s, p, next.value)
    case (Fund(_, fault), Funding) =>
      if fault == Aborted then At(s, p, FundingErr)
      else
        var c := FundTx(s.ledger, s.book, n);
        At(s.(ledger := c.ledger, book := c.book), p, if c.ok && fault == NoFault then Opening else FundingErr)
    case (FundFail(_), FundingErr) => Stop(s.(book := FundFailTx(s.book, n)), p)
    case (Open(_), Opening) => At(s.(book := OpenTx(s.book, n)), p, Opened)
    case (Reread(_), Opened) =>
      if s.book.batches[n].reservation.None? || s.book.batches[n].currency !in s.book.clearing then Stop(s, p)
      else At(s, p, Paying(PendingIds(s.book.items, n)))
    case (Pay(_, fault), Paying(todo)) =>
      if todo == [] then s
      else if fault == Aborted then At(s, p, PayErr(todo[0], todo[1..]))
      else
        var c := PayTx(s.ledger, s.book, todo[0]);
        At(s.(ledger := c.ledger, book := c.book), p,
           if c.ok && fault == NoFault then Paying(todo[1..]) else PayErr(todo[0], todo[1..]))
    case (PayFail(_), PayErr(item, todo)) => At(s.(book := PayFailTx(s.book, item)), p, Paying(todo))
    case (Finalize(_), Paying(todo)) =>
      if todo != [] then s else Stop(s.(book := FinalizeTx(s.book, n)), p)
    case _ => s
  }

  // ---------- the invariant of the tables ----------

  ghost predicate ItemsFit(b: Book) {
    && (forall n :: 0 <= n < |b.batches| ==> L.Row(b.batches[n].employer) == b.batches[n].employer)
    && forall i :: 0 <= i < |b.items| ==>
         && b.items[i].batch < |b.batches|
         && b.items[i].currency == b.batches[b.items[i].batch].currency
         && L.Row(b.items[i].employee) == b.items[i].employee
         && (b.items[i].status == Pending || b.items[i].status == ItemCompleted || b.items[i].status == ItemFailed)
  }

  ghost predicate TotalsFit(b: Book) {
    forall n :: 0 <= n < |b.batches| ==> Sum(AmountsOf(b.items, n)) == b.batches[n].total
  }

  /** Reservations and `pr:f:<batch>` transactions are the same thing; a DRAFT batch has none. */
  ghost predicate FundingMatches(txs: seq<L.Transaction>, b: Book) {
    && (forall n :: 0 <= n < |b.batches| && b.batches[n].reservation.Some? ==>
          && b.batches[n].status != Draft
          && b.batches[n].currency in b.clearing
          && b.batches[n].reservation.value < |txs|
          && txs[b.batches[n].reservation.value].correlation == L.ForPayrollFunding(n)
          && txs[b.batches[n].reservation.value].txType == L.Transfer
          && txs[b.batches[n].reservation.value].lines == L.Stored(FundPosting(b, n).lines))
    && (forall t :: 0 <= t < |txs| && txs[t].correlation.ForPayrollFunding? ==>
          txs[t].correlation.batch < |b.batches| && b.batches[txs[t].correlation.batch].reservation == Some(t))
  }

  /** COMPLETED items and `pr:i:<item>` transactions are the same thing, and need the funding. */
  ghost predicate PayoutsMatch(txs: seq<L.Transaction>, b: Book) {
    && (forall i :: 0 <= i < |b.items| && b.items[i].status == ItemCompleted ==>
          && b.items[i].batch < |b.batches|
          && b.batches[b.items[i].batch].reservation.Some?
          && b.items[i].currency in b.clearing
          && b.items[i].ledgerTx.Some?
          && b.batches[b.items[i].batch].reservation.value < b.items[i].ledgerTx.value < |txs|
          && txs[b.items[i].ledgerTx.value].correlation == L.ForPayrollItem(i)
          && txs[b.items[i].ledgerTx.value].txType == L.Transfer
          && txs[b.items[i].ledgerTx.value].lines == L.Stored(PayPosting(b, i).lines))
    && (forall t :: 0 <= t < |txs| && txs[t].correlation.ForPayrollItem? ==>
          && txs[t].correlation.item < |b.items|
          && b.items[txs[t].correlation.item].status == ItemCompleted
          && b.items[txs[t].correlation.item].ledgerTx == Some(t))
  }

  /** What the clearing account `x` still owes for item `i`: its amount, once funded and until paid. */
  function Owed(b: Book, x: L.AccountId, i: nat): nat
    requires i < |b.items|
  {
    var item := b.items[i];
    if item.batch < |b.batches| && b.batches[item.batch].reservation.Some? && item.status != ItemCompleted
       && item.currency in b.clearing && L.Row(b.clearing[item.currency]) == x
    then item.amount else 0
  }

  function OwedAll(b: Book, x: L.AccountId): seq<int> {
    seq(|b.items|, i requires 0 <= i < |b.items| => Owed(b, x, i))
  }

  /** Only payroll transactions name account `x`, and it is nobody's employer or employee account. */
  ghost predicate Dedicated(txs: seq<L.Transaction>, b: Book, x: L.AccountId) {
    && (forall t :: 0 <= t < |txs| && x in L.Touched(txs[t].lines) ==>
          txs[t].correlation.ForPayrollFunding? || txs[t].correlation.ForPayrollItem?)
    && (forall n :: 0 <= n < |b.batches| ==> b.batches[n].employer != x)
    && (forall i :: 0 <= i < |b.items| ==> b.items[i].employee != x)
  }

  /** Clearing solvency: a dedicated account holds exactly the unpaid items of all funded batches. */
  ghost predicate Solvent(txs: seq<L.Transaction>, b: Book) {
    forall x :: Dedicated(txs, b, x) ==> L.History(txs, x) == Sum(OwedAll(b, x))
  }

  ghost predicate Core(l: L.State, b: Book) {
    && L.Inv(l)
    && ItemsFit(b)
    && TotalsFit(b)
    && FundingMatches(l.transactions, b)
    && PayoutsMatch(l.transactions, b)
    && Solvent(l.transactions, b)
  }

  /** A processor that pays has seen the posted reservation. */
  ghost predicate PayersAreFunded(s: State) {
    forall p :: p in s.processors && (s.processors[p].phase.Paying? || s.processors[p].phase.PayErr?) ==>
      s.processors[p].batch < |s.book.batches| && s.book.batches[s.processors[p].batch].reservation.Some?
  }

  ghost predicate Inv(s: State) {
    Valid(s) && Core(s.ledger, s.book) && PayersAreFunded(s)
  }

  function EmptyBook(clearing: map<L.Currency, L.AccountRef>): Book {
    Book(clearing, [], [], [])
  }

  function Initial(clearing: map<L.Currency, L.AccountRef>): State {
    State(L.Empty, EmptyBook(clearing), map[])
  }
}
