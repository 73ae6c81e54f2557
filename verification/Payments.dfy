/**
 * Payments: an idempotency slot, the fraud gate and one ledger posting in a single transaction.
 * `Submit` is that transaction as a step: it commits a payment in a terminal status, or throws
 * and leaves everything as it was. The request fingerprint stands for the body itself. Account ids
 * are texts; a leg that is not spelled as the database spells it is never found again after locking.
 */
module Payments {
  import opened Basics
  import L = Ledger
  import LedgerLaws
  import Spellings
  import Fraud

  datatype PaymentType = InternalTransfer | Payout | Collection | FeeCharge
  datatype PaymentStatus = Pending | Processing | Completed | Failed
  datatype SlotStatus = SlotPending | SlotCompleted | SlotFailed

  /** The caller's tracing id; loans write `loan-disburse:<id>` and `loan-repay:<id>`. */
  datatype Trace = NoTrace | ClientTrace(text: string) | LoanDisburse(loan: nat) | LoanRepay(loan: nat)

  /** Everything in the request except the idempotency key and scope. `written` is the amount as text:
      the same amount written otherwise is another body. */
  datatype Body = Body(kind: PaymentType, reference: string, source: L.AccountRef, dest: L.AccountRef,
                       amount: nat, written: string, currency: L.Currency, trace: Trace, memo: Option<string>)

  datatype SlotKey = SlotKey(key: string, scope: string)
  datatype Request = Request(key: SlotKey, body: Body)
  datatype Slot = Slot(fingerprint: Body, status: SlotStatus, linked: Option<nat>)
  datatype Payment = Payment(slot: SlotKey, body: Body, status: PaymentStatus, ledgerTx: Option<L.TxId>)
  datatype Event = PaymentCreated(payment: nat) | PaymentCompleted(payment: nat) | PaymentFailed(payment: nat)

  datatype Book = Book(slots: map<SlotKey, Slot>, payments: seq<Payment>, outbox: seq<Event>)
  datatype State = State(ledger: L.State, book: Book)

  datatype SubmitError =
    | KeyUsedWithDifferentBody | OwnedAccountNotFound | NotOwner
    | LegNotFound | NotActive | WrongCurrency | FraudUnavailable
  datatype Outcome = Returned(payment: nat) | Thrown(error: SubmitError)

  // ---------- the step ----------

  function FindBySlot(payments: seq<Payment>, key: SlotKey): (r: Option<nat>)
    ensures r.Some? ==> r.value < |payments| && payments[r.value].slot == key
    ensures r.None? ==> forall p :: 0 <= p < |payments| ==> payments[p].slot != key
  {
    if payments == [] then None
    else if payments[|payments| - 1].slot == key then Some(|payments| - 1)
    else FindBySlot(payments[..|payments| - 1], key)
  }

  /** The slot and its payment, created when missing, with the `payment.created` row. */
  function Materialize(b: Book, r: Request): (Book, nat) {
    var found := FindBySlot(b.payments, r.key);
    if r.key in b.slots && found.Some? then (b, found.value)
    else
      var slot := if r.key in b.slots then b.slots[r.key] else Slot(r.body, SlotPending, None);
      if found.Some? then (b.(slots := b.slots[r.key := slot]), found.value)
      else
        var p := |b.payments|;
        (Book(b.slots[r.key := slot.(linked := Some(p))],
              b.payments + [Payment(r.key, r.body, Pending, None)],
              b.outbox + [PaymentCreated(p)]), p)
  }

  /** Only the owner of the debited account (for a collection: the credited one) may see or make it. */
  function OwnershipError(accounts: map<L.AccountId, L.Account>, b: Body, actor: nat): Option<SubmitError> {
    var a := L.Row(if b.kind == Collection then b.dest else b.source);
    if a !in accounts then Some(OwnedAccountNotFound)
    else if accounts[a].owner != actor then Some(NotOwner)
    else None
  }

  function LegsError(accounts: map<L.AccountId, L.Account>, b: Body): Option<SubmitError> {
    if L.Row(b.source) !in accounts || L.Row(b.dest) !in accounts then Some(LegNotFound)
    else if L.Row(b.source) != b.source || L.Row(b.dest) != b.dest then Some(LegNotFound)
    else if accounts[b.source].status != L.Active || accounts[b.dest].status != L.Active then Some(NotActive)
    else if accounts[b.source].currency != b.currency || accounts[b.dest].currency != b.currency then Some(WrongCurrency)
    else None
  }

  function LedgerPosting(b: Body, p: nat): L.Posting {
    L.RawPosting.Posting(if b.kind == FeeCharge then L.Fee else L.Payment, None, L.ForPayment(p),
                         L.TransferLines(b.source, b.dest, b.amount, b.currency), [None, None])
  }

  function MarkFailed(b: Book, p: nat): Book
    requires p < |b.payments| && b.payments[p].slot in b.slots
  {
    var key := b.payments[p].slot;
    Book(b.slots[key := b.slots[key].(status := SlotFailed)],
         b.payments[p := b.payments[p].(status := Failed)],
         b.outbox + [PaymentFailed(p)])
  }

  function MarkCompleted(b: Book, p: nat, tx: L.TxId): Book
    requires p < |b.payments| && b.payments[p].slot in b.slots
  {
    var key := b.payments[p].slot;
    Book(b.slots[key := b.slots[key].(status := SlotCompleted)],
         b.payments[p := b.payments[p].(status := Completed, ledgerTx := Some(tx))],
         b.outbox + [PaymentCompleted(p)])
  }

  /** The posting under the payment's own correlation id; a posting error becomes a FAILED payment. */
  function Settle(s: State, p: nat, b: Body): State
    requires p < |s.book.payments| && s.book.payments[p].slot in s.book.slots
  {
    var (ledger, r) := L.Post(s.ledger, LedgerPosting(b, p));
    State(ledger, if r.Rejected? then MarkFailed(s.book, p) else MarkCompleted(s.book, p, r.id))
  }

  function Submit(s: State, r: Request, actor: nat, fraud: Fraud.Evaluation): (result: (State, Outcome))
    ensures result.1.Returned? ==> result.1.payment < |result.0.book.payments|
  {
    if r.key in s.book.slots && s.book.slots[r.key].fingerprint != r.body then (s, Thrown(KeyUsedWithDifferentBody))
    else
      var (book, p) := Materialize(s.book, r);
      var payment := book.payments[p];
      var notOwned := OwnershipError(s.ledger.accounts, payment.body, actor);
      if notOwned.Some? then (s, Thrown(notOwned.value))
      else if payment.status == Completed || payment.status == Failed then (State(s.ledger, book), Returned(p))
      else
        var legs := LegsError(s.ledger.accounts, r.body);
        if legs.Some? then (s, Thrown(legs.value))
        else
          var decision := Fraud.Decide(fraud);
          if decision.None? then (s, Thrown(FraudUnavailable))
          else if decision.value != Fraud.Approved then (State(s.ledger, MarkFailed(book, p)), Returned(p))
          else (Settle(State(s.ledger, book), p, r.body), Returned(p))
  }

  datatype Action =
    | SubmitPayment(request: Request, actor: nat, fraud: Fraud.Evaluation)
    | OtherLedgerCommand(command: L.Command)

  /** Correlation ids other callers may post under. */
  predicate Foreign(c: L.Command) {
    match c
    case PostEntries(p) => !p.correlation.ForPayment?
    case ReverseTx(_, correlation) => !correlation.ForPayment?
    case _ => true
  }

  function Next(s: State, a: Action): State {
    match a
    case SubmitPayment(r, actor, fraud) => Submit(s, r, actor, fraud).0
    case OtherLedgerCommand(c) => if Foreign(c) then s.(ledger := L.Next(s.ledger, c)) else s
  }

  function Exec(s: State, actions: seq<Action>): State
    decreases |actions|
  {
    if actions == [] then s else Exec(Next(s, actions[0]), actions[1..])
  }

  const EmptyBook := Book(map[], [], [])
  const Empty := State(L.Empty, EmptyBook)

  // ---------- the invariant ----------

  predicate Terminal(p: Payment) {
    p.status == Completed || p.status == Failed
  }

  ghost predicate SlotsMatch(b: Book) {
    && (forall p :: 0 <= p < |b.payments| ==>
          && Terminal(b.payments[p])
          && b.payments[p].slot in b.slots
          && b.slots[b.payments[p].slot] ==
               Slot(b.payments[p].body, if b.payments[p].status == Completed then SlotCompleted else SlotFailed, Some(p)))
    && (forall k :: k in b.slots ==>
          b.slots[k].linked.Some? && b.slots[k].linked.value < |b.payments| && b.payments[b.slots[k].linked.value].slot == k)
  }

  /** COMPLETED payments and `payment:<id>` transactions are the same thing; FAILED ones have none. */
  ghost predicate LedgerMatches(txs: seq<L.Transaction>, b: Book) {
    && (forall p :: 0 <= p < |b.payments| && b.payments[p].status == Completed ==>
          && b.payments[p].ledgerTx.Some?
          && b.payments[p].ledgerTx.value < |txs|
          && txs[b.payments[p].ledgerTx.value].correlation == L.ForPayment(p)
          && txs[b.payments[p].ledgerTx.value].txType == LedgerPosting(b.payments[p].body, p).txType
          && txs[b.payments[p].ledgerTx.value].lines == L.Stored(LedgerPosting(b.payments[p].body, p).lines))
    && (forall i :: 0 <= i < |txs| && txs[i].correlation.ForPayment? ==>
          && txs[i].correlation.payment < |b.payments|
          && b.payments[txs[i].correlation.payment].status == Completed
          && b.payments[txs[i].correlation.payment].ledgerTx == Some(i))
  }

  /** Who may make a payment and see it: the owner of the account it debits; of a collection, the owner of the
      account it credits. */
  ghost predicate OwnedBy(accounts: map<L.AccountId, L.Account>, b: Body, actor: nat) {
    && (b.kind != Collection ==> L.Row(b.source) in accounts && accounts[L.Row(b.source)].owner == actor)
    && (b.kind == Collection ==> L.Row(b.dest) in accounts && accounts[L.Row(b.dest)].owner == actor)
  }

  ghost predicate EventsMatch(b: Book) {
    && (forall e :: e in b.outbox ==> e.payment < |b.payments|)
    && (forall p :: 0 <= p < |b.payments| ==>
          && multiset(b.outbox)[PaymentCreated(p)] == 1
          && multiset(b.outbox)[PaymentCompleted(p)] == (if b.payments[p].status == Completed then 1 else 0)
          && multiset(b.outbox)[PaymentFailed(p)] == (if b.payments[p].status == Failed then 1 else 0))
  }

  ghost predicate Inv(s: State) {
    && L.Inv(s.ledger)
    && SlotsMatch(s.book)
    && LedgerMatches(s.ledger.transactions, s.book)
    && EventsMatch(s.book)
  }

  // ---------- preservation ----------

  /** What a submission under a new key turns the book into. */
  function Added(b: Book, r: Request, tx: Option<L.TxId>): Book {
    var p := |b.payments|;
    Book(b.slots[r.key := Slot(r.body, if tx.Some? then SlotCompleted else SlotFailed, Some(p))],
         b.payments + [Payment(r.key, r.body, if tx.Some? then Completed else Failed, tx)],
         b.outbox + [PaymentCreated(p)] + [if tx.Some? then PaymentCompleted(p) else PaymentFailed(p)])
  }

  lemma FreshPosting(s: State, b: Body)
    requires LedgerMatches(s.ledger.transactions, s.book)
    ensures !L.Post(s.ledger, LedgerPosting(b, |s.book.payments|)).1.Replayed?
  {
  }

  /** A used key: the stored payment is returned, or the call throws; nothing changes. */
  lemma UsedKeyChangesNothing(s: State, r: Request, actor: nat, fraud: Fraud.Evaluation)
    requires SlotsMatch(s.book) && r.key in s.book.slots
    ensures var (t, o) := Submit(s, r, actor, fraud);
            var p := s.book.slots[r.key].linked.value;
            && t == s
            && (o.Returned? <==> s.book.payments[p].body == r.body && OwnedBy(s.ledger.accounts, r.body, actor))
            && (o.Returned? ==> o == Returned(p))
            && (s.book.payments[p].body != r.body ==> o == Thrown(KeyUsedWithDifferentBody))
  {
  }

  lemma FreshBook(b: Book, r: Request, tx: L.TxId)
    requires SlotsMatch(b) && r.key !in b.slots
    ensures var (m, p) := Materialize(b, r);
            && p == |b.payments| && p < |m.payments|
            && m.payments[p] == Payment(r.key, r.body, Pending, None)
            && r.key in m.slots
            && MarkFailed(m, p) == Added(b, r, None)
            && MarkCompleted(m, p, tx) == Added(b, r, Some(tx))
  {
  }

  /** A new key: the call throws without effect, or adds one payment that is already terminal.
      It is COMPLETED exactly when fraud approves and the ledger accepts the posting. */
  lemma FreshKeyCases(s: State, r: Request, actor: nat, fraud: Fraud.Evaluation)
    requires SlotsMatch(s.book) && LedgerMatches(s.ledger.transactions, s.book) && r.key !in s.book.slots
    ensures var (t, o) := Submit(s, r, actor, fraud);
            var n := |s.book.payments|;
            var (posted, result) := L.Post(s.ledger, LedgerPosting(r.body, n));
            var decision := Fraud.Decide(fraud);
            var refused := OwnershipError(s.ledger.accounts, r.body, actor).Some?
                           || LegsError(s.ledger.accounts, r.body).Some? || decision.None?;
            if refused then o.Thrown? && t == s
            else if decision == Some(Fraud.Approved) && result.Posted? then
              o == Returned(n) && t == State(posted, Added(s.book, r, Some(result.id)))
            else
              o == Returned(n) && t == State(s.ledger, Added(s.book, r, None))
  {
    FreshPosting(s, r.body);
    var (posted, result) := L.Post(s.ledger, LedgerPosting(r.body, |s.book.payments|));
    LedgerLaws.PostExtends(s.ledger, LedgerPosting(r.body, |s.book.payments|));
    FreshBook(s.book, r, if result.Posted? then result.id else 0);
    hide L.Post, LegsError, OwnershipError, Materialize, MarkFailed, MarkCompleted, Added, LedgerPosting, SlotsMatch, LedgerMatches, Fraud.Decide;
  }

  lemma AddedSlots(b: Book, r: Request, tx: Option<L.TxId>)
    requires SlotsMatch(b) && r.key !in b.slots
    ensures SlotsMatch(Added(b, r, tx))
  {
  }

  lemma AddedEvents(b: Book, r: Request, tx: Option<L.TxId>)
    requires EventsMatch(b)
    ensures EventsMatch(Added(b, r, tx))
  {
  }

  lemma AddedUnposted(txs: seq<L.Transaction>, b: Book, r: Request)
    requires LedgerMatches(txs, b)
    ensures LedgerMatches(txs, Added(b, r, None))
  {
  }

  lemma AddedPosted(txs: seq<L.Transaction>, b: Book, r: Request, tx: L.Transaction)
    requires LedgerMatches(txs, b)
    requires tx.txType == LedgerPosting(r.body, |b.payments|).txType
    requires tx.correlation == L.ForPayment(|b.payments|) && tx.lines == L.Stored(LedgerPosting(r.body, |b.payments|).lines)
    ensures LedgerMatches(txs + [tx], Added(b, r, Some(|txs|)))
  {
  }

  lemma PostedPaymentKeepsInv(s: State, r: Request)
    requires Inv(s) && r.key !in s.book.slots
    requires L.Post(s.ledger, LedgerPosting(r.body, |s.book.payments|)).1.Posted?
    ensures var (posted, result) := L.Post(s.ledger, LedgerPosting(r.body, |s.book.payments|));
            Inv(State(posted, Added(s.book, r, Some(result.id))))
  {
    hide L.Post, L.Inv, SlotsMatch, EventsMatch, LedgerMatches, Added;
    var posting := LedgerPosting(r.body, |s.book.payments|);
    var (posted, result) := L.Post(s.ledger, posting);
    LedgerLaws.PostKeepsInv(s.ledger, posting);
    LedgerLaws.PostExtends(s.ledger, posting);
    LedgerLaws.PostStores(s.ledger, posting);
    AddedSlots(s.book, r, Some(result.id));
    AddedEvents(s.book, r, Some(result.id));
    var tx := posted.transactions[result.id];
    AddedPosted(s.ledger.transactions, s.book, r, tx);
    assert posted.transactions == s.ledger.transactions + [tx];
  }

  lemma SubmitKeepsInv(s: State, r: Request, actor: nat, fraud: Fraud.Evaluation)
    requires Inv(s)
    ensures Inv(Submit(s, r, actor, fraud).0)
  {
    hide L.Post, L.Inv, Submit, SlotsMatch, EventsMatch, LedgerMatches, Added, LegsError, OwnershipError, LedgerPosting;
    if r.key in s.book.slots {
      UsedKeyChangesNothing(s, r, actor, fraud);
    } else {
      FreshKeyCases(s, r, actor, fraud);
      AddedSlots(s.book, r, None);
      AddedEvents(s.book, r, None);
      AddedUnposted(s.ledger.transactions, s.book, r);
      if L.Post(s.ledger, LedgerPosting(r.body, |s.book.payments|)).1.Posted? {
        PostedPaymentKeepsInv(s, r);
      }
    }
  }

  /** Whatever else happens on the ledger, as long as it is not posted as a payment, suits the book. */
  lemma LaterLedgerKeepsInv(s: State, later: L.State)
    requires Inv(s) && L.Inv(later) && L.Extends(s.ledger, later)
    requires forall i :: |s.ledger.transactions| <= i < |later.transactions| ==> !later.transactions[i].correlation.ForPayment?
    ensures Inv(State(later, s.book))
  {
  }

  lemma ForeignCommand(l: L.State, c: L.Command)
    requires Foreign(c)
    ensures forall i :: |l.transactions| <= i < |L.Next(l, c).transactions| ==>
              !L.Next(l, c).transactions[i].correlation.ForPayment?
  {
  }

  lemma NextKeepsInv(s: State, a: Action)
    requires Inv(s)
    ensures Inv(Next(s, a))
  {
    match a {
      case SubmitPayment(r, actor, fraud) => SubmitKeepsInv(s, r, actor, fraud);
      case OtherLedgerCommand(c) =>
        if Foreign(c) {
          LedgerLaws.NextKeepsInv(s.ledger, c);
          LedgerLaws.NextExtends(s.ledger, c);
          ForeignCommand(s.ledger, c);
          LaterLedgerKeepsInv(s, L.Next(s.ledger, c));
        }
    }
  }

  lemma {:induction false} ExecKeepsInv(s: State, actions: seq<Action>)
    requires Inv(s)
    ensures Inv(Exec(s, actions))
    decreases |actions|
  {
    if actions != [] {
      NextKeepsInv(s, actions[0]);
      ExecKeepsInv(Next(s, actions[0]), actions[1..]);
    }
  }

  // ---------- what a caller can rely on ----------

  ghost function PostedFor(txs: seq<L.Transaction>, p: nat): set<L.TxId> {
    set i | 0 <= i < |txs| && txs[i].correlation == L.ForPayment(p)
  }

  /** A FAILED payment has no ledger transaction. A COMPLETED one has exactly one, which takes its amount from
      its source to its destination, as a fee or as a payment. Both have one `payment.created` and one
      terminal outbox row, of their own outcome. */
  lemma PaymentOutcome(s: State, p: nat)
    requires Inv(s) && p < |s.book.payments|
    ensures var payment, txs := s.book.payments[p], s.ledger.transactions;
            var b, events := payment.body, multiset(s.book.outbox);
            && (payment.status == Failed || payment.status == Completed)
            && (payment.status == Failed ==> PostedFor(txs, p) == {})
            && (payment.status == Completed ==>
                  && payment.ledgerTx.Some? && PostedFor(txs, p) == {payment.ledgerTx.value}
                  && var tx := txs[payment.ledgerTx.value];
                     && tx.txType == (if b.kind == FeeCharge then L.Fee else L.Payment) && tx.reverses.None?
                     && tx.lines == [L.Line(L.Row(b.source), L.Debit, b.amount, b.currency), L.Line(L.Row(b.dest), L.Credit, b.amount, b.currency)])
            && events[PaymentCreated(p)] == 1
            && events[PaymentCompleted(p)] == (if payment.status == Completed then 1 else 0)
            && events[PaymentFailed(p)] == (if payment.status == Failed then 1 else 0)
  {
    var b := s.book.payments[p].body;
    LedgerLaws.StoredTransfer(b.source, b.dest, b.amount, b.currency);
    hide L.Row, L.Stored, L.WithinLimits, L.AllWellPosted;
  }

  /** Every reachable payment state satisfies the invariant, hence PaymentOutcome. */
  lemma ReachablePayments(actions: seq<Action>)
    ensures Inv(Exec(Empty, actions))
  {
    assert Inv(Empty);
    ExecKeepsInv(Empty, actions);
  }

  /** One payment per (key, scope). */
  lemma OnePaymentPerSlot(s: State, p: nat, q: nat)
    requires Inv(s) && p < |s.book.payments| && q < |s.book.payments|
    requires s.book.payments[p].slot == s.book.payments[q].slot
    ensures p == q
  {
  }

  /** Owners and stored payments never change afterwards. */
  ghost predicate Later(s: State, t: State) {
    && L.Extends(s.ledger, t.ledger)
    && s.book.payments <= t.book.payments
    && forall k :: k in s.book.slots ==> k in t.book.slots && t.book.slots[k] == s.book.slots[k]
  }

  lemma NextIsLater(s: State, a: Action)
    requires Inv(s)
    ensures Later(s, Next(s, a))
  {
    hide L.Post, L.Inv, Submit, SlotsMatch, EventsMatch, LedgerMatches, LegsError, OwnershipError, L.Next, L.Extends;
    match a {
      case SubmitPayment(r, actor, fraud) =>
        LedgerLaws.SelfExtends(s.ledger);
        if r.key in s.book.slots {
          UsedKeyChangesNothing(s, r, actor, fraud);
        } else {
          FreshKeyCases(s, r, actor, fraud);
          LedgerLaws.PostExtends(s.ledger, LedgerPosting(r.body, |s.book.payments|));
        }
      case OtherLedgerCommand(c) =>
        LedgerLaws.NextExtends(s.ledger, c);
        LedgerLaws.SelfExtends(s.ledger);
    }
  }

  lemma {:induction false} ExecIsLater(s: State, actions: seq<Action>)
    requires Inv(s)
    ensures Later(s, Exec(s, actions))
    decreases |actions|
  {
    if actions == [] {
      LedgerLaws.SelfExtends(s.ledger);
    } else {
      var t := Next(s, actions[0]);
      NextKeepsInv(s, actions[0]);
      NextIsLater(s, actions[0]);
      ExecIsLater(t, actions[1..]);
      LedgerLaws.ExtendsTransitive(s.ledger, t.ledger, Exec(s, actions).ledger);
    }
  }

  /** Idempotency over whole runs: once a request has produced a payment, then after anything else
      the same request by the same caller returns that payment and changes nothing, whatever fraud
      would say now; the same key with another body is refused without effect. */
  lemma RetriesAreSafe(s: State, r: Request, actor: nat, fraud: Fraud.Evaluation, between: seq<Action>,
                       other: Body, actor2: nat, fraud2: Fraud.Evaluation)
    requires Inv(s) && Submit(s, r, actor, fraud).1.Returned? && other != r.body
    ensures var (t, o) := Submit(s, r, actor, fraud);
            var u := Exec(t, between);
            && Submit(u, r, actor, fraud2) == (u, o)
            && o.payment < |t.book.payments| && o.payment < |u.book.payments|
            && u.book.payments[o.payment] == t.book.payments[o.payment]
            && Submit(u, Request(r.key, other), actor2, fraud2) == (u, Thrown(KeyUsedWithDifferentBody))
  {
    var (t, o) := Submit(s, r, actor, fraud);
    var u := Exec(t, between);
    SubmitKeepsInv(s, r, actor, fraud);
    ReturnedIsStored(s, r, actor, fraud);
    ExecKeepsInv(t, between);
    ExecIsLater(t, between);
    OwnershipLasts(t.ledger, u.ledger, r.body, actor);
    UsedKeyChangesNothing(u, r, actor, fraud2);
    UsedKeyChangesNothing(u, Request(r.key, other), actor2, fraud2);
    hide L.Inv, LedgerMatches, EventsMatch, SlotsMatch, Submit, L.Extends, OwnershipError, Exec;
  }

  lemma ReturnedIsStored(s: State, r: Request, actor: nat, fraud: Fraud.Evaluation)
    requires Inv(s) && Submit(s, r, actor, fraud).1.Returned?
    ensures var (t, o) := Submit(s, r, actor, fraud);
            && r.key in t.book.slots && t.book.slots[r.key].linked == Some(o.payment)
            && o.payment < |t.book.payments| && t.book.payments[o.payment].body == r.body
            && OwnedBy(t.ledger.accounts, r.body, actor)
  {
    hide L.Post, Submit, LegsError, L.Inv, EventsMatch, LedgerMatches;
    if r.key in s.book.slots {
      UsedKeyChangesNothing(s, r, actor, fraud);
    } else {
      FreshKeyCases(s, r, actor, fraud);
      LedgerLaws.PostExtends(s.ledger, LedgerPosting(r.body, |s.book.payments|));
    }
  }

  lemma OwnershipLasts(l: L.State, later: L.State, b: Body, actor: nat)
    requires L.Extends(l, later) && OwnedBy(l.accounts, b, actor)
    ensures OwnedBy(later.accounts, b, actor)
  {
  }

  /** The fraud gate end to end: a submission moves money only if the evaluation finished, was
      stored, and all five rules reported without an ERROR or an alarm above APPROVED. */
  lemma MoneyMovesOnlyIfApproved(s: State, r: Request, actor: nat, fraud: Fraud.Evaluation)
    requires Inv(s) && Submit(s, r, actor, fraud).0.ledger != s.ledger
    ensures fraud.persisted && fraud.run.Finished?
    ensures forall x :: x in [fraud.run.velocity, fraud.run.large, fraud.run.device, fraud.run.hour, fraud.run.recipient] ==>
              x.outcome == Fraud.NotTriggered || (x.outcome == Fraud.Triggered && x.recommended == Fraud.Approved)
  {
    hide L.Post, Submit, LegsError, OwnershipError, L.Inv, EventsMatch;
    if r.key in s.book.slots {
      UsedKeyChangesNothing(s, r, actor, fraud);
    } else {
      FreshKeyCases(s, r, actor, fraud);
    }
    Fraud.ApprovalIsProven(fraud);
  }

  /** The condition on the two legs: both spelled as the database spells them, active and in the currency. */
  ghost predicate LegsReady(accounts: map<L.AccountId, L.Account>, b: Body) {
    forall x :: x in {b.source, b.dest} ==>
      L.Row(x) == x && x in accounts && accounts[x].status == L.Active && accounts[x].currency == b.currency
  }

  /** A new payment completes exactly when its caller owns the debited account (of a collection: the
      credited one), both legs are ready, the evaluation was stored and finished with all five rules clean,
      and (unless it pays itself) the source can go down by the amount. */
  lemma FreshPaymentCompletesExactly(s: State, r: Request, actor: nat, fraud: Fraud.Evaluation)
    requires Inv(s) && r.key !in s.book.slots
    ensures var (t, o) := Submit(s, r, actor, fraud);
            var b, accounts := r.body, s.ledger.accounts;
            (o.Returned? && t.book.payments[o.payment].status == Completed) <==>
            && (b.kind != Collection ==> L.Row(b.source) in accounts && accounts[L.Row(b.source)].owner == actor)
            && (b.kind == Collection ==> L.Row(b.dest) in accounts && accounts[L.Row(b.dest)].owner == actor)
            && (forall x :: x in {b.source, b.dest} ==>
                  L.Row(x) == x && x in accounts && accounts[x].status == L.Active && accounts[x].currency == b.currency)
            && fraud.persisted && fraud.run.Finished?
            && (forall x :: x in [fraud.run.velocity, fraud.run.large, fraud.run.device, fraud.run.hour, fraud.run.recipient] ==>
                  x.outcome == Fraud.NotTriggered || (x.outcome == Fraud.Triggered && x.recommended == Fraud.Approved))
            && (b.source == b.dest || accounts[b.source].available - b.amount >= 0 - accounts[b.source].overdraft)
  {
    FreshKeyCases(s, r, actor, fraud);
    Fraud.ApprovalIsProven(fraud);
    OwnersAndLegs(s.ledger.accounts, r.body, actor);
    if LegsError(s.ledger.accounts, r.body).None? {
      TransferAccepted(s.ledger, r.body, |s.book.payments|);
      assert L.FindCorrelation(s.ledger.transactions, L.ForPayment(|s.book.payments|)).None?;
    }
    hide L.Post, Submit, L.Inv, EventsMatch, SlotsMatch, LedgerMatches, LegsError, OwnershipError, Fraud.Decide, L.Row;
  }

  /** The ownership and leg checks, each refusal in exactly its own case. */
  lemma OwnersAndLegs(accounts: map<L.AccountId, L.Account>, b: Body, actor: nat)
    ensures OwnershipError(accounts, b, actor).None? <==> OwnedBy(accounts, b, actor)
    ensures OwnershipError(accounts, b, actor) == Some(OwnedAccountNotFound) <==>
              (b.kind != Collection && L.Row(b.source) !in accounts) || (b.kind == Collection && L.Row(b.dest) !in accounts)
    ensures OwnershipError(accounts, b, actor) == Some(NotOwner) <==>
              || (b.kind != Collection && L.Row(b.source) in accounts && accounts[L.Row(b.source)].owner != actor)
              || (b.kind == Collection && L.Row(b.dest) in accounts && accounts[L.Row(b.dest)].owner != actor)
    ensures LegsError(accounts, b).None? <==> LegsReady(accounts, b)
    ensures LegsError(accounts, b) == Some(LegNotFound) <==>
              !(L.Row(b.source) == b.source && b.source in accounts && L.Row(b.dest) == b.dest && b.dest in accounts)
    ensures (forall x :: x in {b.source, b.dest} ==> L.Row(x) == x && x in accounts) ==>
              && (LegsError(accounts, b) == Some(NotActive) <==> !forall x :: x in {b.source, b.dest} ==> accounts[x].status == L.Active)
              && (LegsError(accounts, b) == Some(WrongCurrency) <==>
                    && (forall x :: x in {b.source, b.dest} ==> accounts[x].status == L.Active)
                    && !forall x :: x in {b.source, b.dest} ==> accounts[x].currency == b.currency)
  {
    hide L.Row;
    assert b.source in {b.source, b.dest} && b.dest in {b.source, b.dest};
  }

  /** A call that throws has no effect. Under a new key, a caller who does not own the account is refused first,
      then legs that are not ready, then a decision that could not be stored. */
  lemma SubmitRefusals(s: State, r: Request, actor: nat, fraud: Fraud.Evaluation)
    requires Inv(s)
    ensures Submit(s, r, actor, fraud).1.Thrown? ==> Submit(s, r, actor, fraud).0 == s
    ensures !OwnedBy(s.ledger.accounts, r.body, actor) ==> Submit(s, r, actor, fraud).1.Thrown?
    ensures r.key !in s.book.slots ==>
              var o, accounts := Submit(s, r, actor, fraud).1, s.ledger.accounts;
              && (!OwnedBy(accounts, r.body, actor) ==> o == Thrown(OwnershipError(accounts, r.body, actor).value))
              && (OwnedBy(accounts, r.body, actor) && !LegsReady(accounts, r.body) ==> o == Thrown(LegsError(accounts, r.body).value))
              && (OwnedBy(accounts, r.body, actor) && LegsReady(accounts, r.body) && !fraud.persisted ==> o == Thrown(FraudUnavailable))
              && (OwnedBy(accounts, r.body, actor) && LegsReady(accounts, r.body) && fraud.persisted ==> o.Returned?)
    ensures r.key in s.book.slots && OwnedBy(s.ledger.accounts, s.book.slots[r.key].fingerprint, actor) ==>
              var o := Submit(s, r, actor, fraud).1;
              if s.book.slots[r.key].fingerprint == r.body then o.Returned? else o == Thrown(KeyUsedWithDifferentBody)
  {
    OwnersAndLegs(s.ledger.accounts, r.body, actor);
    if r.key in s.book.slots {
      UsedKeyChangesNothing(s, r, actor, fraud);
      FingerprintIsBody(s, r.key);
    } else {
      FreshKeyCases(s, r, actor, fraud);
      FreshRefusals(s, r, actor, fraud);
    }
    hide L.Post, Submit, L.Inv, EventsMatch, SlotsMatch, LedgerMatches, LegsError, OwnershipError, OwnedBy, LegsReady;
  }

  lemma FingerprintIsBody(s: State, key: SlotKey)
    requires SlotsMatch(s.book) && key in s.book.slots
    ensures s.book.payments[s.book.slots[key].linked.value].body == s.book.slots[key].fingerprint
  {
  }

  lemma FreshRefusals(s: State, r: Request, actor: nat, fraud: Fraud.Evaluation)
    requires SlotsMatch(s.book) && r.key !in s.book.slots
    ensures var o, accounts := Submit(s, r, actor, fraud).1, s.ledger.accounts;
            var notOwned, legs := OwnershipError(accounts, r.body, actor), LegsError(accounts, r.body);
            && (notOwned.Some? ==> o == Thrown(notOwned.value))
            && (notOwned.None? && legs.Some? ==> o == Thrown(legs.value))
            && (notOwned.None? && legs.None? && !fraud.persisted ==> o == Thrown(FraudUnavailable))
  {
    FreshBook(s.book, r, 0);
    hide L.Post, LegsError, OwnershipError, Materialize, MarkFailed, MarkCompleted, Added, LedgerPosting, SlotsMatch;
  }

  /** What a submission under a new key writes when it returns: one payment, its slot, two events, and exactly
      when it is COMPLETED one ledger transaction from its source to its destination. */
  lemma FreshPaymentWrites(s: State, r: Request, actor: nat, fraud: Fraud.Evaluation)
    requires Inv(s) && r.key !in s.book.slots && Submit(s, r, actor, fraud).1.Returned?
    ensures var (t, o) := Submit(s, r, actor, fraud);
            var n, b := |s.book.payments|, r.body;
            && o == Returned(n) && n < |t.book.payments|
            && var completed := t.book.payments[n].status == Completed;
               var tx := if completed then Some(|s.ledger.transactions|) else None;
               && t.book.payments == s.book.payments + [Payment(r.key, b, if completed then Completed else Failed, tx)]
               && t.book.slots == s.book.slots[r.key := Slot(b, if completed then SlotCompleted else SlotFailed, Some(n))]
               && t.book.outbox == s.book.outbox + [PaymentCreated(n), if completed then PaymentCompleted(n) else PaymentFailed(n)]
               && (!completed ==> t.ledger == s.ledger)
               && (completed ==>
                     t.ledger.transactions == s.ledger.transactions +
                       [L.StoredTx.Transaction(if b.kind == FeeCharge then L.Fee else L.Payment, None, L.ForPayment(n),
                          [L.Line(L.Row(b.source), L.Debit, b.amount, b.currency), L.Line(L.Row(b.dest), L.Credit, b.amount, b.currency)],
                          [1, 2])])
  {
    hide L.Post, Submit, L.Inv, EventsMatch, LedgerMatches, LegsError, OwnershipError, LedgerPosting, L.Row, Fraud.Decide, SlotsMatch;
    FreshKeyCases(s, r, actor, fraud);
    if L.Post(s.ledger, LedgerPosting(r.body, |s.book.payments|)).1.Posted? {
      PaymentPosted(s.ledger, r.body, |s.book.payments|);
    }
    Regroup(s.book.outbox, [PaymentCreated(|s.book.payments|)], [PaymentCompleted(|s.book.payments|)]);
    Regroup(s.book.outbox, [PaymentCreated(|s.book.payments|)], [PaymentFailed(|s.book.payments|)]);
  }

  lemma PaymentPosted(l: L.State, b: Body, n: nat)
    requires L.Post(l, LedgerPosting(b, n)).1.Posted?
    ensures L.Post(l, LedgerPosting(b, n)).1.id == |l.transactions|
    ensures L.Post(l, LedgerPosting(b, n)).0.transactions == l.transactions +
              [L.StoredTx.Transaction(if b.kind == FeeCharge then L.Fee else L.Payment, None, L.ForPayment(n),
                 [L.Line(L.Row(b.source), L.Debit, b.amount, b.currency), L.Line(L.Row(b.dest), L.Credit, b.amount, b.currency)],
                 [1, 2])]
  {
    hide L.Post, L.Row;
    LedgerLaws.PostStores(l, LedgerPosting(b, n));
    var t := L.Post(l, LedgerPosting(b, n)).0;
    var tx := t.transactions[|l.transactions|];
    assert t.transactions == l.transactions + [tx];
    assert |tx.lines| == 2 && tx.lines == [tx.lines[0], tx.lines[1]] && tx.numbers == [1, 2];
  }

  lemma TransferAccepted(l: L.State, b: Body, p: nat)
    requires L.WithinLimits(l) && LegsError(l.accounts, b).None?
    requires L.FindCorrelation(l.transactions, L.ForPayment(p)).None?
    ensures L.Post(l, LedgerPosting(b, p)).1.Posted? <==>
            b.source == b.dest || l.accounts[b.source].available - b.amount >= 0 - l.accounts[b.source].overdraft
  {
    hide L.Post, L.Net, L.Touched, L.Balanced, L.Row, L.FindCorrelation;
    LedgerLaws.TransferEffects(b.source, b.dest, b.amount, b.currency);
    LedgerLaws.TransferPosts(l, LedgerPosting(b, p), b.source, b.dest, b.amount, b.currency);
    var lines := LedgerPosting(b, p).lines;
    assert lines[0].account == b.source && lines[1].account == b.dest;
  }

  // ---------- spellings and owners ----------

  /** Only legs in the database's own spelling get as far as the ledger, so a payment never loses anything. */
  lemma SubmitKeepsAgreement(s: State, r: Request, actor: nat, fraud: Fraud.Evaluation)
    requires Inv(s) && L.Agrees(s.ledger)
    ensures L.Agrees(Submit(s, r, actor, fraud).0.ledger)
  {
    hide L.Post, L.Agrees, Submit, Spellings.Agreeing, L.Row, L.Inv, EventsMatch, OwnershipError, Fraud.Decide;
    if r.key in s.book.slots {
      UsedKeyChangesNothing(s, r, actor, fraud);
    } else {
      FreshKeyCases(s, r, actor, fraud);
      if LegsError(s.ledger.accounts, r.body).None? {
        var p := LedgerPosting(r.body, |s.book.payments|);
        Spellings.RowsAreOneSpelling(p.lines);
        Spellings.OneSpellingLosesNothing(p.lines);
        Spellings.PostAgrees(s.ledger, p);
      }
    }
  }

  /** `a` submitted the payment of transaction `i`, by the owner of the account that pays (for a
      collection: that receives). */
  ghost predicate Submitted(t: State, a: Action, i: L.TxId) {
    && i < |t.ledger.transactions| && t.ledger.transactions[i].correlation.ForPayment?
    && var p := t.ledger.transactions[i].correlation.payment;
       && a.SubmitPayment? && p < |t.book.payments| && t.book.payments[p].body == a.request.body
       && var b, accounts := a.request.body, t.ledger.accounts;
          && (b.kind != Collection ==> L.Row(b.source) in accounts && accounts[L.Row(b.source)].owner == a.actor)
          && (b.kind == Collection ==> L.Row(b.dest) in accounts && accounts[L.Row(b.dest)].owner == a.actor)
  }

  lemma StillSubmitted(s: State, t: State, a: Action, i: L.TxId)
    requires Submitted(s, a, i) && Later(s, t)
    ensures Submitted(t, a, i)
  {
    OwnershipLasts(s.ledger, t.ledger, a.request.body, a.actor);
    assert t.ledger.transactions[i] == s.ledger.transactions[i];
    hide OwnershipError;
  }

  lemma NewPaymentIsSubmitted(s: State, a: Action, i: L.TxId)
    requires Inv(s) && |s.ledger.transactions| <= i < |Next(s, a).ledger.transactions|
    requires Next(s, a).ledger.transactions[i].correlation.ForPayment?
    ensures Submitted(Next(s, a), a, i)
  {
    hide L.Post, L.Inv, Submit, EventsMatch, LegsError, OwnershipError, L.Next, SlotsMatch;
    match a {
      case SubmitPayment(r, actor, fraud) =>
        if r.key in s.book.slots {
          UsedKeyLeavesLedger(s, r, actor, fraud);
        } else {
          FreshKeyCases(s, r, actor, fraud);
          LedgerLaws.PostExtends(s.ledger, LedgerPosting(r.body, |s.book.payments|));
          OwnersAndLegs(s.ledger.accounts, r.body, actor);
          OwnershipLasts(s.ledger, L.Post(s.ledger, LedgerPosting(r.body, |s.book.payments|)).0, r.body, actor);
        }
      case OtherLedgerCommand(c) =>
        if Foreign(c) {
          ForeignCommand(s.ledger, c);
        }
    }
  }

  lemma UsedKeyLeavesLedger(s: State, r: Request, actor: nat, fraud: Fraud.Evaluation)
    requires Inv(s) && r.key in s.book.slots
    ensures Submit(s, r, actor, fraud).0 == s
  {
    UsedKeyChangesNothing(s, r, actor, fraud);
  }

  /** Over whole runs: behind every payment on the ledger stands a submission of that very body by the
      owner of the account it debits (for a collection: credits). */
  lemma {:induction false} PaidByItsOwner(s: State, actions: seq<Action>, i: L.TxId)
    requires Inv(s) && |s.ledger.transactions| <= i < |Exec(s, actions).ledger.transactions|
    requires Exec(s, actions).ledger.transactions[i].correlation.ForPayment?
    ensures exists k :: 0 <= k < |actions| && Submitted(Exec(s, actions), actions[k], i)
    decreases |actions|
  {
    var t := Next(s, actions[0]);
    NextKeepsInv(s, actions[0]);
    ExecIsLater(t, actions[1..]);
    hide Inv, Next, Submitted;
    if i < |t.ledger.transactions| {
      assert Exec(s, actions).ledger.transactions[i] == t.ledger.transactions[i];
      NewPaymentIsSubmitted(s, actions[0], i);
      StillSubmitted(t, Exec(s, actions), actions[0], i);
    } else {
      PaidByItsOwner(t, actions[1..], i);
      var k :| 0 <= k < |actions[1..]| && Submitted(Exec(s, actions), actions[1..][k], i);
      assert actions[k + 1] == actions[1..][k];
    }
  }
}
