/**
 * FX rate locks and international transfers: a lock is consumed, a trade written and four ledger legs
 * posted in one transaction, beside a sweeper that expires locks. The converted amount is an input.
 */
module Fx {
  import opened Basics
  import L = Ledger
  import LedgerLaws
  import Money
  import Spellings

  datatype LockStatus = LockPending | LockActive | Consumed | Expired | LockCancelled
  datatype TradeStatus = TradePending | TradeCompleted | TradeFailed | TradeCancelled

  datatype RateLock = RateLock(user: nat, source: L.Currency, target: L.Currency, amount: nat,
                               expiresAt: int, consumedAt: Option<int>, status: LockStatus)

  datatype Trade = Trade(user: nat, rateLock: nat, sourceAmount: nat, source: L.Currency,
                         targetAmount: nat, target: L.Currency, status: TradeStatus)

  datatype Event = RateLocked(rateLock: nat) | RateExpired(rateLock: nat) | Executed(trade: nat) | TransferCreated(trade: nat)

  /** `settlement` is the configured house account per currency, as text. */
  datatype Book = Book(settlement: map<L.Currency, L.AccountRef>, locks: seq<RateLock>, trades: seq<Trade>, outbox: seq<Event>)
  datatype State = State(ledger: L.State, book: Book)

  /** `amount` is the request's text; it is compared with the stored text, not by value. */
  datatype Request = Request(rateLock: nat, amount: string, source: L.AccountRef, dest: L.AccountRef)

  datatype FxError =
    | LockNotFound | NotYours | LockNotActive | LockExpired | AmountMismatch | AlreadyTraded
    | NotConfigured | LedgerRefused(error: L.PostError)
  datatype Outcome = Executed(trade: nat) | Thrown(error: FxError)

  function LockRate(s: State, user: nat, source: L.Currency, target: L.Currency, amount: nat, expiresAt: int): State {
    s.(book := s.book.(locks := s.book.locks + [RateLock(user, source, target, amount, expiresAt, None, LockActive)],
                       outbox := s.book.outbox + [RateLocked(|s.book.locks|)]))
  }

  /** assertLockConsumableWithLock */
  function ConsumeError(b: Book, user: nat, r: Request, now: int): Option<FxError> {
    if r.rateLock >= |b.locks| then Some(LockNotFound)
    else
      var k := b.locks[r.rateLock];
      if k.user != user then Some(NotYours)
      else if k.status != LockActive then Some(LockNotActive)
      else if k.expiresAt <= now then Some(LockExpired)
      else if Money.FormatFixed(k.amount) != r.amount then Some(AmountMismatch)
      else None
  }

  predicate Traded(b: Book, k: nat) {
    exists t :: 0 <= t < |b.trades| && b.trades[t].rateLock == k
  }

  /** Customer to house in the source currency, house to customer in the target currency. */
  function FourLegs(k: RateLock, source: L.AccountRef, dest: L.AccountRef, sourceHouse: L.AccountRef, targetHouse: L.AccountRef,
                    targetAmount: nat): seq<L.Line> {
    L.TransferLines(source, sourceHouse, k.amount, k.source) + L.TransferLines(targetHouse, dest, targetAmount, k.target)
  }

  function Legs(b: Book, k: RateLock, r: Request, targetAmount: nat): seq<L.Line>
    requires k.source in b.settlement && k.target in b.settlement
  {
    FourLegs(k, r.source, r.dest, b.settlement[k.source], b.settlement[k.target], targetAmount)
  }

  function TradePosting(b: Book, k: RateLock, r: Request, targetAmount: nat, t: nat): L.Posting
    requires k.source in b.settlement && k.target in b.settlement
  {
    L.RawPosting.Posting(L.FxConversion, None, L.ForFxTrade(t), Legs(b, k, r, targetAmount), [None, None, None, None])
  }

  function Consumption(b: Book, r: Request, user: nat, now: int, targetAmount: nat): Book
    requires r.rateLock < |b.locks|
  {
    var k := b.locks[r.rateLock];
    var t := |b.trades|;
    b.(locks := b.locks[r.rateLock := k.(status := Consumed, consumedAt := Some(now))],
       trades := b.trades + [Trade(user, r.rateLock, k.amount, k.source, targetAmount, k.target, TradeCompleted)],
       outbox := b.outbox + [Event.Executed(t), TransferCreated(t)])
  }

  /** executeInternationalTransfer: everything or nothing. */
  function Transfer(s: State, user: nat, r: Request, now: int, targetAmount: nat): (State, Outcome) {
    var e := ConsumeError(s.book, user, r, now);
    if e.Some? then (s, Thrown(e.value))
    else if Traded(s.book, r.rateLock) then (s, Thrown(AlreadyTraded))
    else
      var k := s.book.locks[r.rateLock];
      if k.source !in s.book.settlement || k.target !in s.book.settlement then (s, Thrown(NotConfigured))
      else
        var t := |s.book.trades|;
        var (ledger, posted) := L.Post(s.ledger, TradePosting(s.book, k, r, targetAmount, t));
        if posted.Rejected? then (s, Thrown(LedgerRefused(posted.error)))
        else (State(ledger, Consumption(s.book, r, user, now, targetAmount)), Outcome.Executed(t))
  }

  predicate Expirable(k: RateLock, now: int) {
    k.status == LockActive && k.expiresAt <= now
  }

  /** The sweeper's update of one candidate, re-checked. */
  function ExpireOne(b: Book, k: nat, now: int): Book {
    if k < |b.locks| && Expirable(b.locks[k], now)
    then b.(locks := b.locks[k := b.locks[k].(status := Expired)], outbox := b.outbox + [RateExpired(k)]) else b
  }

  /** The candidates of one sweep: whatever unlocked rows the query returned. */
  function ExpireAll(b: Book, ids: seq<nat>, now: int): Book {
    if ids == [] then b else ExpireOne(ExpireAll(b, ids[..|ids| - 1], now), ids[|ids| - 1], now)
  }

  datatype Action =
    | Lock(user: nat, source: L.Currency, target: L.Currency, amount: nat, expiresAt: int)
    | Execute(caller: nat, request: Request, now: int, targetAmount: nat)
    | Sweep(ids: seq<nat>, now: int)
    | OtherLedgerCommand(command: L.Command)

  predicate Foreign(c: L.Command) {
    match c
    case PostEntries(x) => !x.correlation.ForFxTrade?
    case ReverseTx(_, x) => !x.ForFxTrade?
    case _ => true
  }

  function Next(s: State, a: Action): State {
    match a
    case Lock(user, source, target, amount, expiresAt) => LockRate(s, user, source, target, amount, expiresAt)
    case Execute(user, r, now, targetAmount) => Transfer(s, user, r, now, targetAmount).0
    case Sweep(ids, now) => s.(book := ExpireAll(s.book, ids, now))
    case OtherLedgerCommand(c) => if Foreign(c) then s.(ledger := L.Next(s.ledger, c)) else s
  }

  function Exec(s: State, actions: seq<Action>): State
    decreases |actions|
  {
    if actions == [] then s else Exec(Next(s, actions[0]), actions[1..])
  }

  function Initial(settlement: map<L.Currency, L.AccountRef>): State {
    State(L.Empty, Book(settlement, [], [], []))
  }

  // ---------- the invariant ----------

  ghost predicate LockFits(k: RateLock) {
    && (k.status == LockActive || k.status == Consumed || k.status == Expired)
    && (k.status == Consumed <==> k.consumedAt.Some?)
    && (k.status == Consumed ==> k.consumedAt.value < k.expiresAt)
  }

  ghost predicate TradeFits(b: Book, t: nat)
    requires t < |b.trades|
  {
    var x := b.trades[t];
    && x.status == TradeCompleted
    && x.rateLock < |b.locks|
    && b.locks[x.rateLock].status == Consumed
    && x == Trade(b.locks[x.rateLock].user, x.rateLock, b.locks[x.rateLock].amount, b.locks[x.rateLock].source,
                  x.targetAmount, b.locks[x.rateLock].target, TradeCompleted)
    && x.source in b.settlement && x.target in b.settlement
  }

  /** Ledger transaction `i` is the four-leg posting of trade `t`. */
  ghost predicate PostsTrade(txs: seq<L.Transaction>, b: Book, t: nat, i: nat)
    requires t < |b.trades| && TradeFits(b, t)
  {
    && i < |txs|
    && txs[i].correlation == L.ForFxTrade(t)
    && txs[i].txType == L.FxConversion
    && |txs[i].lines| == 4
    && var trade := b.trades[t];
       txs[i].lines == [L.Line(txs[i].lines[0].account, L.Debit, trade.sourceAmount, trade.source),
                        L.Line(L.Row(b.settlement[trade.source]), L.Credit, trade.sourceAmount, trade.source),
                        L.Line(L.Row(b.settlement[trade.target]), L.Debit, trade.targetAmount, trade.target),
                        L.Line(txs[i].lines[3].account, L.Credit, trade.targetAmount, trade.target)]
  }

  ghost predicate Posted(txs: seq<L.Transaction>, b: Book, t: nat)
    requires t < |b.trades|
  {
    TradeFits(b, t) && exists i: nat :: PostsTrade(txs, b, t, i)
  }

  ghost predicate BookFits(txs: seq<L.Transaction>, b: Book) {
    && (forall k :: 0 <= k < |b.locks| ==> LockFits(b.locks[k]) && (b.locks[k].status == Consumed ==> Traded(b, k)))
    && (forall t :: 0 <= t < |b.trades| ==> Posted(txs, b, t))
    && (forall t, u :: 0 <= t < u < |b.trades| ==> b.trades[t].rateLock != b.trades[u].rateLock)
    && (forall i :: 0 <= i < |txs| && txs[i].correlation.ForFxTrade? ==> txs[i].correlation.trade < |b.trades|)
  }

  ghost predicate Inv(s: State) {
    L.Inv(s.ledger) && BookFits(s.ledger.transactions, s.book)
  }

  // ---------- every step keeps it ----------

  /** The bundle balances in every currency for every converted amount, equal currencies included. */
  lemma FourLegsBalance(k: RateLock, source: L.AccountRef, dest: L.AccountRef, sourceHouse: L.AccountRef, targetHouse: L.AccountRef, amount: nat)
    ensures L.Balanced(FourLegs(k, source, dest, sourceHouse, targetHouse, amount))
  {
    var xs, ys := L.TransferLines(source, sourceHouse, k.amount, k.source), L.TransferLines(targetHouse, dest, amount, k.target);
    LedgerLaws.TransferEffects(source, sourceHouse, k.amount, k.source);
    LedgerLaws.TransferEffects(targetHouse, dest, amount, k.target);
    BalancedConcat(xs, ys);
  }

  lemma {:induction false} TotalConcat(xs: seq<L.Line>, ys: seq<L.Line>, e: L.EntryType, c: L.Currency)
    ensures L.Total(xs + ys, e, c) == L.Total(xs, e, c) + L.Total(ys, e, c)
  {
    if ys == [] {
      assert xs + ys == xs;
    } else {
      var n := |ys| - 1;
      assert (xs + ys)[..|xs + ys| - 1] == xs + ys[..n];
      TotalConcat(xs, ys[..n], e, c);
    }
  }

  lemma BalancedConcat(xs: seq<L.Line>, ys: seq<L.Line>)
    requires L.Balanced(xs) && L.Balanced(ys)
    ensures L.Balanced(xs + ys)
  {
    forall c: L.Currency
      ensures L.Total(xs + ys, L.Debit, c) == L.Total(xs + ys, L.Credit, c)
    {
      TotalConcat(xs, ys, L.Debit, c);
      TotalConcat(xs, ys, L.Credit, c);
      LedgerLaws.BalancedMeansAllCurrencies(xs);
      LedgerLaws.BalancedMeansAllCurrencies(ys);
    }
    LedgerLaws.BalancedMeansAllCurrencies(xs + ys);
  }

  lemma LockKeepsBook(s: State, a: Action)
    requires BookFits(s.ledger.transactions, s.book) && a.Lock?
    ensures BookFits(s.ledger.transactions, Next(s, a).book)
  {
    var b, c := s.book, Next(s, a).book;
    SameTrades(s.ledger.transactions, b, c);
    forall k | 0 <= k < |c.locks| && c.locks[k].status == Consumed
      ensures Traded(c, k)
    {
      assert Traded(b, k);
    }
  }

  /** Trades only look at their own, consumed locks. */
  lemma SameTrades(txs: seq<L.Transaction>, b: Book, c: Book)
    requires BookFits(txs, b) && c.trades == b.trades && c.settlement == b.settlement && |b.locks| <= |c.locks|
    requires forall k :: 0 <= k < |b.locks| && b.locks[k].status == Consumed ==> c.locks[k] == b.locks[k]
    ensures forall t :: 0 <= t < |c.trades| ==> Posted(txs, c, t)
  {
    forall t | 0 <= t < |c.trades|
      ensures Posted(txs, c, t)
    {
      assert Posted(txs, b, t);
      var i: nat :| PostsTrade(txs, b, t, i);
      assert PostsTrade(txs, c, t, i);
    }
  }

  lemma ExpireKeepsBook(txs: seq<L.Transaction>, b: Book, k: nat, now: int)
    requires BookFits(txs, b)
    ensures BookFits(txs, ExpireOne(b, k, now))
  {
    var c := ExpireOne(b, k, now);
    if c == b {
      return;
    }
    SameTrades(txs, b, c);
    forall j | 0 <= j < |c.locks| && c.locks[j].status == Consumed
      ensures Traded(c, j)
    {
      assert Traded(b, j);
    }
  }

  lemma {:induction false} SweepKeepsBook(txs: seq<L.Transaction>, b: Book, ids: seq<nat>, now: int)
    requires BookFits(txs, b)
    ensures BookFits(txs, ExpireAll(b, ids, now))
  {
    if ids != [] {
      SweepKeepsBook(txs, b, ids[..|ids| - 1], now);
      ExpireKeepsBook(txs, ExpireAll(b, ids[..|ids| - 1], now), ids[|ids| - 1], now);
    }
  }

  lemma ConsumptionFits(txs: seq<L.Transaction>, b: Book, r: Request, user: nat, now: int, amount: nat, tx: L.Transaction)
    requires BookFits(txs, b) && ConsumeError(b, user, r, now).None?
    requires b.locks[r.rateLock].source in b.settlement && b.locks[r.rateLock].target in b.settlement
    requires tx.txType == L.FxConversion
    requires tx.correlation == L.ForFxTrade(|b.trades|) && tx.lines == L.Stored(Legs(b, b.locks[r.rateLock], r, amount))
    ensures BookFits(txs + [tx], Consumption(b, r, user, now, amount))
  {
    hide Money.FormatFixed;
    var c := Consumption(b, r, user, now, amount);
    var n := |b.trades|;
    forall t | 0 <= t < |c.trades|
      ensures Posted(txs + [tx], c, t)
    {
      if t < n {
        assert Posted(txs, b, t);
        var i: nat :| PostsTrade(txs, b, t, i);
        assert PostsTrade(txs + [tx], c, t, i);
      } else {
        assert PostsTrade(txs + [tx], c, t, |txs|);
      }
    }
    forall k | 0 <= k < |c.locks| && c.locks[k].status == Consumed
      ensures Traded(c, k)
    {
      if k == r.rateLock {
        assert c.trades[n].rateLock == k;
      } else {
        var t :| 0 <= t < |b.trades| && b.trades[t].rateLock == k;
        assert c.trades[t].rateLock == k;
      }
    }
    forall t | 0 <= t < n
      ensures c.trades[t].rateLock != r.rateLock
    {
      assert Posted(txs, b, t);
    }
  }

  /** A lock that can be consumed has never been traded, and its trade's correlation id is unused. */
  lemma ConsumableIsFresh(s: State, user: nat, r: Request, now: int)
    requires Inv(s) && ConsumeError(s.book, user, r, now).None?
    ensures !Traded(s.book, r.rateLock)
    ensures L.FindCorrelation(s.ledger.transactions, L.ForFxTrade(|s.book.trades|)).None?
  {
    hide Money.FormatFixed, L.Inv;
    forall t | 0 <= t < |s.book.trades|
      ensures s.book.trades[t].rateLock != r.rateLock
    {
      assert Posted(s.ledger.transactions, s.book, t);
    }
  }

  lemma TransferKeepsInv(s: State, user: nat, r: Request, now: int, amount: nat)
    requires Inv(s)
    ensures Inv(Transfer(s, user, r, now, amount).0)
  {
    hide L.Post, L.Inv, BookFits, Legs, Consumption, Traded, Money.FormatFixed;
    var t := Transfer(s, user, r, now, amount).0;
    if t != s {
      var k := s.book.locks[r.rateLock];
      var p := TradePosting(s.book, k, r, amount, |s.book.trades|);
      ConsumableIsFresh(s, user, r, now);
      LedgerLaws.PostKeepsInv(s.ledger, p);
      LedgerLaws.PostExtends(s.ledger, p);
      LedgerLaws.UnusedIdIsNotReplayed(s.ledger, p);
      LedgerLaws.PostStores(s.ledger, p);
      var tx := t.ledger.transactions[|s.ledger.transactions|];
      ConsumptionFits(s.ledger.transactions, s.book, r, user, now, amount, tx);
      assert t.ledger.transactions == s.ledger.transactions + [tx];
    }
  }

  lemma LaterLedgerKeepsInv(s: State, later: L.State)
    requires Inv(s) && L.Inv(later) && L.Extends(s.ledger, later)
    requires forall i :: |s.ledger.transactions| <= i < |later.transactions| ==> !later.transactions[i].correlation.ForFxTrade?
    ensures Inv(State(later, s.book))
  {
    hide L.Inv;
    var txs, txs' := s.ledger.transactions, later.transactions;
    forall i | 0 <= i < |txs'| && txs'[i].correlation.ForFxTrade?
      ensures txs'[i].correlation.trade < |s.book.trades|
    {
      assert txs'[i] == txs[i];
    }
    hide Traded, LockFits;
    forall t | 0 <= t < |s.book.trades|
      ensures Posted(txs', s.book, t)
    {
      assert Posted(txs, s.book, t);
      var i: nat :| PostsTrade(txs, s.book, t, i);
      assert PostsTrade(txs', s.book, t, i);
    }
  }

  lemma ForeignCommand(l: L.State, c: L.Command)
    requires Foreign(c)
    ensures forall i :: |l.transactions| <= i < |L.Next(l, c).transactions| ==> !L.Next(l, c).transactions[i].correlation.ForFxTrade?
  {
  }

  lemma NextKeepsInv(s: State, a: Action)
    requires Inv(s)
    ensures Inv(Next(s, a))
  {
    hide L.Inv, L.Next, BookFits, Transfer, L.Extends;
    match a {
      case Lock(_, _, _, _, _) => LockKeepsBook(s, a);
      case Execute(user, r, now, amount) => TransferKeepsInv(s, user, r, now, amount);
      case Sweep(ids, now) => SweepKeepsBook(s.ledger.transactions, s.book, ids, now);
      case OtherLedgerCommand(c) =>
        if Foreign(c) {
          LedgerLaws.NextKeepsInv(s.ledger, c);
          LedgerLaws.NextExtends(s.ledger, c);
          ForeignCommand(s.ledger, c);
          LaterLedgerKeepsInv(s, L.Next(s.ledger, c));
        }
    }
  }

  lemma {:induction false} ExecKeepsInv(s: State, actions: seq<Action>)
    requires Inv(s)
    ensures Inv(Exec(s, actions))
    decreases |actions|
  {
    if actions != [] {
      NextKeepsInv(s, actions[0]);
      ExecKeepsInv(Next(s, actions[0]), actions[1..]);
    }
  }

  lemma ReachableFx(settlement: map<L.Currency, L.AccountRef>, actions: seq<Action>)
    ensures Inv(Exec(Initial(settlement), actions))
  {
    assert Inv(Initial(settlement));
    ExecKeepsInv(Initial(settlement), actions);
  }

  // ---------- single use ----------

  ghost function TradesOf(b: Book, k: nat): set<nat> {
    set t | 0 <= t < |b.trades| && b.trades[t].rateLock == k
  }

  ghost function PostsOf(txs: seq<L.Transaction>, t: nat): set<L.TxId> {
    set i | 0 <= i < |txs| && txs[i].correlation == L.ForFxTrade(t)
  }

  /** A lock is CONSUMED exactly when it backs one COMPLETED trade with one balanced four-leg posting;
      ACTIVE and EXPIRED locks back none. */
  lemma SingleUse(s: State, k: nat)
    requires Inv(s) && k < |s.book.locks|
    ensures s.book.locks[k].status != Consumed ==> TradesOf(s.book, k) == {}
    ensures s.book.locks[k].status == Consumed ==>
              exists t: nat, i: nat ::
                && TradesOf(s.book, k) == {t} && t < |s.book.trades| && TradeFits(s.book, t)
                && PostsTrade(s.ledger.transactions, s.book, t, i) && PostsOf(s.ledger.transactions, t) == {i}
                && L.Balanced(s.ledger.transactions[i].lines)
  {
    var b, txs := s.book, s.ledger.transactions;
    if b.locks[k].status == Consumed {
      var t: nat :| t < |b.trades| && b.trades[t].rateLock == k;
      assert Posted(txs, b, t);
      var i: nat :| PostsTrade(txs, b, t, i);
      assert TradesOf(b, k) == {t};
      assert PostsOf(txs, t) == {i};
      var lines := txs[i].lines;
      FourLegsBalance(b.locks[k], lines[0].account, lines[3].account, L.Row(b.settlement[b.trades[t].source]),
                      L.Row(b.settlement[b.trades[t].target]), b.trades[t].targetAmount);
    } else {
      forall t | 0 <= t < |b.trades|
        ensures b.trades[t].rateLock != k
      {
        assert Posted(txs, b, t);
      }
    }
  }

  predicate Spent(k: RateLock) {
    k.status == Consumed || k.status == Expired
  }

  /** A sweep turns the ACTIVE locks among its candidates whose time is up EXPIRED, with one event each, and
      touches nothing else. */
  lemma {:induction false} SweepExpiresExactly(b: Book, ids: seq<nat>, now: int)
    ensures var c := ExpireAll(b, ids, now);
            && c.trades == b.trades && c.settlement == b.settlement && |c.locks| == |b.locks|
            && (forall k :: 0 <= k < |b.locks| ==>
                  c.locks[k] == if k in ids && b.locks[k].status == LockActive && b.locks[k].expiresAt <= now
                                then b.locks[k].(status := Expired) else b.locks[k])
            && forall e :: multiset(c.outbox)[e] == multiset(b.outbox)[e] +
                 if e.RateExpired? && e.rateLock < |b.locks| && c.locks[e.rateLock] != b.locks[e.rateLock] then 1 else 0
  {
    if ids != [] {
      var n := |ids| - 1;
      SweepExpiresExactly(b, ids[..n], now);
      assert ids == ids[..n] + [ids[n]];
    }
  }

  /** CONSUMED and EXPIRED are final, so no lock is ever both. */
  lemma {:induction false} SpentIsFinal(s: State, actions: seq<Action>, k: nat)
    requires k < |s.book.locks|
    ensures k < |Exec(s, actions).book.locks|
    ensures Spent(s.book.locks[k]) ==> Exec(s, actions).book.locks[k] == s.book.locks[k]
    decreases |actions|
  {
    if actions != [] {
      var t := Next(s, actions[0]);
      if actions[0].Sweep? {
        SweepExpiresExactly(s.book, actions[0].ids, actions[0].now);
      } else {
        assert k < |t.book.locks| && (Spent(s.book.locks[k]) ==> t.book.locks[k] == s.book.locks[k]) by {
          hide L.Post, L.Next, ExpireAll, Money.FormatFixed;
        }
      }
      SpentIsFinal(t, actions[1..], k);
    }
  }

  /** When a transfer goes through. The amount must be the stored text: four decimals, no needless
      zero in front (Money.StoredTextExactly); the same amount written otherwise is refused. */
  lemma TransferExecutesExactly(s: State, user: nat, r: Request, now: int, amount: nat)
    requires Inv(s)
    ensures Transfer(s, user, r, now, amount).1.Executed? <==>
            && r.rateLock < |s.book.locks|
            && var k := s.book.locks[r.rateLock];
               && k.user == user && k.status == LockActive && now < k.expiresAt
               && r.amount == Money.FormatFixed(k.amount)
               && k.source in s.book.settlement && k.target in s.book.settlement
               && LedgerLaws.Fundable(s.ledger.accounts,
                    [L.Line(r.source, L.Debit, k.amount, k.source), L.Line(s.book.settlement[k.source], L.Credit, k.amount, k.source),
                     L.Line(s.book.settlement[k.target], L.Debit, amount, k.target), L.Line(r.dest, L.Credit, amount, k.target)])
  {
    hide L.Post, L.Inv, BookFits, LedgerLaws.Fundable, Money.FormatFixed, Traded, L.Balanced, Consumption, FourLegs, L.FindCorrelation;
    if ConsumeError(s.book, user, r, now).None? {
      ConsumableIsFresh(s, user, r, now);
      var k := s.book.locks[r.rateLock];
      if k.source in s.book.settlement && k.target in s.book.settlement {
        var p := TradePosting(s.book, k, r, amount, |s.book.trades|);
        LedgerLaws.PostAcceptsExactly(s.ledger, p);
        LedgerLaws.UnusedIdIsNotReplayed(s.ledger, p);
        FourLegsBalance(k, r.source, r.dest, s.book.settlement[k.source], s.book.settlement[k.target], amount);
        FourLines(k, r.source, r.dest, s.book.settlement[k.source], s.book.settlement[k.target], amount);
      }
    }
  }

  lemma FourLines(k: RateLock, source: L.AccountRef, dest: L.AccountRef, sourceHouse: L.AccountRef, targetHouse: L.AccountRef, amount: nat)
    ensures FourLegs(k, source, dest, sourceHouse, targetHouse, amount) ==
              [L.Line(source, L.Debit, k.amount, k.source), L.Line(sourceHouse, L.Credit, k.amount, k.source),
               L.Line(targetHouse, L.Debit, amount, k.target), L.Line(dest, L.Credit, amount, k.target)]
  {
  }

  /** What an executed transfer writes: the lock is CONSUMED now, one COMPLETED trade carries its terms, two
      events follow, and the ledger gets one transaction that takes the locked amount from the customer's
      source account into the source house account and the converted amount out of the target house account
      to the beneficiary. */
  lemma TransferWrites(s: State, user: nat, r: Request, now: int, amount: nat)
    requires Inv(s) && Transfer(s, user, r, now, amount).1.Executed?
    ensures r.rateLock < |s.book.locks|
    ensures s.book.locks[r.rateLock].source in s.book.settlement && s.book.locks[r.rateLock].target in s.book.settlement
    ensures var (t, o) := Transfer(s, user, r, now, amount);
            var k, house, n := s.book.locks[r.rateLock], s.book.settlement, |s.book.trades|;
            && o == Outcome.Executed(n)
            && t.book.settlement == house
            && t.book.locks == s.book.locks[r.rateLock := RateLock(user, k.source, k.target, k.amount, k.expiresAt, Some(now), Consumed)]
            && t.book.trades == s.book.trades + [Trade(user, r.rateLock, k.amount, k.source, amount, k.target, TradeCompleted)]
            && t.book.outbox == s.book.outbox + [Event.Executed(n), TransferCreated(n)]
            && t.ledger.transactions == s.ledger.transactions +
                 [L.StoredTx.Transaction(L.FxConversion, None, L.ForFxTrade(n),
                    [L.Line(L.Row(r.source), L.Debit, k.amount, k.source), L.Line(L.Row(house[k.source]), L.Credit, k.amount, k.source),
                     L.Line(L.Row(house[k.target]), L.Debit, amount, k.target), L.Line(L.Row(r.dest), L.Credit, amount, k.target)],
                    [1, 2, 3, 4])]
  {
    hide L.Post, L.Inv, BookFits, Money.FormatFixed, Traded, L.Row;
    ConsumableIsFresh(s, user, r, now);
    var p := TradePosting(s.book, s.book.locks[r.rateLock], r, amount, |s.book.trades|);
    LedgerLaws.UnusedIdIsNotReplayed(s.ledger, p);
    LedgerLaws.PostStores(s.ledger, p);
    var t := Transfer(s, user, r, now, amount).0;
    var tx := t.ledger.transactions[|s.ledger.transactions|];
    assert t.ledger.transactions == s.ledger.transactions + [tx];
    assert tx.numbers == [1, 2, 3, 4];
    FourLines(s.book.locks[r.rateLock], r.source, r.dest, s.book.settlement[s.book.locks[r.rateLock].source],
              s.book.settlement[s.book.locks[r.rateLock].target], amount);
    hide FourLegs;
    assert |tx.lines| == 4 && tx.lines == [tx.lines[0], tx.lines[1], tx.lines[2], tx.lines[3]];
  }

  /** Every other call throws and changes nothing, and the error names the first condition that fails. */
  lemma TransferRefusals(s: State, user: nat, r: Request, now: int, amount: nat)
    requires Inv(s)
    ensures var (t, o) := Transfer(s, user, r, now, amount);
            && (o.Thrown? ==> t == s)
            && (o == Thrown(LockNotFound) <==> r.rateLock >= |s.book.locks|)
            && (r.rateLock < |s.book.locks| ==>
                  var k := s.book.locks[r.rateLock];
                  var configured := k.source in s.book.settlement && k.target in s.book.settlement;
                  && (o == Thrown(NotYours) <==> k.user != user)
                  && (o == Thrown(LockNotActive) <==> k.user == user && k.status != LockActive)
                  && (o == Thrown(LockExpired) <==> k.user == user && k.status == LockActive && k.expiresAt <= now)
                  && (k.user == user && k.status == LockActive && now < k.expiresAt ==>
                        && (o == Thrown(AmountMismatch) <==> r.amount != Money.FormatFixed(k.amount))
                        && (o == Thrown(NotConfigured) <==> r.amount == Money.FormatFixed(k.amount) && !configured)
                        && (o.Thrown? && r.amount == Money.FormatFixed(k.amount) && configured ==> o.error.LedgerRefused?)))
  {
    hide L.Post, L.Inv, BookFits, Money.FormatFixed, Traded, FourLegs, Consumption;
    if ConsumeError(s.book, user, r, now).None? {
      ConsumableIsFresh(s, user, r, now);
    }
  }

  // ---------- whose transfer it was ----------

  /** Trades, transactions and the owners of locks never change afterwards. */
  ghost predicate Later(s: State, t: State) {
    && L.Extends(s.ledger, t.ledger)
    && s.book.trades <= t.book.trades && t.book.settlement == s.book.settlement
    && |s.book.locks| <= |t.book.locks|
    && forall k :: 0 <= k < |s.book.locks| ==> t.book.locks[k].user == s.book.locks[k].user
  }

  lemma NextIsLater(s: State, a: Action)
    requires Inv(s)
    ensures Later(s, Next(s, a))
  {
    hide L.Post, L.Inv, L.Next, BookFits, L.Extends, Money.FormatFixed, Traded, Legs;
    LedgerLaws.SelfExtends(s.ledger);
    match a {
      case Lock(_, _, _, _, _) =>
      case Execute(user, r, now, amount) =>
        if Transfer(s, user, r, now, amount).1.Executed? {
          LedgerLaws.PostExtends(s.ledger, TradePosting(s.book, s.book.locks[r.rateLock], r, amount, |s.book.trades|));
        }
      case Sweep(ids, now) => SweepExpiresExactly(s.book, ids, now);
      case OtherLedgerCommand(c) => LedgerLaws.NextExtends(s.ledger, c);
    }
  }

  lemma {:induction false} ExecIsLater(s: State, actions: seq<Action>)
    requires Inv(s)
    ensures Later(s, Exec(s, actions))
    decreases |actions|
  {
    hide L.Extends, Inv, Next;
    if actions == [] {
      LedgerLaws.SelfExtends(s.ledger);
    } else {
      var t := Next(s, actions[0]);
      NextKeepsInv(s, actions[0]);
      NextIsLater(s, actions[0]);
      ExecIsLater(t, actions[1..]);
      LedgerLaws.ExtendsTransitive(s.ledger, t.ledger, Exec(s, actions).ledger);
    }
  }

  /** `a` is the call behind FX transaction `i`: by the user of the lock, from and to the accounts of the call. */
  ghost predicate Executes(t: State, a: Action, i: L.TxId) {
    && i < |t.ledger.transactions| && t.ledger.transactions[i].correlation.ForFxTrade? && a.Execute?
    && var x := t.ledger.transactions[i].correlation.trade;
       && x < |t.book.trades|
       && var trade := t.book.trades[x];
          && trade.rateLock == a.request.rateLock < |t.book.locks|
          && t.book.locks[trade.rateLock].user == trade.user == a.caller
          && trade.source in t.book.settlement && trade.target in t.book.settlement
          && t.ledger.transactions[i].lines ==
               [L.Line(L.Row(a.request.source), L.Debit, trade.sourceAmount, trade.source),
                L.Line(L.Row(t.book.settlement[trade.source]), L.Credit, trade.sourceAmount, trade.source),
                L.Line(L.Row(t.book.settlement[trade.target]), L.Debit, trade.targetAmount, trade.target),
                L.Line(L.Row(a.request.dest), L.Credit, trade.targetAmount, trade.target)]
  }

  lemma StillExecutes(s: State, t: State, a: Action, i: L.TxId)
    requires Executes(s, a, i) && Later(s, t)
    ensures Executes(t, a, i)
  {
    assert t.ledger.transactions[i] == s.ledger.transactions[i];
    hide L.Row;
  }

  lemma NewTransferIsExecuted(s: State, a: Action, i: L.TxId)
    requires Inv(s) && |s.ledger.transactions| <= i < |Next(s, a).ledger.transactions|
    requires Next(s, a).ledger.transactions[i].correlation.ForFxTrade?
    ensures Executes(Next(s, a), a, i)
  {
    hide L.Inv, L.Next, BookFits, L.Row, Transfer;
    match a {
      case Execute(user, r, now, amount) =>
        TransferRefusals(s, user, r, now, amount);
        TransferWrites(s, user, r, now, amount);
      case OtherLedgerCommand(c) =>
        if Foreign(c) {
          ForeignCommand(s.ledger, c);
        }
      case _ =>
    }
  }

  /** Over whole runs: behind every FX transaction stands one call by the user of its lock, and the money went
      from the account that call names as its source to the one it names as its destination. */
  lemma {:induction false} TransferredAsAsked(s: State, actions: seq<Action>, i: L.TxId)
    requires Inv(s) && |s.ledger.transactions| <= i < |Exec(s, actions).ledger.transactions|
    requires Exec(s, actions).ledger.transactions[i].correlation.ForFxTrade?
    ensures exists k :: 0 <= k < |actions| && Executes(Exec(s, actions), actions[k], i)
    decreases |actions|
  {
    var t := Next(s, actions[0]);
    NextKeepsInv(s, actions[0]);
    ExecIsLater(t, actions[1..]);
    hide Inv, Next, Executes;
    if i < |t.ledger.transactions| {
      assert Exec(s, actions).ledger.transactions[i] == t.ledger.transactions[i];
      NewTransferIsExecuted(s, actions[0], i);
      StillExecutes(t, Exec(s, actions), actions[0], i);
    } else {
      TransferredAsAsked(t, actions[1..], i);
      var k :| 0 <= k < |actions[1..]| && Executes(Exec(s, actions), actions[1..][k], i);
      assert actions[k + 1] == actions[1..][k];
    }
  }

  /** An executed transfer cannot be repeated: whatever happened since, whoever asks, it throws. */
  lemma RepeatedTransferThrows(s: State, user: nat, r: Request, now: int, amount: nat, between: seq<Action>,
                               user2: nat, now2: int, amount2: nat)
    requires Transfer(s, user, r, now, amount).1.Executed?
    ensures var u := Exec(Transfer(s, user, r, now, amount).0, between);
            Transfer(u, user2, r, now2, amount2).0 == u && Transfer(u, user2, r, now2, amount2).1.Thrown?
  {
    var t := Transfer(s, user, r, now, amount).0;
    assert r.rateLock < |t.book.locks| && t.book.locks[r.rateLock].status == Consumed by {
      hide L.Post, Money.FormatFixed, Traded, Legs;
    }
    SpentIsFinal(t, between, r.rateLock);
    hide L.Post, Money.FormatFixed, Traded, Legs, Exec;
  }

  ghost predicate SameButOwners(x: map<L.AccountId, L.Account>, y: map<L.AccountId, L.Account>) {
    x.Keys == y.Keys && forall a :: a in x ==> x[a] == y[a].(owner := x[a].owner)
  }

  /** Who owns the accounts of a transfer is no condition of it: with any other owners it goes through in
      the same cases. (A payment is made for the owner of its account only: Payments.PaidByItsOwner.) */
  lemma OwnersDoNotMatter(s: State, s2: State, user: nat, r: Request, now: int, amount: nat)
    requires Inv(s) && Inv(s2) && s2.book == s.book && SameButOwners(s.ledger.accounts, s2.ledger.accounts)
    ensures Transfer(s, user, r, now, amount).1.Executed? <==> Transfer(s2, user, r, now, amount).1.Executed?
  {
    TransferExecutesExactly(s, user, r, now, amount);
    TransferExecutesExactly(s2, user, r, now, amount);
    hide Transfer, Inv, Money.FormatFixed, L.Net, L.Row, Legs, L.Touched;
  }
}
