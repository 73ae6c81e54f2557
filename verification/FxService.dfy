/** The FX services as they run: lock, trade and ledger rows written in turn and undone together on
    any error, and the sweep over the rows its query returned. */
module FxService {
  import opened Basics
  import L = Ledger
  import LedgerLaws
  import Money
  import opened Fx
  import opened Posting

  class FxOrchestrator {
    const tables: LedgerTables
    const settlement: map<L.Currency, L.AccountRef>
    var locks: seq<RateLock>
    var trades: seq<Trade>
    var outbox: seq<Event>

    function Contents(): State
      reads this, tables
    {
      State(tables.Contents(), Book(settlement, locks, trades, outbox))
    }

    constructor (t: LedgerTables, configured: map<L.Currency, L.AccountRef>)
      ensures tables == t && Contents() == State(t.Contents(), Book(configured, [], [], []))
    {
      tables, settlement := t, configured;
      locks, trades, outbox := [], [], [];
    }

    method LockRate(user: nat, source: L.Currency, target: L.Currency, amount: nat, expiresAt: int) returns (id: nat)
      modifies this`locks, this`outbox
      ensures id == |old(locks)| && Contents() == Fx.LockRate(old(Contents()), user, source, target, amount, expiresAt)
      ensures locks == old(locks) + [RateLock(user, source, target, amount, expiresAt, None, LockActive)]
      ensures outbox == old(outbox) + [RateLocked(id)]
    {
      id := |locks|;
      locks := locks + [RateLock(user, source, target, amount, expiresAt, None, LockActive)];
      outbox := outbox + [RateLocked(id)];
    }

    method AssertLockConsumableWithLock(user: nat, r: Request, now: int) returns (e: Option<FxError>)
      ensures e == ConsumeError(Contents().book, user, r, now)
      ensures e.None? <==>
                && r.rateLock < |locks| && locks[r.rateLock].user == user && locks[r.rateLock].status == LockActive
                && now < locks[r.rateLock].expiresAt && r.amount == Money.FormatFixed(locks[r.rateLock].amount)
    {
      if r.rateLock >= |locks| {
        return Some(LockNotFound);
      }
      var k := locks[r.rateLock];
      if k.user != user {
        return Some(NotYours);
      }
      if k.status != LockActive {
        return Some(LockNotActive);
      }
      if k.expiresAt <= now {
        return Some(LockExpired);
      }
      if Money.FormatFixed(k.amount) != r.amount {
        return Some(AmountMismatch);
      }
      return None;
    }

    /** Consume the lock, insert the trade PENDING, post the four legs, complete the trade. The lock and
        trade rows are written before the configuration and the ledger can refuse, then rolled back. */
    method ExecuteInternationalTransfer(user: nat, r: Request, now: int, targetAmount: nat) returns (o: Outcome)
      modifies this`locks, this`trades, this`outbox, tables
      ensures (Contents(), o) == Transfer(old(Contents()), user, r, now, targetAmount)
    {
      hide L.Post, FourLegs, Money.FormatFixed, ConsumeError;
      var refused := AssertLockConsumableWithLock(user, r, now);
      if refused.Some? {
        return Thrown(refused.value);
      }
      if Traded(Contents().book, r.rateLock) {
        return Thrown(AlreadyTraded);
      }
      InRange(Contents().book, user, r, now);
      var locks0, trades0 := locks, trades;
      var k := locks[r.rateLock];
      locks := locks[r.rateLock := k.(status := Consumed, consumedAt := Some(now))];
      var t := |trades|;
      trades := trades + [Trade(user, r.rateLock, k.amount, k.source, targetAmount, k.target, TradePending)];
      if k.source !in settlement || k.target !in settlement {
        locks, trades := locks0, trades0;
        return Thrown(NotConfigured);
      }
      var legs := FourLegs(k, r.source, r.dest, settlement[k.source], settlement[k.target], targetAmount);
      var posting := L.RawPosting.Posting(L.FxConversion, None, L.ForFxTrade(t), legs, [None, None, None, None]);
      LegCount(k, r.source, r.dest, settlement[k.source], settlement[k.target], targetAmount);
      var posted := tables.PostWithSharedManager(posting);
      match posted {
        case Rejected(error) =>
          LedgerLaws.RejectionChangesNothing(old(tables.Contents()), posting);
          locks, trades := locks0, trades0;
          o := Thrown(LedgerRefused(error));
        case _ =>
          trades := trades[t := trades[t].(status := TradeCompleted)];
          outbox := outbox + [Event.Executed(t), TransferCreated(t)];
          o := Outcome.Executed(t);
          assert trades == trades0 + [Trade(user, r.rateLock, k.amount, k.source, targetAmount, k.target, TradeCompleted)];
      }
    }

    /** One sweep of at most 200 rows: the rows the query returned, each checked again. */
    method SweepExpiredLocks(candidates: seq<nat>, limit: int, now: int) returns (n: nat)
      requires forall k :: 0 <= k < |candidates| ==> candidates[k] < |locks|
      requires |candidates| <= (if limit < 1 then 1 else if limit > 200 then 200 else limit)
      modifies this`locks, this`outbox
      ensures Contents() == old(Contents()).(book := ExpireAll(old(Contents()).book, candidates, now))
      ensures |outbox| == |old(outbox)| + n && n <= 200
    {
      ghost var b := Contents().book;
      n := 0;
      for k := 0 to |candidates|
        invariant |locks| == |b.locks| && n <= k && |outbox| == |old(outbox)| + n
        invariant Contents() == old(Contents()).(book := ExpireAll(b, candidates[..k], now))
      {
        assert candidates[..k + 1][..k] == candidates[..k];
        var id := candidates[k];
        if locks[id].status != LockActive || locks[id].expiresAt > now {
          continue;
        }
        locks := locks[id := locks[id].(status := Expired)];
        outbox := outbox + [RateExpired(id)];
        n := n + 1;
      }
      assert candidates[..|candidates|] == candidates;
    }
  }

  lemma InRange(b: Book, user: nat, r: Request, now: int)
    requires ConsumeError(b, user, r, now).None?
    ensures r.rateLock < |b.locks|
  {
  }

  lemma LegCount(k: RateLock, source: L.AccountRef, dest: L.AccountRef, sourceHouse: L.AccountRef, targetHouse: L.AccountRef, amount: nat)
    ensures |FourLegs(k, source, dest, sourceHouse, targetHouse, amount)| == 4
  {
  }
}
