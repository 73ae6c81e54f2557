/** The payment orchestrator as it runs: one transaction that writes slot, payment, ledger and
    outbox rows one after another, catches posting errors, and still commits all or nothing. */
module PaymentService {
  import opened Basics
  import L = Ledger
  import LedgerLaws
  import Fraud
  import Spellings
  import Locking
  import opened Payments
  import opened Posting

  class PaymentOrchestrator {
    const tables: LedgerTables
    var slots: map<SlotKey, Slot>
    var payments: seq<Payment>
    var outbox: seq<Event>

    function Contents(): State
      reads this, tables
    {
      State(tables.Contents(), Book(slots, payments, outbox))
    }

    constructor (t: LedgerTables)
      ensures tables == t && Contents() == State(t.Contents(), EmptyBook)
    {
      tables := t;
      slots, payments, outbox := map[], [], [];
    }

    /** Locks or creates the idempotency row and materializes its payment. */
    method ResolveIdempotencySlot(r: Request) returns (ok: bool, p: nat)
      modifies this`slots, this`payments, this`outbox
      ensures ok <==> !(r.key in old(slots) && old(slots)[r.key].fingerprint != r.body)
      ensures ok ==> (Book(slots, payments, outbox), p) == Materialize(old(Book(slots, payments, outbox)), r)
      ensures ok ==> p < |payments| && payments[p].slot == r.key && r.key in slots
    {
      p := 0;
      if r.key in slots && slots[r.key].fingerprint != r.body {
        return false, 0;
      }
      if r.key !in slots {
        slots := slots[r.key := Slot(r.body, SlotPending, None)];
      }
      var found := FindBySlot(payments, r.key);
      if found.Some? {
        return true, found.value;
      }
      p := |payments|;
      payments := payments + [Payment(r.key, r.body, PaymentStatus.Pending, None)];
      slots := slots[r.key := slots[r.key].(linked := Some(p))];
      outbox := outbox + [PaymentCreated(p)];
      ok := true;
      assert slots == old(slots)[r.key := slots[r.key]];
    }

    method AssertOwnedByActor(b: Body, actor: nat) returns (e: Option<SubmitError>)
      ensures e == OwnershipError(tables.accounts, b, actor)
      ensures b.kind != Collection ==>
                (e.None? <==> L.Row(b.source) in tables.accounts && tables.accounts[L.Row(b.source)].owner == actor)
      ensures b.kind == Collection ==>
                (e.None? <==> L.Row(b.dest) in tables.accounts && tables.accounts[L.Row(b.dest)].owner == actor)
    {
      var a := L.Row(if b.kind == Collection then b.dest else b.source);
      if a !in tables.accounts {
        return Some(OwnedAccountNotFound);
      }
      if tables.accounts[a].owner != actor {
        return Some(NotOwner);
      }
      return None;
    }

    /** FOR UPDATE on both legs in the order of their texts, then status and currency. The legs are looked
        up again by the texts of the request among the rows' own ids, so another spelling is not found. */
    method LoadPaymentAccountsLocked(b: Body) returns (e: Option<SubmitError>, ghost taken: nat)
      modifies tables`lockLog
      ensures e == LegsError(tables.accounts, b)
      ensures taken <= |L.SortedPair(b.source, b.dest)|
      ensures tables.lockLog == old(tables.lockLog) + L.Rows(L.SortedPair(b.source, b.dest))[..taken]
      ensures e.None? ==> taken == |L.SortedPair(b.source, b.dest)|
    {
      hide L.Row, L.SortedPair, LegsError;
      var refs := L.SortedPair(b.source, b.dest);
      ghost var rows := L.Rows(refs);
      var byId: map<L.AccountId, L.Account> := map[];
      taken := 0;
      for k := 0 to |refs|
        invariant taken == k && tables.lockLog == old(tables.lockLog) + rows[..k]
        invariant forall a :: a in byId <==> a in rows[..k]
        invariant forall a :: a in byId ==> a in tables.accounts && byId[a] == tables.accounts[a]
      {
        assert rows[..k + 1] == rows[..k] + [L.Row(refs[k])];
        tables.lockLog, taken := tables.lockLog + [L.Row(refs[k])], k + 1;
        if L.Row(refs[k]) !in tables.accounts {
          MissingLeg(tables.accounts, b, refs, k);
          return Some(LegNotFound), taken;
        }
        byId := byId[L.Row(refs[k]) := tables.accounts[L.Row(refs[k])]];
      }
      assert rows[..|refs|] == rows;
      e := CheckLegs(b, byId);
    }

    method CheckLegs(b: Body, byId: map<L.AccountId, L.Account>) returns (e: Option<SubmitError>)
      requires forall a :: a in byId <==> a in L.Rows(L.SortedPair(b.source, b.dest))
      requires forall a :: a in byId ==> a in tables.accounts && byId[a] == tables.accounts[a]
      ensures e == LegsError(tables.accounts, b)
      ensures e.None? <==> LegsReady(tables.accounts, b)
    {
      hide L.Row, L.SortedPair;
      OwnersAndLegs(tables.accounts, b, 0);
      FoundByTheirOwnIds(b.source, b.dest);
      if b.source !in byId || b.dest !in byId {
        return Some(LegNotFound);
      }
      var source, dest := byId[b.source], byId[b.dest];
      if source.status != L.Active || dest.status != L.Active {
        return Some(NotActive);
      }
      if source.currency != b.currency || dest.currency != b.currency {
        return Some(WrongCurrency);
      }
      return None;
    }

    method Fail(p: nat)
      requires p < |payments| && payments[p].slot in slots
      modifies this`slots, this`payments, this`outbox
      ensures Book(slots, payments, outbox) == MarkFailed(old(Book(slots, payments, outbox)), p)
    {
      var key := payments[p].slot;
      payments := payments[p := payments[p].(status := PaymentStatus.Failed)];
      slots := slots[key := slots[key].(status := SlotFailed)];
      outbox := outbox + [PaymentFailed(p)];
    }

    /** PROCESSING, then the ledger post; a posting error is caught and recorded as FAILED. */
    method PostAndFinish(p: nat, b: Body)
      requires p < |payments| && payments[p].slot in slots
      modifies this`slots, this`payments, this`outbox, tables
      ensures Contents() == Settle(old(Contents()), p, b)
      ensures var lines := LedgerPosting(b, p).lines;
              exists k :: 0 <= k <= |BothPasses(lines)| && tables.lockLog == old(tables.lockLog) + BothPasses(lines)[..k]
      ensures L.Post(old(tables.Contents()), LedgerPosting(b, p)).1.Posted? ==>
                tables.lockLog == old(tables.lockLog) + BothPasses(LedgerPosting(b, p).lines)
    {
      hide L.Post, LedgerPosting, OnePass, L.Stored;
      var key := payments[p].slot;
      ghost var before := payments;
      ghost var log := tables.lockLog;
      payments := payments[p := payments[p].(status := Processing)];
      var posted := tables.PostWithSharedManager(LedgerPosting(b, p));
      PassParts(LedgerPosting(b, p).lines);
      match posted {
        case Rejected(_) =>
          payments := payments[p := payments[p].(status := PaymentStatus.Failed)];
          assert payments == before[p := before[p].(status := PaymentStatus.Failed)];
          slots := slots[key := slots[key].(status := SlotFailed)];
          outbox := outbox + [PaymentFailed(p)];
        case _ =>
          payments := payments[p := payments[p].(status := PaymentStatus.Completed, ledgerTx := Some(posted.id))];
          assert payments == before[p := before[p].(status := PaymentStatus.Completed, ledgerTx := Some(posted.id))];
          slots := slots[key := slots[key].(status := SlotCompleted)];
          outbox := outbox + [PaymentCompleted(p)];
      }
    }

    /** The body of the transaction. When it throws, its partial writes are the caller's to roll back.
        However it ends, the locks it asked for are an initial part of the payment script. */
    method SubmitPaymentWithSharedManager(r: Request, actor: nat, fraud: Fraud.Evaluation) returns (o: Outcome)
      modifies this`slots, this`payments, this`outbox, tables
      ensures o == Submit(old(Contents()), r, actor, fraud).1
      ensures o.Returned? ==> Contents() == Submit(old(Contents()), r, actor, fraud).0
      ensures var script := Locking.PaymentScript(r.body.source, r.body.dest);
              exists k :: 0 <= k <= |script| && tables.lockLog == old(tables.lockLog) + script[..k]
      ensures tables.Contents() != old(tables.Contents()) && o.Returned? ==>
                tables.lockLog == old(tables.lockLog) + Locking.PaymentScript(r.body.source, r.body.dest)
    {
      hide L.Post, LegsError, OwnershipError, LedgerPosting, Settle, MarkFailed, Materialize, Fraud.Decide, L.SortedPair, Locking.PaymentScript, BothPasses, OnePass;
      ghost var start := Contents();
      ghost var log := tables.lockLog;
      ghost var script := Locking.PaymentScript(r.body.source, r.body.dest);
      assert log == log + script[..0];
      var ok, p := ResolveIdempotencySlot(r);
      if !ok {
        return Thrown(KeyUsedWithDifferentBody);
      }
      var notOwned := AssertOwnedByActor(payments[p].body, actor);
      if notOwned.Some? {
        return Thrown(notOwned.value);
      }
      if payments[p].status == PaymentStatus.Completed || payments[p].status == PaymentStatus.Failed {
        return Returned(p);
      }
      var legs, taken := LoadPaymentAccountsLocked(r.body);
      ScriptStartsWithLegs(r.body, p, taken);
      if legs.Some? {
        return Thrown(legs.value);
      }
      var decision := Fraud.Decide(fraud);
      if decision.None? {
        return Thrown(FraudUnavailable);
      }
      if decision.value != Fraud.Approved {
        Fail(p);
        return Returned(p);
      }
      ghost var ledger := tables.Contents();
      ghost var held := tables.lockLog;
      PostAndFinish(p, r.body);
      o := Returned(p);
      ghost var lines := LedgerPosting(r.body, p).lines;
      ghost var k :| 0 <= k <= |BothPasses(lines)| && tables.lockLog == held + BothPasses(lines)[..k];
      ScriptGoesOn(r.body, p, log, k);
      if tables.Contents() != ledger {
        SettledLedger(State(ledger, Materialize(start.book, r).0), p, r.body);
      }
    }

    /** One committed or rolled-back transaction. */
    method SubmitPayment(r: Request, actor: nat, fraud: Fraud.Evaluation) returns (o: Outcome)
      modifies this`slots, this`payments, this`outbox, tables
      ensures (Contents(), o) == Submit(old(Contents()), r, actor, fraud)
      ensures Inv(old(Contents())) && o.Returned? ==>
                && (r.body.kind != Collection ==>
                      L.Row(r.body.source) in old(tables.accounts) && old(tables.accounts)[L.Row(r.body.source)].owner == actor)
                && (r.body.kind == Collection ==>
                      L.Row(r.body.dest) in old(tables.accounts) && old(tables.accounts)[L.Row(r.body.dest)].owner == actor)
    {
      ThrowingChangesNothing(Contents(), r, actor, fraud);
      hide Submit, L.Row;
      if Inv(Contents()) {
        SubmitRefusals(Contents(), r, actor, fraud);
      }
      hide Inv;
      var accounts, transactions := tables.accounts, tables.transactions;
      var slots0, payments0, outbox0 := slots, payments, outbox;
      o := SubmitPaymentWithSharedManager(r, actor, fraud);
      if o.Thrown? {
        tables.accounts, tables.transactions := accounts, transactions;
        slots, payments, outbox := slots0, payments0, outbox0;
      }
    }
  }

  lemma ThrowingChangesNothing(s: State, r: Request, actor: nat, fraud: Fraud.Evaluation)
    ensures Submit(s, r, actor, fraud).1.Thrown? ==> Submit(s, r, actor, fraud).0 == s
  {
    hide L.Post, LegsError, OwnershipError, LedgerPosting, Materialize, Fraud.Decide;
  }

  /** Both legs are found under the ids of the locked rows exactly when both are spelled that way. */
  lemma FoundByTheirOwnIds(source: L.AccountRef, dest: L.AccountRef)
    ensures var rows := L.Rows(L.SortedPair(source, dest));
            && (source in rows && dest in rows <==> L.Row(source) == source && L.Row(dest) == dest)
            && L.Row(source) in rows && L.Row(dest) in rows
  {
    Spellings.RowIsARow(source);
    Spellings.RowIsARow(dest);
    hide L.Row, L.SortedPair;
    var refs := L.SortedPair(source, dest);
    assert source in refs && dest in refs;
    var i :| 0 <= i < |refs| && refs[i] == source;
    var j :| 0 <= j < |refs| && refs[j] == dest;
    assert L.Rows(refs)[i] == L.Row(source) && L.Rows(refs)[j] == L.Row(dest);
    assert forall k :: 0 <= k < |refs| ==> refs[k] in refs;
  }

  lemma MissingLeg(accounts: map<L.AccountId, L.Account>, b: Body, refs: seq<L.AccountRef>, k: nat)
    requires refs == L.SortedPair(b.source, b.dest) && k < |refs| && L.Row(refs[k]) !in accounts
    ensures LegsError(accounts, b) == Some(LegNotFound)
  {
    hide L.SortedPair, L.Row;
    assert refs[k] in refs;
  }

  /** What a rejected or a replayed posting locked is a part of both passes. */
  lemma PassParts(lines: seq<L.Line>)
    ensures forall k :: 0 <= k <= |OnePass(lines)| ==> k <= |BothPasses(lines)| && BothPasses(lines)[..k] == OnePass(lines)[..k]
    ensures BothPasses(lines)[..0] == [] && BothPasses(lines)[..|BothPasses(lines)|] == BothPasses(lines)
  {
    hide OnePass;
  }

  lemma ScriptStartsWithLegs(b: Body, p: nat, k: nat)
    ensures var script, legs := Locking.PaymentScript(b.source, b.dest), L.Rows(L.SortedPair(b.source, b.dest));
            && (k <= |legs| ==> k <= |script| && script[..k] == legs[..k])
            && legs[..|legs|] == legs
            && script == legs + BothPasses(LedgerPosting(b, p).lines)
  {
    Locking.PaymentPosts(b.source, b.dest, b.amount, b.currency);
    hide L.SortedPair, BothPasses, L.Rows, Locking.PaymentScript;
  }

  lemma ScriptGoesOn(b: Body, p: nat, log: seq<L.AccountId>, k: nat)
    requires k <= |BothPasses(LedgerPosting(b, p).lines)|
    ensures var script, legs := Locking.PaymentScript(b.source, b.dest), L.Rows(L.SortedPair(b.source, b.dest));
            var passes := BothPasses(LedgerPosting(b, p).lines);
            && |legs| + k <= |script| && (log + legs) + passes[..k] == log + script[..|legs| + k]
            && (log + legs) + passes == log + script
  {
    ScriptStartsWithLegs(b, p, 0);
    hide L.SortedPair, BothPasses, L.Rows, Locking.PaymentScript, LedgerPosting;
  }

  lemma SettledLedger(s: State, p: nat, b: Body)
    requires p < |s.book.payments| && s.book.payments[p].slot in s.book.slots
    requires Settle(s, p, b).ledger != s.ledger
    ensures L.Post(s.ledger, LedgerPosting(b, p)).1.Posted?
  {
  }
}
