/** Progress of one payroll run while runs of other batches, other ledger traffic and new batches go on
    in between: once it is past funding and does not crash, it settles its batch in bounded many steps. */
module PayrollProgress {
  import opened Basics
  import L = Ledger
  import opened Payroll
  import PayrollLaws
  import opened PayrollRuns
  import opened PayrollService

  /** The run of processor `p` on batch `n` has got past funding (or resumes a funded batch). */
  ghost predicate UnderWay(s: State, p: nat, n: nat) {
    && p in s.processors && s.processors[p].batch == n && n < |s.book.batches|
    && match s.processors[p].phase
       case Started(seen) => seen == FundingReserved || (seen == Disbursing && HasItems(s.book, n))
       case Funding => false
       case FundingErr => false
       case _ => true
  }

  predicate NoCrash(actions: seq<Action>, p: nat) {
    forall k :: 0 <= k < |actions| ==> actions[k] != Crash(p)
  }

  /** The action is the next one of a processor in this phase, with any fault. */
  predicate Fits(a: Action, p: nat, phase: Phase) {
    match phase
    case Started(_) => a == Decide(p)
    case Funding => a.Fund? && a.p == p
    case FundingErr => a == FundFail(p)
    case Opening => a == Open(p)
    case Opened => a == Reread(p)
    case Paying(todo) => if todo == [] then a == Finalize(p) else a.Pay? && a.p == p
    case PayErr(_, _) => a == PayFail(p)
  }

  predicate Own(s: State, a: Action, p: nat) {
    p in s.processors && Fits(a, p, s.processors[p].phase)
  }

  /** A bound on the steps the run still needs. */
  function Left(b: Book, x: Processor): nat {
    match x.phase
    case Paying(todo) => 2 * |todo| + 1
    case PayErr(_, todo) => 2 * |todo| + 2
    case Opened => 2 * |PendingIds(b.items, x.batch)| + 2
    case Opening => 2 * |PendingIds(b.items, x.batch)| + 3
    case _ => 2 * |PendingIds(b.items, x.batch)| + 4
  }

  // ---------- other steps ----------

  lemma {:induction false} PendingSame(items: seq<Item>, later: seq<Item>, n: nat)
    requires |items| <= |later|
    requires forall i :: 0 <= i < |items| && items[i].batch == n ==> later[i] == items[i]
    requires forall i :: 0 <= i < |later| && later[i].batch == n ==> i < |items| && later[i] == items[i]
    ensures PendingIds(later, n) == PendingIds(items, n)
    decreases |later|
  {
    hide PendingIds;
    PendingUnfold(later, n);
    if later != [] {
      var k := |later| - 1;
      if |items| <= k {
        PendingSame(items, later[..k], n);
      } else {
        PendingUnfold(items, n);
        PendingSame(items[..k], later[..k], n);
      }
    } else {
      PendingUnfold(items, n);
    }
  }

  lemma PendingUnfold(items: seq<Item>, n: nat)
    ensures items == [] ==> PendingIds(items, n) == []
    ensures items != [] ==> var k := |items| - 1;
              PendingIds(items, n) == PendingIds(items[..k], n) + if items[k].batch == n && items[k].status == Pending then [k] else []
  {
  }

  /** Anything but an own step or a crash leaves the run where it is and its batch as it was. */
  lemma OtherStep(s: State, a: Action, p: nat, n: nat)
    requires OrderlyInv(s) && Orderly(s, a) && UnderWay(s, p, n) && !Own(s, a, p) && a != Crash(p)
    ensures Valid(s) && var t := Next(s, a);
            p in t.processors && t.processors[p] == s.processors[p] && SameFor(s.book, t.book, n)
  {
    hide Inv, Valid, OrderlyInv, SameFor, Next, Own;
    InvAfter(s, a);
    SelfSame(s.book, n);
    if a.CreateBatch? {
      DoneAndCreate(s, a.request, n);
      PayrollRuns.CreateStep(s, a.request);
    } else if a.OtherLedgerCommand? || a.Start? {
      QuietStep(s, a, p);
    } else if a.p !in s.processors {
      AbsentStep(s, a);
    } else if a.p != p {
      OtherBatch(s, p, a.p);
      DoneAndOther(s, a, n);
      OtherStays(s, a, p);
    } else {
      UnfitDoesNothing(s, a);
    }
  }

  lemma OtherBatch(s: State, p: nat, q: nat)
    requires OrderlyInv(s) && p in s.processors && q in s.processors && p != q
    ensures s.processors[p].batch != s.processors[q].batch
  {
    hide Inv, Header, Knows, EventsKnown;
  }

  lemma OtherStays(s: State, a: Action, p: nat)
    requires Valid(s) && !a.CreateBatch? && !a.OtherLedgerCommand? && !a.Start? && a.p in s.processors && a.p != p && p in s.processors
    ensures p in Next(s, a).processors && Next(s, a).processors[p] == s.processors[p]
  {
    hide Valid, FundTx, PayTx, FundFailTx, PayFailTx, FinalizeTx, OpenTx, Decision;
  }

  lemma UnfitDoesNothing(s: State, a: Action)
    requires Valid(s) && !a.CreateBatch? && !a.OtherLedgerCommand? && !a.Start? && !a.Crash? && a.p in s.processors
    requires !Own(s, a, a.p)
    ensures Next(s, a) == s
  {
    hide Valid, FundTx, PayTx, FundFailTx, PayFailTx, FinalizeTx, OpenTx, Decision;
  }

  // ---------- own steps ----------

  /** An own step brings the run closer to its end, or ends it with the batch settled. */
  lemma OwnStep(s: State, a: Action, p: nat, n: nat)
    requires OrderlyInv(s) && UnderWay(s, p, n) && Own(s, a, p)
    ensures Valid(s) && var t := Next(s, a);
            if p in t.processors then UnderWay(t, p, n) && Left(t.book, t.processors[p]) < Left(s.book, s.processors[p])
            else Settled(t.book, n)
  {
    hide Inv, OrderlyInv, EventsKnown, Alone, Valid, Next, Settled, Header, TodoOk, Left;
    var x := s.processors[p];
    match x.phase {
      case Opening => OpenGoesOn(s, p, n);
      case PayErr(_, _) => PayFailGoesOn(s, p, n);
      case Started(seen) => DecideGoesOn(s, p, n, seen);
      case Opened => RereadGoesOn(s, p, n);
      case Paying(todo) =>
        if todo == [] {
          FinalizeEndsRun(s, p, n);
        } else {
          PayGoesOn(s, a, p, n);
        }
      case _ =>
    }
  }

  lemma DecideGoesOn(s: State, p: nat, n: nat, seen: BatchStatus)
    requires OrderlyInv(s) && UnderWay(s, p, n) && s.processors[p].phase == Started(seen)
    ensures Valid(s) && var t := Next(s, Decide(p));
            p in t.processors && UnderWay(t, p, n) && Left(t.book, t.processors[p]) < Left(s.book, s.processors[p])
  {
    hide Inv, OrderlyInv, Valid, Next, PendingIds, Decision, Header, Knows, EventsKnown, Alone, ItemsFit;
    StepFacts(s, p);
    DecidesToGoOn(s, p, n, seen);
    DecideOn(s, p, n, seen, if seen == FundingReserved then Opening else Opened);
  }

  lemma DecidesToGoOn(s: State, p: nat, n: nat, seen: BatchStatus)
    requires OrderlyInv(s) && UnderWay(s, p, n) && s.processors[p].phase == Started(seen)
    ensures Decision(s.book, n, seen) == Some(if seen == FundingReserved then Opening else Opened)
  {
    StepFacts(s, p);
    hide Inv, OrderlyInv, Valid, EventsKnown, Alone;
    if seen == Disbursing {
      assert Resumable(s.book, n);
    }
  }

  lemma OpenedIsFunded(s: State, p: nat, n: nat)
    requires OrderlyInv(s) && UnderWay(s, p, n) && s.processors[p].phase == Opened
    ensures s.book.batches[n].reservation.Some?
  {
    StepFacts(s, p);
    hide Inv, OrderlyInv, Valid, EventsKnown, Alone, ItemsFit;
  }

  lemma RereadGoesOn(s: State, p: nat, n: nat)
    requires OrderlyInv(s) && UnderWay(s, p, n) && s.processors[p].phase == Opened
    ensures Valid(s) && var t := Next(s, Reread(p));
            p in t.processors && UnderWay(t, p, n) && Left(t.book, t.processors[p]) < Left(s.book, s.processors[p])
  {
    hide Inv, OrderlyInv, Valid, Next, PendingIds, Header, Knows, EventsKnown, Alone, ItemsFit;
    StepFacts(s, p);
    OpenedIsFunded(s, p, n);
    ClearingConfigured(s, n);
    RereadStep(s, p, n);
  }

  lemma OpenGoesOn(s: State, p: nat, n: nat)
    requires OrderlyInv(s) && UnderWay(s, p, n) && s.processors[p].phase == Opening
    ensures Valid(s) && var t := Next(s, Open(p));
            p in t.processors && UnderWay(t, p, n) && Left(t.book, t.processors[p]) < Left(s.book, s.processors[p])
  {
    hide Inv, OrderlyInv, Valid, Next, PendingIds, Header, Knows, EventsKnown, Alone, ItemsFit;
    StepFacts(s, p);
    OpenStep(s, p, n);
  }

  lemma PayFailGoesOn(s: State, p: nat, n: nat)
    requires OrderlyInv(s) && UnderWay(s, p, n) && s.processors[p].phase.PayErr?
    ensures Valid(s) && var t := Next(s, PayFail(p));
            p in t.processors && UnderWay(t, p, n) && Left(t.book, t.processors[p]) < Left(s.book, s.processors[p])
  {
    hide Inv, OrderlyInv, Valid, Next, Header, Knows, EventsKnown, Alone, ItemsFit;
    StepFacts(s, p);
    FailedItem(s, p);
    var x := s.processors[p].phase;
    PayFailStep(s, p, n, x.item, x.todo);
  }

  lemma PayGoesOn(s: State, a: Action, p: nat, n: nat)
    requires OrderlyInv(s) && UnderWay(s, p, n) && s.processors[p].phase.Paying? && s.processors[p].phase.todo != [] && a.Pay? && a.p == p
    ensures Valid(s) && var t := Next(s, a);
            p in t.processors && UnderWay(t, p, n) && Left(t.book, t.processors[p]) < Left(s.book, s.processors[p])
  {
    hide Inv, OrderlyInv, Valid, Next, Header, Knows, EventsKnown, Alone, ItemsFit, PayTx;
    StepFacts(s, p);
    PayerTodo(s, p);
    var todo := s.processors[p].phase.todo;
    PayTxEffect(s.ledger, s.book, todo[0]);
    PayStep(s, p, n, todo, a.fault);
    assert a == Pay(p, a.fault);
  }

  lemma FinalizeEndsRun(s: State, p: nat, n: nat)
    requires OrderlyInv(s) && UnderWay(s, p, n) && s.processors[p].phase == Paying([])
    ensures Valid(s) && p !in Next(s, Finalize(p)).processors && Settled(Next(s, Finalize(p)).book, n)
  {
    hide Inv, OrderlyInv, EventsKnown, Alone, Valid, Header, ItemsFit, Next, Settled;
    StepFacts(s, p);
    FinalizeStep(s, p, n);
    FinalizeEnds(s.book, n);
    SettledByFinalize(s.book, FinalizeTx(s.book, n), n);
  }

  lemma SettledByFinalize(b: Book, c: Book, n: nat)
    requires n < |b.batches| == |c.batches| && c.items == b.items && !SomeItem(c, n, Pending) && AllItemsTerminal(c, n)
    requires c.batches[n].status == (if SomeItem(b, n, ItemFailed) then BatchFailed else BatchCompleted)
    ensures Settled(c, n)
  {
    assert SomeItem(b, n, ItemFailed) <==> SomeItem(c, n, ItemFailed);
  }

  lemma SettledStays(b: Book, c: Book, n: nat)
    requires Settled(b, n) && SameFor(b, c, n)
    ensures Settled(c, n)
  {
    hide SomeItem;
    assert SomeItem(b, n, ItemFailed) <==> SomeItem(c, n, ItemFailed) by { SomeItemSame(b, c, n, ItemFailed); }
    assert !SomeItem(c, n, Pending) by { SomeItemSame(b, c, n, Pending); }
  }

  lemma SomeItemSame(b: Book, c: Book, n: nat, status: ItemStatus)
    requires SameFor(b, c, n)
    ensures SomeItem(b, n, status) <==> SomeItem(c, n, status)
  {
    if i :| 0 <= i < |b.items| && b.items[i].batch == n && b.items[i].status == status {
      assert c.items[i] == b.items[i];
    }
    if i :| 0 <= i < |c.items| && c.items[i].batch == n && c.items[i].status == status {
      assert b.items[i] == c.items[i];
    }
  }

  // ---------- whole runs ----------

  /** How many own steps of the run the list holds. */
  ghost function OwnSteps(s: State, actions: seq<Action>, p: nat): nat
    requires Inv(s)
    decreases |actions|
  {
    if actions == [] then 0
    else
      PayrollLaws.NextKeepsInv(s, actions[0]);
      (if Own(s, actions[0], p) then 1 else 0) + OwnSteps(Next(s, actions[0]), actions[1..], p)
  }

  /** Whatever else goes on in between (one run per batch at a time): an uncrashed run either is still under
      way, every own step having used up some of its bound, or it is over and its batch is settled. */
  lemma {:induction false} UncrashedRunSettles(s: State, actions: seq<Action>, p: nat, n: nat)
    requires OrderlyInv(s) && OrderlyRun(s, actions) && NoCrash(actions, p) && UnderWay(s, p, n)
    ensures var t := Exec(s, actions);
            || (UnderWay(t, p, n) && OwnSteps(s, actions, p) + Left(t.book, t.processors[p]) <= Left(s.book, s.processors[p]))
            || Settled(t.book, n)
    decreases |actions|
  {
    InvOf(s);
    if actions != [] {
      var a, t := actions[0], Next(s, actions[0]);
      hide Inv, OrderlyInv, Settled, Left, Own, Orderly, Next, SameFor, UnderWay, Exec, OwnSteps, OrderlyRun;
      StepRun(s, actions, p, n);
      if p in t.processors && UnderWay(t, p, n) {
        UncrashedRunSettles(t, actions[1..], p, n);
      } else {
        SettledIsDone(t, n);
        TerminalIsAbsorbing(t, actions[1..], n);
        SettledStays(t.book, Exec(t, actions[1..]).book, n);
      }
    }
  }

  lemma StepRun(s: State, actions: seq<Action>, p: nat, n: nat)
    requires OrderlyInv(s) && Inv(s) && actions != [] && OrderlyRun(s, actions) && NoCrash(actions, p) && UnderWay(s, p, n)
    ensures var t := Next(s, actions[0]);
            && OrderlyInv(t) && Inv(t) && OrderlyRun(t, actions[1..]) && NoCrash(actions[1..], p)
            && Exec(s, actions) == Exec(t, actions[1..])
            && OwnSteps(s, actions, p) == (if Own(s, actions[0], p) then 1 else 0) + OwnSteps(t, actions[1..], p)
            && (if p in t.processors && UnderWay(t, p, n)
                then Left(t.book, t.processors[p]) + (if Own(s, actions[0], p) then 1 else 0) <= Left(s.book, s.processors[p])
                else Settled(t.book, n))
  {
    var a := actions[0];
    NextOrderly(s, a);
    hide Inv, OrderlyInv, Settled, Next, SameFor, Own, Orderly, PendingIds;
    if Own(s, a, p) {
      OwnStep(s, a, p, n);
    } else {
      OtherStep(s, a, p, n);
      StillUnderWay(s, Next(s, a), p, n);
    }
  }

  lemma StillUnderWay(s: State, t: State, p: nat, n: nat)
    requires UnderWay(s, p, n) && p in t.processors && t.processors[p] == s.processors[p] && SameFor(s.book, t.book, n)
    ensures UnderWay(t, p, n) && Left(t.book, t.processors[p]) == Left(s.book, s.processors[p])
  {
    PendingSame(s.book.items, t.book.items, n);
    hide PendingIds;
    if i :| 0 <= i < |s.book.items| && s.book.items[i].batch == n {
      assert t.book.items[i].batch == n;
    }
  }

  lemma SettledIsDone(t: State, n: nat)
    requires Settled(t.book, n)
    ensures Done(t.book, n)
  {
  }
}
