/** Reversals: the mirror of a posted transaction always fits the ledger's own checks
    and erases its original from every balance. */
module Reversals {
  import opened Basics
  import opened Ledger
  import opened LedgerLaws
  import opened Spellings

  lemma {:induction false} MirroredNet(lines: seq<Line>, a: AccountId)
    ensures Net(Mirrored(lines), a) == 0 - Net(lines, a)
  {
    if lines != [] {
      var n := |lines| - 1;
      MirroredNet(lines[..n], a);
      assert Mirrored(lines)[..n] == Mirrored(lines[..n]);
    }
  }

  lemma {:induction false} MirroredTotals(lines: seq<Line>, c: Currency)
    ensures Total(Mirrored(lines), Debit, c) == Total(lines, Credit, c)
    ensures Total(Mirrored(lines), Credit, c) == Total(lines, Debit, c)
  {
    if lines != [] {
      var n := |lines| - 1;
      MirroredTotals(lines[..n], c);
      assert Mirrored(lines)[..n] == Mirrored(lines[..n]);
    }
  }

  lemma MirroredBalanced(lines: seq<Line>)
    requires Balanced(lines)
    ensures Balanced(Mirrored(lines))
  {
    forall c: Currency
      ensures Total(Mirrored(lines), Debit, c) == Total(Mirrored(lines), Credit, c)
    {
      MirroredTotals(lines, c);
    }
  }

  ghost predicate Reversible(s: State, original: TxId) {
    && original < |s.transactions|
    && s.transactions[original].lines != []
    && s.transactions[original].txType != Reversal
  }

  /** Whether the accounts of the original can still carry its mirror. */
  ghost predicate CanGiveBack(s: State, original: TxId)
    requires original < |s.transactions|
  {
    forall a :: a in s.accounts && a in Touched(s.transactions[original].lines) ==>
      && s.accounts[a].status == Active
      && s.accounts[a].available - Net(s.transactions[original].lines, a) >= 0 - s.accounts[a].overdraft
  }

  lemma MirroredTouches(lines: seq<Line>)
    ensures Touched(Mirrored(lines)) == Touched(lines)
  {
    forall i | 0 <= i < |lines|
      ensures Mirrored(lines)[i].account == lines[i].account
    {
    }
    assert forall a :: a in Touched(lines) ==> exists i :: 0 <= i < |lines| && Mirrored(lines)[i].account == a;
  }

  /** Stored lines name their accounts by the rows themselves. */
  lemma StoredLinesAreRows(s: State, original: TxId)
    requires Inv(s) && original < |s.transactions|
    ensures var lines := s.transactions[original].lines;
            && (forall k :: 0 <= k < |lines| ==> lines[k].account in s.accounts && Row(lines[k].account) == lines[k].account
                                                 && s.accounts[lines[k].account].currency == lines[k].currency)
            && (forall a :: a in Touched(lines) ==> a in s.accounts && Row(a) == a)
            && Stored(lines) == lines && Stored(Mirrored(lines)) == Mirrored(lines)
  {
    assert WellPosted(s.accounts, s.transactions[original]);
    hide Row, Balanced;
  }

  lemma MirroredFundable(s: State, original: TxId)
    requires Inv(s) && original < |s.transactions|
    ensures Fundable(s.accounts, Mirrored(s.transactions[original].lines)) <==> CanGiveBack(s, original)
  {
    var lines := s.transactions[original].lines;
    StoredLinesAreRows(s, original);
    MirroredTouches(lines);
    hide Inv, Net, Row;
    forall a
      ensures Net(Mirrored(lines), a) == 0 - Net(lines, a)
    {
      MirroredNet(lines, a);
    }
    if CanGiveBack(s, original) {
      forall k | 0 <= k < |lines|
        ensures Mirrored(lines)[k].account in Touched(lines) && Mirrored(lines)[k].currency == lines[k].currency
      {
      }
    }
    if Fundable(s.accounts, Mirrored(lines)) {
      forall a | a in s.accounts && a in Touched(lines)
        ensures s.accounts[a].status == Active
      {
        var k :| 0 <= k < |Mirrored(lines)| && Mirrored(lines)[k].account == a;
      }
    }
  }

  /** A reversal under a fresh id goes through exactly when the original has not been reversed
      and its accounts are active and can give the money back. It never fails the balance,
      line-number, currency or account-existence checks. */
  lemma ReverseAcceptsExactly(s: State, original: TxId, c: Correlation)
    requires Inv(s) && Reversible(s, original)
    requires c != Free("") && FindCorrelation(s.transactions, c).None?
    ensures Reverse(s, original, c).1.Posted? <==>
            FindReversal(s.transactions, original).None? && CanGiveBack(s, original)
  {
    var t := s.transactions[original];
    assert WellPosted(s.accounts, t);
    var p := ReversalOf(s.transactions, original, c);
    MirroredBalanced(t.lines);
    MirroredFundable(s, original);
    assert forall i :: 0 <= i < |p.numbers| ==> p.numbers[i] == Some(t.numbers[i]);
    assert Distinct(p.numbers);
    PostAcceptsExactly(s, p);
  }

  lemma ReverseKeepsInv(s: State, original: TxId, c: Correlation)
    requires Inv(s)
    ensures Inv(Reverse(s, original, c).0)
  {
    hide Inv, Reverse;
    NextKeepsInv(s, ReverseTx(original, c));
  }

  ghost predicate Cancels(txs: seq<Transaction>, original: TxId, reversal: TxId)
    requires original < |txs| && reversal < |txs|
  {
    forall a :: Net(txs[original].lines, a) + Net(txs[reversal].lines, a) == 0
  }

  /** Line by line, a reversal made by `reverse` undoes its original on every account. */
  lemma ReversalCancels(s: State, original: TxId, c: Correlation)
    requires Inv(s) && Reverse(s, original, c).1.Posted?
    ensures var (t, r) := Reverse(s, original, c);
            original < r.id < |t.transactions| && Cancels(t.transactions, original, r.id)
            && t.transactions[r.id].reverses == Some(original)
  {
    hide Inv, Net, Stored, Mirrored, FindCorrelation, CheckPosting, Project;
    var (t, r) := Reverse(s, original, c);
    StoredLinesAreRows(s, original);
    forall a
      ensures Net(t.transactions[original].lines, a) + Net(t.transactions[r.id].lines, a) == 0
    {
      MirroredNet(s.transactions[original].lines, a);
    }
  }

  /** What a reversal stores: the original's lines in their order and under their numbers, debit and credit
      exchanged and nothing else. */
  lemma ReversalStores(s: State, original: TxId, c: Correlation)
    requires Inv(s) && Reverse(s, original, c).1.Posted?
    ensures var (t, r) := Reverse(s, original, c);
            var n := |s.transactions|;
            && original < n && r == Posted(n) && |t.transactions| == n + 1 && t.transactions[..n] == s.transactions
            && var x, y := s.transactions[original], t.transactions[n];
               && y.txType == Reversal && y.reverses == Some(original) && y.correlation == c
               && |y.lines| == |x.lines| && y.numbers == x.numbers
               && forall k :: 0 <= k < |x.lines| ==>
                    y.lines[k] == Line(x.lines[k].account, if x.lines[k].entryType == Debit then Credit else Debit, x.lines[k].amount, x.lines[k].currency)
  {
    hide Inv, Post;
    StoredLinesAreRows(s, original);
    var p := ReversalOf(s.transactions, original, c);
    PostStores(s, p);
    var t := Reverse(s, original, c).0;
    assert t == Post(s, p).0;
    assert t.transactions[|s.transactions|].numbers == s.transactions[original].numbers;
  }

  /** The other answers of `reverse`: a used id is answered with the transaction that used it, an unknown or
      empty original is not found, a reversal and a reversed original are refused; nothing changes. */
  lemma ReversalRefusals(s: State, original: TxId, c: Correlation)
    requires Inv(s)
    ensures var (t, r) := Reverse(s, original, c);
            && (!r.Posted? ==> t == s)
            && (r.Replayed? ==> r.id < |s.transactions| && s.transactions[r.id].correlation == c)
            && (r.Replayed? <==> c != Free("") && exists i :: 0 <= i < |s.transactions| && s.transactions[i].correlation == c)
            && (!r.Replayed? ==>
                  && (r == Rejected(OriginalNotFound) <==> original >= |s.transactions| || s.transactions[original].lines == [])
                  && (original < |s.transactions| && s.transactions[original].lines != [] ==>
                        && (r == Rejected(TargetIsReversal) <==> s.transactions[original].txType == Reversal)
                        && (s.transactions[original].txType != Reversal ==>
                              && (r == Rejected(MissingCorrelation) <==> c == Free(""))
                              && (c != Free("") ==>
                                    (r == Rejected(AlreadyReversed) <==>
                                       exists i :: 0 <= i < |s.transactions| && s.transactions[i].reverses == Some(original))))))
  {
    hide Post, WithinLimits, AllWellPosted, UniqueCorrelations;
    if original < |s.transactions| && s.transactions[original].lines != [] && s.transactions[original].txType != Reversal {
      var p := ReversalOf(s.transactions, original, c);
      PostExtends(s, p);
      if FindCorrelation(s.transactions, c).None? {
        BundleRefusals(s, p);
        UnusedIdIsNotReplayed(s, p);
      } else {
        MissingIdRefused(s, p);
      }
    }
  }

  lemma MissingIdRefused(s: State, p: Posting)
    ensures Post(s, p).1 == Rejected(MissingCorrelation) <==> p.correlation == Free("")
  {
    hide Precheck, Project, Stored, BalancedIn, FindCorrelation;
    PrecheckRefusals(s.accounts, p.lines);
  }

  function Effects(txs: seq<Transaction>, a: AccountId): seq<int> {
    seq(|txs|, i requires 0 <= i < |txs| => Net(txs[i].lines, a))
  }

  lemma {:induction false} HistoryIsSum(txs: seq<Transaction>, a: AccountId)
    ensures History(txs, a) == Sum(Effects(txs, a))
  {
    if txs != [] {
      var n := |txs| - 1;
      HistoryIsSum(txs[..n], a);
      assert Effects(txs, a)[..n] == Effects(txs[..n], a);
    }
  }

  lemma PairErased(txs: seq<Transaction>, original: TxId, reversal: TxId, a: AccountId)
    requires original < reversal < |txs| && Cancels(txs, original, reversal)
    ensures History(txs, a) == Sum(Effects(txs, a)[original := 0][reversal := 0])
  {
    var e := Effects(txs, a);
    HistoryIsSum(txs, a);
    SumUpdate(e, original, 0);
    SumUpdate(e[original := 0], reversal, 0);
  }

  /** Whatever runs afterwards: once an original has been reversed, every history is what it would be
      without both transactions; and every stored balance too, as long as no posting loses anything. */
  lemma ReversalErasesOriginal(s: State, original: TxId, c: Correlation, after: seq<Command>, a: AccountId)
    requires Inv(s) && Reverse(s, original, c).1.Posted?
    ensures var (mid, r) := Reverse(s, original, c);
            var end := Exec(mid, after);
            && original < r.id < |end.transactions|
            && Cancels(end.transactions, original, r.id)
            && History(end.transactions, a) == Sum(Effects(end.transactions, a)[original := 0][r.id := 0])
            && (Agrees(s) && AllGuarded(after) && a in end.accounts ==>
                  end.accounts[a].balance == Sum(Effects(end.transactions, a)[original := 0][r.id := 0]))
  {
    hide Post, Exec, Inv, Agrees, Cancels, Effects, AllGuarded, History;
    var (mid, r) := Reverse(s, original, c);
    ReversalCancels(s, original, c);
    ReverseKeepsInv(s, original, c);
    var end := Exec(mid, after);
    assert mid.transactions <= end.transactions by { ExecExtends(mid, after); }
    CancelsLater(mid.transactions, end.transactions, original, r.id);
    PairErased(end.transactions, original, r.id, a);
    if Agrees(s) && AllGuarded(after) && a in end.accounts {
      NextKeepsAgreement(s, ReverseTx(original, c));
      ExecKeepsAgreement(mid, after);
      BalanceShown(end, a);
    }
  }

  lemma CancelsLater(txs: seq<Transaction>, later: seq<Transaction>, original: TxId, reversal: TxId)
    requires txs <= later && original < |txs| && reversal < |txs| && Cancels(txs, original, reversal)
    ensures Cancels(later, original, reversal)
  {
  }

  /** Over any run: at most one reversal per original, and no reversal is reversed. */
  lemma ReversedAtMostOnce(cs: seq<Command>, i: TxId, j: TxId)
    requires i < |Exec(Empty, cs).transactions| && j < |Exec(Empty, cs).transactions|
    requires var txs := Exec(Empty, cs).transactions; txs[i].reverses.Some? && txs[i].reverses == txs[j].reverses
    ensures i == j
    ensures var txs := Exec(Empty, cs).transactions;
            txs[i].txType == Reversal && txs[i].reverses.value < i && txs[txs[i].reverses.value].txType != Reversal
  {
    ReachableLedger(cs);
  }

  // ---------- a REVERSAL posted through the free-form route ----------

  function Repost(s: State, original: TxId, text: string): Posting
    requires original < |s.transactions|
  {
    var lines := s.transactions[original].lines;
    RawPosting.Posting(Reversal, Some(original), Free(text), lines, seq(|lines|, i => None))
  }

  /** A transaction of type REVERSAL that did not come from `reverse` need not cancel its target:
      the posting checks never compare its lines with the target's. Reposting the original's own
      lines as its REVERSAL is accepted, and doubles the original, whenever they can be funded again. */
  lemma FreeFormReversalNeedNotCancel(s: State, original: TxId, text: string, a: AccountId)
    requires Inv(s) && Reversible(s, original) && FindReversal(s.transactions, original).None?
    requires text != "" && FindCorrelation(s.transactions, Free(text)).None?
    requires Fundable(s.accounts, s.transactions[original].lines) && Net(s.transactions[original].lines, a) != 0
    ensures var (t, r) := Post(s, Repost(s, original, text));
            && r == Posted(|s.transactions|)
            && t.transactions[r.id].reverses == Some(original)
            && !Cancels(t.transactions, original, r.id)
  {
    assert WellPosted(s.accounts, s.transactions[original]);
    hide Inv, Post, Fundable, Net, Stored, Balanced, FindReversal, FindCorrelation;
    StoredLinesAreRows(s, original);
    var p := Repost(s, original, text);
    assert AllOmitted(p.numbers);
    PostAcceptsExactly(s, p);
    PostExtends(s, p);
    UnusedIdIsNotReplayed(s, p);
    var t := Post(s, p).0;
    assert Net(t.transactions[original].lines, a) + Net(t.transactions[|s.transactions|].lines, a) != 0;
  }

  /** A request of at least two lines that the free-form route accepts as the REVERSAL of `original`, and
      that does not cancel it. */
  ghost predicate NonCancelling(s: State, original: TxId, c: Correlation, p: Posting) {
    && original < |s.transactions|
    && p.txType == Reversal && p.reverses == Some(original) && p.correlation == c && |p.lines| >= 2
    && Post(s, p).1 == Posted(|s.transactions|)
    && |Post(s, p).0.transactions| == |s.transactions| + 1
    && !Cancels(Post(s, p).0.transactions, original, |s.transactions|)
  }

  ghost predicate MovesSomething(lines: seq<Line>) {
    exists a :: Net(lines, a) != 0
  }

  ghost predicate SomeActive(accounts: map<AccountId, Account>) {
    exists a :: a in accounts && accounts[a].status == Active
  }

  /** One active account can pay a unit to another one of its currency. */
  ghost predicate UnitCanMove(accounts: map<AccountId, Account>) {
    exists x, y :: PaysUnit(accounts, x, y)
  }

  ghost predicate PaysUnit(accounts: map<AccountId, Account>, x: AccountId, y: AccountId) {
    && x in accounts && y in accounts && x != y
    && accounts[x].status == Active && accounts[y].status == Active && accounts[x].currency == accounts[y].currency
    && accounts[x].available - 1 >= 0 - accounts[x].overdraft
  }

  /** For every ledger and every original without a reversal, under any unused id: the free-form route
      admits a REVERSAL that does not cancel if and only if the original moves some account and any
      account is active, or the original moves nothing and a unit can be moved at all. */
  lemma FreeFormReversalExactly(s: State, original: TxId, c: Correlation)
    requires Inv(s) && original < |s.transactions| && s.transactions[original].txType != Reversal
    requires FindReversal(s.transactions, original).None?
    requires c != Free("") && FindCorrelation(s.transactions, c).None?
    ensures (exists p: Posting :: NonCancelling(s, original, c, p)) <==>
              if MovesSomething(s.transactions[original].lines) then SomeActive(s.accounts) else UnitCanMove(s.accounts)
  {
    hide Inv, FindReversal, FindCorrelation, NonCancelling, UnitCanMove, SomeActive;
    if p: Posting :| NonCancelling(s, original, c, p) {
      NonCancellingNeeds(s, original, c, p);
    }
    if MovesSomething(s.transactions[original].lines) && SomeActive(s.accounts) {
      SelfTransferReverses(s, original, c);
    }
    if !MovesSomething(s.transactions[original].lines) && UnitCanMove(s.accounts) {
      UnitTransferReverses(s, original, c);
    }
  }

  function PairPosting(original: TxId, c: Correlation, x: AccountId, y: AccountId, cur: Currency): Posting {
    RawPosting.Posting(Reversal, Some(original), c, TransferLines(x, y, 1, cur), [None, None])
  }

  lemma PairFundable(s: State, x: AccountId, y: AccountId)
    requires WithinLimits(s)
    requires x in s.accounts && y in s.accounts && s.accounts[x].status == Active && s.accounts[y].status == Active
    requires s.accounts[x].currency == s.accounts[y].currency
    requires x != y ==> s.accounts[x].available - 1 >= 0 - s.accounts[x].overdraft
    ensures Row(x) == x && Row(y) == y && Fundable(s.accounts, TransferLines(x, y, 1, s.accounts[x].currency))
  {
    TransferEffects(x, y, 1, s.accounts[x].currency);
    hide Row, Net, Touched;
  }

  lemma PairAccepted(s: State, original: TxId, c: Correlation, x: AccountId, y: AccountId)
    requires Inv(s) && original < |s.transactions| && s.transactions[original].txType != Reversal
    requires FindReversal(s.transactions, original).None?
    requires c != Free("") && FindCorrelation(s.transactions, c).None?
    requires x in s.accounts && y in s.accounts && s.accounts[x].status == Active && s.accounts[y].status == Active
    requires s.accounts[x].currency == s.accounts[y].currency
    requires x != y ==> s.accounts[x].available - 1 >= 0 - s.accounts[x].overdraft
    ensures var p := PairPosting(original, c, x, y, s.accounts[x].currency);
            && Post(s, p).1 == Posted(|s.transactions|)
            && |Post(s, p).0.transactions| == |s.transactions| + 1
            && Post(s, p).0.transactions[original] == s.transactions[original]
            && forall a :: Net(Post(s, p).0.transactions[|s.transactions|].lines, a) == (if a == y then 1 else 0) - (if a == x then 1 else 0)
  {
    var cur := s.accounts[x].currency;
    var p := PairPosting(original, c, x, y, cur);
    PairFundable(s, x, y);
    PairPosts(s, p, x, y, cur);
    hide Inv, Post, Row, Net, Stored, Balanced, Touched, Fundable, FindCorrelation, FindReversal;
    TransferEffects(x, y, 1, cur);
    StoredTransfer(x, y, 1, cur);
    PostExtends(s, p);
  }

  lemma PairPosts(s: State, p: Posting, x: AccountId, y: AccountId, cur: Currency)
    requires p.correlation != Free("") && FindCorrelation(s.transactions, p.correlation).None?
    requires p.txType == Reversal && p.reverses.Some? && p.reverses.value < |s.transactions|
    requires s.transactions[p.reverses.value].txType != Reversal && FindReversal(s.transactions, p.reverses.value).None?
    requires p.lines == TransferLines(x, y, 1, cur) && p.numbers == [None, None] && Fundable(s.accounts, p.lines)
    ensures Post(s, p).1.Posted?
  {
    hide Post, Fundable, Balanced, FindCorrelation, FindReversal, Net, Touched, TransferLines;
    TransferEffects(x, y, 1, cur);
    PostAcceptsExactly(s, p);
  }

  lemma SelfTransferReverses(s: State, original: TxId, c: Correlation)
    requires Inv(s) && original < |s.transactions| && s.transactions[original].txType != Reversal
    requires FindReversal(s.transactions, original).None? && c != Free("") && FindCorrelation(s.transactions, c).None?
    requires MovesSomething(s.transactions[original].lines) && SomeActive(s.accounts)
    ensures exists p: Posting :: NonCancelling(s, original, c, p)
  {
    hide Post, Inv, Net, FindReversal, FindCorrelation, Cancels, NonCancelling;
    var a :| a in s.accounts && s.accounts[a].status == Active;
    PairAccepted(s, original, c, a, a);
    var b :| Net(s.transactions[original].lines, b) != 0;
    PairDoesNotCancel(s, original, c, a, a, b);
  }

  lemma PairDoesNotCancel(s: State, original: TxId, c: Correlation, x: AccountId, y: AccountId, b: AccountId)
    requires original < |s.transactions| && x in s.accounts
    requires var p := PairPosting(original, c, x, y, s.accounts[x].currency);
             && Post(s, p).1 == Posted(|s.transactions|)
             && |Post(s, p).0.transactions| == |s.transactions| + 1
             && Post(s, p).0.transactions[original] == s.transactions[original]
             && Net(s.transactions[original].lines, b) + Net(Post(s, p).0.transactions[|s.transactions|].lines, b) != 0
    ensures NonCancelling(s, original, c, PairPosting(original, c, x, y, s.accounts[x].currency))
  {
    hide Post, Net;
  }

  lemma UnitTransferReverses(s: State, original: TxId, c: Correlation)
    requires Inv(s) && original < |s.transactions| && s.transactions[original].txType != Reversal
    requires FindReversal(s.transactions, original).None? && c != Free("") && FindCorrelation(s.transactions, c).None?
    requires !MovesSomething(s.transactions[original].lines) && UnitCanMove(s.accounts)
    ensures exists p: Posting :: NonCancelling(s, original, c, p)
  {
    hide Post, Inv, Net, FindReversal, FindCorrelation, Cancels, NonCancelling;
    var x, y :| PaysUnit(s.accounts, x, y);
    PairAccepted(s, original, c, x, y);
    PairDoesNotCancel(s, original, c, x, y, x);
  }

  lemma NonCancellingNeeds(s: State, original: TxId, c: Correlation, p: Posting)
    requires Inv(s) && NonCancelling(s, original, c, p)
    ensures if MovesSomething(s.transactions[original].lines) then SomeActive(s.accounts) else UnitCanMove(s.accounts)
  {
    PostAppends(s, p);
    PrecheckExactly(s.accounts, p.lines);
    var t := Post(s, p).0;
    var tx := t.transactions[|s.transactions|];
    if MovesSomething(s.transactions[original].lines) {
      var k := p.lines[0];
      assert Row(k.account) in s.accounts && s.accounts[Row(k.account)].status == Active;
    } else {
      hide Inv, Post, Fundable, Precheck, Net;
      assert t.transactions[original] == s.transactions[original];
      var a :| Net(t.transactions[original].lines, a) + Net(tx.lines, a) != 0;
      BalancedMeansAllCurrencies(p.lines);
      UnitMoves(s, p.lines, a);
    }
  }

  /** A fundable, balanced bundle that moves an account shows a payer and a payee in its currency. */
  lemma UnitMoves(s: State, lines: seq<Line>, a: AccountId)
    requires Balanced(lines) && Fundable(s.accounts, lines) && Net(Stored(lines), a) != 0
    ensures UnitCanMove(s.accounts)
  {
    MovedIsUsable(s.accounts, lines, a);
    var c := s.accounts[a].currency;
    var ids := Holding(s.accounts, c);
    StoredBalanced(lines);
    StoredHolding(s.accounts, lines, c);
    hide Net, Fundable, Stored;
    NetMapSum(ids, Stored(lines), c);
    var m := NetMap(ids, Stored(lines));
    MapSumOpposite(m, a);
    var b :| b in m && b != a && (m[a] > 0 ==> m[b] < 0) && (m[a] < 0 ==> m[b] > 0);
    MovedIsUsable(s.accounts, lines, b);
    if m[a] < 0 {
      PayerCanPay(s.accounts, lines, a);
      assert PaysUnit(s.accounts, a, b);
    } else {
      PayerCanPay(s.accounts, lines, b);
      assert PaysUnit(s.accounts, b, a);
    }
  }

  lemma StoredHolding(accounts: map<AccountId, Account>, lines: seq<Line>, c: Currency)
    requires Fundable(accounts, lines)
    ensures forall k :: 0 <= k < |Stored(lines)| ==> (Stored(lines)[k].currency == c <==> Stored(lines)[k].account in Holding(accounts, c))
  {
    hide Row;
  }

  lemma MovedIsUsable(accounts: map<AccountId, Account>, lines: seq<Line>, a: AccountId)
    requires Fundable(accounts, lines) && Net(Stored(lines), a) != 0
    ensures a in accounts && accounts[a].status == Active
  {
    if a !in Touched(Stored(lines)) {
      NetUntouched(Stored(lines), a);
    }
    hide Net, Row;
    var k :| 0 <= k < |Stored(lines)| && Stored(lines)[k].account == a;
    assert Row(lines[k].account) == a;
  }

  lemma SpellingIsFunded(accounts: map<AccountId, Account>, lines: seq<Line>, r: AccountRef)
    requires Fundable(accounts, lines) && r in Touched(lines) && Row(r) in accounts
    ensures accounts[Row(r)].available + Net(lines, r) >= 0 - accounts[Row(r)].overdraft
  {
    hide Net, Row, Touched;
  }

  /** Of an account that goes down, some spelling goes down, and it was checked alone. */
  lemma PayerCanPay(accounts: map<AccountId, Account>, lines: seq<Line>, a: AccountId)
    requires Fundable(accounts, lines) && a in accounts && Net(Stored(lines), a) < 0
    ensures accounts[a].available - 1 >= 0 - accounts[a].overdraft
  {
    hide Net, Stored, SpellingsOf, Row, Touched, Sum, Fundable, Delta;
    var rs := SpellingsOf(lines, a);
    SpellingsOfAll(lines, a);
    SpellingsAddUp(lines, rs, a);
    if forall k :: 0 <= k < |rs| ==> Net(lines, rs[k]) >= 0 {
      SumNonNegative(Deltas(lines, rs));
    }
    var k :| 0 <= k < |rs| && Net(lines, rs[k]) < 0;
    SpellingIsFunded(accounts, lines, rs[k]);
  }

  const ORIGINAL: Transaction := StoredTx.Transaction(Transfer, None, Free("original"), TransferLines(1, 2, 10, USD), [1, 2])

  /** Two accounts after one transfer of 10 from account 1 to account 2. */
  const TRANSFERRED := State(map[1 := Account(0, "a", USD, Active, -10, -10, 100),
                                 2 := Account(0, "b", USD, Active, 10, 10, 0)], [ORIGINAL])

  lemma TransferredInv()
    ensures Inv(TRANSFERRED) && Agrees(TRANSFERRED)
  {
    TransferEffects(1, 2, 10, USD);
    forall a | a in TRANSFERRED.accounts
      ensures TRANSFERRED.accounts[a].balance == History(TRANSFERRED.transactions, a)
    {
      HistoryAppend([], ORIGINAL, a);
      assert [] + [ORIGINAL] == TRANSFERRED.transactions;
    }
    assert WellPosted(TRANSFERRED.accounts, ORIGINAL);
  }

  lemma FreeFormReversalExample()
    ensures Inv(TRANSFERRED) && Agrees(TRANSFERRED)
    ensures var (t, r) := Post(TRANSFERRED, Repost(TRANSFERRED, 0, "reversal"));
            r == Posted(1) && t.transactions[1].reverses == Some(0) && !Cancels(t.transactions, 0, 1)
  {
    hide Post, Cancels, Inv;
    TransferredInv();
    TransferEffects(1, 2, 10, USD);
    assert FindReversal(TRANSFERRED.transactions, 0).None?;
    assert FindCorrelation(TRANSFERRED.transactions, Free("reversal")).None?;
    assert Row(1) == 1 && Row(2) == 2;
    assert Fundable(TRANSFERRED.accounts, ORIGINAL.lines);
    FreeFormReversalNeedNotCancel(TRANSFERRED, 0, "reversal", 2);
  }
}
