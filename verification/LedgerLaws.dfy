/** What every ledger command keeps however its accounts are spelled, and what agreement of stored
    balances with history brings: conservation per currency and bounded exposure. */
module LedgerLaws {
  import opened Basics
  import opened Ledger

  // ---------- lines ----------

  lemma {:induction false} NetUntouched(lines: seq<Line>, a: AccountId)
    requires a !in Touched(lines)
    ensures Net(lines, a) == 0
  {
    if lines != [] {
      var n := |lines| - 1;
      assert lines[n].account in Touched(lines);
      assert forall x :: x in Touched(lines[..n]) ==> x in Touched(lines);
      NetUntouched(lines[..n], a);
    }
  }

  lemma HistoryAppend(txs: seq<Transaction>, t: Transaction, a: AccountId)
    ensures History(txs + [t], a) == History(txs, a) + Net(t.lines, a)
  {
  }

  lemma BalancedMeansAllCurrencies(lines: seq<Line>)
    ensures BalancedIn(lines, CURRENCIES) <==> Balanced(lines)
  {
  }

  lemma {:induction false} CurrencyOnLine(lines: seq<Line>, k: nat)
    requires k < |lines| && !MixesCurrencies(lines)
    ensures lines[k].account in Touched(lines)
    ensures CurrencyOn(lines, lines[k].account) == lines[k].currency
    decreases |lines|
  {
    var n := |lines| - 1;
    assert lines[k].account in Touched(lines);
    if lines[n].account == lines[k].account {
      assert k < n ==> lines[k].currency == lines[n].currency;
    } else {
      assert lines[..n][k] == lines[k];
      CurrencyOnLine(lines[..n], k);
    }
  }

  /** A transfer balances and moves its amount from source to destination. */
  lemma TransferEffects(source: AccountId, dest: AccountId, amount: nat, c: Currency)
    ensures var lines := TransferLines(source, dest, amount, c);
            && Balanced(lines)
            && Touched(lines) == {source, dest}
            && forall a :: Net(lines, a) == (if a == dest then amount else 0) - (if a == source then amount else 0)
  {
    var lines := TransferLines(source, dest, amount, c);
    assert lines[..1] == [lines[0]] && lines[..1][..0] == [];
    assert lines[0].account in Touched(lines) && lines[1].account in Touched(lines);
    forall d: Currency
      ensures Total(lines, Debit, d) == Total(lines, Credit, d)
    {
      assert Total(lines[..1], Debit, d) == (if d == c then amount else 0);
      assert Total(lines[..1], Credit, d) == 0;
    }
    forall a
      ensures Net(lines, a) == (if a == dest then amount else 0) - (if a == source then amount else 0)
    {
      assert Net(lines[..1], a) == 0 - (if a == source then amount else 0);
    }
  }

  /** The uuid column changes no sum over currencies. */
  lemma {:induction false} StoredTotals(lines: seq<Line>, side: EntryType, c: Currency)
    ensures Total(Stored(lines), side, c) == Total(lines, side, c)
  {
    if lines != [] {
      var n := |lines| - 1;
      assert Stored(lines)[..n] == Stored(lines[..n]);
      StoredTotals(lines[..n], side, c);
    }
  }

  lemma StoredBalanced(lines: seq<Line>)
    ensures Balanced(Stored(lines)) <==> Balanced(lines)
  {
    forall c: Currency
      ensures Total(Stored(lines), Debit, c) == Total(lines, Debit, c) && Total(Stored(lines), Credit, c) == Total(lines, Credit, c)
    {
      StoredTotals(lines, Debit, c);
      StoredTotals(lines, Credit, c);
    }
  }

  lemma StoredTransfer(source: AccountRef, dest: AccountRef, amount: nat, c: Currency)
    ensures Stored(TransferLines(source, dest, amount, c)) == TransferLines(Row(source), Row(dest), amount, c)
  {
  }

  // ---------- the two passes ----------

  lemma PrecheckPerAccount(accounts: map<AccountId, Account>, lines: seq<Line>)
    ensures Precheck(accounts, lines).None? <==>
            !MixesCurrencies(lines) && forall a :: a in Touched(lines) ==> PrecheckError(accounts, lines, a).None?
  {
  }

  /** The pre-check pass makes the projection pass over the same lines infallible. */
  lemma PrecheckMakesProjectionInfallible(accounts: map<AccountId, Account>, lines: seq<Line>)
    requires Precheck(accounts, lines).None?
    ensures ProjectionCheck(accounts, lines).None?
  {
  }

  /** The condition on accounts under which a balanced bundle may be posted: every spelling alone must
      be payable from the stored row. */
  ghost predicate Fundable(accounts: map<AccountId, Account>, lines: seq<Line>) {
    && (forall k :: 0 <= k < |lines| ==>
          && Row(lines[k].account) in accounts
          && accounts[Row(lines[k].account)].status == Active
          && accounts[Row(lines[k].account)].currency == lines[k].currency)
    && (forall r :: r in Touched(lines) && Row(r) in accounts ==>
          accounts[Row(r)].available + Net(lines, r) >= 0 - accounts[Row(r)].overdraft)
  }

  lemma PrecheckExactly(accounts: map<AccountId, Account>, lines: seq<Line>)
    ensures Precheck(accounts, lines).None? <==> Fundable(accounts, lines)
  {
    PrecheckPerAccount(accounts, lines);
    if Precheck(accounts, lines).None? {
      forall k | 0 <= k < |lines|
        ensures && Row(lines[k].account) in accounts
                && accounts[Row(lines[k].account)].status == Active
                && accounts[Row(lines[k].account)].currency == lines[k].currency
      {
        CurrencyOnLine(lines, k);
        assert PrecheckError(accounts, lines, lines[k].account).None?;
      }
      forall r | r in Touched(lines) && Row(r) in accounts
        ensures accounts[Row(r)].available + Net(lines, r) >= 0 - accounts[Row(r)].overdraft
      {
        assert PrecheckError(accounts, lines, r).None?;
      }
    }
    if Fundable(accounts, lines) {
      assert !MixesCurrencies(lines);
      forall r | r in Touched(lines)
        ensures PrecheckError(accounts, lines, r).None?
      {
        var k :| 0 <= k < |lines| && lines[k].account == r;
        CurrencyOnLine(lines, k);
      }
    }
  }

  /** A fresh posting goes through exactly when it is balanced, properly numbered, fundable
      and, for a reversal, its target is an unreversed original. */
  lemma PostAcceptsExactly(s: State, p: Posting)
    requires p.correlation != Free("") && FindCorrelation(s.transactions, p.correlation).None?
    ensures Post(s, p).1.Posted? <==>
            && (p.txType == Reversal <==> p.reverses.Some?)
            && (p.reverses.Some? ==>
                  && p.reverses.value < |s.transactions|
                  && s.transactions[p.reverses.value].txType != Reversal
                  && forall i :: 0 <= i < |s.transactions| && s.transactions[i].txType == Reversal ==>
                       s.transactions[i].reverses != p.reverses)
            && Balanced(p.lines)
            && (AllOmitted(p.numbers) || (AllExplicit(p.numbers) && Distinct(p.numbers)))
            && Fundable(s.accounts, p.lines)
  {
    hide Precheck, Fundable, BalancedIn, Balanced, Project, Stored, FindCorrelation;
    BalancedMeansAllCurrencies(p.lines);
    PrecheckExactly(s.accounts, p.lines);
  }

  /** A fresh transfer that is no reversal goes through exactly when it can be funded. */
  lemma TransferPosts(s: State, p: Posting, source: AccountRef, dest: AccountRef, amount: nat, c: Currency)
    requires p.correlation != Free("") && FindCorrelation(s.transactions, p.correlation).None?
    requires p.txType != Reversal && p.reverses == None && p.numbers == [None, None] && p.lines == TransferLines(source, dest, amount, c)
    ensures !Post(s, p).1.Replayed? && (Post(s, p).1.Posted? <==> Fundable(s.accounts, p.lines))
  {
    hide Post, Fundable, Balanced, FindCorrelation, Net, Touched, TransferLines;
    TransferEffects(source, dest, amount, c);
    PostAcceptsExactly(s, p);
    UnusedIdIsNotReplayed(s, p);
  }

  // ---------- preservation ----------

  /** The overdraft limit of the stored balance holds after the last spelling, which was checked alone. */
  lemma ProjectWithinLimits(s: State, lines: seq<Line>, txs: seq<Transaction>)
    requires WithinLimits(s) && Precheck(s.accounts, lines).None?
    ensures WithinLimits(State(Project(s.accounts, lines), txs))
  {
    PrecheckPerAccount(s.accounts, lines);
    forall a | a in s.accounts
      ensures s.accounts[a].available + Delta(lines, a) >= 0 - s.accounts[a].overdraft
    {
      var last := LastSpelling(Sorted(Touched(lines)), a);
      if last.Some? {
        assert PrecheckError(s.accounts, lines, last.value).None?;
      }
    }
  }

  lemma PostedIsWellPosted(accounts: map<AccountId, Account>, lines: seq<Line>, t: Transaction)
    requires Distinct(t.numbers) && t.lines == Stored(lines)
    requires BalancedIn(lines, CURRENCIES) && Precheck(accounts, lines).None?
    ensures WellPosted(accounts, t)
  {
    BalancedMeansAllCurrencies(lines);
    StoredBalanced(lines);
    PrecheckExactly(accounts, lines);
  }

  lemma WellPostedKept(s: State, accounts: map<AccountId, Account>)
    requires AllWellPosted(s)
    requires forall a :: a in s.accounts ==> a in accounts && accounts[a].currency == s.accounts[a].currency
    ensures AllWellPosted(State(accounts, s.transactions))
  {
  }

  /** What an accepted posting appends. */
  lemma PostAppends(s: State, p: Posting)
    requires Post(s, p).1.Posted?
    ensures var t := Post(s, p).0;
            && |t.transactions| == |s.transactions| + 1
            && var tx := t.transactions[|s.transactions|];
               && t == State(Project(s.accounts, p.lines), s.transactions + [tx])
               && tx.lines == Stored(p.lines)
               && FindCorrelation(s.transactions, tx.correlation).None?
               && (tx.txType == Reversal <==> tx.reverses.Some?)
               && (tx.reverses.Some? ==>
                     && tx.reverses.value < |s.transactions|
                     && s.transactions[tx.reverses.value].txType != Reversal
                     && FindReversal(s.transactions, tx.reverses.value).None?)
               && Distinct(tx.numbers) && BalancedIn(p.lines, CURRENCIES) && Precheck(s.accounts, p.lines).None?
  {
  }

  lemma AppendKeepsIdentity(txs: seq<Transaction>, tx: Transaction)
    requires UniqueCorrelations(txs) && ReversalsSound(txs) && FindCorrelation(txs, tx.correlation).None?
    requires tx.txType == Reversal <==> tx.reverses.Some?
    requires tx.reverses.Some? ==>
               && tx.reverses.value < |txs| && txs[tx.reverses.value].txType != Reversal
               && FindReversal(txs, tx.reverses.value).None?
    ensures UniqueCorrelations(txs + [tx]) && ReversalsSound(txs + [tx])
  {
    hide FindCorrelation, FindReversal;
  }

  lemma PostKeepsInv(s: State, p: Posting)
    requires Inv(s)
    ensures Inv(Post(s, p).0)
  {
    if Post(s, p).1.Posted? {
      PostAppends(s, p);
      hide Post, Precheck, BalancedIn, Distinct, WithinLimits, WellPosted, UniqueCorrelations, ReversalsSound, FindCorrelation, FindReversal;
      var t := Post(s, p).0;
      var tx := t.transactions[|s.transactions|];
      ProjectWithinLimits(s, p.lines, t.transactions);
      PostedIsWellPosted(s.accounts, p.lines, tx);
      AppendKeepsIdentity(s.transactions, tx);
      WellPostedAppend(s, tx, t.accounts);
    }
  }

  /** Stored transactions stay well posted when accounts only move. */
  lemma WellPostedAppend(s: State, tx: Transaction, accounts: map<AccountId, Account>)
    requires AllWellPosted(s) && WellPosted(s.accounts, tx)
    requires forall a :: a in s.accounts ==> a in accounts && accounts[a].currency == s.accounts[a].currency
    ensures AllWellPosted(State(accounts, s.transactions + [tx]))
  {
  }

  lemma {:induction false} HistoryOfUnknown(s: State, n: nat, a: AccountId)
    requires n <= |s.transactions| && AllWellPosted(s) && a !in s.accounts
    ensures History(s.transactions[..n], a) == 0
  {
    if n > 0 {
      var txs := s.transactions[..n];
      assert txs[..n - 1] == s.transactions[..n - 1];
      HistoryOfUnknown(s, n - 1, a);
      assert WellPosted(s.accounts, s.transactions[n - 1]);
      NetUntouched(s.transactions[n - 1].lines, a);
    }
  }

  /** Every account command and posting keeps the ledger invariant. */
  lemma NextKeepsInv(s: State, c: Command)
    requires Inv(s)
    ensures Inv(Next(s, c))
  {
    var t := Next(s, c);
    match c {
      case OpenAccount(_, _, _, _, _, _) => WellPostedKept(s, t.accounts);
      case SetStatus(_, _) => WellPostedKept(s, t.accounts);
      case PostEntries(p) => PostKeepsInv(s, p);
      case ReverseTx(original, correlation) =>
        if t != s {
          PostKeepsInv(s, ReversalOf(s.transactions, original, correlation));
        }
    }
  }

  /** The ledger after a list of commands, each one committed or aborted in turn. */
  function Exec(s: State, cs: seq<Command>): State
    decreases |cs|
  {
    if cs == [] then s else Exec(Next(s, cs[0]), cs[1..])
  }

  lemma {:induction false} ExecKeepsInv(s: State, cs: seq<Command>)
    requires Inv(s)
    ensures Inv(Exec(s, cs))
    decreases |cs|
  {
    if cs != [] {
      NextKeepsInv(s, cs[0]);
      ExecKeepsInv(Next(s, cs[0]), cs[1..]);
    }
  }

  lemma EmptyInv()
    ensures Inv(Empty)
  {
  }

  /** Every ledger reachable from the empty one satisfies the invariant. */
  lemma ReachableLedger(cs: seq<Command>)
    ensures Inv(Exec(Empty, cs))
  {
    ExecKeepsInv(Empty, cs);
  }

  // ---------- later ledgers ----------

  lemma PostExtends(s: State, p: Posting)
    ensures Extends(s, Post(s, p).0)
    ensures var (t, r) := Post(s, p);
            && (r.Posted? <==> t.transactions != s.transactions)
            && (!r.Posted? ==> t == s)
            && (r.Posted? ==>
                  && |t.transactions| == |s.transactions| + 1
                  && r.id == |s.transactions|
                  && t.transactions[r.id].correlation == p.correlation
                  && t.transactions[r.id].lines == Stored(p.lines))
  {
  }

  /** A posting under an unused correlation id is never taken for a replay. */
  lemma UnusedIdIsNotReplayed(s: State, p: Posting)
    requires FindCorrelation(s.transactions, p.correlation).None?
    ensures !Post(s, p).1.Replayed?
  {
  }

  lemma RejectionChangesNothing(s: State, p: Posting)
    requires Post(s, p).1.Rejected?
    ensures Post(s, p).0 == s
  {
  }

  lemma SelfExtends(s: State)
    ensures Extends(s, s)
  {
  }

  lemma NextExtends(s: State, c: Command)
    ensures Extends(s, Next(s, c))
  {
  }

  lemma ExtendsTransitive(s: State, t: State, u: State)
    requires Extends(s, t) && Extends(t, u)
    ensures Extends(s, u)
  {
  }

  lemma {:induction false} ExecExtends(s: State, cs: seq<Command>)
    ensures Extends(s, Exec(s, cs))
    decreases |cs|
  {
    hide Next, Extends;
    SelfExtends(s);
    if cs != [] {
      NextExtends(s, cs[0]);
      ExecExtends(Next(s, cs[0]), cs[1..]);
      ExtendsTransitive(s, Next(s, cs[0]), Exec(s, cs));
    }
  }

  // ---------- what a command does, written out ----------

  /** An accepted posting stores its own type, target, correlation id and lines, each line on the row that
      its text names and numbered as asked or 1, 2, ...; accounts it does not name stay as they are,
      the others move both balances alike. */
  lemma PostStores(s: State, p: Posting)
    requires Post(s, p).1.Posted?
    ensures var (t, r) := Post(s, p);
            var n := |s.transactions|;
            && r == Posted(n) && |t.transactions| == n + 1 && t.transactions[..n] == s.transactions
            && var tx := t.transactions[n];
               && tx.txType == p.txType && tx.reverses == p.reverses && tx.correlation == p.correlation
               && |tx.lines| == |p.lines|
               && (forall k :: 0 <= k < |p.lines| ==>
                     tx.lines[k] == Line(Row(p.lines[k].account), p.lines[k].entryType, p.lines[k].amount, p.lines[k].currency))
               && (forall k :: 0 <= k < |p.lines| ==>
                     tx.numbers[k] == match p.numbers[k] case Some(number) => number case None => k + 1)
    ensures var t := Post(s, p).0;
            && t.accounts.Keys == s.accounts.Keys
            && (forall a :: a in s.accounts ==>
                  var d := t.accounts[a].balance - s.accounts[a].balance;
                  t.accounts[a] == s.accounts[a].(balance := s.accounts[a].balance + d, available := s.accounts[a].available + d))
            && (forall a :: a in s.accounts && (forall k :: 0 <= k < |p.lines| ==> Row(p.lines[k].account) != a) ==>
                  t.accounts[a] == s.accounts[a])
  {
    hide FindCorrelation, ReversalError, Precheck, BalancedIn, Row, Net;
  }

  /** A posting that is not accepted leaves the ledger as it is; under a used id it is answered with the
      transaction that used it. */
  lemma PostRepeats(s: State, p: Posting)
    ensures !Post(s, p).1.Posted? ==> Post(s, p).0 == s
    ensures Post(s, p).1.Replayed? <==>
              p.correlation != Free("") && exists i :: 0 <= i < |s.transactions| && s.transactions[i].correlation == p.correlation
    ensures Post(s, p).1.Replayed? ==>
              Post(s, p).1.id < |s.transactions| && s.transactions[Post(s, p).1.id].correlation == p.correlation
  {
    hide CheckPosting, Project, Stored;
  }

  /** Accounts are opened with nothing on them, under an unused id and number; a status change touches
      the status of the named row and nothing else. Neither writes transactions. */
  lemma AccountCommands(s: State, c: Command)
    requires c.OpenAccount? || c.SetStatus?
    ensures Next(s, c).transactions == s.transactions
    ensures c.OpenAccount? ==>
              Next(s, c).accounts ==
                if c.id !in s.accounts && Row(c.id) == c.id && (forall a :: a in s.accounts ==> s.accounts[a].number != c.number)
                then s.accounts[c.id := Account(c.owner, c.number, c.currency, c.status, 0, 0, c.overdraft)]
                else s.accounts
    ensures c.SetStatus? ==>
              && Next(s, c).accounts.Keys == s.accounts.Keys
              && forall a :: a in s.accounts ==>
                   && (a != Row(c.ref) ==> Next(s, c).accounts[a] == s.accounts[a])
                   && (a == Row(c.ref) ==>
                         && Next(s, c).accounts[a].status == c.status
                         && Next(s, c).accounts[a].(status := s.accounts[a].status) == s.accounts[a])
  {
    hide Row;
  }

  ghost predicate UniqueNumbers(accounts: map<AccountId, Account>) {
    forall a, b :: a in accounts && b in accounts && accounts[a].number == accounts[b].number ==> a == b
  }

  lemma {:induction false} ExecKeepsNumbers(s: State, cs: seq<Command>)
    requires UniqueNumbers(s.accounts)
    ensures UniqueNumbers(Exec(s, cs).accounts)
    decreases |cs|
  {
    hide Row, CheckPosting, FindCorrelation, Delta, FindReversal;
    if cs != [] {
      ExecKeepsNumbers(Next(s, cs[0]), cs[1..]);
    }
  }

  /** Over every run: no two accounts share their number. */
  lemma AccountNumbersAreUnique(cs: seq<Command>)
    ensures UniqueNumbers(Exec(Empty, cs).accounts)
  {
    ExecKeepsNumbers(Empty, cs);
  }

  // ---------- why a posting is refused ----------

  ghost predicate TargetIsOpen(txs: seq<Transaction>, p: Posting) {
    && (p.txType == Reversal <==> p.reverses.Some?)
    && (p.reverses.Some? ==>
          && p.reverses.value < |txs|
          && txs[p.reverses.value].txType != Reversal
          && forall i :: 0 <= i < |txs| && txs[i].txType == Reversal ==> txs[i].reverses != p.reverses)
  }

  /** The refusals before any account is looked at, each in exactly its own case. */
  lemma BundleRefusals(s: State, p: Posting)
    requires forall i :: 0 <= i < |s.transactions| ==> s.transactions[i].correlation != p.correlation
    ensures var r := Post(s, p).1;
            var wellNumbered := AllOmitted(p.numbers) || (AllExplicit(p.numbers) && Distinct(p.numbers));
            && r != Rejected(OriginalNotFound)
            && (r == Rejected(MissingCorrelation) <==> p.correlation == Free(""))
            && (p.correlation != Free("") ==>
                  && (r == Rejected(MissingReversalTarget) <==> p.txType == Reversal && p.reverses.None?)
                  && (r == Rejected(UnexpectedReversalTarget) <==> p.txType != Reversal && p.reverses.Some?)
                  && (p.txType == Reversal && p.reverses.Some? ==>
                        var target := p.reverses.value;
                        && (r == Rejected(TargetNotFound) <==> target >= |s.transactions|)
                        && (target < |s.transactions| ==>
                              && (r == Rejected(TargetIsReversal) <==> s.transactions[target].txType == Reversal)
                              && (s.transactions[target].txType != Reversal ==>
                                    (r == Rejected(AlreadyReversed) <==>
                                       exists i :: 0 <= i < |s.transactions|
                                                   && s.transactions[i].txType == Reversal && s.transactions[i].reverses == p.reverses))))
                  && (TargetIsOpen(s.transactions, p) ==>
                        && (r == Rejected(Unbalanced) <==> !Balanced(p.lines))
                        && (r == Rejected(DuplicateLineNumbers) <==> Balanced(p.lines) && !wellNumbered && AllExplicit(p.numbers))
                        && (r == Rejected(PartialLineNumbers) <==> Balanced(p.lines) && !wellNumbered && !AllExplicit(p.numbers))))
  {
    hide Precheck, BalancedIn, Balanced, Project, Stored;
    BalancedMeansAllCurrencies(p.lines);
    PrecheckRefusals(s.accounts, p.lines);
  }

  /** The text that a refusal names. */
  function RefOf(e: PostError): Option<AccountRef> {
    if e.AccountNotFound? || e.AccountNotActive? || e.CurrencyMismatch? || e.InsufficientAvailable? then Some(e.ref) else None
  }

  /** What a refusal of the pre-check says about the row that its text names. */
  ghost predicate Justified(accounts: map<AccountId, Account>, lines: seq<Line>, e: PostError) {
    match e
    case MixedCurrencies =>
      exists i, j :: 0 <= i < j < |lines| && lines[i].account == lines[j].account && lines[i].currency != lines[j].currency
    case AccountNotFound(r) => Row(r) !in accounts
    case AccountNotActive(r) => Row(r) in accounts && accounts[Row(r)].status != Active
    case CurrencyMismatch(r) =>
      && Row(r) in accounts && accounts[Row(r)].status == Active
      && forall k :: 0 <= k < |lines| && lines[k].account == r ==> lines[k].currency != accounts[Row(r)].currency
    case InsufficientAvailable(r) =>
      && Row(r) in accounts && accounts[Row(r)].status == Active
      && (forall k :: 0 <= k < |lines| && lines[k].account == r ==> lines[k].currency == accounts[Row(r)].currency)
      && accounts[Row(r)].available + Net(lines, r) < 0 - accounts[Row(r)].overdraft
    case _ => false
  }

  /** The pre-check refuses lines that mix currencies under one text, else the first text in lock order
      that has something wrong with its row, and says what. */
  lemma PrecheckRefusals(accounts: map<AccountId, Account>, lines: seq<Line>)
    ensures var e := Precheck(accounts, lines);
            && (e.None? ==> Fundable(accounts, lines))
            && (e.Some? ==> Justified(accounts, lines, e.value))
            && (e.Some? && e.value != MixedCurrencies ==>
                  !MixesCurrencies(lines) && RefOf(e.value).Some? && FirstOffender(accounts, lines, RefOf(e.value).value))
  {
    PrecheckExactly(accounts, lines);
    var ids := Sorted(Touched(lines));
    hide Sorted, Fundable, Row, Net, Touched;
    if !MixesCurrencies(lines) && Precheck(accounts, lines).Some? {
      hide FirstPrecheckError, PrecheckError;
      var k := FirstErrorAt(accounts, lines, ids);
      forall j | 0 <= j < |lines| && lines[j].account == ids[k]
        ensures lines[j].currency == CurrencyOn(lines, ids[k])
      {
        CurrencyOnLine(lines, j);
      }
      PrecheckErrorsOf(accounts, lines, ids[k]);
      forall x | x in Touched(lines) && x < ids[k]
        ensures Usable(accounts, lines, x)
      {
        var j :| 0 <= j < |ids| && ids[j] == x;
        forall i | 0 <= i < |lines| && lines[i].account == x
          ensures lines[i].currency == CurrencyOn(lines, x)
        {
          CurrencyOnLine(lines, i);
        }
        assert PrecheckError(accounts, lines, ids[j]).None?;
        PrecheckErrorsOf(accounts, lines, x);
      }
    }
  }

  /** Nothing is wrong with the row that a text names. */
  ghost predicate Usable(accounts: map<AccountId, Account>, lines: seq<Line>, r: AccountRef) {
    && Row(r) in accounts && accounts[Row(r)].status == Active
    && accounts[Row(r)].available + Net(lines, r) >= 0 - accounts[Row(r)].overdraft
  }

  ghost predicate FirstOffender(accounts: map<AccountId, Account>, lines: seq<Line>, r: AccountRef) {
    r in Touched(lines) && forall x :: x in Touched(lines) && x < r ==> Usable(accounts, lines, x)
  }

  lemma PrecheckErrorsOf(accounts: map<AccountId, Account>, lines: seq<Line>, r: AccountRef)
    requires r in Touched(lines) && forall k :: 0 <= k < |lines| && lines[k].account == r ==> lines[k].currency == CurrencyOn(lines, r)
    ensures var e := PrecheckError(accounts, lines, r);
            && (e.None? ==> Usable(accounts, lines, r))
            && (e.Some? ==> RefOf(e.value) == Some(r) && Justified(accounts, lines, e.value))
  {
    hide Row, Net, Touched;
  }

  lemma {:induction false} FirstErrorAt(accounts: map<AccountId, Account>, lines: seq<Line>, ids: seq<AccountRef>) returns (k: nat)
    requires AllTouched(lines, ids) && FirstPrecheckError(accounts, lines, ids).Some?
    ensures k < |ids| && FirstPrecheckError(accounts, lines, ids) == PrecheckError(accounts, lines, ids[k])
    ensures forall j :: 0 <= j < k ==> PrecheckError(accounts, lines, ids[j]).None?
  {
    hide PrecheckError;
    k := 0;
    if PrecheckError(accounts, lines, ids[0]).None? {
      k := FirstErrorAt(accounts, lines, ids[1..]);
      assert forall j :: 0 < j < k + 1 ==> ids[j] == ids[1..][j - 1];
      k := k + 1;
    }
  }

  // ---------- conservation ----------

  ghost function Holding(accounts: map<AccountId, Account>, c: Currency): set<AccountId> {
    set a | a in accounts && accounts[a].currency == c
  }

  ghost function Balances(accounts: map<AccountId, Account>, c: Currency): map<nat, int> {
    map a | a in Holding(accounts, c) :: accounts[a].balance
  }

  ghost function NetMap(ids: set<AccountId>, lines: seq<Line>): map<nat, int> {
    map a | a in ids :: Net(lines, a)
  }

  ghost function HistoryMap(ids: set<AccountId>, txs: seq<Transaction>): map<nat, int> {
    map a | a in ids :: History(txs, a)
  }

  /** Over the accounts of a currency, the net effects of a bundle add up to credits minus debits. */
  lemma {:induction false} NetMapSum(ids: set<AccountId>, lines: seq<Line>, c: Currency)
    requires forall k :: 0 <= k < |lines| ==> (lines[k].currency == c <==> lines[k].account in ids)
    ensures MapSum(NetMap(ids, lines)) == Total(lines, Credit, c) - Total(lines, Debit, c)
  {
    if lines == [] {
      MapSumZero(NetMap(ids, lines));
    } else {
      var n := |lines| - 1;
      var l := lines[n];
      NetMapSum(ids, lines[..n], c);
      var m := NetMap(ids, lines[..n]);
      if l.account in ids {
        MapSumUpdate(m, l.account, m[l.account] + Signed(l));
        assert NetMap(ids, lines) == m[l.account := m[l.account] + Signed(l)];
      } else {
        assert NetMap(ids, lines) == m;
      }
    }
  }

  lemma {:induction false} HistoryMapSum(s: State, n: nat, c: Currency)
    requires n <= |s.transactions| && AllWellPosted(s)
    ensures MapSum(HistoryMap(Holding(s.accounts, c), s.transactions[..n])) == 0
  {
    var ids := Holding(s.accounts, c);
    if n == 0 {
      MapSumZero(HistoryMap(ids, s.transactions[..0]));
    } else {
      var t := s.transactions[n - 1];
      assert s.transactions[..n][..n - 1] == s.transactions[..n - 1];
      HistoryMapSum(s, n - 1, c);
      assert WellPosted(s.accounts, t);
      NetMapSum(ids, t.lines, c);
      MapSumPointwise(HistoryMap(ids, s.transactions[..n - 1]), NetMap(ids, t.lines), HistoryMap(ids, s.transactions[..n]));
    }
  }

  /** Conservation: in every currency the stored balances add up to zero, while they agree with the history. */
  lemma Conservation(s: State, c: Currency)
    requires Inv(s) && Agrees(s)
    ensures MapSum(Balances(s.accounts, c)) == 0
  {
    assert s.transactions[..|s.transactions|] == s.transactions;
    HistoryMapSum(s, |s.transactions|, c);
    assert Balances(s.accounts, c) == HistoryMap(Holding(s.accounts, c), s.transactions);
  }

  ghost function OtherOverdrafts(accounts: map<AccountId, Account>, a: AccountId): map<nat, int>
    requires a in accounts
  {
    map b | b in Holding(accounts, accounts[a].currency) && b != a :: accounts[b].overdraft as int
  }

  /** Exposure: nobody can own more than the other accounts of the currency may owe. */
  lemma ExposureBound(s: State, a: AccountId)
    requires Inv(s) && Agrees(s) && a in s.accounts
    ensures s.accounts[a].balance <= MapSum(OtherOverdrafts(s.accounts, a))
  {
    var c := s.accounts[a].currency;
    Conservation(s, c);
    MapSumRemove(Balances(s.accounts, c), a);
    var others := Balances(s.accounts, c) - {a};
    var limits := OtherOverdrafts(s.accounts, a);
    assert others.Keys == limits.Keys;
    var headroom := map b | b in others :: others[b] + limits[b];
    var zero := map b | b in others :: 0;
    MapSumPointwise(others, limits, headroom);
    MapSumZero(zero);
    MapSumMonotone(zero, headroom);
  }
}
