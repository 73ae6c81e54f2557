/** The posting path as it runs: lock and pre-check the accounts, insert the bundle, then
    project it onto the accounts in a second pass over the same locks. Everything goes by the text of
    the account id; only the row locks and the rows themselves are per account. */
module Posting {
  import opened Basics
  import opened Ledger
  import opened LedgerLaws

  lemma {:induction false} CurrencyOnSomeLine(lines: seq<Line>, a: AccountId)
    requires a in Touched(lines)
    ensures exists k :: 0 <= k < |lines| && lines[k].account == a && lines[k].currency == CurrencyOn(lines, a)
  {
    var n := |lines| - 1;
    if lines[n].account != a {
      CurrencyOnSomeLine(lines[..n], a);
      var k :| 0 <= k < n && lines[..n][k].account == a && lines[..n][k].currency == CurrencyOn(lines[..n], a);
      assert lines[k].account == a && lines[k].currency == CurrencyOn(lines, a);
    }
  }

  lemma TouchedAppend(lines: seq<Line>, i: nat)
    requires i < |lines|
    ensures lines[..i + 1][..i] == lines[..i]
    ensures Touched(lines[..i + 1]) == Touched(lines[..i]) + {lines[i].account}
  {
  }

  /** Net deltas and currencies per account of a list of lines, as both passes aggregate them. */
  ghost predicate AggregateOf(lines: seq<Line>, deltas: map<AccountRef, int>, currencies: map<AccountRef, Currency>) {
    && deltas.Keys == Touched(lines)
    && currencies.Keys == Touched(lines)
    && forall a :: a in Touched(lines) ==> deltas[a] == Net(lines, a) && currencies[a] == CurrencyOn(lines, a)
  }

  lemma AggregateStep(lines: seq<Line>, i: nat, deltas: map<AccountRef, int>, currencies: map<AccountRef, Currency>)
    requires i < |lines| && AggregateOf(lines[..i], deltas, currencies)
    ensures var l := lines[i];
            var prev := if l.account in deltas then deltas[l.account] else 0;
            AggregateOf(lines[..i + 1], deltas[l.account := prev + Signed(l)], currencies[l.account := l.currency])
  {
    TouchedAppend(lines, i);
    if lines[i].account !in deltas {
      NetUntouched(lines[..i], lines[i].account);
    }
  }

  lemma MixFound(lines: seq<Line>, i: nat)
    requires i < |lines| && lines[i].account in Touched(lines[..i])
    requires CurrencyOn(lines[..i], lines[i].account) != lines[i].currency
    ensures MixesCurrencies(lines)
  {
    CurrencyOnSomeLine(lines[..i], lines[i].account);
    var k :| 0 <= k < i && lines[..i][k].account == lines[i].account
             && lines[..i][k].currency == CurrencyOn(lines[..i], lines[i].account);
    assert lines[k].account == lines[i].account && lines[k].currency != lines[i].currency;
  }

  lemma NothingMixed(lines: seq<Line>)
    ensures !MixesCurrencies(lines[..0])
  {
  }

  lemma StillUnmixed(lines: seq<Line>, i: nat)
    requires i < |lines| && !MixesCurrencies(lines[..i])
    requires lines[i].account in Touched(lines[..i]) ==> CurrencyOn(lines[..i], lines[i].account) == lines[i].currency
    ensures !MixesCurrencies(lines[..i + 1])
  {
    forall k | 0 <= k < i && lines[k].account == lines[i].account
      ensures lines[k].currency == lines[i].currency
    {
      assert lines[..i][k] == lines[k];
      CurrencyOnLine(lines[..i], k);
    }
    assert forall j, k :: 0 <= j < k < i && lines[j].account == lines[k].account ==>
             lines[..i][j].currency == lines[..i][k].currency;
  }

  lemma FirstPrecheckStep(accounts: map<AccountId, Account>, lines: seq<Line>, ids: seq<AccountId>, k: nat)
    requires k < |ids|
    requires AllTouched(lines, ids)
    ensures FirstPrecheckError(accounts, lines, ids[k..]) ==
            var e := PrecheckError(accounts, lines, ids[k]);
            if e.Some? then e else FirstPrecheckError(accounts, lines, ids[k + 1..])
  {
  }

  lemma FirstProjectionStep(accounts: map<AccountId, Account>, lines: seq<Line>, ids: seq<AccountId>, k: nat)
    requires k < |ids|
    requires AllTouched(lines, ids)
    ensures FirstProjectionError(accounts, lines, ids[k..]) ==
            var e := ProjectionError(accounts, lines, ids[k]);
            if e.Some? then e else FirstProjectionError(accounts, lines, ids[k + 1..])
  {
  }

  /** Saving the projected rows in order, the last save of a row staying. */
  function Saved(accounts: map<AccountId, Account>, refs: seq<AccountRef>, rows: seq<Account>): map<AccountId, Account>
    requires |refs| == |rows|
  {
    if refs == [] then accounts
    else
      var n := |refs| - 1;
      Saved(accounts, refs[..n], rows[..n])[Row(refs[n]) := rows[n]]
  }

  lemma {:induction false} SavedIsLastWrite(accounts: map<AccountId, Account>, lines: seq<Line>, refs: seq<AccountRef>, rows: seq<Account>)
    requires |refs| == |rows|
    requires forall k :: 0 <= k < |refs| ==> Row(refs[k]) in accounts && rows[k] == Moved(accounts[Row(refs[k])], Net(lines, refs[k]))
    ensures Saved(accounts, refs, rows).Keys == accounts.Keys
    ensures forall a :: a in accounts ==>
              Saved(accounts, refs, rows)[a] ==
                var last := LastSpelling(refs, a); if last.None? then accounts[a] else Moved(accounts[a], Net(lines, last.value))
  {
    hide Net, Moved;
    if refs != [] {
      var n := |refs| - 1;
      SavedIsLastWrite(accounts, lines, refs[..n], rows[..n]);
    }
  }

  lemma SavedIsProjected(accounts: map<AccountId, Account>, lines: seq<Line>, rows: seq<Account>)
    requires var refs := Sorted(Touched(lines));
             && |refs| == |rows|
             && forall k :: 0 <= k < |refs| ==> Row(refs[k]) in accounts && rows[k] == Moved(accounts[Row(refs[k])], Net(lines, refs[k]))
    ensures Saved(accounts, Sorted(Touched(lines)), rows) == Project(accounts, lines)
  {
    hide Touched, Net, LastSpelling;
    SavedIsLastWrite(accounts, lines, Sorted(Touched(lines)), rows);
  }

  /** The rows locked by one pass, in the order of the texts, and by both passes of an accepted posting. */
  function OnePass(lines: seq<Line>): seq<AccountId> {
    Rows(Sorted(Touched(lines)))
  }

  function BothPasses(lines: seq<Line>): seq<AccountId> {
    OnePass(lines) + OnePass(lines)
  }

  /** The `accounts`, `ledger_transactions` and `ledger_entries` tables with the services that write them. */
  class LedgerTables {
    var accounts: map<AccountId, Account>
    var transactions: seq<Transaction>
    /** Every account row lock asked for with FOR UPDATE, in order. */
    ghost var lockLog: seq<AccountId>

    function Contents(): State
      reads this
    {
      State(accounts, transactions)
    }

    constructor ()
      ensures Contents() == Empty && lockLog == []
    {
      accounts, transactions, lockLog := map[], [], [];
    }

    method AssertBalancedPerCurrency(lines: seq<Line>) returns (ok: bool)
      ensures ok <==> Balanced(lines)
    {
      var debits: map<Currency, nat>, credits: map<Currency, nat> := map[], map[];
      for i := 0 to |lines|
        invariant debits.Keys == credits.Keys
        invariant forall c: Currency :: Total(lines[..i], Debit, c) == if c in debits then debits[c] else 0
        invariant forall c: Currency :: Total(lines[..i], Credit, c) == if c in credits then credits[c] else 0
      {
        var l := lines[i];
        assert lines[..i + 1][..i] == lines[..i];
        var dr := if l.currency in debits then debits[l.currency] else 0;
        var cr := if l.currency in credits then credits[l.currency] else 0;
        if l.entryType == Debit {
          dr := dr + l.amount;
        } else {
          cr := cr + l.amount;
        }
        debits, credits := debits[l.currency := dr], credits[l.currency := cr];
      }
      assert lines[..|lines|] == lines;
      var rest := debits.Keys;
      ok := true;
      while rest != {}
        invariant rest <= debits.Keys
        invariant ok ==> forall c :: c in debits && c !in rest ==> debits[c] == credits[c]
        invariant !ok ==> !Balanced(lines)
      {
        var c :| c in rest;
        if debits[c] != credits[c] {
          ok := false;
        }
        rest := rest - {c};
      }
    }

    /** Aggregates net deltas and currencies per account; stops on a mixed-currency account. */
    method Aggregate(lines: seq<Line>)
      returns (mixed: bool, deltas: map<AccountRef, int>, currencies: map<AccountRef, Currency>)
      ensures mixed <==> MixesCurrencies(lines)
      ensures !mixed ==> AggregateOf(lines, deltas, currencies)
    {
      hide MixesCurrencies, Net;
      deltas, currencies, mixed := map[], map[], false;
      NothingMixed(lines);
      for i := 0 to |lines|
        invariant AggregateOf(lines[..i], deltas, currencies)
        invariant !MixesCurrencies(lines[..i])
      {
        var l := lines[i];
        var prev := if l.account in deltas then deltas[l.account] else 0;
        if l.account in currencies && currencies[l.account] != l.currency {
          MixFound(lines, i);
          mixed := true;
          return;
        }
        StillUnmixed(lines, i);
        AggregateStep(lines, i, deltas, currencies);
        deltas := deltas[l.account := prev + Signed(l)];
        currencies := currencies[l.account := l.currency];
      }
      assert lines[..|lines|] == lines;
    }

    method CheckLockedAccount(lines: seq<Line>, ref: AccountRef, netDelta: int, expected: Currency)
      returns (e: Option<PostError>)
      requires ref in Touched(lines) && netDelta == Net(lines, ref) && expected == CurrencyOn(lines, ref)
      ensures e == PrecheckError(accounts, lines, ref)
    {
      if Row(ref) !in accounts {
        return Some(AccountNotFound(ref));
      }
      var account := accounts[Row(ref)];
      if account.status != Active {
        return Some(AccountNotActive(ref));
      }
      if account.currency != expected {
        return Some(CurrencyMismatch(ref));
      }
      if account.available + netDelta < 0 - account.overdraft {
        return Some(InsufficientAvailable(ref));
      }
      return None;
    }

    /** The re-locked account with both balances moved, or why the projection must stop. */
    method ProjectLockedAccount(lines: seq<Line>, ref: AccountRef, delta: int, expected: Currency)
      returns (e: Option<PostError>, account: Account)
      requires ref in Touched(lines) && delta == Net(lines, ref) && expected == CurrencyOn(lines, ref)
      ensures e == ProjectionError(accounts, lines, ref)
      ensures e.None? ==> Row(ref) in accounts && account == Moved(accounts[Row(ref)], Net(lines, ref))
    {
      account := Account(0, "", expected, AccountStatus.Pending, 0, 0, 0);
      if Row(ref) !in accounts {
        return Some(AccountNotFound(ref)), account;
      }
      account := accounts[Row(ref)];
      if account.currency != expected {
        return Some(CurrencyMismatch(ref)), account;
      }
      var newBalance := account.balance + delta;
      var newAvailable := account.available + delta;
      if newAvailable < 0 - account.overdraft {
        return Some(InsufficientAvailable(ref)), account;
      }
      return None, account.(balance := newBalance, available := newAvailable);
    }

    method CheckInOrder(lines: seq<Line>, refs: seq<AccountRef>, deltas: map<AccountRef, int>, currencies: map<AccountRef, Currency>)
      returns (e: Option<PostError>, ghost taken: nat)
      requires AllTouched(lines, refs) && AggregateOf(lines, deltas, currencies)
      modifies `lockLog
      ensures e == FirstPrecheckError(accounts, lines, refs)
      ensures taken <= |refs| && lockLog == old(lockLog) + Rows(refs)[..taken]
      ensures e.None? ==> taken == |refs|
    {
      hide PrecheckError, Touched, FirstPrecheckError, Row;
      taken := 0;
      assert refs[0..] == refs;
      for k := 0 to |refs|
        invariant taken == k && lockLog == old(lockLog) + Rows(refs)[..k]
        invariant FirstPrecheckError(accounts, lines, refs) == FirstPrecheckError(accounts, lines, refs[k..])
      {
        FirstPrecheckStep(accounts, lines, refs, k);
        lockLog, taken := lockLog + [Row(refs[k])], k + 1;
        e := CheckLockedAccount(lines, refs[k], deltas[refs[k]], currencies[refs[k]]);
        if e.Some? {
          return;
        }
      }
      e := None;
    }

    /** First pass: lock the row of every spelling in text order and check it, before any insert. */
    method ValidateAccountBalancesBeforeLedgerInsert(lines: seq<Line>)
      returns (e: Option<PostError>, ghost taken: nat)
      modifies `lockLog
      ensures e == Precheck(accounts, lines)
      ensures taken <= |Sorted(Touched(lines))| && lockLog == old(lockLog) + Rows(Sorted(Touched(lines)))[..taken]
      ensures e.None? ==> taken == |Sorted(Touched(lines))|
    {
      hide MixesCurrencies, Touched, FirstPrecheckError, Row;
      var mixed, deltas, currencies := Aggregate(lines);
      if mixed {
        return Some(MixedCurrencies), 0;
      }
      e, taken := CheckInOrder(lines, Sorted(deltas.Keys), deltas, currencies);
    }

    /** Re-locks and re-reads the row of every spelling; nothing is saved until all are computed. */
    method ProjectInOrder(lines: seq<Line>, refs: seq<AccountRef>, deltas: map<AccountRef, int>, currencies: map<AccountRef, Currency>)
      returns (e: Option<PostError>, updated: seq<Account>, ghost taken: nat)
      requires AllTouched(lines, refs) && AggregateOf(lines, deltas, currencies)
      modifies `lockLog
      ensures e == FirstProjectionError(accounts, lines, refs)
      ensures taken <= |refs| && lockLog == old(lockLog) + Rows(refs)[..taken]
      ensures e.None? ==> taken == |refs| == |updated|
      ensures e.None? ==> forall k :: 0 <= k < |refs| ==>
                Row(refs[k]) in accounts && updated[k] == Moved(accounts[Row(refs[k])], Net(lines, refs[k]))
    {
      hide ProjectionError, Touched, FirstProjectionError, Moved, Net, Row;
      updated, taken := [], 0;
      assert refs[0..] == refs;
      for k := 0 to |refs|
        invariant taken == k == |updated| && lockLog == old(lockLog) + Rows(refs)[..k]
        invariant FirstProjectionError(accounts, lines, refs) == FirstProjectionError(accounts, lines, refs[k..])
        invariant forall j :: 0 <= j < k ==> Row(refs[j]) in accounts && updated[j] == Moved(accounts[Row(refs[j])], Net(lines, refs[j]))
      {
        FirstProjectionStep(accounts, lines, refs, k);
        lockLog, taken := lockLog + [Row(refs[k])], k + 1;
        var account;
        e, account := ProjectLockedAccount(lines, refs[k], deltas[refs[k]], currencies[refs[k]]);
        if e.Some? {
          return;
        }
        updated := updated + [account];
      }
      e := None;
    }

    method SaveInOrder(refs: seq<AccountRef>, rows: seq<Account>)
      requires |refs| == |rows|
      modifies `accounts
      ensures accounts == Saved(old(accounts), refs, rows)
    {
      for k := 0 to |refs|
        invariant accounts == Saved(old(accounts), refs[..k], rows[..k])
      {
        assert refs[..k + 1][..k] == refs[..k] && rows[..k + 1][..k] == rows[..k];
        accounts := accounts[Row(refs[k]) := rows[k]];
      }
      assert refs[..|refs|] == refs && rows[..|rows|] == rows;
    }

    /** Second pass: re-lock the same rows in the same order and overwrite both balances; of several
        spellings of one account the last save stays. */
    method ApplyLedgerPostingProjections(lines: seq<Line>) returns (e: Option<PostError>, ghost taken: nat)
      modifies `accounts, `lockLog
      ensures e == ProjectionCheck(old(accounts), lines)
      ensures taken <= |Sorted(Touched(lines))| && lockLog == old(lockLog) + Rows(Sorted(Touched(lines)))[..taken]
      ensures e.None? ==> accounts == Project(old(accounts), lines) && taken == |Sorted(Touched(lines))|
      ensures e.Some? ==> accounts == old(accounts)
    {
      hide MixesCurrencies, Touched, FirstProjectionError, Moved, Net, Row;
      var mixed, deltas, currencies := Aggregate(lines);
      if mixed {
        return Some(MixedCurrencies), 0;
      }
      var updated;
      e, updated, taken := ProjectInOrder(lines, Sorted(deltas.Keys), deltas, currencies);
      if e.None? {
        SavedIsProjected(accounts, lines, updated);
        SaveInOrder(Sorted(deltas.Keys), updated);
      }
    }

    /** One posting inside the caller's transaction. The header and lines are inserted before the
        projections run, and yet a rejected posting leaves no row behind: the second pass cannot fail.
        Whatever the result, the row locks asked for are a part of the first pass, or both passes. */
    method PostWithSharedManager(p: Posting) returns (r: PostResult)
      modifies this
      ensures (Contents(), r) == Post(old(Contents()), p)
      ensures r.Posted? ==> lockLog == old(lockLog) + BothPasses(p.lines)
      ensures r.Replayed? ==> lockLog == old(lockLog)
      ensures r.Rejected? ==> exists k :: 0 <= k <= |OnePass(p.lines)| && lockLog == old(lockLog) + OnePass(p.lines)[..k]
    {
      hide FindCorrelation, ReversalError, AssignLineNumbers, BalancedIn, Balanced, Precheck, Project, Touched, Sorted, Stored, Row;
      assert lockLog == lockLog + OnePass(p.lines)[..0];
      if p.correlation == Free("") {
        return Rejected(MissingCorrelation);
      }
      var existing := FindCorrelation(transactions, p.correlation);
      if existing.Some? {
        return Replayed(existing.value);
      }
      var target := ReversalError(transactions, p);
      if target.Some? {
        return Rejected(target.value);
      }
      var balanced := AssertBalancedPerCurrency(p.lines);
      BalancedMeansAllCurrencies(p.lines);
      if !balanced {
        return Rejected(Unbalanced);
      }
      var numbering := AssignLineNumbers(p.numbers);
      if numbering.BadNumbers? {
        return Rejected(numbering.error);
      }
      var refused, taken := ValidateAccountBalancesBeforeLedgerInsert(p.lines);
      if refused.Some? {
        return Rejected(refused.value);
      }
      assert OnePass(p.lines)[..taken] == OnePass(p.lines);
      r := InsertAndProject(p, numbering.nums);
    }

    /** Header and lines first, then the projections. */
    method InsertAndProject(p: Posting, numbers: seq<nat>) returns (r: PostResult)
      requires Precheck(accounts, p.lines).None? && |numbers| == |p.lines|
      modifies this
      ensures r == Posted(|old(transactions)|)
      ensures Contents() == State(Project(old(accounts), p.lines),
                                  old(transactions) + [StoredTx.Transaction(p.txType, p.reverses, p.correlation, Stored(p.lines), numbers)])
      ensures lockLog == old(lockLog) + OnePass(p.lines)
    {
      hide Precheck, ProjectionCheck, Touched, Sorted, Stored, Row;
      var id := |transactions|;
      transactions := transactions + [StoredTx.Transaction(p.txType, p.reverses, p.correlation, Stored(p.lines), numbers)];
      PrecheckMakesProjectionInfallible(accounts, p.lines);
      var failed, taken := ApplyLedgerPostingProjections(p.lines);
      assert OnePass(p.lines)[..|OnePass(p.lines)|] == OnePass(p.lines);
      match failed {
        case Some(error) => r := Rejected(error);
        case None => r := Posted(id);
      }
    }

    method CreateAccount(id: AccountId, owner: nat, number: string, currency: Currency,
                         status: Option<AccountStatus>, overdraft: Option<nat>) returns (ok: bool)
      requires id !in accounts && Row(id) == id
      modifies this
      ensures var st := if status.Some? then status.value else AccountStatus.Pending;
              var od := if overdraft.Some? then overdraft.value else 0;
              Contents() == Next(old(Contents()), OpenAccount(id, owner, number, currency, st, od))
      ensures ok <==> forall a :: a in old(accounts) ==> old(accounts)[a].number != number
      ensures transactions == old(transactions)
      ensures accounts == if !ok then old(accounts)
                          else old(accounts)[id := Account(owner, number, currency, if status.Some? then status.value else AccountStatus.Pending,
                                                           0, 0, if overdraft.Some? then overdraft.value else 0)]
    {
      if NumberTaken(accounts, number) {
        return false;
      }
      var st := if status.Some? then status.value else AccountStatus.Pending;
      var od := if overdraft.Some? then overdraft.value else 0;
      accounts := accounts[id := Account(owner, number, currency, st, 0, 0, od)];
      return true;
    }
  }
}
