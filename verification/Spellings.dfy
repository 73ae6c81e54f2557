/**
 * Postings that spell one account in two ways. Both passes work per spelling, so such a posting can be
 * accepted and yet leave the stored balance of that account behind its history: exactly when the
 * deltas of all its spellings but the last do not add up to zero.
 */
module Spellings {
  import opened Basics
  import opened Ledger
  import opened LedgerLaws

  lemma {:induction false} RowIsARow(r: AccountRef)
    ensures Row(Row(r)) == Row(r)
  {
    if r >= 128 {
      RowIsARow(r / 128);
      assert Row(r) / 128 == Row(r / 128) && Row(r) % 128 == Lower(r % 128);
    }
  }

  /** The character of a text at place `k`, counted from its end. */
  function CharAt(r: AccountRef, k: nat): nat {
    if k == 0 then r % 128 else CharAt(r / 128, k - 1)
  }

  /** The row of a text is that text with each capital letter, and nothing else, in lower case. */
  lemma {:induction false} RowLowersEachChar(r: AccountRef, k: nat)
    ensures CharAt(Row(r), k) == if 65 <= CharAt(r, k) <= 90 then CharAt(r, k) + 32 else CharAt(r, k)
    decreases k
  {
    assert Row(r) % 128 == Lower(r % 128) && Row(r) / 128 == Row(r / 128);
    if k > 0 {
      RowLowersEachChar(r / 128, k - 1);
    }
  }

  // ---------- the deltas of all spellings ----------

  /** The spellings of account `a` among sorted texts. */
  function Among(refs: seq<AccountRef>, a: AccountId): (rs: seq<AccountRef>)
    ensures forall x :: x in rs <==> x in refs && Row(x) == a
  {
    if refs == [] then []
    else
      var n := |refs| - 1;
      var rs := Among(refs[..n], a);
      assert refs == refs[..n] + [refs[n]];
      if Row(refs[n]) == a then rs + [refs[n]] else rs
  }

  function SpellingsOf(lines: seq<Line>, a: AccountId): seq<AccountRef> {
    Among(Sorted(Touched(lines)), a)
  }

  function Deltas(lines: seq<Line>, refs: seq<AccountRef>): seq<int> {
    seq(|refs|, k requires 0 <= k < |refs| => Net(lines, refs[k]))
  }

  function AllButLast<T>(xs: seq<T>): seq<T> {
    if xs == [] then [] else xs[..|xs| - 1]
  }

  /** What the projection of account `a` loses: the deltas of all its spellings except the last. */
  function Lost(lines: seq<Line>, a: AccountId): int {
    Sum(Deltas(lines, AllButLast(SpellingsOf(lines, a))))
  }

  /** Nothing is lost on any account. */
  predicate Agreeing(lines: seq<Line>) {
    forall r :: r in Touched(lines) ==> Lost(lines, Row(r)) == 0
  }

  /** No account is spelled in two ways, as any caller can check of its own request. */
  predicate OneSpelling(lines: seq<Line>) {
    forall i, j :: 0 <= i < j < |lines| && Row(lines[i].account) == Row(lines[j].account) ==> lines[i].account == lines[j].account
  }

  lemma {:induction false} AmongIsIncreasing(refs: seq<AccountRef>, a: AccountId)
    requires Increasing(refs)
    ensures Increasing(Among(refs, a))
  {
    if refs != [] {
      var n := |refs| - 1;
      AmongIsIncreasing(refs[..n], a);
      forall i | 0 <= i < |Among(refs[..n], a)|
        ensures Among(refs[..n], a)[i] < refs[n]
      {
        assert Among(refs[..n], a)[i] in refs[..n];
      }
    }
  }

  lemma {:induction false} LastOfAmong(refs: seq<AccountRef>, a: AccountId)
    ensures LastSpelling(refs, a) == var rs := Among(refs, a); if rs == [] then None else Some(rs[|rs| - 1])
  {
    if refs != [] {
      LastOfAmong(refs[..|refs| - 1], a);
    }
  }

  /** A one in the place of `x`, zero elsewhere. */
  function Mark(refs: seq<AccountRef>, x: AccountRef, v: int): seq<int> {
    seq(|refs|, k requires 0 <= k < |refs| => if refs[k] == x then v else 0)
  }

  lemma SumOfMark(refs: seq<AccountRef>, x: AccountRef, v: int)
    requires Increasing(refs)
    ensures Sum(Mark(refs, x, v)) == if x in refs then v else 0
  {
    if k :| 0 <= k < |refs| && refs[k] == x {
      var zeros := seq(|refs|, i => 0);
      assert Mark(refs, x, v) == zeros[k := v];
      SumZero(zeros);
      SumUpdate(zeros, k, v);
    } else {
      SumZero(Mark(refs, x, v));
    }
  }

  /** The stored lines move an account by the deltas of all its spellings together. */
  lemma {:induction false} SpellingsAddUp(lines: seq<Line>, refs: seq<AccountRef>, a: AccountId)
    requires Increasing(refs) && forall k :: 0 <= k < |refs| ==> Row(refs[k]) == a
    requires forall k :: 0 <= k < |lines| && Row(lines[k].account) == a ==> lines[k].account in refs
    ensures Net(Stored(lines), a) == Sum(Deltas(lines, refs))
  {
    if lines == [] {
      SumZero(Deltas(lines, refs));
    } else {
      var n := |lines| - 1;
      var l := lines[n];
      assert Stored(lines)[..n] == Stored(lines[..n]);
      SpellingsAddUp(lines[..n], refs, a);
      SumOfMark(refs, l.account, Signed(l));
      SumPointwise(Deltas(lines[..n], refs), Mark(refs, l.account, Signed(l)), Deltas(lines, refs));
    }
  }

  lemma SpellingsOfAll(lines: seq<Line>, a: AccountId)
    ensures var rs := SpellingsOf(lines, a);
            && Increasing(rs)
            && (forall k :: 0 <= k < |rs| ==> rs[k] in Touched(lines) && Row(rs[k]) == a)
            && (forall k :: 0 <= k < |lines| && Row(lines[k].account) == a ==> lines[k].account in rs)
            && Delta(lines, a) == if rs == [] then 0 else Net(lines, rs[|rs| - 1])
  {
    hide Net, Among, Touched, LastSpelling;
    var refs := Sorted(Touched(lines));
    AmongIsIncreasing(refs, a);
    LastOfAmong(refs, a);
    var rs := SpellingsOf(lines, a);
    assert forall k :: 0 <= k < |rs| ==> rs[k] in rs;
    forall k | 0 <= k < |lines|
      ensures lines[k].account in refs
    {
      TouchesLine(lines, k);
    }
  }

  lemma TouchesLine(lines: seq<Line>, k: nat)
    requires k < |lines|
    ensures lines[k].account in Touched(lines)
  {
  }

  /** A posting moves the history of an account by what it projects and what it loses. */
  lemma NetIsDeltaAndLost(lines: seq<Line>, a: AccountId)
    ensures Net(Stored(lines), a) == Delta(lines, a) + Lost(lines, a)
  {
    hide Net, SpellingsOf, Touched, Delta, Stored;
    var rs := SpellingsOf(lines, a);
    SpellingsOfAll(lines, a);
    SpellingsAddUp(lines, rs, a);
    if rs != [] {
      var n := |rs| - 1;
      assert Deltas(lines, rs)[..n] == Deltas(lines, rs[..n]);
    }
  }

  lemma NothingLostElsewhere(lines: seq<Line>, a: AccountId)
    requires forall r :: r in Touched(lines) ==> Row(r) != a
    ensures Lost(lines, a) == 0
  {
    hide SpellingsOf;
    SpellingsOfAll(lines, a);
    assert SpellingsOf(lines, a) == [];
  }

  lemma SameRowSameSpelling(lines: seq<Line>, r: AccountRef, x: AccountRef)
    requires OneSpelling(lines) && r in Touched(lines) && x in Touched(lines) && Row(r) == Row(x)
    ensures r == x
  {
    var i :| 0 <= i < |lines| && lines[i].account == r;
    var j :| 0 <= j < |lines| && lines[j].account == x;
    hide Row;
  }

  lemma OneSpellingLosesNothing(lines: seq<Line>)
    requires OneSpelling(lines)
    ensures Agreeing(lines)
  {
    hide SpellingsOf, Touched, OneSpelling, Row, Deltas;
    forall r | r in Touched(lines)
      ensures Lost(lines, Row(r)) == 0
    {
      var rs := SpellingsOf(lines, Row(r));
      SpellingsOfAll(lines, Row(r));
      forall k | 0 <= k < |rs|
        ensures rs[k] == r
      {
        SameRowSameSpelling(lines, r, rs[k]);
      }
      AllOneIsShort(rs, r);
      assert AllButLast(rs) == [];
      SumOfNone(lines);
    }
  }

  lemma SumOfNone(lines: seq<Line>)
    ensures Sum(Deltas(lines, [])) == 0
  {
  }

  // ---------- agreement of balance and history ----------

  /** How far a stored balance is from its history. */
  ghost function Gap(s: State, a: AccountId): int
    requires a in s.accounts
  {
    s.accounts[a].balance - History(s.transactions, a)
  }

  /** Every accepted posting moves the gap of every account by exactly what it loses there. */
  lemma PostMovesGap(s: State, p: Posting, a: AccountId)
    requires Post(s, p).1.Posted? && a in s.accounts
    ensures var t := Post(s, p).0; a in t.accounts && Gap(t, a) == Gap(s, a) - Lost(p.lines, a)
  {
    PostAppends(s, p);
    hide Post, Delta, Lost, Net, Stored;
    var tx := Post(s, p).0.transactions[|s.transactions|];
    HistoryAppend(s.transactions, tx, a);
    NetIsDeltaAndLost(p.lines, a);
  }

  /** An accepted posting keeps stored balances equal to the history if and only if, for every account,
      the deltas of all its spellings except the last add up to zero. */
  lemma PostKeepsAgreementExactly(s: State, p: Posting)
    requires Agrees(s) && Post(s, p).1.Posted?
    ensures Agrees(Post(s, p).0) <==> Agreeing(p.lines)
  {
    hide Post, Lost, Gap;
    var t := Post(s, p).0;
    PostTouchesKnown(s, p);
    forall a | a in s.accounts
      ensures Gap(t, a) == 0 - Lost(p.lines, a)
    {
      PostMovesGap(s, p, a);
      NoGap(s, a);
    }
    GapsDecide(t);
    if Agreeing(p.lines) {
      forall a | a in t.accounts
        ensures Lost(p.lines, a) == 0
      {
        if forall r :: r in Touched(p.lines) ==> Row(r) != a {
          NothingLostElsewhere(p.lines, a);
        }
      }
    }
  }

  lemma NoGap(s: State, a: AccountId)
    requires Agrees(s) && a in s.accounts
    ensures Gap(s, a) == 0
  {
  }

  lemma GapsDecide(s: State)
    ensures Agrees(s) <==> forall a :: a in s.accounts ==> Gap(s, a) == 0
  {
  }

  lemma PostTouchesKnown(s: State, p: Posting)
    requires Post(s, p).1.Posted?
    ensures Post(s, p).0.accounts.Keys == s.accounts.Keys
    ensures forall r :: r in Touched(p.lines) ==> Row(r) in s.accounts
  {
    PostAppends(s, p);
    PrecheckExactly(s.accounts, p.lines);
    hide Post, Precheck;
    forall r | r in Touched(p.lines)
      ensures Row(r) in s.accounts
    {
      var k :| 0 <= k < |p.lines| && p.lines[k].account == r;
    }
  }

  // ---------- whole runs ----------

  /** Commands that lose nothing. Reversals never do: they are built from stored lines. */
  predicate Guarded(c: Command) {
    c.PostEntries? ==> Agreeing(c.posting.lines)
  }

  predicate AllGuarded(cs: seq<Command>) {
    forall k :: 0 <= k < |cs| ==> Guarded(cs[k])
  }

  lemma RowsAreOneSpelling(lines: seq<Line>)
    requires forall k :: 0 <= k < |lines| ==> Row(lines[k].account) == lines[k].account
    ensures OneSpelling(lines) && Stored(lines) == lines
  {
  }

  lemma ReversalIsOneSpelling(s: State, original: TxId, c: Correlation)
    requires Inv(s) && original < |s.transactions|
    ensures Agreeing(ReversalOf(s.transactions, original, c).lines)
  {
    var lines := s.transactions[original].lines;
    assert WellPosted(s.accounts, s.transactions[original]);
    forall k | 0 <= k < |lines|
      ensures Row(Mirrored(lines)[k].account) == Mirrored(lines)[k].account
    {
      assert lines[k].account in s.accounts;
    }
    RowsAreOneSpelling(Mirrored(lines));
    OneSpellingLosesNothing(Mirrored(lines));
  }

  lemma NextKeepsAgreement(s: State, c: Command)
    requires Inv(s) && Agrees(s) && Guarded(c)
    ensures Agrees(Next(s, c))
  {
    hide Post, Inv, Agreeing;
    match c {
      case OpenAccount(id, _, _, _, _, _) => OpenedHasNoHistory(s, id);
      case SetStatus(_, _) =>
      case PostEntries(p) => PostAgrees(s, p);
      case ReverseTx(original, correlation) =>
        if original < |s.transactions| {
          ReversalIsOneSpelling(s, original, correlation);
          PostAgrees(s, ReversalOf(s.transactions, original, correlation));
        }
    }
  }

  lemma OpenedHasNoHistory(s: State, id: AccountId)
    requires Inv(s)
    ensures id !in s.accounts ==> History(s.transactions, id) == 0
  {
    assert s.transactions[..|s.transactions|] == s.transactions;
    if id !in s.accounts {
      HistoryOfUnknown(s, |s.transactions|, id);
    }
  }

  lemma PostAgrees(s: State, p: Posting)
    requires Agrees(s) && Agreeing(p.lines)
    ensures Agrees(Post(s, p).0)
  {
    if Post(s, p).1.Posted? {
      PostKeepsAgreementExactly(s, p);
    } else {
      PostExtends(s, p);
    }
  }

  lemma {:induction false} ExecKeepsAgreement(s: State, cs: seq<Command>)
    requires Inv(s) && Agrees(s) && AllGuarded(cs)
    ensures Inv(Exec(s, cs)) && Agrees(Exec(s, cs))
    decreases |cs|
  {
    if cs != [] {
      NextKeepsInv(s, cs[0]);
      NextKeepsAgreement(s, cs[0]);
      hide Inv, Agrees, Next;
      ExecKeepsAgreement(Next(s, cs[0]), cs[1..]);
    }
  }

  /** Every ledger reached by commands that lose nothing agrees with its history. */
  lemma ReachableAgrees(cs: seq<Command>)
    requires AllGuarded(cs)
    ensures Inv(Exec(Empty, cs)) && Agrees(Exec(Empty, cs))
  {
    EmptyInv();
    ExecKeepsAgreement(Empty, cs);
  }

  // ---------- what a lossy posting breaks ----------

  ghost function LostMap(ids: set<AccountId>, lines: seq<Line>): map<nat, int> {
    map a | a in ids :: Lost(lines, a)
  }

  /** Over the accounts of a currency, the lines of an accepted posting add up to nothing. */
  lemma PostedNetsToZero(s: State, p: Posting, c: Currency)
    requires Inv(s) && Post(s, p).1.Posted?
    ensures MapSum(NetMap(Holding(s.accounts, c), Stored(p.lines))) == 0
  {
    PostAppends(s, p);
    PostedIsWellPosted(s.accounts, p.lines, Post(s, p).0.transactions[|s.transactions|]);
    hide Post, Inv, Net, Precheck, Stored;
    NetMapSum(Holding(s.accounts, c), Stored(p.lines), c);
  }

  lemma PostKeepsHolding(s: State, p: Posting, c: Currency)
    ensures Holding(Post(s, p).0.accounts, c) == Holding(s.accounts, c)
  {
    hide Delta, CheckPosting, FindCorrelation, AssignLineNumbers;
  }

  /** The stored balances of a currency move by exactly what an accepted posting loses in it. */
  lemma PostShiftsCurrency(s: State, p: Posting, c: Currency)
    requires Inv(s) && Post(s, p).1.Posted?
    ensures var t := Post(s, p).0;
            MapSum(Balances(t.accounts, c)) == MapSum(Balances(s.accounts, c)) - MapSum(LostMap(Holding(s.accounts, c), p.lines))
  {
    PostKeepsHolding(s, p, c);
    PostedNetsToZero(s, p, c);
    hide Post, Inv, Lost, Net, Stored, Holding;
    var ids, t := Holding(s.accounts, c), Post(s, p).0;
    forall a | a in ids
      ensures Balances(t.accounts, c)[a] + Lost(p.lines, a) == Balances(s.accounts, c)[a] + Net(Stored(p.lines), a)
    {
      BalanceShifts(s, p, c, a);
    }
    MapSumExchange(Balances(t.accounts, c), LostMap(ids, p.lines), Balances(s.accounts, c), NetMap(ids, Stored(p.lines)));
  }

  lemma BalanceShifts(s: State, p: Posting, c: Currency, a: AccountId)
    requires Post(s, p).1.Posted? && a in Holding(s.accounts, c)
    ensures var t := Post(s, p).0;
            a in Holding(t.accounts, c) && t.accounts[a].balance + Lost(p.lines, a) == s.accounts[a].balance + Net(Stored(p.lines), a)
  {
    PostAppends(s, p);
    NetIsDeltaAndLost(p.lines, a);
    hide Post, Lost, Net, Delta, Stored, Precheck, BalancedIn, FindCorrelation, FindReversal;
  }

  /** So a currency that summed to zero still does if and only if what it lost adds up to zero. */
  lemma PostConservesExactly(s: State, p: Posting, c: Currency)
    requires Inv(s) && MapSum(Balances(s.accounts, c)) == 0 && Post(s, p).1.Posted?
    ensures MapSum(Balances(Post(s, p).0.accounts, c)) == 0 <==> MapSum(LostMap(Holding(s.accounts, c), p.lines)) == 0
  {
    PostShiftsCurrency(s, p, c);
  }

  /** The stored balance always respects the overdraft limit (WithinLimits). The history respects it
      after an accepted posting if and only if, for every account, all spellings together can be paid,
      not just each one alone. */
  lemma PostKeepsHistoryInLimitsExactly(s: State, p: Posting)
    requires Inv(s) && Agrees(s) && Post(s, p).1.Posted?
    ensures var t := Post(s, p).0;
            (forall a :: a in t.accounts ==> History(t.transactions, a) >= 0 - t.accounts[a].overdraft) <==>
            forall a :: a in s.accounts ==>
              s.accounts[a].available + Sum(Deltas(p.lines, SpellingsOf(p.lines, a))) >= 0 - s.accounts[a].overdraft
  {
    PostAppends(s, p);
    hide Post, Deltas, SpellingsOf, Net;
    var t := Post(s, p).0;
    forall a | a in s.accounts
      ensures History(t.transactions, a) == s.accounts[a].available + Sum(Deltas(p.lines, SpellingsOf(p.lines, a)))
    {
      HistoryAppend(s.transactions, t.transactions[|s.transactions|], a);
      SpellingsOfAll(p.lines, a);
      SpellingsAddUp(p.lines, SpellingsOf(p.lines, a), a);
    }
  }

  // ---------- a real input ----------

  const SMALL: AccountRef := 'a' as nat
  const BIG: AccountRef := 'A' as nat
  const OTHER: AccountRef := 'b' as nat
  const HOUSE: AccountRef := 'c' as nat

  const DEPOSIT: Posting :=
    RawPosting.Posting(Transfer, None, Free("deposit"), TransferLines(HOUSE, SMALL, 100, USD), [None, None])

  /** Debit "a" 80, debit "A" 80, credit another account 160. */
  const TWICE: Posting :=
    RawPosting.Posting(Transfer, None, Free("twice"),
                       [Line(SMALL, Debit, 80, USD), Line(BIG, Debit, 80, USD), Line(OTHER, Credit, 160, USD)], [None, None, None])

  const OPENED: map<AccountId, Account> :=
    map[SMALL := Account(0, "a", USD, Active, 0, 0, 0), OTHER := Account(0, "b", USD, Active, 0, 0, 0),
        HOUSE := Account(0, "c", USD, Active, 0, 0, 100)]

  /** Three accounts, one of them holding 100 without overdraft. */
  const SPELLING_SETUP: seq<Command> :=
    [OpenAccount(SMALL, 0, "a", USD, Active, 0), OpenAccount(OTHER, 0, "b", USD, Active, 0),
     OpenAccount(HOUSE, 0, "c", USD, Active, 100), PostEntries(DEPOSIT)]

  lemma SetupOpens()
    ensures Exec(Empty, SPELLING_SETUP) == Post(State(OPENED, []), DEPOSIT).0
  {
    hide Post;
    var cs := SPELLING_SETUP;
    var s1 := Next(Empty, cs[0]);
    assert s1.accounts == map[SMALL := Account(0, "a", USD, Active, 0, 0, 0)];
    var s2 := Next(s1, cs[1]);
    assert s2.accounts == s1.accounts[OTHER := Account(0, "b", USD, Active, 0, 0, 0)];
    var s3 := Next(s2, cs[2]);
    assert s3.accounts == OPENED;
    ExecFour(Empty, cs);
  }

  lemma ExecFour(s: State, cs: seq<Command>)
    requires |cs| == 4
    ensures Exec(s, cs) == Next(Next(Next(Next(s, cs[0]), cs[1]), cs[2]), cs[3])
  {
    hide Next;
    var t := Next(s, cs[0]);
    var u := Next(t, cs[1]);
    var v := Next(u, cs[2]);
    assert Exec(s, cs) == Exec(t, cs[1..]);
    assert cs[1..][1..] == cs[2..] && Exec(t, cs[1..]) == Exec(u, cs[2..]);
    assert cs[2..][1..] == cs[3..] && Exec(u, cs[2..]) == Exec(v, cs[3..]);
    assert cs[3..][1..] == [] && Exec(v, cs[3..]) == Next(v, cs[3]);
  }

  lemma RowsOfExample()
    ensures Row(SMALL) == SMALL && Row(BIG) == SMALL && Row(OTHER) == OTHER && Row(HOUSE) == HOUSE
    ensures BIG < SMALL < OTHER < HOUSE
  {
  }

  lemma SetupAgrees()
    ensures var s := Exec(Empty, SPELLING_SETUP); Inv(s) && Agrees(s)
  {
    RowsOfExample();
    hide Agreeing, Inv, Agrees, Exec, Row;
    RowsAreOneSpelling(DEPOSIT.lines);
    OneSpellingLosesNothing(DEPOSIT.lines);
    ReachableAgrees(SPELLING_SETUP);
  }

  /** The accounts of the example, whatever they hold. */
  ghost predicate ExampleAccounts(accounts: map<AccountId, Account>) {
    && accounts.Keys == {SMALL, OTHER, HOUSE}
    && (forall a :: a in accounts ==> accounts[a].status == Active && accounts[a].currency == USD)
    && accounts[SMALL].overdraft == 0 && accounts[OTHER].overdraft == 0 && accounts[HOUSE].overdraft == 100
  }

  lemma DepositAccepted(s: State)
    requires ExampleAccounts(s.accounts) && s.transactions == []
    requires forall a :: a in s.accounts ==> s.accounts[a].available == 0
    ensures Post(s, DEPOSIT).1.Posted?
  {
    RowsOfExample();
    hide Post, Row, Net, Touched, Balanced;
    TransferEffects(HOUSE, SMALL, 100, USD);
    assert Fundable(s.accounts, DEPOSIT.lines);
    PostAcceptsExactly(s, DEPOSIT);
    UnusedIdIsNotReplayed(s, DEPOSIT);
  }

  lemma PostKeepsExampleAccounts(s: State, p: Posting)
    requires ExampleAccounts(s.accounts)
    ensures ExampleAccounts(Post(s, p).0.accounts)
  {
    hide Delta;
  }

  /** After the setup: one transaction, and 100 on the small account. */
  lemma SetupState(s: State)
    requires s == Exec(Empty, SPELLING_SETUP)
    ensures Inv(s) && Agrees(s) && ExampleAccounts(s.accounts)
    ensures s.accounts[SMALL].available == s.accounts[SMALL].balance == 100 && s.accounts[OTHER].available == 0
    ensures FindCorrelation(s.transactions, Free("twice")).None?
  {
    SetupAgrees();
    SetupOpens();
    RowsOfExample();
    var o := State(OPENED, []);
    hide Post, Inv, Exec, Row, Agrees, OPENED, SPELLING_SETUP;
    OpenedAccounts();
    DepositAccepted(o);
    PostKeepsExampleAccounts(o, DEPOSIT);
    AfterDeposit(o);
    BalanceShown(s, SMALL);
    BalanceShown(s, OTHER);
  }

  lemma OpenedAccounts()
    ensures ExampleAccounts(OPENED) && forall a :: a in OPENED ==> OPENED[a].available == 0
  {
  }

  lemma AfterDeposit(o: State)
    requires o.transactions == [] && Post(o, DEPOSIT).1.Posted?
    ensures var s := Post(o, DEPOSIT).0;
            && History(s.transactions, SMALL) == 100 && History(s.transactions, OTHER) == 0
            && FindCorrelation(s.transactions, Free("twice")).None?
  {
    RowsOfExample();
    PostExtends(o, DEPOSIT);
    TransferEffects(HOUSE, SMALL, 100, USD);
    StoredTransfer(HOUSE, SMALL, 100, USD);
    hide Post, Row, Net, Stored;
    var s := Post(o, DEPOSIT).0;
    assert s.transactions == [] + [s.transactions[0]];
    HistoryAppend([], s.transactions[0], SMALL);
    HistoryAppend([], s.transactions[0], OTHER);
  }

  lemma LimitsOf(s: State, a: AccountId)
    requires Inv(s) && a in s.accounts
    ensures s.accounts[a].available == s.accounts[a].balance >= 0 - s.accounts[a].overdraft
  {
  }

  lemma BalanceShown(s: State, a: AccountId)
    requires Inv(s) && Agrees(s) && a in s.accounts
    ensures s.accounts[a].available == s.accounts[a].balance == History(s.transactions, a)
  {
  }

  lemma TwiceEffects()
    ensures Balanced(TWICE.lines) && Touched(TWICE.lines) == {SMALL, BIG, OTHER}
    ensures forall r :: Net(TWICE.lines, r) == (if r == OTHER then 160 else 0) - (if r == SMALL || r == BIG then 80 else 0)
  {
    var lines := TWICE.lines;
    assert lines[..2] == [lines[0], lines[1]] && lines[..2][..1] == [lines[0]] && lines[..2][..1][..0] == [];
    assert lines[0].account in Touched(lines) && lines[1].account in Touched(lines) && lines[2].account in Touched(lines);
    forall r
      ensures Net(lines, r) == (if r == OTHER then 160 else 0) - (if r == SMALL || r == BIG then 80 else 0)
    {
      assert Net(lines[..2][..1], r) == if r == SMALL then -80 else 0;
      assert Net(lines[..2], r) == Net(lines[..2][..1], r) - if r == BIG then 80 else 0;
    }
    forall c: Currency
      ensures Total(lines, Debit, c) == Total(lines, Credit, c)
    {
      assert Total(lines[..2][..1], Debit, c) == (if c == USD then 80 else 0) && Total(lines[..2][..1], Credit, c) == 0;
      assert Total(lines[..2], Debit, c) == (if c == USD then 160 else 0) && Total(lines[..2], Credit, c) == 0;
    }
  }

  lemma TwiceAccepted(s: State)
    requires ExampleAccounts(s.accounts) && s.accounts[SMALL].available == 100 && s.accounts[OTHER].available == 0
    requires FindCorrelation(s.transactions, Free("twice")).None?
    ensures Post(s, TWICE).1.Posted?
  {
    RowsOfExample();
    TwiceEffects();
    hide Post, Row, Net, Touched, Balanced, FindCorrelation;
    assert Fundable(s.accounts, TWICE.lines);
    PostAcceptsExactly(s, TWICE);
    UnusedIdIsNotReplayed(s, TWICE);
  }

  lemma SpellingsInTwice()
    ensures SpellingsOf(TWICE.lines, SMALL) == [BIG, SMALL]
    ensures |SpellingsOf(TWICE.lines, OTHER)| <= 1
    ensures forall r :: r in Touched(TWICE.lines) ==> Row(r) != HOUSE
  {
    RowsOfExample();
    TwiceEffects();
    hide Net, SpellingsOf, Touched, Row, Delta;
    SpellingsOfAll(TWICE.lines, SMALL);
    SpellingsOfAll(TWICE.lines, OTHER);
    assert TWICE.lines[0].account == SMALL && TWICE.lines[1].account == BIG;
    TwoAscending(SpellingsOf(TWICE.lines, SMALL), BIG, SMALL);
    AllOneIsShort(SpellingsOf(TWICE.lines, OTHER), OTHER);
  }

  /** Of the two spellings only the last one is projected. */
  lemma TwiceLoses()
    ensures Delta(TWICE.lines, SMALL) == -80 && Net(Stored(TWICE.lines), SMALL) == -160
    ensures Lost(TWICE.lines, SMALL) == -80 && Lost(TWICE.lines, OTHER) == 0 && Lost(TWICE.lines, HOUSE) == 0
  {
    SpellingsInTwice();
    TwiceEffects();
    hide Net, SpellingsOf, Delta, Touched, Stored, Row;
    SpellingsOfAll(TWICE.lines, SMALL);
    NetIsDeltaAndLost(TWICE.lines, SMALL);
    assert Deltas(TWICE.lines, AllButLast([BIG, SMALL])) == [-80];
    assert [-80][..0] == [] && Sum([-80]) == -80;
    LostOfShort(TWICE.lines, OTHER);
    NothingLostElsewhere(TWICE.lines, HOUSE);
  }

  lemma LostOfShort(lines: seq<Line>, a: AccountId)
    requires |SpellingsOf(lines, a)| <= 1
    ensures Lost(lines, a) == 0
  {
    hide SpellingsOf, Net;
    assert AllButLast(SpellingsOf(lines, a)) == [];
    SumOfNone(lines);
  }

  /** Accepted, and yet: the small account shows 20 where its lines add up to -60, beyond its limit of
      zero, and the dollars of the whole ledger add up to 80. */
  lemma SpellingExample()
    ensures var s := Exec(Empty, SPELLING_SETUP);
            var (t, r) := Post(s, TWICE);
            && Inv(s) && Agrees(s) && r.Posted? && SMALL in t.accounts
            && t.accounts[SMALL].balance == 20 && t.accounts[SMALL].overdraft == 0
            && History(t.transactions, SMALL) == -60 && !Agrees(t)
            && MapSum(Balances(t.accounts, USD)) == 80
  {
    var s := Exec(Empty, SPELLING_SETUP);
    hide Exec, SPELLING_SETUP, Post, Inv;
    SetupState(s);
    TwiceAccepted(s);
    TwiceEffect(s);
    CurrencyShows(s);
  }

  lemma TwiceEffect(s: State)
    requires Inv(s) && Agrees(s) && Post(s, TWICE).1.Posted? && SMALL in s.accounts && s.accounts[SMALL].balance == 100
    ensures var t := Post(s, TWICE).0;
            && SMALL in t.accounts && t.accounts[SMALL].balance == 20 && t.accounts[SMALL].overdraft == s.accounts[SMALL].overdraft
            && History(t.transactions, SMALL) == -60 && !Agrees(t)
  {
    TwiceLoses();
    PostAppends(s, TWICE);
    hide Post, Net, Lost, Delta, Inv, Stored;
    var t := Post(s, TWICE).0;
    HistoryAppend(s.transactions, t.transactions[|s.transactions|], SMALL);
  }

  lemma CurrencyShows(s: State)
    requires Inv(s) && Agrees(s) && Post(s, TWICE).1.Posted? && ExampleAccounts(s.accounts)
    ensures MapSum(Balances(Post(s, TWICE).0.accounts, USD)) == 80
  {
    TwiceLoses();
    hide Post, Net, Lost, Delta, Inv, Stored;
    Conservation(s, USD);
    PostShiftsCurrency(s, TWICE, USD);
    var ids := Holding(s.accounts, USD);
    assert ids == {SMALL, OTHER, HOUSE};
    var zeros := map a | a in ids :: 0;
    MapSumZero(zeros);
    MapSumUpdate(zeros, SMALL, -80);
    assert LostMap(ids, TWICE.lines) == zeros[SMALL := -80];
  }
}
