/**
 * The double-entry ledger as a value: accounts, posted transactions, and what one
 * committed posting, reversal or account command does to them.
 * Money is an integer number of 1/10000 units; a transaction's id is its position.
 */
module Ledger {
  import opened Basics

  /** An account id as text, read as a number in base 128: equally long texts sort as their numbers do.
      Requests may spell an id in either case; the database has one row, named by the lower-case text. */
  type AccountRef = nat
  type AccountId = nat
  type TxId = nat

  function Lower(c: nat): nat {
    if 'A' as nat <= c <= 'Z' as nat then c + 32 else c
  }

  /** The row that a spelling names. */
  function Row(r: AccountRef): AccountId {
    if r < 128 then Lower(r) else Row(r / 128) * 128 + Lower(r % 128)
  }

  datatype Currency = USD | EUR | GBP | JPY | CHF | CAD | AUD
  datatype AccountStatus = Pending | Active | Frozen | Closed
  datatype EntryType = Debit | Credit
  datatype TxType = Transfer | Payment | Reversal | Adjustment | Fee | FxConversion

  /** Idempotency keys of postings. The four services own one prefix each
      (`payment:`, `pr:f:`, `pr:i:`, `fx:tr:`); everything else is caller text. */
  datatype Correlation =
    | Free(text: string)
    | ForPayment(payment: nat)
    | ForPayrollFunding(batch: nat)
    | ForPayrollItem(item: nat)
    | ForFxTrade(trade: nat)

  datatype Account = Account(owner: nat, number: string, currency: Currency, status: AccountStatus,
                             balance: int, available: int, overdraft: nat)

  /** A line of a request names its account by a spelling, a stored line by the row. */
  datatype Line = Line(account: AccountRef, entryType: EntryType, amount: nat, currency: Currency)

  datatype StoredTx = Transaction(txType: TxType, reverses: Option<TxId>, correlation: Correlation,
                                  lines: seq<Line>, numbers: seq<nat>)

  /** A stored transaction: every line has its line number. */
  type Transaction = t: StoredTx | |t.numbers| == |t.lines|
    witness StoredTx.Transaction(Transfer, None, Free(""), [], [])

  datatype State = State(accounts: map<AccountId, Account>, transactions: seq<Transaction>)

  datatype RawPosting = Posting(txType: TxType, reverses: Option<TxId>, correlation: Correlation,
                                lines: seq<Line>, numbers: seq<Option<nat>>)

  /** A posting request: every line has its optional explicit line number. */
  type Posting = p: RawPosting | |p.numbers| == |p.lines|
    witness RawPosting.Posting(Transfer, None, Free(""), [], [])

  datatype PostError =
    | MissingCorrelation | MissingReversalTarget | UnexpectedReversalTarget
    | TargetNotFound | TargetIsReversal | AlreadyReversed
    | Unbalanced | DuplicateLineNumbers | PartialLineNumbers | MixedCurrencies
    | AccountNotFound(ref: AccountRef) | AccountNotActive(ref: AccountRef)
    | CurrencyMismatch(ref: AccountRef) | InsufficientAvailable(ref: AccountRef)
    | OriginalNotFound

  datatype PostResult = Posted(id: TxId) | Replayed(id: TxId) | Rejected(error: PostError)

  // ---------- effects of lines ----------

  function Signed(l: Line): int {
    if l.entryType == Credit then l.amount else 0 - l.amount
  }

  /** Net effect of a list of lines under one spelling (for stored lines: on one account). */
  function Net(lines: seq<Line>, a: AccountRef): int {
    if lines == [] then 0
    else
      var l := lines[|lines| - 1];
      Net(lines[..|lines| - 1], a) + if l.account == a then Signed(l) else 0
  }

  /** Net effect of the whole posted history on one account. */
  function History(txs: seq<Transaction>, a: AccountId): int {
    if txs == [] then 0
    else History(txs[..|txs| - 1], a) + Net(txs[|txs| - 1].lines, a)
  }

  function Total(lines: seq<Line>, side: EntryType, c: Currency): nat {
    if lines == [] then 0
    else
      var l := lines[|lines| - 1];
      Total(lines[..|lines| - 1], side, c) + if l.entryType == side && l.currency == c then l.amount else 0
  }

  ghost predicate Balanced(lines: seq<Line>) {
    forall c: Currency :: Total(lines, Debit, c) == Total(lines, Credit, c)
  }

  predicate BalancedIn(lines: seq<Line>, cs: set<Currency>) {
    forall c :: c in cs ==> Total(lines, Debit, c) == Total(lines, Credit, c)
  }

  const CURRENCIES: set<Currency> := {USD, EUR, GBP, JPY, CHF, CAD, AUD}

  function Touched(lines: seq<Line>): set<AccountRef> {
    set i | 0 <= i < |lines| :: lines[i].account
  }

  predicate MixesCurrencies(lines: seq<Line>) {
    exists i, j :: 0 <= i < j < |lines| && lines[i].account == lines[j].account && lines[i].currency != lines[j].currency
  }

  /** The currency last seen under spelling `a` (all equal unless MixesCurrencies). */
  function CurrencyOn(lines: seq<Line>, a: AccountRef): Currency
    requires a in Touched(lines)
  {
    var l := lines[|lines| - 1];
    if l.account == a then l.currency
    else CurrencyOn(lines[..|lines| - 1], a)
  }

  /** Lines as the uuid column keeps them. */
  function Stored(lines: seq<Line>): (r: seq<Line>)
    ensures |r| == |lines|
  {
    seq(|lines|, i requires 0 <= i < |lines| => lines[i].(account := Row(lines[i].account)))
  }

  function Rows(refs: seq<AccountRef>): (ids: seq<AccountId>)
    ensures |ids| == |refs|
  {
    seq(|refs|, i requires 0 <= i < |refs| => Row(refs[i]))
  }

  /** The texts of two legs without repetition, sorted. */
  function SortedPair(a: AccountRef, b: AccountRef): (refs: seq<AccountRef>)
    ensures forall x :: x in refs <==> x == a || x == b
  {
    Sorted({a, b})
  }

  // ---------- the checks of a posting, in order ----------

  function FindCorrelation(txs: seq<Transaction>, c: Correlation): (r: Option<TxId>)
    ensures r.Some? ==> r.value < |txs| && txs[r.value].correlation == c
    ensures r.None? ==> forall i :: 0 <= i < |txs| ==> txs[i].correlation != c
  {
    if txs == [] then None
    else if txs[|txs| - 1].correlation == c then Some(|txs| - 1)
    else FindCorrelation(txs[..|txs| - 1], c)
  }

  function FindReversal(txs: seq<Transaction>, target: TxId): (r: Option<TxId>)
    ensures r.Some? ==> r.value < |txs| && txs[r.value].txType == Reversal && txs[r.value].reverses == Some(target)
    ensures r.None? ==> forall i :: 0 <= i < |txs| ==> !(txs[i].txType == Reversal && txs[i].reverses == Some(target))
  {
    if txs == [] then None
    else if txs[|txs| - 1].txType == Reversal && txs[|txs| - 1].reverses == Some(target) then Some(|txs| - 1)
    else FindReversal(txs[..|txs| - 1], target)
  }

  function ReversalError(txs: seq<Transaction>, p: Posting): Option<PostError> {
    if p.txType == Reversal then
      if p.reverses == None then Some(MissingReversalTarget)
      else if p.reverses.value >= |txs| then Some(TargetNotFound)
      else if txs[p.reverses.value].txType == Reversal then Some(TargetIsReversal)
      else if FindReversal(txs, p.reverses.value).Some? then Some(AlreadyReversed)
      else None
    else if p.reverses.Some? then Some(UnexpectedReversalTarget)
    else None
  }

  predicate Distinct<T(==)>(xs: seq<T>) {
    forall i, j :: 0 <= i < j < |xs| ==> xs[i] != xs[j]
  }

  predicate AllOmitted(numbers: seq<Option<nat>>) {
    forall i :: 0 <= i < |numbers| ==> numbers[i].None?
  }

  predicate AllExplicit(numbers: seq<Option<nat>>) {
    forall i :: 0 <= i < |numbers| ==> numbers[i].Some?
  }

  datatype Numbering = Numbers(nums: seq<nat>) | BadNumbers(error: PostError)

  /** Explicit numbers must be distinct; omitted ones become 1, 2, ...; mixing is an error. */
  function AssignLineNumbers(numbers: seq<Option<nat>>): (r: Numbering)
    ensures r.Numbers? ==> |r.nums| == |numbers| && Distinct(r.nums)
    ensures r.Numbers? <==> (AllOmitted(numbers) || (AllExplicit(numbers) && Distinct(numbers)))
    ensures r.Numbers? ==> forall i :: 0 <= i < |numbers| ==> r.nums[i] == match numbers[i] case Some(number) => number case None => i + 1
    ensures r.BadNumbers? ==> r.error == if AllExplicit(numbers) then DuplicateLineNumbers else PartialLineNumbers
  {
    if AllExplicit(numbers) then
      var nums := seq(|numbers|, i requires 0 <= i < |numbers| => numbers[i].value);
      assert forall i :: 0 <= i < |numbers| ==> numbers[i] == Some(nums[i]);
      assert Distinct(nums) <==> Distinct(numbers);
      if Distinct(nums) then Numbers(nums) else BadNumbers(DuplicateLineNumbers)
    else if AllOmitted(numbers) then
      Numbers(seq(|numbers|, i => i + 1))
    else BadNumbers(PartialLineNumbers)
  }

  /** What the locked pre-check says about one spelling. */
  function PrecheckError(accounts: map<AccountId, Account>, lines: seq<Line>, r: AccountRef): Option<PostError>
    requires r in Touched(lines)
  {
    var a := Row(r);
    if a !in accounts then Some(AccountNotFound(r))
    else if accounts[a].status != Active then Some(AccountNotActive(r))
    else if accounts[a].currency != CurrencyOn(lines, r) then Some(CurrencyMismatch(r))
    else if accounts[a].available + Net(lines, r) < 0 - accounts[a].overdraft then Some(InsufficientAvailable(r))
    else None
  }

  /** What the projection pass says about one spelling. */
  function ProjectionError(accounts: map<AccountId, Account>, lines: seq<Line>, r: AccountRef): Option<PostError>
    requires r in Touched(lines)
  {
    var a := Row(r);
    if a !in accounts then Some(AccountNotFound(r))
    else if accounts[a].currency != CurrencyOn(lines, r) then Some(CurrencyMismatch(r))
    else if accounts[a].available + Net(lines, r) < 0 - accounts[a].overdraft then Some(InsufficientAvailable(r))
    else None
  }

  predicate AllTouched(lines: seq<Line>, ids: seq<AccountRef>) {
    forall k :: 0 <= k < |ids| ==> ids[k] in Touched(lines)
  }

  /** The first pre-check error over a list of ids, in list order. */
  function FirstPrecheckError(accounts: map<AccountId, Account>, lines: seq<Line>, ids: seq<AccountRef>): (r: Option<PostError>)
    requires AllTouched(lines, ids)
    ensures r.None? <==> forall k :: 0 <= k < |ids| ==> PrecheckError(accounts, lines, ids[k]).None?
  {
    if ids == [] then None
    else
      var e := PrecheckError(accounts, lines, ids[0]);
      if e.Some? then e else FirstPrecheckError(accounts, lines, ids[1..])
  }

  function FirstProjectionError(accounts: map<AccountId, Account>, lines: seq<Line>, ids: seq<AccountRef>): (r: Option<PostError>)
    requires AllTouched(lines, ids)
    ensures r.None? <==> forall k :: 0 <= k < |ids| ==> ProjectionError(accounts, lines, ids[k]).None?
  {
    if ids == [] then None
    else
      var e := ProjectionError(accounts, lines, ids[0]);
      if e.Some? then e else FirstProjectionError(accounts, lines, ids[1..])
  }

  function Precheck(accounts: map<AccountId, Account>, lines: seq<Line>): Option<PostError> {
    if MixesCurrencies(lines) then Some(MixedCurrencies)
    else FirstPrecheckError(accounts, lines, Sorted(Touched(lines)))
  }

  function ProjectionCheck(accounts: map<AccountId, Account>, lines: seq<Line>): Option<PostError> {
    if MixesCurrencies(lines) then Some(MixedCurrencies)
    else FirstProjectionError(accounts, lines, Sorted(Touched(lines)))
  }

  function CheckPosting(s: State, p: Posting): Option<PostError> {
    var re := ReversalError(s.transactions, p);
    if re.Some? then re
    else if !BalancedIn(p.lines, CURRENCIES) then Some(Unbalanced)
    else
      var n := AssignLineNumbers(p.numbers);
      if n.BadNumbers? then Some(n.error)
      else Precheck(s.accounts, p.lines)
  }

  /** The two lines of a plain transfer. */
  function TransferLines(source: AccountRef, dest: AccountRef, amount: nat, c: Currency): seq<Line> {
    [Line(source, Debit, amount, c), Line(dest, Credit, amount, c)]
  }

  // ---------- committed steps ----------

  function Moved(acc: Account, delta: int): Account {
    acc.(balance := acc.balance + delta, available := acc.available + delta)
  }

  /** The last spelling of account `a` in a list. */
  function LastSpelling(refs: seq<AccountRef>, a: AccountId): (r: Option<AccountRef>)
    ensures r.Some? ==> r.value in refs && Row(r.value) == a
    ensures r.None? ==> forall x :: x in refs ==> Row(x) != a
  {
    if refs == [] then None
    else if Row(refs[|refs| - 1]) == a then Some(refs[|refs| - 1])
    else LastSpelling(refs[..|refs| - 1], a)
  }

  /** Every spelling is projected from the stored row, and the last one saved stays: its delta alone. */
  function Delta(lines: seq<Line>, a: AccountId): int {
    var last := LastSpelling(Sorted(Touched(lines)), a);
    if last.None? then 0 else Net(lines, last.value)
  }

  function Project(accounts: map<AccountId, Account>, lines: seq<Line>): map<AccountId, Account> {
    map a | a in accounts :: Moved(accounts[a], Delta(lines, a))
  }

  /** One posting as an atomic step: replay, reject unchanged, or append and project. */
  function Post(s: State, p: Posting): (State, PostResult) {
    if p.correlation == Free("") then (s, Rejected(MissingCorrelation))
    else
      var found := FindCorrelation(s.transactions, p.correlation);
      if found.Some? then (s, Replayed(found.value))
      else
        var e := CheckPosting(s, p);
        if e.Some? then (s, Rejected(e.value))
        else
          var tx: Transaction := StoredTx.Transaction(p.txType, p.reverses, p.correlation, Stored(p.lines), AssignLineNumbers(p.numbers).nums);
          (State(Project(s.accounts, p.lines), s.transactions + [tx]), Posted(|s.transactions|))
  }

  function Mirror(l: Line): Line {
    l.(entryType := if l.entryType == Debit then Credit else Debit)
  }

  function Mirrored(lines: seq<Line>): seq<Line> {
    seq(|lines|, i requires 0 <= i < |lines| => Mirror(lines[i]))
  }

  /** The compensating posting for a stored transaction; it keeps the line numbers. */
  function ReversalOf(txs: seq<Transaction>, original: TxId, c: Correlation): Posting
    requires original < |txs|
  {
    var t := txs[original];
    RawPosting.Posting(Reversal, Some(original), c, Mirrored(t.lines),
                       seq(|t.numbers|, i requires 0 <= i < |t.numbers| => Some(t.numbers[i])))
  }

  /** `reverse`: replay by correlation id, find a reversible original, post the mirror. */
  function Reverse(s: State, original: TxId, c: Correlation): (State, PostResult)
  {
    var found := FindCorrelation(s.transactions, c);
    if c != Free("") && found.Some? then (s, Replayed(found.value))
    else if original >= |s.transactions| || s.transactions[original].lines == [] then (s, Rejected(OriginalNotFound))
    else if s.transactions[original].txType == Reversal then (s, Rejected(TargetIsReversal))
    else Post(s, ReversalOf(s.transactions, original, c))
  }

  datatype Command =
    | OpenAccount(id: AccountId, owner: nat, number: string, currency: Currency, status: AccountStatus, overdraft: nat)
    | SetStatus(ref: AccountRef, status: AccountStatus)
    | PostEntries(posting: Posting)
    | ReverseTx(original: TxId, correlation: Correlation)

  predicate NumberTaken(accounts: map<AccountId, Account>, number: string) {
    exists a :: a in accounts && accounts[a].number == number
  }

  /** One committed (or aborted, hence ineffective) ledger or account command. */
  function Next(s: State, c: Command): State {
    match c
    case OpenAccount(id, owner, number, currency, status, overdraft) =>
      if id in s.accounts || Row(id) != id || NumberTaken(s.accounts, number) then s
      else s.(accounts := s.accounts[id := Account(owner, number, currency, status, 0, 0, overdraft)])
    case SetStatus(ref, status) =>
      if Row(ref) !in s.accounts then s
      else s.(accounts := s.accounts[Row(ref) := s.accounts[Row(ref)].(status := status)])
    case PostEntries(p) => Post(s, p).0
    case ReverseTx(original, correlation) => Reverse(s, original, correlation).0
  }

  const Empty: State := State(map[], [])

  // ---------- the invariant ----------

  /** Stored balances are what the posted lines add up to. (Not part of Inv: a posting that spells one
      account two ways can break it.) */
  ghost predicate Agrees(s: State) {
    forall a :: a in s.accounts ==> s.accounts[a].balance == History(s.transactions, a)
  }

  ghost predicate WithinLimits(s: State) {
    forall a :: a in s.accounts ==>
      && Row(a) == a
      && s.accounts[a].available == s.accounts[a].balance
      && s.accounts[a].available >= 0 - s.accounts[a].overdraft
  }

  /** A stored transaction balances and only names accounts that hold its currencies. */
  ghost predicate WellPosted(accounts: map<AccountId, Account>, t: Transaction) {
    && Distinct(t.numbers)
    && Balanced(t.lines)
    && forall k :: 0 <= k < |t.lines| ==>
         t.lines[k].account in accounts && accounts[t.lines[k].account].currency == t.lines[k].currency
  }

  ghost predicate AllWellPosted(s: State) {
    forall i :: 0 <= i < |s.transactions| ==> WellPosted(s.accounts, s.transactions[i])
  }

  ghost predicate UniqueCorrelations(txs: seq<Transaction>) {
    forall i, j :: 0 <= i < j < |txs| ==> txs[i].correlation != txs[j].correlation
  }

  /** Reversals point to earlier non-reversals, at most one each. */
  ghost predicate ReversalsSound(txs: seq<Transaction>) {
    && (forall i :: 0 <= i < |txs| ==> (txs[i].txType == Reversal <==> txs[i].reverses.Some?))
    && (forall i :: 0 <= i < |txs| && txs[i].reverses.Some? ==>
          txs[i].reverses.value < i && txs[txs[i].reverses.value].txType != Reversal)
    && (forall i, j :: 0 <= i < j < |txs| && txs[i].reverses.Some? ==> txs[i].reverses != txs[j].reverses)
  }

  ghost predicate Inv(s: State) {
    && WithinLimits(s)
    && AllWellPosted(s)
    && UniqueCorrelations(s.transactions)
    && ReversalsSound(s.transactions)
  }

  /** `t` is a later ledger: history only appended, account identities kept. */
  ghost predicate Extends(s: State, t: State) {
    && s.transactions <= t.transactions
    && forall a :: a in s.accounts ==>
         && a in t.accounts
         && t.accounts[a].owner == s.accounts[a].owner
         && t.accounts[a].number == s.accounts[a].number
         && t.accounts[a].currency == s.accounts[a].currency
         && t.accounts[a].overdraft == s.accounts[a].overdraft
  }
}
