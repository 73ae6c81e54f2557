/** Account row locks of concurrent transactions. A transaction that asks for its rows in increasing
    order, and besides only for rows it already holds, can never be part of a waiting circle. Two whose
    order differs can: exactly when the first rows they share are not the same. */
module Locking {
  import opened Basics
  import opened Ledger
  import opened LedgerLaws
  import opened Posting

  /** A transaction's FOR UPDATE requests in program order; `taken` of them have been granted so far. */
  datatype Txn = Txn(script: seq<AccountId>, taken: nat, live: bool)

  type State = seq<Txn>

  /** Every request is for a row already held or for a larger one than all before. */
  predicate Climbs(script: seq<AccountId>) {
    forall k :: 0 <= k < |script| ==> script[k] in script[..k] || forall j :: 0 <= j < k ==> script[j] < script[k]
  }

  predicate Holds(s: State, i: nat, id: AccountId)
    requires i < |s|
  {
    s[i].live && exists k :: 0 <= k < s[i].taken && k < |s[i].script| && s[i].script[k] == id
  }

  predicate Wants(s: State, i: nat) {
    i < |s| && s[i].live && s[i].taken < |s[i].script|
  }

  function Wanted(s: State, i: nat): AccountId
    requires Wants(s, i)
  {
    s[i].script[s[i].taken]
  }

  predicate WaitsFor(s: State, i: nat, j: nat) {
    Wants(s, i) && j < |s| && j != i && Holds(s, j, Wanted(s, i))
  }

  predicate Blocked(s: State, i: nat) {
    exists j :: 0 <= j < |s| && WaitsFor(s, i, j)
  }

  datatype Action =
    | Begin(script: seq<AccountId>)
    | Take(txn: nat)
    | Finish(txn: nat)

  /** Disabled actions (a lock that is not free, a transaction with requests left) do nothing. */
  function Next(s: State, a: Action): State {
    match a
    case Begin(script) => s + [Txn(script, 0, true)]
    case Take(i) =>
      if Wants(s, i) && !Blocked(s, i) then s[i := s[i].(taken := s[i].taken + 1)] else s
    case Finish(i) =>
      if i < |s| && s[i].live && s[i].taken == |s[i].script| then s[i := s[i].(live := false)] else s
  }

  function Exec(s: State, actions: seq<Action>): State
    decreases |actions|
  {
    if actions == [] then s else Exec(Next(s, actions[0]), actions[1..])
  }

  ghost predicate Inv(s: State) {
    && (forall i :: 0 <= i < |s| ==> s[i].taken <= |s[i].script|)
    && (forall i, j, id :: 0 <= i < |s| && 0 <= j < |s| && Holds(s, i, id) && Holds(s, j, id) ==> i == j)
  }

  lemma HoldsAfterTake(s: State, i: nat, j: nat, id: AccountId)
    requires Inv(s) && Wants(s, i) && j < |s|
    requires Holds(s[i := s[i].(taken := s[i].taken + 1)], j, id)
    ensures Holds(s, j, id) || (j == i && id == Wanted(s, i))
  {
  }

  lemma NextKeepsInv(s: State, a: Action)
    requires Inv(s)
    ensures Inv(Next(s, a))
  {
    var t := Next(s, a);
    forall i, j, id | 0 <= i < |t| && 0 <= j < |t| && Holds(t, i, id) && Holds(t, j, id)
      ensures i == j
    {
      match a {
        case Begin(_) => assert i < |s| && j < |s| ==> Holds(s, i, id) && Holds(s, j, id);
        case Take(n) =>
          if t != s {
            HoldsAfterTake(s, n, i, id);
            HoldsAfterTake(s, n, j, id);
            assert !WaitsFor(s, n, i) && !WaitsFor(s, n, j);
          }
        case Finish(_) => assert Holds(s, i, id) && Holds(s, j, id);
      }
    }
  }

  /** A transaction holds every row it took until it finishes, and none afterwards. */
  lemma LocksAreHeldToTheEnd(s: State, i: nat)
    requires Inv(s) && i < |s| && s[i].live
    ensures forall k :: 0 <= k < s[i].taken ==> Holds(s, i, s[i].script[k])
    ensures s[i].taken == |s[i].script| ==> |Next(s, Finish(i))| == |s| && forall id :: !Holds(Next(s, Finish(i)), i, id)
    ensures Wants(s, i) && !Blocked(s, i) ==> |Next(s, Take(i))| == |s| && Holds(Next(s, Take(i)), i, Wanted(s, i))
  {
  }

  lemma {:induction false} ReachableInv(s: State, actions: seq<Action>)
    requires Inv(s)
    ensures Inv(Exec(s, actions))
    decreases |actions|
  {
    if actions != [] {
      NextKeepsInv(s, actions[0]);
      ReachableInv(Next(s, actions[0]), actions[1..]);
    }
  }

  predicate Climbing(s: State) {
    forall i :: 0 <= i < |s| ==> Climbs(s[i].script)
  }

  predicate AllClimb(actions: seq<Action>) {
    forall k :: 0 <= k < |actions| && actions[k].Begin? ==> Climbs(actions[k].script)
  }

  lemma {:induction false} ReachableClimbs(s: State, actions: seq<Action>)
    requires Climbing(s) && AllClimb(actions)
    ensures Climbing(Exec(s, actions))
    decreases |actions|
  {
    if actions != [] {
      ReachableClimbs(Next(s, actions[0]), actions[1..]);
    }
  }

  /** Waiting goes up in account id: whoever blocks me waits, if at all, for a larger id. */
  lemma WaitingAscends(s: State, i: nat, j: nat)
    requires Inv(s) && Climbing(s) && WaitsFor(s, i, j) && Blocked(s, j)
    ensures Wants(s, i) && Wants(s, j) && Wanted(s, i) < Wanted(s, j)
  {
    var t := s[j];
    var blocker :| 0 <= blocker < |s| && WaitsFor(s, j, blocker);
    var k :| 0 <= k < t.taken && k < |t.script| && t.script[k] == Wanted(s, i);
    if t.script[t.taken] in t.script[..t.taken] {
      var m :| 0 <= m < t.taken && t.script[..t.taken][m] == t.script[t.taken];
      assert Holds(s, j, Wanted(s, j)) by { assert t.script[m] == Wanted(s, j); }
    }
  }

  /** While all scripts climb, in no reachable state do transactions wait for one another in a circle. */
  lemma NoWaitCycle(actions: seq<Action>, cycle: seq<nat>)
    requires AllClimb(actions) && |cycle| >= 2 && cycle[0] == cycle[|cycle| - 1]
    ensures exists k :: 0 <= k < |cycle| - 1 && !WaitsFor(Exec([], actions), cycle[k], cycle[k + 1])
  {
    var s := Exec([], actions);
    ReachableInv([], actions);
    ReachableClimbs([], actions);
    if forall k :: 0 <= k < |cycle| - 1 ==> WaitsFor(s, cycle[k], cycle[k + 1]) {
      assert WaitsFor(s, cycle[0], cycle[1]);
      AscendingChain(s, cycle, |cycle| - 1);
    }
  }

  lemma {:induction false} AscendingChain(s: State, path: seq<nat>, n: nat)
    requires Inv(s) && Climbing(s) && 1 <= n < |path|
    requires forall k :: 0 <= k < |path| - 1 ==> WaitsFor(s, path[k], path[k + 1])
    requires Blocked(s, path[n])
    ensures Wants(s, path[0]) && Wants(s, path[n]) && Wanted(s, path[0]) < Wanted(s, path[n])
  {
    hide Inv, Climbing, Holds, Wanted;
    assert WaitsFor(s, path[n - 1], path[n]);
    WaitingAscends(s, path[n - 1], path[n]);
    if n > 1 {
      AscendingChain(s, path, n - 1);
    }
  }

  ghost predicate Bounded(s: State, bound: nat) {
    forall i, k :: 0 <= i < |s| && 0 <= k < |s[i].script| ==> s[i].script[k] < bound
  }

  lemma {:induction false} SeqBound(ids: seq<AccountId>) returns (bound: nat)
    ensures forall k :: 0 <= k < |ids| ==> ids[k] < bound
  {
    bound := 0;
    if ids != [] {
      var n := |ids| - 1;
      var b := SeqBound(ids[..n]);
      bound := if ids[n] < b then b else ids[n] + 1;
      assert forall k :: 0 <= k < n ==> ids[..n][k] == ids[k];
    }
  }

  lemma {:induction false} BoundExists(s: State) returns (bound: nat)
    ensures Bounded(s, bound)
  {
    bound := 0;
    if s != [] {
      var n := |s| - 1;
      var b := BoundExists(s[..n]);
      var c := SeqBound(s[n].script);
      bound := b + c;
      assert forall i :: 0 <= i < n ==> s[..n][i] == s[i];
    }
  }

  lemma {:induction false} FollowWaits(s: State, i: nat, bound: nat) returns (j: nat)
    requires Inv(s) && Climbing(s) && Bounded(s, bound) && i < |s| && s[i].live
    ensures j < |s| && s[j].live && !Blocked(s, j)
    decreases if Wants(s, i) then bound - Wanted(s, i) else 0
  {
    j := i;
    if Blocked(s, i) {
      var next :| 0 <= next < |s| && WaitsFor(s, i, next);
      if Blocked(s, next) {
        WaitingAscends(s, i, next);
        j := FollowWaits(s, next, bound);
      } else {
        j := next;
      }
    }
  }

  /** Freedom from deadlock: while any transaction is unfinished, some unfinished transaction
      can take its next lock or finish. */
  lemma SomeTransactionCanProceed(actions: seq<Action>, i: nat) returns (j: nat)
    requires AllClimb(actions) && i < |Exec([], actions)| && Exec([], actions)[i].live
    ensures j < |Exec([], actions)| && Exec([], actions)[j].live && !Blocked(Exec([], actions), j)
  {
    var s := Exec([], actions);
    ReachableInv([], actions);
    ReachableClimbs([], actions);
    var bound := BoundExists(s);
    j := FollowWaits(s, i, bound);
  }

  // ---------- the scripts of the services ----------

  /** A payment locks its own legs, then its posting locks the same rows twice. */
  function PaymentScript(source: AccountRef, dest: AccountRef): seq<AccountId> {
    var legs := Rows(SortedPair(source, dest));
    legs + (legs + legs)
  }

  lemma PaymentPosts(source: AccountRef, dest: AccountRef, amount: nat, c: Currency)
    ensures PaymentScript(source, dest) == Rows(SortedPair(source, dest)) + BothPasses(TransferLines(source, dest, amount, c))
  {
    TransferEffects(source, dest, amount, c);
  }

  /** Row ids go up where the texts do, as they do for lower-case ids. */
  predicate RowsInOrder(refs: seq<AccountRef>) {
    forall i, j :: 0 <= i < j < |refs| ==> Row(refs[i]) <= Row(refs[j])
  }

  lemma PrefixClimbs(script: seq<AccountId>, k: nat)
    requires Climbs(script) && k <= |script|
    ensures Climbs(script[..k])
  {
    forall n | 0 <= n < k
      ensures script[..k][n] in script[..k][..n] || forall j :: 0 <= j < n ==> script[..k][j] < script[..k][n]
    {
      assert script[..k][..n] == script[..n];
    }
  }

  lemma RepeatClimbs(script: seq<AccountId>, more: seq<AccountId>)
    requires Climbs(script) && forall k :: 0 <= k < |more| ==> more[k] in script
    ensures Climbs(script + more)
  {
    var all := script + more;
    forall n | 0 <= n < |all|
      ensures all[n] in all[..n] || forall j :: 0 <= j < n ==> all[j] < all[n]
    {
      if n < |script| {
        assert all[..n] == script[..n];
      } else {
        var m :| 0 <= m < |script| && script[m] == more[n - |script|];
        assert all[..n][m] == all[n];
      }
    }
  }

  lemma OrderedRowsClimb(refs: seq<AccountRef>)
    requires RowsInOrder(refs)
    ensures Climbs(Rows(refs))
  {
    hide Row;
    var script := Rows(refs);
    forall n | 0 <= n < |script|
      ensures script[n] in script[..n] || forall j :: 0 <= j < n ==> script[j] < script[n]
    {
      if m :| 0 <= m < n && script[m] == script[n] {
        assert script[..n][m] == script[n];
      }
    }
  }

  /** Whatever becomes of it, a posting or payment whose texts sort as its rows do asks for its locks
      in a climbing order: the requests of a refused one are a part of those of an accepted one. */
  lemma ScriptsClimb(lines: seq<Line>, source: AccountRef, dest: AccountRef, k: nat)
    ensures RowsInOrder(Sorted(Touched(lines))) && k <= |BothPasses(lines)| ==> Climbs(BothPasses(lines)[..k])
    ensures RowsInOrder(SortedPair(source, dest)) && k <= |PaymentScript(source, dest)| ==> Climbs(PaymentScript(source, dest)[..k])
  {
    hide Row, Climbs, Sorted, Touched, SortedPair, RowsInOrder;
    if RowsInOrder(Sorted(Touched(lines))) {
      OrderedRowsClimb(Sorted(Touched(lines)));
      RepeatClimbs(OnePass(lines), OnePass(lines));
      if k <= |BothPasses(lines)| {
        PrefixClimbs(BothPasses(lines), k);
      }
    }
    if RowsInOrder(SortedPair(source, dest)) {
      var legs := Rows(SortedPair(source, dest));
      OrderedRowsClimb(SortedPair(source, dest));
      RepeatClimbs(legs, legs + legs);
      if k <= |PaymentScript(source, dest)| {
        PrefixClimbs(PaymentScript(source, dest), k);
      }
    }
  }

  /** Ids in the database's own spelling are in order. */
  lemma StoredIdsAreInOrder(refs: seq<AccountRef>)
    requires Increasing(refs) && forall k :: 0 <= k < |refs| ==> Row(refs[k]) == refs[k]
    ensures RowsInOrder(refs)
  {
  }

  // ---------- two transactions ----------

  /** Where the first row of `p` that is also in `q` stands. */
  function FirstShared(p: seq<AccountId>, q: seq<AccountId>): (i: nat)
    ensures i <= |p| && (i < |p| ==> p[i] in q) && forall k :: 0 <= k < i ==> p[k] !in q
  {
    if p == [] || p[0] in q then 0 else 1 + FirstShared(p[1..], q)
  }

  function Two(p: seq<AccountId>, i: nat, q: seq<AccountId>, j: nat): State {
    [Txn(p, i, true), Txn(q, j, true)]
  }

  predicate OnlyTakes(actions: seq<Action>) {
    forall k :: 0 <= k < |actions| ==> actions[k].Take?
  }

  ghost predicate CanDeadlock(p: seq<AccountId>, q: seq<AccountId>) {
    exists actions :: OnlyTakes(actions) && WaitsFor(Exec(Two(p, 0, q, 0), actions), 0, 1) && WaitsFor(Exec(Two(p, 0, q, 0), actions), 1, 0)
  }

  lemma {:induction false} TakesKeepTwo(s: State, p: seq<AccountId>, q: seq<AccountId>, actions: seq<Action>)
    requires Inv(s) && |s| == 2 && s[0].script == p && s[1].script == q && s[0].live && s[1].live && OnlyTakes(actions)
    ensures var t := Exec(s, actions); Inv(t) && |t| == 2 && t[0].script == p && t[1].script == q && t[0].live && t[1].live
    decreases |actions|
  {
    if actions != [] {
      NextKeepsInv(s, actions[0]);
      TakesKeepTwo(Next(s, actions[0]), p, q, actions[1..]);
    }
  }

  /** A transaction that holds something of the other's script holds its own first shared row. */
  lemma HoldsFirstShared(s: State, i: nat, q: seq<AccountId>, id: AccountId)
    requires i < |s| && Holds(s, i, id) && id in q
    ensures var p := s[i].script; FirstShared(p, q) < |p| && Holds(s, i, p[FirstShared(p, q)])
  {
  }

  function Takes(t: nat, n: nat): (actions: seq<Action>)
    ensures OnlyTakes(actions)
  {
    if n == 0 then [] else [Take(t)] + Takes(t, n - 1)
  }

  lemma {:induction false} FirstTakes(p: seq<AccountId>, q: seq<AccountId>, i: nat, n: nat)
    requires i + n <= |p|
    ensures Exec(Two(p, i, q, 0), Takes(0, n)) == Two(p, i + n, q, 0)
    decreases n
  {
    if n > 0 {
      var s := Two(p, i, q, 0);
      assert !WaitsFor(s, 0, 1);
      assert Next(s, Take(0)) == Two(p, i + 1, q, 0);
      assert Takes(0, n)[1..] == Takes(0, n - 1);
      FirstTakes(p, q, i + 1, n - 1);
    }
  }

  lemma {:induction false} ThenSecondTakes(p: seq<AccountId>, q: seq<AccountId>, i: nat, j: nat, n: nat)
    requires i <= |p| && j + n <= |q| && forall k :: j <= k < j + n ==> q[k] !in p[..i]
    ensures Exec(Two(p, i, q, j), Takes(1, n)) == Two(p, i, q, j + n)
    decreases n
  {
    if n > 0 {
      var s := Two(p, i, q, j);
      assert forall k :: 0 <= k < i ==> p[..i][k] == p[k];
      assert !WaitsFor(s, 1, 0);
      assert Next(s, Take(1)) == Two(p, i, q, j + 1);
      assert Takes(1, n)[1..] == Takes(1, n - 1);
      ThenSecondTakes(p, q, i, j + 1, n - 1);
    }
  }

  lemma {:induction false} ExecConcat(s: State, xs: seq<Action>, ys: seq<Action>)
    ensures Exec(s, xs + ys) == Exec(Exec(s, xs), ys)
    decreases |xs|
  {
    if xs == [] {
      assert xs + ys == ys;
    } else {
      assert (xs + ys)[1..] == xs[1..] + ys;
      ExecConcat(Next(s, xs[0]), xs[1..], ys);
    }
  }

  /** Two transactions can come to wait for each other if and only if they share rows and the first
      shared row of the one's order is not the first shared row of the other's. */
  lemma TwoDeadlockExactly(p: seq<AccountId>, q: seq<AccountId>)
    ensures CanDeadlock(p, q) <==>
              FirstShared(p, q) < |p| && FirstShared(q, p) < |q| && p[FirstShared(p, q)] != q[FirstShared(q, p)]
  {
    if actions :| OnlyTakes(actions) && WaitsFor(Exec(Two(p, 0, q, 0), actions), 0, 1) && WaitsFor(Exec(Two(p, 0, q, 0), actions), 1, 0) {
      TakesKeepTwo(Two(p, 0, q, 0), p, q, actions);
      var s := Exec(Two(p, 0, q, 0), actions);
      HoldsFirstShared(s, 1, p, Wanted(s, 0));
      HoldsFirstShared(s, 0, q, Wanted(s, 1));
    }
    if FirstShared(p, q) < |p| && FirstShared(q, p) < |q| && p[FirstShared(p, q)] != q[FirstShared(q, p)] {
      DifferentFirstsDeadlock(p, q);
    }
  }

  lemma DifferentFirstsDeadlock(p: seq<AccountId>, q: seq<AccountId>)
    requires FirstShared(p, q) < |p| && FirstShared(q, p) < |q| && p[FirstShared(p, q)] != q[FirstShared(q, p)]
    ensures CanDeadlock(p, q)
  {
    hide Exec;
    var x, y := p[FirstShared(p, q)], q[FirstShared(q, p)];
    var i := FirstShared(p, [y]);
    assert y in p && i < |p| && p[i] == y;
    var j := FirstShared(q, p[..i]);
    assert FirstShared(p, q) < i && p[..i][FirstShared(p, q)] == x;
    assert x in q && x in p[..i] && j < |q|;
    assert FirstShared(q, p) < j by {
      assert forall k :: 0 <= k <= FirstShared(q, p) ==> q[k] !in p[..i];
    }
    assert q[..j][FirstShared(q, p)] == y;
    DeadlockAt(p, i, q, j);
  }

  /** The one holds all before `i`, the other all before `j`, and each wants what the other holds. */
  lemma DeadlockAt(p: seq<AccountId>, i: nat, q: seq<AccountId>, j: nat)
    requires i < |p| && j < |q| && p[i] in q[..j] && q[j] in p[..i]
    requires forall k :: 0 <= k < j ==> q[k] !in p[..i]
    ensures CanDeadlock(p, q)
  {
    FirstTakes(p, q, 0, i);
    ThenSecondTakes(p, q, i, 0, j);
    ExecConcat(Two(p, 0, q, 0), Takes(0, i), Takes(1, j));
    hide Exec;
    var s := Two(p, i, q, j);
    assert s == Exec(Two(p, 0, q, 0), Takes(0, i) + Takes(1, j));
    assert Holds(s, 1, p[i]) by {
      var k :| 0 <= k < j && q[..j][k] == p[i];
      assert q[k] == p[i];
    }
    assert Holds(s, 0, q[j]) by {
      var k :| 0 <= k < i && p[..i][k] == q[j];
      assert p[k] == q[j];
    }
    assert WaitsFor(s, 0, 1) && WaitsFor(s, 1, 0);
  }

  /** Transfers between the accounts "a" and "b", the second one with "B" in capitals: the texts "a", "b"
      and "B", "a" sort in opposite row order, so the two postings can wait for each other. */
  lemma SpellingsCanDeadlock()
    ensures CanDeadlock(BothPasses(TransferLines('a' as nat, 'b' as nat, 1, USD)), BothPasses(TransferLines('B' as nat, 'a' as nat, 1, USD)))
    ensures !CanDeadlock(BothPasses(TransferLines('a' as nat, 'b' as nat, 1, USD)), BothPasses(TransferLines('b' as nat, 'a' as nat, 1, USD)))
  {
    var a, b, capital := 'a' as nat, 'b' as nat, 'B' as nat;
    PairSorted(a, b);
    PairSorted(capital, a);
    TransferEffects(a, b, 1, USD);
    TransferEffects(capital, a, 1, USD);
    TransferEffects(b, a, 1, USD);
    assert {b, a} == {a, b};
    assert Row(a) == a && Row(b) == b && Row(capital) == b;
    hide Row, Sorted, Touched, TransferLines, CanDeadlock;
    var p, q := BothPasses(TransferLines(a, b, 1, USD)), BothPasses(TransferLines(capital, a, 1, USD));
    assert p == [a, b, a, b] && q == [b, a, b, a];
    TwoDeadlockExactly(p, q);
    TwoDeadlockExactly(p, p);
  }

  lemma PairSorted(x: nat, y: nat)
    requires x < y
    ensures Sorted({x, y}) == [x, y]
  {
    var ids := Sorted({x, y});
    assert forall k :: 0 <= k < |ids| ==> ids[k] in ids;
    TwoAscending(ids, x, y);
  }
}
