/** What the relay guarantees over every interleaving, and what it does not: which broker errors
    would have to be ruled out for at-least-once delivery and for FAILED to mean "not delivered". */
module OutboxLaws {
  import opened Basics
  import opened Outbox

  // ---------- every step keeps the invariant ----------

  lemma OwnsUpdate(workers: map<nat, Worker>, w: nat, x: Worker, i: nat)
    ensures MapSum(Owns(workers[w := x], i)) ==
            MapSum(Owns(workers, i)) + multiset(Todo(x))[i] - (if w in workers then multiset(Todo(workers[w]))[i] else 0)
  {
    var m := Owns(workers, i);
    assert Owns(workers[w := x], i) == m[w := multiset(Todo(x))[i]];
    if w in workers {
      MapSumUpdate(m, w, multiset(Todo(x))[i]);
    } else {
      MapSumInsert(m, w, multiset(Todo(x))[i]);
    }
  }

  lemma OwnsRemove(workers: map<nat, Worker>, w: nat, i: nat)
    requires w in workers
    ensures MapSum(Owns(workers - {w}, i)) <= MapSum(Owns(workers, i))
  {
    var m := Owns(workers, i);
    assert Owns(workers - {w}, i) == m - {w};
    MapSumRemove(m, w);
  }

  /** Splitting the first id off a list. */
  lemma CountHead(ids: seq<nat>, i: nat)
    requires ids != []
    ensures multiset(ids)[i] == multiset(ids[1..])[i] + if ids[0] == i then 1 else 0
  {
    assert ids == [ids[0]] + ids[1..];
  }

  lemma CountConcat(xs: seq<nat>, ys: seq<nat>, i: nat)
    ensures multiset(xs + ys)[i] == multiset(xs)[i] + multiset(ys)[i]
  {
  }

  lemma KeepsCoverage(s: State, a: Action)
    requires Inv(s)
    ensures ClaimsCoverDeliveries(Next(s, a))
  {
    var t := Next(s, a);
    if t.workers == s.workers {
      assert t.delivered == s.delivered && t.claims == s.claims by { QuietStep(s, a); }
    } else {
      assert !a.Enqueue? && !a.Reclaim?;
      forall i: nat
        ensures Deliveries(t, i) + MapSum(Owns(t.workers, i)) <= Claims(t, i)
      {
        StepCoverage(s, a, i);
      }
    }
  }

  lemma QuietStep(s: State, a: Action)
    requires Valid(s) && Next(s, a).workers == s.workers
    ensures Next(s, a).delivered == s.delivered && Next(s, a).claims == s.claims
  {
  }

  lemma StepCoverage(s: State, a: Action, i: nat)
    requires Valid(s) && !a.Enqueue? && !a.Reclaim? && Next(s, a).workers != s.workers
    requires Deliveries(s, i) + MapSum(Owns(s.workers, i)) <= Claims(s, i)
    ensures Deliveries(Next(s, a), i) + MapSum(Owns(Next(s, a).workers, i)) <= Claims(Next(s, a), i)
  {
    hide LockedIds, Select, Valid, PublishRow, FailRow, Next, Owns, Deliveries, Claims;
    var t := Next(s, a);
    if a.Send? {
      SendAccounts(s, a, i);
    } else if a.CommitClaim? {
      ClaimAccounts(s, a, i);
    } else {
      OtherAccounts(s, a, i);
    }
    if a.w !in t.workers {
      OwnsRemove(s.workers, a.w, i);
    } else {
      OwnsUpdate(s.workers, a.w, t.workers[a.w], i);
    }
  }

  /** Only worker `w` changes, and what it gains or delivers of row `i` it had to hold or claim. */
  ghost predicate Accounts(s: State, t: State, w: nat, i: nat) {
    if w in t.workers then
      && t.workers == s.workers[w := t.workers[w]]
      && Deliveries(t, i) - Deliveries(s, i) + multiset(Todo(t.workers[w]))[i]
         <= (if w in s.workers then multiset(Todo(s.workers[w]))[i] else 0) + Claims(t, i) - Claims(s, i)
    else w in s.workers && t.workers == s.workers - {w} && Deliveries(t, i) == Deliveries(s, i) && Claims(t, i) == Claims(s, i)
  }

  lemma SendAccounts(s: State, a: Action, i: nat)
    requires Valid(s) && a.Send? && Next(s, a).workers != s.workers
    ensures Accounts(s, Next(s, a), a.w, i)
  {
    hide LockedIds, Select, PublishRow, FailRow, Valid;
    var x := s.workers[a.w];
    CountHead(x.todo, i);
    CountConcat(s.delivered, [x.todo[0]], i);
  }

  lemma ClaimAccounts(s: State, a: Action, i: nat)
    requires Valid(s) && a.CommitClaim? && Next(s, a).workers != s.workers
    ensures Accounts(s, Next(s, a), a.w, i)
  {
  }

  lemma OtherAccounts(s: State, a: Action, i: nat)
    requires Valid(s) && !a.Enqueue? && !a.Reclaim? && !a.Send? && !a.CommitClaim? && Next(s, a).workers != s.workers
    ensures Accounts(s, Next(s, a), a.w, i)
  {
    hide LockedIds, Select, PublishRow, FailRow, Valid;
  }

  lemma KeepsDisjoint(s: State, a: Action)
    requires Inv(s)
    ensures ClaimsDisjoint(Next(s, a))
  {
    hide ClaimsCoverDeliveries, Select, LockedIds;
    if a.SelectPending? {
      SelectionDisjoint(s, a.w, a.limit);
    } else if a.CommitClaim? {
      CommitDisjoint(s, a.w, a.now);
    } else {
      RowsNotPending(s, a);
      forall w: nat, i: nat | Selects(Next(s, a), w, i)
        ensures Selects(s, w, i)
      {
        StillSelects(s, a, w, i);
      }
    }
  }

  lemma StillSelects(s: State, a: Action, w: nat, i: nat)
    requires Valid(s) && !a.SelectPending? && Selects(Next(s, a), w, i)
    ensures Selects(s, w, i) && Next(s, a).workers[w] == s.workers[w]
  {
  }

  lemma SelectionDisjoint(s: State, w: nat, limit: nat)
    requires Valid(s) && ClaimsDisjoint(s)
    ensures ClaimsDisjoint(Next(s, SelectPending(w, limit)))
  {
    hide Select, Valid;
    SelectIsTheQuery(s.rows, LockedIds(s), limit);
    var t := Next(s, SelectPending(w, limit));
    assert forall v: nat, i: nat :: Selects(s, v, i) ==> i in LockedIds(s);
    assert w !in s.workers ==> forall i: nat :: Selects(t, w, i) ==> Eligible(s.rows, LockedIds(s), i);
    assert forall v: nat, i: nat :: v != w && Selects(t, v, i) ==> Selects(s, v, i);
  }

  lemma CommitDisjoint(s: State, w: nat, now: int)
    requires Valid(s) && ClaimsDisjoint(s)
    ensures ClaimsDisjoint(Next(s, CommitClaim(w, now)))
  {
    hide LockedIds, Select, Valid;
    var t := Next(s, CommitClaim(w, now));
    forall v: nat, i: nat | Selects(t, v, i)
      ensures Selects(s, v, i) && !Selects(s, w, i)
    {
      assert v != w ==> Selects(s, v, i);
    }
  }

  /** No step but a claim moves a PENDING row. */
  lemma RowsNotPending(s: State, a: Action)
    requires Valid(s) && !a.CommitClaim?
    ensures |s.rows| <= |Next(s, a).rows|
    ensures forall i :: 0 <= i < |s.rows| && s.rows[i].status == Pending ==> Next(s, a).rows[i].status == Pending
  {
  }

  lemma KeepsRows(s: State, a: Action)
    requires Inv(s)
    ensures var t := Next(s, a);
            && Valid(t) && |s.rows| <= |t.rows|
            && (forall i :: 0 <= i < |t.rows| ==> RowFits(t.rows[i]))
  {
    hide ClaimsCoverDeliveries, Select, LockedIds;
    if a.CommitClaim? && a.w in s.workers && s.workers[a.w].Selecting? {
      assert forall i: nat :: i in s.workers[a.w].ids ==> Selects(s, a.w, i);
    }
  }

  lemma KeepsConfirmed(s: State, a: Action)
    requires Inv(s)
    ensures var t := Next(s, a);
            && (forall i :: 0 <= i < |t.rows| && t.rows[i].status == Published ==> i in t.confirmed)
            && (forall i :: i in t.confirmed ==> i in t.delivered)
            && Below(t.delivered, |t.rows|)
            && (forall w :: w in t.workers && t.workers[w].Confirmed? ==> t.workers[w].id in t.confirmed)
  {
    hide ClaimsCoverDeliveries, ClaimsDisjoint, Select, LockedIds, RowFits;
  }

  lemma NextKeepsInv(s: State, a: Action)
    requires Inv(s)
    ensures Inv(Next(s, a))
  {
    KeepsRows(s, a);
    KeepsConfirmed(s, a);
    KeepsDisjoint(s, a);
    KeepsCoverage(s, a);
    hide Next, ClaimsDisjoint, ClaimsCoverDeliveries;
  }

  // ---------- whole runs ----------

  function Exec(s: State, actions: seq<Action>): State
    requires Inv(s)
    decreases |actions|
  {
    if actions == [] then s
    else
      NextKeepsInv(s, actions[0]);
      Exec(Next(s, actions[0]), actions[1..])
  }

  lemma {:induction false} ExecKeepsInv(s: State, actions: seq<Action>)
    requires Inv(s)
    ensures Inv(Exec(s, actions))
    decreases |actions|
  {
    if actions != [] {
      NextKeepsInv(s, actions[0]);
      ExecKeepsInv(Next(s, actions[0]), actions[1..]);
    }
  }

  lemma ExecNothing(s: State)
    requires Inv(s)
    ensures Exec(s, []) == s
  {
  }

  lemma InvIsValid(s: State)
    requires Inv(s)
    ensures Valid(s)
  {
  }

  lemma {:induction false} ExecAppend(s: State, actions: seq<Action>, a: Action)
    requires Inv(s)
    ensures Inv(Exec(s, actions)) && Valid(Exec(s, actions)) && Exec(s, actions + [a]) == Next(Exec(s, actions), a)
    decreases |actions|
  {
    hide Inv, Next, Valid;
    InvIsValid(s);
    ExecKeepsInv(s, actions);
    if actions == [] {
      NextKeepsInv(s, a);
      assert [] + [a] == [a] && [a][1..] == [];
    } else {
      NextKeepsInv(s, actions[0]);
      InvIsValid(Next(s, actions[0]));
      ExecAppend(Next(s, actions[0]), actions[1..], a);
      assert (actions + [a])[1..] == actions[1..] + [a];
    }
  }

  lemma StartInv()
    ensures Inv(Start)
  {
  }

  /** Every reachable state, whatever the workers, crashes, reclaims, late marks and lost confirms:
      PUBLISHED rows were confirmed by the broker, every delivered id is a committed row, a row is
      delivered at most as often as it was claimed, and open claims hold disjoint sets of PENDING rows. */
  lemma RelayIsSafe(actions: seq<Action>, i: nat)
    ensures Inv(Start)
    ensures var s := Exec(Start, actions);
            && Inv(s)
            && (i < |s.rows| && s.rows[i].status == Published ==> i in s.confirmed && i in s.delivered)
            && (i in s.delivered ==> i < |s.rows|)
            && Deliveries(s, i) <= Claims(s, i)
            && (forall w: nat, v: nat :: Selects(s, w, i) && Selects(s, v, i) ==> w == v && s.rows[i].status == Pending)
  {
    StartInv();
    ExecKeepsInv(Start, actions);
    var s := Exec(Start, actions);
    OwnsNonNegative(s.workers, i);
  }

  lemma OwnsNonNegative(workers: map<nat, Worker>, i: nat)
    ensures MapSum(Owns(workers, i)) >= 0
  {
    var zeros := map w | w in workers :: 0;
    MapSumZero(zeros);
    MapSumMonotone(zeros, Owns(workers, i));
  }

  predicate Terminal(row: Row) {
    row.status == Published || row.status == Failed
  }

  /** No step removes a row or changes a terminal one. */
  lemma NextKeepsTerminal(s: State, a: Action)
    requires Inv(s)
    ensures |s.rows| <= |Next(s, a).rows|
    ensures forall i :: 0 <= i < |s.rows| && Terminal(s.rows[i]) ==> Next(s, a).rows[i] == s.rows[i]
  {
    hide LockedIds, Select, ClaimsCoverDeliveries;
    if a.CommitClaim? && a.w in s.workers && s.workers[a.w].Selecting? {
      assert forall i: nat :: i in s.workers[a.w].ids ==> Selects(s, a.w, i);
    }
  }

  lemma {:induction false} TerminalRowsAreFinal(s: State, actions: seq<Action>, i: nat)
    requires Inv(s) && i < |s.rows|
    ensures i < |Exec(s, actions).rows|
    ensures Terminal(s.rows[i]) ==> Exec(s, actions).rows[i] == s.rows[i]
    decreases |actions|
  {
    if actions != [] {
      NextKeepsInv(s, actions[0]);
      NextKeepsTerminal(s, actions[0]);
      hide Inv, Next;
      TerminalRowsAreFinal(Next(s, actions[0]), actions[1..], i);
    }
  }

  /** No row is lost: a row that is not terminal waits as PENDING, or is CLAIMED with a claim time, so
      that a reclaim with a later cutoff makes it PENDING; and then only an open claim or `limit`
      rows at least as old keep it out of the next claim. */
  lemma NoRowIsLost(s: State, i: nat, cutoff: int, limit: nat)
    requires Inv(s) && i < |s.rows| && !Terminal(s.rows[i])
    requires s.rows[i].claimedAt.Some? ==> s.rows[i].claimedAt.value < cutoff
    ensures var t := Next(s, Reclaim(cutoff));
            var ids := Select(t.rows, LockedIds(t), limit);
            && t.rows[i].status == Pending
            && (i !in ids ==>
                  || Locked(t, i)
                  || (|ids| == limit && forall k :: 0 <= k < |ids| ==> t.rows[ids[k]].createdAt <= t.rows[i].createdAt))
  {
    hide ClaimsCoverDeliveries, ClaimsDisjoint, Select;
    var t := Next(s, Reclaim(cutoff));
    SelectIsTheQuery(t.rows, LockedIds(t), limit);
    assert !Locked(t, i) ==> Eligible(t.rows, LockedIds(t), i);
  }

  // ---------- what the broker's errors decide ----------

  /** The run meets only publish outcomes of the given kinds. */
  predicate Uses(actions: seq<Action>, allowed: set<Publish>) {
    forall k :: 0 <= k < |actions| && actions[k].Send? ==> actions[k].outcome in allowed
  }

  ghost predicate AllTerminalDelivered(s: State) {
    forall i :: 0 <= i < |s.rows| && Terminal(s.rows[i]) ==> i in s.delivered
  }

  ghost predicate NoFailedDelivered(s: State) {
    forall i :: 0 <= i < |s.rows| && s.rows[i].status == Failed ==> i !in s.delivered
  }

  ghost predicate AtLeastOnce(allowed: set<Publish>) {
    StartInv();
    forall actions :: Uses(actions, allowed) ==> AllTerminalDelivered(Exec(Start, actions))
  }

  ghost predicate FailedMeansUndelivered(allowed: set<Publish>) {
    StartInv();
    forall actions :: Uses(actions, allowed) ==> NoFailedDelivered(Exec(Start, actions))
  }

  /** A worker whose publish threw still knows that the message is in the queue. */
  ghost predicate ErroredDelivered(s: State) {
    forall w :: w in s.workers && s.workers[w].Errored? ==> s.workers[w].id in s.delivered
  }

  lemma StepDelivers(s: State, a: Action)
    requires Inv(s) && AllTerminalDelivered(s) && ErroredDelivered(s)
    requires a.Send? ==> a.outcome != ErrorBeforeDelivery
    ensures AllTerminalDelivered(Next(s, a)) && ErroredDelivered(Next(s, a))
  {
    hide LockedIds, Select, ClaimsCoverDeliveries, ClaimsDisjoint;
  }

  lemma {:induction false} RunDelivers(s: State, actions: seq<Action>)
    requires Inv(s) && AllTerminalDelivered(s) && ErroredDelivered(s)
    requires Uses(actions, {Acked, ErrorAfterDelivery})
    ensures AllTerminalDelivered(Exec(s, actions))
    decreases |actions|
  {
    if actions != [] {
      NextKeepsInv(s, actions[0]);
      StepDelivers(s, actions[0]);
      hide Inv, Next;
      RunDelivers(Next(s, actions[0]), actions[1..]);
    }
  }

  ghost predicate NothingDelivered(s: State) {
    s.delivered == [] && s.confirmed == {}
  }

  lemma StepUndelivered(s: State, a: Action)
    requires Inv(s) && NothingDelivered(s)
    requires a.Send? ==> a.outcome == ErrorBeforeDelivery
    ensures NothingDelivered(Next(s, a))
  {
  }

  lemma {:induction false} RunUndelivered(s: State, actions: seq<Action>)
    requires Inv(s) && NothingDelivered(s) && Uses(actions, {ErrorBeforeDelivery})
    ensures NothingDelivered(Exec(s, actions))
    decreases |actions|
  {
    if actions != [] {
      NextKeepsInv(s, actions[0]);
      StepUndelivered(s, actions[0]);
      hide Inv, Next;
      RunUndelivered(Next(s, actions[0]), actions[1..]);
    }
  }

  ghost predicate NothingFailed(s: State) {
    && (forall i :: 0 <= i < |s.rows| ==> s.rows[i].status != Failed)
    && (forall w :: w in s.workers ==> !s.workers[w].Errored?)
  }

  lemma {:induction false} RunWithoutErrors(s: State, actions: seq<Action>)
    requires Inv(s) && NothingFailed(s) && Uses(actions, {Acked})
    ensures NothingFailed(Exec(s, actions))
    decreases |actions|
  {
    if actions != [] {
      NextKeepsInv(s, actions[0]);
      StepWithoutErrors(s, actions[0]);
      hide Inv, Next;
      RunWithoutErrors(Next(s, actions[0]), actions[1..]);
    }
  }

  lemma StepWithoutErrors(s: State, a: Action)
    requires Inv(s) && NothingFailed(s)
    requires a.Send? ==> a.outcome == Acked
    ensures NothingFailed(Next(s, a))
  {
    hide LockedIds, Select, ClaimsCoverDeliveries, ClaimsDisjoint;
  }

  /** Another step of a run whose state so far is known. */
  lemma Then(actions: seq<Action>, s: State, a: Action, t: State)
    requires Inv(Start) && Exec(Start, actions) == s && Valid(s) && Next(s, a) == t
    ensures Exec(Start, actions + [a]) == t && Valid(t)
  {
    hide Inv, Next, Exec, Valid;
    ExecAppend(Start, actions, a);
    ExecKeepsInv(Start, actions + [a]);
    InvIsValid(t);
  }

  /** A one-row outbox. */
  function One(status: Status, claimedAt: Option<int>, workers: map<nat, Worker>, s: State): State {
    s.(rows := [Row(status, 0, claimedAt, None)], workers := workers)
  }

  /** Worker 0 claims the only row. */
  lemma ThenClaims(actions: seq<Action>, s: State)
    requires Inv(Start) && s == One(Pending, None, map[], s) && Exec(Start, actions) == s
    ensures var t := One(Claimed, Some(1), map[0 := Relaying([0])], s).(claims := s.claims + [0]);
            Exec(Start, actions + [SelectPending(0, 1)] + [CommitClaim(0, 1)]) == t && Valid(t)
  {
    hide Inv, Exec, Next;
    var t := One(Pending, None, map[0 := Selecting([0])], s);
    SelectsOnlyRow(s, t);
    Then(actions, s, SelectPending(0, 1), t);
    var u := One(Claimed, Some(1), map[0 := Relaying([0])], s).(claims := s.claims + [0]);
    ClaimsOnlyRow(t, u);
    Then(actions + [SelectPending(0, 1)], t, CommitClaim(0, 1), u);
  }

  lemma SelectsOnlyRow(s: State, t: State)
    requires s == One(Pending, None, map[], s) && t == One(Pending, None, map[0 := Selecting([0])], s)
    ensures Valid(s) && Next(s, SelectPending(0, 1)) == t
  {
    assert LockedIds(s) == {} && Eligible(s.rows, {}, 0);
    assert Select(s.rows, {}, 1) == [0] + Select(s.rows, {0}, 0) == [0];
    assert s.workers[0 := Selecting([0])] == t.workers;
  }

  lemma ClaimsOnlyRow(t: State, u: State)
    requires t == One(Pending, None, map[0 := Selecting([0])], t)
    requires u == One(Claimed, Some(1), map[0 := Relaying([0])], t).(claims := t.claims + [0])
    ensures Valid(t) && Next(t, CommitClaim(0, 1)) == u
  {
  }

  /** Its publish throws, and the row is FAILED for good, delivered or not. */
  lemma ThenFails(actions: seq<Action>, s: State, error: Publish)
    requires Inv(Start) && s == One(Claimed, Some(1), map[0 := Relaying([0])], s) && error != Acked
    requires Exec(Start, actions) == s && Valid(s)
    ensures Exec(Start, actions + [Send(0, error)] + [MarkFailed(0)]) ==
            One(Failed, None, map[0 := Relaying([])], s)
              .(delivered := if error == ErrorAfterDelivery then s.delivered + [0] else s.delivered)
  {
    var t := Next(s, Send(0, error));
    assert [0][1..] == [];
    assert t.workers == map[0 := Errored(0, [])];
    Then(actions, s, Send(0, error), t);
    var u := Next(t, MarkFailed(0));
    assert u.workers == map[0 := Relaying([])];
    Then(actions + [Send(0, error)], t, MarkFailed(0), u);
  }

  /** One row, enqueued and claimed. */
  lemma OneClaimed() returns (actions: seq<Action>, t: State)
    ensures Inv(Start) && (forall k :: 0 <= k < |actions| ==> !actions[k].Send?)
    ensures Exec(Start, actions) == t && Valid(t)
    ensures t == One(Claimed, Some(1), map[0 := Relaying([0])], Start).(claims := [0])
  {
    StartInv();
    ExecNothing(Start);
    hide Inv, Exec;
    var s := One(Pending, None, map[], Start);
    Then([], Start, Enqueue(0), s);
    ThenClaims([] + [Enqueue(0)], s);
    actions := [] + [Enqueue(0)] + [SelectPending(0, 1)] + [CommitClaim(0, 1)];
    t := One(Claimed, Some(1), map[0 := Relaying([0])], Start).(claims := [0]);
    assert [] + [0] == [0];
  }

  /** One row, one worker: enqueue, claim, a publish that throws, mark FAILED. */
  lemma FailingRun(error: Publish) returns (actions: seq<Action>)
    requires error != Acked
    ensures Inv(Start) && Uses(actions, {error})
    ensures var s := Exec(Start, actions);
            && s.rows == [Row(Failed, 0, None, None)]
            && s.delivered == if error == ErrorAfterDelivery then [0] else []
  {
    hide Inv, Exec, Next;
    var t;
    actions, t := OneClaimed();
    ThenFails(actions, t, error);
    actions := actions + [Send(0, error)] + [MarkFailed(0)];
  }

  /** The broker confirms, the worker dies, and the row is reclaimed. */
  lemma ThenLost(actions: seq<Action>, t: State) returns (w: State)
    requires Inv(Start) && t == One(Claimed, Some(1), map[0 := Relaying([0])], t) && t.delivered == []
    requires Exec(Start, actions) == t && Valid(t)
    ensures w == One(Pending, None, map[], w) && w.delivered == [0]
    ensures Exec(Start, actions + [Send(0, Acked)] + [Crash(0)] + [Reclaim(2)]) == w && Valid(w)
  {
    hide Inv, Exec;
    var u := Next(t, Send(0, Acked));
    Then(actions, t, Send(0, Acked), u);
    var v := u.(workers := map[]);
    assert Next(u, Crash(0)).workers == map[];
    Then(actions + [Send(0, Acked)], u, Crash(0), v);
    w := One(Pending, None, map[], v);
    assert ReclaimAll(v.rows, 2) == w.rows;
    Then(actions + [Send(0, Acked)] + [Crash(0)], v, Reclaim(2), w);
  }

  /** The first worker dies between confirm and mark; after the reclaim a publish fails outright. */
  lemma ConfirmedThenFailed() returns (actions: seq<Action>)
    ensures Inv(Start) && Uses(actions, {Acked, ErrorBeforeDelivery})
    ensures Exec(Start, actions).rows == [Row(Failed, 0, None, None)] && Exec(Start, actions).delivered == [0]
  {
    hide Inv, Exec, Next;
    var t;
    actions, t := OneClaimed();
    var w := ThenLost(actions, t);
    actions := actions + [Send(0, Acked)] + [Crash(0)] + [Reclaim(2)];
    ThenClaims(actions, w);
    actions := actions + [SelectPending(0, 1)] + [CommitClaim(0, 1)];
    ThenFails(actions, Exec(Start, actions), ErrorBeforeDelivery);
    actions := actions + [Send(0, ErrorBeforeDelivery)] + [MarkFailed(0)];
  }

  lemma OnlyThree(allowed: set<Publish>, kept: set<Publish>)
    requires Acked in allowed ==> Acked in kept
    requires ErrorAfterDelivery in allowed ==> ErrorAfterDelivery in kept
    requires ErrorBeforeDelivery in allowed ==> ErrorBeforeDelivery in kept
    ensures allowed <= kept
  {
    forall o | o in allowed
      ensures o in kept
    {
      match o {
        case Acked =>
        case ErrorAfterDelivery =>
        case ErrorBeforeDelivery =>
      }
    }
  }

  /** Every terminal row reached the queue, in every run, exactly when a publish that throws always
      did: an error before delivery makes a row FAILED for good and nobody ever receives it. */
  lemma AtLeastOnceExactly(allowed: set<Publish>)
    ensures AtLeastOnce(allowed) <==> ErrorBeforeDelivery !in allowed
  {
    StartInv();
    if ErrorBeforeDelivery in allowed {
      var actions := FailingRun(ErrorBeforeDelivery);
      assert Uses(actions, allowed);
      assert Terminal(Exec(Start, actions).rows[0]);
    } else {
      forall actions | Uses(actions, allowed)
        ensures AllTerminalDelivered(Exec(Start, actions))
      {
        OnlyThree(allowed, {Acked, ErrorAfterDelivery});
        RunDelivers(Start, actions);
      }
    }
  }

  /** FAILED means "not delivered" in every run exactly when no error follows a delivery and
      confirmed and failing publishes never mix. */
  lemma FailedMeansUndeliveredExactly(allowed: set<Publish>)
    ensures FailedMeansUndelivered(allowed) <==>
              ErrorAfterDelivery !in allowed && !(Acked in allowed && ErrorBeforeDelivery in allowed)
  {
    StartInv();
    if ErrorAfterDelivery in allowed {
      var actions := FailingRun(ErrorAfterDelivery);
      assert Uses(actions, allowed);
      assert Exec(Start, actions).rows[0].status == Failed;
    } else if Acked in allowed && ErrorBeforeDelivery in allowed {
      var actions := ConfirmedThenFailed();
      assert Uses(actions, allowed);
      assert Exec(Start, actions).rows[0].status == Failed;
    } else {
      forall actions | Uses(actions, allowed)
        ensures NoFailedDelivered(Exec(Start, actions))
      {
        if Acked in allowed {
          OnlyThree(allowed, {Acked});
          RunWithoutErrors(Start, actions);
        } else {
          OnlyThree(allowed, {ErrorBeforeDelivery});
          RunUndelivered(Start, actions);
        }
      }
    }
  }
}
