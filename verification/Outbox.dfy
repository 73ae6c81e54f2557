/**
 * The outbox relay: rows written with business commits, any number of workers that claim, publish
 * and mark them, crashes, stale reclaims, and a broker whose answer can be wrong.
 */
module Outbox {
  import opened Basics

  datatype Status = Pending | Claimed | Published | Failed
  datatype Row = Row(status: Status, createdAt: int, claimedAt: Option<int>, publishedAt: Option<int>)

  /** What a worker holds between two database or broker calls. */
  datatype Worker =
    | Selecting(ids: seq<nat>)            // inside the claim transaction, holding the row locks
    | Relaying(todo: seq<nat>)            // claimed rows still to publish
    | Confirmed(id: nat, todo: seq<nat>)  // broker confirmed, not yet marked
    | Errored(id: nat, todo: seq<nat>)    // publishEnvelopeConfirmed threw

  /** A publish that throws may still have reached the queue (a lost confirm). */
  datatype Publish = Acked | ErrorAfterDelivery | ErrorBeforeDelivery

  /** An UPDATE can commit and be acknowledged, fail, or commit while its caller sees an error. */
  datatype Update = Applied | NotApplied | AckLost

  /** `delivered` is the broker's queue by message id, `claimed` the history of claims by row. */
  datatype State = State(rows: seq<Row>, workers: map<nat, Worker>, delivered: seq<nat>, confirmed: set<nat>, claims: seq<nat>)

  datatype Action =
    | Enqueue(now: int)
    | SelectPending(w: nat, limit: nat)
    | CommitClaim(w: nat, now: int)
    | Send(w: nat, outcome: Publish)
    | MarkPublished(w: nat, now: int, update: Update)
    | GiveUp(w: nat)
    | MarkFailed(w: nat)
    | Finish(w: nat)
    | Crash(w: nat)
    | Reclaim(cutoff: int)

  // ---------- single statements ----------

  predicate Selects(s: State, w: nat, i: nat) {
    w in s.workers && s.workers[w].Selecting? && i in s.workers[w].ids
  }

  predicate Locked(s: State, i: nat) {
    exists w :: w in s.workers && Selects(s, w, i)
  }

  predicate Eligible(rows: seq<Row>, skipped: set<nat>, i: nat) {
    i < |rows| && rows[i].status == Pending && i !in skipped
  }

  /** The oldest eligible row below `n`; of equally old rows the first. */
  function Oldest(rows: seq<Row>, skipped: set<nat>, n: nat): (r: Option<nat>)
    requires n <= |rows|
    ensures r.Some? ==> r.value < n && Eligible(rows, skipped, r.value)
    ensures r.Some? ==> forall i :: 0 <= i < n && Eligible(rows, skipped, i) ==> rows[r.value].createdAt <= rows[i].createdAt
    ensures r.None? ==> forall i :: 0 <= i < n ==> !Eligible(rows, skipped, i)
  {
    if n == 0 then None
    else
      var best := Oldest(rows, skipped, n - 1);
      if !Eligible(rows, skipped, n - 1) then best
      else if best.None? || rows[n - 1].createdAt < rows[best.value].createdAt then Some(n - 1)
      else best
  }

  /** `WHERE status = PENDING ORDER BY created_at LIMIT n FOR UPDATE SKIP LOCKED` */
  function Select(rows: seq<Row>, skipped: set<nat>, limit: nat): (ids: seq<nat>)
    ensures Below(ids, |rows|)
    decreases limit
  {
    if limit == 0 then []
    else
      var first := Oldest(rows, skipped, |rows|);
      if first.None? then [] else [first.value] + Select(rows, skipped + {first.value}, limit - 1)
  }

  predicate Distinct(ids: seq<nat>) {
    forall i, j :: 0 <= i < j < |ids| ==> ids[i] != ids[j]
  }

  /** The query returns distinct eligible rows, oldest first, and leaves eligible rows only when the
      limit is reached, and then no older ones. */
  lemma {:induction false} SelectIsTheQuery(rows: seq<Row>, skipped: set<nat>, limit: nat)
    ensures IsQuery(rows, skipped, limit, Select(rows, skipped, limit))
    decreases limit
  {
    hide Oldest, IsQuery;
    if limit > 0 {
      var first := Oldest(rows, skipped, |rows|);
      if first.Some? {
        SelectIsTheQuery(rows, skipped + {first.value}, limit - 1);
        QueryCons(rows, skipped, limit, first.value, Select(rows, skipped + {first.value}, limit - 1));
      } else {
        QueryNone(rows, skipped, limit);
      }
    } else {
      QueryNone(rows, skipped, limit);
    }
  }

  ghost predicate IsQuery(rows: seq<Row>, skipped: set<nat>, limit: nat, ids: seq<nat>) {
    && |ids| <= limit && Distinct(ids) && Below(ids, |rows|)
    && (forall k :: 0 <= k < |ids| ==> Eligible(rows, skipped, ids[k]))
    && (forall j, k :: 0 <= j < k < |ids| ==> rows[ids[j]].createdAt <= rows[ids[k]].createdAt)
    && (forall i: nat, k :: 0 <= k < |ids| && Eligible(rows, skipped, i) && i !in ids ==>
          rows[ids[k]].createdAt <= rows[i].createdAt)
    && (|ids| < limit ==> forall i: nat :: Eligible(rows, skipped, i) ==> i in ids)
  }

  lemma QueryNone(rows: seq<Row>, skipped: set<nat>, limit: nat)
    requires limit == 0 || forall i :: 0 <= i < |rows| ==> !Eligible(rows, skipped, i)
    ensures IsQuery(rows, skipped, limit, [])
  {
  }

  lemma QueryCons(rows: seq<Row>, skipped: set<nat>, limit: nat, first: nat, rest: seq<nat>)
    requires limit > 0 && Eligible(rows, skipped, first) && IsQuery(rows, skipped + {first}, limit - 1, rest)
    requires forall i :: 0 <= i < |rows| && Eligible(rows, skipped, i) ==> rows[first].createdAt <= rows[i].createdAt
    ensures IsQuery(rows, skipped, limit, [first] + rest)
  {
    var ids := [first] + rest;
    assert forall i: nat :: Eligible(rows, skipped, i) && i != first ==> Eligible(rows, skipped + {first}, i);
    assert forall k :: 0 < k < |ids| ==> ids[k] == rest[k - 1];
    assert forall i: nat :: i in ids <==> i == first || i in rest;
  }

  function ClaimAll(rows: seq<Row>, ids: seq<nat>, now: int): (r: seq<Row>)
    ensures |r| == |rows|
  {
    seq(|rows|, i requires 0 <= i < |rows| =>
      if i in ids then rows[i].(status := Claimed, claimedAt := Some(now)) else rows[i])
  }

  function PublishRow(row: Row, now: int): Row {
    if row.status != Claimed then row else row.(status := Published, publishedAt := Some(now), claimedAt := None)
  }

  function FailRow(row: Row): Row {
    if row.status != Claimed then row else row.(status := Failed, claimedAt := None)
  }

  predicate Stale(row: Row, cutoff: int) {
    row.status == Claimed && if row.claimedAt.Some? then row.claimedAt.value < cutoff else row.createdAt < cutoff
  }

  function ReclaimRow(row: Row, cutoff: int): Row {
    if Stale(row, cutoff) then row.(status := Pending, claimedAt := None) else row
  }

  function ReclaimAll(rows: seq<Row>, cutoff: int): (r: seq<Row>)
    ensures |r| == |rows|
  {
    seq(|rows|, i requires 0 <= i < |rows| => ReclaimRow(rows[i], cutoff))
  }

  function LockedIds(s: State): set<nat> {
    set i | 0 <= i < |s.rows| && Locked(s, i)
  }

  // ---------- the protocol ----------

  function With(s: State, w: nat, x: Worker): State {
    s.(workers := s.workers[w := x])
  }

  predicate Valid(s: State) {
    forall w :: w in s.workers ==> Holds(s.rows, s.workers[w])
  }

  predicate Below(ids: seq<nat>, n: nat) {
    forall k :: 0 <= k < |ids| ==> ids[k] < n
  }

  predicate Holds(rows: seq<Row>, x: Worker) {
    match x
    case Selecting(ids) => Below(ids, |rows|)
    case Relaying(todo) => Below(todo, |rows|)
    case Confirmed(id, todo) => id < |rows| && Below(todo, |rows|)
    case Errored(id, todo) => id < |rows| && Below(todo, |rows|)
  }

  /** Actions that do not fit the worker's position do nothing. */
  function Next(s: State, a: Action): State
    requires Valid(s)
  {
    match a
    case Enqueue(now) => s.(rows := s.rows + [Row(Pending, now, None, None)])
    case Reclaim(cutoff) => s.(rows := ReclaimAll(s.rows, cutoff))
    case SelectPending(w, limit) =>
      if w in s.workers then s else With(s, w, Selecting(Select(s.rows, LockedIds(s), limit)))
    case _ => if a.w !in s.workers then s else Step(s, a, s.workers[a.w])
  }

  function Step(s: State, a: Action, x: Worker): State
    requires Valid(s) && !a.Enqueue? && !a.Reclaim? && !a.SelectPending? && a.w in s.workers && s.workers[a.w] == x
  {
    match (a, x)
    case (Crash(w), _) => s.(workers := s.workers - {w})
    case (CommitClaim(w, now), Selecting(ids)) =>
      With(s, w, Relaying(ids)).(rows := ClaimAll(s.rows, ids, now), claims := s.claims + ids)
    case (Send(w, outcome), Relaying(todo)) =>
      if todo == [] then s
      else
        var id, rest := todo[0], todo[1..];
        With(s, w, if outcome == Acked then Confirmed(id, rest) else Errored(id, rest))
          .(delivered := if outcome == ErrorBeforeDelivery then s.delivered else s.delivered + [id],
            confirmed := if outcome == Acked then s.confirmed + {id} else s.confirmed)
    case (MarkPublished(w, now, update), Confirmed(id, todo)) =>
      var t := s.(rows := s.rows[id := PublishRow(s.rows[id], now)]);
      if update == NotApplied then s
      else if update == Applied && s.rows[id].status == Claimed then With(t, w, Relaying(todo))
      else t
    case (GiveUp(w), Confirmed(_, todo)) => With(s, w, Relaying(todo))
    case (MarkFailed(w), Errored(id, todo)) => With(s.(rows := s.rows[id := FailRow(s.rows[id])]), w, Relaying(todo))
    case (Finish(w), Relaying(todo)) => if todo == [] then s.(workers := s.workers - {w}) else s
    case _ => s
  }

  const Start := State([], map[], [], {}, [])

  // ---------- the invariant ----------

  ghost predicate RowFits(row: Row) {
    && (row.status == Claimed <==> row.claimedAt.Some?)
    && (row.status == Published <==> row.publishedAt.Some?)
  }

  function Todo(x: Worker): seq<nat> {
    if x.Selecting? then [] else x.todo
  }

  ghost function Owns(workers: map<nat, Worker>, i: nat): map<nat, int> {
    map w | w in workers :: multiset(Todo(workers[w]))[i]
  }

  ghost function Deliveries(s: State, i: nat): nat {
    multiset(s.delivered)[i]
  }

  ghost function Claims(s: State, i: nat): nat {
    multiset(s.claims)[i]
  }

  /** A row locked by an open claim is PENDING, and no two open claims hold the same row. */
  ghost predicate ClaimsDisjoint(s: State) {
    && (forall w: nat, i: nat :: Selects(s, w, i) ==> i < |s.rows| && s.rows[i].status == Pending)
    && (forall w: nat, v: nat, i: nat :: Selects(s, w, i) && Selects(s, v, i) ==> w == v)
    && (forall w :: w in s.workers && s.workers[w].Selecting? ==> Distinct(s.workers[w].ids))
  }

  ghost predicate ClaimsCoverDeliveries(s: State) {
    forall i: nat :: Deliveries(s, i) + MapSum(Owns(s.workers, i)) <= Claims(s, i)
  }

  ghost predicate Inv(s: State) {
    && Valid(s)
    && (forall i :: 0 <= i < |s.rows| ==> RowFits(s.rows[i]))
    && (forall i :: 0 <= i < |s.rows| && s.rows[i].status == Published ==> i in s.confirmed)
    && (forall i :: i in s.confirmed ==> i in s.delivered)
    && Below(s.delivered, |s.rows|)
    && (forall w :: w in s.workers && s.workers[w].Confirmed? ==> s.workers[w].id in s.confirmed)
    && ClaimsDisjoint(s)
    && ClaimsCoverDeliveries(s)
  }
}
