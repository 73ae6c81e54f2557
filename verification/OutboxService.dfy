/** The relay as it runs: guarded updates on the stored rows, and the loop of one worker over the
    rows it claimed, with its inner retry loop, as a run of the protocol beside any other workers. */
module OutboxService {
  import opened Basics
  import opened Outbox
  import opened OutboxLaws

  /** What one worker's pass makes of a row it has claimed. */
  function Relayed(row: Row, outcome: Publish, someUpdateCommits: bool, now: int): Row {
    if outcome != Acked then FailRow(row)
    else if someUpdateCommits then PublishRow(row, now)
    else row
  }

  predicate SomeCommits(update: (nat, nat) -> Update, id: nat, attempts: nat) {
    exists k :: 1 <= k <= attempts && update(id, k) != NotApplied
  }

  /** What a reclaim makes of the rows, written out: a claim made (or, without a claim time, a row created)
      before the cutoff goes back to PENDING, everything else stays. */
  ghost predicate Reclaimed(before: seq<Row>, rows: seq<Row>, cutoff: int) {
    && |rows| == |before|
    && forall i :: 0 <= i < |rows| ==>
         rows[i] == if before[i].status == Claimed && (match before[i].claimedAt case Some(t) => t case None => before[i].createdAt) < cutoff
                    then Row(Pending, before[i].createdAt, None, before[i].publishedAt) else before[i]
  }

  lemma ReclaimExactly(s: State, cutoff: int)
    requires Valid(s)
    ensures var t := Next(s, Reclaim(cutoff));
            && t == s.(rows := t.rows)
            && Reclaimed(s.rows, t.rows, cutoff)
            && (forall i :: 0 <= i < |s.rows| && s.rows[i].claimedAt.Some? && s.rows[i].claimedAt.value >= cutoff ==>
                  t.rows[i] == s.rows[i])
  {
  }

  /** A new row waits as PENDING with its own time of creation. */
  lemma EnqueueExactly(s: State, now: int)
    requires Valid(s)
    ensures Next(s, Enqueue(now)) == s.(rows := s.rows + [Row(Pending, now, None, None)])
  {
  }

  /** The rows that differ between two states of the table. */
  ghost function Changed(before: seq<Row>, rows: seq<Row>): set<nat> {
    set i | 0 <= i < |rows| && i < |before| && rows[i] != before[i]
  }

  class OutboxRepository {
    var rows: seq<Row>

    constructor ()
      ensures rows == []
    {
      rows := [];
    }

    method EnqueueInTransaction(now: int) returns (id: nat)
      modifies this
      ensures id == |old(rows)| && rows == old(rows) + [Row(Pending, now, None, None)]
    {
      id := |rows|;
      rows := rows + [Row(Pending, now, None, None)];
    }

    /** SELECT ... SKIP LOCKED, then the update of the selected rows, in one transaction. */
    method ClaimPendingBatchForRelay(limit: nat, skipped: set<nat>, now: int) returns (ids: seq<nat>)
      modifies this
      ensures ids == Select(old(rows), skipped, limit)
      ensures rows == ClaimAll(old(rows), ids, now)
      ensures IsQuery(old(rows), skipped, limit, ids)
      ensures |rows| == |old(rows)|
      ensures forall i :: 0 <= i < |rows| ==>
                rows[i] == if i in ids then Row(Claimed, old(rows)[i].createdAt, Some(now), old(rows)[i].publishedAt) else old(rows)[i]
    {
      SelectIsTheQuery(rows, skipped, limit);
      hide IsQuery;
      ids := Select(rows, skipped, limit);
      ghost var before := rows;
      for k := 0 to |ids|
        invariant |rows| == |before|
        invariant forall i :: 0 <= i < |rows| ==>
                    rows[i] == if i in ids[..k] then before[i].(status := Claimed, claimedAt := Some(now)) else before[i]
      {
        rows := rows[ids[k] := rows[ids[k]].(status := Claimed, claimedAt := Some(now))];
        assert ids[..k + 1] == ids[..k] + [ids[k]];
      }
      assert ids[..|ids|] == ids;
    }

    /** CLAIMED -> PUBLISHED; false stands for the thrown "expected affected=1". */
    method AssertMarkPublishedExactlyOne(id: nat, now: int) returns (one: bool)
      requires id < |rows|
      modifies this
      ensures rows == old(rows)[id := PublishRow(old(rows)[id], now)]
      ensures one <==> old(rows)[id].status == Claimed
      ensures rows == if one then old(rows)[id := Row(Published, old(rows)[id].createdAt, None, Some(now))] else old(rows)
    {
      one := rows[id].status == Claimed;
      if one {
        rows := rows[id := rows[id].(status := Published, publishedAt := Some(now), claimedAt := None)];
      }
    }

    method MarkFailed(id: nat) returns (updated: bool)
      requires id < |rows|
      modifies this
      ensures rows == old(rows)[id := FailRow(old(rows)[id])]
      ensures updated <==> old(rows)[id].status == Claimed
      ensures rows == if updated then old(rows)[id := Row(Failed, old(rows)[id].createdAt, None, old(rows)[id].publishedAt)] else old(rows)
    {
      updated := rows[id].status == Claimed;
      if updated {
        rows := rows[id := rows[id].(status := Failed, claimedAt := None)];
      }
    }

    /** Fresh claims are spared; the number returned is that of the rows changed. */
    method ReclaimStaleClaimed(maxAge: int, now: int) returns (n: nat)
      modifies this
      ensures rows == ReclaimAll(old(rows), now - maxAge)
      ensures Reclaimed(old(rows), rows, now - maxAge)
      ensures n == |Changed(old(rows), rows)|
    {
      ghost var before := rows;
      var cutoff := now - maxAge;
      n := 0;
      for i := 0 to |rows|
        invariant |rows| == |before|
        invariant forall k :: 0 <= k < |rows| ==> rows[k] == if k < i then ReclaimRow(before[k], cutoff) else before[k]
        invariant n == |Changed(before, rows)|
      {
        if Stale(rows[i], cutoff) {
          ghost var changed := Changed(before, rows);
          rows := rows[i := rows[i].(status := Pending, claimedAt := None)];
          n := n + 1;
          assert Changed(before, rows) == changed + {i};
        }
      }
    }
  }

  // ---------- runs of the protocol ----------

  ghost predicate Reached(start: State, trace: seq<Action>, s: State) {
    Inv(start) && Exec(start, trace) == s && Inv(s)
  }

  lemma Advance(start: State, trace: seq<Action>, s: State, a: Action)
    requires Reached(start, trace, s)
    ensures Valid(s) && Reached(start, trace + [a], Next(s, a))
  {
    hide Inv, Next;
    InvIsValid(s);
    ExecAppend(start, trace, a);
    ExecKeepsInv(start, trace + [a]);
  }

  class OutboxProcessor {
    const outbox: OutboxRepository
    /** The broker: message ids in queue order, and those it confirmed. */
    var delivered: seq<nat>
    var confirmed: set<nat>
    ghost var claims: seq<nat>

    ghost function Contents(workers: map<nat, Worker>): State
      reads this, outbox
    {
      State(outbox.rows, workers, delivered, confirmed, claims)
    }

    constructor (repository: OutboxRepository)
      ensures outbox == repository && Contents(map[]) == Start.(rows := repository.rows)
    {
      outbox, delivered, confirmed, claims := repository, [], {}, [];
    }

    method PublishEnvelopeConfirmed(id: nat, outcome: Publish) returns (threw: bool)
      modifies this
      ensures threw <==> outcome != Acked
      ensures delivered == old(delivered) + if outcome == ErrorBeforeDelivery then [] else [id]
      ensures confirmed == old(confirmed) + if outcome == Acked then {id} else {}
      ensures claims == old(claims)
    {
      if outcome != ErrorBeforeDelivery {
        delivered := delivered + [id];
      }
      if outcome == Acked {
        confirmed := confirmed + {id};
      }
      threw := outcome != Acked;
    }

    /** The retry loop after a confirm: until an update affects exactly one row, or attempts run out. */
    method MarkWithRetries(id: nat, attempts: nat, update: (nat, nat) -> Update, now: int,
                           w: nat, ghost others: map<nat, Worker>, ghost todo: seq<nat>, ghost start: State, ghost trace: seq<Action>)
      returns (ghost longer: seq<Action>)
      requires id < |outbox.rows| && outbox.rows[id].status == Claimed
      requires Reached(start, trace, Contents(others[w := Confirmed(id, todo)]))
      modifies outbox
      ensures Reached(start, longer, Contents(others[w := Relaying(todo)]))
      ensures outbox.rows == old(outbox.rows)[id := Relayed(old(outbox.rows)[id], Acked, SomeCommits(update, id, attempts), now)]
    {
      hide Reached, Inv;
      longer := trace;
      ghost var before := outbox.rows;
      for attempt := 1 to attempts + 1
        invariant Reached(start, longer, Contents(others[w := Confirmed(id, todo)]))
        invariant outbox.rows == before[id := Relayed(before[id], Acked, SomeCommits(update, id, attempt - 1), now)]
      {
        ghost var s := Contents(others[w := Confirmed(id, todo)]);
        var result := update(id, attempt);
        Advance(start, longer, s, MarkPublished(w, now, result));
        longer := longer + [MarkPublished(w, now, result)];
        var one := false;
        if result != NotApplied {
          one := outbox.AssertMarkPublishedExactlyOne(id, now);
        }
        if result == Applied && one {
          ThenMarked(s, w, id, todo, now, result, Contents(others[w := Relaying(todo)]));
          return;
        }
        ThenMarked(s, w, id, todo, now, result, Contents(others[w := Confirmed(id, todo)]));
      }
      ghost var s := Contents(others[w := Confirmed(id, todo)]);
      Advance(start, longer, s, GiveUp(w));
      longer := longer + [GiveUp(w)];
      ThenGivesUp(s, w, id, todo, Contents(others[w := Relaying(todo)]));
    }

    /** One row of the pass: publish, then mark it FAILED or try to mark it PUBLISHED. */
    method RelayRow(id: nat, attempts: nat, outcome: Publish, update: (nat, nat) -> Update, now: int,
                    w: nat, ghost others: map<nat, Worker>, ghost todo: seq<nat>, ghost start: State, ghost trace: seq<Action>)
      returns (ghost longer: seq<Action>)
      requires id < |outbox.rows| && outbox.rows[id].status == Claimed && todo != [] && todo[0] == id
      requires Reached(start, trace, Contents(others[w := Relaying(todo)]))
      modifies this, outbox
      ensures Reached(start, longer, Contents(others[w := Relaying(todo[1..])]))
      ensures outbox.rows == old(outbox.rows)[id := Relayed(old(outbox.rows)[id], outcome, SomeCommits(update, id, attempts), now)]
    {
      hide Reached, Inv;
      ghost var s := Contents(others[w := Relaying(todo)]);
      Advance(start, trace, s, Send(w, outcome));
      longer := trace + [Send(w, outcome)];
      var threw := PublishEnvelopeConfirmed(id, outcome);
      if threw {
        ghost var t := Contents(others[w := Errored(id, todo[1..])]);
        ThenSent(s, w, todo, outcome, t);
        Advance(start, longer, t, Action.MarkFailed(w));
        longer := longer + [Action.MarkFailed(w)];
        var _ := outbox.MarkFailed(id);
        ThenFailed(t, w, id, todo[1..], Contents(others[w := Relaying(todo[1..])]));
        return;
      }
      ThenSent(s, w, todo, outcome, Contents(others[w := Confirmed(id, todo[1..])]));
      longer := MarkWithRetries(id, attempts, update, now, w, others, todo[1..], start, longer);
    }

    /** Reclaim stale rows, then claim: the two statements before the loop. */
    method ReclaimAndClaim(w: nat, limit: nat, ttl: int, now: int, skipped: set<nat>, ghost others: map<nat, Worker>)
      returns (ids: seq<nat>, ghost trace: seq<Action>)
      requires w !in others && Inv(Contents(others)) && skipped == LockedIds(Contents(others))
      modifies this`claims, outbox
      ensures ids == Select(ReclaimAll(old(outbox.rows), now - ttl), skipped, limit)
      ensures outbox.rows == ClaimAll(ReclaimAll(old(outbox.rows), now - ttl), ids, now)
      ensures Reached(old(Contents(others)), trace, Contents(others[w := Relaying(ids)]))
    {
      hide Reached, Inv, Select, LockedIds;
      ghost var start := Contents(others);
      NoSteps(start);
      Advance(start, [], start, Reclaim(now - ttl));
      var _ := outbox.ReclaimStaleClaimed(ttl, now);
      trace := [] + [Reclaim(now - ttl)];
      ghost var s := Contents(others);
      assert Next(start, Reclaim(now - ttl)) == s;
      SameLocks(start, s);
      ids := outbox.ClaimPendingBatchForRelay(limit, skipped, now);
      claims := claims + ids;
      ThenClaimed(start, trace, s, w, limit, skipped, now, Contents(others[w := Relaying(ids)]));
      trace := trace + [SelectPending(w, limit)] + [CommitClaim(w, now)];
    }

    method RelayAll(ids: seq<nat>, attempts: nat, now: int, publish: nat -> Publish, update: (nat, nat) -> Update,
                    w: nat, ghost others: map<nat, Worker>, ghost start: State, ghost trace: seq<Action>)
      returns (ghost longer: seq<Action>)
      requires Reached(start, trace, Contents(others[w := Relaying(ids)]))
      requires Distinct(ids) && Below(ids, |outbox.rows|) && forall k :: 0 <= k < |ids| ==> outbox.rows[ids[k]].status == Claimed
      modifies this, outbox
      ensures Reached(start, longer, Contents(others[w := Relaying([])]))
      ensures AllRelayed(old(outbox.rows), outbox.rows, ids, attempts, now, publish, update)
    {
      hide Reached, Relayed, SomeCommits;
      longer := trace;
      ghost var claimed := outbox.rows;
      assert ids[0..] == ids;
      for k := 0 to |ids|
        invariant Reached(start, longer, Contents(others[w := Relaying(ids[k..])]))
        invariant AllRelayed(claimed, outbox.rows, ids[..k], attempts, now, publish, update)
      {
        assert ids[k..][1..] == ids[k + 1..] && ids[k] !in ids[..k] && ids[..k + 1] == ids[..k] + [ids[k]];
        longer := RelayRow(ids[k], attempts, publish(ids[k]), update, now, w, others, ids[k..], start, longer);
      }
      assert ids[..|ids|] == ids && ids[|ids|..] == [];
    }

    /** One pass of worker `w`: reclaim, claim, then every claimed row. Each row it claimed ends
        PUBLISHED, FAILED or (confirmed, but no mark went through) CLAIMED; no other row changes. */
    method RelayPendingBatch(w: nat, limit: nat, ttl: int, attempts: nat, now: int, skipped: set<nat>,
                             publish: nat -> Publish, update: (nat, nat) -> Update, ghost others: map<nat, Worker>)
      returns (ids: seq<nat>, ghost trace: seq<Action>)
      requires w !in others && Inv(Contents(others)) && skipped == LockedIds(Contents(others))
      modifies this, outbox
      ensures ids == Select(ReclaimAll(old(outbox.rows), now - ttl), skipped, limit)
      ensures Reached(old(Contents(others)), trace, Contents(others))
      ensures AllRelayed(ClaimAll(ReclaimAll(old(outbox.rows), now - ttl), ids, now), outbox.rows, ids, attempts, now, publish, update)
      ensures PassEnds(ReclaimAll(old(outbox.rows), now - ttl), outbox.rows, ids, attempts, now, publish, update)
      ensures Reclaimed(old(outbox.rows), ReclaimAll(old(outbox.rows), now - ttl), now - ttl)
    {
      hide Reached, Inv, Select, LockedIds, AllRelayed, PassEnds;
      ReclaimedAll(outbox.rows, now - ttl);
      ghost var reclaimed := ReclaimAll(outbox.rows, now - ttl);
      ghost var start := Contents(others);
      SelectIsTheQuery(ReclaimAll(outbox.rows, now - ttl), skipped, limit);
      ids, trace := ReclaimAndClaim(w, limit, ttl, now, skipped, others);
      trace := RelayAll(ids, attempts, now, publish, update, w, others, start, trace);
      PassWritten(reclaimed, outbox.rows, ids, attempts, now, publish, update);
      ghost var s := Contents(others[w := Relaying([])]);
      Advance(start, trace, s, Finish(w));
      trace := trace + [Finish(w)];
      assert s.workers - {w} == others;
    }
  }

  /** Every listed row went from claimed to its relayed form, and no other row changed. */
  ghost predicate AllRelayed(claimed: seq<Row>, rows: seq<Row>, ids: seq<nat>, attempts: nat, now: int,
                             publish: nat -> Publish, update: (nat, nat) -> Update) {
    && |rows| == |claimed|
    && forall i :: 0 <= i < |claimed| ==>
         rows[i] == if i in ids then Relayed(claimed[i], publish(i), SomeCommits(update, i, attempts), now) else claimed[i]
  }

  /** The same, written out: a claimed row ends FAILED when its publish threw, PUBLISHED when the broker
      confirmed and one of the attempts to mark it committed, and else stays CLAIMED. */
  ghost predicate PassEnds(before: seq<Row>, rows: seq<Row>, ids: seq<nat>, attempts: nat, now: int,
                           publish: nat -> Publish, update: (nat, nat) -> Update) {
    && |rows| == |before|
    && forall i :: 0 <= i < |before| ==>
         var (created, published) := (before[i].createdAt, before[i].publishedAt);
         rows[i] == if i !in ids then before[i]
                    else if publish(i) != Acked then Row(Failed, created, None, published)
                    else if exists k :: 1 <= k <= attempts && update(i, k) != NotApplied then Row(Published, created, None, Some(now))
                    else Row(Claimed, created, Some(now), published)
  }

  lemma PassWritten(before: seq<Row>, rows: seq<Row>, ids: seq<nat>, attempts: nat, now: int,
                    publish: nat -> Publish, update: (nat, nat) -> Update)
    requires AllRelayed(ClaimAll(before, ids, now), rows, ids, attempts, now, publish, update)
    ensures PassEnds(before, rows, ids, attempts, now, publish, update)
  {
  }

  lemma ReclaimedAll(rows: seq<Row>, cutoff: int)
    ensures Reclaimed(rows, ReclaimAll(rows, cutoff), cutoff)
  {
  }

  lemma NoSteps(start: State)
    requires Inv(start)
    ensures Reached(start, [], start)
  {
  }

  lemma SameLocks(s: State, t: State)
    requires s.workers == t.workers && |s.rows| == |t.rows|
    ensures LockedIds(s) == LockedIds(t)
  {
  }

  lemma ThenClaimed(start: State, trace: seq<Action>, s: State, w: nat, limit: nat, skipped: set<nat>, now: int, t: State)
    requires Reached(start, trace, s) && w !in s.workers
    requires skipped == LockedIds(s)
    requires var ids := Select(s.rows, skipped, limit);
             t == With(s, w, Relaying(ids)).(rows := ClaimAll(s.rows, ids, now), claims := s.claims + ids)
    ensures Reached(start, trace + [SelectPending(w, limit)] + [CommitClaim(w, now)], t)
  {
    hide Inv, Select, Locked;
    Advance(start, trace, s, SelectPending(w, limit));
    var u := Next(s, SelectPending(w, limit));
    Advance(start, trace + [SelectPending(w, limit)], u, CommitClaim(w, now));
    hide LockedIds, Valid;
    assert Next(u, CommitClaim(w, now)).workers == t.workers;
  }

  lemma ThenSent(s: State, w: nat, todo: seq<nat>, outcome: Publish, t: State)
    requires Valid(s) && w in s.workers && s.workers[w] == Relaying(todo) && todo != []
    requires t.rows == s.rows && t.claims == s.claims
    requires t.workers == s.workers[w := if outcome == Acked then Confirmed(todo[0], todo[1..]) else Errored(todo[0], todo[1..])]
    requires t.delivered == s.delivered + if outcome == ErrorBeforeDelivery then [] else [todo[0]]
    requires t.confirmed == s.confirmed + if outcome == Acked then {todo[0]} else {}
    ensures Next(s, Send(w, outcome)) == t
  {
  }

  lemma ThenFailed(s: State, w: nat, id: nat, todo: seq<nat>, t: State)
    requires Valid(s) && w in s.workers && s.workers[w] == Errored(id, todo) && id < |s.rows|
    requires t == s.(rows := s.rows[id := FailRow(s.rows[id])], workers := s.workers[w := Relaying(todo)])
    ensures Next(s, Action.MarkFailed(w)) == t
  {
  }

  lemma ThenGivesUp(s: State, w: nat, id: nat, todo: seq<nat>, t: State)
    requires Valid(s) && w in s.workers && s.workers[w] == Confirmed(id, todo)
    requires t == s.(workers := s.workers[w := Relaying(todo)])
    ensures Next(s, GiveUp(w)) == t
  {
  }

  lemma ThenMarked(s: State, w: nat, id: nat, todo: seq<nat>, now: int, update: Update, t: State)
    requires Valid(s) && w in s.workers && s.workers[w] == Confirmed(id, todo) && id < |s.rows|
    requires var marked := s.(rows := s.rows[id := PublishRow(s.rows[id], now)]);
             t == if update == NotApplied then s
                  else if update == Applied && s.rows[id].status == Claimed then With(marked, w, Relaying(todo))
                  else marked
    ensures Next(s, MarkPublished(w, now, update)) == t
  {
  }
}
