/** The fraud engine's sliding windows: a Redis sorted set that is pruned, overwritten and expired
    as it goes gives the same answers as the complete attempt log. */
module Windows {
  import opened Basics
  import Fraud

  const VELOCITY_WINDOW_MS: nat := 60_000
  const VELOCITY_THRESHOLD: nat := 5
  const RECIPIENT_WINDOW_MS: nat := 3_600_000
  const RECIPIENT_KEY_TTL_MS: nat := 7_200_000
  const RECIPIENT_DISTINCT_SENDER_THRESHOLD: nat := 20

  datatype Attempt = Attempt(time: nat, member: string)

  /** Member -> score, and when the whole key expires. */
  datatype Index = Index(scores: map<string, nat>, expiresAt: Option<nat>)

  // ---------- the index operations ----------

  function Expired(x: Index, now: nat): Index {
    if x.expiresAt.Some? && now >= x.expiresAt.value then Index(map[], None) else x
  }

  /** ZREMRANGEBYSCORE 0 .. minScore - 1 */
  function Pruned(x: Index, minScore: int): Index {
    x.(scores := map m | m in x.scores && !(0 <= x.scores[m] <= minScore - 1) :: x.scores[m])
  }

  /** ZRANGEBYSCORE minScore .. now */
  function InRange(x: Index, minScore: int, now: nat): set<string> {
    set m | m in x.scores && minScore <= x.scores[m] <= now
  }

  function Added(x: Index, now: nat, member: string, ttl: Option<nat>): Index {
    Index(x.scores[member := now], if ttl.Some? then Some(now + ttl.value) else x.expiresAt)
  }

  /** One rule evaluation at `now`: expire, prune, read the window, then record the attempt.
      An evaluation superseded after pruning records nothing. */
  function Evaluate(x: Index, now: nat, member: string, window: nat, ttl: Option<nat>, superseded: bool): (Index, set<string>) {
    var pruned := Pruned(Expired(x, now), now - window);
    (if superseded then pruned else Added(pruned, now, member, ttl), InRange(pruned, now - window, now))
  }

  /** What an evaluation reads and leaves behind, written out: an expired key counts as empty, the answer is
      what lies in the window, older members are gone, and a recorded attempt has the present time and, with
      a lifetime, renews it. */
  lemma EvaluationExactly(x: Index, now: nat, member: string, window: nat, ttl: Option<nat>, superseded: bool)
    ensures var (y, seen) := Evaluate(x, now, member, window, ttl, superseded);
            var dead := x.expiresAt.Some? && x.expiresAt.value <= now;
            && (forall m :: m in seen <==> !dead && m in x.scores && now - window <= x.scores[m] <= now)
            && (forall m :: m in y.scores <==> (!dead && m in x.scores && x.scores[m] >= now - window) || (m == member && !superseded))
            && (forall m :: m in y.scores ==> y.scores[m] == if m == member && !superseded then now else x.scores[m])
            && y.expiresAt == if !superseded && ttl.Some? then Some(now + ttl.value) else if dead then None else x.expiresAt
  {
  }

  // ---------- the reference: the whole log ----------

  ghost function SeenInWindow(log: seq<Attempt>, lo: int, hi: nat): set<string> {
    set i | 0 <= i < |log| && lo <= log[i].time <= hi :: log[i].member
  }

  ghost predicate Chronological(log: seq<Attempt>, now: nat) {
    forall i :: 0 <= i < |log| ==> log[i].time <= now
  }

  /** Every score comes from the log, and every attempt since `cutoff` is represented. */
  ghost predicate Represents(x: Index, log: seq<Attempt>, cutoff: int) {
    && (forall m :: m in x.scores ==> exists i :: 0 <= i < |log| && log[i] == Attempt(x.scores[m], m))
    && (forall i :: 0 <= i < |log| && log[i].time >= cutoff ==>
          log[i].member in x.scores && x.scores[log[i].member] >= log[i].time)
  }

  /** The key's lifetime outlasts the window, counted from the last recorded attempt. */
  ghost predicate Outlives(x: Index, log: seq<Attempt>, window: nat) {
    x.expiresAt.Some? ==> forall i :: 0 <= i < |log| ==> log[i].time + window < x.expiresAt.value
  }

  lemma ExpiryKeepsWindow(x: Index, log: seq<Attempt>, cutoff: int, now: nat, window: nat)
    requires Represents(x, log, cutoff) && Outlives(x, log, window) && cutoff <= now - window
    ensures Represents(Expired(x, now), log, now - window)
  {
  }

  lemma PruningKeepsWindow(x: Index, log: seq<Attempt>, minScore: int)
    requires Represents(x, log, minScore)
    ensures Represents(Pruned(x, minScore), log, minScore)
  {
  }

  lemma RangeIsWindow(x: Index, log: seq<Attempt>, minScore: int, now: nat)
    requires Represents(x, log, minScore) && Chronological(log, now)
    ensures InRange(x, minScore, now) == SeenInWindow(log, minScore, now)
  {
  }

  lemma AddingRecords(x: Index, log: seq<Attempt>, cutoff: int, now: nat, member: string, ttl: Option<nat>)
    requires Represents(x, log, cutoff) && Chronological(log, now)
    ensures Represents(Added(x, now, member, ttl), log + [Attempt(now, member)], cutoff)
  {
    var log' := log + [Attempt(now, member)];
    var y := Added(x, now, member, ttl);
    forall m | m in y.scores
      ensures exists i :: 0 <= i < |log'| && log'[i] == Attempt(y.scores[m], m)
    {
      if m == member {
        assert log'[|log|] == Attempt(y.scores[m], m);
      } else {
        var i :| 0 <= i < |log| && log[i] == Attempt(x.scores[m], m);
        assert log'[i] == Attempt(y.scores[m], m);
      }
    }
    forall i | 0 <= i < |log'| && log'[i].time >= cutoff
      ensures log'[i].member in y.scores && y.scores[log'[i].member] >= log'[i].time
    {
      if i < |log| {
        assert log[i].time >= cutoff && log[i].time <= now;
      }
    }
  }

  ghost function Recorded(log: seq<Attempt>, now: nat, member: string, superseded: bool): seq<Attempt> {
    if superseded then log else log + [Attempt(now, member)]
  }

  /** One evaluation answers from the index what the whole log would answer, and keeps it so. */
  lemma EvaluateAgrees(x: Index, log: seq<Attempt>, cutoff: int, now: nat, member: string,
                       window: nat, ttl: Option<nat>, superseded: bool)
    requires Represents(x, log, cutoff) && Outlives(x, log, window) && Chronological(log, now)
    requires cutoff <= now - window
    requires ttl.Some? ==> ttl.value > window
    ensures var (y, seen) := Evaluate(x, now, member, window, ttl, superseded);
            var log' := Recorded(log, now, member, superseded);
            && seen == SeenInWindow(log, now - window, now)
            && Represents(y, log', now - window)
            && (ttl.Some? || x.expiresAt.None? ==> Outlives(y, log', window))
            && Chronological(log', now)
            && (x.expiresAt.None? && ttl.None? ==> y.expiresAt.None?)
  {
    hide Represents, SeenInWindow, InRange;
    var e := Expired(x, now);
    ExpiryKeepsWindow(x, log, cutoff, now, window);
    PruningKeepsWindow(e, log, now - window);
    var p := Pruned(e, now - window);
    RangeIsWindow(p, log, now - window, now);
    if !superseded {
      AddingRecords(p, log, now - window, now, member, ttl);
    }
  }

  // ---------- whole runs ----------

  datatype Call = Call(now: nat, member: string, superseded: bool)

  ghost predicate ClockNeverGoesBack(calls: seq<Call>) {
    forall i, j :: 0 <= i < j < |calls| ==> calls[i].now <= calls[j].now
  }

  function IndexAfter(calls: seq<Call>, window: nat, ttl: Option<nat>): Index {
    if calls == [] then Index(map[], None)
    else
      var n := |calls| - 1;
      Evaluate(IndexAfter(calls[..n], window, ttl), calls[n].now, calls[n].member, window, ttl, calls[n].superseded).0
  }

  ghost function LogAfter(calls: seq<Call>): seq<Attempt> {
    if calls == [] then []
    else
      var n := |calls| - 1;
      Recorded(LogAfter(calls[..n]), calls[n].now, calls[n].member, calls[n].superseded)
  }

  lemma {:induction false} RunAgrees(calls: seq<Call>, window: nat, ttl: Option<nat>)
    requires ClockNeverGoesBack(calls) && (ttl.Some? ==> ttl.value > window)
    ensures var x := IndexAfter(calls, window, ttl);
            var log := LogAfter(calls);
            var cutoff := if calls == [] then 0 - window else calls[|calls| - 1].now - window;
            && Represents(x, log, cutoff)
            && Outlives(x, log, window)
            && (calls != [] ==> Chronological(log, calls[|calls| - 1].now))
            && (calls == [] ==> log == [])
            && (ttl.None? ==> x.expiresAt.None?)
  {
    if calls != [] {
      var n := |calls| - 1;
      RunAgrees(calls[..n], window, ttl);
      var x, log := IndexAfter(calls[..n], window, ttl), LogAfter(calls[..n]);
      var cutoff := if n == 0 then 0 - window else calls[n - 1].now - window;
      assert n > 0 ==> calls[..n][n - 1] == calls[n - 1];
      EvaluateAgrees(x, log, cutoff, calls[n].now, calls[n].member, window, ttl, calls[n].superseded);
    }
  }

  /** Velocity: after any run with a clock that never goes back, the pruned count that decides
      the rule is the number of distinct attempts of the last minute in the complete log. */
  lemma VelocityCountMatchesHistory(calls: seq<Call>, now: nat, member: string)
    requires ClockNeverGoesBack(calls + [Call(now, member, false)])
    ensures var (y, seen) := Evaluate(IndexAfter(calls, 60_000, None), now, member, 60_000, None, false);
            |seen| == |SeenInWindow(LogAfter(calls), now - 60_000, now)|
  {
    AnswerMatchesHistory(calls, now, member, VELOCITY_WINDOW_MS, None);
  }

  lemma AnswerMatchesHistory(calls: seq<Call>, now: nat, member: string, window: nat, ttl: Option<nat>)
    requires ClockNeverGoesBack(calls + [Call(now, member, false)]) && (ttl.Some? ==> ttl.value > window)
    ensures Evaluate(IndexAfter(calls, window, ttl), now, member, window, ttl, false).1
            == SeenInWindow(LogAfter(calls), now - window, now)
  {
    var all := calls + [Call(now, member, false)];
    forall i, j | 0 <= i < j < |calls|
      ensures calls[i].now <= calls[j].now
    {
      assert all[i] == calls[i] && all[j] == calls[j];
    }
    RunAgrees(calls, window, ttl);
    var cutoff := if calls == [] then 0 - window else calls[|calls| - 1].now - window;
    if calls != [] {
      assert all[|calls| - 1].now <= all[|calls|].now;
      assert Chronological(LogAfter(calls), now);
    }
    EvaluateAgrees(IndexAfter(calls, window, ttl), LogAfter(calls), cutoff, now, member, window, ttl, false);
  }

  // ---------- distinct senders of a recipient ----------

  /** Position of the first '|', as indexOf gives it (-1 when absent). */
  function FirstBar(m: string): int {
    if m == "" then -1
    else if m[0] == '|' then 0
    else
      var rest := FirstBar(m[1..]);
      if rest < 0 then -1 else rest + 1
  }

  function SenderOf(m: string): Option<string> {
    var i := FirstBar(m);
    if 0 < i <= |m| then Some(m[..i]) else None
  }

  function Senders(members: set<string>): set<string> {
    set m | m in members && SenderOf(m).Some? :: SenderOf(m).value
  }

  function MemberFor(sender: string, reference: string): string {
    sender + "|" + reference
  }

  lemma {:induction false} FirstBarFound(sender: string, reference: string)
    requires '|' !in sender
    ensures FirstBar(MemberFor(sender, reference)) == |sender|
  {
    if sender != "" {
      FirstBarFound(sender[1..], reference);
      assert MemberFor(sender, reference)[1..] == MemberFor(sender[1..], reference);
    }
  }

  lemma SenderRoundTrip(sender: string, reference: string)
    requires sender != "" && '|' !in sender
    ensures SenderOf(MemberFor(sender, reference)) == Some(sender)
  {
    FirstBarFound(sender, reference);
    assert MemberFor(sender, reference)[..|sender|] == sender;
  }

  datatype Transfer = Transfer(now: nat, sender: string, reference: string, superseded: bool)

  function Calls(ts: seq<Transfer>): seq<Call> {
    seq(|ts|, i requires 0 <= i < |ts| => Call(ts[i].now, MemberFor(ts[i].sender, ts[i].reference), ts[i].superseded))
  }

  ghost predicate WellNamed(ts: seq<Transfer>) {
    forall i :: 0 <= i < |ts| ==> ts[i].sender != "" && '|' !in ts[i].sender
  }

  /** The senders of the recorded transfers of the last hour, from the full list of transfers. */
  ghost function RecentSenders(ts: seq<Transfer>, now: nat): set<string> {
    set i | 0 <= i < |ts| && !ts[i].superseded && now - 3_600_000 <= ts[i].now <= now :: ts[i].sender
  }

  lemma {:induction false} LogHoldsTransfers(ts: seq<Transfer>, a: Attempt)
    ensures a in LogAfter(Calls(ts)) <==>
            exists i :: 0 <= i < |ts| && !ts[i].superseded && a == Attempt(ts[i].now, MemberFor(ts[i].sender, ts[i].reference))
  {
    if ts != [] {
      var n := |ts| - 1;
      LogHoldsTransfers(ts[..n], a);
      assert Calls(ts)[..n] == Calls(ts[..n]);
      assert forall i :: 0 <= i < n ==> ts[..n][i] == ts[i];
    }
  }

  /** Recipient velocity: although the set is pruned and its key expires after two hours, the
      distinct senders read from it are those of the last hour in the full list of transfers. */
  lemma DistinctSendersMatchHistory(ts: seq<Transfer>, now: nat, sender: string, reference: string)
    requires WellNamed(ts) && sender != "" && '|' !in sender
    requires ClockNeverGoesBack(Calls(ts) + [Call(now, MemberFor(sender, reference), false)])
    ensures var x := IndexAfter(Calls(ts), 3_600_000, Some(7_200_000));
            var seen := Evaluate(x, now, MemberFor(sender, reference), 3_600_000, Some(7_200_000), false).1;
            Senders(seen) == RecentSenders(ts, now)
  {
    var lo := now - RECIPIENT_WINDOW_MS;
    var log := LogAfter(Calls(ts));
    AnswerMatchesHistory(Calls(ts), now, MemberFor(sender, reference), RECIPIENT_WINDOW_MS, Some(RECIPIENT_KEY_TTL_MS));
    forall i | 0 <= i < |ts|
      ensures SenderOf(MemberFor(ts[i].sender, ts[i].reference)) == Some(ts[i].sender)
    {
      SenderRoundTrip(ts[i].sender, ts[i].reference);
    }
    forall s | s in Senders(SeenInWindow(log, lo, now))
      ensures s in RecentSenders(ts, now)
    {
      var m :| m in SeenInWindow(log, lo, now) && SenderOf(m).Some? && SenderOf(m).value == s;
      var k :| 0 <= k < |log| && lo <= log[k].time <= now && log[k].member == m;
      LogHoldsTransfers(ts, log[k]);
    }
    forall s | s in RecentSenders(ts, now)
      ensures s in Senders(SeenInWindow(log, lo, now))
    {
      var i :| 0 <= i < |ts| && !ts[i].superseded && lo <= ts[i].now <= now && ts[i].sender == s;
      var a := Attempt(ts[i].now, MemberFor(ts[i].sender, ts[i].reference));
      LogHoldsTransfers(ts, a);
      var k :| 0 <= k < |log| && log[k] == a;
      assert a.member in SeenInWindow(log, lo, now);
    }
  }

  // ---------- the rules as they run ----------

  /** How far a rule gets: to its end, to the check of the abort signal number `check`, or to the Redis
      call number `call`, which fails without effect. Without a Redis client it does nothing. */
  datatype Course = Runs | NoClient | AbortedAt(check: nat) | FailsAt(call: nat)

  const SUPERSEDED := Fraud.Report(Fraud.NotTriggered, Fraud.Approved)
  const FAILED := Fraud.Report(Fraud.Error, Fraud.Blocked)

  function Verdict(review: bool): Fraud.Report {
    if review then Fraud.Report(Fraud.Triggered, Fraud.Review) else Fraud.Report(Fraud.NotTriggered, Fraud.Approved)
  }

  /** One user's velocity key and one recipient's key in Redis. */
  class FraudIndex {
    var velocity: Index
    var recipient: Index

    constructor ()
      ensures velocity == Index(map[], None) && recipient == Index(map[], None)
    {
      velocity, recipient := Index(map[], None), Index(map[], None);
    }

    /** Prune, count, record. Only a rule that runs to its end records the attempt and reports on the count;
        a failed one reports an error, a superseded one nothing; both leave the key pruned or as it was. */
    method RuleVelocity(now: nat, member: string, course: Course) returns (report: Fraud.Report)
      modifies `velocity
      ensures var (x, seen) := Evaluate(old(velocity), now, member, 60_000, None, false);
              course == Runs || (course.AbortedAt? && course.check > 2) || (course.FailsAt? && course.call > 2) ==>
                && velocity == x
                && (|seen| >= 5 ==> report == Fraud.Report(Fraud.Triggered, Fraud.Review))
                && (|seen| < 5 ==> report == Fraud.Report(Fraud.NotTriggered, Fraud.Approved))
      ensures course == NoClient || (course.FailsAt? && course.call <= 2) ==> report == Fraud.Report(Fraud.Error, Fraud.Blocked)
      ensures course.AbortedAt? && course.check <= 2 ==> report == Fraud.Report(Fraud.NotTriggered, Fraud.Approved)
      ensures course == NoClient || (course.FailsAt? && course.call <= 2) || (course.AbortedAt? && course.check <= 2) ==>
                || velocity == old(velocity)
                || velocity == Evaluate(old(velocity), now, member, 60_000, None, true).0
    {
      if course == NoClient {
        return FAILED;
      }
      if course == AbortedAt(0) {
        return SUPERSEDED;
      }
      var minScore := now - VELOCITY_WINDOW_MS;
      if course == FailsAt(0) {
        return FAILED;
      }
      velocity := Pruned(Expired(velocity, now), minScore);
      if course == AbortedAt(1) {
        return SUPERSEDED;
      }
      if course == FailsAt(1) {
        return FAILED;
      }
      var prior := |InRange(velocity, minScore, now)|;
      if course == AbortedAt(2) {
        return SUPERSEDED;
      }
      var review := prior >= VELOCITY_THRESHOLD;
      if course == FailsAt(2) {
        return FAILED;
      }
      velocity := Added(velocity, now, member, None);
      return Verdict(review);
    }

    method DistinctSenders(raw: set<string>) returns (senders: set<string>)
      ensures senders == Senders(raw)
    {
      senders := {};
      var rest := raw;
      while rest != {}
        invariant rest <= raw
        invariant senders == Senders(raw - rest)
      {
        var m :| m in rest;
        var idx := FirstBar(m);
        assert raw - (rest - {m}) == raw - rest + {m};
        if 0 < idx <= |m| {
          senders := senders + {m[..idx]};
        }
        rest := rest - {m};
      }
      assert raw - rest == raw;
    }

    /** Likewise for the recipient. The last call renews the lifetime of the key: when only that one fails,
        the attempt is recorded and the old lifetime stays. */
    method RuleRecipientVelocity(now: nat, sender: string, reference: string, course: Course) returns (report: Fraud.Report)
      modifies `recipient
      ensures var (x, seen) := Evaluate(old(recipient), now, MemberFor(sender, reference), 3_600_000, Some(7_200_000), false);
              course == Runs || (course.AbortedAt? && course.check > 3) || (course.FailsAt? && course.call > 3) ==>
                && recipient == x
                && (|Senders(seen) + {sender}| > 20 ==> report == Fraud.Report(Fraud.Triggered, Fraud.Review))
                && (|Senders(seen) + {sender}| <= 20 ==> report == Fraud.Report(Fraud.NotTriggered, Fraud.Approved))
      ensures course == NoClient || (course.FailsAt? && course.call <= 3) ==> report == Fraud.Report(Fraud.Error, Fraud.Blocked)
      ensures course.AbortedAt? && course.check <= 3 ==> report == Fraud.Report(Fraud.NotTriggered, Fraud.Approved)
      ensures course == NoClient || (course.FailsAt? && course.call <= 2) || (course.AbortedAt? && course.check <= 3) ==>
                || recipient == old(recipient)
                || recipient == Evaluate(old(recipient), now, MemberFor(sender, reference), 3_600_000, Some(7_200_000), true).0
      ensures course == FailsAt(3) ==>
                recipient == Evaluate(old(recipient), now, MemberFor(sender, reference), 3_600_000, None, false).0
    {
      if course == NoClient {
        return FAILED;
      }
      if course == AbortedAt(0) {
        return SUPERSEDED;
      }
      var minScore := now - RECIPIENT_WINDOW_MS;
      if course == FailsAt(0) {
        return FAILED;
      }
      recipient := Pruned(Expired(recipient, now), minScore);
      if course == AbortedAt(1) {
        return SUPERSEDED;
      }
      if course == FailsAt(1) {
        return FAILED;
      }
      var raw := InRange(recipient, minScore, now);
      if course == AbortedAt(2) {
        return SUPERSEDED;
      }
      var senders := DistinctSenders(raw);
      senders := senders + {sender};
      if course == AbortedAt(3) {
        return SUPERSEDED;
      }
      if course == FailsAt(2) {
        return FAILED;
      }
      recipient := Added(recipient, now, MemberFor(sender, reference), None);
      if course == FailsAt(3) {
        return FAILED;
      }
      recipient := recipient.(expiresAt := Some(now + RECIPIENT_KEY_TTL_MS));
      return Verdict(|senders| > RECIPIENT_DISTINCT_SENDER_THRESHOLD);
    }
  }
}
