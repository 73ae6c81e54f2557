/** The synchronous fraud gate: rule rows are aggregated to the most severe contribution, and
    anything that is not proven clean is not approved. */
module Fraud {
  import opened Basics

  datatype Decision = Approved | Review | Blocked | ActionRequired
  datatype RuleOutcome = NotTriggered | Triggered | Error
  datatype RuleType = Velocity | LargeTransaction | NewDeviceLargeAmount | UnusualHourPattern | RecipientVelocity
  datatype RuleRow = RuleRow(rule: RuleType, outcome: RuleOutcome, recommended: Decision)

  function Rank(d: Decision): nat {
    match d
    case Approved => 1
    case Review => 2
    case ActionRequired => 3
    case Blocked => 4
  }

  function Contribution(r: RuleRow): Decision {
    match r.outcome
    case Error => Blocked
    case Triggered => r.recommended
    case NotTriggered => Approved
  }

  /** The aggregate as a reference: a decision of some row (or APPROVED) that no row outranks. */
  ghost predicate IsSeverest(d: Decision, rows: seq<RuleRow>) {
    && (d == Approved || exists i :: 0 <= i < |rows| && Contribution(rows[i]) == d)
    && forall i :: 0 <= i < |rows| ==> Rank(Contribution(rows[i])) <= Rank(d)
  }

  function Aggregate(rows: seq<RuleRow>): (d: Decision)
    ensures IsSeverest(d, rows)
  {
    if rows == [] then Approved
    else
      var n := |rows| - 1;
      var d := Aggregate(rows[..n]);
      assert forall i :: 0 <= i < n ==> rows[..n][i] == rows[i];
      if Rank(Contribution(rows[n])) > Rank(d) then Contribution(rows[n]) else d
  }

  predicate AnyError(rows: seq<RuleRow>) {
    exists i :: 0 <= i < |rows| && rows[i].outcome == Error
  }

  predicate Alarms(rows: seq<RuleRow>, d: Decision) {
    exists i :: 0 <= i < |rows| && rows[i].outcome == Triggered && rows[i].recommended == d
  }

  /** The precedence of the decisions: one error or one BLOCKED alarm blocks, else one ACTION_REQUIRED alarm
      asks for action, else one REVIEW alarm asks for review, else the transaction is approved. */
  lemma WorstRowDecides(rows: seq<RuleRow>)
    ensures Aggregate(rows) == Blocked <==> AnyError(rows) || Alarms(rows, Blocked)
    ensures Aggregate(rows) == ActionRequired <==>
              !AnyError(rows) && !Alarms(rows, Blocked) && Alarms(rows, ActionRequired)
    ensures Aggregate(rows) == Review <==>
              !AnyError(rows) && !Alarms(rows, Blocked) && !Alarms(rows, ActionRequired) && Alarms(rows, Review)
    ensures Aggregate(rows) == Approved <==>
              !AnyError(rows) && !Alarms(rows, Blocked) && !Alarms(rows, ActionRequired) && !Alarms(rows, Review)
  {
    hide Aggregate;
    var d := Aggregate(rows);
    assert forall i :: 0 <= i < |rows| && rows[i].outcome == Error ==> Contribution(rows[i]) == Blocked;
    assert forall i :: 0 <= i < |rows| && rows[i].outcome == Triggered ==> Contribution(rows[i]) == rows[i].recommended;
  }

  method AggregateRows(rows: seq<RuleRow>) returns (finalDecision: Decision, triggered: seq<RuleType>)
    ensures finalDecision == Aggregate(rows)
    ensures finalDecision == Blocked <==> AnyError(rows) || Alarms(rows, Blocked)
    ensures finalDecision == ActionRequired <==>
              !AnyError(rows) && !Alarms(rows, Blocked) && Alarms(rows, ActionRequired)
    ensures finalDecision == Review <==>
              !AnyError(rows) && !Alarms(rows, Blocked) && !Alarms(rows, ActionRequired) && Alarms(rows, Review)
    ensures forall t :: t in triggered <==> exists i :: 0 <= i < |rows| && rows[i].rule == t && rows[i].outcome != NotTriggered
  {
    finalDecision, triggered := Approved, [];
    for i := 0 to |rows|
      invariant finalDecision == Aggregate(rows[..i])
      invariant forall t :: t in triggered <==> exists k :: 0 <= k < i && rows[k].rule == t && rows[k].outcome != NotTriggered
    {
      var r := rows[i];
      assert rows[..i + 1][..i] == rows[..i];
      var contribution := Approved;
      ghost var before := triggered;
      if r.outcome == Error {
        contribution := Blocked;
        triggered := triggered + [r.rule];
      } else if r.outcome == Triggered {
        contribution := r.recommended;
        triggered := triggered + [r.rule];
      }
      if Rank(contribution) > Rank(finalDecision) {
        finalDecision := contribution;
      }
    }
    assert rows[..|rows|] == rows;
    WorstRowDecides(rows);
  }

  lemma SeverestIsUnique(d: Decision, e: Decision, rows: seq<RuleRow>)
    requires IsSeverest(d, rows) && IsSeverest(e, rows)
    ensures d == e
  {
  }

  /** The order in which the rules report does not matter. */
  lemma OrderDoesNotMatter(rows: seq<RuleRow>, permuted: seq<RuleRow>)
    requires multiset(rows) == multiset(permuted)
    ensures Aggregate(rows) == Aggregate(permuted)
  {
    var d := Aggregate(rows);
    forall i | 0 <= i < |permuted|
      ensures Rank(Contribution(permuted[i])) <= Rank(d)
    {
      assert permuted[i] in multiset(permuted) && permuted[i] in rows;
    }
    if d != Approved {
      var i :| 0 <= i < |rows| && Contribution(rows[i]) == d;
      assert rows[i] in multiset(rows) && rows[i] in permuted;
    }
    SeverestIsUnique(d, Aggregate(permuted), permuted);
  }

  /** APPROVED means that no row is an error and none asks for more. */
  lemma ApprovedExactly(rows: seq<RuleRow>)
    ensures Aggregate(rows) == Approved <==>
            forall i :: 0 <= i < |rows| ==>
              rows[i].outcome != Error && (rows[i].outcome == Triggered ==> rows[i].recommended == Approved)
  {
  }

  /** What one rule reports. */
  datatype Report = Report(outcome: RuleOutcome, recommended: Decision)

  /** How one run of the engine ended: all five rules reported, the 200 ms budget was overrun, or it threw. */
  datatype EngineRun =
    | Finished(velocity: Report, large: Report, device: Report, hour: Report, recipient: Report)
    | TimedOut
    | Threw

  const ALL_RULES := [Velocity, LargeTransaction, NewDeviceLargeAmount, UnusualHourPattern, RecipientVelocity]

  function SyntheticErrors(): seq<RuleRow> {
    seq(|ALL_RULES|, i requires 0 <= i < |ALL_RULES| => RuleRow(ALL_RULES[i], Error, Blocked))
  }

  /** The rows that are aggregated and stored, in the order of the rules. */
  function Rows(run: EngineRun): (rows: seq<RuleRow>)
    ensures |rows| == |ALL_RULES| && forall i :: 0 <= i < |rows| ==> rows[i].rule == ALL_RULES[i]
  {
    match run
    case Finished(v, l, d, h, r) =>
      [RuleRow(Velocity, v.outcome, v.recommended), RuleRow(LargeTransaction, l.outcome, l.recommended),
       RuleRow(NewDeviceLargeAmount, d.outcome, d.recommended), RuleRow(UnusualHourPattern, h.outcome, h.recommended),
       RuleRow(RecipientVelocity, r.outcome, r.recommended)]
    case _ => SyntheticErrors()
  }

  /** One evaluation: what the engine did and whether the risk decision could be stored. */
  datatype Evaluation = Evaluation(run: EngineRun, persisted: bool)

  /** The decision returned, or None when storing it failed and the error propagates. */
  function Decide(e: Evaluation): Option<Decision> {
    if e.persisted then Some(Aggregate(Rows(e.run))) else None
  }

  /** Exactly one row per rule, whatever happened. */
  lemma EveryRuleHasOneRow(run: EngineRun, rule: RuleType)
    ensures exists i :: 0 <= i < |Rows(run)| && Rows(run)[i].rule == rule
    ensures forall i, j :: 0 <= i < |Rows(run)| && 0 <= j < |Rows(run)| && Rows(run)[i].rule == rule && Rows(run)[j].rule == rule ==> i == j
  {
    var i: nat := match rule case Velocity => 0 case LargeTransaction => 1 case NewDeviceLargeAmount => 2 case UnusualHourPattern => 3 case RecipientVelocity => 4;
    assert Rows(run)[i].rule == rule;
  }

  /** The reports of a finished run. */
  function Reports(run: EngineRun): seq<Report>
    requires run.Finished?
  {
    [run.velocity, run.large, run.device, run.hour, run.recipient]
  }

  /** Fail closed: the evaluation returns APPROVED exactly when it was stored, the engine finished, and
      each of the five rules reported without an error or an alarm. */
  lemma ApprovalIsProven(e: Evaluation)
    ensures Decide(e) == Some(Approved) <==>
            && e.persisted && e.run.Finished?
            && forall r :: r in [e.run.velocity, e.run.large, e.run.device, e.run.hour, e.run.recipient] ==>
                 r.outcome == NotTriggered || (r.outcome == Triggered && r.recommended == Approved)
  {
    ApprovedExactly(Rows(e.run));
    assert Rows(TimedOut)[0].outcome == Error;
    if e.run.Finished? {
      RowsAreReports(e.run);
    }
  }

  lemma RowsAreReports(run: EngineRun)
    requires run.Finished?
    ensures |Rows(run)| == |Reports(run)|
    ensures forall i :: 0 <= i < |Rows(run)| ==>
              Reports(run)[i] in Reports(run) && Rows(run)[i] == RuleRow(ALL_RULES[i], Reports(run)[i].outcome, Reports(run)[i].recommended)
  {
  }

  /** What the other evaluations return: nothing when the decision could not be stored, BLOCKED for an
      engine that threw or took too long, else what the worst of the five reports asks for. */
  lemma DecisionExactly(e: Evaluation)
    ensures Decide(e).None? <==> !e.persisted
    ensures e.persisted && !e.run.Finished? ==> Decide(e) == Some(Blocked)
    ensures e.persisted && e.run.Finished? ==>
              var reports := [e.run.velocity, e.run.large, e.run.device, e.run.hour, e.run.recipient];
              && (Decide(e) == Some(Blocked) <==>
                    exists r :: r in reports && (r.outcome == Error || r == Report(Triggered, Blocked)))
              && (Decide(e) == Some(ActionRequired) <==>
                    && Report(Triggered, ActionRequired) in reports
                    && forall r :: r in reports ==> r.outcome != Error && r != Report(Triggered, Blocked))
              && (Decide(e) == Some(Review) <==>
                    && Report(Triggered, Review) in reports
                    && forall r :: r in reports ==>
                         r.outcome != Error && r != Report(Triggered, Blocked) && r != Report(Triggered, ActionRequired))
  {
    WorstRowDecides(Rows(e.run));
    assert Rows(TimedOut)[0].outcome == Error;
    if e.run.Finished? {
      RowsAreReports(e.run);
      AlarmsAreReports(e.run, Blocked);
      AlarmsAreReports(e.run, ActionRequired);
      AlarmsAreReports(e.run, Review);
      hide Aggregate, Alarms;
    }
  }

  lemma AlarmsAreReports(run: EngineRun, d: Decision)
    requires run.Finished?
    ensures Alarms(Rows(run), d) <==> Report(Triggered, d) in Reports(run)
  {
    RowsAreReports(run);
  }
}
