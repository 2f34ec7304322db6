/**
 * Status columns of the supervision-tracking listing. A tracking record has
 * three milestones (project, qualification, conclusion), each with an
 * optional planned date and an optional done date. Dates are day numbers and
 * "today" is a parameter.
 */
module GuidanceTracking {
  import opened Wrappers

  datatype Milestone = Milestone(planned: Option<int>, done: Option<int>)

  datatype Tracking = Tracking(project: Milestone, qualification: Milestone, conclusion: Milestone)

  /** The `type` column. */
  datatype Phase = Project | Qualification | Conclusion | Finished

  /** The `peding` column. */
  datatype Status = OnTime | Late

  /** Python's `TypeError` from comparing a missing planned date with today. */
  datatype TrackingError = TypeError

  function PhaseLabel(p: Phase): string
  {
    match p
    case Project => "PROJETO"
    case Qualification => "QUALIFICAÇÃO"
    case Conclusion => "CONCLUSÃO"
    case Finished => "FINALIZADO"
  }

  function StatusLabel(s: Status): string
  {
    match s
    case OnTime => "EM DIA"
    case Late => "EM ATRASO"
  }

  /** The milestones in the order in which a student passes them. */
  function Milestones(t: Tracking): seq<Milestone>
  {
    [t.project, t.qualification, t.conclusion]
  }

  /** Position of an unfinished phase's milestone in `Milestones`. */
  function Order(p: Phase): nat
    requires p != Finished
  {
    match p
    case Project => 0
    case Qualification => 1
    case Conclusion => 2
  }

  /** `type_`: the phase of the first milestone without a done date. */
  function Stage(t: Tracking): (r: Phase)
    ensures r == Finished <==> forall j :: 0 <= j < 3 ==> Milestones(t)[j].done.Some?
    ensures r != Finished ==> Milestones(t)[Order(r)].done.None?
    ensures r != Finished ==> forall j :: 0 <= j < Order(r) ==> Milestones(t)[j].done.Some?
  {
    assert Milestones(t)[0] == t.project && Milestones(t)[1] == t.qualification && Milestones(t)[2] == t.conclusion;
    if t.project.done.None? then Project
    else if t.qualification.done.None? then Qualification
    else if t.conclusion.done.None? then Conclusion
    else Finished
  }

  /**
   * `peding_days`: days from today to the planned date of the current
   * milestone (negative when overdue), nothing when that date is missing;
   * once finished, days since the conclusion.
   */
  function DaysToNext(t: Tracking, today: int): (r: Option<int>)
    ensures Stage(t) == Finished ==> r == Some(today - t.conclusion.done.value)
    ensures Stage(t) != Finished ==>
              var m := Milestones(t)[Order(Stage(t))];
              r == if m.planned.Some? then Some(m.planned.value - today) else None
  {
    if t.project.done.None? then
      if t.project.planned.Some? then Some(t.project.planned.value - today) else None
    else if t.qualification.done.None? then
      if t.qualification.planned.Some? then Some(t.qualification.planned.value - today) else None
    else if t.conclusion.done.None? then
      if t.conclusion.planned.Some? then Some(t.conclusion.planned.value - today) else None
    else
      Some(today - t.conclusion.done.value)
  }

  /** A milestone `peding_days_` can evaluate: done, or with a planned date to compare. */
  predicate Comparable(m: Milestone)
  {
    m.done.Some? || m.planned.Some?
  }

  /** How many days an unfinished milestone is overdue; 0 when it is not. */
  function Lateness(m: Milestone, today: int): int
    requires Comparable(m)
  {
    if m.done.None? && m.planned.value < today then today - m.planned.value else 0
  }

  function Max(a: int, b: int): int
  {
    if a < b then b else a
  }

  /** Reference definition of `peding_days_`: the largest lateness over the three milestones. */
  function Delay(t: Tracking, today: int): Result<int, TrackingError>
  {
    if !(Comparable(t.conclusion) && Comparable(t.qualification) && Comparable(t.project)) then
      Err(TypeError)
    else
      Ok(Max(Lateness(t.conclusion, today),
             Max(Lateness(t.qualification, today), Lateness(t.project, today))))
  }

  /** Python's `max` over a non-empty list. */
  function MaxOf(s: seq<int>): (r: int)
    requires |s| > 0
    ensures r in s
    ensures forall i :: 0 <= i < |s| ==> s[i] <= r
  {
    if |s| == 1 then s[0]
    else
      var m := MaxOf(s[1..]);
      if s[0] < m then m else s[0]
  }

  /**
   * `peding_days_`: collects the overdue amounts of the unfinished
   * milestones (conclusion first, then qualification, then project) and
   * returns their maximum, or 0 when there is none.
   */
  method PendingDays(t: Tracking, today: int) returns (r: Result<int, TrackingError>)
    ensures r == Delay(t, today)
  {
    var delays: seq<int> := [];
    var step := AppendDelay(t.conclusion, today, delays, 0);
    if step.Err? {
      return Err(TypeError);
    }
    delays := step.value;
    step := AppendDelay(t.qualification, today, delays, Lateness(t.conclusion, today));
    if step.Err? {
      return Err(TypeError);
    }
    delays := step.value;
    step := AppendDelay(t.project, today, delays,
                        Max(Lateness(t.qualification, today), Lateness(t.conclusion, today)));
    if step.Err? {
      return Err(TypeError);
    }
    delays := step.value;
    if |delays| > 0 {
      r := Ok(MaxOf(delays));
    } else {
      r := Ok(0);
    }
  }

  /**
   * One `if row[...] is None: if row[...] < today: delays.append(...)` block
   * of `peding_days_`; fails where Python compares a missing planned date.
   */
  method AppendDelay(m: Milestone, today: int, delays: seq<int>, ghost seen: int)
    returns (next: Result<seq<int>, TrackingError>)
    requires Collected(delays, seen)
    ensures next.Err? <==> !Comparable(m)
    ensures next.Ok? ==> Collected(next.value, Max(Lateness(m, today), seen))
  {
    next := Ok(delays);
    if m.done.None? {
      if m.planned.None? {
        return Err(TypeError);
      }
      if m.planned.value < today {
        if |delays| > 0 {
          MaxOfAppend(delays, today - m.planned.value);
        }
        next := Ok(delays + [today - m.planned.value]);
      }
    }
  }

  /** `delays` holds positive amounts, and its maximum is `seen` (0 when it is empty). */
  ghost predicate Collected(delays: seq<int>, seen: int)
  {
    && (forall i :: 0 <= i < |delays| ==> delays[i] > 0)
    && (if |delays| == 0 then seen == 0 else MaxOf(delays) == seen)
  }

  lemma MaxOfAppend(s: seq<int>, x: int)
    requires |s| > 0
    ensures MaxOf(s + [x]) == Max(MaxOf(s), x)
  {
    MaxOfAppendAbove(s, x);
    MaxOfAppendBelow(s, x);
  }

  lemma MaxOfAppendAbove(s: seq<int>, x: int)
    requires |s| > 0
    ensures MaxOf(s + [x]) >= MaxOf(s) && MaxOf(s + [x]) >= x
  {
    var t := s + [x];
    var k :| 0 <= k < |s| && s[k] == MaxOf(s);
    assert t[k] == s[k] && t[|s|] == x;
  }

  lemma MaxOfAppendBelow(s: seq<int>, x: int)
    requires |s| > 0
    ensures MaxOf(s + [x]) <= Max(MaxOf(s), x)
  {
    var t := s + [x];
    var j :| 0 <= j < |t| && t[j] == MaxOf(t);
    if j < |s| {
      assert t[j] == s[j];
    }
  }

  /** `pending`: late exactly when the delay is positive. */
  function Pending(t: Tracking, today: int): Result<Status, TrackingError>
  {
    match Delay(t, today)
    case Err(e) => Err(e)
    case Ok(d) => Ok(if d > 0 then Late else OnTime)
  }

  /** One listed record with its three computed columns, holding the labels the listing shows. */
  datatype Annotated = Annotated(tracking: Tracking, pedingDays: Option<int>, peding: string, phase: string)

  /** The three columns added to every row of the listing; one failing row fails the listing. */
  function Annotate(rows: seq<Tracking>, today: int): (r: Result<seq<Annotated>, TrackingError>)
    ensures r.Ok? <==> forall i :: 0 <= i < |rows| ==> Delay(rows[i], today).Ok?
    ensures r.Ok? ==> |r.value| == |rows|
    ensures r.Ok? ==> forall i :: 0 <= i < |rows| ==>
              && r.value[i].tracking == rows[i]
              && r.value[i].pedingDays == DaysToNext(rows[i], today)
              && Pending(rows[i], today).Ok?
              && r.value[i].peding == StatusLabel(Pending(rows[i], today).value)
              && r.value[i].phase == PhaseLabel(Stage(rows[i]))
  {
    if rows == [] then Ok([])
    else
      match Pending(rows[0], today)
      case Err(e) => Err(e)
      case Ok(status) =>
        match Annotate(rows[1..], today)
        case Err(e) => Err(e)
        case Ok(rest) =>
          Ok([Annotated(rows[0], DaysToNext(rows[0], today), StatusLabel(status), PhaseLabel(Stage(rows[0])))] + rest)
  }

  /** The delay fails exactly when some unfinished milestone has no planned date. */
  lemma DelayFailsIff(t: Tracking, today: int)
    ensures Delay(t, today).Err? <==>
              exists j :: 0 <= j < 3 && Milestones(t)[j].done.None? && Milestones(t)[j].planned.None?
  {
    if Delay(t, today).Err? {
      if !Comparable(t.project) {
        assert Milestones(t)[0] == t.project;
      } else if !Comparable(t.qualification) {
        assert Milestones(t)[1] == t.qualification;
      } else {
        assert Milestones(t)[2] == t.conclusion;
      }
    }
  }

  /** The delay is never negative, and it is 0 exactly when no unfinished milestone is overdue. */
  lemma DelayZeroUnlessOverdue(t: Tracking, today: int)
    requires Delay(t, today).Ok?
    ensures Delay(t, today).value >= 0
    ensures Delay(t, today).value == 0 <==>
              forall j :: 0 <= j < 3 && Milestones(t)[j].done.None? ==> Milestones(t)[j].planned.value >= today
  {
    var ms := Milestones(t);
    if Delay(t, today).value == 0 {
      forall j | 0 <= j < 3 && ms[j].done.None?
        ensures ms[j].planned.value >= today
      {
        assert ms[j] == t.project || ms[j] == t.qualification || ms[j] == t.conclusion;
      }
    } else {
      var d := Delay(t, today).value;
      if Lateness(t.project, today) == d {
        assert ms[0] == t.project;
      } else if Lateness(t.qualification, today) == d {
        assert ms[1] == t.qualification;
      } else {
        assert ms[2] == t.conclusion;
      }
    }
  }

  /** A positive delay is the overdue amount of one unfinished milestone and no smaller than any other. */
  lemma DelayIsLargestOverdue(t: Tracking, today: int)
    requires Delay(t, today).Ok?
    ensures forall j :: 0 <= j < 3 && Milestones(t)[j].done.None? && Milestones(t)[j].planned.value < today ==>
              Delay(t, today).value >= today - Milestones(t)[j].planned.value
    ensures Delay(t, today).value > 0 ==>
              exists j :: 0 <= j < 3 && Milestones(t)[j].done.None? && Milestones(t)[j].planned.value < today
                          && Delay(t, today).value == today - Milestones(t)[j].planned.value
  {
    var ms := Milestones(t);
    var d := Delay(t, today).value;
    forall j | 0 <= j < 3 && ms[j].done.None? && ms[j].planned.value < today
      ensures d >= today - ms[j].planned.value
    {
      assert Lateness(ms[j], today) == today - ms[j].planned.value;
    }
    if d > 0 {
      if d == Lateness(t.project, today) {
        assert ms[0] == t.project;
      } else if d == Lateness(t.qualification, today) {
        assert ms[1] == t.qualification;
      } else {
        assert ms[2] == t.conclusion;
      }
    }
  }

  /** `t` with its milestone at position `j` replaced. */
  function WithMilestone(t: Tracking, j: nat, m: Milestone): (r: Tracking)
    requires j < 3
    ensures Milestones(r)[j] == m
    ensures forall k :: 0 <= k < 3 && k != j ==> Milestones(r)[k] == Milestones(t)[k]
  {
    if j == 0 then t.(project := m)
    else if j == 1 then t.(qualification := m)
    else t.(conclusion := m)
  }

  /** A milestone with a done date never contributes: its planned date does not affect the delay. */
  lemma DoneMilestoneIgnored(t: Tracking, j: nat, done: int, p1: Option<int>, p2: Option<int>, today: int)
    requires j < 3
    ensures Delay(WithMilestone(t, j, Milestone(p1, Some(done))), today)
         == Delay(WithMilestone(t, j, Milestone(p2, Some(done))), today)
  {
  }

  /** `pending` says late exactly when `peding_days_` is positive, and fails exactly when it fails. */
  lemma PendingLateIff(t: Tracking, today: int)
    ensures Pending(t, today) == Ok(Late) <==> Delay(t, today).Ok? && Delay(t, today).value > 0
    ensures Pending(t, today) == Ok(OnTime) <==> Delay(t, today) == Ok(0)
    ensures Pending(t, today).Err? <==> Delay(t, today).Err?
  {
    if Delay(t, today).Ok? {
      DelayZeroUnlessOverdue(t, today);
    }
  }

  /** When the current milestone is overdue, `peding_days` is negative and the delay covers it. */
  lemma OverdueNextMilestone(t: Tracking, today: int)
    requires Stage(t) != Finished
    requires Delay(t, today).Ok?
    requires DaysToNext(t, today).Some? && DaysToNext(t, today).value < 0
    ensures Delay(t, today).value >= -DaysToNext(t, today).value > 0
  {
    DelayIsLargestOverdue(t, today);
    var j := Order(Stage(t));
    assert Milestones(t)[j].planned.value < today;
  }

  /** A current milestone without planned date leaves `peding_days` empty and makes `peding_days_` fail. */
  lemma MissingPlanFails(t: Tracking, today: int)
    requires DaysToNext(t, today).None?
    ensures Stage(t) != Finished
    ensures Delay(t, today).Err?
  {
    var j := Order(Stage(t));
    DelayFailsIff(t, today);
    assert Milestones(t)[j].done.None? && Milestones(t)[j].planned.None?;
  }

  /** Once all three milestones are done, `peding_days` counts the days since a past conclusion and the record is on time. */
  lemma FinishedRecord(t: Tracking, today: int)
    requires Stage(t) == Finished
    requires t.conclusion.done.value <= today
    ensures DaysToNext(t, today).value >= 0
    ensures Pending(t, today) == Ok(OnTime)
  {
    assert Milestones(t)[0] == t.project && Milestones(t)[1] == t.qualification;
  }

  /** A listed row shows "EM ATRASO" exactly when its delay is positive, and "EM DIA" otherwise. */
  lemma LateRowLabel(rows: seq<Tracking>, today: int, i: nat)
    requires Annotate(rows, today).Ok? && i < |rows|
    ensures Delay(rows[i], today).Ok?
    ensures Annotate(rows, today).value[i].peding == "EM ATRASO" <==> Delay(rows[i], today).value > 0
    ensures Annotate(rows, today).value[i].peding == "EM DIA" <==> Delay(rows[i], today).value == 0
  {
    PendingLateIff(rows[i], today);
    DelayZeroUnlessOverdue(rows[i], today);
  }

  /** An empty listing stays empty. */
  lemma AnnotateEmpty(today: int)
    ensures Annotate([], today) == Ok([])
  {
  }
}
