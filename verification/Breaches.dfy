/** What the hours-of-service log reports, in hours and intervals. */
module Breaches {
  import opened Numbers
  import opened Sums
  import opened Wrappers
  import opened Hos

  /** An hour in nanoseconds. */
  const H: nat := 3_600_000_000_000

  function Length(iv: DutyInterval): nat { Max(0, iv.end - iv.start) }

  predicate Working(s: HosStatus) { s == OnDuty || s == Driving }

  /** The driving in each interval from the k-th on, nothing for the others. */
  function DrivenFrom(log: Log, k: nat): (r: seq<int>)
    ensures |r| == |log|
  {
    seq(|log|, i requires 0 <= i < |log| => if k <= i && log[i].status == Driving then Length(log[i]) else 0)
  }

  function WorkedFrom(log: Log, k: nat): (r: seq<int>)
    ensures |r| == |log|
  {
    seq(|log|, i requires 0 <= i < |log| => if k <= i && Working(log[i].status) then Length(log[i]) else 0)
  }

  /** How much of each working interval lies within the last `days` days before the log's end. */
  function WorkedWithin(log: Log, days: nat): (r: seq<int>)
    ensures |r| == |log|
  {
    seq(|log|, i requires 0 <= i < |log| =>
      if Working(log[i].status)
      then Max(0, Min(log[i].end, log[|log| - 1].end) - Max(log[i].start, log[|log| - 1].end - days * 24 * H))
      else 0)
  }

  predicate LongRest(iv: DutyInterval) {
    (iv.status == OffDuty && Length(iv) >= 10 * H) || (iv.status == SleeperBerth && Length(iv) >= 8 * H)
  }

  predicate ShortRest(iv: DutyInterval) {
    (iv.status == OffDuty || iv.status == SleeperBerth) && 2 * Length(iv) >= H
  }

  /** The window starts after the last rest of ten hours off duty or eight in the berth, if there was one. */
  ghost predicate WindowStart(log: Log, k: nat) {
    k <= |log| && (k > 0 ==> LongRest(log[k - 1])) && forall i :: k <= i < |log| ==> !LongRest(log[i])
  }

  /** The run of driving starts after the last rest of half an hour, if there was one. */
  ghost predicate RunStart(log: Log, k: nat) {
    k <= |log| && (k > 0 ==> ShortRest(log[k - 1])) && forall i :: k <= i < |log| ==> !ShortRest(log[i])
  }

  lemma {:induction false} TimesAreSums(log: Log, k: nat)
    requires k <= |log|
    ensures DrivingTime(log[k..]) == Sum(DrivenFrom(log, k))
    ensures OnDutyTime(log[k..]) == Sum(WorkedFrom(log, k))
    decreases |log|
  {
    if k == |log| {
      SumZeroes(DrivenFrom(log, k));
      SumZeroes(WorkedFrom(log, k));
    } else {
      var n := |log| - 1;
      var front, last := log[..n], log[n];
      TimesAreSums(front, k);
      assert log[k..][..|log[k..]| - 1] == front[k..] && log[k..][|log[k..]| - 1] == last;
      assert DrivenFrom(log, k) == DrivenFrom(front, k) + [if last.status == Driving then Length(last) else 0];
      assert WorkedFrom(log, k) == WorkedFrom(front, k) + [if Working(last.status) then Length(last) else 0];
      SumSnoc(DrivenFrom(front, k), if last.status == Driving then Length(last) else 0);
      SumSnoc(WorkedFrom(front, k), if Working(last.status) then Length(last) else 0);
    }
  }

  /** The scans of any log: the window's driving and work, and the driving since the last break. */
  lemma {:induction false} ScansState(log: Log, w: nat, b: nat)
    requires WindowStart(log, w) && RunStart(log, b)
    ensures DrivingTime(Window(log)) == Sum(DrivenFrom(log, w))
    ensures OnDutyTime(Window(log)) == Sum(WorkedFrom(log, w))
    ensures DrivingTime(SinceBreak(log)) == Sum(DrivenFrom(log, b))
  {
    assert forall iv: DutyInterval :: (ResetsAt(iv) <==> LongRest(iv)) && (Breaks(iv) <==> ShortRest(iv));
    AfterUnique(log, ResetsAt, w);
    AfterUnique(log, Breaks, b);
    TimesAreSums(log, w);
    TimesAreSums(log, b);
  }

  /** Every log has a window and a run of driving. */
  lemma {:induction false} StartsExist(log: Log) returns (w: nat, b: nat)
    ensures WindowStart(log, w) && RunStart(log, b)
  {
    w, b := After(log, ResetsAt), After(log, Breaks);
    assert forall iv: DutyInterval :: (ResetsAt(iv) <==> LongRest(iv)) && (Breaks(iv) <==> ShortRest(iv));
    assert forall i :: w <= i < |log| ==> !ResetsAt(log[i]);
    assert forall i :: b <= i < |log| ==> !Breaks(log[i]);
  }

  lemma {:induction false} WithinIsSum(log: Log, n: nat, lo: int, hi: int)
    requires n <= |log|
    ensures OnDutyWithin(log[..n], lo, hi)
        == Sum(seq(n, i requires 0 <= i < n =>
                 if Working(log[i].status) then Max(0, Min(log[i].end, hi) - Max(log[i].start, lo)) else 0))
  {
    if n > 0 {
      WithinIsSum(log, n - 1, lo, hi);
      assert log[..n][..n - 1] == log[..n - 1];
      var f := (i: int) requires 0 <= i < n =>
        if Working(log[i].status) then Max(0, Min(log[i].end, hi) - Max(log[i].start, lo)) else 0;
      assert seq(n, i requires 0 <= i < n =>
               if Working(log[i].status) then Max(0, Min(log[i].end, hi) - Max(log[i].start, lo)) else 0)
          == seq(n - 1, i requires 0 <= i < n - 1 =>
               if Working(log[i].status) then Max(0, Min(log[i].end, hi) - Max(log[i].start, lo)) else 0)
             + [f(n - 1)];
      SumSnoc(seq(n - 1, i requires 0 <= i < n - 1 =>
               if Working(log[i].status) then Max(0, Min(log[i].end, hi) - Max(log[i].start, lo)) else 0), f(n - 1));
    }
  }

  /** The rolling sum clips every working interval to the last days before the log's end. */
  lemma {:induction false} RollingStates(log: Log, days: nat)
    ensures RollingOnDuty(log, days) == Sum(WorkedWithin(log, days))
  {
    if log != [] {
      var hi := log[|log| - 1].end;
      WithinIsSum(log, |log|, hi - days * DAY, hi);
      assert log[..|log|] == log && days * DAY == days * 24 * H;
      assert seq(|log|, i requires 0 <= i < |log| =>
               if Working(log[i].status) then Max(0, Min(log[i].end, hi) - Max(log[i].start, hi - days * DAY)) else 0)
          == WorkedWithin(log, days);
    }
  }

  /** Over sixty hours of work in seven days; or else over seventy in eight. */
  ghost predicate CycleBreach(log: Log, v: HosViolation) {
    || (Sum(WorkedWithin(log, 7)) > 60 * H && v == CycleLimit(Sum(WorkedWithin(log, 7)), 60 * H, 7))
    || (Sum(WorkedWithin(log, 7)) <= 60 * H && Sum(WorkedWithin(log, 8)) > 70 * H
        && v == CycleLimit(Sum(WorkedWithin(log, 8)), 70 * H, 8))
  }

  /**
   * Everything a log reports, and that it reports nothing else: more than 11 hours of driving or 14
   * of work since the last long rest; 8 hours of driving or more since the last half-hour rest; and
   * the 60 or 70 hour cycle. Each breach carries the time it is about.
   */
  lemma {:induction false} ReportedIff(log: Log, w: nat, b: nat, v: HosViolation)
    requires WindowStart(log, w) && RunStart(log, b)
    ensures v in LogViolations(log) <==>
      || (Sum(DrivenFrom(log, w)) > 11 * H && v == DrivingLimit(Sum(DrivenFrom(log, w))))
      || (Sum(WorkedFrom(log, w)) > 14 * H && v == OnDutyLimit(Sum(WorkedFrom(log, w))))
      || (Sum(DrivenFrom(log, b)) >= 8 * H && v == BreakRequired(Sum(DrivenFrom(log, b))))
      || CycleBreach(log, v)
  {
    ScansState(log, w, b);
    RollingStates(log, 7);
    RollingStates(log, 8);
  }

  /** The rules in the order in which they are checked. */
  function Rule(v: HosViolation): nat {
    match v
    case DrivingLimit(_) => 1
    case OnDutyLimit(_) => 2
    case BreakRequired(_) => 3
    case CycleLimit(_, _, _) => 4
  }

  /** Each rule is reported at most once, in order. */
  lemma {:induction false} ReportedInOrder(log: Log, i: nat, j: nat)
    requires i < j < |LogViolations(log)|
    ensures Rule(LogViolations(log)[i]) < Rule(LogViolations(log)[j])
  {
  }

  // ----- What is logged -----

  /** The changes of status that are refused: none at all, into driving from rest, and two ways into rest. */
  predicate Refused(from: HosStatus, to: HosStatus) {
    || from == to
    || (to == Driving && from != OnDuty)
    || (from == OffDuty && to == SleeperBerth)
    || (from == Driving && to == OffDuty)
  }

  /**
   * An interval is refused as malformed when it ends before it starts, or else for a change of
   * status that is not allowed; nothing is logged then. Otherwise it is logged last.
   */
  lemma {:induction false} AppendStates(s: LogState, iv: DutyInterval)
    ensures AppendOutcome(s, iv)
        == if iv.end < iv.start then Err(InvalidInterval(iv.start, iv.end))
           else if Refused(s.status, iv.status) then Err(Transition(s.status, iv.status))
           else Ok(LogState(iv.status, s.log + [iv]))
  {
  }

  /** Driving always follows time on duty without driving; time off duty never follows driving directly. */
  lemma {:induction false} DrivingFollowsDuty(s: LogState, iv: DutyInterval)
    requires AppendOutcome(s, iv).Ok?
    ensures iv.status == Driving ==> s.status == OnDuty
    ensures iv.status == OffDuty ==> s.status == OnDuty || s.status == SleeperBerth
    ensures AppendOutcome(s, iv).value.status != s.status
  {
  }
}
