/** Hours of service: the duty-status graph, the running clock and the log of duty intervals. */
module Hos {
  import opened Wrappers
  import opened Numbers

  /** Times and durations are nanoseconds. */
  const SECOND: nat := 1_000_000_000
  const HOUR: nat := 3600 * SECOND
  const DAY: nat := 24 * HOUR

  const DRIVING_LIMIT_HOURS: nat := 11 * HOUR
  const ON_DUTY_LIMIT_HOURS: nat := 14 * HOUR
  const BREAK_AFTER: nat := 8 * HOUR
  const QUALIFYING_BREAK: nat := 1800 * SECOND
  const OFF_DUTY_REST: nat := 10 * HOUR
  const SLEEPER_REST: nat := 8 * HOUR
  const SEVEN_DAY_LIMIT: nat := 60 * HOUR
  const EIGHT_DAY_LIMIT: nat := 70 * HOUR

  datatype HosStatus = OffDuty | OnDuty | Driving | SleeperBerth

  datatype DutyPeriod = DutyPeriod(status: HosStatus, duration: nat)

  datatype DutyInterval = DutyInterval(status: HosStatus, start: int, end: int)

  datatype HosViolation =
    | DrivingLimit(driven: nat)
    | OnDutyLimit(worked: nat)
    | BreakRequired(sinceBreak: nat)
    | CycleLimit(used: nat, limit: nat, days: nat)

  datatype HosLogError =
    | Transition(from: HosStatus, to: HosStatus)
    | InvalidInterval(start: int, end: int)

  predicate CanTransition(from: HosStatus, to: HosStatus) {
    match (from, to)
    case (OffDuty, OnDuty) => true
    case (OnDuty, OffDuty) => true
    case (OnDuty, Driving) => true
    case (Driving, OnDuty) => true
    case (OnDuty, SleeperBerth) => true
    case (SleeperBerth, OnDuty) => true
    case (Driving, SleeperBerth) => true
    case (SleeperBerth, OffDuty) => true
    case _ => false
  }

  predicate IsOnDuty(s: HosStatus) { s != OffDuty && s != SleeperBerth }

  /** An interval that ends before it starts has no length. */
  function Duration(iv: DutyInterval): nat {
    if iv.end < iv.start then 0 else iv.end - iv.start
  }

  /** A rest long enough to open a new window. */
  predicate Resets(status: HosStatus, duration: nat) {
    (status == OffDuty && duration >= OFF_DUTY_REST) || (status == SleeperBerth && duration >= SLEEPER_REST)
  }

  // ----- The clock -----

  datatype ClockState = ClockState(status: HosStatus, driving: nat, onDuty: nat)

  const FRESH_CLOCK := ClockState(OffDuty, 0, 0)

  function Applied(c: ClockState, p: DutyPeriod): ClockState {
    if !CanTransition(c.status, p.status) then c
    else if Resets(p.status, p.duration) then ClockState(p.status, 0, 0)
    else ClockState(p.status,
                    c.driving + if p.status == Driving then p.duration else 0,
                    c.onDuty + if IsOnDuty(p.status) then p.duration else 0)
  }

  /** The two limits a window is held to. */
  function WindowViolations(driving: nat, onDuty: nat): seq<HosViolation> {
    (if driving > DRIVING_LIMIT_HOURS then [DrivingLimit(driving)] else [])
    + (if onDuty > ON_DUTY_LIMIT_HOURS then [OnDutyLimit(onDuty)] else [])
  }

  class HosClock {
    var status: HosStatus
    var driving: nat
    var onDuty: nat

    ghost function State(): ClockState
      reads this
    {
      ClockState(status, driving, onDuty)
    }

    constructor ()
      ensures State() == FRESH_CLOCK
    {
      status, driving, onDuty := OffDuty, 0, 0;
    }

    method Apply(period: DutyPeriod) returns (ok: bool)
      modifies this
      ensures ok == CanTransition(old(status), period.status)
      ensures State() == Applied(old(State()), period)
    {
      if !CanTransition(status, period.status) {
        return false;
      }
      status := period.status;
      if (status == OffDuty && period.duration >= OFF_DUTY_REST)
          || (status == SleeperBerth && period.duration >= SLEEPER_REST) {
        driving, onDuty := 0, 0;
        return true;
      }
      match status {
        case Driving =>
          driving := driving + period.duration;
          onDuty := onDuty + period.duration;
        case OnDuty =>
          onDuty := onDuty + period.duration;
        case OffDuty =>
        case SleeperBerth =>
      }
      return true;
    }

    method Violations() returns (v: seq<HosViolation>)
      ensures v == WindowViolations(driving, onDuty)
    {
      v := [];
      if driving > DRIVING_LIMIT_HOURS { v := v + [DrivingLimit(driving)]; }
      if onDuty > ON_DUTY_LIMIT_HOURS { v := v + [OnDutyLimit(onDuty)]; }
    }
  }

  // ----- What the log's queries mean -----

  type Log = seq<DutyInterval>

  function DrivingTime(log: Log): nat {
    if log == [] then 0
    else DrivingTime(log[..|log| - 1]) + if log[|log| - 1].status == Driving then Duration(log[|log| - 1]) else 0
  }

  function OnDutyTime(log: Log): nat {
    if log == [] then 0
    else OnDutyTime(log[..|log| - 1]) + if IsOnDuty(log[|log| - 1].status) then Duration(log[|log| - 1]) else 0
  }

  /** A rest that ends the run of driving for the 30-minute rule. */
  predicate Breaks(iv: DutyInterval) { !IsOnDuty(iv.status) && Duration(iv) >= QUALIFYING_BREAK }

  predicate ResetsAt(iv: DutyInterval) { Resets(iv.status, Duration(iv)) }

  /** The interval after the last one that satisfies `stop`. */
  function After(log: Log, stop: DutyInterval -> bool): (k: nat)
    ensures k <= |log|
    ensures forall i :: k <= i < |log| ==> !stop(log[i])
    ensures k > 0 ==> stop(log[k - 1])
  {
    if log == [] then 0
    else if stop(log[|log| - 1]) then |log|
    else After(log[..|log| - 1], stop)
  }

  /** The intervals since the last qualifying rest. */
  function Window(log: Log): Log { log[After(log, ResetsAt)..] }

  function SinceBreak(log: Log): Log { log[After(log, Breaks)..] }

  /** How much of the interval lies in lo..hi. */
  function Clipped(iv: DutyInterval, lo: int, hi: int): nat {
    Max(0, Min(iv.end, hi) - Max(iv.start, lo))
  }

  function OnDutyWithin(log: Log, lo: int, hi: int): nat {
    if log == [] then 0
    else
      OnDutyWithin(log[..|log| - 1], lo, hi)
          + if IsOnDuty(log[|log| - 1].status) then Clipped(log[|log| - 1], lo, hi) else 0
  }

  function RollingOnDuty(log: Log, days: nat): nat {
    if log == [] then 0 else OnDutyWithin(log, log[|log| - 1].end - days * DAY, log[|log| - 1].end)
  }

  function CycleViolation(log: Log): Option<HosViolation> {
    if RollingOnDuty(log, 7) > SEVEN_DAY_LIMIT then Some(CycleLimit(RollingOnDuty(log, 7), SEVEN_DAY_LIMIT, 7))
    else if RollingOnDuty(log, 8) > EIGHT_DAY_LIMIT then Some(CycleLimit(RollingOnDuty(log, 8), EIGHT_DAY_LIMIT, 8))
    else None
  }

  function LogViolations(log: Log): seq<HosViolation> {
    WindowViolations(DrivingTime(Window(log)), OnDutyTime(Window(log)))
    + (if DrivingTime(SinceBreak(log)) >= BREAK_AFTER then [BreakRequired(DrivingTime(SinceBreak(log)))] else [])
    + (if CycleViolation(log).Some? then [CycleViolation(log).value] else [])
  }

  // ----- The log -----

  datatype LogState = LogState(status: HosStatus, log: Log)

  const FRESH_LOG := LogState(OffDuty, [])

  function AppendOutcome(s: LogState, iv: DutyInterval): Result<LogState, HosLogError> {
    if iv.end < iv.start then Err(InvalidInterval(iv.start, iv.end))
    else if !CanTransition(s.status, iv.status) then Err(Transition(s.status, iv.status))
    else Ok(LogState(iv.status, s.log + [iv]))
  }

  lemma {:induction false} TimeSplit(a: Log, b: Log)
    ensures DrivingTime(a + b) == DrivingTime(a) + DrivingTime(b)
    ensures OnDutyTime(a + b) == OnDutyTime(a) + OnDutyTime(b)
  {
    if b == [] {
      assert a + b == a;
    } else {
      TimeSplit(a, b[..|b| - 1]);
      assert (a + b)[..|a + b| - 1] == a + b[..|b| - 1];
    }
  }

  lemma {:induction false} TimeFrom(log: Log, i: nat)
    requires i < |log|
    ensures DrivingTime(log[i..])
        == DrivingTime(log[i + 1..]) + if log[i].status == Driving then Duration(log[i]) else 0
    ensures OnDutyTime(log[i..]) == OnDutyTime(log[i + 1..]) + if IsOnDuty(log[i].status) then Duration(log[i]) else 0
  {
    assert log[i..] == [log[i]] + log[i + 1..];
    TimeSplit([log[i]], log[i + 1..]);
    assert [log[i]][..0] == [];
  }

  /** The boundary is determined by its two properties. */
  lemma {:induction false} AfterUnique(log: Log, stop: DutyInterval -> bool, k: nat)
    requires k <= |log| && (k > 0 ==> stop(log[k - 1])) && forall i :: k <= i < |log| ==> !stop(log[i])
    ensures After(log, stop) == k
  {
    var m := After(log, stop);
    assert m <= k && k <= m;
  }

  class HosLog {
    var status: HosStatus
    var intervals: Log

    ghost function State(): LogState
      reads this
    {
      LogState(status, intervals)
    }

    constructor ()
      ensures State() == FRESH_LOG
    {
      status, intervals := OffDuty, [];
    }

    method Append(iv: DutyInterval) returns (r: Result<(), HosLogError>)
      modifies this
      ensures match AppendOutcome(old(State()), iv)
              case Ok(s) => r == Ok(()) && State() == s
              case Err(e) => r == Err(e) && State() == old(State())
    {
      if iv.end < iv.start {
        return Err(InvalidInterval(iv.start, iv.end));
      }
      if !CanTransition(status, iv.status) {
        return Err(Transition(status, iv.status));
      }
      status := iv.status;
      intervals := intervals + [iv];
      return Ok(());
    }

    method ScanWindow() returns (driving: nat, onDuty: nat)
      ensures driving == DrivingTime(Window(intervals)) && onDuty == OnDutyTime(Window(intervals))
    {
      driving, onDuty := 0, 0;
      var i := |intervals|;
      while i > 0
        invariant 0 <= i <= |intervals|
        invariant driving == DrivingTime(intervals[i..]) && onDuty == OnDutyTime(intervals[i..])
        invariant forall j :: i <= j < |intervals| ==> !ResetsAt(intervals[j])
      {
        var iv := intervals[i - 1];
        TimeFrom(intervals, i - 1);
        match iv.status {
          case Driving =>
            driving := driving + Duration(iv);
            onDuty := onDuty + Duration(iv);
          case OnDuty =>
            onDuty := onDuty + Duration(iv);
          case OffDuty =>
            if Duration(iv) >= OFF_DUTY_REST { break; }
          case SleeperBerth =>
            if Duration(iv) >= SLEEPER_REST { break; }
        }
        i := i - 1;
      }
      AfterUnique(intervals, ResetsAt, i);
    }

    method DrivingSinceBreak() returns (d: nat)
      ensures d == DrivingTime(SinceBreak(intervals))
    {
      d := 0;
      var i := |intervals|;
      while i > 0
        invariant 0 <= i <= |intervals|
        invariant d == DrivingTime(intervals[i..])
        invariant forall j :: i <= j < |intervals| ==> !Breaks(intervals[j])
      {
        var iv := intervals[i - 1];
        TimeFrom(intervals, i - 1);
        match iv.status {
          case Driving => d := d + Duration(iv);
          case OnDuty =>
          case OffDuty =>
            if Duration(iv) >= QUALIFYING_BREAK { break; }
          case SleeperBerth =>
            if Duration(iv) >= QUALIFYING_BREAK { break; }
        }
        i := i - 1;
      }
      AfterUnique(intervals, Breaks, i);
    }

    method OnDutyInDays(days: nat) returns (total: nat)
      ensures total == RollingOnDuty(intervals, days)
    {
      if intervals == [] {
        return 0;
      }
      var asOf := intervals[|intervals| - 1].end;
      var windowStart := asOf - days * DAY;
      total := 0;
      for i := 0 to |intervals|
        invariant total == OnDutyWithin(intervals[..i], windowStart, asOf)
      {
        var iv := intervals[i];
        assert intervals[..i + 1][..i] == intervals[..i];
        if !IsOnDuty(iv.status) { continue; }
        var start := Max(iv.start, windowStart);
        var end := Min(iv.end, asOf);
        if end > start {
          total := total + (end - start);
        }
      }
      assert intervals[..|intervals|] == intervals;
    }

    method FindCycleViolation() returns (v: Option<HosViolation>)
      ensures v == CycleViolation(intervals)
    {
      var in7 := OnDutyInDays(7);
      if in7 > SEVEN_DAY_LIMIT {
        return Some(CycleLimit(in7, SEVEN_DAY_LIMIT, 7));
      }
      var in8 := OnDutyInDays(8);
      if in8 > EIGHT_DAY_LIMIT {
        return Some(CycleLimit(in8, EIGHT_DAY_LIMIT, 8));
      }
      return None;
    }

    method Violations() returns (v: seq<HosViolation>)
      ensures v == LogViolations(intervals)
    {
      v := [];
      var driving, onDuty := ScanWindow();
      if driving > DRIVING_LIMIT_HOURS { v := v + [DrivingLimit(driving)]; }
      if onDuty > ON_DUTY_LIMIT_HOURS { v := v + [OnDutyLimit(onDuty)]; }
      assert v == WindowViolations(driving, onDuty);
      var sinceBreak := DrivingSinceBreak();
      if sinceBreak >= BREAK_AFTER { v := v + [BreakRequired(sinceBreak)]; }
      var cycle := FindCycleViolation();
      if cycle.Some? { v := v + [cycle.value]; }
    }
  }
}
