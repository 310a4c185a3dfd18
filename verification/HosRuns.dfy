/** The clock against the log, and the rolling window against the time it measures. */
module HosRuns {
  import opened Wrappers
  import opened Numbers
  import opened Hos
  import opened Sets

  // ----- The clock refines the backward scan -----

  /** One driver, followed by a clock and by a log. */
  datatype Driver = Driver(clock: ClockState, record: LogState)

  /** An interval is offered to both. One that ends before it starts is no duty period. */
  function Offer(d: Driver, iv: DutyInterval): Driver {
    Driver(if iv.end < iv.start then d.clock else Applied(d.clock, DutyPeriod(iv.status, iv.end - iv.start)),
           match AppendOutcome(d.record, iv) case Ok(s) => s case Err(_) => d.record)
  }

  function OfferAll(d: Driver, ivs: seq<DutyInterval>): Driver {
    if ivs == [] then d else Offer(OfferAll(d, ivs[..|ivs| - 1]), ivs[|ivs| - 1])
  }

  const START := Driver(FRESH_CLOCK, FRESH_LOG)

  /** The clock holds what the scan of the log finds. */
  ghost predicate InStep(d: Driver) {
    && d.clock.status == d.record.status
    && d.clock.driving == DrivingTime(Window(d.record.log))
    && d.clock.onDuty == OnDutyTime(Window(d.record.log))
  }

  /** Every interval kept is well formed, and each status follows legally from the one before. */
  ghost predicate LegalLog(s: LogState) {
    && (forall i :: 0 <= i < |s.log| ==> s.log[i].start <= s.log[i].end)
    && (forall i :: 0 <= i < |s.log| ==> CanTransition(StatusBefore(s.log, i), s.log[i].status))
    && s.status == StatusBefore(s.log, |s.log|)
  }

  function StatusBefore(log: Log, i: nat): HosStatus
    requires i <= |log|
  {
    if i == 0 then OffDuty else log[i - 1].status
  }

  lemma {:induction false} WindowSnoc(log: Log, iv: DutyInterval)
    ensures Window(log + [iv]) == if ResetsAt(iv) then [] else Window(log) + [iv]
  {
    assert (log + [iv])[..|log|] == log;
  }

  lemma {:induction false} TimesSnoc(log: Log, iv: DutyInterval)
    ensures DrivingTime(log + [iv]) == DrivingTime(log) + if iv.status == Driving then Duration(iv) else 0
    ensures OnDutyTime(log + [iv]) == OnDutyTime(log) + if IsOnDuty(iv.status) then Duration(iv) else 0
  {
    assert (log + [iv])[..|log|] == log;
  }

  lemma {:induction false} WindowTimes(log: Log, iv: DutyInterval)
    ensures var next := Window(log + [iv]);
      if ResetsAt(iv) then DrivingTime(next) == 0 == OnDutyTime(next)
      else && DrivingTime(next) == DrivingTime(Window(log)) + (if iv.status == Driving then Duration(iv) else 0)
           && OnDutyTime(next) == OnDutyTime(Window(log)) + (if IsOnDuty(iv.status) then Duration(iv) else 0)
  {
    WindowSnoc(log, iv);
    TimesSnoc(Window(log), iv);
  }

  lemma {:induction false} OfferInStep(d: Driver, iv: DutyInterval)
    requires InStep(d)
    ensures InStep(Offer(d, iv))
  {
    if AppendOutcome(d.record, iv).Ok? {
      WindowTimes(d.record.log, iv);
      assert Duration(iv) == iv.end - iv.start;
    }
  }

  lemma {:induction false} OfferLegal(d: Driver, iv: DutyInterval)
    requires LegalLog(d.record)
    ensures LegalLog(Offer(d, iv).record)
  {
    if AppendOutcome(d.record, iv).Ok? {
      var old_, log := d.record.log, d.record.log + [iv];
      forall i | 0 <= i < |log| ensures CanTransition(StatusBefore(log, i), log[i].status) {
        if i < |old_| { assert StatusBefore(log, i) == StatusBefore(old_, i); }
      }
    }
  }

  /** Whatever is offered, accepted or refused, the two views stay in step. */
  lemma {:induction false} ClockRefinesLog(ivs: seq<DutyInterval>)
    ensures var d := OfferAll(START, ivs); InStep(d) && LegalLog(d.record)
  {
    if ivs != [] {
      ClockRefinesLog(ivs[..|ivs| - 1]);
      var before := OfferAll(START, ivs[..|ivs| - 1]);
      OfferInStep(before, ivs[|ivs| - 1]);
      OfferLegal(before, ivs[|ivs| - 1]);
    }
  }

  /** The log accepts an interval exactly when it is well formed and the clock accepts its period. */
  lemma {:induction false} AcceptTogether(ivs: seq<DutyInterval>, iv: DutyInterval)
    ensures var d := OfferAll(START, ivs);
      AppendOutcome(d.record, iv).Ok? <==> iv.start <= iv.end && CanTransition(d.clock.status, iv.status)
  {
    ClockRefinesLog(ivs);
  }

  /** A breach of the 11-hour or 14-hour limit. */
  predicate IsWindowLimit(v: HosViolation) { v.DrivingLimit? || v.OnDutyLimit? }

  /** A log reports the breaches of its window, and then others. */
  lemma {:induction false} WindowReportedFirst(log: Log)
    ensures var window := WindowViolations(DrivingTime(Window(log)), OnDutyTime(Window(log)));
      && window <= LogViolations(log)
      && (forall v :: v in window ==> IsWindowLimit(v))
      && (forall v :: v in LogViolations(log)[|window|..] ==> !IsWindowLimit(v))
  {
    var window := WindowViolations(DrivingTime(Window(log)), OnDutyTime(Window(log)));
    var breaks :=
        if DrivingTime(SinceBreak(log)) >= BREAK_AFTER then [BreakRequired(DrivingTime(SinceBreak(log)))] else [];
    var cycle := if CycleViolation(log).Some? then [CycleViolation(log).value] else [];
    assert LogViolations(log) == window + (breaks + cycle);
  }

  /** The clock's violations are exactly the log's 11-hour and 14-hour ones, reported first. */
  lemma {:induction false} SameWindowViolations(ivs: seq<DutyInterval>)
    ensures var d := OfferAll(START, ivs);
      var onClock := WindowViolations(d.clock.driving, d.clock.onDuty);
      var onLog := LogViolations(d.record.log);
      && onClock <= onLog
      && (forall v :: v in onClock ==> IsWindowLimit(v))
      && (forall v :: v in onLog[|onClock|..] ==> !IsWindowLimit(v))
  {
    ClockRefinesLog(ivs);
    WindowReportedFirst(OfferAll(START, ivs).record.log);
  }

  // ----- The break rule within the window -----

  lemma {:induction false} SuffixTime(log: Log, a: nat, b: nat)
    requires a <= b <= |log|
    ensures DrivingTime(log[b..]) <= DrivingTime(log[a..]) && OnDutyTime(log[b..]) <= OnDutyTime(log[a..])
  {
    assert log[a..] == log[a..b] + log[b..];
    TimeSplit(log[a..b], log[b..]);
  }

  lemma {:induction false} DrivingIsOnDuty(log: Log)
    ensures DrivingTime(log) <= OnDutyTime(log)
  {
    if log != [] { DrivingIsOnDuty(log[..|log| - 1]); }
  }

  /** For every log: driving since the last break is part of the driving, and of the work, in the window. */
  lemma {:induction false} BreakWithinWindow(log: Log)
    ensures DrivingTime(SinceBreak(log)) <= DrivingTime(Window(log)) <= OnDutyTime(Window(log))
  {
    var w, b := After(log, ResetsAt), After(log, Breaks);
    assert w > 0 ==> Breaks(log[w - 1]);
    SuffixTime(log, w, b);
    DrivingIsOnDuty(Window(log));
  }

  // ----- The rolling window as a measure -----

  predicate OnDutyAt(iv: DutyInterval, t: int) { IsOnDuty(iv.status) && iv.start <= t < iv.end }

  /** The instants of lo..hi. */
  ghost function Range(lo: int, hi: int): (r: set<int>)
    ensures |r| == Max(0, hi - lo) && forall t :: t in r <==> lo <= t < hi
    decreases Max(0, hi - lo)
  {
    if lo < hi then Range(lo, hi - 1) + {hi - 1} else {}
  }

  /** The instants of lo..hi that some on-duty interval covers. */
  ghost function Worked(log: Log, lo: int, hi: int): set<int> {
    set t | t in Range(lo, hi) && exists i :: 0 <= i < |log| && OnDutyAt(log[i], t)
  }

  ghost function WorkedBy(iv: DutyInterval, lo: int, hi: int): set<int> {
    set t | t in Range(lo, hi) && OnDutyAt(iv, t)
  }


  lemma {:induction false} WorkedBySize(iv: DutyInterval, lo: int, hi: int)
    ensures |WorkedBy(iv, lo, hi)| == if IsOnDuty(iv.status) then Clipped(iv, lo, hi) else 0
  {
    if IsOnDuty(iv.status) {
      var from, to := Max(iv.start, lo), Min(iv.end, hi);
      assert WorkedBy(iv, lo, hi) == Range(from, to);
    } else {
      assert WorkedBy(iv, lo, hi) == {};
    }
  }

  /** No two on-duty intervals share an instant of lo..hi. */
  ghost predicate Disjoint(log: Log, lo: int, hi: int) {
    forall i, j :: 0 <= i < j < |log| ==> WorkedBy(log[i], lo, hi) !! WorkedBy(log[j], lo, hi)
  }

  lemma {:induction false} UnionSize<T>(a: set<T>, b: set<T>)
    ensures |a + b| <= |a| + |b| && (|a + b| == |a| + |b| <==> a !! b)
  {
    assert |a + b| + |a * b| == |a| + |b|;
    if |a + b| == |a| + |b| {
      assert a * b == {};
      assert forall x :: x in a && x in b ==> x in a * b;
    }
  }

  /**
   * For every log the sum counts at least the time worked, and it counts exactly that time when,
   * and only when, no two on-duty intervals overlap in the window.
   */
  lemma {:induction false} SumMeasuresWorkIff(log: Log, lo: int, hi: int)
    ensures |Worked(log, lo, hi)| <= OnDutyWithin(log, lo, hi)
    ensures |Worked(log, lo, hi)| == OnDutyWithin(log, lo, hi) <==> Disjoint(log, lo, hi)
  {
    if log == [] {
      assert Worked(log, lo, hi) == {};
    } else {
      var n := |log| - 1;
      var front, last := Worked(log[..n], lo, hi), WorkedBy(log[n], lo, hi);
      SumMeasuresWorkIff(log[..n], lo, hi);
      WorkedBySize(log[n], lo, hi);
      WorkedSnoc(log, lo, hi);
      UnionSize(front, last);
      DisjointSnoc(log, lo, hi);
    }
  }

  lemma {:induction false} WorkedSnoc(log: Log, lo: int, hi: int)
    requires log != []
    ensures Worked(log, lo, hi) == Worked(log[..|log| - 1], lo, hi) + WorkedBy(log[|log| - 1], lo, hi)
  {
    var n := |log| - 1;
    forall t | t in Worked(log, lo, hi) ensures t in Worked(log[..n], lo, hi) + WorkedBy(log[n], lo, hi) {
      var i :| 0 <= i < |log| && OnDutyAt(log[i], t);
      if i < n { assert OnDutyAt(log[..n][i], t); }
    }
    forall t | t in Worked(log[..n], lo, hi) ensures t in Worked(log, lo, hi) {
      var i :| 0 <= i < n && OnDutyAt(log[..n][i], t);
      assert OnDutyAt(log[i], t);
    }
  }

  lemma {:induction false} DisjointSnoc(log: Log, lo: int, hi: int)
    requires log != []
    ensures Disjoint(log, lo, hi) <==>
      Disjoint(log[..|log| - 1], lo, hi) && Worked(log[..|log| - 1], lo, hi) !! WorkedBy(log[|log| - 1], lo, hi)
  {
    var n := |log| - 1;
    var front, last := Worked(log[..n], lo, hi), WorkedBy(log[n], lo, hi);
    if Disjoint(log, lo, hi) {
      forall t | t in front ensures t !in last {
        var i :| 0 <= i < n && OnDutyAt(log[..n][i], t);
        assert t in WorkedBy(log[i], lo, hi);
      }
      forall i, j | 0 <= i < j < n ensures WorkedBy(log[..n][i], lo, hi) !! WorkedBy(log[..n][j], lo, hi) {
        assert WorkedBy(log[i], lo, hi) !! WorkedBy(log[j], lo, hi);
      }
    }
    if Disjoint(log[..n], lo, hi) && front !! last {
      forall i, j | 0 <= i < j < |log| ensures WorkedBy(log[i], lo, hi) !! WorkedBy(log[j], lo, hi) {
        if j < n {
          assert WorkedBy(log[..n][i], lo, hi) !! WorkedBy(log[..n][j], lo, hi);
        } else {
          forall t | t in WorkedBy(log[i], lo, hi) ensures t !in last {
            assert OnDutyAt(log[..n][i], t);
            assert t in front;
          }
        }
      }
    }
  }

  /** The intervals follow one another in time. */
  ghost predicate Chronological(log: Log) {
    && (forall i :: 0 <= i < |log| ==> log[i].start <= log[i].end)
    && (forall i, j :: 0 <= i < j < |log| ==> log[i].end <= log[j].start)
  }

  /** A log kept in order measures the time worked in the last days, so at most those days. */
  lemma {:induction false} RollingWindowMeasures(log: Log, days: nat)
    requires Chronological(log) && log != []
    ensures var asOf := log[|log| - 1].end;
      && RollingOnDuty(log, days) == |Worked(log, asOf - days * DAY, asOf)|
      && RollingOnDuty(log, days) <= days * DAY
  {
    var asOf := log[|log| - 1].end;
    var lo := asOf - days * DAY;
    SumMeasuresWorkIff(log, lo, asOf);
    SubsetSize(Worked(log, lo, asOf), Range(lo, asOf));
  }

  lemma {:induction false} WiderCountsMore(log: Log, lo: int, wider: int, hi: int)
    requires wider <= lo
    ensures OnDutyWithin(log, lo, hi) <= OnDutyWithin(log, wider, hi)
  {
    if log != [] { WiderCountsMore(log[..|log| - 1], lo, wider, hi); }
  }

  /** More days never count less, in any log. */
  lemma {:induction false} RollingMonotone(log: Log, fewer: nat, more: nat)
    requires fewer <= more
    ensures RollingOnDuty(log, fewer) <= RollingOnDuty(log, more)
  {
    if log != [] {
      var asOf := log[|log| - 1].end;
      assert fewer * DAY <= more * DAY;
      WiderCountsMore(log, asOf - fewer * DAY, asOf - more * DAY, asOf);
    }
  }

  /** The cycle is reported exactly when more than 60 hours were worked in 7 days or 70 in 8. */
  lemma {:induction false} CycleReportedIff(log: Log)
    requires Chronological(log) && log != []
    ensures var asOf := log[|log| - 1].end;
      CycleViolation(log).Some? <==>
        |Worked(log, asOf - 7 * DAY, asOf)| > SEVEN_DAY_LIMIT || |Worked(log, asOf - 8 * DAY, asOf)| > EIGHT_DAY_LIMIT
  {
    RollingWindowMeasures(log, 7);
    RollingWindowMeasures(log, 8);
  }

  /** The log accepts intervals that overlap, and then counts the shared time twice. */
  lemma {:induction false} OverlapCountsTwice()
    ensures var ivs := [DutyInterval(OnDuty, 0, 7 * DAY), DutyInterval(Driving, 0, 7 * DAY)];
      var log := OfferAll(START, ivs).record.log;
      log == ivs && RollingOnDuty(log, 7) == 14 * DAY
  {
    var a, b := DutyInterval(OnDuty, 0, 7 * DAY), DutyInterval(Driving, 0, 7 * DAY);
    assert [a, b][..1] == [a] && [a][..0] == [];
    assert OfferAll(START, [a]) == Offer(START, a);
    assert [] + [a] == [a] && [a] + [b] == [a, b];
    assert OnDutyWithin([a], 0, 7 * DAY) == 7 * DAY;
  }

  /** In order, the work counted in the window is no more than the time since the window opened. */
  lemma {:induction false} WindowWithinElapsed(log: Log)
    requires Chronological(log) && Window(log) != []
    ensures OnDutyTime(Window(log)) <= log[|log| - 1].end - Window(log)[0].start
  {
    var k := After(log, ResetsAt);
    OnDutyWithinSpan(Window(log));
  }

  lemma {:induction false} OnDutyWithinSpan(log: Log)
    requires Chronological(log) && log != []
    ensures OnDutyTime(log) <= log[|log| - 1].end - log[0].start
  {
    var n := |log| - 1;
    if n == 0 {
      assert log[..0] == [];
    } else {
      OnDutyWithinSpan(log[..n]);
    }
  }
}
