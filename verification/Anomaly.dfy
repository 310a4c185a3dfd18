/** Streaming anomaly detection: one pass over the posted transactions. */
module Anomaly {
  import opened Wrappers
  import J = Journal

  type TxId = nat

  datatype Transaction = Transaction(id: TxId, entries: seq<J.LedgerEntry>)

  /** `scale` is the number of the journal's subunits in one unit of currency. */
  datatype Config = Config(zThreshold: real, minSamples: nat, scale: nat)

  /** An outlier's score is its deviation over the square root of the variance. */
  datatype Anomaly =
    | Unbalanced(tx: TxId)
    | Duplicate(tx: TxId, first: TxId)
    | AmountOutlier(tx: TxId, amount: int, deviation: real, variance: real)

  /** Two transactions look alike when they have the same entries, in any order. */
  type Signature = multiset<J.LedgerEntry>

  predicate IsBalanced(tx: Transaction) { J.Debits(tx.entries) == J.Credits(tx.entries) }

  /** The amounts of all entries of both sides, in units of currency. */
  function ValueOf(entries: seq<J.LedgerEntry>, scale: nat): real
    requires scale > 0
  {
    if entries == [] then 0.0
    else ValueOf(entries[..|entries| - 1], scale) + entries[|entries| - 1].amount as real / scale as real
  }

  function TowardZero(x: real): int {
    if x >= 0.0 then x.Floor else 0 - (0.0 - x).Floor
  }

  /** Products by name, so that a proof multiplies out only where it says so. */
  function Times(x: real, y: real): real { x * y }

  function Square(x: real): real { Times(x, x) }

  /** The test on the score, without the square root. */
  predicate IsOutlier(deviation: real, variance: real, zThreshold: real) {
    variance > 0.0 && (zThreshold < 0.0 || Square(deviation) > Times(Square(zThreshold), variance))
  }

  // ----- The batch view: everything computed from the whole history -----

  function Total(samples: seq<real>): real {
    if samples == [] then 0.0 else Total(samples[..|samples| - 1]) + samples[|samples| - 1]
  }

  function SquaredDeviations(samples: seq<real>, centre: real): real {
    if samples == [] then 0.0
    else
      var x := samples[|samples| - 1];
      SquaredDeviations(samples[..|samples| - 1], centre) + Square(x - centre)
  }

  function Mean(samples: seq<real>): real
    requires samples != []
  {
    Total(samples) / |samples| as real
  }

  /** The population variance. */
  function Variance(samples: seq<real>): real
    requires samples != []
  {
    SquaredDeviations(samples, Mean(samples)) / |samples| as real
  }

  /** The values of the balanced transactions. */
  function Samples(history: seq<Transaction>, scale: nat): seq<real>
    requires scale > 0
  {
    if history == [] then []
    else
      var tx := history[|history| - 1];
      Samples(history[..|history| - 1], scale) + if IsBalanced(tx) then [ValueOf(tx.entries, scale)] else []
  }

  /** The first balanced transaction with these entries. */
  function FirstAlike(history: seq<Transaction>, sig: Signature): Option<TxId> {
    if history == [] then None
    else
      var tx := history[|history| - 1];
      match FirstAlike(history[..|history| - 1], sig)
      case Some(id) => Some(id)
      case None => if IsBalanced(tx) && multiset(tx.entries) == sig then Some(tx.id) else None
  }

  /** What one transaction is flagged for, given everything posted before it. */
  function FindingsFor(cfg: Config, before: seq<Transaction>, tx: Transaction): seq<Anomaly>
    requires cfg.scale > 0
  {
    if !IsBalanced(tx) then [Unbalanced(tx.id)]
    else
      var first := FirstAlike(before, multiset(tx.entries));
      var samples := Samples(before, cfg.scale);
      var value := ValueOf(tx.entries, cfg.scale);
      (if first.Some? && first.value != tx.id then [Duplicate(tx.id, first.value)] else [])
      + (if samples != [] && |samples| >= cfg.minSamples
          && IsOutlier(value - Mean(samples), Variance(samples), cfg.zThreshold)
         then [AmountOutlier(tx.id, TowardZero(value), value - Mean(samples), Variance(samples))] else [])
  }

  function Findings(cfg: Config, history: seq<Transaction>): seq<Anomaly>
    requires cfg.scale > 0
  {
    if history == [] then []
    else Findings(cfg, history[..|history| - 1]) + FindingsFor(cfg, history[..|history| - 1], history[|history| - 1])
  }

  // ----- The streaming projector -----

  datatype Moments = Moments(n: nat, mean: real, m2: real)

  datatype Projection = Projection(anomalies: seq<Anomaly>, moments: Moments, seen: map<Signature, TxId>)

  const EMPTY := Projection([], Moments(0, 0.0, 0.0), map[])

  function Welford(m: Moments, value: real): Moments {
    var n := m.n + 1;
    var delta := value - m.mean;
    var mean := m.mean + delta / n as real;
    Moments(n, mean, m.m2 + Times(delta, value - mean))
  }

  /**
   * The score of a value against the samples already counted. With none, the source divides by zero and
   * flags nothing.
   */
  function Scored(cfg: Config, m: Moments, tx: TxId, value: real): seq<Anomaly> {
    if m.n > 0 && m.n >= cfg.minSamples && IsOutlier(value - m.mean, m.m2 / m.n as real, cfg.zThreshold)
    then [AmountOutlier(tx, TowardZero(value), value - m.mean, m.m2 / m.n as real)]
    else []
  }

  function Projected(cfg: Config, p: Projection, tx: Transaction): Projection
    requires cfg.scale > 0
  {
    if !IsBalanced(tx) then p.(anomalies := p.anomalies + [Unbalanced(tx.id)])
    else
      var sig := multiset(tx.entries);
      var value := ValueOf(tx.entries, cfg.scale);
      var duplicates := if sig in p.seen && p.seen[sig] != tx.id then [Duplicate(tx.id, p.seen[sig])] else [];
      Projection(p.anomalies + (duplicates + Scored(cfg, p.moments, tx.id, value)),
                 Welford(p.moments, value),
                 if sig in p.seen then p.seen else p.seen[sig := tx.id])
  }

  class AnomalyProjector {
    const config: Config
    var anomalies: seq<Anomaly>
    var n: nat
    var mean: real
    var m2: real
    var seen: map<Signature, TxId>

    ghost function State(): Projection
      reads this
    {
      Projection(anomalies, Moments(n, mean, m2), seen)
    }

    constructor (config: Config)
      ensures this.config == config && State() == EMPTY
    {
      this.config := config;
      anomalies, n, mean, m2, seen := [], 0, 0.0, 0.0, map[];
    }

    method DetectAmount(tx: TxId, value: real)
      modifies this
      ensures State() == Projection(old(anomalies) + Scored(config, Moments(old(n), old(mean), old(m2)), tx, value),
                                    Welford(Moments(old(n), old(mean), old(m2)), value), old(seen))
    {
      if n >= config.minSamples && n > 0 {
        var variance := m2 / n as real;
        if IsOutlier(value - mean, variance, config.zThreshold) {
          anomalies := anomalies + [AmountOutlier(tx, TowardZero(value), value - mean, variance)];
        }
      }
      n := n + 1;
      var delta := value - mean;
      mean := mean + delta / n as real;
      var delta2 := value - mean;
      m2 := m2 + delta * delta2;
    }

    method Apply(tx: Transaction)
      requires config.scale > 0
      modifies this
      ensures State() == Projected(config, old(State()), tx)
    {
      if !IsBalanced(tx) {
        anomalies := anomalies + [Unbalanced(tx.id)];
        return;
      }
      var sig := multiset(tx.entries);
      if sig in seen {
        var first := seen[sig];
        if first != tx.id {
          anomalies := anomalies + [Duplicate(tx.id, first)];
        }
      } else {
        seen := seen[sig := tx.id];
      }
      var value := SumAmounts(tx.entries, config.scale);
      DetectAmount(tx.id, value);
    }
  }

  method SumAmounts(entries: seq<J.LedgerEntry>, scale: nat) returns (value: real)
    requires scale > 0
    ensures value == ValueOf(entries, scale)
  {
    value := 0.0;
    for i := 0 to |entries|
      invariant value == ValueOf(entries[..i], scale)
    {
      assert entries[..i + 1][..i] == entries[..i];
      value := value + entries[i].amount as real / scale as real;
    }
    assert entries[..|entries|] == entries;
  }

  // ----- Welford's update is exact -----

  function RunProjector(cfg: Config, history: seq<Transaction>): Projection
    requires cfg.scale > 0
  {
    if history == [] then EMPTY
    else Projected(cfg, RunProjector(cfg, history[..|history| - 1]), history[|history| - 1])
  }

  /** The moments are the count, the mean and the sum of squared deviations of the samples. */
  ghost predicate Exact(m: Moments, samples: seq<real>) {
    && m.n == |samples|
    && Times(m.n as real, m.mean) == Total(samples)
    && m.m2 == SquaredDeviations(samples, m.mean)
    && m.m2 >= 0.0
  }

  lemma {:induction false} SquareShifted(u: real, v: real, d: real)
    requires v == u - d
    ensures Square(v) == Square(u) - 2.0 * Times(d, u) + Square(d)
  {
  }

  lemma {:induction false} Distribute(a: real, x: real, y: real)
    ensures Times(a, x + y) == Times(a, x) + Times(a, y) == Times(x + y, a)
  {
  }

  lemma {:induction false} OneLess(k: real, fewer: real, x: real)
    requires fewer == k - 1.0
    ensures Times(fewer, x) == Times(k, x) - x
  {
  }

  /**
   * Squared deviations about a centre moved by `d`; `excess` is what the samples total beyond `k` times the
   * old centre.
   */
  lemma {:induction false} ShiftCentre(samples: seq<real>, a: real, d: real, k: real, excess: real)
    requires k == |samples| as real && excess == Total(samples) - Times(k, a)
    ensures SquaredDeviations(samples, a + d)
        == SquaredDeviations(samples, a) - 2.0 * Times(d, excess) + Times(k, Square(d))
  {
    if samples == [] {
      assert Times(k, a) == 0.0 && Times(d, excess) == 0.0 && Times(k, Square(d)) == 0.0;
    } else {
      var front, x := samples[..|samples| - 1], samples[|samples| - 1];
      var u, fewer := x - a, k - 1.0;
      OneLess(k, fewer, a);
      ShiftCentre(front, a, d, fewer, excess - u);
      SquareShifted(u, x - (a + d), d);
      Distribute(d, excess - u, u);
      OneLess(k, fewer, Square(d));
    }
  }

  /** The new mean moves by `d`, and lies `n * d` below the new sample. */
  lemma {:induction false} WelfordMean(m: Moments, value: real) returns (d: real)
    ensures var next := Welford(m, value);
      && next.mean == m.mean + d
      && value - next.mean == Times(m.n as real, d)
      && Times(next.n as real, next.mean) == Times(m.n as real, m.mean) + value
  {
    d := (value - m.mean) / (m.n + 1) as real;
    DivideBack(value - m.mean, (m.n + 1) as real);
    MeanStep(m.n as real, (m.n + 1) as real, m.mean, d, value);
  }

  lemma {:induction false} WelfordStep(m: Moments, samples: seq<real>, value: real)
    requires Exact(m, samples)
    ensures Exact(Welford(m, value), samples + [value])
  {
    var next := Welford(m, value);
    var d := WelfordMean(m, value);
    SamplesSnoc(samples, value, next.mean);
    ShiftCentre(samples, m.mean, d, m.n as real, 0.0);
    assert Times(d, 0.0) == 0.0;
    MomentStep(m.n as real, d, value - next.mean, value - m.mean);
  }

  lemma {:induction false} SamplesSnoc(samples: seq<real>, x: real, centre: real)
    ensures Total(samples + [x]) == Total(samples) + x
    ensures SquaredDeviations(samples + [x], centre) == SquaredDeviations(samples, centre) + Square(x - centre)
  {
    assert (samples + [x])[..|samples|] == samples;
  }

  lemma {:induction false} DivideBack(x: real, n: real)
    requires n > 0.0
    ensures Times(n, x / n) == x
  {
  }

  lemma {:induction false} MeanStep(k: real, next: real, mean: real, d: real, value: real)
    requires next == k + 1.0 && Times(next, d) == value - mean
    ensures Times(next, mean + d) == Times(k, mean) + value
    ensures value - (mean + d) == Times(k, d)
  {
    Distribute(d, k, 1.0);
    Distribute(mean, k, 1.0);
    Distribute(next, mean, d);
    assert Times(mean, 1.0) == mean && Times(d, 1.0) == d;
    assert Times(mean, k) == Times(k, mean) && Times(d, k) == Times(k, d);
  }

  lemma {:induction false} MomentStep(k: real, d: real, rest: real, delta: real)
    requires k >= 0.0 && rest == Times(k, d) && delta == rest + d
    ensures Times(delta, rest) == Times(k, Square(d)) + Square(rest)
    ensures Times(delta, rest) >= 0.0
  {
    Distribute(rest, rest, d);
    Reassociate(k, d);
    NonNegativeProduct(k, Square(d));
  }

  lemma {:induction false} Reassociate(k: real, d: real)
    ensures Times(Times(k, d), d) == Times(k, Square(d))
    ensures Square(d) >= 0.0 && Square(Times(k, d)) >= 0.0
  {
    SquareNonNegative(d);
    SquareNonNegative(Times(k, d));
  }

  lemma {:induction false} SquareNonNegative(x: real)
    ensures Square(x) >= 0.0
  {
  }

  lemma {:induction false} NonNegativeProduct(a: real, b: real)
    requires a >= 0.0 && b >= 0.0
    ensures Times(a, b) >= 0.0
    ensures a > 0.0 && b > 0.0 ==> Times(a, b) > 0.0
  {
  }

  // ----- One pass finds what the whole history shows -----

  /** What the projector holds after a history. */
  ghost predicate Tracks(cfg: Config, p: Projection, history: seq<Transaction>)
    requires cfg.scale > 0
  {
    && Exact(p.moments, Samples(history, cfg.scale))
    && (forall sig :: sig in p.seen <==> FirstAlike(history, sig).Some?)
    && (forall sig :: sig in p.seen ==> FirstAlike(history, sig) == Some(p.seen[sig]))
    && p.anomalies == Findings(cfg, history)
  }

  lemma {:induction false} ExactIsBatch(m: Moments, samples: seq<real>)
    requires Exact(m, samples)
    ensures samples != [] ==> m.mean == Mean(samples) && m.m2 / m.n as real == Variance(samples)
  {
    if samples != [] {
      assert m.mean == (m.n as real * m.mean) / m.n as real;
    }
  }

  /** A projector that tracks the history finds what the batch computation finds. */
  lemma {:induction false} SameFindings(cfg: Config, p: Projection, front: seq<Transaction>, tx: Transaction)
    requires cfg.scale > 0 && Tracks(cfg, p, front)
    ensures Projected(cfg, p, tx).anomalies == p.anomalies + FindingsFor(cfg, front, tx)
  {
    if IsBalanced(tx) { ExactIsBatch(p.moments, Samples(front, cfg.scale)); }
  }

  /**
   * After any stream of transactions the moments are exactly those of the balanced ones, and every
   * finding is the one a batch computation over all earlier transactions gives.
   */
  lemma {:induction false} StreamIsBatch(cfg: Config, history: seq<Transaction>)
    requires cfg.scale > 0
    ensures Tracks(cfg, RunProjector(cfg, history), history)
  {
    if history != [] {
      var front, tx := history[..|history| - 1], history[|history| - 1];
      var p := RunProjector(cfg, front);
      StreamIsBatch(cfg, front);
      if IsBalanced(tx) {
        assert Samples(history, cfg.scale) == Samples(front, cfg.scale) + [ValueOf(tx.entries, cfg.scale)];
        WelfordStep(p.moments, Samples(front, cfg.scale), ValueOf(tx.entries, cfg.scale));
      } else {
        assert Samples(history, cfg.scale) == Samples(front, cfg.scale);
      }
      SameFindings(cfg, p, front, tx);
    }
  }

  /** The test without the square root is the test on the score. */
  lemma {:induction false} OutlierIffScore(deviation: real, variance: real, unit: real, zThreshold: real)
    requires unit > 0.0 && Square(unit) == variance
    ensures IsOutlier(deviation, variance, zThreshold) <==> Size(deviation / unit) > zThreshold
  {
    var z := deviation / unit;
    DivideBack(deviation, unit);
    NonNegativeProduct(unit, unit);
    SquareOfProduct(unit, z);
    assert Square(Size(z)) == Square(z);
    if zThreshold >= 0.0 { SquaresOrdered(Size(z), zThreshold, variance); }
  }

  function Size(x: real): real { if x >= 0.0 then x else 0.0 - x }

  lemma {:induction false} SquareOfProduct(u: real, z: real)
    ensures Square(Times(u, z)) == Times(Square(z), Square(u))
  {
    assert (u * z) * (u * z) == (z * z) * (u * u);
  }

  lemma {:induction false} SquaresOrdered(a: real, b: real, scale: real)
    requires a >= 0.0 && b >= 0.0 && scale > 0.0
    ensures Times(Square(a), scale) > Times(Square(b), scale) <==> a > b
  {
    if a > b { StrictlyOrdered(b, a, scale); }
    if a < b { StrictlyOrdered(a, b, scale); }
  }

  lemma {:induction false} StrictlyOrdered(a: real, b: real, scale: real)
    requires 0.0 <= a < b && scale > 0.0
    ensures Times(Square(a), scale) < Times(Square(b), scale)
  {
    var difference := Times(b - a, a + b);
    NonNegativeProduct(b - a, a + b);
    DifferenceOfSquares(a, b);
    NonNegativeProduct(difference, scale);
    Distribute(scale, difference, Square(a));
    Distribute(scale, Square(a), 0.0);
  }

  lemma {:induction false} DifferenceOfSquares(a: real, b: real)
    ensures Times(b - a, a + b) + Square(a) == Square(b)
  {
  }

  /** The value scored counts both sides: twice the debits of a balanced transaction. */
  lemma {:induction false} ValueIsBothSides(entries: seq<J.LedgerEntry>, scale: nat)
    requires scale > 0
    ensures ValueOf(entries, scale) == (J.Debits(entries) + J.Credits(entries)) as real / scale as real
  {
    if entries != [] {
      var n := |entries| - 1;
      ValueIsBothSides(entries[..n], scale);
      SidesSnoc(entries[..n], entries[n]);
      assert entries[..n] + [entries[n]] == entries;
      DivideSum(J.Debits(entries[..n]) + J.Credits(entries[..n]), entries[n].amount, scale);
    }
  }

  lemma {:induction false} DivideSum(a: int, b: int, scale: nat)
    requires scale > 0
    ensures (a + b) as real / scale as real == a as real / scale as real + b as real / scale as real
  {
    assert (a + b) as real == a as real + b as real;
  }

  lemma {:induction false} SidesSnoc(entries: seq<J.LedgerEntry>, e: J.LedgerEntry)
    ensures J.Debits(entries + [e]) + J.Credits(entries + [e]) == J.Debits(entries) + J.Credits(entries) + e.amount
  {
    if entries != [] {
      SidesSnoc(entries[1..], e);
      assert (entries + [e])[1..] == entries[1..] + [e];
    } else {
      assert [e][1..] == [];
    }
  }

  /** The transaction at `j` is balanced, has these entries, and is the earliest that does. */
  ghost predicate EarliestAlike(history: seq<Transaction>, sig: Signature, j: nat) {
    && j < |history| && IsBalanced(history[j]) && multiset(history[j].entries) == sig
    && forall i :: 0 <= i < j ==> !(IsBalanced(history[i]) && multiset(history[i].entries) == sig)
  }

  /** Posting the same entries again under another id, in any order, is flagged with the id of the earliest. */
  lemma {:induction false} DoublePostFlagged(cfg: Config, history: seq<Transaction>, j: nat, again: Transaction)
    requires cfg.scale > 0 && EarliestAlike(history, multiset(again.entries), j) && IsBalanced(again)
    ensures again.id != history[j].id ==> Duplicate(again.id, history[j].id) in Findings(cfg, history + [again])
    ensures forall first ::
        Duplicate(again.id, first) in FindingsFor(cfg, history, again) <==> first == history[j].id != again.id
  {
    EarliestIsFirst(history, multiset(again.entries), j);
    assert (history + [again])[..|history|] == history;
  }

  lemma {:induction false} EarliestIsFirst(history: seq<Transaction>, sig: Signature, j: nat)
    requires EarliestAlike(history, sig, j)
    ensures FirstAlike(history, sig) == Some(history[j].id)
  {
    var n := |history| - 1;
    if j < n {
      assert EarliestAlike(history[..n], sig, j);
      EarliestIsFirst(history[..n], sig, j);
    } else {
      NoneAlike(history[..n], sig);
    }
  }

  /** Without an earlier alike transaction nothing is flagged as a duplicate. */
  lemma {:induction false} NoneAlike(history: seq<Transaction>, sig: Signature)
    requires forall i :: 0 <= i < |history| ==> !(IsBalanced(history[i]) && multiset(history[i].entries) == sig)
    ensures FirstAlike(history, sig) == None
  {
    if history != [] { NoneAlike(history[..|history| - 1], sig); }
  }
}
