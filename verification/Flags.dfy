/** What a transaction is flagged for, stated on the entries and on sums over the earlier transactions. */
module Flags {
  import opened Sums
  import opened Wrappers
  import opened Posts
  import opened Anomaly
  import J = Journal

  /** As much is debited as credited. */
  predicate Even(tx: Transaction) { Sum(DebitAmounts(tx.entries)) == Sum(CreditAmounts(tx.entries)) }

  /** What the entries of both sides come to, in units of currency. */
  function Volume(tx: Transaction, scale: nat): real
    requires scale > 0
  {
    (Sum(DebitAmounts(tx.entries)) + Sum(CreditAmounts(tx.entries))) as real / scale as real
  }

  lemma {:induction false} EvenIsBalanced(tx: Transaction)
    ensures Even(tx) <==> IsBalanced(tx)
    ensures forall scale: nat :: scale > 0 ==> ValueOf(tx.entries, scale) == Volume(tx, scale)
  {
    SidesAreSums(tx.entries);
    forall scale: nat | scale > 0 ensures ValueOf(tx.entries, scale) == Volume(tx, scale) {
      ValueIsBothSides(tx.entries, scale);
    }
  }

  /** The samples are the volumes of the balanced transactions, in the order posted. */
  lemma {:induction false} SamplesGrow(history: seq<Transaction>, tx: Transaction, scale: nat)
    requires scale > 0
    ensures Samples([], scale) == []
    ensures Samples(history + [tx], scale) == Samples(history, scale) + if Even(tx) then [Volume(tx, scale)] else []
  {
    EvenIsBalanced(tx);
    assert (history + [tx])[..|history|] == history;
  }

  /** The mean is the samples' total over their number, the variance that of the squares of the deviations from it. */
  lemma {:induction false} MomentsOfSamples(samples: seq<real>, x: real)
    ensures Mean([x]) == x && Variance([x]) == 0.0
    ensures samples != [] ==>
        var n, all := |samples| as real, samples + [x];
        && (n + 1.0) * Mean(all) == n * Mean(samples) + x
        && (n + 1.0) * Variance(all) == n * Variance(samples) + (x - Mean(samples)) * (x - Mean(all))
  {
    assert [x][..0] == [] && Total([x]) == x;
    assert Mean([x]) == x && SquaredDeviations([x], x) == Times(0.0, 0.0);
    if samples != [] {
      var m := Moments(|samples|, Mean(samples), SquaredDeviations(samples, Mean(samples)));
      BatchIsExact(samples);
      WelfordStep(m, samples, x);
      ExactIsBatch(Welford(m, x), samples + [x]);
      ExactIsBatch(m, samples);
      DivideBack(Total(samples), |samples| as real);
      DivideBack(m.m2, |samples| as real);
      DivideBack(Welford(m, x).m2, (|samples| + 1) as real);
    }
  }

  lemma {:induction false} BatchIsExact(samples: seq<real>)
    requires samples != []
    ensures Exact(Moments(|samples|, Mean(samples), SquaredDeviations(samples, Mean(samples))), samples)
  {
    DivideBack(Total(samples), |samples| as real);
    SquaresNonNegative(samples, Mean(samples));
  }

  lemma {:induction false} SquaresNonNegative(samples: seq<real>, centre: real)
    ensures SquaredDeviations(samples, centre) >= 0.0
  {
    if samples != [] {
      SquaresNonNegative(samples[..|samples| - 1], centre);
      SquareNonNegative(samples[|samples| - 1] - centre);
    }
  }

  /** The amount reported is the value without its fraction. */
  ghost predicate WithoutFraction(amount: int, value: real) {
    if value >= 0.0 then amount as real <= value < amount as real + 1.0
    else amount as real - 1.0 < value <= amount as real
  }

  /** There are enough samples, they vary, and the value lies more than the threshold's deviations away. */
  ghost predicate FarOff(cfg: Config, samples: seq<real>, value: real, deviation: real, variance: real) {
    && |samples| >= 1 && |samples| >= cfg.minSamples
    && deviation == value - Mean(samples) && variance == Variance(samples) && variance > 0.0
    && (cfg.zThreshold >= 0.0 ==> deviation * deviation > cfg.zThreshold * cfg.zThreshold * variance)
  }

  /** What an unbalanced transaction is flagged for, and what can be found in a balanced one. */
  lemma {:induction false} FlaggedIff(cfg: Config, before: seq<Transaction>, tx: Transaction)
    requires cfg.scale > 0
    ensures !Even(tx) ==> FindingsFor(cfg, before, tx) == [Unbalanced(tx.id)]
    ensures Even(tx) ==> forall t :: Unbalanced(t) !in FindingsFor(cfg, before, tx)
    ensures forall t, amount, deviation, variance ::
        AmountOutlier(t, amount, deviation, variance) in FindingsFor(cfg, before, tx)
        <==> Even(tx) && t == tx.id && WithoutFraction(amount, Volume(tx, cfg.scale))
             && FarOff(cfg, Samples(before, cfg.scale), Volume(tx, cfg.scale), deviation, variance)
  {
    EvenIsBalanced(tx);
    var value := ValueOf(tx.entries, cfg.scale);
    forall amount ensures WithoutFraction(amount, value) <==> amount == TowardZero(value) {}
    if Even(tx) {
      var samples := Samples(before, cfg.scale);
      if samples != [] {
        var deviation, variance := value - Mean(samples), Variance(samples);
        SameTest(deviation, variance, cfg.zThreshold);
      }
    }
  }

  lemma {:induction false} SameTest(deviation: real, variance: real, z: real)
    ensures IsOutlier(deviation, variance, z)
       <==> variance > 0.0 && (z >= 0.0 ==> deviation * deviation > z * z * variance)
  {
  }

  /** A balanced transaction is flagged at most once as a duplicate and once as an outlier, in this order. */
  lemma {:induction false} FlagsInOrder(cfg: Config, before: seq<Transaction>, tx: Transaction)
    requires cfg.scale > 0
    ensures var found := FindingsFor(cfg, before, tx);
      && |found| <= 2 && (forall i :: 0 <= i < |found| ==> found[i].tx == tx.id)
      && (|found| == 2 ==> found[0].Duplicate? && found[1].AmountOutlier?)
  {
  }

  /** The earliest balanced transaction before with the same entries, in any order. */
  ghost predicate Earliest(before: seq<Transaction>, entries: seq<J.LedgerEntry>, j: nat) {
    && j < |before| && Even(before[j]) && multiset(before[j].entries) == multiset(entries)
    && forall i :: 0 <= i < j ==> !(Even(before[i]) && multiset(before[i].entries) == multiset(entries))
  }

  lemma {:induction false} EarliestIsAlike(before: seq<Transaction>, entries: seq<J.LedgerEntry>, j: nat)
    ensures Earliest(before, entries, j) <==> EarliestAlike(before, multiset(entries), j)
  {
    forall i | 0 <= i < |before| ensures Even(before[i]) <==> IsBalanced(before[i]) { EvenIsBalanced(before[i]); }
  }

  lemma {:induction false} SomeEarliest(before: seq<Transaction>, entries: seq<J.LedgerEntry>, n: nat)
    requires n < |before| && Even(before[n]) && multiset(before[n].entries) == multiset(entries)
    ensures exists j: nat :: Earliest(before, entries, j)
  {
    if !Earliest(before, entries, n) {
      var i :| 0 <= i < n && Even(before[i]) && multiset(before[i].entries) == multiset(entries);
      SomeEarliest(before, entries, i);
    }
  }

  /** A balanced transaction is flagged as a duplicate of the earliest with its entries, unless that has its own id. */
  lemma {:induction false} DuplicateIff(cfg: Config, before: seq<Transaction>, tx: Transaction, first: TxId)
    requires cfg.scale > 0
    ensures Duplicate(tx.id, first) in FindingsFor(cfg, before, tx)
       <==> Even(tx) && first != tx.id && exists j: nat :: Earliest(before, tx.entries, j) && before[j].id == first
  {
    EvenIsBalanced(tx);
    if exists j: nat :: Earliest(before, tx.entries, j) {
      var j: nat :| Earliest(before, tx.entries, j);
      EarliestIsAlike(before, tx.entries, j);
      EarliestIsFirst(before, multiset(tx.entries), j);
      forall k: nat | Earliest(before, tx.entries, k) ensures k == j {}
    } else {
      forall i | 0 <= i < |before|
        ensures !(IsBalanced(before[i]) && multiset(before[i].entries) == multiset(tx.entries))
      {
        EvenIsBalanced(before[i]);
        if IsBalanced(before[i]) && multiset(before[i].entries) == multiset(tx.entries) {
          SomeEarliest(before, tx.entries, i);
        }
      }
      NoneAlike(before, multiset(tx.entries));
    }
  }
}
