/**
 * The three KPI averages at the top of the dashboard: the mean loyalty score,
 * the mean 12-month customer lifetime value and the mean churn risk, each the
 * JavaScript fold `records.reduce((acc, r) => acc + parseFloat(r.f || 0), 0)`
 * divided by the number of records.
 */
module Kpi {
  import opened JsNumber
  import opened NumberSums
  import opened Records

  /** The value each record contributes: `parseFloat(r.f || 0)`. */
  function Column(rs: Dataset, f: string): (xs: seq<Num>)
    ensures |xs| == |rs|
    ensures forall i :: 0 <= i < |rs| ==> xs[i] == NumberFieldOrZero(rs[i], f)
  {
    seq(|rs|, i requires 0 <= i < |rs| => NumberFieldOrZero(rs[i], f))
  }

  /** The mean shown as a KPI; the dashboard only computes it for a non-empty dataset. */
  function FieldAverage(rs: Dataset, f: string): Num
    requires |rs| > 0
  {
    DivBy(SumLeft(Column(rs, f)), |rs|)
  }

  /**
   * When every cell reads as a finite number, the KPI average is the sum of the
   * values over ALL records divided by the number of records.
   */
  lemma AverageIsMean(rs: Dataset, f: string)
    requires |rs| > 0 && AllFinite(Column(rs, f))
    ensures FieldAverage(rs, f) == Fin(RealSum(Column(rs, f)) / |rs| as real)
  {
    SumLeftExact(Column(rs, f));
  }

  /**
   * A record whose cell is missing or empty adds nothing to the sum but one to
   * the denominator.
   */
  lemma MissingCountsAsZero(rs: Dataset, r: Record, f: string)
    requires AllFinite(Column(rs, f)) && !HasText(r, f)
    ensures AllFinite(Column(rs + [r], f))
    ensures RealSum(Column(rs + [r], f)) == RealSum(Column(rs, f))
    ensures FieldAverage(rs + [r], f) == Fin(RealSum(Column(rs, f)) / (|rs| + 1) as real)
  {
    var xs := Column(rs, f);
    assert Column(rs + [r], f) == xs + [Fin(0.0)];
    RealSumSnoc(xs, Fin(0.0));
    AverageIsMean(rs + [r], f);
  }

  /**
   * A non-empty cell that is not a number makes the KPI NaN: the `|| 0` only
   * replaces missing and empty cells.
   */
  lemma NaNPoisonsAverage(rs: Dataset, f: string, k: nat)
    requires k < |rs| && NumberFieldOrZero(rs[k], f) == NaN
    ensures FieldAverage(rs, f) == NaN
  {
    SumLeftNaN(Column(rs, f), k);
  }

  /** The average of values that all lie in [lo, hi] lies in [lo, hi]. */
  lemma AverageBounds(rs: Dataset, f: string, lo: real, hi: real)
    requires |rs| > 0 && AllFinite(Column(rs, f))
    requires forall i :: 0 <= i < |rs| ==> lo <= Column(rs, f)[i].v <= hi
    ensures FieldAverage(rs, f).Fin?
    ensures lo <= FieldAverage(rs, f).v <= hi
  {
    AverageIsMean(rs, f);
    MeanBounds(Column(rs, f), lo, hi);
  }
}
