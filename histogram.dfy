/**
 * The churn-risk histogram: ten bins of width 0.1 over [0, 1], each counting
 * the churn records whose `churn_risk_predicted` reads as a number in that bin.
 * Only numbers in [0, 1] are counted; 1.0 itself falls in the last bin.
 */
module Histogram {
  import opened JsNumber
  import opened Records

  const BinCount: nat := 10

  /** `Math.min(Math.floor(v * 10), 9)`: bins are closed below and open above, except the last, which is closed. */
  function BinIndex(v: real): (b: nat)
    requires 0.0 <= v <= 1.0
    ensures b < BinCount
    ensures b as real <= 10.0 * v
    ensures 10.0 * v < (b + 1) as real || b == BinCount - 1
  {
    var f := (v * 10.0).Floor;
    if f < 9 then f else 9
  }

  /** The edges of bin `b`: [b/10, (b+1)/10), except [0.9, 1] for the last. */
  predicate WithinBin(v: real, b: nat) {
    b < BinCount && b as real <= 10.0 * v && (10.0 * v < (b + 1) as real || (b == BinCount - 1 && v <= 1.0))
  }

  /** The bins partition [0, 1]: a value lies within exactly the bin BinIndex names. */
  lemma BinIndexUnique(v: real, b: nat)
    requires 0.0 <= v <= 1.0
    ensures WithinBin(v, b) <==> b == BinIndex(v)
  {
  }

  /** `parseFloat(r.churn_risk_predicted)`, with no `|| 0`: a missing or empty cell is NaN. */
  function Risk(r: Record): Num {
    NumberField(r, ChurnRisk)
  }

  /** The churn risk of every record, in order. */
  function Risks(rs: Dataset): (xs: seq<Num>)
    ensures |xs| == |rs|
    ensures forall k :: 0 <= k < |rs| ==> xs[k] == Risk(rs[k])
  {
    seq(|rs|, k requires 0 <= k < |rs| => Risk(rs[k]))
  }

  /** A value is counted, in bin `b`. */
  predicate InBin(x: Num, b: nat) {
    InUnitInterval(x) && BinIndex(x.v) == b
  }

  function Zeros(): (z: seq<nat>)
    ensures |z| == BinCount && forall b :: 0 <= b < BinCount ==> z[b] == 0
  {
    seq(BinCount, _ => 0)
  }

  /** One step of the `forEach`: a value in [0, 1] adds one to its own bin and leaves every other bin alone. */
  function AddValue(bins: seq<nat>, x: Num): (next: seq<nat>)
    requires |bins| == BinCount
    ensures |next| == BinCount
    ensures forall b :: 0 <= b < BinCount ==> next[b] == bins[b] + (if InBin(x, b) then 1 else 0)
  {
    if InUnitInterval(x) then
      var b := BinIndex(x.v);
      bins[b := bins[b] + 1]
    else bins
  }

  /** Ten empty bins with every value added in order. */
  function Histogram(xs: seq<Num>): (h: seq<nat>)
    ensures |h| == BinCount
  {
    if xs == [] then Zeros() else AddValue(Histogram(xs[..|xs| - 1]), xs[|xs| - 1])
  }

  /** The histogram of the churn dataset. */
  function HistogramOf(rs: Dataset): (h: seq<nat>)
    ensures |h| == BinCount
  {
    Histogram(Risks(rs))
  }

  /** The positions of the values that land in bin `b`. */
  function BinMembers(xs: seq<Num>, b: nat): set<nat> {
    set k | 0 <= k < |xs| && InBin(xs[k], b)
  }

  /** The positions of the values that are numbers in [0, 1]. */
  function Counted(xs: seq<Num>): set<nat> {
    set k | 0 <= k < |xs| && InUnitInterval(xs[k])
  }

  /** Each bin holds exactly the number of values that fall within its edges. */
  lemma {:induction false} HistogramCounts(xs: seq<Num>, b: nat)
    requires b < BinCount
    ensures Histogram(xs)[b] == |BinMembers(xs, b)|
  {
    if xs != [] {
      var n := |xs| - 1;
      var init := xs[..n];
      HistogramCounts(init, b);
      assert forall k :: 0 <= k < n ==> init[k] == xs[k];
      if InBin(xs[n], b) {
        assert BinMembers(xs, b) == BinMembers(init, b) + {n};
      } else {
        assert BinMembers(xs, b) == BinMembers(init, b);
      }
    }
  }

  function Sum(s: seq<nat>): nat {
    if s == [] then 0 else s[0] + Sum(s[1..])
  }

  lemma {:induction false} SumIncrement(s: seq<nat>, b: nat)
    requires b < |s|
    ensures Sum(s[b := s[b] + 1]) == Sum(s) + 1
  {
    if b > 0 {
      assert s[b := s[b] + 1][1..] == s[1..][b - 1 := s[b] + 1];
      SumIncrement(s[1..], b - 1);
    } else {
      assert s[b := s[b] + 1][1..] == s[1..];
    }
  }

  lemma {:induction false} SumZeros(s: seq<nat>)
    requires forall b :: 0 <= b < |s| ==> s[b] == 0
    ensures Sum(s) == 0
  {
    if s != [] {
      SumZeros(s[1..]);
    }
  }

  /**
   * The bins together count exactly the values that are numbers in [0, 1],
   * so never more than there are values.
   */
  lemma {:induction false} HistogramTotal(xs: seq<Num>)
    ensures Sum(Histogram(xs)) == |Counted(xs)|
    ensures Sum(Histogram(xs)) <= |xs|
  {
    if xs == [] {
      SumZeros(Zeros());
      assert Counted(xs) == {};
    } else {
      var n := |xs| - 1;
      var init := xs[..n];
      HistogramTotal(init);
      assert forall k :: 0 <= k < n ==> init[k] == xs[k];
      if InUnitInterval(xs[n]) {
        SumIncrement(Histogram(init), BinIndex(xs[n].v));
        assert Counted(xs) == Counted(init) + {n};
      } else {
        assert Counted(xs) == Counted(init);
      }
    }
  }

  /**
   * For the dataset: each bin counts the churn records whose risk lies within
   * its edges, and the bins together count the records whose risk is a number
   * in [0, 1], at most the size of the dataset.
   */
  lemma HistogramOfDataset(rs: Dataset, b: nat)
    requires b < BinCount
    ensures HistogramOf(rs)[b] == |set k | 0 <= k < |rs| && InBin(Risk(rs[k]), b)|
    ensures Sum(HistogramOf(rs)) == |set k | 0 <= k < |rs| && InUnitInterval(Risk(rs[k]))|
    ensures Sum(HistogramOf(rs)) <= |rs|
  {
    var xs := Risks(rs);
    HistogramCounts(xs, b);
    HistogramTotal(xs);
    assert BinMembers(xs, b) == set k | 0 <= k < |rs| && InBin(Risk(rs[k]), b);
    assert Counted(xs) == set k | 0 <= k < |rs| && InUnitInterval(Risk(rs[k]));
  }

  /** A churn risk of exactly 1 goes to the last bin. */
  lemma UnitRiskInLastBin(r: Record)
    requires ChurnRisk in r && r[ChurnRisk] == "1"
    ensures InBin(Risk(r), BinCount - 1)
  {
    ParseNatToString(1);
    assert NatToString(1) == "1";
  }

  /**
   * The pass that fills `histogramData`: ten zeroed bins in an array, then one
   * step per churn risk, in record order, incrementing the bin of each risk
   * in [0, 1].
   */
  method BuildHistogram(risks: seq<Num>) returns (counts: seq<nat>)
    ensures counts == Histogram(risks)
  {
    var bins := new nat[BinCount](_ => 0);
    assert bins[..] == Zeros();
    var i := 0;
    while i < |risks|
      invariant 0 <= i <= |risks|
      invariant bins[..] == Histogram(risks[..i])
    {
      var val := risks[i];
      ghost var before := bins[..];
      if !val.NaN? && AtLeast(val, 0.0) && AtMost(val, 1.0) {
        var b := BinIndex(val.v);
        bins[b] := bins[b] + 1;
        assert bins[..] == before[b := before[b] + 1];
      }
      assert risks[..i + 1][..i] == risks[..i];
      i := i + 1;
    }
    assert risks[..|risks|] == risks;
    counts := bins[..];
  }
}
