/**
 * The dashboard page as a state machine. The fields are the page's state
 * hooks; each method is one thing that happens to the page: a dataset
 * arriving (followed by the effects that depend on it), the search box being
 * edited, the Search button being pressed, or a render reading the derived
 * breakdowns and scatter points.
 */
module DashboardPage {
  import opened Wrappers
  import opened JsString
  import opened JsNumber
  import opened NumberSums
  import opened Records
  import opened Kpi
  import opened Histogram
  import opened Distribution
  import opened Lookup
  import opened Scatter

  /**
   * A churn record whose risk cell is empty is treated differently by the two
   * churn views: the histogram reads `parseFloat("")`, which is NaN, and counts
   * it in no bin, while the churn KPI reads `parseFloat("" || 0)` and adds 0 to
   * the sum while the record still counts in the denominator.
   */
  lemma EmptyRiskSkippedByHistogram(rs: Dataset, r: Record)
    requires ChurnRisk in r && r[ChurnRisk] == ""
    ensures HistogramOf(rs + [r]) == HistogramOf(rs)
    ensures Column(rs + [r], ChurnRisk) == Column(rs, ChurnRisk) + [Fin(0.0)]
  {
    ParseEmpty();
    assert Risk(r) == NaN;
    var xs := Risks(rs + [r]);
    assert xs[..|rs|] == Risks(rs);
    assert Histogram.Histogram(xs) == AddValue(Histogram.Histogram(Risks(rs)), NaN);
  }

  class Dashboard {
    var loyaltyRecords: Dataset
    var outreachRecords: Dataset
    var churnRecords: Dataset
    var histogramData: seq<nat>
    var avgLoyalty: Num
    var avgChurnRate: Num
    var avgClv: Num
    var searchId: string
    var userProfile: Option<Profile>

    /**
     * The histogram is either not yet built or has ten bins, and every KPI and
     * the histogram agree with their dataset whenever that dataset is non-empty.
     */
    predicate Valid()
      reads this
    {
      && (histogramData == [] || |histogramData| == BinCount)
      && (churnRecords != [] ==> histogramData == HistogramOf(churnRecords))
      && (loyaltyRecords != [] ==> avgLoyalty == FieldAverage(loyaltyRecords, LoyaltyScore))
      && (outreachRecords != [] ==> avgClv == FieldAverage(outreachRecords, Clv))
      && (churnRecords != [] ==> avgChurnRate == FieldAverage(churnRecords, ChurnRisk))
    }

    /** The initial state of every hook. */
    constructor()
      ensures Valid()
      ensures loyaltyRecords == [] && outreachRecords == [] && churnRecords == []
      ensures histogramData == []
      ensures avgLoyalty == Fin(0.0) && avgChurnRate == Fin(0.0) && avgClv == Fin(0.0)
      ensures searchId == [] && userProfile == None
    {
      loyaltyRecords := [];
      outreachRecords := [];
      churnRecords := [];
      histogramData := [];
      avgLoyalty := Fin(0.0);
      avgChurnRate := Fin(0.0);
      avgClv := Fin(0.0);
      searchId := [];
      userProfile := None;
    }

    /** The KPI effect: each average is recomputed when its dataset is non-empty and kept otherwise. */
    method RefreshKpis()
      modifies this`avgLoyalty, this`avgClv, this`avgChurnRate
      ensures avgLoyalty == if loyaltyRecords != [] then FieldAverage(loyaltyRecords, LoyaltyScore) else old(avgLoyalty)
      ensures avgClv == if outreachRecords != [] then FieldAverage(outreachRecords, Clv) else old(avgClv)
      ensures avgChurnRate == if churnRecords != [] then FieldAverage(churnRecords, ChurnRisk) else old(avgChurnRate)
    {
      if |loyaltyRecords| > 0 {
        avgLoyalty := DivBy(SumLeft(Column(loyaltyRecords, LoyaltyScore)), |loyaltyRecords|);
      }
      if |outreachRecords| > 0 {
        avgClv := DivBy(SumLeft(Column(outreachRecords, Clv)), |outreachRecords|);
      }
      if |churnRecords| > 0 {
        avgChurnRate := DivBy(SumLeft(Column(churnRecords, ChurnRisk)), |churnRecords|);
      }
    }

    /** The histogram effect: nothing for an empty churn dataset, otherwise a fresh histogram. */
    method RefreshHistogram()
      modifies this`histogramData
      ensures histogramData == if churnRecords != [] then HistogramOf(churnRecords) else old(histogramData)
    {
      if |churnRecords| == 0 {
        return;
      }
      histogramData := BuildHistogram(Risks(churnRecords));
    }

    /** The loyalty file arrives; the KPI effect runs. */
    method LoadLoyalty(data: Dataset)
      requires Valid()
      modifies this
      ensures Valid()
      ensures loyaltyRecords == data
      ensures outreachRecords == old(outreachRecords) && churnRecords == old(churnRecords)
      ensures avgLoyalty == if data != [] then FieldAverage(data, LoyaltyScore) else old(avgLoyalty)
      ensures avgClv == old(avgClv) && avgChurnRate == old(avgChurnRate)
      ensures histogramData == old(histogramData)
      ensures searchId == old(searchId) && userProfile == old(userProfile)
    {
      loyaltyRecords := data;
      RefreshKpis();
    }

    /** The outreach file arrives; the KPI effect runs. */
    method LoadOutreach(data: Dataset)
      requires Valid()
      modifies this
      ensures Valid()
      ensures outreachRecords == data
      ensures loyaltyRecords == old(loyaltyRecords) && churnRecords == old(churnRecords)
      ensures avgClv == if data != [] then FieldAverage(data, Clv) else old(avgClv)
      ensures avgLoyalty == old(avgLoyalty) && avgChurnRate == old(avgChurnRate)
      ensures histogramData == old(histogramData)
      ensures searchId == old(searchId) && userProfile == old(userProfile)
    {
      outreachRecords := data;
      RefreshKpis();
    }

    /** The churn file arrives; the KPI effect and the histogram effect run. */
    method LoadChurn(data: Dataset)
      requires Valid()
      modifies this
      ensures Valid()
      ensures churnRecords == data
      ensures loyaltyRecords == old(loyaltyRecords) && outreachRecords == old(outreachRecords)
      ensures avgChurnRate == if data != [] then FieldAverage(data, ChurnRisk) else old(avgChurnRate)
      ensures avgLoyalty == old(avgLoyalty) && avgClv == old(avgClv)
      ensures histogramData == if data != [] then HistogramOf(data) else old(histogramData)
      ensures searchId == old(searchId) && userProfile == old(userProfile)
    {
      churnRecords := data;
      RefreshKpis();
      RefreshHistogram();
    }

    /** The search box is edited. */
    method SetSearchId(value: string)
      requires Valid()
      modifies this`searchId
      ensures Valid()
      ensures searchId == value
    {
      searchId := value;
    }

    /** The Search button: look the trimmed id up and set the profile. */
    method HandleSearch()
      requires Valid()
      modifies this`userProfile
      ensures Valid()
      ensures userProfile == Search(old(userProfile), searchId, loyaltyRecords, outreachRecords, churnRecords)
    {
      userProfile := ResolveSearch(userProfile, searchId, loyaltyRecords, outreachRecords, churnRecords);
    }

    /**
     * The body of `handleSearch` on the current state: a blank id keeps the
     * profile; otherwise the first match in each dataset is taken, and the
     * profile is "not found" or the matches with their health score.
     */
    static method ResolveSearch(profile: Option<Profile>, searchId: string, loyalty: Dataset, outreach: Dataset, churn: Dataset)
      returns (next: Option<Profile>)
      ensures next == Search(profile, searchId, loyalty, outreach, churn)
    {
      next := profile;
      var id := Trim(searchId);
      if id != [] {
        var l := Find(loyalty, id);
        var o := Find(outreach, id);
        var c := Find(churn, id);
        if l.None? && o.None? && c.None? {
          next := Some(NotFound);
        } else {
          var health := HealthScore(l, o, c);
          next := Some(Found(l, o, c, health));
        }
        assert next == Some(Resolve(l, o, c));
      }
    }

    /**
     * The composite health score: the scores of the found records are pushed in
     * turn, and their mean times 20 is taken when there is at least one.
     */
    static method HealthScore(l: Option<Record>, o: Option<Record>, c: Option<Record>) returns (health: Option<Num>)
      ensures health == Health(Scores(l, o, c))
    {
      var scores: seq<Num> := [];
      if l.Some? && HasText(l.value, LoyaltyScore) {
        scores := scores + [NumberField(l.value, LoyaltyScore)];
      }
      assert scores == ScoreOf(l, LoyaltyScore);
      if o.Some? && HasText(o.value, LeadScore) {
        scores := scores + [NumberField(o.value, LeadScore)];
      }
      assert scores == ScoreOf(l, LoyaltyScore) + ScoreOf(o, LeadScore);
      if c.Some? && HasText(c.value, ChurnRisk) {
        scores := scores + [Sub(Fin(1.0), NumberField(c.value, ChurnRisk))];
      }
      assert scores == Scores(l, o, c);
      health := None;
      if |scores| > 0 {
        health := Some(Scale(DivBy(SumLeft(scores), |scores|), 20.0));
      }
    }

    /** `tierData` as a render computes it from the loyalty records. */
    method TierData() returns (entries: seq<Entry>)
      ensures entries == TallyOf(loyaltyRecords, LoyaltyTier)
    {
      entries := Tally(loyaltyRecords, LoyaltyTier);
    }

    /** `scatterData` as a render computes it from the outreach records. */
    method ScatterPoints() returns (ps: seq<Point>)
      ensures ps == ScatterData(outreachRecords)
    {
      ps := ScatterData(outreachRecords);
    }

    /** `segmentData` as a render computes it from the outreach records. */
    method SegmentData() returns (entries: seq<Entry>)
      ensures entries == TallyOf(outreachRecords, Segment)
    {
      entries := Tally(outreachRecords, Segment);
    }
  }
}
