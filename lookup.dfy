/**
 * The customer lookup: the searched id is trimmed, the first record with that
 * `customer_id` is taken from each of the three datasets, and a composite
 * health score is formed from the scores those records carry.
 */
module Lookup {
  import opened Wrappers
  import opened JsString
  import opened JsNumber
  import opened NumberSums
  import opened Records

  /** `r.customer_id === id`; a record without the column never matches. */
  predicate HasId(r: Record, id: string) {
    CustomerId in r && r[CustomerId] == id
  }

  predicate NoneHasId(rs: Dataset, id: string) {
    forall i :: 0 <= i < |rs| ==> !HasId(rs[i], id)
  }

  /** The position of the first record carrying `id`, if any. */
  function FindIndex(rs: Dataset, id: string): (k: Option<nat>)
    ensures k.None? <==> NoneHasId(rs, id)
    ensures k.Some? ==> k.value < |rs| && HasId(rs[k.value], id)
    ensures k.Some? ==> forall j :: 0 <= j < k.value ==> !HasId(rs[j], id)
  {
    if rs == [] then None
    else if HasId(rs[0], id) then Some(0)
    else
      match FindIndex(rs[1..], id)
      case None => None
      case Some(k) => Some(k + 1)
  }

  /** `rs.find(r => r.customer_id === id)`. */
  function Find(rs: Dataset, id: string): (m: Option<Record>)
    ensures m.None? <==> NoneHasId(rs, id)
    ensures m.Some? ==> HasId(m.value, id)
    ensures m.Some? ==> exists k :: 0 <= k < |rs| && rs[k] == m.value && forall j :: 0 <= j < k ==> !HasId(rs[j], id)
  {
    match FindIndex(rs, id)
    case None => None
    case Some(k) => Some(rs[k])
  }

  // ---------------------------------------------------------------------
  // Health score

  /** A score is contributed only by a record that is found and whose cell is not empty. */
  function ScoreOf(m: Option<Record>, f: string): (s: seq<Num>)
    ensures |s| <= 1
    ensures s != [] <==> m.Some? && HasText(m.value, f)
    ensures s != [] ==> s[0] == NumberField(m.value, f)
  {
    if m.Some? && HasText(m.value, f) then [NumberField(m.value, f)] else []
  }

  /** The churn record contributes the retention `1 - parseFloat(churn_risk_predicted)`. */
  function RetentionOf(c: Option<Record>): (s: seq<Num>)
    ensures |s| <= 1
    ensures s != [] <==> c.Some? && HasText(c.value, ChurnRisk)
    ensures s != [] ==> s[0] == Sub(Fin(1.0), NumberField(c.value, ChurnRisk))
  {
    if c.Some? && HasText(c.value, ChurnRisk) then [Sub(Fin(1.0), NumberField(c.value, ChurnRisk))] else []
  }

  /** The scores in the order they are pushed: loyalty, lead, retention. */
  function Scores(l: Option<Record>, o: Option<Record>, c: Option<Record>): (s: seq<Num>)
    ensures |s| <= 3
    ensures s == [] <==>
      !(l.Some? && HasText(l.value, LoyaltyScore)) &&
      !(o.Some? && HasText(o.value, LeadScore)) &&
      !(c.Some? && HasText(c.value, ChurnRisk))
  {
    ScoreOf(l, LoyaltyScore) + ScoreOf(o, LeadScore) + RetentionOf(c)
  }

  /** The mean of the scores times 20, or nothing when there is no score. */
  function Health(scores: seq<Num>): (h: Option<Num>)
    ensures h.None? <==> scores == []
  {
    if |scores| > 0 then Some(Scale(DivBy(SumLeft(scores), |scores|), 20.0)) else None
  }

  /** The `userProfile` state: the not-found marker, or the three records found and the health. */
  datatype Profile =
    | NotFound
    | Found(l: Option<Record>, o: Option<Record>, c: Option<Record>, health: Option<Num>)

  /** The profile for the records found: "not found" when there is none, else the records and their health. */
  function Resolve(l: Option<Record>, o: Option<Record>, c: Option<Record>): (p: Profile)
    ensures p.NotFound? <==> l.None? && o.None? && c.None?
    ensures p.Found? ==> p.l == l && p.o == o && p.c == c
  {
    if l.None? && o.None? && c.None? then NotFound
    else Found(l, o, c, Health(Scores(l, o, c)))
  }

  /**
   * The profile after a search for `searchId`; `prev` is the profile before it,
   * which a blank search leaves in place.
   */
  function Search(prev: Option<Profile>, searchId: string, loyalty: Dataset, outreach: Dataset, churn: Dataset): Option<Profile> {
    var id := Trim(searchId);
    if id == [] then prev
    else
      Some(Resolve(Find(loyalty, id), Find(outreach, id), Find(churn, id)))
  }

  // ---------------------------------------------------------------------
  // What the lookup promises

  /** A search for an empty or all-white-space id changes nothing. */
  lemma BlankSearchKeepsProfile(prev: Option<Profile>, searchId: string, loyalty: Dataset, outreach: Dataset, churn: Dataset)
    requires AllWhitespace(searchId)
    ensures Search(prev, searchId, loyalty, outreach, churn) == prev
  {
    TrimEmptyIff(searchId);
  }

  /** Any other search replaces the profile, whatever it was. */
  lemma SearchForgetsPrevious(p: Option<Profile>, q: Option<Profile>, searchId: string, loyalty: Dataset, outreach: Dataset, churn: Dataset)
    requires !AllWhitespace(searchId)
    ensures Search(p, searchId, loyalty, outreach, churn) == Search(q, searchId, loyalty, outreach, churn)
    ensures Search(p, searchId, loyalty, outreach, churn).Some?
  {
    TrimEmptyIff(searchId);
  }

  /** Pressing Search twice gives the same profile as pressing it once. */
  lemma SearchIdempotent(prev: Option<Profile>, searchId: string, loyalty: Dataset, outreach: Dataset, churn: Dataset)
    ensures var once := Search(prev, searchId, loyalty, outreach, churn);
      Search(once, searchId, loyalty, outreach, churn) == once
  {
    TrimEmptyIff(searchId);
  }

  /** The profile is "not found" exactly when no dataset has a record with the trimmed id. */
  lemma NotFoundIff(prev: Option<Profile>, searchId: string, loyalty: Dataset, outreach: Dataset, churn: Dataset)
    requires !AllWhitespace(searchId)
    ensures var id := Trim(searchId);
      Search(prev, searchId, loyalty, outreach, churn) == Some(NotFound) <==>
        NoneHasId(loyalty, id) && NoneHasId(outreach, id) && NoneHasId(churn, id)
  {
    TrimEmptyIff(searchId);
  }

  /**
   * A found profile holds, for each dataset, the first record with the trimmed
   * id when there is one, and the health of the scores those records carry.
   */
  lemma FoundProfile(prev: Option<Profile>, searchId: string, loyalty: Dataset, outreach: Dataset, churn: Dataset)
    requires !AllWhitespace(searchId)
    requires var id := Trim(searchId);
      !(NoneHasId(loyalty, id) && NoneHasId(outreach, id) && NoneHasId(churn, id))
    ensures var id := Trim(searchId);
      var p := Search(prev, searchId, loyalty, outreach, churn);
      && p.Some? && p.value.Found?
      && (p.value.l.Some? <==> !NoneHasId(loyalty, id))
      && (p.value.o.Some? <==> !NoneHasId(outreach, id))
      && (p.value.c.Some? <==> !NoneHasId(churn, id))
      && (p.value.l.Some? ==> p.value.l == Find(loyalty, id) && HasId(p.value.l.value, id))
      && (p.value.o.Some? ==> p.value.o == Find(outreach, id) && HasId(p.value.o.value, id))
      && (p.value.c.Some? ==> p.value.c == Find(churn, id) && HasId(p.value.c.value, id))
      && p.value.health == Health(Scores(p.value.l, p.value.o, p.value.c))
  {
    TrimEmptyIff(searchId);
  }

  /** A health score exists exactly when at least one found record carries a score. */
  lemma HealthPresentIff(l: Option<Record>, o: Option<Record>, c: Option<Record>)
    ensures Health(Scores(l, o, c)).Some? <==>
      (l.Some? && HasText(l.value, LoyaltyScore)) ||
      (o.Some? && HasText(o.value, LeadScore)) ||
      (c.Some? && HasText(c.value, ChurnRisk))
  {
  }

  /** When every score is a finite number, the health is 20 times their mean. */
  lemma HealthIsScaledMean(scores: seq<Num>)
    requires |scores| > 0 && AllFinite(scores)
    ensures Health(scores) == Some(Fin(RealSum(scores) / |scores| as real * 20.0))
  {
    SumLeftExact(scores);
  }

  /** Scores on a 0 to 5 scale give a health score between 0 and 100. */
  lemma HealthRange(scores: seq<Num>)
    requires |scores| > 0 && AllFinite(scores)
    requires forall i :: 0 <= i < |scores| ==> 0.0 <= scores[i].v <= 5.0
    ensures Health(scores).Some? && Health(scores).value.Fin?
    ensures 0.0 <= Health(scores).value.v <= 100.0
  {
    HealthIsScaledMean(scores);
    MeanBounds(scores, 0.0, 5.0);
  }

  /** One score that is not a number makes the health NaN. */
  lemma NaNScorePoisonsHealth(scores: seq<Num>, k: nat)
    requires k < |scores| && scores[k] == NaN
    ensures Health(scores) == Some(NaN)
  {
    SumLeftNaN(scores, k);
  }

  /** A churn risk `v` contributes the retention `1 - v`. */
  lemma RetentionValue(c: Record, v: real)
    requires HasText(c, ChurnRisk) && NumberField(c, ChurnRisk) == Fin(v)
    ensures RetentionOf(Some(c)) == [Fin(1.0 - v)]
  {
    var x := NumberField(c, ChurnRisk);
    assert RetentionOf(Some(c)) == [Sub(Fin(1.0), x)];
    assert Sub(Fin(1.0), Fin(v)) == Fin(1.0 - v);
  }

  /** `find` returns the record at the first position that carries the id. */
  lemma FindFirst(rs: Dataset, id: string, k: nat)
    requires k < |rs| && HasId(rs[k], id)
    requires forall j :: 0 <= j < k ==> !HasId(rs[j], id)
    ensures Find(rs, id) == Some(rs[k])
  {
    assert FindIndex(rs, id) == Some(k);
  }

  /** A single score `x` gives health `20 * x`. */
  lemma SingleScoreHealth(x: real)
    ensures Health([Fin(x)]) == Some(Fin(20.0 * x))
  {
    assert SumLeft([Fin(x)]) == Add(SumLeft([]), Fin(x));
  }

  /**
   * A customer known only to the outreach list, with a whole-number lead score
   * `n`, has health `20 * n`.
   */
  lemma LeadOnlyHealth(prev: Option<Profile>, searchId: string, loyalty: Dataset, outreach: Dataset, churn: Dataset, k: nat, n: nat)
    requires !AllWhitespace(searchId)
    requires NoneHasId(loyalty, Trim(searchId)) && NoneHasId(churn, Trim(searchId))
    requires k < |outreach| && HasId(outreach[k], Trim(searchId))
    requires forall j :: 0 <= j < k ==> !HasId(outreach[j], Trim(searchId))
    requires LeadScore in outreach[k] && outreach[k][LeadScore] == NatToString(n)
    ensures var p := Search(prev, searchId, loyalty, outreach, churn);
      p.Some? && p.value.Found? && p.value.health == Some(Fin(20.0 * n as real))
  {
    var id := Trim(searchId);
    TrimEmptyIff(searchId);
    FindFirst(outreach, id, k);
    var o := outreach[k];
    ParseNatToString(n);
    assert NumberField(o, LeadScore) == Fin(n as real);
    assert Scores(None, Some(o), None) == [Fin(n as real)];
    SingleScoreHealth(n as real);
  }
}
