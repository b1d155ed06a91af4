/**
 * Parsed CSV records. A record maps column names to the text of each cell that
 * the row has; a column that the row lacks is absent (`undefined` in
 * JavaScript). A dataset is the ordered sequence of a file's records.
 */
module Records {
  import opened Wrappers
  import opened JsNumber

  type Record = map<string, string>
  type Dataset = seq<Record>

  // Column names shared with the producers of the three CSV files.
  const CustomerId := "customer_id"
  const LoyaltyScore := "predicted_loyalty_score"
  const LoyaltyTier := "loyalty_tier"
  const LeadScore := "LeadScore"
  const Segment := "segment"
  const ChurnRisk := "churn_risk_predicted"
  const Clv := "CLV_12m"
  const CreditRisk := "CreditRisk"

  /** The property read `r.f`. */
  function Get(r: Record, f: string): Option<string> {
    if f in r then Some(r[f]) else None
  }

  /** `r.f` is truthy: the cell is there and is not the empty string. */
  predicate HasText(r: Record, f: string) {
    f in r && r[f] != ""
  }

  /** `parseFloat(r.f)`: a missing cell is converted to the text "undefined" first. */
  function NumberField(r: Record, f: string): Num {
    ParseFloat(if f in r then r[f] else "undefined")
  }

  /** `parseFloat(r.f || 0)`: a missing or empty cell is replaced by the number 0, whose text is "0". */
  function NumberFieldOrZero(r: Record, f: string): (n: Num)
    ensures !HasText(r, f) ==> n == Fin(0.0)
    ensures HasText(r, f) ==> n == NumberField(r, f)
  {
    ParseZero();
    if HasText(r, f) then ParseFloat(r[f]) else ParseFloat("0")
  }

  /** A missing cell is never a number. */
  lemma MissingFieldIsNaN(r: Record, f: string)
    requires f !in r
    ensures NumberField(r, f) == NaN
  {
    ParseUndefined();
  }
}
