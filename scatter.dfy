/**
 * The credit-risk against lifetime-value scatter plot: one point per outreach
 * record, `x: parseFloat(r.CreditRisk) || 0`, `y: parseFloat(r.CLV_12m) || 0`,
 * coloured by the record's segment (which may be absent).
 */
module Scatter {
  import opened Wrappers
  import opened JsNumber
  import opened Records

  datatype Point = Point(x: Num, y: Num, segment: Option<string>)

  /** `parseFloat(r.f) || 0`: a cell that is not a number is plotted at zero. */
  function Coordinate(r: Record, f: string): (n: Num)
    ensures n != NaN
    ensures NumberField(r, f) != NaN ==> n == NumberField(r, f)
    ensures NumberField(r, f) == NaN ==> n == Fin(0.0)
  {
    OrZero(NumberField(r, f))
  }

  function Project(r: Record): Point {
    Point(Coordinate(r, CreditRisk), Coordinate(r, Clv), Get(r, Segment))
  }

  /** `outreachRecords.map(...)`: one point per record, in record order. */
  function ScatterData(rs: Dataset): (ps: seq<Point>)
    ensures |ps| == |rs|
    ensures forall i :: 0 <= i < |rs| ==> ps[i] == Project(rs[i])
  {
    seq(|rs|, i requires 0 <= i < |rs| => Project(rs[i]))
  }

  /** Concatenating datasets concatenates their plots. */
  lemma ScatterAppend(a: Dataset, b: Dataset)
    ensures ScatterData(a + b) == ScatterData(a) + ScatterData(b)
  {
    var l := ScatterData(a + b);
    var r := ScatterData(a) + ScatterData(b);
    forall i | 0 <= i < |l| ensures l[i] == r[i] {
      if i < |a| {
        assert (a + b)[i] == a[i];
      } else {
        assert (a + b)[i] == b[i - |a|];
      }
    }
  }

  /** Every point lies on the plot: neither coordinate is NaN. */
  lemma ScatterHasNoNaN(rs: Dataset)
    ensures forall p :: p in ScatterData(rs) ==> p.x != NaN && p.y != NaN
  {
    forall p | p in ScatterData(rs) ensures p.x != NaN && p.y != NaN {
      var i :| 0 <= i < |ScatterData(rs)| && ScatterData(rs)[i] == p;
      assert p == Project(rs[i]);
    }
  }

  /** A record lacking both cells is plotted at the origin and keeps its segment. */
  lemma MissingCellsAtOrigin(r: Record)
    requires CreditRisk !in r && Clv !in r
    ensures Project(r) == Point(Fin(0.0), Fin(0.0), Get(r, Segment))
  {
    MissingFieldIsNaN(r, CreditRisk);
    MissingFieldIsNaN(r, Clv);
  }

  /** A cell holding a decimal numeral is plotted at that value. */
  lemma NumeralCoordinate(r: Record, f: string, n: nat)
    requires f in r && r[f] == NatToString(n)
    ensures Coordinate(r, f) == Fin(n as real)
  {
    ParseNatToString(n);
  }
}
