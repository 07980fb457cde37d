/** What the score panel computes from a result's scores
    (app/components/EvaluationScores.tsx): the total and the maximum, one row
    per rubric parameter with its PASS/FAIL or "score/weight" badge, and the
    colour band of the progress bars. Rendering itself is not modelled. */
module EvaluationScores {
  import opened Wrappers
  import opened Text
  import Rubric
  import opened JsonValues
  import opened Evaluation

  /** The component's own copy of the rubric table. */
  const EvaluationParameters: seq<Rubric.Parameter> := [
    Rubric.Parameter("greeting", "Greeting", 5, "Call opening within 5 seconds", Rubric.PassFail),
    Rubric.Parameter("collectionUrgency", "Collection Urgency", 15, "Create urgency, cross-questioning", Rubric.Score),
    Rubric.Parameter("rebuttalCustomerHandling", "Rebuttal Handling", 15, "Address penalties, objections", Rubric.Score),
    Rubric.Parameter("callEtiquette", "Call Etiquette", 15, "Tone, empathy, clear speech", Rubric.Score),
    Rubric.Parameter("callDisclaimer", "Call Disclaimer", 5, "Take permission before ending", Rubric.PassFail),
    Rubric.Parameter("correctDisposition", "Correct Disposition", 10, "Use correct category with remark", Rubric.PassFail),
    Rubric.Parameter("callClosing", "Call Closing", 5, "Thank the customer properly", Rubric.PassFail),
    Rubric.Parameter("fatalIdentification", "Identification", 5, "Missing agent/customer info", Rubric.PassFail),
    Rubric.Parameter("fatalTapeDiscloser", "Tape Disclosure", 10, "Inform customer about recording", Rubric.PassFail),
    Rubric.Parameter("fatalToneLanguage", "Tone & Language", 15, "No abusive or threatening speech", Rubric.PassFail)
  ]

  /** The copy agrees with the server's table, entry by entry. */
  lemma SameTableAsServer()
    ensures EvaluationParameters == Rubric.EvaluationParameters
  {
  }

  /** `Object.values(scores).reduce((sum, score) => sum + score, 0)`. */
  function SumValues(scores: Scores): int
  {
    if scores == [] then 0 else scores[0].1 + SumValues(scores[1..])
  }

  datatype Totals = Totals(total: int, max: nat)

  /** `calculateTotalScore`: the sum of every score, and the sum of the weights, which is 100. */
  function CalculateTotalScore(scores: Scores): (t: Totals)
    ensures t.total == SumValues(scores)
    ensures t.max == Rubric.WeightSum(Rubric.EvaluationParameters) == 100
  {
    SameTableAsServer();
    Rubric.RubricMaximum();
    Totals(SumValues(scores), Rubric.WeightSum(EvaluationParameters))
  }

  /** Some parameter of `ps` has this key and a weight of at least `v`, and `v` is not negative. */
  predicate Fits(ps: seq<Rubric.Parameter>, key: string, v: int)
  {
    exists k :: 0 <= k < |ps| && ps[k].key == key && 0 <= v <= ps[k].weight
  }

  /** Every score names some parameter, no parameter twice, and lies in [0, that parameter's weight]. */
  predicate Bounded(scores: Scores, ps: seq<Rubric.Parameter>)
  {
    && UniqueKeys(scores)
    && forall i :: 0 <= i < |scores| ==> Fits(ps, scores[i].0, scores[i].1)
  }

  /** The table with its `k`-th parameter taken out. */
  function Without(ps: seq<Rubric.Parameter>, k: nat): (r: seq<Rubric.Parameter>)
    requires k < |ps|
    ensures |r| == |ps| - 1
    ensures forall m :: 0 <= m < |r| ==> r[m] == ps[if m < k then m else m + 1]
    ensures Rubric.WeightSum(ps) == Rubric.WeightSum(r) + ps[k].weight
  {
    Rubric.WeightSumSplit(ps, k);
    Rubric.WeightSumAppend(ps[..k], ps[k + 1..]);
    ps[..k] + ps[k + 1..]
  }

  /** Taking out the parameter the first score names leaves the other scores
      bounded by the remaining parameters, whose keys stay distinct. */
  lemma BoundedTail(scores: Scores, ps: seq<Rubric.Parameter>, k: nat)
    requires Rubric.DistinctKeys(ps) && Bounded(scores, ps)
    requires scores != [] && k < |ps| && ps[k].key == scores[0].0
    ensures Rubric.DistinctKeys(Without(ps, k)) && Bounded(scores[1..], Without(ps, k))
  {
    var rest, tail := Without(ps, k), scores[1..];
    forall i, j | 0 <= i < j < |rest| ensures rest[i].key != rest[j].key {
      assert rest[i] == ps[if i < k then i else i + 1];
      assert rest[j] == ps[if j < k then j else j + 1];
    }
    forall i, j | 0 <= i < j < |tail| ensures tail[i].0 != tail[j].0 {
      assert tail[i] == scores[i + 1] && tail[j] == scores[j + 1];
    }
    forall i | 0 <= i < |tail| ensures Fits(rest, tail[i].0, tail[i].1) {
      assert tail[i] == scores[i + 1];
      assert Fits(ps, scores[i + 1].0, scores[i + 1].1);
      var k' :| 0 <= k' < |ps| && ps[k'].key == scores[i + 1].0 && 0 <= scores[i + 1].1 <= ps[k'].weight;
      assert scores[0].0 != scores[i + 1].0;
      var m := if k' < k then k' else k' - 1;
      assert rest[m] == ps[k'];
    }
  }

  /** Scores within their weights never total more than the maximum. */
  lemma {:induction false} TotalAtMostMax(scores: Scores, ps: seq<Rubric.Parameter>)
    requires Rubric.DistinctKeys(ps) && Bounded(scores, ps)
    ensures 0 <= SumValues(scores) <= Rubric.WeightSum(ps)
    decreases |scores|
  {
    if scores != [] {
      assert Fits(ps, scores[0].0, scores[0].1);
      var k :| 0 <= k < |ps| && ps[k].key == scores[0].0 && 0 <= scores[0].1 <= ps[k].weight;
      BoundedTail(scores, ps, k);
      TotalAtMostMax(scores[1..], Without(ps, k));
    }
  }

  /** Some parameter of `ps` has this key, and `v` is its full weight. */
  predicate Maxed(ps: seq<Rubric.Parameter>, key: string, v: int)
  {
    exists k :: 0 <= k < |ps| && ps[k].key == key && v == ps[k].weight
  }

  /** With every weight positive, bounded scores reach the maximum exactly when
      every parameter has a score and every score is its parameter's full weight. */
  lemma {:induction false} TotalIsMaxIff(scores: Scores, ps: seq<Rubric.Parameter>)
    requires Rubric.DistinctKeys(ps) && Bounded(scores, ps)
    requires forall k :: 0 <= k < |ps| ==> ps[k].weight > 0
    ensures SumValues(scores) == Rubric.WeightSum(ps) <==>
      |scores| == |ps| && forall i :: 0 <= i < |scores| ==> Maxed(ps, scores[i].0, scores[i].1)
    decreases |scores|
  {
    if scores == [] {
      if ps != [] {
        assert Rubric.WeightSum(ps) >= ps[0].weight > 0;
      }
    } else {
      assert Fits(ps, scores[0].0, scores[0].1);
      var k :| 0 <= k < |ps| && ps[k].key == scores[0].0 && 0 <= scores[0].1 <= ps[k].weight;
      BoundedTail(scores, ps, k);
      TotalAtMostMax(scores[1..], Without(ps, k));
      TotalIsMaxIff(scores[1..], Without(ps, k));
      MaxedSplit(scores, ps, k);
    }
  }

  /** All scores are maxed exactly when the first is maxed at its parameter `k`
      and the others are maxed against the table without `k`. */
  lemma MaxedSplit(scores: Scores, ps: seq<Rubric.Parameter>, k: nat)
    requires Rubric.DistinctKeys(ps) && UniqueKeys(scores)
    requires scores != [] && k < |ps| && ps[k].key == scores[0].0
    ensures (forall i :: 0 <= i < |scores| ==> Maxed(ps, scores[i].0, scores[i].1)) <==>
      && scores[0].1 == ps[k].weight
      && forall i :: 0 <= i < |scores| - 1 ==> Maxed(Without(ps, k), scores[1..][i].0, scores[1..][i].1)
  {
    if forall i :: 0 <= i < |scores| ==> Maxed(ps, scores[i].0, scores[i].1) {
      MaxedTail(scores, ps, k);
    }
    if scores[0].1 == ps[k].weight && forall i :: 0 <= i < |scores| - 1 ==> Maxed(Without(ps, k), scores[1..][i].0, scores[1..][i].1) {
      MaxedCons(scores, ps, k);
    }
  }

  /** If every score is maxed, so is the first at `k`, and the others against the rest of the table. */
  lemma MaxedTail(scores: Scores, ps: seq<Rubric.Parameter>, k: nat)
    requires Rubric.DistinctKeys(ps) && UniqueKeys(scores)
    requires scores != [] && k < |ps| && ps[k].key == scores[0].0
    requires forall i :: 0 <= i < |scores| ==> Maxed(ps, scores[i].0, scores[i].1)
    ensures scores[0].1 == ps[k].weight
    ensures forall i :: 0 <= i < |scores| - 1 ==> Maxed(Without(ps, k), scores[1..][i].0, scores[1..][i].1)
  {
    var rest, tail := Without(ps, k), scores[1..];
    assert Maxed(ps, scores[0].0, scores[0].1);
    var k0 :| 0 <= k0 < |ps| && ps[k0].key == scores[0].0 && scores[0].1 == ps[k0].weight;
    assert k0 == k;
    forall i | 0 <= i < |tail| ensures Maxed(rest, tail[i].0, tail[i].1) {
      assert tail[i] == scores[i + 1];
      assert Maxed(ps, scores[i + 1].0, scores[i + 1].1);
      var k' :| 0 <= k' < |ps| && ps[k'].key == scores[i + 1].0 && scores[i + 1].1 == ps[k'].weight;
      assert scores[0].0 != scores[i + 1].0;
      var m := if k' < k then k' else k' - 1;
      assert rest[m] == ps[k'];
    }
  }

  /** The first score maxed at `k` and the others against the rest of the table make every score maxed. */
  lemma MaxedCons(scores: Scores, ps: seq<Rubric.Parameter>, k: nat)
    requires scores != [] && k < |ps| && ps[k].key == scores[0].0
    requires scores[0].1 == ps[k].weight
    requires forall i :: 0 <= i < |scores| - 1 ==> Maxed(Without(ps, k), scores[1..][i].0, scores[1..][i].1)
    ensures forall i :: 0 <= i < |scores| ==> Maxed(ps, scores[i].0, scores[i].1)
  {
    var rest, tail := Without(ps, k), scores[1..];
    forall i | 0 <= i < |scores| ensures Maxed(ps, scores[i].0, scores[i].1) {
      if i > 0 {
        assert scores[i] == tail[i - 1];
        assert Maxed(rest, tail[i - 1].0, tail[i - 1].1);
        var m :| 0 <= m < |rest| && rest[m].key == tail[i - 1].0 && tail[i - 1].1 == rest[m].weight;
        assert rest[m] == ps[if m < k then m else m + 1];
      }
    }
  }

  /** A result scores 100 out of 100 exactly when every rubric parameter is
      scored at its full weight. */
  lemma FullMarksIff(scores: Scores)
    requires Bounded(scores, Rubric.EvaluationParameters)
    ensures CalculateTotalScore(scores).total == 100 <==>
      |scores| == 10 && forall i :: 0 <= i < |scores| ==> Maxed(Rubric.EvaluationParameters, scores[i].0, scores[i].1)
  {
    Rubric.RubricKeys();
    Rubric.RubricMaximum();
    Rubric.RubricWeightsPositive();
    TotalIsMaxIff(scores, Rubric.EvaluationParameters);
  }

  /** Scores laid out in table order, each fitting its parameter, are bounded. */
  lemma AlignedIsBounded(scores: Scores, ps: seq<Rubric.Parameter>)
    requires Aligned(scores, ps) && Rubric.DistinctKeys(ps)
    ensures Bounded(scores, ps)
  {
    AlignedIsWellFormed(scores, ps);
    assert UniqueKeys(scores) by {
      assert WellFormed(EvaluationResult(scores, "", ""), ps);
    }
    forall i | 0 <= i < |scores| ensures Fits(ps, scores[i].0, scores[i].1) {
      assert 0 <= i < |ps| && ps[i].key == scores[i].0 && 0 <= scores[i].1 <= ps[i].weight;
    }
  }

  /** The canned result is shown as 75 out of 100. */
  lemma MockTotals()
    ensures CalculateTotalScore(MockAnalyzeCall().scores) == Totals(75, 100)
  {
    assert SumValues(MockScores) == 75;
  }

  /** The text in a parameter's badge. A missing score reads as `undefined`:
      it is not greater than 0, and a template literal spells it out. */
  function ScoreLabel(p: Rubric.Parameter, score: Option<int>): string
  {
    if p.inputType == Rubric.PassFail then
      if score.Some? && score.value > 0 then "PASS" else "FAIL"
    else
      (if score.Some? then IntToString(score.value) else "undefined") + "/" + NatToString(p.weight)
  }

  /** A PASS_FAIL parameter reads "PASS" exactly when its score is above 0, and "FAIL" otherwise. */
  lemma PassFailLabel(p: Rubric.Parameter, score: Option<int>)
    requires p.inputType == Rubric.PassFail
    ensures ScoreLabel(p, score) == "PASS" <==> score.Some? && score.value > 0
    ensures ScoreLabel(p, score) == "FAIL" <==> !(score.Some? && score.value > 0)
  {
  }

  /** A SCORE parameter's badge is the score, a slash and the weight, and the two
      numbers read back from either side of its only slash. */
  lemma ScoreLabelReadsBack(p: Rubric.Parameter, v: nat)
    requires p.inputType == Rubric.Score
    ensures var badge := ScoreLabel(p, Some(v)); var k := |NatToString(v)|;
      && k < |badge| && badge[k] == '/' && '/' !in badge[..k] && '/' !in badge[k + 1..]
      && AllDigits(badge[..k]) && AllDigits(badge[k + 1..])
      && ParseNat(badge[..k]) == v && ParseNat(badge[k + 1..]) == p.weight
  {
    var a, b := NatToString(v), NatToString(p.weight);
    var badge := ScoreLabel(p, Some(v));
    assert badge == a + "/" + b;
    assert badge[..|a|] == a;
    assert badge[|a| + 1..] == b;
    ParseNatToString(v);
    ParseNatToString(p.weight);
  }

  /** The colour class of the progress bars. */
  datatype Band = Excellent | Good | Poor

  /** `overallPercentage >= 80 ? excellent : overallPercentage >= 60 ? good : poor`,
      with the percentage test cross-multiplied into integers. */
  function BandFor(total: int, max: nat): (b: Band)
    requires max > 0
    ensures b == Excellent <==> total * 100 >= 80 * max
    ensures b == Good <==> 60 * max <= total * 100 < 80 * max
    ensures b == Poor <==> total * 100 < 60 * max
  {
    if total * 100 >= 80 * max then Excellent
    else if total * 100 >= 60 * max then Good
    else Poor
  }

  function BandRank(b: Band): nat
  {
    match b
    case Poor => 0
    case Good => 1
    case Excellent => 2
  }

  /** A higher total never gets a lower band. */
  lemma BandMonotone(t1: int, t2: int, max: nat)
    requires max > 0 && t1 <= t2
    ensures BandRank(BandFor(t1, max)) <= BandRank(BandFor(t2, max))
  {
    assert t1 * 100 <= t2 * 100;
  }

  /** One rendered parameter: its badge text, and the band of its progress bar,
      which only SCORE parameters have. */
  datatype Row = Row(key: string, name: string, badge: string, desc: string, bar: Option<Band>)

  function RowFor(p: Rubric.Parameter, scores: Scores, band: Band): Row
  {
    Row(p.key, p.name, ScoreLabel(p, Get(scores, p.key)), p.desc,
        if p.inputType == Rubric.PassFail then None else Some(band))
  }

  /** One row per parameter of `ps`, in order, every bar in the same band. */
  function RowsFor(ps: seq<Rubric.Parameter>, scores: Scores, band: Band): (rows: seq<Row>)
    ensures |rows| == |ps|
    ensures forall i :: 0 <= i < |rows| ==>
      && rows[i].key == ps[i].key && rows[i].name == ps[i].name
      && rows[i].badge == ScoreLabel(ps[i], Get(scores, ps[i].key))
      && (rows[i].bar.Some? <==> ps[i].inputType == Rubric.Score)
      && (rows[i].bar.Some? ==> rows[i].bar.value == band)
  {
    seq(|ps|, i requires 0 <= i < |ps| => RowFor(ps[i], scores, band))
  }

  /** `EVALUATION_PARAMETERS.map(...)`: one row per parameter, in table order. Every
      bar has the band of the OVERALL percentage, not of its own parameter's score. */
  function Rows(scores: Scores): (rows: seq<Row>)
    ensures rows == RowsFor(EvaluationParameters, scores, BandFor(SumValues(scores), 100))
  {
    var t := CalculateTotalScore(scores);
    RowsFor(EvaluationParameters, scores, BandFor(t.total, t.max))
  }
}
