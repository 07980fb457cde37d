/** The evaluation result the route returns and the canned result it falls
    back to (app/api/analyze-call/route.ts, `mockAnalyzeCall`). */
module Evaluation {
  import opened Wrappers
  import opened Rubric
  import opened JsonValues

  /** The `scores` object: its members in insertion order. */
  type Scores = seq<(string, int)>

  datatype EvaluationResult = EvaluationResult(scores: Scores, overallFeedback: string, observation: string)

  /** A score the parameter admits: within [0, weight], and 0 or the weight for PASS_FAIL. */
  predicate ScoreFits(p: Parameter, v: int)
  {
    0 <= v <= p.weight && (p.inputType == PassFail ==> v == 0 || v == p.weight)
  }

  /** The scores have pairwise-distinct keys. */
  predicate UniqueKeys(scores: Scores)
  {
    forall i, j :: 0 <= i < j < |scores| ==> scores[i].0 != scores[j].0
  }

  /** The result's scores name exactly the parameters, once each, and every score fits its parameter. */
  predicate WellFormed(r: EvaluationResult, ps: seq<Parameter>)
  {
    && |r.scores| == |ps|
    && UniqueKeys(r.scores)
    && forall k :: 0 <= k < |ps| ==>
         Get(r.scores, ps[k].key).Some? && ScoreFits(ps[k], Get(r.scores, ps[k].key).value)
  }

  const MockScores: Scores := [
    ("greeting", 5),
    ("collectionUrgency", 12),
    ("rebuttalCustomerHandling", 10),
    ("callEtiquette", 13),
    ("callDisclaimer", 0),
    ("correctDisposition", 10),
    ("callClosing", 5),
    ("fatalIdentification", 5),
    ("fatalTapeDiscloser", 0),
    ("fatalToneLanguage", 15)
  ]

  const MockFeedback: string := "The agent demonstrated strong collection techniques and maintained professional etiquette throughout the call. However, critical compliance issues were identified including missing call disclaimer and tape disclosure. The agent showed good urgency creation and handled customer objections effectively."

  const MockObservation: string := "Customer was initially resistant but agent used appropriate pressure techniques. Missing mandatory disclosures could result in legal compliance issues. Agent's tone remained professional despite customer objections."

  /** The canned result: the same value on every call. */
  function MockAnalyzeCall(): EvaluationResult
  {
    EvaluationResult(MockScores, MockFeedback, MockObservation)
  }

  /** The canned result is well-formed against the rubric, and both its texts are non-empty. */
  lemma MockIsWellFormed()
    ensures WellFormed(MockAnalyzeCall(), EvaluationParameters)
    ensures MockAnalyzeCall().overallFeedback != [] && MockAnalyzeCall().observation != []
  {
    MockScoresAligned();
    RubricKeys();
    AlignedIsWellFormed(MockScores, EvaluationParameters);
  }

  /** The scores list the parameters' keys in the table's order, each with a score that fits. */
  predicate Aligned(scores: Scores, ps: seq<Parameter>)
  {
    |scores| == |ps| && forall k :: 0 <= k < |ps| ==> scores[k].0 == ps[k].key && ScoreFits(ps[k], scores[k].1)
  }

  lemma MockScoresAligned()
    ensures Aligned(MockScores, EvaluationParameters)
  {
    forall k | 0 <= k < |EvaluationParameters|
      ensures MockScores[k].0 == EvaluationParameters[k].key && ScoreFits(EvaluationParameters[k], MockScores[k].1)
    {
      assert k in {0, 1, 2, 3, 4, 5, 6, 7, 8, 9};
    }
  }

  /** Scores laid out in the order of a table with distinct keys are well-formed against it. */
  lemma AlignedIsWellFormed(scores: Scores, ps: seq<Parameter>)
    requires Aligned(scores, ps) && DistinctKeys(ps)
    ensures WellFormed(EvaluationResult(scores, "", ""), ps)
    ensures forall f, o :: WellFormed(EvaluationResult(scores, f, o), ps)
  {
    assert UniqueKeys(scores) by {
      forall i, j | 0 <= i < j < |scores| ensures scores[i].0 != scores[j].0 {
        assert ps[i].key != ps[j].key;
      }
    }
    forall k | 0 <= k < |ps| ensures Get(scores, ps[k].key) == Some(scores[k].1) {
      GetUnique(scores, k);
    }
  }

  /** With unique keys, looking up the key of member `k` finds member `k`. */
  lemma {:induction false} GetUnique(scores: Scores, k: nat)
    requires k < |scores| && UniqueKeys(scores)
    ensures Get(scores, scores[k].0) == Some(scores[k].1)
    decreases k
  {
    if k > 0 {
      assert scores[0].0 != scores[k].0;
      assert scores[1..][k - 1] == scores[k];
      GetUnique(scores[1..], k - 1);
    }
  }

  /** The JSON body `NextResponse.json` sends for a result. */
  function ToJson(r: EvaluationResult): Json
  {
    Object([
      ("scores", Object(ScoresToJson(r.scores))),
      ("overallFeedback", Str(r.overallFeedback)),
      ("observation", Str(r.observation))
    ])
  }

  function ScoresToJson(scores: Scores): (ms: seq<(string, Json)>)
    ensures |ms| == |scores|
    ensures forall i :: 0 <= i < |scores| ==> ms[i] == (scores[i].0, Number(scores[i].1))
  {
    if scores == [] then [] else [(scores[0].0, Number(scores[0].1))] + ScoresToJson(scores[1..])
  }

  /** How the page reads a response body back as a result (`response.json()`
      typed as a call-analysis response); `None` when a member is missing or of
      another kind. */
  function FromJson(j: Json): Option<EvaluationResult>
  {
    if !j.Object? then None
    else
      match (Get<Json>(j.members, "scores"), Get<Json>(j.members, "overallFeedback"), Get<Json>(j.members, "observation"))
      case (Some(Object(ms)), Some(Str(f)), Some(Str(o))) =>
        (match ScoresFromJson(ms)
         case Some(scores) => Some(EvaluationResult(scores, f, o))
         case None => None)
      case _ => None
  }

  function ScoresFromJson(ms: seq<(string, Json)>): Option<Scores>
  {
    if ms == [] then Some([])
    else if !ms[0].1.Number? then None
    else
      match ScoresFromJson(ms[1..])
      case Some(rest) => Some([(ms[0].0, ms[0].1.n)] + rest)
      case None => None
  }

  /** Reading back what the route sends gives the result it sent. */
  lemma FromToJson(r: EvaluationResult)
    ensures FromJson(ToJson(r)) == Some(r)
  {
    var ms := ToJson(r).members;
    assert Get(ms, "scores") == Some(Object(ScoresToJson(r.scores)));
    assert Get(ms, "overallFeedback") == Some(Str(r.overallFeedback));
    assert Get(ms[2..], "observation") == Some(Str(r.observation));
    assert Get(ms, "observation") == Get(ms[1..], "observation") == Get(ms[1..][1..], "observation");
    ScoresRoundTrip(r.scores);
  }

  lemma {:induction false} ScoresRoundTrip(scores: Scores)
    ensures ScoresFromJson(ScoresToJson(scores)) == Some(scores)
    decreases |scores|
  {
    if scores != [] {
      var ms := ScoresToJson(scores);
      assert ms[1..] == ScoresToJson(scores[1..]);
      ScoresRoundTrip(scores[1..]);
      assert ms[0] == (scores[0].0, Number(scores[0].1));
      assert ScoresFromJson(ms) == Some([(scores[0].0, scores[0].1)] + scores[1..]);
      assert [(scores[0].0, scores[0].1)] + scores[1..] == scores;
    }
  }
}
