/** The fixed, weighted rubric that a call is scored against
    (app/api/analyze-call/route.ts, `EVALUATION_PARAMETERS`). */
module Rubric {

  /** The `inputType` of a parameter: all-or-nothing, or any score up to the weight. */
  datatype Mode = PassFail | Score

  datatype Parameter = Parameter(key: string, name: string, weight: nat, desc: string, inputType: Mode)

  /** The server's table, in its order. */
  const EvaluationParameters: seq<Parameter> := [
    Parameter("greeting", "Greeting", 5, "Call opening within 5 seconds", PassFail),
    Parameter("collectionUrgency", "Collection Urgency", 15, "Create urgency, cross-questioning", Score),
    Parameter("rebuttalCustomerHandling", "Rebuttal Handling", 15, "Address penalties, objections", Score),
    Parameter("callEtiquette", "Call Etiquette", 15, "Tone, empathy, clear speech", Score),
    Parameter("callDisclaimer", "Call Disclaimer", 5, "Take permission before ending", PassFail),
    Parameter("correctDisposition", "Correct Disposition", 10, "Use correct category with remark", PassFail),
    Parameter("callClosing", "Call Closing", 5, "Thank the customer properly", PassFail),
    Parameter("fatalIdentification", "Identification", 5, "Missing agent/customer info", PassFail),
    Parameter("fatalTapeDiscloser", "Tape Disclosure", 10, "Inform customer about recording", PassFail),
    Parameter("fatalToneLanguage", "Tone & Language", 15, "No abusive or threatening speech", PassFail)
  ]

  /** The sum of the weights: the maximum achievable score. */
  function WeightSum(ps: seq<Parameter>): nat
  {
    if ps == [] then 0 else ps[0].weight + WeightSum(ps[1..])
  }

  predicate DistinctKeys(ps: seq<Parameter>)
  {
    forall i, j :: 0 <= i < j < |ps| ==> ps[i].key != ps[j].key
  }

  /** The table has ten parameters with pairwise-distinct keys. */
  lemma RubricKeys()
    ensures |EvaluationParameters| == 10
    ensures DistinctKeys(EvaluationParameters)
  {
    var ps := EvaluationParameters;
    forall i, j | 0 <= i < j < |ps| ensures ps[i].key != ps[j].key {
      assert i in {0, 1, 2, 3, 4, 5, 6, 7, 8};
    }
  }

  /** Every parameter of the table carries some weight. */
  lemma RubricWeightsPositive()
    ensures forall k :: 0 <= k < |EvaluationParameters| ==> EvaluationParameters[k].weight > 0
  {
    forall k | 0 <= k < |EvaluationParameters| ensures EvaluationParameters[k].weight > 0 {
      assert k in {0, 1, 2, 3, 4, 5, 6, 7, 8, 9};
    }
  }

  /** The weights of the table add up to 100. */
  lemma RubricMaximum()
    ensures WeightSum(EvaluationParameters) == 100
  {
  }

  /** The weights split around any one parameter. */
  lemma {:induction false} WeightSumSplit(ps: seq<Parameter>, j: nat)
    requires j < |ps|
    ensures WeightSum(ps) == WeightSum(ps[..j]) + ps[j].weight + WeightSum(ps[j + 1..])
    decreases |ps|
  {
    if j > 0 {
      WeightSumSplit(ps[1..], j - 1);
      assert ps[1..][..j - 1] == ps[1..j];
      assert ps[1..][j..] == ps[j + 1..];
      assert ps[..j] == [ps[0]] + ps[1..j];
      WeightSumAppend([ps[0]], ps[1..j]);
    }
  }

  lemma {:induction false} WeightSumAppend(a: seq<Parameter>, b: seq<Parameter>)
    ensures WeightSum(a + b) == WeightSum(a) + WeightSum(b)
    decreases |a|
  {
    if a == [] {
      assert a + b == b;
    } else {
      assert (a + b)[1..] == a[1..] + b;
      WeightSumAppend(a[1..], b);
    }
  }
}
