/** The recommended actions the feedback panel derives from a result's two
    free-text fields (app/components/FeedbackSection.tsx, `getRecommendedActions`):
    case-insensitive phrase tests, each adding one fixed action, and a default
    when none of them matched. */
module FeedbackSection {
  import opened Text

  const SeekPermission: string := "Critical: Always seek permission before ending the call"
  const ProvideTapeDisclosure: string := "Critical: Ensure tape disclosure is provided at the beginning of every call"
  const BuildUrgency: string := "Improvement: Develop stronger cross-questioning techniques to create urgency"
  const KeepStandards: string := "Continue maintaining current performance standards"

  /** Which of the two texts a trigger searches. */
  datatype Field = OverallFeedback | Observation

  /** A phrase that, found in the lower-cased field, adds the action. */
  datatype Trigger = Trigger(field: Field, phrase: string, action: string)

  /** The triggers, in the order their actions are listed. */
  const Triggers: seq<Trigger> := [
    Trigger(OverallFeedback, "disclaimer", SeekPermission),
    Trigger(Observation, "tape disclosure", ProvideTapeDisclosure),
    Trigger(OverallFeedback, "urgency", BuildUrgency)
  ]

  predicate Fires(t: Trigger, overallFeedback: string, observation: string)
  {
    Contains(Lower(if t.field == OverallFeedback then overallFeedback else observation), t.phrase)
  }

  /** The actions of the triggers that fire, in trigger order. */
  function FiredActions(ts: seq<Trigger>, overallFeedback: string, observation: string): seq<string>
  {
    if ts == [] then []
    else
      (if Fires(ts[0], overallFeedback, observation) then [ts[0].action] else [])
      + FiredActions(ts[1..], overallFeedback, observation)
  }

  /** The list the panel shows: the fired actions, or the default alone when none fired. */
  function RecommendedActions(overallFeedback: string, observation: string): seq<string>
  {
    var fired := FiredActions(Triggers, overallFeedback, observation);
    if fired == [] then [KeepStandards] else fired
  }

  /** `getRecommendedActions`: builds the list by appending, test by test. */
  method GetRecommendedActions(overallFeedback: string, observation: string) returns (actions: seq<string>)
    ensures actions == RecommendedActions(overallFeedback, observation)
  {
    actions := [];
    if Contains(Lower(overallFeedback), "disclaimer") {
      actions := actions + [SeekPermission];
    }
    if Contains(Lower(observation), "tape disclosure") {
      actions := actions + [ProvideTapeDisclosure];
    }
    if Contains(Lower(overallFeedback), "urgency") {
      actions := actions + [BuildUrgency];
    }
    if |actions| == 0 {
      actions := actions + [KeepStandards];
    }
    Unfold(overallFeedback, observation);
  }

  /** Where an action stands in the listing order; the default comes last. */
  function Position(action: string): nat
  {
    if action == SeekPermission then 0
    else if action == ProvideTapeDisclosure then 1
    else if action == BuildUrgency then 2
    else 3
  }

  /** Each action is listed exactly when its phrase occurs in its lower-cased
      field, and the default exactly when no phrase does. */
  lemma ActionPresence(overallFeedback: string, observation: string)
    ensures var r := RecommendedActions(overallFeedback, observation);
      && (SeekPermission in r <==> Contains(Lower(overallFeedback), "disclaimer"))
      && (ProvideTapeDisclosure in r <==> Contains(Lower(observation), "tape disclosure"))
      && (BuildUrgency in r <==> Contains(Lower(overallFeedback), "urgency"))
      && (KeepStandards in r <==>
            && !Contains(Lower(overallFeedback), "disclaimer")
            && !Contains(Lower(observation), "tape disclosure")
            && !Contains(Lower(overallFeedback), "urgency"))
  {
    Unfold(overallFeedback, observation);
  }

  /** The list is never empty, holds at most three actions, and lists them in
      strictly increasing position: fixed order, no duplicates. */
  lemma ActionShape(overallFeedback: string, observation: string)
    ensures var r := RecommendedActions(overallFeedback, observation);
      && 1 <= |r| <= 3
      && (forall i, j :: 0 <= i < j < |r| ==> Position(r[i]) < Position(r[j]))
  {
    Unfold(overallFeedback, observation);
    Positions();
    var r := RecommendedActions(overallFeedback, observation);
    var d := Contains(Lower(overallFeedback), "disclaimer");
    var t := Contains(Lower(observation), "tape disclosure");
    var u := Contains(Lower(overallFeedback), "urgency");
    var s, p, b, k := SeekPermission, ProvideTapeDisclosure, BuildUrgency, KeepStandards;
    if d && t && u { assert r == [s, p, b]; }
    else if d && t { assert r == [s, p]; }
    else if d && u { assert r == [s, b]; }
    else if t && u { assert r == [p, b]; }
    else if d { assert r == [s]; }
    else if t { assert r == [p]; }
    else if u { assert r == [b]; }
    else { assert r == [k]; }
  }

  /** The four actions are distinct, so each has its own position. */
  lemma Positions()
    ensures Position(SeekPermission) == 0 && Position(ProvideTapeDisclosure) == 1
    ensures Position(BuildUrgency) == 2 && Position(KeepStandards) == 3
  {
    assert |SeekPermission| == 55 && |ProvideTapeDisclosure| == 75;
    assert |BuildUrgency| == 76 && |KeepStandards| == 50;
  }

  /** Feedback that mentions a disclaimer and urgency, with an observation that
      does not mention tape disclosure, gets exactly the permission and urgency
      actions. */
  lemma DisclaimerAndUrgencyOnly(overallFeedback: string, observation: string)
    requires Contains(Lower(overallFeedback), "disclaimer")
    requires !Contains(Lower(observation), "tape disclosure")
    requires Contains(Lower(overallFeedback), "urgency")
    ensures RecommendedActions(overallFeedback, observation) == [SeekPermission, BuildUrgency]
  {
    Unfold(overallFeedback, observation);
  }

  /** The fired actions of the three triggers, one test at a time. */
  lemma Unfold(overallFeedback: string, observation: string)
    ensures FiredActions(Triggers, overallFeedback, observation) ==
      (if Contains(Lower(overallFeedback), "disclaimer") then [SeekPermission] else [])
      + (if Contains(Lower(observation), "tape disclosure") then [ProvideTapeDisclosure] else [])
      + (if Contains(Lower(overallFeedback), "urgency") then [BuildUrgency] else [])
  {
    var fb, obs := overallFeedback, observation;
    assert Triggers[1..][1..][1..] == [];
    assert FiredActions(Triggers[1..][1..], fb, obs) ==
      (if Contains(Lower(fb), "urgency") then [BuildUrgency] else []);
  }
}
