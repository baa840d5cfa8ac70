/**
 * The pipeline run: the three fixed test groups are executed one after the
 * other, their result lists are collected and aggregated, and the risk level
 * of the analysis decides the recommendations and the overall status.
 */
module Pipeline {
  import opened Wrappers
  import opened CommaSplit
  import opened Execution
  import opened Aggregation

  /**
   * The groups the pipeline executes, in order. Each test list is the
   * comma-separated string of its ids, written here as its ids and commas
   * placed end to end (the same string).
   */
  const TestGroups: seq<TestGroup> := [
    TestGroup("Authentication", "TC001" + "," + "TC002" + "," + "TC003" + "," + "TC004"),
    TestGroup("Banking Operations", "TC005" + "," + "TC006" + "," + "TC007" + "," + "TC008"),
    TestGroup("Navigation & UI", "TC013" + "," + "TC014" + "," + "TC015" + "," + "TC019")
  ]

  /** The ids of the fixed groups, in execution order. */
  const FixedIds: seq<string> := [
    "TC001", "TC002", "TC003", "TC004",
    "TC005", "TC006", "TC007", "TC008",
    "TC013", "TC014", "TC015", "TC019"
  ]

  /** Which recommendations are given after the analysis. */
  datatype Recommendation = ReadyForProduction | ReviewFailedTests(failedCount: nat)

  datatype OverallStatus = Success | PartialSuccess

  /**
   * Executes the groups in order, each with the next draws of the shared
   * random source, and collects one result list per group.
   */
  method ExecuteGroups(groups: seq<TestGroup>, draws: seq<real>) returns (allResults: seq<seq<TestOutcome>>)
    requires |draws| == |AllIds(groups)|
    ensures |allResults| == |groups|
    ensures Flatten(allResults) == Outcomes(AllIds(groups), draws)
    ensures forall k :: 0 <= k < |groups| ==> |allResults[k]| >= 1 && Join(Tests(allResults[k])) == groups[k].tests
    ensures Flatten(allResults) == [] <==> groups == []
  {
    allResults := [];
    var offset := 0;
    for k := 0 to |groups|
      invariant |allResults| == k
      invariant offset == |AllIds(groups[..k])| <= |draws|
      invariant Flatten(allResults) == Outcomes(AllIds(groups[..k]), draws[..offset])
      invariant forall j :: 0 <= j < k ==> Tests(allResults[j]) == Split(groups[j].tests)
    {
      var ids := Split(groups[k].tests);
      NextGroupIds(groups, k);
      AllIdsPrefix(groups, k + 1);
      var results := SimulateTestExecution(groups[k], draws[offset..offset + |ids|]);
      FlattenStep(allResults, results, AllIds(groups[..k]), ids, draws, offset);
      allResults := allResults + [results];
      offset := offset + |ids|;
    }
    assert groups[..|groups|] == groups;
    assert draws[..offset] == draws;
    AllIdsCoversGroups(groups);
    forall k | 0 <= k < |groups|
      ensures |allResults[k]| >= 1 && Join(Tests(allResults[k])) == groups[k].tests
    {
      JoinSplit(groups[k].tests);
    }
  }

  /** Running one more group adds that group's ids after the ids of the groups before it. */
  lemma NextGroupIds(groups: seq<TestGroup>, k: nat)
    requires k < |groups|
    ensures AllIds(groups[..k + 1]) == AllIds(groups[..k]) + Split(groups[k].tests)
  {
    assert groups[..k + 1][..k] == groups[..k];
  }

  /** Appending a group's outcomes, decided by the next draws, extends the outcomes of all ids so far. */
  lemma FlattenStep(allResults: seq<seq<TestOutcome>>, results: seq<TestOutcome>,
                    done: seq<string>, ids: seq<string>, draws: seq<real>, offset: nat)
    requires offset == |done| && offset + |ids| <= |draws|
    requires Flatten(allResults) == Outcomes(done, draws[..offset])
    requires results == Outcomes(ids, draws[offset..offset + |ids|])
    ensures Flatten(allResults + [results]) == Outcomes(done + ids, draws[..offset + |ids|])
  {
    OutcomesAppend(done, draws[..offset], ids, draws[offset..offset + |ids|]);
    assert draws[..offset] + draws[offset..offset + |ids|] == draws[..offset + |ids|];
    assert (allResults + [results])[..|allResults|] == allResults;
  }

  /** The recommendations branch chosen by the risk level. */
  function Recommend(analysis: Report): (r: Recommendation)
    requires analysis.Valid()
    ensures r.ReadyForProduction? <==> analysis.risk == Low
    ensures r.ReadyForProduction? ==> 10 * analysis.failed < analysis.total
    ensures r.ReviewFailedTests? ==> r.failedCount == analysis.failed >= 1
    ensures r.ReviewFailedTests? ==> 10 * analysis.failed >= analysis.total
  {
    if analysis.risk == Low then ReadyForProduction
    else ReviewFailedTests(analysis.failed)
  }

  /** The overall status reported at the end of the run. */
  function Overall(analysis: Report): (s: OverallStatus)
    requires analysis.Valid()
    ensures s == Success <==> analysis.risk == Low
    ensures s == Success <==> 10 * analysis.failed < analysis.total
  {
    if analysis.risk == Low then Success else PartialSuccess
  }

  /** The first fixed group's test list splits into its four ids. */
  lemma AuthenticationIds()
    ensures Split(TestGroups[0].tests) == ["TC001", "TC002", "TC003", "TC004"]
  {
    SplitFour("TC001", "TC002", "TC003", "TC004");
    assert TestGroups[0].tests == "TC001" + [Separator] + ("TC002" + [Separator] + ("TC003" + [Separator] + "TC004"));
  }

  /** The second fixed group's test list splits into its four ids. */
  lemma BankingOperationsIds()
    ensures Split(TestGroups[1].tests) == ["TC005", "TC006", "TC007", "TC008"]
  {
    SplitFour("TC005", "TC006", "TC007", "TC008");
    assert TestGroups[1].tests == "TC005" + [Separator] + ("TC006" + [Separator] + ("TC007" + [Separator] + "TC008"));
  }

  /** The third fixed group's test list splits into its four ids. */
  lemma NavigationIds()
    ensures Split(TestGroups[2].tests) == ["TC013", "TC014", "TC015", "TC019"]
  {
    SplitFour("TC013", "TC014", "TC015", "TC019");
    assert TestGroups[2].tests == "TC013" + [Separator] + ("TC014" + [Separator] + ("TC015" + [Separator] + "TC019"));
  }

  /** The fixed groups split into exactly the twelve ids, TC007 seventh. */
  lemma FixedGroupIds()
    ensures AllIds(TestGroups) == FixedIds
  {
    AuthenticationIds();
    BankingOperationsIds();
    NavigationIds();
    AllIdsOfThree(TestGroups);
    FixedIdsConcat();
  }

  /** The three groups' id lists placed end to end are the twelve fixed ids. */
  lemma FixedIdsConcat()
    ensures ["TC001", "TC002", "TC003", "TC004"] + ["TC005", "TC006", "TC007", "TC008"]
           + ["TC013", "TC014", "TC015", "TC019"] == FixedIds
  {}

  /** The ids of three groups are the first group's, then the second's, then the third's. */
  lemma AllIdsOfThree(groups: seq<TestGroup>)
    requires |groups| == 3
    ensures AllIds(groups) == Split(groups[0].tests) + Split(groups[1].tests) + Split(groups[2].tests)
  {
    assert groups[..1][..0] == [];
    assert AllIds(groups[..1]) == Split(groups[0].tests);
    assert groups[..2][..1] == groups[..1];
    assert AllIds(groups[..2]) == Split(groups[0].tests) + Split(groups[1].tests);
    assert groups[..2] == groups[..|groups| - 1];
  }

  /** On the fixed ids, TC007 always fails, and it is the only failure exactly when every other draw passes. */
  lemma FixedOutcomes(draws: seq<real>)
    requires |draws| == |FixedIds|
    ensures CountPassed(Outcomes(FixedIds, draws)) < |FixedIds|
    ensures CountPassed(Outcomes(FixedIds, draws)) == |FixedIds| - 1
            <==> forall i :: 0 <= i < |FixedIds| && i != 6 ==> draws[i] > PassThreshold
  {
    var outcomes := Outcomes(FixedIds, draws);
    assert FixedIds[6] == ForcedFailure;
    OneFailure(outcomes, 6);
    forall i | 0 <= i < |FixedIds| && i != 6
      ensures outcomes[i].status == Passed <==> draws[i] > PassThreshold
    {
      assert FixedIds[i] != ForcedFailure;
    }
  }

  /**
   * One whole run on the fixed groups. `draws` are the pass/fail draws of
   * the twelve tests in execution order.
   */
  method RunPipeline(draws: seq<real>) returns (analysis: Report, recommendation: Recommendation, status: OverallStatus)
    requires |draws| == |FixedIds|
    ensures analysis.Valid()
    ensures analysis.total == 12 && analysis.failed >= 1
    ensures analysis.passed == CountPassed(Outcomes(FixedIds, draws))
    ensures recommendation.ReviewFailedTests? ==> recommendation.failedCount == analysis.failed
    ensures recommendation.ReadyForProduction? <==> analysis.risk == Low
    ensures status == Success <==> analysis.risk == Low
    ensures status == Success <==> analysis.failed == 1
    ensures status == Success
            <==> forall i :: 0 <= i < |FixedIds| && i != 6 ==> draws[i] > PassThreshold
  {
    FixedGroupIds();
    var allResults := ExecuteGroups(TestGroups, draws);
    var aggregated := Aggregate(allResults);
    assert aggregated.Ok?;
    analysis := aggregated.value;
    recommendation := Recommend(analysis);
    status := Overall(analysis);
    FixedOutcomes(draws);
  }
}
