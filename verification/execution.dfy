/**
 * Simulated execution of one test group: the group's comma-separated test
 * list is split into ids, and each id gets a PASSED or FAILED outcome from
 * its random draw, except the forced failure, which always fails.
 *
 * The random source is a parameter: `draws` holds, in order, the values the
 * generator's `random()` returns for the pass/fail decision of each test.
 */
module Execution {
  import opened CommaSplit

  datatype Status = Passed | Failed

  /** One record appended to a group's result list (the duration is left out). */
  datatype TestOutcome = TestOutcome(test: string, status: Status)

  /** A test group: a display name and its comma-separated test ids. */
  datatype TestGroup = TestGroup(name: string, tests: string)

  /** The id whose outcome is overridden to FAILED whatever its draw. */
  const ForcedFailure: string := "TC007"

  /** A draw strictly above this value passes. */
  const PassThreshold: real := 0.1

  /** The outcome of one test, given the draw taken for it. */
  function RunTest(id: string, draw: real): (o: TestOutcome)
    ensures o.test == id
    ensures id == ForcedFailure ==> o.status == Failed
    ensures id != ForcedFailure ==> (o.status == Passed <==> draw > PassThreshold)
  {
    var passed := id != ForcedFailure && draw > PassThreshold;
    TestOutcome(id, if passed then Passed else Failed)
  }

  /** The outcomes of `ids`, the i-th test decided by the i-th draw. */
  function Outcomes(ids: seq<string>, draws: seq<real>): (outcomes: seq<TestOutcome>)
    requires |ids| == |draws|
    ensures Tests(outcomes) == ids
    ensures forall i :: 0 <= i < |ids| ==>
              (outcomes[i].status == Passed <==> ids[i] != ForcedFailure && draws[i] > PassThreshold)
  {
    seq(|ids|, i requires 0 <= i < |ids| => RunTest(ids[i], draws[i]))
  }

  /** The test ids of a result list, in order. */
  function Tests(outcomes: seq<TestOutcome>): (ids: seq<string>)
    ensures |ids| == |outcomes|
  {
    seq(|outcomes|, i requires 0 <= i < |outcomes| => outcomes[i].test)
  }

  lemma OutcomesAppend(a: seq<string>, da: seq<real>, b: seq<string>, db: seq<real>)
    requires |a| == |da| && |b| == |db|
    ensures Outcomes(a + b, da + db) == Outcomes(a, da) + Outcomes(b, db)
  {
    var l, r := Outcomes(a + b, da + db), Outcomes(a, da) + Outcomes(b, db);
    assert |l| == |r|;
    forall i | 0 <= i < |l| ensures l[i] == r[i] {
      if i < |a| {
        assert (a + b)[i] == a[i] && (da + db)[i] == da[i];
      } else {
        assert (a + b)[i] == b[i - |a|] && (da + db)[i] == db[i - |a|];
      }
    }
  }

  /**
   * Executes the tests of one group: one outcome per comma-separated id,
   * appended in the order of the ids.
   */
  method SimulateTestExecution(group: TestGroup, draws: seq<real>) returns (results: seq<TestOutcome>)
    requires |draws| == |Split(group.tests)|
    ensures results == Outcomes(Split(group.tests), draws)
    ensures Tests(results) == Split(group.tests)
    ensures |results| == SeparatorCount(group.tests) + 1
    ensures Join(Tests(results)) == group.tests
  {
    var tests := Split(group.tests);
    results := [];
    for i := 0 to |tests|
      invariant |results| == i
      invariant forall k :: 0 <= k < i ==> results[k] == RunTest(tests[k], draws[k])
    {
      var outcome := RunTest(tests[i], draws[i]);
      results := results + [outcome];
    }
    assert Tests(results) == tests;
    JoinSplit(group.tests);
  }

  /** The result lists of several groups, concatenated in order. */
  function Flatten(groups: seq<seq<TestOutcome>>): seq<TestOutcome>
  {
    if groups == [] then []
    else Flatten(groups[..|groups| - 1]) + groups[|groups| - 1]
  }

  /** The ids of all the groups, in order. */
  function AllIds(groups: seq<TestGroup>): seq<string>
  {
    if groups == [] then []
    else AllIds(groups[..|groups| - 1]) + Split(groups[|groups| - 1].tests)
  }

  /** Every group has at least one id, so there are at least as many ids as groups. */
  lemma {:induction false} AllIdsCoversGroups(groups: seq<TestGroup>)
    ensures |AllIds(groups)| >= |groups|
  {
    if groups != [] {
      AllIdsCoversGroups(groups[..|groups| - 1]);
    }
  }

  /** The groups before the k-th contribute no more ids than all the groups. */
  lemma {:induction false} AllIdsPrefix(groups: seq<TestGroup>, k: nat)
    requires k <= |groups|
    ensures |AllIds(groups[..k])| <= |AllIds(groups)|
  {
    if k < |groups| {
      var init := groups[..|groups| - 1];
      assert init[..k] == groups[..k];
      AllIdsPrefix(init, k);
    } else {
      assert groups[..k] == groups;
    }
  }
}
