/**
 * Aggregation of the nested result lists into a report: the number of
 * tests, how many passed and failed, the pass rate and the risk label.
 * The pass rate divides by the number of tests, so an empty result list
 * is an error (the division by zero the simulator raises).
 */
module Aggregation {
  import opened Wrappers
  import opened Execution

  datatype RiskLevel = Low | Medium

  datatype AggregationError = DivisionByZero

  /** The aggregated analysis (the fixed "insights" literals are left out). */
  datatype Report = Report(total: nat, passed: nat, failed: nat, risk: RiskLevel)
  {
    /** What every report produced by `Aggregate` satisfies. */
    predicate Valid()
    {
      && total > 0
      && passed + failed == total
      && (risk == Low <==> 100 * passed > 90 * total)
    }
  }

  /** A pass rate strictly above this percentage is low risk. */
  const LowRiskRate: real := 90.0

  /** Number of PASSED records in one result list. */
  function CountPassed(outcomes: seq<TestOutcome>): (n: nat)
    ensures n <= |outcomes|
  {
    if outcomes == [] then 0
    else
      CountPassed(outcomes[..|outcomes| - 1])
      + (if outcomes[|outcomes| - 1].status == Passed then 1 else 0)
  }

  /** Number of records over all the result lists. */
  function TotalCount(all: seq<seq<TestOutcome>>): (n: nat)
    ensures n == |Flatten(all)|
  {
    if all == [] then 0
    else TotalCount(all[..|all| - 1]) + |all[|all| - 1]|
  }

  /** Number of PASSED records over all the result lists. */
  function PassedCount(all: seq<seq<TestOutcome>>): (n: nat)
    ensures n <= TotalCount(all)
  {
    if all == [] then 0
    else PassedCount(all[..|all| - 1]) + CountPassed(all[|all| - 1])
  }

  /** Percentage of tests that passed. */
  function PassRate(passed: nat, total: nat): (rate: real)
    requires 0 < total && passed <= total
    ensures 0.0 <= rate <= 100.0
    ensures rate > LowRiskRate <==> 100 * passed > 90 * total
  {
    var percent := passed as real / total as real * 100.0;
    PercentScale(passed, total, percent);
    percent
  }

  /** The percentage compared with a bound is the count compared with that share of the total. */
  lemma PercentScale(passed: nat, total: nat, percent: real)
    requires 0 < total && passed <= total
    requires percent == passed as real / total as real * 100.0
    ensures 0.0 <= percent <= 100.0
    ensures percent > LowRiskRate <==> 100 * passed > 90 * total
  {
    var t, p := total as real, passed as real;
    PercentTimesTotal(p, t, percent);
    ComparePercent(percent, t, p, 0.0);
    ComparePercent(percent, t, p, 100.0);
    ComparePercent(percent, t, p, LowRiskRate);
    assert 100.0 * p > LowRiskRate * t <==> 100 * passed > 90 * total;
  }

  /** A percentage of t that stands for p compares with a bound as 100 * p compares with that share of t. */
  lemma ComparePercent(percent: real, t: real, p: real, bound: real)
    requires t > 0.0 && percent * t == 100.0 * p
    ensures percent > bound <==> 100.0 * p > bound * t
    ensures percent < bound <==> 100.0 * p < bound * t
  {
    CompareScaled(percent, bound, t);
  }

  /** The percentage times the total is a hundred times the number passed. */
  lemma PercentTimesTotal(p: real, t: real, percent: real)
    requires t > 0.0
    requires percent == p / t * 100.0
    ensures percent * t == 100.0 * p
  {
    var fraction := p / t;
    assert fraction * t == p;
    assert (fraction * 100.0) * t == (fraction * t) * 100.0;
  }

  /** Multiplying both sides by a positive number keeps how two reals compare. */
  lemma CompareScaled(x: real, y: real, t: real)
    requires t > 0.0
    ensures x > y <==> x * t > y * t
    ensures x < y <==> x * t < y * t
  {
    assert x * t - y * t == (x - y) * t;
    if x > y {
      assert (x - y) * t > 0.0;
    } else if x < y {
      assert (y - x) * t > 0.0;
    }
  }

  /** The analysis of the nested result lists, or the division-by-zero error. */
  function Aggregate(all: seq<seq<TestOutcome>>): (r: Result<Report, AggregationError>)
    ensures r.Err? <==> Flatten(all) == []
    ensures r.Ok? ==> r.value.Valid()
    ensures r.Ok? ==> r.value.total == |Flatten(all)|
    ensures r.Ok? ==> r.value.passed == CountPassed(Flatten(all))
  {
    PassedIsFlattenCount(all);
    var total := TotalCount(all);
    var passed := PassedCount(all);
    var failed := total - passed;
    if total == 0 then Err(DivisionByZero)
    else
      var rate := PassRate(passed, total);
      Ok(Report(total, passed, failed, if rate > LowRiskRate then Low else Medium))
  }

  lemma {:induction false} CountPassedAppend(a: seq<TestOutcome>, b: seq<TestOutcome>)
    ensures CountPassed(a + b) == CountPassed(a) + CountPassed(b)
  {
    if b == [] {
      assert a + b == a;
    } else {
      var b' := b[..|b| - 1];
      assert (a + b)[..|a + b| - 1] == a + b';
      assert (a + b)[|a + b| - 1] == b[|b| - 1];
      CountPassedAppend(a, b');
    }
  }

  lemma {:induction false} PassedIsFlattenCount(all: seq<seq<TestOutcome>>)
    ensures PassedCount(all) == CountPassed(Flatten(all))
  {
    if all != [] {
      var init := all[..|all| - 1];
      PassedIsFlattenCount(init);
      CountPassedAppend(Flatten(init), all[|all| - 1]);
    }
  }

  /** Every record counts as passed exactly when every record has status PASSED. */
  lemma {:induction false} AllPassed(outcomes: seq<TestOutcome>)
    ensures CountPassed(outcomes) == |outcomes|
            <==> forall i :: 0 <= i < |outcomes| ==> outcomes[i].status == Passed
  {
    if outcomes != [] {
      var init := outcomes[..|outcomes| - 1];
      AllPassed(init);
      if CountPassed(outcomes) == |outcomes| {
        forall i | 0 <= i < |outcomes| ensures outcomes[i].status == Passed {
          if i < |init| {
            assert outcomes[i] == init[i];
          }
        }
      }
      if forall i :: 0 <= i < |outcomes| ==> outcomes[i].status == Passed {
        forall i | 0 <= i < |init| ensures init[i].status == Passed {
          assert init[i] == outcomes[i];
        }
      }
    }
  }

  /** The records before and after position j, counted apart from the one at j. */
  lemma {:induction false} CountAround(outcomes: seq<TestOutcome>, j: nat)
    requires j < |outcomes|
    ensures CountPassed(outcomes)
            == CountPassed(outcomes[..j]) + CountPassed([outcomes[j]]) + CountPassed(outcomes[j + 1..])
  {
    var before, after := outcomes[..j], outcomes[j + 1..];
    assert outcomes == before + [outcomes[j]] + after;
    CountPassedAppend(before + [outcomes[j]], after);
    CountPassedAppend(before, [outcomes[j]]);
  }

  /**
   * A list holding a FAILED record at `j` has at least one failure, and
   * exactly one exactly when every other record has status PASSED.
   */
  lemma {:induction false} OneFailure(outcomes: seq<TestOutcome>, j: nat)
    requires j < |outcomes| && outcomes[j].status == Failed
    ensures CountPassed(outcomes) < |outcomes|
    ensures CountPassed(outcomes) == |outcomes| - 1
            <==> forall i :: 0 <= i < |outcomes| && i != j ==> outcomes[i].status == Passed
  {
    var before, after := outcomes[..j], outcomes[j + 1..];
    CountAround(outcomes, j);
    assert CountPassed([outcomes[j]]) == 0 by {
      assert [outcomes[j]][..0] == [];
    }
    AllPassed(before);
    AllPassed(after);
    if forall i :: 0 <= i < |outcomes| && i != j ==> outcomes[i].status == Passed {
      forall i | 0 <= i < |before| ensures before[i].status == Passed {
        assert before[i] == outcomes[i];
      }
      forall i | 0 <= i < |after| ensures after[i].status == Passed {
        assert after[i] == outcomes[j + 1 + i];
      }
    }
    if CountPassed(outcomes) == |outcomes| - 1 {
      forall i | 0 <= i < |outcomes| && i != j ensures outcomes[i].status == Passed {
        if i < j {
          assert outcomes[i] == before[i];
        } else {
          assert outcomes[i] == after[i - j - 1];
        }
      }
    }
  }

  /** Whenever the forced failure is among the ids, at least one test fails. */
  lemma ForcedFailureCounted(ids: seq<string>, draws: seq<real>, j: nat)
    requires |ids| == |draws| && j < |ids| && ids[j] == ForcedFailure
    ensures CountPassed(Outcomes(ids, draws)) < |ids|
  {
    OneFailure(Outcomes(ids, draws), j);
  }

  /** The number passed depends only on which records occur, not on their order. */
  lemma {:induction false} CountPassedPermutation(a: seq<TestOutcome>, b: seq<TestOutcome>)
    requires multiset(a) == multiset(b)
    ensures CountPassed(a) == CountPassed(b)
  {
    if a != [] {
      var last := a[|a| - 1];
      assert a == a[..|a| - 1] + [last];
      assert last in multiset(b);
      var j :| 0 <= j < |b| && b[j] == last;
      var rest := b[..j] + b[j + 1..];
      assert b == b[..j] + [last] + b[j + 1..];
      assert multiset(b) == multiset(b[..j]) + multiset{last} + multiset(b[j + 1..]);
      assert multiset(a) == multiset(a[..|a| - 1]) + multiset{last};
      assert multiset(rest) == multiset(b[..j]) + multiset(b[j + 1..]);
      assert multiset(a[..|a| - 1]) == multiset(a) - multiset{last};
      assert multiset(rest) == multiset(b) - multiset{last};
      CountPassedPermutation(a[..|a| - 1], rest);
      CountAround(b, j);
      CountPassedAppend(b[..j], b[j + 1..]);
    } else {
      assert |b| == |multiset(b)| == 0;
    }
  }

  /** Reports agree for result lists holding the same records, however grouped or ordered. */
  lemma AggregateOrderIndependent(all: seq<seq<TestOutcome>>, other: seq<seq<TestOutcome>>)
    requires multiset(Flatten(all)) == multiset(Flatten(other))
    ensures Aggregate(all) == Aggregate(other)
  {
    var a, b := Flatten(all), Flatten(other);
    CountPassedPermutation(a, b);
    SameSize(a, b);
    ReportsAgree(Aggregate(all), Aggregate(other));
  }

  /** Two sequences holding the same elements have the same length. */
  lemma SameSize(a: seq<TestOutcome>, b: seq<TestOutcome>)
    requires multiset(a) == multiset(b)
    ensures |a| == |b|
  {
    assert |a| == |multiset(a)|;
    assert |b| == |multiset(b)|;
  }

  /** Valid reports with the same total and passed count are the same report. */
  lemma ReportsAgree(r: Result<Report, AggregationError>, q: Result<Report, AggregationError>)
    requires r.Err? <==> q.Err?
    requires r.Ok? ==> r.value.Valid() && q.value.Valid()
    requires r.Ok? ==> r.value.total == q.value.total && r.value.passed == q.value.passed
    ensures r == q
  {
    if r.Err? {
      assert r.error == DivisionByZero == q.error;
    } else {
      assert r.value.failed == q.value.failed && r.value.risk == q.value.risk;
    }
  }
}
