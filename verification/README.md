# AI-powered CI/CD pipeline simulator: the result pipeline

`pipeline_simulator.py` prints a scripted CI/CD run. Most of it is fixed
text. The one part that computes something turns simulated test outcomes
into a report:

1. **Test execution** (`simulate_test_execution`). A group's comma-separated
   test list is split into ids. Each id gets PASSED when its random draw is
   above 0.1, and FAILED otherwise. The id `TC007` is always forced to FAILED.
   One record per id is appended, in order.
2. **Group loop** (`run_pipeline`). The three fixed groups (Authentication,
   Banking Operations, Navigation & UI) run one after the other. Their result
   lists are collected in a list of lists.
3. **Aggregation** (`simulate_ai_aggregation`). The step counts all tests, the
   passed ones and the failed ones, and computes the pass rate. The risk level
   is `low` when the rate is above 90, and `medium` otherwise. With no tests,
   the division raises.
4. **Decisions.** The risk level picks the recommendations branch and the
   overall status: SUCCESS or PARTIAL SUCCESS.

The model is split into modules:

- `CommaSplit` (`split.dfy`) models Python's `str.split(',')`. It is proved
  inverse to a comma join, in both directions.
- `Execution` (`execution.dfy`) holds the outcome of one test and the loop
  that executes one group. The loop is a method proved against a
  specification function.
- `Aggregation` (`aggregation.dfy`) holds the counts, the pass rate and the
  risk level. Division by zero is the `Err(DivisionByZero)` case of a
  `Result`.
- `Pipeline` (`pipeline.dfy`) holds the group loop, the fixed groups, the
  recommendations branch, the overall status, and one whole run.
- `Wrappers` (`wrappers.dfy`) holds the `Result` type.

The random source is a parameter. `draws` are the values `random.random()`
returns for the pass/fail decisions, one per test, in execution order. They
run across all groups.

## Model

| member | source | states |
|---|---|---|
| `CommaSplit.Split` | pipeline_simulator.py:85 | a list with n commas splits into n + 1 pieces, none holding a comma |
| `CommaSplit.JoinSplit` | pipeline_simulator.py:85 | joining the pieces with commas gives back the original test list |
| `CommaSplit.SplitJoin` | pipeline_simulator.py:85 | comma-free ids joined with commas split back into exactly those ids |
| `CommaSplit.SplitCons` | pipeline_simulator.py:85 | a comma-free id followed by a comma becomes the first piece, and the rest splits on its own |
| `CommaSplit.SplitFour` | pipeline_simulator.py:195-197 | four comma-free ids joined by commas (the shape of every fixed group) split into those four ids |
| `Execution.RunTest` | pipeline_simulator.py:92-97 | the record carries the test's id; TC007 is FAILED whatever its draw; any other id is PASSED iff its draw is above 0.1 |
| `Execution.Outcomes` | pipeline_simulator.py:88-106 | the records of a list of ids keep the ids in order, and record i is PASSED iff id i is not TC007 and draw i is above 0.1 |
| `Execution.SimulateTestExecution` | pipeline_simulator.py:82-109 | one record per comma-separated id, in the ids' order, each decided by its own draw; the record ids joined by commas give back the group's list |
| `Execution.AllIdsCoversGroups` | pipeline_simulator.py:85 | every group yields at least one id, so there are at least as many ids as groups |
| `Execution.AllIdsPrefix` | pipeline_simulator.py:200-203 | the groups run so far have used no more draws than the whole run has |
| `Pipeline.ExecuteGroups` | pipeline_simulator.py:200-203 | one result list per group, in group order; together they are the outcomes of all ids with the draws in sequence; each list's ids give back its group's list; no results iff no groups |
| `Aggregation.CountPassed` | pipeline_simulator.py:118 | the number of PASSED records never exceeds the number of records |
| `Aggregation.PassedCount` | pipeline_simulator.py:117-118 | passed tests over the nested lists never exceed the total, so the failed count is not negative |
| `Aggregation.TotalCount` | pipeline_simulator.py:117 | the summed group lengths equal the number of records over all groups |
| `Aggregation.PassedIsFlattenCount` | pipeline_simulator.py:118 | the nested passed count equals the PASSED records in the concatenated lists |
| `Aggregation.CountPassedAppend` | pipeline_simulator.py:118 | the passed count of two lists placed end to end is the sum of their counts |
| `Aggregation.PassRate` | pipeline_simulator.py:120 | the pass rate lies between 0 and 100, and it is above 90 iff 100 * passed > 90 * total |
| `Aggregation.PercentScale` | pipeline_simulator.py:120 | passed / total * 100 compared with 90 matches 100 * passed compared with 90 * total |
| `Aggregation.Aggregate` | pipeline_simulator.py:117-143 | error iff there are no records (division by zero); otherwise total = number of records, passed = PASSED records, passed + failed = total, risk low iff 100 * passed > 90 * total |
| `Aggregation.AllPassed` | pipeline_simulator.py:118 | every record is counted as passed iff every record is PASSED |
| `Aggregation.OneFailure` | pipeline_simulator.py:118-119 | with a FAILED record at j, at least one test fails, and exactly one fails iff every other record is PASSED |
| `Aggregation.ForcedFailureCounted` | pipeline_simulator.py:94-95 | whenever TC007 is among the ids, fewer tests pass than run |
| `Aggregation.CountPassedPermutation` | pipeline_simulator.py:118 | the passed count does not depend on the order of the records |
| `Aggregation.AggregateOrderIndependent` | pipeline_simulator.py:117-140 | the report depends only on which records occur, not on their grouping or order |
| `Pipeline.Recommend` | pipeline_simulator.py:160-166 | the "ready for production" branch iff the risk is low, which means fewer than a tenth of the tests failed; otherwise the review branch, which names at least one failed test |
| `Pipeline.Overall` | pipeline_simulator.py:219 | SUCCESS iff the risk level is low, iff fewer than a tenth of the tests failed; PARTIAL SUCCESS otherwise |
| `Pipeline.AuthenticationIds` | pipeline_simulator.py:195 | the Authentication list splits into TC001 to TC004 |
| `Pipeline.BankingOperationsIds` | pipeline_simulator.py:196 | the Banking Operations list splits into TC005 to TC008 |
| `Pipeline.NavigationIds` | pipeline_simulator.py:197 | the Navigation & UI list splits into TC013, TC014, TC015, TC019 |
| `Pipeline.AllIdsOfThree` | pipeline_simulator.py:194-203 | the ids of three groups are the first group's, then the second's, then the third's |
| `Pipeline.FixedGroupIds` | pipeline_simulator.py:194-198 | the fixed groups yield exactly twelve ids in execution order, with TC007 seventh |
| `Pipeline.FixedOutcomes` | pipeline_simulator.py:94-95 | on the fixed ids at least one test fails, and exactly one fails iff every draw other than TC007's is above 0.1 |
| `Pipeline.RunPipeline` | pipeline_simulator.py:194-221 | a whole run: total 12, passed = the PASSED outcomes of the twelve fixed ids under the given draws, at least one failure; the review branch carries the failed count; the recommendations branch and the SUCCESS status both hold iff the risk is low, iff TC007 is the only failure, iff every other draw is above 0.1 |

## Left out

- Printing is left out: ANSI colours, headers, stage banners and the text of each recommendation. Only the branch taken is modelled.
- Pacing with `time.sleep` and start/execution-time measurement with `datetime` are wall-clock effects. They have no influence on the results.
- The `random` module itself is left out. The pass/fail draws are an input sequence. Other calls to the generator only feed sleep times and durations, which are not modelled. So `draws` holds just the values the pass/fail decision sees.
- Execution.SimulateTestExecution, Pipeline.ExecuteGroups, Pipeline.RunPipeline: each requires exactly one draw per id. The source's generator never runs out, so a caller with too few draws does not arise there.
- The per-test `duration` (`random.uniform(30, 60)`) is floating point and used only for display. `TestOutcome` has no duration field.
- Rendering the pass rate to one decimal is left out. The pass rate is an exact real, so double rounding of `passed / total * 100` is not modelled. Draws are exact reals too, compared with exactly 1/10. `random.random()` returns multiples of 2^-53, and none of them lies between 1/10 and the double nearest 1/10. So the comparison agrees with the double comparison.
- The strategy dictionary, its display-only `parallel_groups` (it lists TC018 where the executed groups have TC019), the AI insights, the confidence score, and the environment-setup and dashboard messages are left out. They are fixed literals with no computation.
- The `test_results` dictionary set in the constructor is left out. It is never read.
- A hardened version would report a 0% pass rate for an empty run. The code divides by zero instead, and the model follows the code with `Err(DivisionByZero)`. With the fixed groups this case cannot happen: `RunPipeline` proves the total is 12.
