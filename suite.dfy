/**
 * The test-runner part every suite class repeats word for word:
 * `run_test` runs one test, appends one `(name, result, error)` entry to
 * `test_results` and returns the result, an exception counting as a
 * failure; `run_all_tests` runs the suite's list in order, counts the
 * passes and succeeds when `passed == total`.
 */
module Suite {
  import opened Wrappers

  /** What a test function did: returned a truth value, or raised an exception with this text. */
  datatype TestRun = Returned(result: bool) | Raised(message: string)

  /** One entry of `test_results`. */
  datatype TestRecord = TestRecord(name: string, result: bool, error: Option<string>)

  /** The entry `run_test` appends. */
  function Record(name: string, run: TestRun): (r: TestRecord)
    ensures r.name == name
    ensures r.error == None <==> run.Returned?
    ensures r.result ==> run == Returned(true)
    ensures run.Returned? ==> r.result == run.result
    ensures run.Raised? ==> !r.result && r.error == Some(run.message)
  {
    match run
    case Returned(b) => TestRecord(name, b, None)
    case Raised(msg) => TestRecord(name, false, Some(msg))
  }

  /** The value `run_test` returns. */
  predicate Passed(run: TestRun)
  {
    run.Returned? && run.result
  }

  /** The entries appended for a list of tests, in order. */
  function Records(tests: seq<(string, TestRun)>): (rs: seq<TestRecord>)
    ensures |rs| == |tests|
    ensures forall i :: 0 <= i < |tests| ==> rs[i] == Record(tests[i].0, tests[i].1)
  {
    if tests == [] then [] else Records(tests[..|tests| - 1]) + [Record(tests[|tests| - 1].0, tests[|tests| - 1].1)]
  }

  /** The final value of the `passed` counter. */
  function PassedCount(tests: seq<(string, TestRun)>): (n: nat)
  {
    if tests == [] then 0
    else PassedCount(tests[..|tests| - 1]) + (if Passed(tests[|tests| - 1].1) then 1 else 0)
  }

  /** The counter never exceeds the number of tests, and reaches it exactly when every test passed. */
  lemma {:induction false} PassedCountAll(tests: seq<(string, TestRun)>)
    ensures PassedCount(tests) <= |tests|
    ensures PassedCount(tests) == |tests| <==> forall i :: 0 <= i < |tests| ==> Passed(tests[i].1)
  {
    if tests != [] {
      var init := tests[..|tests| - 1];
      PassedCountAll(init);
      assert forall i :: 0 <= i < |init| ==> init[i] == tests[i];
    }
  }

  /** A list of five tests passes exactly when each of the five does. */
  lemma AllFivePassed(tests: seq<(string, TestRun)>)
    requires |tests| == 5
    ensures (forall i :: 0 <= i < |tests| ==> Passed(tests[i].1)) <==>
      Passed(tests[0].1) && Passed(tests[1].1) && Passed(tests[2].1) && Passed(tests[3].1) && Passed(tests[4].1)
  {
  }

  /** A list of four tests passes exactly when each of the four does. */
  lemma AllFourPassed(tests: seq<(string, TestRun)>)
    requires |tests| == 4
    ensures (forall i :: 0 <= i < |tests| ==> Passed(tests[i].1)) <==>
      Passed(tests[0].1) && Passed(tests[1].1) && Passed(tests[2].1) && Passed(tests[3].1)
  {
  }

  /** A list of three tests passes exactly when each of the three does. */
  lemma AllThreePassed(tests: seq<(string, TestRun)>)
    requires |tests| == 3
    ensures (forall i :: 0 <= i < |tests| ==> Passed(tests[i].1)) <==>
      Passed(tests[0].1) && Passed(tests[1].1) && Passed(tests[2].1)
  {
  }

  /** The state every suite object carries: the list of results recorded so far. */
  class TestSuite {
    var results: seq<TestRecord>

    constructor ()
      ensures results == []
    {
      results := [];
    }

    /** `run_test`: record the outcome and return it, an exception giving False. */
    method RunTest(name: string, run: TestRun) returns (r: bool)
      modifies this
      ensures results == old(results) + [Record(name, run)]
      ensures r == Passed(run)
    {
      match run {
        case Returned(b) =>
          results := results + [TestRecord(name, b, None)];
          r := b;
        case Raised(msg) =>
          results := results + [TestRecord(name, false, Some(msg))];
          r := false;
      }
    }

    /** `run_all_tests`: one entry per test in order; True exactly when every test passed. */
    method RunAllTests(tests: seq<(string, TestRun)>) returns (ok: bool)
      modifies this
      ensures results == old(results) + Records(tests)
      ensures ok <==> forall i :: 0 <= i < |tests| ==> Passed(tests[i].1)
    {
      var passed := 0;
      var total := |tests|;
      for i := 0 to |tests|
        invariant results == old(results) + Records(tests[..i])
        invariant passed == PassedCount(tests[..i])
      {
        var r := RunTest(tests[i].0, tests[i].1);
        if r {
          passed := passed + 1;
        }
        assert tests[..i + 1][..i] == tests[..i];
      }
      assert tests[..|tests|] == tests;
      PassedCountAll(tests);
      ok := passed == total;
    }
  }
}
