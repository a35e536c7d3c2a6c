/** The simulation stage that both tracks share: `run_sim` in harness/runner.py and the results
    file it reads. */
module SimStage {
  import opened Wrappers

  /** The counts that a test suite, or the root of the results file, states. */
  datatype Counts = Counts(tests: int, failures: int, errors: int, skipped: int)

  /** One test case: whether it has a failure or an error, and whether it is marked skipped. */
  datatype Case = Case(failed: bool, skipped: bool)

  /** A results file: its suites, its root, and all its test cases. */
  datatype Results = Results(suites: seq<Counts>, root: Counts, cases: seq<Case>)

  /** An error setting up the tests, or the exit code, the log lines and the results file. */
  datatype SimRun = SimRun(setupError: Option<seq<string>>, code: int, log: seq<string>, results: Results) {
    function Run(): int {
      ParseResults(results).0
    }

    function Passed(): int {
      ParseResults(results).1
    }
  }

  function Sum(counts: seq<Counts>, of: Counts -> int): int {
    if counts == [] then 0 else of(counts[0]) + Sum(counts[1..], of)
  }

  function Count(cases: seq<Case>, has: Case -> bool): nat {
    if cases == [] then 0 else (if has(cases[0]) then 1 else 0) + Count(cases[1..], has)
  }

  function Stated(r: Results): seq<Counts> {
    if r.suites == [] then [r.root] else r.suites
  }

  const TESTS := (c: Counts) => c.tests
  const BAD := (c: Counts) => c.failures + c.errors
  const SKIPPED := (c: Counts) => c.skipped

  /** `_parse_cocotb_results`: the tests run and passed, counted case by case when no suite
      states any. */
  function ParseResults(r: Results): (int, int) {
    var stated := Stated(r);
    var tests := Sum(stated, TESTS);
    if tests != 0 then (tests, tests - Sum(stated, BAD) - Sum(stated, SKIPPED))
    else
      var run := |r.cases|;
      (run, run - Count(r.cases, (c: Case) => c.failed) - Count(r.cases, (c: Case) => c.skipped))
  }

  /** One test, and it passed. */
  const ONE_PASS := Results([Counts(1, 0, 0, 0)], Counts(0, 0, 0, 0), [])

  lemma OnePass()
    ensures ParseResults(ONE_PASS) == (1, 1)
  {
    var counts := ONE_PASS.suites;
    assert counts[1..] == [];
    assert Sum(counts, TESTS) == 1 && Sum(counts, BAD) == 0 && Sum(counts, SKIPPED) == 0;
  }

  predicate SimPasses(s: SimRun) {
    s.setupError.None? && s.code == 0 && s.Run() > 0 && s.Passed() == s.Run()
  }

  function SimLog(s: SimRun): seq<string> {
    if s.setupError.Some? then s.setupError.value else s.log
  }

  method RunSim(sim: SimRun) returns (passed: bool, log: seq<string>)
    ensures passed <==> SimPasses(sim)
    ensures log == SimLog(sim)
  {
    hide ParseResults;
    if sim.setupError.Some? {
      return false, sim.setupError.value;
    }
    log := sim.log;
    if sim.code != 0 {
      return false, log;
    }
    var (run, good) := ParseResults(sim.results);
    if run <= 0 || good != run {
      return false, log;
    }
    passed := true;
  }

  // ----- What passing means -----

  /** No count is negative, as in every file a simulator writes. */
  ghost predicate Plausible(counts: seq<Counts>) {
    forall k :: 0 <= k < |counts| ==>
      counts[k].tests >= 0 && counts[k].failures >= 0 && counts[k].errors >= 0 && counts[k].skipped >= 0
  }

  lemma {:induction false} SumZero(counts: seq<Counts>, of: Counts -> int)
    requires forall k :: 0 <= k < |counts| ==> of(counts[k]) >= 0
    ensures Sum(counts, of) >= 0
    ensures Sum(counts, of) == 0 <==> forall k :: 0 <= k < |counts| ==> of(counts[k]) == 0
  {
    if counts != [] {
      SumZero(counts[1..], of);
      assert forall k :: 0 < k < |counts| ==> counts[k] == counts[1..][k - 1];
      assert forall k :: 0 <= k < |counts| - 1 ==> counts[1..][k] == counts[k + 1];
    }
  }

  lemma {:induction false} CountZero(cases: seq<Case>, has: Case -> bool)
    ensures Count(cases, has) == 0 <==> forall k :: 0 <= k < |cases| ==> !has(cases[k])
  {
    if cases != [] {
      CountZero(cases[1..], has);
      assert forall k :: 0 < k < |cases| ==> cases[k] == cases[1..][k - 1];
      assert forall k :: 0 <= k < |cases| - 1 ==> cases[1..][k] == cases[k + 1];
    }
  }

  /** A simulation passes exactly when it was set up, exited cleanly, and its tests ran and none
      failed or was skipped: by the stated counts if they state any test, else case by case. */
  lemma SimPassesIff(s: SimRun)
    requires Plausible(Stated(s.results))
    ensures var stated, cases := Stated(s.results), s.results.cases;
            SimPasses(s) <==>
            && s.setupError.None? && s.code == 0
            && if exists k :: 0 <= k < |stated| && stated[k].tests > 0
               then forall k :: 0 <= k < |stated| ==>
                      stated[k].failures == 0 && stated[k].errors == 0 && stated[k].skipped == 0
               else cases != [] && forall k :: 0 <= k < |cases| ==> !cases[k].failed && !cases[k].skipped
  {
    var stated, cases := Stated(s.results), s.results.cases;
    SumZero(stated, TESTS);
    SumZero(stated, BAD);
    SumZero(stated, SKIPPED);
    CountZero(cases, (c: Case) => c.failed);
    CountZero(cases, (c: Case) => c.skipped);
  }

  /** Without that, counts can cancel: one negative count hides a skipped test. */
  lemma CountsCancel() returns (s: SimRun)
    ensures !Plausible(Stated(s.results)) && Stated(s.results)[0].skipped > 0 && SimPasses(s)
  {
    var counts := Counts(1, -1, 0, 1);
    s := SimRun(None, 0, [], Results([counts], counts, []));
    assert Stated(s.results)[0] == counts && [counts][1..] == [];
    assert Sum([counts], TESTS) == 1 && Sum([counts], BAD) == -1 && Sum([counts], SKIPPED) == 1;
  }
}
