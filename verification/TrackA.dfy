/** The Track A pipeline: the producer (harness/runner.py), the manifest schema
    (harness/schemas/manifest.py), the checker (harness/scoring.py) and the offline re-scorer
    (scripts/rescore_official.py). */
module TrackA {
  import opened SimStage
  import opened TrackAScore
  import opened Wrappers

  // ----- Entities -----

  /** A number a tool reports. */
  datatype Num = Finite(value: real) | NotFinite

  datatype Status = Pass | Fail | Skip

  datatype Name = Lint | Sim | Formal | Synth | Sta | Power | Route | Other(text: string)

  datatype Metric = Warnings | TestsRun | TestsPassed | AreaUm2 | CellCount | WnsNs | TnsNs | FmaxMhz | PowerMw

  datatype Stage = Stage(id: int, name: Name, status: Status,
                         warnings: Option<int>, testsRun: Option<int>, testsPassed: Option<int>,
                         area: Option<real>, cells: Option<int>,
                         wns: Option<real>, tns: Option<real>, fmax: Option<real>, power: Option<real>)

  /** rest stands for the signed fields that no rule here reads. */
  datatype Manifest = Manifest(taskId: string, stages: seq<Stage>, ppa: real, score: real, rest: string,
                               signature: string)

  /** What is fixed: the cube root, the committed reference metrics, and the signature of the
      other fields. */
  datatype Suite = Suite(root: real -> real, refs: map<string, Metrics>, sign: Manifest -> string)

  function Signature(suite: Suite, m: Manifest): string {
    suite.sign(m.(signature := ""))
  }

  function Signed(suite: Suite, m: Manifest): Manifest {
    m.(signature := Signature(suite, m))
  }

  function LoadReference(suite: Suite, taskId: string): (r: Option<Metrics>)
    ensures r.Some? ==> Physical(r.value)
  {
    if taskId in suite.refs then Checked(suite.refs[taskId]) else None
  }

  // ----- Schema -----

  function Present(s: Stage): set<Metric> {
    (if s.warnings.Some? then {Warnings} else {}) + (if s.testsRun.Some? then {TestsRun} else {}) +
    (if s.testsPassed.Some? then {TestsPassed} else {}) + (if s.area.Some? then {AreaUm2} else {}) +
    (if s.cells.Some? then {CellCount} else {}) + (if s.wns.Some? then {WnsNs} else {}) +
    (if s.tns.Some? then {TnsNs} else {}) + (if s.fmax.Some? then {FmaxMhz} else {}) +
    (if s.power.Some? then {PowerMw} else {})
  }

  function Contract(id: int): set<Metric> {
    if id == 0 then {Warnings}
    else if id == 1 then {TestsRun, TestsPassed}
    else if id == 3 then {AreaUm2, CellCount}
    else if id == 4 then {WnsNs, TnsNs, FmaxMhz}
    else if id == 5 then {PowerMw}
    else {}
  }

  function CanonicalName(id: int): Name {
    if id == 0 then Lint else if id == 1 then Sim else if id == 2 then Formal
    else if id == 3 then Synth else if id == 4 then Sta else if id == 5 then Power else Route
  }

  /** The field constraints and `validate_stage_metrics`. */
  predicate StageOk(s: Stage) {
    && 0 <= s.id <= 6
    && (s.warnings.Some? ==> s.warnings.value >= 0) && (s.testsRun.Some? ==> s.testsRun.value >= 0)
    && (s.testsPassed.Some? ==> s.testsPassed.value >= 0) && (s.area.Some? ==> s.area.value > 0.0)
    && (s.cells.Some? ==> s.cells.value >= 0) && (s.fmax.Some? ==> s.fmax.value > 0.0)
    && (s.power.Some? ==> s.power.value >= 0.0)
    && Present(s) == (if s.status == Pass then Contract(s.id) else {})
    && (s.id == 1 && s.status == Pass ==> s.testsRun.value >= 1 && s.testsPassed == s.testsRun)
  }

  predicate InOrder(stages: seq<Stage>) {
    |stages| == 7 && forall i :: 0 <= i < 7 ==> stages[i].id == i && stages[i].name == CanonicalName(i)
  }

  predicate CorrectnessFailed(stages: seq<Stage>)
    requires |stages| == 7
  {
    stages[0].status == Fail || stages[1].status == Fail || stages[2].status == Fail
  }

  predicate PpaStagesPass(stages: seq<Stage>)
    requires |stages| == 7
  {
    stages[3].status == Pass && stages[4].status == Pass && stages[5].status == Pass
  }

  /** `ResultManifest.model_validate` does not raise. */
  predicate Valid(suite: Suite, m: Manifest) {
    && m.taskId != "" && m.ppa >= 0.0 && m.score >= 0.0
    && (forall i :: 0 <= i < |m.stages| ==> StageOk(m.stages[i]))
    && InOrder(m.stages)
    && (CorrectnessFailed(m.stages) ==> m.score == 0.0)
    && (!PpaStagesPass(m.stages) ==> m.ppa == 0.0 && m.score == 0.0)
    && m.signature == Signature(suite, m)
  }

  /** Which metrics a stage states. */
  predicate States(s: Stage, warnings: bool, tests: bool, synth: bool, sta: bool, power: bool) {
    && s.warnings.Some? == warnings && s.testsRun.Some? == s.testsPassed.Some? == tests
    && s.area.Some? == s.cells.Some? == synth
    && s.wns.Some? == s.tns.Some? == s.fmax.Some? == sta && s.power.Some? == power
  }

  /** What the schema asks of a manifest: seven stages in order, each passed one stating exactly
      its own metrics and every other one none, all in range, at least one test and all of them
      passed, scores that are 0 where a gate failed, and the signature. */
  lemma SchemaMeans(suite: Suite, m: Manifest)
    requires Valid(suite, m)
    ensures m.taskId != "" && |m.stages| == 7 && m.signature == suite.sign(m.(signature := ""))
    ensures var s := m.stages;
            && s[0].name == Lint && s[1].name == Sim && s[2].name == Formal && s[3].name == Synth
            && s[4].name == Sta && s[5].name == Power && s[6].name == Route
            && (forall k :: 0 <= k < 7 ==>
                  var passed := s[k].status == Pass;
                  && s[k].id == k
                  && States(s[k], passed && k == 0, passed && k == 1, passed && k == 3, passed && k == 4,
                            passed && k == 5))
            && (s[0].status == Pass ==> s[0].warnings.value >= 0)
            && (s[1].status == Pass ==> s[1].testsRun.value >= 1 && s[1].testsPassed == s[1].testsRun)
            && (s[3].status == Pass ==> s[3].area.value > 0.0 && s[3].cells.value >= 0)
            && (s[4].status == Pass ==> s[4].fmax.value > 0.0)
            && (s[5].status == Pass ==> s[5].power.value >= 0.0)
            && (s[0].status == Fail || s[1].status == Fail || s[2].status == Fail ==> m.score == 0.0)
            && (s[3].status != Pass || s[4].status != Pass || s[5].status != Pass ==> m.ppa == 0.0 && m.score == 0.0)
            && m.ppa >= 0.0 && m.score >= 0.0
  {
    hide StageOk;
    forall k | 0 <= k < 7
      ensures var s, passed := m.stages[k], m.stages[k].status == Pass;
              && s.id == k && StageOk(s)
              && States(s, passed && k == 0, passed && k == 1, passed && k == 3, passed && k == 4, passed && k == 5)
    {
      StageStates(m.stages[k]);
    }
    StageRange(m.stages[0]);
    StageRange(m.stages[1]);
    StageRange(m.stages[3]);
    StageRange(m.stages[4]);
    StageRange(m.stages[5]);
  }

  lemma StageStates(s: Stage)
    requires StageOk(s)
    ensures var p := s.status == Pass; States(s, p && s.id == 0, p && s.id == 1, p && s.id == 3, p && s.id == 4,
                                              p && s.id == 5)
  {
    var present := Present(s);
    assert (Warnings in present <==> s.warnings.Some?) && (TestsRun in present <==> s.testsRun.Some?);
    assert (TestsPassed in present <==> s.testsPassed.Some?) && (AreaUm2 in present <==> s.area.Some?);
    assert (CellCount in present <==> s.cells.Some?) && (WnsNs in present <==> s.wns.Some?);
    assert (TnsNs in present <==> s.tns.Some?) && (FmaxMhz in present <==> s.fmax.Some?);
    assert PowerMw in present <==> s.power.Some?;
  }

  lemma StageRange(s: Stage)
    requires StageOk(s)
    ensures (s.warnings.Some? ==> s.warnings.value >= 0) && (s.area.Some? ==> s.area.value > 0.0)
    ensures (s.cells.Some? ==> s.cells.value >= 0) && (s.fmax.Some? ==> s.fmax.value > 0.0)
    ensures s.power.Some? ==> s.power.value >= 0.0
    ensures s.id == 1 && s.status == Pass ==>
              s.testsRun.Some? && s.testsRun.value >= 1 && s.testsPassed == s.testsRun
  {
    if s.id == 1 && s.status == Pass {
      StageStates(s);
    }
  }

  // ----- Checker -----

  /** `correctness_gates_passed` and `ppa_gates_passed`. */
  predicate GatesPassed(stages: seq<Stage>)
    requires |stages| == 7
  {
    && stages[0].status == Pass && stages[1].status == Pass && stages[2].status != Fail
    && PpaStagesPass(stages)
  }

  /** The recorded metrics as physical quantities, the delay taken at the reference's clock;
      None where building them raises. */
  function Measured(reference: Metrics, stages: seq<Stage>): (r: Option<Metrics>)
    requires |stages| == 7 && stages[3].area.Some? && stages[4].wns.Some? && stages[5].power.Some?
    ensures r.Some? ==> Physical(r.value)
  {
    var delay := DelayFromWns(reference.clock, stages[4].wns.value);
    if delay.None? then None
    else Checked(Metrics(stages[3].area.value, delay.value, stages[5].power.value, reference.clock))
  }

  lemma PassedMetrics(stages: seq<Stage>)
    requires InOrder(stages) && PpaStagesPass(stages) && forall i :: 0 <= i < 7 ==> StageOk(stages[i])
    ensures stages[3].area.Some? && stages[4].wns.Some? && stages[5].power.Some?
    ensures stages[3].area.value > 0.0 && stages[5].power.value >= 0.0
  {
    assert AreaUm2 in Contract(3) && WnsNs in Contract(4) && PowerMw in Contract(5);
    assert AreaUm2 in Present(stages[3]) && WnsNs in Present(stages[4]) && PowerMw in Present(stages[5]);
  }

  /** `score_manifest`; None where it raises. */
  function ScoreManifest(suite: Suite, m: Manifest): Option<real> {
    if !Valid(suite, m) then None
    else if !GatesPassed(m.stages) then
      if m.ppa == 0.0 && m.score == 0.0 then Some(m.score) else None
    else
      var reference := LoadReference(suite, m.taskId);
      if reference.None? then None
      else
        PassedMetrics(m.stages);
        var measured := Measured(reference.value, m.stages);
        if measured.None? then None
        else
          var ppa := Ppa(suite.root, reference.value, measured.value);
          if m.ppa == ppa && TaskScore(ppa) == Some(m.score) then Some(m.score) else None
  }

  // ----- Re-scorer -----

  function FailedStage(s: Stage): Stage {
    if 3 <= s.id <= 5
    then Stage(s.id, s.name, Fail, s.warnings, s.testsRun, s.testsPassed, None, None, None, None, None, None)
    else s
  }

  function FailInvalid(stages: seq<Stage>): (r: seq<Stage>)
    ensures |r| == |stages|
    ensures forall i :: 0 <= i < |stages| ==> r[i] == FailedStage(stages[i])
  {
    seq(|stages|, i requires 0 <= i < |stages| => FailedStage(stages[i]))
  }

  /** What the re-scorer finds in a valid manifest: the stages to keep and the figure; None
      when there is no usable reference. */
  function Recomputed(suite: Suite, m: Manifest): Option<(seq<Stage>, real)>
    requires Valid(suite, m)
  {
    if !GatesPassed(m.stages) then Some((m.stages, 0.0))
    else
      var reference := LoadReference(suite, m.taskId);
      if reference.None? then None
      else
        PassedMetrics(m.stages);
        var measured := Measured(reference.value, m.stages);
        if measured.None? then Some((FailInvalid(m.stages), 0.0))
        else Some((m.stages, Ppa(suite.root, reference.value, measured.value)))
  }

  function Rescore(suite: Suite, m: Manifest, stages: seq<Stage>, ppa: real): Manifest {
    Signed(suite, Manifest(m.taskId, stages, ppa, if ppa > 0.0 then TaskScore(ppa).value else 0.0, m.rest, ""))
  }

  /** `rescore_manifest`; None where it raises. */
  function Rescored(suite: Suite, m: Manifest): Option<Manifest> {
    if !Valid(suite, m) || Recomputed(suite, m).None? then None
    else
      var (stages, ppa) := Recomputed(suite, m).value;
      var after := Rescore(suite, m, stages, ppa);
      if Valid(suite, after) then Some(after) else None
  }

  /** A manifest as the mutable JSON object the re-scorer works on. */
  class Raw {
    const taskId: string
    const rest: string
    const stages: array<Stage>
    var ppa: real
    var score: real
    var signature: string

    function Value(): Manifest
      reads this, stages
    {
      Manifest(taskId, stages[..], ppa, score, rest, signature)
    }

    constructor (m: Manifest)
      ensures Value() == m && fresh(stages)
    {
      taskId, rest, ppa, score, signature := m.taskId, m.rest, m.ppa, m.score, m.signature;
      stages := new Stage[|m.stages|](i requires 0 <= i < |m.stages| => m.stages[i]);
      new;
      assert stages[..] == m.stages;
    }

    /** `_fail_invalid_ppa_stages`. */
    method FailInvalidPpaStages()
      modifies stages
      ensures stages[..] == FailInvalid(old(stages[..]))
    {
      ghost var was := stages[..];
      for i := 0 to stages.Length
        invariant forall k :: 0 <= k < i ==> stages[k] == FailedStage(was[k])
        invariant forall k :: i <= k < stages.Length ==> stages[k] == was[k]
      {
        if 3 <= stages[i].id <= 5 {
          stages[i] := stages[i].(status := Fail, area := None, cells := None, wns := None, tns := None, fmax := None,
                                  power := None);
        }
      }
      assert stages[..] == FailInvalid(was);
    }

    /** `rescore_manifest`; false where it raises.  It raises before it has changed anything,
        or not at all. */
    method RescoreManifest(suite: Suite) returns (ok: bool)
      requires CubeRoots(suite.root)
      modifies this, stages
      ensures ok <==> Rescored(suite, old(Value())).Some?
      ensures ok ==> Value() == Rescored(suite, old(Value())).value
      ensures !ok ==> Value() == old(Value())
    {
      hide StageOk, Ppa, Measured, Checked, FailInvalid;
      ghost var m := Value();
      if !Valid(suite, Value()) {
        return false;
      }
      RescoredIsValid(suite, m);
      var figure := 0.0;
      if GatesPassed(stages[..]) {
        var reference := LoadReference(suite, taskId);
        if reference.None? {
          return false;
        }
        PassedMetrics(stages[..]);
        var measured := Measured(reference.value, stages[..]);
        if measured.None? {
          FailInvalidPpaStages();
        } else {
          figure := Ppa(suite.root, reference.value, measured.value);
        }
      }
      assert (stages[..], figure) == Recomputed(suite, m).value;
      ppa := figure;
      score := if figure > 0.0 then TaskScore(figure).value else 0.0;
      signature := Signature(suite, Value());
      assert Value() == Rescore(suite, m, stages[..], figure);
      ok := Valid(suite, Value());
    }
  }

  // ----- Checker and re-scorer -----

  lemma FailedIsOk(s: Stage)
    requires StageOk(s)
    ensures StageOk(FailedStage(s))
  {
    if 3 <= s.id <= 5 {
      assert Present(s) <= Contract(s.id);
      assert Warnings !in Contract(s.id) && TestsRun !in Contract(s.id) && TestsPassed !in Contract(s.id);
      assert Warnings !in Present(s) && TestsRun !in Present(s) && TestsPassed !in Present(s);
      assert Present(FailedStage(s)) == {};
    }
  }

  lemma PpaPositive(suite: Suite, reference: Metrics, measured: Metrics)
    requires CubeRoots(suite.root) && Physical(reference) && Physical(measured)
    ensures Ppa(suite.root, reference, measured) > 0.0
  {
    ProductPositive(reference, measured);
  }

  /** The re-scorer's own final validation never fails. */
  lemma RescoredIsValid(suite: Suite, m: Manifest)
    requires CubeRoots(suite.root) && Valid(suite, m)
    ensures Rescored(suite, m).Some? <==> Recomputed(suite, m).Some?
    ensures Recomputed(suite, m).Some? ==>
              var (stages, ppa) := Recomputed(suite, m).value;
              Rescored(suite, m) == Some(Rescore(suite, m, stages, ppa))
  {
    hide StageOk, Ppa, Measured;
    if Recomputed(suite, m).Some? {
      var (stages, ppa) := Recomputed(suite, m).value;
      if GatesPassed(m.stages) {
        var reference := LoadReference(suite, m.taskId).value;
        PassedMetrics(m.stages);
        if Measured(reference, m.stages).Some? {
          PpaPositive(suite, reference, Measured(reference, m.stages).value);
        } else {
          forall i | 0 <= i < 7 ensures StageOk(stages[i]) {
            FailedIsOk(m.stages[i]);
          }
        }
      }
    }
  }

  /** Re-scoring succeeds on exactly the valid manifests that did not pass every gate or
      whose task has a usable reference. */
  lemma RescoreSucceedsIff(suite: Suite, m: Manifest)
    requires CubeRoots(suite.root)
    ensures Rescored(suite, m).Some? <==>
            Valid(suite, m) && (GatesPassed(m.stages) ==> LoadReference(suite, m.taskId).Some?)
  {
    hide StageOk, Ppa, Measured, FailInvalid;
    if Valid(suite, m) {
      RescoredIsValid(suite, m);
    }
  }

  /** The checker accepts exactly the fixed points of the re-scorer. */
  lemma CheckerAcceptsFixedPoints(suite: Suite, m: Manifest)
    requires CubeRoots(suite.root)
    ensures ScoreManifest(suite, m).Some? <==> Rescored(suite, m) == Some(m)
    ensures ScoreManifest(suite, m).Some? ==> ScoreManifest(suite, m).value == m.score
  {
    hide StageOk, Ppa, Measured, TaskScore;
    if Valid(suite, m) {
      RescoredIsValid(suite, m);
      if Recomputed(suite, m).Some? && GatesPassed(m.stages) {
        var reference := LoadReference(suite, m.taskId).value;
        PassedMetrics(m.stages);
        if Measured(reference, m.stages).Some? {
          PpaPositive(suite, reference, Measured(reference, m.stages).value);
          PositiveScores(Ppa(suite.root, reference, Measured(reference, m.stages).value));
        } else {
          assert FailInvalid(m.stages)[3] == FailedStage(m.stages[3]);
        }
      }
    }
  }

  lemma PositiveScores(p: real)
    requires p > 0.0
    ensures TaskScore(p).Some?
  {
  }

  /** Re-scoring twice changes nothing more, and what it writes is accepted. */
  lemma RescoreIdempotent(suite: Suite, m: Manifest)
    requires CubeRoots(suite.root)
    ensures Rescored(suite, m).Some? ==>
              var after := Rescored(suite, m).value;
              Rescored(suite, after) == Some(after) && ScoreManifest(suite, after) == Some(after.score)
  {
    hide StageOk, Ppa, Measured, TaskScore;
    if Rescored(suite, m).None? {
      return;
    }
    RescoredIsValid(suite, m);
    var (stages, ppa) := Recomputed(suite, m).value;
    var after := Rescored(suite, m).value;
    assert after == Rescore(suite, m, stages, ppa);
    RescoredIsValid(suite, after);
    assert Recomputed(suite, after) == Some((stages, ppa)) by {
      if GatesPassed(m.stages) {
        var reference := LoadReference(suite, m.taskId).value;
        PassedMetrics(m.stages);
        if Measured(reference, m.stages).None? {
          assert FailInvalid(m.stages)[3] == FailedStage(m.stages[3]);
        }
      }
    }
    CheckerAcceptsFixedPoints(suite, after);
  }

  // ----- What checker and re-scorer compute -----

  /** No correctness gate failed, lint and simulation passed, and so did the physical stages. */
  predicate AllGatesPass(s: seq<Stage>)
    requires |s| == 7
  {
    && s[0].status == Pass && s[1].status == Pass && s[2].status != Fail
    && s[3].status == Pass && s[4].status == Pass && s[5].status == Pass
  }

  /** The figure p and the score of stages with these metrics against a reference: the positive
      cube root of the product of the three ratios, the delay being taken at the reference's
      clock, and its share of 1.5, at most 100. */
  predicate ScoredAgainst(reference: Metrics, area: real, wns: real, power: real, p: real, score: real) {
    && area > 0.0 && reference.clock - wns > 0.0 && power > 0.0 && p > 0.0
    && p * p * p == (reference.area / area) * (reference.delay / (reference.clock - wns)) * (reference.power / power)
    && score == if p >= 1.5 then 100.0 else 100.0 * p / 1.5
  }

  lemma ScoredIff(suite: Suite, reference: Metrics, stages: seq<Stage>, p: real, score: real)
    requires CubeRoots(suite.root) && Physical(reference)
    requires |stages| == 7 && stages[3].area.Some? && stages[4].wns.Some? && stages[5].power.Some?
    ensures ScoredAgainst(reference, stages[3].area.value, stages[4].wns.value, stages[5].power.value, p, score) <==>
            var measured := Measured(reference, stages);
            measured.Some? && p == Ppa(suite.root, reference, measured.value) && TaskScore(p) == Some(score)
  {
    var measured := Measured(reference, stages);
    if measured.Some? {
      PpaIsTheCubeRoot(suite.root, reference, measured.value, p);
      PpaPositive(suite, reference, measured.value);
    }
  }

  /** The checker accepts a manifest of the schema exactly when all gates passed and its figure
      and score are those of its recorded metrics, or some gate did not and both are 0. */
  lemma CheckerMeans(suite: Suite, m: Manifest)
    requires CubeRoots(suite.root) && Valid(suite, m)
    ensures AllGatesPass(m.stages) ==>
              m.stages[3].area.Some? && m.stages[4].wns.Some? && m.stages[5].power.Some?
    ensures ScoreManifest(suite, m).Some? <==>
            if AllGatesPass(m.stages) then
              && m.taskId in suite.refs && Physical(suite.refs[m.taskId])
              && ScoredAgainst(suite.refs[m.taskId], m.stages[3].area.value, m.stages[4].wns.value,
                               m.stages[5].power.value, m.ppa, m.score)
            else m.ppa == 0.0 && m.score == 0.0
  {
    hide StageOk, Ppa, Measured, TaskScore, ScoredAgainst;
    if AllGatesPass(m.stages) {
      PassedMetrics(m.stages);
      var reference := LoadReference(suite, m.taskId);
      if reference.Some? {
        ScoredIff(suite, reference.value, m.stages, m.ppa, m.score);
      }
    }
  }

  /** Status and metrics of a physical stage are gone, and nothing else. */
  predicate Stripped(s: Stage, after: Stage) {
    after == s.(status := Fail, area := None, cells := None, wns := None, tns := None, fmax := None, power := None)
  }

  /** Re-scoring keeps task, signed rest and, in the order they are in, all stages, and signs the
      result anew.  When all gates passed it sets figure and score from the recorded metrics, or,
      when these do not give a physical delay or power, strips the three physical stages and sets
      both to 0; otherwise it sets both to 0. */
  lemma RescoredMeans(suite: Suite, m: Manifest)
    requires CubeRoots(suite.root) && Rescored(suite, m).Some?
    ensures Valid(suite, m) && |m.stages| == |Rescored(suite, m).value.stages| == 7
    ensures var after := Rescored(suite, m).value;
            && after.taskId == m.taskId && after.rest == m.rest
            && after.signature == suite.sign(after.(signature := ""))
            && if !AllGatesPass(m.stages) then after.stages == m.stages && after.ppa == 0.0 && after.score == 0.0
               else
                 && m.taskId in suite.refs && m.stages[3].area.Some? && m.stages[4].wns.Some? && m.stages[5].power.Some?
                 && var reference := suite.refs[m.taskId];
                    if reference.clock - m.stages[4].wns.value > 0.0 && m.stages[5].power.value > 0.0 then
                      && after.stages == m.stages
                      && ScoredAgainst(reference, m.stages[3].area.value, m.stages[4].wns.value,
                                       m.stages[5].power.value, after.ppa, after.score)
                    else
                      && after.ppa == 0.0 && after.score == 0.0
                      && forall k :: 0 <= k < 7 ==>
                           if 3 <= k <= 5 then Stripped(m.stages[k], after.stages[k])
                           else after.stages[k] == m.stages[k]
  {
    hide StageOk, Ppa, TaskScore, ScoredAgainst;
    RescoredIsValid(suite, m);
    if AllGatesPass(m.stages) {
      PassedMetrics(m.stages);
      var reference := LoadReference(suite, m.taskId).value;
      var measured := Measured(reference, m.stages);
      if measured.Some? {
        PpaPositive(suite, reference, measured.value);
        PositiveScores(Ppa(suite.root, reference, measured.value));
        var after := Rescored(suite, m).value;
        ScoredIff(suite, reference, m.stages, after.ppa, after.score);
      }
    }
  }

  // ----- Producer -----

  datatype Task = Task(id: string, clock: Num)

  datatype Flows = Flows(area: Num, cells: int, wns: Num, tns: Num, fmax: Num, power: Num)

  datatype FormalRun = FormalRun(required: bool, propsExist: bool, code: int)

  /** What the tools report; flows is None when one of them fails. */
  datatype Tools = Tools(sourceOk: bool, lintCode: int, sim: SimRun, formal: FormalRun, flows: Option<Flows>)

  function Plain(id: int, status: Status): Stage {
    Stage(id, CanonicalName(id), status, None, None, None, None, None, None, None, None, None)
  }

  predicate Above(x: Num, bound: real) {
    x.Finite? && x.value > bound
  }

  predicate SynthOk(f: Flows) {
    Above(f.area, 0.0) && f.cells >= 0
  }

  predicate StaOk(clock: Num, f: Flows) {
    && Above(clock, 0.0) && f.wns.Finite? && 0.0 <= f.wns.value < clock.value
    && f.tns.Finite? && Above(f.fmax, 0.0)
  }

  predicate PowerOk(f: Flows) {
    Above(f.power, 0.0)
  }

  function FlowStages(clock: Num, flows: Option<Flows>): (r: seq<Stage>)
    ensures |r| == 3
  {
    if flows.None? then [Plain(3, Fail), Plain(4, Fail), Plain(5, Fail)]
    else
      var f := flows.value;
      [if SynthOk(f) then Plain(3, Pass).(area := Some(f.area.value), cells := Some(f.cells)) else Plain(3, Fail),
       if StaOk(clock, f)
       then Plain(4, Pass).(wns := Some(f.wns.value), tns := Some(f.tns.value), fmax := Some(f.fmax.value))
       else Plain(4, Fail),
       if PowerOk(f) then Plain(5, Pass).(power := Some(f.power.value)) else Plain(5, Fail)]
  }

  function FormalStatus(f: FormalRun): Status {
    if !f.required then Skip else if f.propsExist && f.code == 0 then Pass else Fail
  }

  predicate SimReached(tools: Tools) {
    tools.sourceOk && tools.lintCode == 0
  }

  predicate FlowsReached(tools: Tools) {
    SimReached(tools) && SimPasses(tools.sim) && FormalStatus(tools.formal) != Fail
  }

  predicate EverythingPasses(task: Task, tools: Tools) {
    FlowsReached(tools) && tools.flows.Some? &&
    SynthOk(tools.flows.value) && StaOk(task.clock, tools.flows.value) && PowerOk(tools.flows.value)
  }

  function LintStage(tools: Tools): Stage {
    if SimReached(tools) then Plain(0, Pass).(warnings := Some(0)) else Plain(0, Fail)
  }

  function SimulationStage(tools: Tools): Stage {
    if SimReached(tools) && SimPasses(tools.sim)
    then Plain(1, Pass).(testsRun := Some(tools.sim.Run()), testsPassed := Some(tools.sim.Passed()))
    else Plain(1, Fail)
  }

  function FormalStage(tools: Tools): Stage {
    Plain(2, if SimReached(tools) && SimPasses(tools.sim) then FormalStatus(tools.formal) else Fail)
  }

  function AllStages(task: Task, tools: Tools): (r: seq<Stage>)
    ensures |r| == 7
  {
    [LintStage(tools), SimulationStage(tools), FormalStage(tools)] +
    FlowStages(task.clock, if FlowsReached(tools) then tools.flows else None) + [Plain(6, Skip)]
  }

  /** The physical quantities at the clock the run was made with. */
  function OwnMetrics(task: Task, tools: Tools): (r: Metrics)
    requires EverythingPasses(task, tools)
    ensures Physical(r)
  {
    var f := tools.flows.value;
    Metrics(f.area.value, task.clock.value - f.wns.value, f.power.value, task.clock.value)
  }

  /** The manifest of a run; None when it raises for want of a reference. */
  function Outcome(suite: Suite, task: Task, tools: Tools, rest: string): Option<Manifest> {
    if !EverythingPasses(task, tools) then
      Some(Signed(suite, Manifest(task.id, AllStages(task, tools), 0.0, 0.0, rest, "")))
    else
      var reference := LoadReference(suite, task.id);
      if reference.None? then None
      else
        var ppa := Ppa(suite.root, reference.value, OwnMetrics(task, tools));
        if ppa < 0.0 then None
        else Some(Signed(suite, Manifest(task.id, AllStages(task, tools), ppa, TaskScore(ppa).value, rest, "")))
  }

  lemma NoFlows(clock: Num)
    ensures FlowStages(clock, None) == [Plain(3, Fail), Plain(4, Fail), Plain(5, Fail)]
  {
  }

  /** `run_ppa_flows`. */
  method RunPpaFlows(clock: Num, flows: Option<Flows>) returns (stages: seq<Stage>, invalid: seq<string>)
    ensures stages == FlowStages(clock, flows)
    ensures flows.Some? && stages[0].status == stages[1].status == stages[2].status == Pass ==> invalid == []
  {
    invalid := [];
    if flows.None? {
      return [Plain(3, Fail), Plain(4, Fail), Plain(5, Fail)], [];
    }
    var f := flows.value;
    var synthPass := f.area.Finite? && f.area.value > 0.0 && f.cells >= 0;
    var staValid := false;
    if clock.Finite? && f.wns.Finite? {
      var delay := DelayFromWns(clock.value, f.wns.value);
      if delay.Some? {
        staValid := f.tns.Finite? && f.fmax.Finite? && f.fmax.value > 0.0;
      }
    }
    var staPass := staValid && f.wns.value >= 0.0;
    var powerPass := f.power.Finite? && f.power.value > 0.0;

    var synth := Plain(3, if synthPass then Pass else Fail);
    if synthPass {
      synth := synth.(area := Some(f.area.value), cells := Some(f.cells));
    }
    var sta := Plain(4, if staPass then Pass else Fail);
    if staPass {
      sta := sta.(wns := Some(f.wns.value), tns := Some(f.tns.value), fmax := Some(f.fmax.value));
    }
    var power := Plain(5, if powerPass then Pass else Fail);
    if powerPass {
      power := power.(power := Some(f.power.value));
    }
    if !synthPass {
      invalid := invalid + ["synth area/cell count"];
    }
    if !staValid {
      invalid := invalid + ["STA delay/frequency"];
    }
    if !powerPass {
      invalid := invalid + ["power"];
    }
    stages := [synth, sta, power];
  }

  /** The stage chain of `run_task`, up to and including the route stage. */
  method RunStages(task: Task, tools: Tools) returns (stages: seq<Stage>)
    ensures stages == AllStages(task, tools)
  {
    hide FlowStages;
    stages := [];
    if !tools.sourceOk {
      for id := 0 to 6
        invariant |stages| == id && forall k :: 0 <= k < id ==> stages[k] == Plain(k, Fail)
      {
        stages := stages + [Plain(id, Fail)];
      }
    } else {
      if tools.lintCode == 0 {
        stages := stages + [Plain(0, Pass).(warnings := Some(0))];
        var passed, _ := RunSim(tools.sim);
        if passed {
          var run, good := tools.sim.Run(), tools.sim.Passed();
          stages := stages + [Plain(1, Pass).(testsRun := Some(run), testsPassed := Some(good))];
        } else {
          stages := stages + [Plain(1, Fail)];
        }
      } else {
        stages := stages + [Plain(0, Fail)];
        stages := stages + [Plain(1, Fail)];
      }
      if stages[|stages| - 1].status == Pass {
        stages := stages + [Plain(2, FormalStatus(tools.formal))];
      } else {
        stages := stages + [Plain(2, Fail)];
      }
      if stages[0].status != Fail && stages[1].status != Fail && stages[2].status != Fail {
        var flowStages, _ := RunPpaFlows(task.clock, tools.flows);
        stages := stages + flowStages;
      } else {
        stages := stages + [Plain(3, Fail), Plain(4, Fail), Plain(5, Fail)];
      }
    }
    NoFlows(task.clock);
    stages := stages + [Plain(6, Skip)];
    assert stages == AllStages(task, tools);
  }

  /** `run_task`; None where it raises. */
  method RunTask(suite: Suite, task: Task, tools: Tools, rest: string) returns (out: Option<Manifest>)
    requires CubeRoots(suite.root) && task.id != ""
    ensures out == Outcome(suite, task, tools, rest)
  {
    hide Present, StageOk, Ppa;
    var stages := RunStages(task, tools);
    var correct := stages[0].status != Fail && stages[1].status != Fail && stages[2].status != Fail;
    var flowsPass := stages[3].status == Pass && stages[4].status == Pass && stages[5].status == Pass;
    GatesMean(task, tools);
    OutcomeIsValid(suite, task, tools, rest);
    var ppa, score := 0.0, 0.0;
    if correct && flowsPass {
      var delay := DelayFromWns(task.clock.value, stages[4].wns.value);
      var measured := Metrics(stages[3].area.value, delay.value, stages[5].power.value, task.clock.value);
      assert measured == OwnMetrics(task, tools);
      var reference := LoadReference(suite, task.id);
      if reference.None? {
        return None;
      }
      ppa := Ppa(suite.root, reference.value, measured);
      PpaPositive(suite, reference.value, measured);
      score := TaskScore(ppa).value;
    }
    var m := Signed(suite, Manifest(task.id, stages, ppa, score, rest, ""));
    out := if Valid(suite, m) then Some(m) else None;
  }

  lemma GatesMean(task: Task, tools: Tools)
    ensures var s := AllStages(task, tools);
            && ((s[0].status != Fail && s[1].status != Fail && s[2].status != Fail) <==> FlowsReached(tools))
            && (FlowsReached(tools) && PpaStagesPass(s) <==> EverythingPasses(task, tools))
            && (GatesPassed(s) <==> EverythingPasses(task, tools))
            && (EverythingPasses(task, tools) ==>
                  var f := tools.flows.value;
                  s[3].area == Some(f.area.value) && s[4].wns == Some(f.wns.value) && s[5].power == Some(f.power.value))
  {
  }

  lemma FlowStageOk(clock: Num, flows: Option<Flows>, i: int)
    requires 0 <= i < 3
    ensures StageOk(FlowStages(clock, flows)[i])
    ensures FlowStages(clock, flows)[i].id == 3 + i && FlowStages(clock, flows)[i].name == CanonicalName(3 + i)
  {
  }

  lemma FrontStagesOk(tools: Tools)
    ensures StageOk(LintStage(tools)) && StageOk(SimulationStage(tools)) && StageOk(FormalStage(tools))
            && StageOk(Plain(6, Skip))
  {
  }

  lemma StagesOk(task: Task, tools: Tools)
    ensures forall i :: 0 <= i < 7 ==> StageOk(AllStages(task, tools)[i])
    ensures InOrder(AllStages(task, tools))
  {
    hide FlowStages, StageOk;
    var s := AllStages(task, tools);
    var flows := if FlowsReached(tools) then tools.flows else None;
    FrontStagesOk(tools);
    FlowStageOk(task.clock, flows, 0);
    FlowStageOk(task.clock, flows, 1);
    FlowStageOk(task.clock, flows, 2);
    assert s[3..6] == FlowStages(task.clock, flows);
    assert s[3] == FlowStages(task.clock, flows)[0] && s[4] == FlowStages(task.clock, flows)[1]
           && s[5] == FlowStages(task.clock, flows)[2];
  }

  /** Whatever the tools report, the manifest a run builds satisfies every schema rule, and
      a run raises only when everything passed and there is no usable reference. */
  lemma OutcomeIsValid(suite: Suite, task: Task, tools: Tools, rest: string)
    requires CubeRoots(suite.root) && task.id != ""
    ensures var out := Outcome(suite, task, tools, rest);
            && (out.None? <==> EverythingPasses(task, tools) && LoadReference(suite, task.id).None?)
            && (out.Some? ==> Valid(suite, out.value))
  {
    hide StageOk, Ppa, Present, FlowStages, AllStages, InOrder;
    StagesOk(task, tools);
    GatesMean(task, tools);
    if EverythingPasses(task, tools) && LoadReference(suite, task.id).Some? {
      PpaPositive(suite, LoadReference(suite, task.id).value, OwnMetrics(task, tools));
    }
  }

  /** The correctness verdicts of a run, on what the tools reported: lint needs a readable source
      and exit code 0, simulation needs lint, and a formal proof is skipped unless required and
      then needs its properties and exit code 0. */
  lemma CorrectnessVerdicts(suite: Suite, task: Task, tools: Tools, rest: string)
    requires Outcome(suite, task, tools, rest).Some?
    ensures var s := Outcome(suite, task, tools, rest).value.stages;
            var lintOk := tools.sourceOk && tools.lintCode == 0;
            var simOk := lintOk && SimPasses(tools.sim);
            && |s| == 7 && s[6].status == Skip
            && s[0].status == (if lintOk then Pass else Fail)
            && s[1].status == (if simOk then Pass else Fail)
            && (lintOk ==> s[0].warnings == Some(0))
            && (simOk ==> s[1].testsRun == s[1].testsPassed == Some(tools.sim.Run()))
            && s[2].status == (if !simOk then Fail
                               else if !tools.formal.required then Skip
                               else if tools.formal.propsExist && tools.formal.code == 0 then Pass
                               else Fail)
  {
    hide Ppa, TaskScore, LoadReference, SimPasses, FlowStages, EverythingPasses;
    StagesOfOutcome(suite, task, tools, rest);
    if SimPasses(tools.sim) {
      PassedAll(tools.sim);
    }
  }

  lemma PassedAll(sim: SimRun)
    requires SimPasses(sim)
    ensures sim.Run() == sim.Passed()
  {
    hide ParseResults;
  }

  /** The physical verdicts: when simulation passed and no proof failed, each stage passes
      exactly on finite metrics in range, which it records; otherwise all three fail. */
  lemma PhysicalVerdicts(suite: Suite, task: Task, tools: Tools, rest: string)
    requires Outcome(suite, task, tools, rest).Some?
    ensures var s := Outcome(suite, task, tools, rest).value.stages;
            |s| == 7 &&
            if s[1].status != Pass || s[2].status == Fail || tools.flows.None? then
              s[3].status == s[4].status == s[5].status == Fail
            else
              var f, clock := tools.flows.value, task.clock;
              && (s[3].status == if f.area.Finite? && f.area.value > 0.0 && f.cells >= 0 then Pass else Fail)
              && (s[4].status == if && clock.Finite? && f.wns.Finite? && 0.0 <= f.wns.value < clock.value
                                    && f.tns.Finite? && f.fmax.Finite? && f.fmax.value > 0.0 then Pass else Fail)
              && (s[5].status == if f.power.Finite? && f.power.value > 0.0 then Pass else Fail)
              && (s[3].status == Pass ==> s[3].area == Some(f.area.value) && s[3].cells == Some(f.cells))
              && (s[4].status == Pass ==> && s[4].wns == Some(f.wns.value) && s[4].tns == Some(f.tns.value)
                                          && s[4].fmax == Some(f.fmax.value))
              && (s[5].status == Pass ==> s[5].power == Some(f.power.value))
  {
    hide Ppa, TaskScore, LoadReference, SimPasses, FlowStages, LintStage, SimulationStage, FormalStage,
      EverythingPasses, FlowsReached;
    StagesOfOutcome(suite, task, tools, rest);
    ReachedIff(task, tools);
    FlowVerdicts(task.clock, if FlowsReached(tools) then tools.flows else None);
  }

  lemma ReachedIff(task: Task, tools: Tools)
    ensures var s := AllStages(task, tools); FlowsReached(tools) <==> s[1].status == Pass && s[2].status != Fail
  {
    hide FlowStages, SimPasses;
  }

  lemma FlowVerdicts(clock: Num, flows: Option<Flows>)
    ensures var s := FlowStages(clock, flows);
            if flows.None? then s[0].status == s[1].status == s[2].status == Fail
            else
              var f := flows.value;
              && (s[0].status == if f.area.Finite? && f.area.value > 0.0 && f.cells >= 0 then Pass else Fail)
              && (s[1].status == if && clock.Finite? && f.wns.Finite? && 0.0 <= f.wns.value < clock.value
                                    && f.tns.Finite? && f.fmax.Finite? && f.fmax.value > 0.0 then Pass else Fail)
              && (s[2].status == if f.power.Finite? && f.power.value > 0.0 then Pass else Fail)
              && (s[0].status == Pass ==> s[0].area == Some(f.area.value) && s[0].cells == Some(f.cells))
              && (s[1].status == Pass ==> && s[1].wns == Some(f.wns.value) && s[1].tns == Some(f.tns.value)
                                          && s[1].fmax == Some(f.fmax.value))
              && (s[2].status == Pass ==> s[2].power == Some(f.power.value))
  {
  }

  /** Its figure and score, on the recorded stages: 0 unless all three physical stages passed;
      then the figure is the positive number whose cube is the product of the reference's area,
      delay and power over the recorded ones, the delay being the clock less the slack, and the
      score is its share of 1.5, at most 100. */
  lemma RunScore(suite: Suite, task: Task, tools: Tools, rest: string)
    requires CubeRoots(suite.root) && Outcome(suite, task, tools, rest).Some?
    ensures var m := Outcome(suite, task, tools, rest).value;
            if m.stages[3].status == Pass && m.stages[4].status == Pass && m.stages[5].status == Pass then
              && task.id in suite.refs && task.clock.Finite?
              && var reference, p := suite.refs[task.id], m.ppa;
                 var area, delay, power := m.stages[3].area.value, task.clock.value - m.stages[4].wns.value,
                                           m.stages[5].power.value;
                 && area > 0.0 && delay > 0.0 && power > 0.0
                 && p > 0.0
                 && p * p * p == (reference.area / area) * (reference.delay / delay) * (reference.power / power)
                 && m.score == (if p >= 1.5 then 100.0 else 100.0 * p / 1.5)
            else m.ppa == 0.0 && m.score == 0.0
  {
    hide FlowStages, LintStage, SimulationStage, FormalStage, SimPasses, AllStages;
    GatesMean(task, tools);
    StagesOfOutcome(suite, task, tools, rest);
    if EverythingPasses(task, tools) {
      var reference, own := LoadReference(suite, task.id).value, OwnMetrics(task, tools);
      PpaPositive(suite, reference, own);
      PpaIsTheCubeRoot(suite.root, reference, own, Ppa(suite.root, reference, own));
    }
  }

  lemma StagesOfOutcome(suite: Suite, task: Task, tools: Tools, rest: string)
    requires Outcome(suite, task, tools, rest).Some?
    ensures Outcome(suite, task, tools, rest).value.stages == AllStages(task, tools)
    ensures PpaStagesPass(AllStages(task, tools)) ==> EverythingPasses(task, tools)
  {
    hide Ppa, TaskScore, SimPasses;
  }

  /** A manifest a run built is accepted by the checker, and left unchanged by the re-scorer,
      exactly when some gate failed or the reference was taken at the clock of the run. */
  lemma ProducerAcceptedIff(suite: Suite, task: Task, tools: Tools, rest: string)
    requires CubeRoots(suite.root) && task.id != "" && Outcome(suite, task, tools, rest).Some?
    ensures var m := Outcome(suite, task, tools, rest).value;
            && (ScoreManifest(suite, m).Some? <==>
                  (EverythingPasses(task, tools) ==> LoadReference(suite, task.id).value.clock == task.clock.value))
            && (ScoreManifest(suite, m).Some? <==> Rescored(suite, m) == Some(m))
  {
    hide StageOk, Ppa, Present, FlowStages, AllStages, InOrder, TaskScore;
    var m := Outcome(suite, task, tools, rest).value;
    OutcomeIsValid(suite, task, tools, rest);
    CheckerAcceptsFixedPoints(suite, m);
    GatesMean(task, tools);
    if EverythingPasses(task, tools) {
      var reference := LoadReference(suite, task.id).value;
      PassedMetrics(m.stages);
      var own, measured := OwnMetrics(task, tools), Measured(reference, m.stages);
      PpaPositive(suite, reference, own);
      PositiveScores(m.ppa);
      if measured.Some? {
        DelayDetermined(suite.root, reference, own, measured.value);
      }
    }
  }
}
