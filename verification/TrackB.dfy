/** The Track B gate machine of harness/trackb.py, the manifest schema it writes through
    (harness/schemas/manifest_b.py) and the independent validator of its output. */
module TrackB {
  import opened SimStage
  import opened Wrappers
  import Text

  const HIDDEN_FAILURE_PREFIX := "official hidden-test error: "

  // ----- Entities -----

  datatype Status = Pass | Fail | Skip

  datatype Gate = Lint | Sim | Correctness | SecCheck | ObjectiveGate | Other(text: string)

  datatype Stage = Stage(id: int, gate: Gate, status: Status, warnings: Option<int>, testsRun: Option<int>,
                         testsPassed: Option<int>)

  datatype SecStatus = SecPass | SecFail | SecSkip | SecTimeout

  datatype Kind = TimingClosure | AreaReduction | PowerReduction | AddProperty | Unsupported(text: string)

  datatype Objective = Objective(kind: Kind, behaviorPreserving: bool, requireWnsGe: Option<real>, minPct: Option<real>)

  datatype Metric = Metric(area: Option<real>, wns: Option<real>, tns: Option<real>, fmax: Option<real>,
                           power: Option<real>)

  datatype Delta = Delta(design: Option<Metric>, baseline: Option<Metric>,
                         areaRatio: Option<real>, powerRatio: Option<real>, wnsDelta: Option<real>)

  datatype Manifest = Manifest(taskId: string, disqualified: bool, reason: Option<string>, kind: Kind,
                               objectivePass: bool, stages: seq<Stage>, sec: SecStatus, delta: Delta, score: real)

  /** Measured by synthesis, timing and power analysis. */
  datatype Ppa = Ppa(area: real, wns: real, tns: real, fmax: real, power: real)

  /** Everything the outside world answers during one run; None for a flow that fails. */
  datatype Tools = Tools(preflight: Option<string>, guard: Option<string>, lintCode: int, sim: SimRun, secCode: int,
                         design: Option<Ppa>, baseline: Option<Ppa>)

  const EMPTY_DELTA := Delta(None, None, None, None, None)

  function Plain(id: int, gate: Gate, status: Status): Stage {
    Stage(id, gate, status, None, None, None)
  }

  // ----- Schema -----

  predicate NonNegative(x: Option<real>) {
    x.Some? ==> x.value >= 0.0
  }

  predicate Count(x: Option<int>) {
    x.Some? ==> x.value >= 0
  }

  predicate MetricOk(m: Option<Metric>) {
    m.Some? ==> NonNegative(m.value.area) && NonNegative(m.value.fmax) && NonNegative(m.value.power)
  }

  predicate DeltaFieldsOk(d: Delta) {
    MetricOk(d.design) && MetricOk(d.baseline) && NonNegative(d.areaRatio) && NonNegative(d.powerRatio)
  }

  predicate StageOk(s: Stage) {
    s.id >= 0 && s.gate != Other("") && Count(s.warnings) && Count(s.testsRun) && Count(s.testsPassed)
  }

  /** The field constraints and `validate_rules` of `TrackBManifest`. */
  predicate Schema(m: Manifest) {
    && m.taskId != "" && !m.kind.Unsupported? && m.stages != []
    && (forall k :: 0 <= k < |m.stages| ==> StageOk(m.stages[k]))
    && DeltaFieldsOk(m.delta)
    && m.score >= 0.0
    && (m.disqualified ==> m.score == 0.0)
    && (!m.objectivePass ==> m.score == 0.0)
    && (m.disqualified ==> m.reason.Some? && m.reason.value != "")
  }

  // ----- The validator -----

  /** `{stage.stage: stage}`: the last stage with the number wins. */
  function ById(stages: seq<Stage>, id: int): (s: Option<Stage>)
    ensures s.Some? ==> s.value.id == id && s.value in stages
    ensures s.None? ==> forall k :: 0 <= k < |stages| ==> stages[k].id != id
  {
    if stages == [] then None
    else if stages[|stages| - 1].id == id then Some(stages[|stages| - 1])
    else ById(stages[..|stages| - 1], id)
  }

  predicate FourStages(m: Manifest) {
    && (forall k :: 0 <= k < |m.stages| ==> 0 <= m.stages[k].id <= 3)
    && ById(m.stages, 0).Some? && ById(m.stages, 1).Some? && ById(m.stages, 2).Some? && ById(m.stages, 3).Some?
  }

  predicate DeltaConsistent(d: Delta) {
    d.design.Some? && d.baseline.Some? ==>
      var design, baseline := d.design.value, d.baseline.value;
      && (design.area.Some? && baseline.area.Some? && baseline.area.value != 0.0 && d.areaRatio.Some? ==>
            d.areaRatio.value == design.area.value / baseline.area.value)
      && (design.power.Some? && baseline.power.Some? && baseline.power.value != 0.0 && d.powerRatio.Some? ==>
            d.powerRatio.value == design.power.value / baseline.power.value)
      && (design.wns.Some? && baseline.wns.Some? && d.wnsDelta.Some? ==>
            d.wnsDelta.value == design.wns.value - baseline.wns.value)
  }

  /** Stage 2 and `sec.status`, and whether the correctness gate counts as passed. */
  predicate CorrectnessCoherent(s2: Stage, sec: SecStatus, simOk: bool, preserving: bool) {
    if !simOk then s2.gate == Correctness && s2.status == Fail && sec == SecSkip
    else if preserving then
      s2.gate == SecCheck && (if s2.status == Pass then sec == SecPass else sec == SecFail || sec == SecTimeout)
    else s2.gate == Correctness && s2.status == Skip && sec == SecSkip
  }

  /** `validate_track_b_semantics` does not raise.  `tasks` gives the behaviour-preserving flag
      of every task that resolves. */
  predicate Accepts(m: Manifest, tasks: map<string, bool>) {
    && FourStages(m)
    && var s0, s1, s2, s3 := ById(m.stages, 0).value, ById(m.stages, 1).value, ById(m.stages, 2).value,
        ById(m.stages, 3).value;
       if m.disqualified then s0.status == Skip && s1.status == Skip && s2.status == Skip && s3.status == Skip
       else
         && s0.gate == Lint && s0.status != Skip
         && s1.gate == Sim && (if s0.status == Pass then s1.status != Skip else s1.status == Fail)
         && var simOk := s0.status == Pass && s1.status == Pass;
            && (simOk ==> m.taskId in tasks)
            && var preserving := simOk && tasks[m.taskId];
               && CorrectnessCoherent(s2, m.sec, simOk, preserving)
               && var correct := simOk && (preserving ==> s2.status == Pass);
                  && s3.gate == ObjectiveGate
                  && (if correct then s3.status == (if m.objectivePass then Pass else Fail)
                      else !m.objectivePass && s3.status == Fail)
                  && m.score == (if m.objectivePass then 100.0 else 0.0)
                  && DeltaConsistent(m.delta)
  }

  // ----- The gates, declaratively -----

  /** Why a run is disqualified before any gate: a set-up error, else the submission differs. */
  function EarlyReason(tools: Tools): Option<string> {
    var reason := if tools.preflight.Some? then Some(Text.Strip(tools.preflight.value)) else tools.guard;
    if reason == Some("") then None else reason
  }

  predicate MentionsHidden(log: seq<string>) {
    exists k :: 0 <= k < |log| && Text.Contains(log[k], HIDDEN_FAILURE_PREFIX)
  }

  /** The hidden tests failed to load after the gates had started. */
  predicate LateHidden(official: bool, tools: Tools) {
    && EarlyReason(tools).None? && official && tools.lintCode == 0
    && !SimPasses(tools.sim) && MentionsHidden(SimLog(tools.sim))
  }

  predicate SimGate(tools: Tools) {
    EarlyReason(tools).None? && tools.lintCode == 0 && SimPasses(tools.sim)
  }

  predicate CorrectnessGate(o: Objective, tools: Tools) {
    SimGate(tools) && (o.behaviorPreserving ==> tools.secCode == 0)
  }

  predicate NeedsBaseline(o: Objective) {
    o.kind == AreaReduction || o.kind == PowerReduction
  }

  /** Every flow the objective needs succeeded. */
  predicate Measured(o: Objective, tools: Tools) {
    tools.design.Some? && (NeedsBaseline(o) ==> tools.baseline.Some?)
  }

  predicate WellFormed(o: Objective) {
    !o.kind.Unsupported? && (NeedsBaseline(o) ==> o.minPct.Some?)
  }

  /** The objective is met by what was measured. */
  predicate Meets(o: Objective, tools: Tools)
    requires WellFormed(o)
  {
    && Measured(o, tools)
    && match o.kind
       case TimingClosure => tools.design.value.wns >= o.requireWnsGe.UnwrapOr(0.0)
       case AreaReduction =>
         tools.design.value.wns >= 0.0
             && tools.design.value.area <= tools.baseline.value.area * (1.0 - o.minPct.value / 100.0)
       case PowerReduction =>
         tools.design.value.wns >= 0.0
             && tools.design.value.power <= tools.baseline.value.power * (1.0 - o.minPct.value / 100.0)
       case AddProperty => true
  }

  function MetricOf(p: Ppa): Metric {
    Metric(Some(p.area), Some(p.wns), Some(p.tns), Some(p.fmax), Some(p.power))
  }

  function Ratio(x: real, y: real): (r: Option<real>)
    ensures r.Some? <==> y != 0.0
    ensures r.Some? ==> r.value * y == x
    ensures x >= 0.0 && y >= 0.0 ==> NonNegative(r)
  {
    if y == 0.0 then None else Some(x / y)
  }

  function DeltaOf(design: Ppa, baseline: Option<Ppa>): Delta {
    if baseline.None? then Delta(Some(MetricOf(design)), None, None, None, None)
    else Delta(Some(MetricOf(design)), Some(MetricOf(baseline.value)), Ratio(design.area, baseline.value.area),
               Ratio(design.power, baseline.value.power), Some(design.wns - baseline.value.wns))
  }

  /** The manifest of a run, gate by gate. */
  function Draft(taskId: string, official: bool, o: Objective, tools: Tools): Manifest
    requires CorrectnessGate(o, tools) && Measured(o, tools) ==> WellFormed(o)
  {
    var early := EarlyReason(tools);
    if early.Some? then
      Manifest(taskId, true, early, o.kind, false,
               [Plain(0, Lint, Skip), Plain(1, Sim, Skip), Plain(2, Correctness, Skip), Plain(3, ObjectiveGate, Skip)],
               SecSkip, EMPTY_DELTA, 0.0)
    else
      var correct := CorrectnessGate(o, tools);
      var judged := correct && Measured(o, tools);
      var met := judged && Meets(o, tools);
      var secRan := SimGate(tools) && o.behaviorPreserving;
      Manifest(
        taskId, LateHidden(official, tools),
        if LateHidden(official, tools) then Some(HiddenReason(SimLog(tools.sim))) else None,
        o.kind, met,
        [if tools.lintCode == 0 then Stage(0, Lint, Pass, Some(0), None, None) else Plain(0, Lint, Fail),
         if SimGate(tools) then Stage(1, Sim, Pass, None, Some(tools.sim.Run()), Some(tools.sim.Passed()))
            else Plain(1, Sim, Fail),
         if secRan then Plain(2, SecCheck, if tools.secCode == 0 then Pass else Fail)
         else Plain(2, Correctness, if SimGate(tools) then Skip else Fail),
         Plain(3, ObjectiveGate, if met then Pass else Fail)],
        if !secRan then SecSkip else SecOf(tools.secCode),
        if judged then DeltaOf(tools.design.value, if NeedsBaseline(o) then tools.baseline else None) else EMPTY_DELTA,
        if met then 100.0 else 0.0)
  }

  function SecOf(code: int): SecStatus {
    if code == 124 then SecTimeout else if code == 0 then SecPass else SecFail
  }

  /** The run raises (writes no manifest) when the judged objective is malformed or the schema
      rejects the draft. */
  function Outcome(taskId: string, official: bool, o: Objective, tools: Tools): Option<Manifest> {
    if CorrectnessGate(o, tools) && Measured(o, tools) && !WellFormed(o) then None
    else
      var m := Draft(taskId, official, o, tools);
      if Schema(m) then Some(m) else None
  }

  // ----- The imperative evaluator -----

  /** The last log line that starts with the prefix, or a stock line. */
  function HiddenReason(lines: seq<string>): (r: string)
    ensures HIDDEN_FAILURE_PREFIX <= r
  {
    if lines == [] then HIDDEN_FAILURE_PREFIX + "hidden tests did not load"
    else if HIDDEN_FAILURE_PREFIX <= lines[|lines| - 1] then lines[|lines| - 1]
    else HiddenReason(lines[..|lines| - 1])
  }

  method HiddenDisqualificationReason(lines: seq<string>) returns (r: string)
    ensures r == HiddenReason(lines)
  {
    assert lines[..|lines|] == lines;
    for i := |lines| downto 0
      invariant i <= |lines| && HiddenReason(lines) == HiddenReason(lines[..i])
    {
      assert lines[..i + 1][..i] == lines[..i];
      if HIDDEN_FAILURE_PREFIX <= lines[i] {
        return lines[i];
      }
    }
    assert lines[..0] == [];
    r := HIDDEN_FAILURE_PREFIX + "hidden tests did not load";
  }

  method PpaDelta(design: Ppa, baseline: Option<Ppa>) returns (delta: Delta)
    ensures delta == DeltaOf(design, baseline)
  {
    delta := EMPTY_DELTA.(design := Some(MetricOf(design)));
    if baseline.Some? {
      var b := baseline.value;
      delta := delta.(baseline := Some(MetricOf(b)));
      if b.area != 0.0 {
        delta := delta.(areaRatio := Some(design.area / b.area));
      }
      if b.power != 0.0 {
        delta := delta.(powerRatio := Some(design.power / b.power));
      }
      delta := delta.(wnsDelta := Some(design.wns - b.wns));
    }
  }

  /** `run_objective`; `raised` for a missing parameter or an unsupported objective. */
  method RunObjective(o: Objective, tools: Tools) returns (raised: bool, stage: Stage, passed: bool, delta: Delta)
    ensures raised <==> Measured(o, tools) && !WellFormed(o)
    ensures !raised && Measured(o, tools) ==> (passed <==> Meets(o, tools))
    ensures !raised && !Measured(o, tools) ==> !passed && delta == EMPTY_DELTA
    ensures !raised && Measured(o, tools) ==>
              delta == DeltaOf(tools.design.value, if NeedsBaseline(o) then tools.baseline else None)
    ensures !raised ==> stage == Plain(3, ObjectiveGate, if passed then Pass else Fail)
  {
    raised, passed, stage, delta := false, false, Plain(3, ObjectiveGate, Fail), EMPTY_DELTA;
    if tools.design.None? {
      return;
    }
    var design, baseline := tools.design.value, None;
    if o.kind == AreaReduction || o.kind == PowerReduction {
      if tools.baseline.None? {
        return;
      }
      baseline := tools.baseline;
    }
    delta := PpaDelta(design, baseline);
    match o.kind {
      case TimingClosure =>
        passed := design.wns >= o.requireWnsGe.UnwrapOr(0.0);
      case AreaReduction =>
        if o.minPct.None? {
          raised := true;
          return;
        }
        passed := design.wns >= 0.0 && design.area <= baseline.value.area * (1.0 - o.minPct.value / 100.0);
      case PowerReduction =>
        if o.minPct.None? {
          raised := true;
          return;
        }
        passed := design.wns >= 0.0 && design.power <= baseline.value.power * (1.0 - o.minPct.value / 100.0);
      case AddProperty =>
        passed := true;
      case Unsupported(_) =>
        raised := true;
        return;
    }
    stage := Plain(3, ObjectiveGate, if passed then Pass else Fail);
  }

  /** The gates of `run_track_b`, once nothing disqualifies the submission up front; reason is
      given when the hidden tests fail to load. */
  method RunGates(official: bool, o: Objective, tools: Tools)
    returns (raised: bool, stages: seq<Stage>, sec: SecStatus, reason: Option<string>, objectivePass: bool,
             delta: Delta)
    requires EarlyReason(tools).None?
    ensures raised <==> CorrectnessGate(o, tools) && Measured(o, tools) && !WellFormed(o)
    ensures !raised ==>
              forall taskId :: Draft(taskId, official, o, tools) ==
                Manifest(taskId, reason.Some?, reason, o.kind, objectivePass, stages, sec, delta,
                         if objectivePass then 100.0 else 0.0)
  {
    hide Meets, Measured, WellFormed, MentionsHidden, SimPasses, SimLog, HiddenReason, DeltaOf, SecOf;
    raised, stages, sec, reason, objectivePass, delta := false, [], SecSkip, None, false, EMPTY_DELTA;
    if tools.lintCode == 0 {
      stages := stages + [Stage(0, Lint, Pass, Some(0), None, None)];
      var passed, log := RunSim(tools.sim);
      stages := stages + [if passed then Stage(1, Sim, Pass, None, Some(tools.sim.Run()), Some(tools.sim.Passed()))
                          else Plain(1, Sim, Fail)];
      if official && !passed && MentionsHidden(log) {
        var text := HiddenDisqualificationReason(log);
        reason := Some(text);
      }
    } else {
      stages := stages + [Plain(0, Lint, Fail)];
      stages := stages + [Plain(1, Sim, Fail)];
    }

    var correct := stages[|stages| - 1].status == Pass;
    if correct {
      if o.behaviorPreserving {
        sec := SecOf(tools.secCode);
        stages := stages + [Plain(2, SecCheck, if tools.secCode == 0 then Pass else Fail)];
        correct := tools.secCode == 0;
      } else {
        stages := stages + [Plain(2, Correctness, Skip)];
      }
    } else {
      stages := stages + [Plain(2, Correctness, Fail)];
    }

    if correct {
      var stage, passed, d;
      raised, stage, passed, d := RunObjective(o, tools);
      if raised {
        return;
      }
      stages := stages + [stage];
      objectivePass, delta := passed, d;
    } else {
      stages := stages + [Plain(3, ObjectiveGate, Fail)];
    }
  }

  /** `run_track_b`: None when it raises instead of writing a manifest. */
  method RunTrackB(taskId: string, official: bool, o: Objective, tools: Tools) returns (out: Option<Manifest>)
    ensures out == Outcome(taskId, official, o, tools)
  {
    hide Schema, Meets, Measured, WellFormed, CorrectnessGate, LateHidden;
    var stages: seq<Stage> := [];
    var sec, delta := SecSkip, EMPTY_DELTA;
    var disqualified, objectivePass := false, false;
    var dqReason: Option<string> := None;

    var reason := tools.preflight;
    if reason.None? {
      reason := tools.guard;
    } else {
      reason := Some(Text.Strip(reason.value));
    }
    if reason.Some? && reason.value != "" {
      NoGates(o, tools);
      disqualified, dqReason := true, reason;
      stages := [Plain(0, Lint, Skip), Plain(1, Sim, Skip), Plain(2, Correctness, Skip), Plain(3, ObjectiveGate, Skip)];
    } else {
      var raised;
      raised, stages, sec, dqReason, objectivePass, delta := RunGates(official, o, tools);
      if raised {
        return None;
      }
      disqualified := dqReason.Some?;
      assert disqualified ==> !objectivePass by {
        LateScoresZero(taskId, official, o, tools);
      }
    }

    var score := if !disqualified && objectivePass then 100.0 else 0.0;
    var m := Manifest(taskId, disqualified, dqReason, o.kind, objectivePass, stages, sec, delta, score);
    out := if Schema(m) then Some(m) else None;
  }

  lemma NoGates(o: Objective, tools: Tools)
    requires EarlyReason(tools).Some?
    ensures !CorrectnessGate(o, tools)
  {
  }

  /** A late disqualification never meets its objective. */
  lemma LateScoresZero(taskId: string, official: bool, o: Objective, tools: Tools)
    requires EarlyReason(tools).None? && (CorrectnessGate(o, tools) && Measured(o, tools) ==> WellFormed(o))
    ensures var m := Draft(taskId, official, o, tools); m.disqualified ==> !m.objectivePass
  {
  }

  // ----- What a run records, on what the tools answered -----

  /** The reason given up front: the set-up error without white space around it, or the
      difference of the submission, unless that is empty. */
  predicate GivenUpFront(tools: Tools, reason: string) {
    reason != "" &&
    match tools.preflight
    case Some(error) => reason == Text.Strip(error)
    case None => tools.guard == Some(reason)
  }

  /** Every verdict of a run that writes a manifest.  With a reason up front all gates are
      skipped.  Otherwise lint passes on exit code 0; simulation needs lint; the equivalence
      check runs where it is required and simulation passed, and passes on exit code 0; the
      objective is judged only after all of them; and the score is 100 or 0 by the objective. */
  lemma RunVerdict(taskId: string, official: bool, o: Objective, tools: Tools)
    requires Outcome(taskId, official, o, tools).Some?
    ensures var m := Outcome(taskId, official, o, tools).value;
            && |m.stages| == 4 && m.taskId == taskId && m.kind == o.kind
            && m.score == (if m.objectivePass then 100.0 else 0.0)
            && (if exists reason :: GivenUpFront(tools, reason) then
                  && m.disqualified && m.reason.Some? && GivenUpFront(tools, m.reason.value) && !m.objectivePass
                  && (forall k :: 0 <= k < 4 ==> m.stages[k].status == Skip) && m.sec == SecSkip
                else
                  var simOk := tools.lintCode == 0 && SimPasses(tools.sim);
                  && (m.stages[0].status == if tools.lintCode == 0 then Pass else Fail)
                  && (tools.lintCode == 0 ==> m.stages[0].warnings == Some(0))
                  && (m.stages[1].status == if simOk then Pass else Fail)
                  && (simOk ==> m.stages[1].testsRun == Some(tools.sim.Run())
                                && m.stages[1].testsPassed == Some(tools.sim.Passed()))
                  && (if simOk && o.behaviorPreserving
                      then m.stages[2].gate == SecCheck
                           && m.stages[2].status == (if tools.secCode == 0 then Pass else Fail)
                           && m.sec == (if tools.secCode == 0 then SecPass
                                        else if tools.secCode == 124 then SecTimeout else SecFail)
                      else m.stages[2].gate == Correctness && m.stages[2].status == (if simOk then Skip else Fail)
                           && m.sec == SecSkip)
                  && (m.stages[3].status == if m.objectivePass then Pass else Fail)
                  && (m.disqualified <==> official && tools.lintCode == 0 && !SimPasses(tools.sim)
                                          && exists k :: 0 <= k < |SimLog(tools.sim)| &&
                                               Text.Contains(SimLog(tools.sim)[k], HIDDEN_FAILURE_PREFIX))
                  && (m.disqualified ==> m.reason == Some(HiddenReason(SimLog(tools.sim)))))
  {
    hide Schema, Meets, Measured, WellFormed, SimPasses, SimLog, HiddenReason, DeltaOf, Text.Strip, Text.Contains;
    UpFrontIff(tools);
  }

  lemma UpFrontIff(tools: Tools)
    ensures (exists reason :: GivenUpFront(tools, reason)) <==> EarlyReason(tools).Some?
    ensures EarlyReason(tools).Some? ==> GivenUpFront(tools, EarlyReason(tools).value)
  {
    hide Text.Strip;
    if EarlyReason(tools).Some? {
      assert GivenUpFront(tools, EarlyReason(tools).value);
    }
  }

  /** The reason of a late disqualification: the last log line that starts with the prefix, or
      the stock line when none does. */
  lemma {:induction false} HiddenReasonIsLast(lines: seq<string>)
    ensures if exists k :: 0 <= k < |lines| && HIDDEN_FAILURE_PREFIX <= lines[k]
            then exists k :: 0 <= k < |lines| && HIDDEN_FAILURE_PREFIX <= lines[k] == HiddenReason(lines)
                             && forall j :: k < j < |lines| ==> !(HIDDEN_FAILURE_PREFIX <= lines[j])
            else HiddenReason(lines) == HIDDEN_FAILURE_PREFIX + "hidden tests did not load"
  {
    if lines != [] && !(HIDDEN_FAILURE_PREFIX <= lines[|lines| - 1]) {
      var front := lines[..|lines| - 1];
      HiddenReasonIsLast(front);
      assert forall k :: 0 <= k < |front| ==> front[k] == lines[k];
      if k :| 0 <= k < |front| && HIDDEN_FAILURE_PREFIX <= front[k] == HiddenReason(front)
              && forall j :: k < j < |front| ==> !(HIDDEN_FAILURE_PREFIX <= front[j]) {
        assert HIDDEN_FAILURE_PREFIX <= lines[k] == HiddenReason(lines);
      }
    }
  }

  /** A measured quantity x against a limit on its ratio to the baseline's; over a baseline of
      zero there is no ratio, and x itself has to be zero. */
  predicate RatioWithin(ratio: Option<real>, x: Option<real>, limit: real) {
    if ratio.Some? then ratio.value <= limit else x == Some(0.0)
  }

  lemma RatioOrder(x: real, y: real, limit: real)
    requires y > 0.0
    ensures x <= y * limit <==> x / y <= limit
  {
    var q := x / y;
    assert q * y == x;
    if q <= limit {
      assert q * y <= limit * y;
    } else {
      assert q * y > limit * y;
    }
  }

  lemma WithinIff(x: real, y: real, limit: real)
    requires x >= 0.0 && y >= 0.0
    ensures x <= y * limit <==> RatioWithin(Ratio(x, y), Some(x), limit)
  {
    if y > 0.0 {
      RatioOrder(x, y, limit);
    } else {
      assert y * limit == 0.0;
    }
  }

  lemma WrittenDelta(m: Manifest)
    requires Schema(m)
    ensures DeltaFieldsOk(m.delta) && !m.kind.Unsupported?
  {
  }

  /** The objective on the record alone.  It is judged when simulation passed, the correctness
      gate did not fail and the flows it needs succeeded; then it passes, for timing, exactly
      when the recorded slack reaches the threshold; for area and power, exactly when the
      recorded slack is not negative and the recorded ratio is at most one less the demanded
      reduction; and always for an added property.  The record has what was measured. */
  lemma ObjectiveOnRecord(taskId: string, official: bool, o: Objective, tools: Tools)
    requires Outcome(taskId, official, o, tools).Some?
    ensures var m := Outcome(taskId, official, o, tools).value;
            var needsBaseline := o.kind == AreaReduction || o.kind == PowerReduction;
            var judged := m.stages[1].status == Pass && m.stages[2].status != Fail && tools.design.Some?
                          && (needsBaseline ==> tools.baseline.Some?);
            if !judged then !m.objectivePass && m.delta == EMPTY_DELTA
            else
              var d := tools.design.value;
              && m.delta.design == Some(Metric(Some(d.area), Some(d.wns), Some(d.tns), Some(d.fmax), Some(d.power)))
              && m.delta.baseline == (if !needsBaseline then None
                                      else
                                        var b := tools.baseline.value;
                                        Some(Metric(Some(b.area), Some(b.wns), Some(b.tns), Some(b.fmax),
                                                    Some(b.power))))
              && (m.objectivePass <==>
                    match o.kind
                    case TimingClosure => d.wns >= if o.requireWnsGe.Some? then o.requireWnsGe.value else 0.0
                    case AreaReduction =>
                      && o.minPct.Some? && d.wns >= 0.0
                      && RatioWithin(m.delta.areaRatio, m.delta.design.value.area, 1.0 - o.minPct.value / 100.0)
                    case PowerReduction =>
                      && o.minPct.Some? && d.wns >= 0.0
                      && RatioWithin(m.delta.powerRatio, m.delta.design.value.power, 1.0 - o.minPct.value / 100.0)
                    case AddProperty => true
                    case Unsupported(_) => false)
  {
    hide SimPasses, SimLog, HiddenReason, Text.Strip, MentionsHidden, Schema, DeltaFieldsOk, Ratio;
    var m := Outcome(taskId, official, o, tools).value;
    WrittenDelta(m);
    if CorrectnessGate(o, tools) && Measured(o, tools) && NeedsBaseline(o) {
      var d, b, limit := tools.design.value, tools.baseline.value, 1.0 - o.minPct.value / 100.0;
      DeltaOk(d, tools.baseline);
      WithinIff(d.area, b.area, limit);
      WithinIff(d.power, b.power, limit);
    }
  }

  /** A design with no more area and no more power, and otherwise the same answers, never loses
      a pass. */
  lemma SmallerIsNoWorse(taskId: string, official: bool, o: Objective, tools: Tools, smaller: Tools)
    requires tools.design.Some? && smaller.design.Some? && smaller == tools.(design := smaller.design)
    requires var d, d' := tools.design.value, smaller.design.value;
             d'.area <= d.area && d'.power <= d.power && d' == d.(area := d'.area, power := d'.power)
    requires Outcome(taskId, official, o, tools).Some? && Outcome(taskId, official, o, smaller).Some?
    ensures Outcome(taskId, official, o, tools).value.objectivePass ==>
              Outcome(taskId, official, o, smaller).value.objectivePass
  {
    hide SimPasses, SimLog, HiddenReason, Text.Strip, MentionsHidden, Schema, DeltaOf;
  }

  // ----- Producer and validator -----

  predicate PpaOk(p: Ppa) {
    p.area >= 0.0 && p.fmax >= 0.0 && p.power >= 0.0
  }

  /** A run writes a manifest exactly when the objective is supported, its parameter is there
      when it is judged, and the metrics it reports are not negative: the other rules of the
      schema never reject it. */
  lemma WritesManifestIff(taskId: string, official: bool, o: Objective, tools: Tools)
    requires taskId != ""
    ensures Outcome(taskId, official, o, tools).Some? <==>
            && !o.kind.Unsupported?
            && (CorrectnessGate(o, tools) && Measured(o, tools) ==>
                  WellFormed(o) && PpaOk(tools.design.value) && (NeedsBaseline(o) ==> PpaOk(tools.baseline.value)))
  {
    hide Meets, MentionsHidden, Text.Strip, SimPasses, StageOk, DeltaOf, DeltaFieldsOk;
    if !(CorrectnessGate(o, tools) && Measured(o, tools) && !WellFormed(o)) {
      var m := Draft(taskId, official, o, tools);
      DraftStagesOk(taskId, official, o, tools);
      if tools.design.Some? {
        DeltaOk(tools.design.value, if NeedsBaseline(o) then tools.baseline else None);
      }
      EmptyDeltaOk();
      assert m.disqualified ==> m.reason.Some? && m.reason.value != "";
    }
  }

  lemma DraftStagesOk(taskId: string, official: bool, o: Objective, tools: Tools)
    requires CorrectnessGate(o, tools) && Measured(o, tools) ==> WellFormed(o)
    ensures var m := Draft(taskId, official, o, tools);
            m.stages != [] && forall k :: 0 <= k < |m.stages| ==> StageOk(m.stages[k])
  {
    hide Meets, MentionsHidden, EarlyReason;
  }

  lemma DeltaOk(design: Ppa, baseline: Option<Ppa>)
    ensures DeltaFieldsOk(DeltaOf(design, baseline)) <==> PpaOk(design) && (baseline.Some? ==> PpaOk(baseline.value))
  {
  }

  lemma EmptyDeltaOk()
    ensures DeltaFieldsOk(EMPTY_DELTA)
  {
  }

  /** Four stages numbered in order. */
  predicate InOrder(stages: seq<Stage>) {
    |stages| == 4 && stages[0].id == 0 && stages[1].id == 1 && stages[2].id == 2 && stages[3].id == 3
  }

  lemma ByIdInOrder(s: seq<Stage>)
    requires InOrder(s)
    ensures ById(s, 0) == Some(s[0]) && ById(s, 1) == Some(s[1]) && ById(s, 2) == Some(s[2]) && ById(s, 3) == Some(s[3])
  {
    assert s[..3][..2] == s[..2] && s[..2][..1] == s[..1];
    assert ById(s[..1], 0) == Some(s[0]) && ById(s[..2], 0) == Some(s[0]) && ById(s[..3], 0) == Some(s[0]);
    assert ById(s[..3], 1) == ById(s[..2], 1) == Some(s[1]);
  }

  /** Every manifest a run writes is accepted, except exactly those disqualified because the
      hidden tests failed to load after the gates had started. */
  lemma ProducerAcceptedIff(taskId: string, official: bool, o: Objective, tools: Tools, tasks: map<string, bool>)
    requires taskId in tasks && tasks[taskId] == o.behaviorPreserving
    requires Outcome(taskId, official, o, tools).Some?
    ensures Accepts(Outcome(taskId, official, o, tools).value, tasks) <==> !LateHidden(official, tools)
  {
    hide Schema, Meets, MentionsHidden, EarlyReason, SimPasses, DeltaOf, DeltaConsistent, ById, FourStages;
    var m := Outcome(taskId, official, o, tools).value;
    assert m == Draft(taskId, official, o, tools);
    DraftCoherent(taskId, official, o, tools);
  }

  lemma DeltaOfConsistent(design: Ppa, baseline: Option<Ppa>)
    ensures DeltaConsistent(DeltaOf(design, baseline))
  {
  }

  lemma EmptyDeltaConsistent()
    ensures DeltaConsistent(EMPTY_DELTA)
  {
  }

  lemma DraftCoherent(taskId: string, official: bool, o: Objective, tools: Tools)
    requires CorrectnessGate(o, tools) && Measured(o, tools) ==> WellFormed(o)
    ensures var m := Draft(taskId, official, o, tools);
            && FourStages(m) && DeltaConsistent(m.delta)
            && ById(m.stages, 0).value == m.stages[0] && ById(m.stages, 1).value == m.stages[1]
            && ById(m.stages, 2).value == m.stages[2] && ById(m.stages, 3).value == m.stages[3]
  {
    hide Meets, MentionsHidden, EarlyReason, SimPasses, DeltaOf, DeltaConsistent, ById;
    var m := Draft(taskId, official, o, tools);
    if tools.design.Some? {
      DeltaOfConsistent(tools.design.value, if NeedsBaseline(o) then tools.baseline else None);
    }
    EmptyDeltaConsistent();
    ByIdInOrder(m.stages);
  }

  /** Lint, simulation, the equivalence check where it is required, and the objective. */
  predicate EveryGatePassed(m: Manifest, tasks: map<string, bool>)
    requires FourStages(m) && m.taskId in tasks
  {
    && ById(m.stages, 0).value.status == Pass && ById(m.stages, 1).value.status == Pass
    && (tasks[m.taskId] ==>
          ById(m.stages, 2).value.gate == SecCheck && ById(m.stages, 2).value.status == Pass && m.sec == SecPass)
    && ById(m.stages, 3).value.status == Pass
  }

  /** An accepted manifest scores 100 exactly when every gate passed, and otherwise 0. */
  lemma AcceptedScore(m: Manifest, tasks: map<string, bool>)
    requires Schema(m) && Accepts(m, tasks) && m.taskId in tasks
    ensures m.score == if !m.disqualified && EveryGatePassed(m, tasks) then 100.0 else 0.0
    ensures m.disqualified ==> !EveryGatePassed(m, tasks)
  {
  }

  // ----- How exact the validator is -----

  /** The gates, statuses and verdict a manifest records. */
  datatype Trace = Trace(gates: seq<(Gate, Status)>, sec: SecStatus, objectivePass: bool, score: real)

  function TraceOf(m: Manifest): Trace
    requires FourStages(m)
  {
    var s0, s1, s2, s3 := ById(m.stages, 0).value, ById(m.stages, 1).value, ById(m.stages, 2).value,
        ById(m.stages, 3).value;
    Trace([(s0.gate, s0.status), (s1.gate, s1.status), (s2.gate, s2.status), (s3.gate, s3.status)], m.sec,
          m.objectivePass, m.score)
  }

  function DraftTrace(o: Objective, tools: Tools): Trace
    requires WellFormed(o)
  {
    var m := Draft("t", false, o, tools);
    Trace(seq(4, k requires 0 <= k < 4 => (m.stages[k].gate, m.stages[k].status)), m.sec, m.objectivePass, m.score)
  }

  /** Some run that reaches the gates records this trace. */
  ghost predicate Produced(t: Trace, o: Objective)
    requires WellFormed(o)
  {
    exists tools: Tools :: EarlyReason(tools).None? && DraftTrace(o, tools) == t
  }

  /** Required equivalence check recorded as skipped: no run records it, and it is accepted. */
  predicate SecSkipTrace(t: Trace, o: Objective) {
    && o.behaviorPreserving && (t.sec == SecFail || t.sec == SecTimeout) && !t.objectivePass && t.score == 0.0
    && t.gates == [(Lint, Pass), (Sim, Pass), (SecCheck, Skip), (ObjectiveGate, Fail)]
  }

  /** Tool answers that reproduce an accepted trace. */
  function Witness(t: Trace, o: Objective): Tools
    requires |t.gates| == 4 && WellFormed(o)
  {
    var wns := if o.requireWnsGe.Some? && o.requireWnsGe.value > 0.0 then o.requireWnsGe.value else 0.0;
    var good := Ppa(0.0, wns, 0.0, 0.0, 0.0);
    Tools(None, None,
          if t.gates[0].1 == Pass then 0 else 1,
          SimRun(None, if t.gates[1].1 == Pass then 0 else 1, [], ONE_PASS),
          if t.gates[2].1 == Pass then 0 else if t.sec == SecTimeout then 124 else 1,
          if t.objectivePass then Some(good) else None,
          Some(good))
  }

  lemma AcceptedIsProduced(m: Manifest, o: Objective, tasks: map<string, bool>)
    requires !m.disqualified && WellFormed(o)
    requires m.taskId in tasks && tasks[m.taskId] == o.behaviorPreserving
    requires Accepts(m, tasks) && !SecSkipTrace(TraceOf(m), o)
    ensures Produced(TraceOf(m), o)
  {
    hide DeltaConsistent, ById, Measured, Meets, DeltaOf, MentionsHidden, ParseResults;
    OnePass();
    var t := TraceOf(m);
    var tools := Witness(t, o);
    WitnessMeets(t, o);
    var d := DraftTrace(o, tools);
    assert |d.gates| == 4;
    assert d.gates[0] == t.gates[0] && d.gates[1] == t.gates[1];
    assert d.gates[2] == t.gates[2] && d.gates[3] == t.gates[3];
    assert d == t;
    assert EarlyReason(tools).None?;
  }

  lemma ProducedIsAccepted(m: Manifest, o: Objective, tasks: map<string, bool>)
    requires !m.disqualified && WellFormed(o) && FourStages(m) && DeltaConsistent(m.delta)
    requires m.taskId in tasks && tasks[m.taskId] == o.behaviorPreserving
    requires Produced(TraceOf(m), o)
    ensures Accepts(m, tasks)
  {
    hide DeltaConsistent, ById, Measured, Meets, DeltaOf, MentionsHidden, SimPasses, ParseResults;
    var t := TraceOf(m);
    var tools: Tools :| EarlyReason(tools).None? && DraftTrace(o, tools) == t;
    var d := DraftTrace(o, tools);
    assert d.gates[0] == t.gates[0] && d.gates[1] == t.gates[1];
    assert d.gates[2] == t.gates[2] && d.gates[3] == t.gates[3];
  }

  lemma SecSkipIsAccepted(m: Manifest, o: Objective, tasks: map<string, bool>)
    requires !m.disqualified && FourStages(m) && DeltaConsistent(m.delta)
    requires m.taskId in tasks && tasks[m.taskId] == o.behaviorPreserving
    requires SecSkipTrace(TraceOf(m), o)
    ensures Accepts(m, tasks)
  {
    hide DeltaConsistent, ById;
    var gates := TraceOf(m).gates;
    assert gates[0] == (Lint, Pass) && gates[1] == (Sim, Pass) && gates[2] == (SecCheck, Skip)
           && gates[3] == (ObjectiveGate, Fail);
  }

  /** The validator is exact on manifests that are not disqualified: it accepts a coherent
      PPA record together with a trace some run produces, or the skipped-SEC trace, and
      nothing else. */
  lemma ValidatorIsExact(m: Manifest, o: Objective, tasks: map<string, bool>)
    requires !m.disqualified && WellFormed(o)
    requires m.taskId in tasks && tasks[m.taskId] == o.behaviorPreserving
    ensures Accepts(m, tasks) <==>
            && FourStages(m) && DeltaConsistent(m.delta)
            && (Produced(TraceOf(m), o) || SecSkipTrace(TraceOf(m), o))
  {
    hide FourStages, DeltaConsistent, ById, Produced, SecSkipTrace, CorrectnessCoherent;
    if Accepts(m, tasks) {
      if !SecSkipTrace(TraceOf(m), o) {
        AcceptedIsProduced(m, o, tasks);
      }
    } else if FourStages(m) && DeltaConsistent(m.delta) {
      if Produced(TraceOf(m), o) {
        ProducedIsAccepted(m, o, tasks);
      } else if SecSkipTrace(TraceOf(m), o) {
        SecSkipIsAccepted(m, o, tasks);
      }
    }
  }

  lemma WitnessMeets(t: Trace, o: Objective)
    requires |t.gates| == 4 && WellFormed(o)
    ensures Measured(o, Witness(t, o)) <==> t.objectivePass
    ensures Meets(o, Witness(t, o)) <==> t.objectivePass
  {
    var tools := Witness(t, o);
    if t.objectivePass && NeedsBaseline(o) {
      assert 0.0 * (1.0 - o.minPct.value / 100.0) == 0.0;
    }
  }

  /** The skipped-SEC trace is not one a run can record. */
  lemma SecSkipIsNotProduced(t: Trace, o: Objective)
    requires WellFormed(o) && SecSkipTrace(t, o)
    ensures !Produced(t, o)
  {
    forall tools: Tools | EarlyReason(tools).None?
      ensures DraftTrace(o, tools) != t
    {
      var gate := DraftTrace(o, tools).gates[2];
      assert gate.0 != SecCheck || gate.1 != Skip;
      assert t.gates[2] == (SecCheck, Skip);
    }
  }

  // ----- Both disagreements occur -----

  /** An official run whose hidden tests fail to load: it writes a manifest and the validator
      rejects it. */
  lemma LateHiddenOccurs(taskId: string, tasks: map<string, bool>) returns (o: Objective, tools: Tools)
    requires taskId != "" && taskId in tasks
    ensures LateHidden(true, tools) && Outcome(taskId, true, o, tools).Some?
    ensures !Accepts(Outcome(taskId, true, o, tools).value, tasks)
  {
    o := Objective(AddProperty, tasks[taskId], None, None);
    var line := HIDDEN_FAILURE_PREFIX;
    tools := Tools(None, None, 0, SimRun(Some([line]), 0, [], ONE_PASS), 0, None, None);
    assert Text.OccursAt(line, HIDDEN_FAILURE_PREFIX, 0);
    assert Text.Contains(line, HIDDEN_FAILURE_PREFIX);
    assert SimLog(tools.sim)[0] == line;
    WritesManifestIff(taskId, true, o, tools);
    ProducerAcceptedIff(taskId, true, o, tools, tasks);
  }

  /** A manifest of a task that requires the equivalence check, with that check skipped: it
      satisfies the schema and the validator accepts it. */
  lemma SecSkipOccurs(taskId: string, tasks: map<string, bool>) returns (m: Manifest)
    requires taskId != "" && taskId in tasks && tasks[taskId]
    ensures Schema(m) && Accepts(m, tasks) && ById(m.stages, 2).value.status == Skip
  {
    m := Manifest(taskId, false, None, AddProperty, false,
                  [Plain(0, Lint, Pass), Plain(1, Sim, Pass), Plain(2, SecCheck, Skip), Plain(3, ObjectiveGate, Fail)],
                  SecFail, EMPTY_DELTA, 0.0);
    ByIdInOrder(m.stages);
    EmptyDeltaOk();
    EmptyDeltaConsistent();
  }
}
