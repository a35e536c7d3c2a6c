/** The campaign loops of harness/evalmodel.py over provider, scorer and files, and what the
    published summary says about them. */
module EvalFlows {
  import opened Wrappers
  import opened ModuleExtraction
  import opened EvalTypes
  import opened EvalFission

  // ----- Summaries -----

  datatype SampleRecord = SampleRecord(sample: nat, score: real, manifest: Key, signature: string)

  datatype TaskEntry = TaskEntry(scores: seq<real>, mean: real, samples: seq<SampleRecord>, skip: Option<string>)

  /** Token and cost totals are in `usage`. */
  datatype Summary = Summary(
    provider: string, model: string, temperature: string, official: bool, samples: nat,
    taskIds: seq<string>, tasks: map<string, TaskEntry>,
    aggregate: real, usage: Usage, estimate: nat)

  function Sum(xs: seq<real>): real {
    if xs == [] then 0.0 else Sum(xs[..|xs| - 1]) + xs[|xs| - 1]
  }

  /** `fmean`, over exact reals; 0 for an empty list, as the caller has it. */
  function Mean(xs: seq<real>): real {
    if xs == [] then 0.0 else Sum(xs) / (|xs| as real)
  }

  function Scores(row: seq<Manifest>): (r: seq<real>)
    ensures |r| == |row| && forall k :: 0 <= k < |row| ==> r[k] == row[k].score
  {
    if row == [] then [] else Scores(row[..|row| - 1]) + [row[|row| - 1].score]
  }

  function RecordOf<S, T>(env: Env<S, T>, taskId: string, n: nat, m: Manifest): SampleRecord {
    SampleRecord(n, m.score, (taskId, n), env.sign(m))
  }

  function Records<S, T>(env: Env<S, T>, taskId: string, row: seq<Manifest>): (r: seq<SampleRecord>)
    ensures |r| == |row| && forall k :: 0 <= k < |row| ==> r[k] == RecordOf(env, taskId, k + 1, row[k])
  {
    if row == [] then []
    else Records(env, taskId, row[..|row| - 1]) + [RecordOf(env, taskId, |row|, row[|row| - 1])]
  }

  function RowUsage(row: seq<Manifest>): Usage {
    if row == [] then NO_USAGE else Add(RowUsage(row[..|row| - 1]), row[|row| - 1].usage)
  }

  function RunUsage(rows: seq<seq<Manifest>>): Usage {
    if rows == [] then NO_USAGE else Add(RunUsage(rows[..|rows| - 1]), RowUsage(rows[|rows| - 1]))
  }

  function EntryOf<S, T>(env: Env<S, T>, taskId: string, skip: Option<string>, row: seq<Manifest>): TaskEntry {
    TaskEntry(Scores(row), Mean(Scores(row)), Records(env, taskId, row), skip)
  }

  function Entries<S, T>(env: Env<S, T>, ids: seq<string>, skips: seq<Option<string>>, rows: seq<seq<Manifest>>,
                         n: nat): map<string, TaskEntry>
    requires n <= |rows| <= |ids| && |rows| <= |skips|
  {
    if n == 0 then map[]
    else Entries(env, ids, skips, rows, n - 1)[ids[n - 1] := EntryOf(env, ids[n - 1], skips[n - 1], rows[n - 1])]
  }

  /** The scores that enter the aggregate: those of tasks that were not skipped. */
  function Counted(skips: seq<Option<string>>, rows: seq<seq<Manifest>>, n: nat): seq<real>
    requires n <= |rows| <= |skips|
  {
    if n == 0 then []
    else Counted(skips, rows, n - 1) + (if skips[n - 1].None? then Scores(rows[n - 1]) else [])
  }

  function SummaryOf<S, T>(env: Env<S, T>, provider: string, model: string, temperature: string,
                           ids: seq<string>, skips: seq<Option<string>>, rows: seq<seq<Manifest>>,
                               estimate: nat): Summary
    requires |rows| == |ids| == |skips|
  {
    Summary(provider, model, temperature, env.official, env.samples, ids, Entries(env, ids, skips, rows, |rows|),
            Mean(Counted(skips, rows, |rows|)), RunUsage(rows), estimate)
  }

  function Skips(plans: seq<Plan>): (r: seq<Option<string>>)
    ensures |r| == |plans| && forall k :: 0 <= k < |plans| ==> r[k] == plans[k].skip
  {
    seq(|plans|, k requires 0 <= k < |plans| => plans[k].skip)
  }

  /** The skip reason the score phase reads from each task's first record. */
  function SkipsOnDisk(ids: seq<string>, pendings: map<Key, Pending>): (r: seq<Option<string>>)
    ensures |r| == |ids|
    ensures forall k :: 0 <= k < |ids| ==> r[k] == if (ids[k], 1) in pendings then pendings[(ids[k], 1)].skip else None
  {
    seq(|ids|, k requires 0 <= k < |ids| => if (ids[k], 1) in pendings then pendings[(ids[k], 1)].skip else None)
  }

  // ----- The stateful parties -----

  class Provider<S> {
    const fns: Adapter<S>
    var state: S

    constructor (fns: Adapter<S>, state: S)
      ensures this.fns == fns && this.state == state
    {
      this.fns, this.state := fns, state;
    }

    method Generate(prompt: string, maxTokens: nat) returns (reply: Reply)
      modifies this
      ensures (state, reply) == fns.generate(old(state), prompt, maxTokens)
    {
      var (s, r) := fns.generate(state, prompt, maxTokens);
      state, reply := s, r;
    }
  }

  class Scorer<T> {
    const fn: (T, string, string, bool) -> (T, ScoreOutcome)
    var state: T

    constructor (fn: (T, string, string, bool) -> (T, ScoreOutcome), state: T)
      ensures this.fn == fn && this.state == state
    {
      this.fn, this.state := fn, state;
    }

    method Score(taskId: string, source: string, official: bool) returns (o: ScoreOutcome)
      modifies this
      ensures (state, o) == fn(old(state), taskId, source, official)
    {
      var (t, r) := fn(state, taskId, source, official);
      state, o := t, r;
    }
  }

  /** The files of one model's output directory. */
  class Store {
    var sources: map<Key, string>
    var pendings: map<Key, Pending>
    var manifests: map<Key, Manifest>

    constructor ()
      ensures sources == map[] && pendings == map[] && manifests == map[]
    {
      sources, pendings, manifests := map[], map[], map[];
    }
  }

  /** `_call_once`: one call with the usage counters read before and after it. */
  method CallProvider<S>(provider: Provider<S>, prompt: string, maxTokens: nat) returns (call: Call)
    modifies provider
    ensures (provider.state, call) == CallOnce(provider.fns, old(provider.state), prompt, maxTokens)
  {
    var before := provider.fns.usage(provider.state);
    if before.None? {
      return UsageError();
    }
    var reply := provider.Generate(prompt, maxTokens);
    if reply.CapHit? {
      return CapAbort;
    }
    var after := provider.fns.usage(provider.state);
    if reply.Failed? {
      var delta := Delta(before.value, if after.None? then before.value else after.value);
      if delta.None? {
        return Called(None, Some("provider error: " + reply.message + "; usage error"), NO_USAGE,
                      provider.fns.finish(provider.state));
      }
      return Called(None, Some("provider error: " + reply.message), delta.value, provider.fns.finish(provider.state));
    }
    if after.None? || Delta(before.value, after.value).None? {
      return UsageError();
    }
    call := Called(Some(reply.text), None, Delta(before.value, after.value).value, provider.fns.finish(provider.state));
  }

  // ----- The generate phase -----

  /** One sample of `generate_model_samples`. */
  method GenerateSample<S, T>(env: Env<S, T>, provider: Provider<S>, store: Store, plan: Plan, n: nat)
    returns (why: Option<Abort>)
    requires provider.fns == env.provider
    modifies provider, store`sources, store`pendings
    ensures var (s, a) := AttemptOf(env, old(provider.state), plan);
            if a.None? then why == Some(CapReached)
            else if !PendingRules(PendingOf(env, plan, a.value)) then why == Some(SchemaRefused)
            else
              && why == None && provider.state == s
              && store.pendings == old(store.pendings)[(plan.taskId, n) := PendingOf(env, plan, a.value)]
              && store.sources == Touch(old(store.sources), (plan.taskId, n), EffectOf(a.value))
  {
    hide CallOnce, Extract, ErrorText;
    var p, key := env.provider, (plan.taskId, n);
    var pending: Pending;
    if plan.skip.Some? {
      pending := Pending(plan.taskId, env.official, p.name, p.model, p.temperature, NO_USAGE, env.maxTokens, None,
                         None, None, plan.skip);
    } else {
      var call := CallProvider(provider, plan.prompt, env.maxTokens);
      if call.CapAbort? {
        return Some(CapReached);
      }
      if call.error.Some? {
        store.sources := store.sources - {key};
        pending := Pending(plan.taskId, env.official, p.name, p.model, p.temperature, call.usage, env.maxTokens,
                           call.finish, None, call.error, None);
      } else {
        var extraction := Extract(if call.response.Some? then call.response.value else "", Some(plan.top));
        if extraction.Refused? {
          store.sources := store.sources - {key};
          pending := Pending(plan.taskId, env.official, p.name, p.model, p.temperature, call.usage, env.maxTokens,
                             call.finish, None, Some(ErrorText(extraction.error)), None);
        } else {
          store.sources := store.sources[key := extraction.text];
          pending := Pending(plan.taskId, env.official, p.name, p.model, p.temperature, call.usage, env.maxTokens,
                             call.finish, Some(env.digest(extraction.text)), None, None);
        }
      }
    }
    if !PendingRules(pending) {
      return Some(SchemaRefused);
    }
    store.pendings := store.pendings[key := pending];
    why := None;
  }

  /** A row that stops at n samples stops with any larger number. */
  lemma {:induction false} GenRowStops<S, T>(env: Env<S, T>, s: S, plan: Plan, n: nat, m: nat)
    requires n <= m && GenRowOf(env, s, plan, n).GenStop?
    ensures GenRowOf(env, s, plan, m) == GenRowOf(env, s, plan, n)
    decreases m
  {
    if n < m {
      GenRowStops(env, s, plan, n, m - 1);
    }
  }

  lemma {:induction false} GenRunStops<S, T>(env: Env<S, T>, s: S, plans: seq<Plan>, n: nat, m: nat)
    requires n <= m <= |plans| && GenRunOf(env, s, plans, n).GenRunStop?
    ensures GenRunOf(env, s, plans, m) == GenRunOf(env, s, plans, n)
    decreases m
  {
    if n < m {
      GenRunStops(env, s, plans, n, m - 1);
    }
  }

  /** The inner loop of `generate_model_samples`. */
  method GenerateTask<S, T>(env: Env<S, T>, provider: Provider<S>, store: Store, plan: Plan)
    returns (why: Option<Abort>)
    requires provider.fns == env.provider
    modifies provider, store`sources, store`pendings
    ensures match GenRowOf(env, old(provider.state), plan, env.samples)
            case GenStop(w) => why == Some(w)
            case GenRow(s, pendings, effects) =>
              && why == None && provider.state == s
              && store.pendings == WriteRow(old(store.pendings), plan.taskId, pendings)
              && store.sources == TouchRow(old(store.sources), plan.taskId, effects)
  {
    hide AttemptOf, PendingOf, PendingRules, EffectOf, Touch, GenRowOf, WriteRow, TouchRow;
    ghost var s0 := provider.state;
    NoRow(env, s0, plan, store.pendings, store.sources);
    for n := 0 to env.samples
      invariant var g := GenRowOf(env, s0, plan, n);
                && g.GenRow? && provider.state == g.s
                && store.pendings == WriteRow(old(store.pendings), plan.taskId, g.pendings)
                && store.sources == TouchRow(old(store.sources), plan.taskId, g.effects)
    {
      ghost var g := GenRowOf(env, s0, plan, n);
      NextRow(env, s0, plan, n);
      why := GenerateSample(env, provider, store, plan, n + 1);
      if why.Some? {
        GenRowStops(env, s0, plan, n + 1, env.samples);
        return;
      }
      ghost var after := GenRowOf(env, s0, plan, n + 1);
      RowGrows(old(store.pendings), plan.taskId, g.pendings, after.pendings[n]);
      EffectsGrow(old(store.sources), plan.taskId, g.effects, after.effects[n]);
    }
    why := None;
  }

  lemma NoRow<S, T>(env: Env<S, T>, s: S, plan: Plan, pendings: map<Key, Pending>, sources: map<Key, string>)
    ensures GenRowOf(env, s, plan, 0) == GenRow(s, [], [])
    ensures WriteRow(pendings, plan.taskId, []) == pendings && TouchRow(sources, plan.taskId, []) == sources
  {
  }

  /** One more sample of a row. */
  lemma NextRow<S, T>(env: Env<S, T>, s: S, plan: Plan, n: nat)
    requires GenRowOf(env, s, plan, n).GenRow?
    ensures var g := GenRowOf(env, s, plan, n);
            var (s', a) := AttemptOf(env, g.s, plan);
            GenRowOf(env, s, plan, n + 1) ==
            if a.None? then GenStop(CapReached)
            else if !PendingRules(PendingOf(env, plan, a.value)) then GenStop(SchemaRefused)
            else GenRow(s', g.pendings + [PendingOf(env, plan, a.value)], g.effects + [EffectOf(a.value)])
  {
    hide AttemptOf, PendingOf, PendingRules, EffectOf;
  }

  lemma RowGrows<V>(files: map<Key, V>, taskId: string, row: seq<V>, v: V)
    ensures WriteRow(files, taskId, row + [v]) == WriteRow(files, taskId, row)[(taskId, |row| + 1) := v]
  {
    assert (row + [v])[..|row|] == row;
  }

  lemma EffectsGrow(files: map<Key, string>, taskId: string, row: seq<SourceEffect>, e: SourceEffect)
    ensures TouchRow(files, taskId, row + [e]) == Touch(TouchRow(files, taskId, row), (taskId, |row| + 1), e)
  {
    hide Touch;
    assert (row + [e])[..|row|] == row;
  }

  predicate ArgumentsOk<S, T>(env: Env<S, T>, ids: seq<string>) {
    && ids != [] && Distinct(ids) && env.samples >= 1 && env.maxTokens >= 1
    && env.provider.model != "" && env.provider.name != ""
  }

  /** The provider and the files after some tasks of the generate phase. */
  ghost predicate GenState<S>(g: GenRun<S>, ids: seq<string>, s: S, before: map<Key, Pending>,
                              pendings: map<Key, Pending>,
                              sources0: map<Key, string>, sources: map<Key, string>) {
    && g.GenRun? && |g.pendings| == |g.effects| <= |ids| && s == g.s
    && pendings == WriteRows(before, ids, g.pendings) && sources == TouchRows(sources0, ids, g.effects)
  }

  lemma GenStateStep<S>(g: GenRun<S>, row: Gen<S>, ids: seq<string>, s: S, before: map<Key, Pending>,
                        pendings: map<Key, Pending>,
                        sources0: map<Key, string>, sources: map<Key, string>)
    requires GenState(g, ids, s, before, pendings, sources0, sources) && |g.pendings| < |ids| && row.GenRow?
    ensures GenState(GenRun(row.s, g.pendings + [row.pendings], g.effects + [row.effects]), ids, row.s, before,
                     WriteRow(pendings, ids[|g.pendings|], row.pendings), sources0,
                     TouchRow(sources, ids[|g.pendings|], row.effects))
  {
    hide WriteRow, TouchRow;
    var n := |g.pendings|;
    assert (g.pendings + [row.pendings])[..n] == g.pendings && (g.effects + [row.effects])[..n] == g.effects;
  }

  /** `generate_model_samples`. */
  method GenerateModelSamples<S, T>(env: Env<S, T>, provider: Provider<S>, store: Store, plans: seq<Plan>,
                                    estimate: nat, remaining: int)
    returns (why: Option<Abort>)
    requires provider.fns == env.provider
    modifies provider, store`sources, store`pendings
    ensures if !ArgumentsOk(env, Ids(plans)) then why == Some(BadArguments)
            else if estimate > remaining then why == Some(CapReached)
            else
              match GenRunOf(env, old(provider.state), plans, |plans|)
              case GenRunStop(w) => why == Some(w)
              case GenRun(s, pendings, effects) =>
                && why == None && provider.state == s
                && store.pendings == WriteRows(old(store.pendings), Ids(plans), pendings)
                && store.sources == TouchRows(old(store.sources), Ids(plans), effects)
  {
    if !ArgumentsOk(env, Ids(plans)) {
      return Some(BadArguments);
    }
    if estimate > remaining {
      return Some(CapReached);
    }
    why := GenerateLoop(env, provider, store, plans);
  }

  /** The outer loop of `generate_model_samples`. */
  method GenerateLoop<S, T>(env: Env<S, T>, provider: Provider<S>, store: Store, plans: seq<Plan>)
    returns (why: Option<Abort>)
    requires provider.fns == env.provider
    modifies provider, store`sources, store`pendings
    ensures var g := GenRunOf(env, old(provider.state), plans, |plans|);
            if g.GenRunStop? then why == Some(g.why)
            else why == None && GenState(g, Ids(plans), provider.state, old(store.pendings), store.pendings,
                                         old(store.sources), store.sources)
  {
    hide GenRowOf, WriteRow, TouchRow, GenState;
    ghost var s0, ids := provider.state, Ids(plans);
    assert GenState(GenRun(s0, [], []), ids, s0, store.pendings, store.pendings, store.sources, store.sources) by {
      NothingGenerated(ids, s0, store.pendings, store.sources);
    }
    for n := 0 to |plans|
      invariant GenRunOf(env, s0, plans, n).GenRun? && GenRunOf(env, s0, plans, n).s == provider.state
      invariant GenState(GenRunOf(env, s0, plans, n), ids, provider.state, old(store.pendings), store.pendings,
                         old(store.sources), store.sources)
    {
      ghost var g, s, p, f := GenRunOf(env, s0, plans, n), provider.state, store.pendings, store.sources;
      why := GenerateTask(env, provider, store, plans[n]);
      if why.Some? {
        GenRunStops(env, s0, plans, n + 1, |plans|);
        return;
      }
      GenStateStep(g, GenRowOf(env, s, plans[n], env.samples), ids, s, old(store.pendings), p, old(store.sources), f);
    }
    why := None;
  }

  lemma NothingGenerated<S>(ids: seq<string>, s: S, pendings: map<Key, Pending>, sources: map<Key, string>)
    ensures GenState(GenRun(s, [], []), ids, s, pendings, pendings, sources, sources)
  {
  }

  // ----- The combined flow -----

  /** One sample of `eval_model`. */
  method EvalSample<S, T>(env: Env<S, T>, provider: Provider<S>, scorer: Scorer<T>, store: Store, plan: Plan, n: nat)
    returns (why: Option<Abort>, manifest: Manifest)
    requires provider.fns == env.provider && scorer.fn == env.score
    modifies provider, scorer, store`sources, store`manifests
    ensures var (s, a) := AttemptOf(env, old(provider.state), plan);
            if a.None? then why == Some(CapReached)
            else
              var (t, m) := ManifestOf(env, old(scorer.state), plan, a.value);
              if !ManifestFieldsOk(m) then why == Some(SchemaRefused)
              else
                && why == None && manifest == m && provider.state == s && scorer.state == t
                && store.manifests == old(store.manifests)[(plan.taskId, n) := m]
                && store.sources == Touch(old(store.sources), (plan.taskId, n), EffectOf(a.value))
  {
    hide CallOnce, Extract, ErrorText;
    var p, key := env.provider, (plan.taskId, n);
    if plan.skip.Some? {
      manifest := ZeroManifest(plan.taskId, p.name, p.model, p.temperature, NO_USAGE, env.maxTokens, None, None,
                               plan.skip, None);
    } else {
      var call := CallProvider(provider, plan.prompt, env.maxTokens);
      if call.CapAbort? {
        manifest := ZeroManifest(plan.taskId, p.name, p.model, p.temperature, NO_USAGE, env.maxTokens, None, None,
                                 None, None);
        return Some(CapReached), manifest;
      }
      if call.error.Some? {
        store.sources := store.sources - {key};
        manifest := ZeroManifest(plan.taskId, p.name, p.model, p.temperature, call.usage, env.maxTokens, call.finish,
                                 call.error, None, None);
      } else {
        var extraction := Extract(if call.response.Some? then call.response.value else "", Some(plan.top));
        if extraction.Refused? {
          store.sources := store.sources - {key};
          manifest := ZeroManifest(plan.taskId, p.name, p.model, p.temperature, call.usage, env.maxTokens, call.finish,
                                   Some(ErrorText(extraction.error)), None, None);
        } else {
          var source := extraction.text;
          store.sources := store.sources[key := source];
          var scored := scorer.Score(plan.taskId, source, env.official);
          if scored.Scored? {
            manifest := MergedManifest(plan.taskId, scored, env.digest(source), p.name, p.model, p.temperature,
                                       call.usage, env.maxTokens, call.finish);
          } else {
            manifest := ZeroManifest(plan.taskId, p.name, p.model, p.temperature, call.usage, env.maxTokens,
                                     call.finish,
                                     Some("scoring error: " + scored.message), None, Some(env.digest(source)));
          }
        }
      }
    }
    if !ManifestFieldsOk(manifest) {
      return Some(SchemaRefused), manifest;
    }
    store.manifests := store.manifests[key := manifest];
    why := None;
  }

  lemma {:induction false} EvalRowStops<S, T>(env: Env<S, T>, s: S, t: T, plan: Plan, n: nat, m: nat)
    requires n <= m && EvalRowOf(env, s, t, plan, n).EvalStop?
    ensures EvalRowOf(env, s, t, plan, m) == EvalRowOf(env, s, t, plan, n)
    decreases m
  {
    if n < m {
      EvalRowStops(env, s, t, plan, n, m - 1);
    }
  }

  lemma {:induction false} EvalRunStops<S, T>(env: Env<S, T>, s: S, t: T, plans: seq<Plan>, n: nat, m: nat)
    requires n <= m <= |plans| && EvalRunOf(env, s, t, plans, n).EvalRunStop?
    ensures EvalRunOf(env, s, t, plans, m) == EvalRunOf(env, s, t, plans, n)
    decreases m
  {
    if n < m {
      EvalRunStops(env, s, t, plans, n, m - 1);
    }
  }

  /** What the loops accumulate for one task. */
  ghost predicate RowTotals<S, T>(env: Env<S, T>, taskId: string, row: seq<Manifest>,
                                  scores: seq<real>, records: seq<SampleRecord>, usage: Usage) {
    scores == Scores(row) && records == Records(env, taskId, row) && usage == RowUsage(row)
  }

  lemma RowTotalsGrow<S, T>(env: Env<S, T>, taskId: string, row: seq<Manifest>, m: Manifest,
                            scores: seq<real>, records: seq<SampleRecord>, usage: Usage)
    requires RowTotals(env, taskId, row, scores, records, usage)
    ensures RowTotals(env, taskId, row + [m], scores + [m.score],
                      records + [RecordOf(env, taskId, |row| + 1, m)], Add(usage, m.usage))
  {
    assert (row + [m])[..|row|] == row;
  }

  /** The inner loop of `eval_model`. */
  method EvalTask<S, T>(env: Env<S, T>, provider: Provider<S>, scorer: Scorer<T>, store: Store, plan: Plan)
    returns (why: Option<Abort>, scores: seq<real>, records: seq<SampleRecord>, usage: Usage)
    requires provider.fns == env.provider && scorer.fn == env.score
    modifies provider, scorer, store`sources, store`manifests
    ensures match EvalRowOf(env, old(provider.state), old(scorer.state), plan, env.samples)
            case EvalStop(w) => why == Some(w)
            case EvalRow(s, t, row, effects) =>
              && why == None && provider.state == s && scorer.state == t
              && RowTotals(env, plan.taskId, row, scores, records, usage)
              && store.manifests == WriteRow(old(store.manifests), plan.taskId, row)
              && store.sources == TouchRow(old(store.sources), plan.taskId, effects)
  {
    ghost var s0, t0 := provider.state, scorer.state;
    scores, records, usage := [], [], NO_USAGE;
    assert RowTotals(env, plan.taskId, [], scores, records, usage);
    hide AttemptOf, ManifestOf, ManifestFieldsOk, EffectOf, Touch, RowTotals, RecordOf;
    for n := 0 to env.samples
      invariant var e := EvalRowOf(env, s0, t0, plan, n);
                && e.EvalRow? && provider.state == e.s && scorer.state == e.t
                && RowTotals(env, plan.taskId, e.manifests, scores, records, usage)
                && store.manifests == WriteRow(old(store.manifests), plan.taskId, e.manifests)
                && store.sources == TouchRow(old(store.sources), plan.taskId, e.effects)
    {
      ghost var e := EvalRowOf(env, s0, t0, plan, n);
      var m;
      why, m := EvalSample(env, provider, scorer, store, plan, n + 1);
      if why.Some? {
        EvalRowStops(env, s0, t0, plan, n + 1, env.samples);
        return;
      }
      ghost var after := EvalRowOf(env, s0, t0, plan, n + 1);
      assert after.manifests[..n] == e.manifests && after.effects[..n] == e.effects;
      RowTotalsGrow(env, plan.taskId, e.manifests, m, scores, records, usage);
      scores, records := scores + [m.score], records + [RecordOf(env, plan.taskId, n + 1, m)];
      usage := Add(usage, m.usage);
    }
    why := None;
  }

  datatype Result = Stopped(why: Abort) | Finished(summary: Summary)

  /** What the outer loops accumulate. */
  ghost predicate RunTotals<S, T>(env: Env<S, T>, ids: seq<string>, skips: seq<Option<string>>,
                                  rows: seq<seq<Manifest>>,
                                  tasks: map<string, TaskEntry>, counted: seq<real>, usage: Usage)
    requires |rows| <= |ids| && |rows| <= |skips|
  {
    && tasks == Entries(env, ids, skips, rows, |rows|)
    && counted == Counted(skips, rows, |rows|) && usage == RunUsage(rows)
  }

  lemma {:induction false} EntriesPrefix<S, T>(env: Env<S, T>, ids: seq<string>, skips: seq<Option<string>>,
                                              rows: seq<seq<Manifest>>, row: seq<Manifest>, n: nat)
    requires n <= |rows| < |ids| && |rows| < |skips|
    ensures Entries(env, ids, skips, rows + [row], n) == Entries(env, ids, skips, rows, n)
    ensures Counted(skips, rows + [row], n) == Counted(skips, rows, n)
  {
    if n > 0 {
      EntriesPrefix(env, ids, skips, rows, row, n - 1);
    }
  }

  lemma RunTotalsGrow<S, T>(env: Env<S, T>, ids: seq<string>, skips: seq<Option<string>>, rows: seq<seq<Manifest>>,
                            row: seq<Manifest>,
                            tasks: map<string, TaskEntry>, counted: seq<real>, usage: Usage)
    requires |rows| < |ids| && |rows| < |skips| && RunTotals(env, ids, skips, rows, tasks, counted, usage)
    ensures RunTotals(env, ids, skips, rows + [row],
                      tasks[ids[|rows|] := EntryOf(env, ids[|rows|], skips[|rows|], row)],
                      counted + (if skips[|rows|].None? then Scores(row) else []), Add(usage, RowUsage(row)))
  {
    hide EntryOf, Scores, RowUsage;
    EntriesPrefix(env, ids, skips, rows, row, |rows|);
    assert (rows + [row])[..|rows|] == rows;
  }

  lemma NoTotals<S, T>(env: Env<S, T>, ids: seq<string>, skips: seq<Option<string>>)
    ensures RunTotals(env, ids, skips, [], map[], [], NO_USAGE)
  {
  }

  /** At the end of the loops, what was accumulated is the summary. */
  lemma TotalsGiveSummary<S, T>(env: Env<S, T>, provider: string, model: string, temperature: string,
                                ids: seq<string>, skips: seq<Option<string>>, rows: seq<seq<Manifest>>, estimate: nat,
                                tasks: map<string, TaskEntry>, counted: seq<real>, usage: Usage)
    requires |rows| == |ids| == |skips| && RunTotals(env, ids, skips, rows, tasks, counted, usage)
    ensures SummaryOf(env, provider, model, temperature, ids, skips, rows, estimate) ==
            Summary(provider, model, temperature, env.official, env.samples, ids, tasks, Mean(counted), usage, estimate)
  {
  }

  /** The outer loop of `eval_model`. */
  method EvalLoop<S, T>(env: Env<S, T>, provider: Provider<S>, scorer: Scorer<T>, store: Store, plans: seq<Plan>,
                        estimate: nat)
    returns (r: Result)
    requires provider.fns == env.provider && scorer.fn == env.score
    modifies provider, scorer, store`sources, store`manifests
    ensures EvalEffect(env, provider, scorer, store, plans, estimate, r)
  {
    hide EvalRowOf, EvalState, WriteRow, TouchRow, WriteRows, TouchRows, RunTotals, RowTotals, RowUsage, Scores,
         Records, SummaryOf, Mean, EntryOf;
    ghost var s0, t0, files0, sources0 := provider.state, scorer.state, store.manifests, store.sources;
    var ids, skips := Ids(plans), Skips(plans);
    var tasks: map<string, TaskEntry>, counted: seq<real>, total := map[], [], NO_USAGE;
    NothingEvaluated(env, s0, t0, ids, skips, files0, sources0);
    for n := 0 to |plans|
      invariant EvalRunOf(env, s0, t0, plans, n).EvalRun?
      invariant EvalRunOf(env, s0, t0, plans, n).s == provider.state
      invariant EvalRunOf(env, s0, t0, plans, n).t == scorer.state
      invariant EvalState(env, EvalRunOf(env, s0, t0, plans, n), ids, skips, files0, store.manifests,
                          sources0, store.sources, tasks, counted, total)
    {
      ghost var e, row := EvalRunOf(env, s0, t0, plans, n),
                          EvalRowOf(env, provider.state, scorer.state, plans[n], env.samples);
      ghost var files, sources := store.manifests, store.sources;
      var why, scores, records, usage := EvalTask(env, provider, scorer, store, plans[n]);
      if why.Some? {
        EvalRunStops(env, s0, t0, plans, n + 1, |plans|);
        return Stopped(why.value);
      }
      EvalStateStep(env, e, row, ids, skips, files0, files, sources0, sources, tasks, counted, total,
                    scores, records, usage);
      tasks := tasks[plans[n].taskId := TaskEntry(scores, Mean(scores), records, plans[n].skip)];
      counted := counted + (if plans[n].skip.None? then scores else []);
      total := Add(total, usage);
    }
    EvalStateEnd(env, EvalRunOf(env, s0, t0, plans, |plans|), ids, skips, files0, store.manifests,
                 sources0, store.sources, tasks, counted, total, estimate);
    r := Finished(Summary(env.provider.name, env.provider.model, env.provider.temperature, env.official, env.samples,
                          ids, tasks, Mean(counted), total, estimate));
  }

  /** The files and totals after some tasks of the combined flow. */
  ghost predicate EvalState<S, T>(env: Env<S, T>, e: EvalRun<S, T>, ids: seq<string>, skips: seq<Option<string>>,
                                  before: map<Key, Manifest>, files: map<Key, Manifest>,
                                  sources0: map<Key, string>, sources: map<Key, string>,
                                  tasks: map<string, TaskEntry>, counted: seq<real>, total: Usage) {
    && e.EvalRun? && |e.manifests| == |e.effects| <= |ids| == |skips|
    && RunTotals(env, ids, skips, e.manifests, tasks, counted, total)
    && files == WriteRows(before, ids, e.manifests) && sources == TouchRows(sources0, ids, e.effects)
  }

  lemma NothingEvaluated<S, T>(env: Env<S, T>, s: S, t: T, ids: seq<string>, skips: seq<Option<string>>,
                               files: map<Key, Manifest>, sources: map<Key, string>)
    requires |ids| == |skips|
    ensures EvalState(env, EvalRun(s, t, [], []), ids, skips, files, files, sources, sources, map[], [], NO_USAGE)
  {
    NoTotals(env, ids, skips);
  }

  /** One task: the files and totals before and after it. */
  lemma EvalStateStep<S, T>(env: Env<S, T>, e: EvalRun<S, T>, row: Eval<S, T>,
                            ids: seq<string>, skips: seq<Option<string>>,
                            before: map<Key, Manifest>, files: map<Key, Manifest>,
                            sources0: map<Key, string>, sources: map<Key, string>,
                            tasks: map<string, TaskEntry>, counted: seq<real>, total: Usage,
                            scores: seq<real>, records: seq<SampleRecord>, usage: Usage)
    requires EvalState(env, e, ids, skips, before, files, sources0, sources, tasks, counted, total)
    requires |e.manifests| < |ids| && row.EvalRow?
    requires RowTotals(env, ids[|e.manifests|], row.manifests, scores, records, usage)
    ensures var n := |e.manifests|;
            EvalState(env, EvalRun(row.s, row.t, e.manifests + [row.manifests], e.effects + [row.effects]), ids, skips,
                      before, WriteRow(files, ids[n], row.manifests), sources0, TouchRow(sources, ids[n], row.effects),
                      tasks[ids[n] := TaskEntry(scores, Mean(scores), records, skips[n])],
                      counted + (if skips[n].None? then scores else []), Add(total, usage))
  {
    hide RunTotals, RowTotals, Mean, WriteRow, TouchRow, EntryOf, Scores, Records, RowUsage;
    var n := |e.manifests|;
    assert (e.manifests + [row.manifests])[..n] == e.manifests && (e.effects + [row.effects])[..n] == e.effects;
    EntryIs(env, ids[n], skips[n], row.manifests, scores, records, usage);
    RowTotalsAre(env, ids[n], row.manifests, scores, records, usage);
    RunTotalsGrow(env, ids, skips, e.manifests, row.manifests, tasks, counted, total);
  }

  lemma EvalStateEnd<S, T>(env: Env<S, T>, e: EvalRun<S, T>, ids: seq<string>, skips: seq<Option<string>>,
                           before: map<Key, Manifest>, files: map<Key, Manifest>,
                           sources0: map<Key, string>, sources: map<Key, string>,
                           tasks: map<string, TaskEntry>, counted: seq<real>, total: Usage, estimate: nat)
    requires EvalState(env, e, ids, skips, before, files, sources0, sources, tasks, counted, total)
    requires e.EvalRun? && |e.manifests| == |ids|
    ensures files == WriteRows(before, ids, e.manifests) && sources == TouchRows(sources0, ids, e.effects)
    ensures SummaryOf(env, env.provider.name, env.provider.model, env.provider.temperature, ids, skips,
                      e.manifests, estimate) ==
            Summary(env.provider.name, env.provider.model, env.provider.temperature, env.official, env.samples,
                    ids, tasks, Mean(counted), total, estimate)
  {
    TotalsGiveSummary(env, env.provider.name, env.provider.model, env.provider.temperature, ids, skips,
                      e.manifests, estimate, tasks, counted, total);
  }

  lemma EntryIs<S, T>(env: Env<S, T>, taskId: string, skip: Option<string>, row: seq<Manifest>,
                      scores: seq<real>, records: seq<SampleRecord>, usage: Usage)
    requires RowTotals(env, taskId, row, scores, records, usage)
    ensures TaskEntry(scores, Mean(scores), records, skip) == EntryOf(env, taskId, skip, row)
  {
  }

  lemma RowTotalsAre<S, T>(env: Env<S, T>, taskId: string, row: seq<Manifest>,
                           scores: seq<real>, records: seq<SampleRecord>, usage: Usage)
    requires RowTotals(env, taskId, row, scores, records, usage)
    ensures scores == Scores(row) && usage == RowUsage(row)
  {
  }

  /** What a combined run leaves behind, from the state it started in. */
  twostate predicate EvalEffect<S, T>(env: Env<S, T>, provider: Provider<S>, scorer: Scorer<T>, store: Store,
                                      plans: seq<Plan>, estimate: nat, r: Result)
    reads provider, scorer, store
  {
    match EvalRunOf(env, old(provider.state), old(scorer.state), plans, |plans|)
    case EvalRunStop(w) => r == Stopped(w)
    case EvalRun(s, t, rows, effects) =>
      && provider.state == s && scorer.state == t
      && r == Finished(SummaryOf(env, env.provider.name, env.provider.model, env.provider.temperature,
                                 Ids(plans), Skips(plans), rows, estimate))
      && store.manifests == WriteRows(old(store.manifests), Ids(plans), rows)
      && store.sources == TouchRows(old(store.sources), Ids(plans), effects)
  }

  /** `eval_model`. */
  method EvalModel<S, T>(env: Env<S, T>, provider: Provider<S>, scorer: Scorer<T>, store: Store, plans: seq<Plan>,
                         estimate: nat, remaining: int)
    returns (r: Result)
    requires provider.fns == env.provider && scorer.fn == env.score
    modifies provider, scorer, store`sources, store`manifests
    ensures if !ArgumentsOk(env, Ids(plans)) then r == Stopped(BadArguments)
            else if estimate > remaining then r == Stopped(CapReached)
            else EvalEffect(env, provider, scorer, store, plans, estimate, r)
  {
    if !ArgumentsOk(env, Ids(plans)) {
      return Stopped(BadArguments);
    }
    if estimate > remaining {
      return Stopped(CapReached);
    }
    r := EvalLoop(env, provider, scorer, store, plans, estimate);
  }
}
