/** The data of a Track A campaign (harness/evalmodel.py): plans, pending generations,
    manifests and summaries, and how each is computed for one sample. */
module EvalTypes {
  import opened Wrappers
  import opened ModuleExtraction

  datatype Usage = Usage(tokensIn: nat, tokensOut: nat, cost: nat)

  const NO_USAGE := Usage(0, 0, 0)

  predicate NoLess(before: Usage, after: Usage) {
    before.tokensIn <= after.tokensIn && before.tokensOut <= after.tokensOut && before.cost <= after.cost
  }

  /** `_usage_delta`; None where it raises because a counter moved backwards. */
  function Delta(before: Usage, after: Usage): Option<Usage> {
    if NoLess(before, after)
    then Some(Usage(after.tokensIn - before.tokensIn, after.tokensOut - before.tokensOut, after.cost - before.cost))
    else None
  }

  function Add(a: Usage, b: Usage): Usage {
    Usage(a.tokensIn + b.tokensIn, a.tokensOut + b.tokensOut, a.cost + b.cost)
  }

  datatype Reply = Words(text: string) | CapHit | Failed(message: string)

  /** An arbitrary stateful provider: what its counters read (None when malformed), its last
      finish reason, and one call, transport retries included. */
  datatype Adapter<!S> = Adapter(
    name: string, model: string, temperature: string,
    usage: S -> Option<Usage>,
    finish: S -> Option<string>,
    generate: (S, string, nat) -> (S, Reply))

  datatype ScoreOutcome = Scored(score: real, ppa: real, stages: string) | ScorerRaised(message: string)

  /** A task to evaluate; skip holds the official review gate's reason. */
  datatype Plan = Plan(taskId: string, top: string, prompt: string, skip: Option<string>)

  /** The fields of a manifest that its signature covers and that both flows set. */
  datatype Manifest = Manifest(
    taskId: string, score: real, ppa: real, stages: string,
    provider: string, model: string, temperature: string,
    usage: Usage, maxTokens: nat,
    finish: Option<string>, error: Option<string>, skip: Option<string>, sha: Option<string>)

  datatype Pending = Pending(
    taskId: string, official: bool,
    provider: string, model: string, temperature: string,
    usage: Usage, maxTokens: nat,
    finish: Option<string>, sha: Option<string>, error: Option<string>, skip: Option<string>)

  /** Everything fixed during a campaign.  score is an arbitrary stateful scoring function of
      task, source and mode; digest and sign stand for SHA-256. */
  datatype Env<!S, !T> = Env(
    provider: Adapter<S>,
    score: (T, string, string, bool) -> (T, ScoreOutcome),
    digest: string -> string,
    sign: Manifest -> string,
    official: bool, samples: nat, maxTokens: nat)

  datatype Abort =
    | CapReached
    | SchemaRefused       // a record the schema does not accept, such as an empty finish reason
    | SampleFailed        // the sidecar is missing or altered, or the scorer raised in the score phase
    | PendingMismatch     // a missing record or one that fails a consistency check
    | BadArguments

  // ----- The provider call -----

  datatype Call = CapAbort | Called(response: Option<string>, error: Option<string>, usage: Usage,
                                    finish: Option<string>)

  function UsageError(): Call {
    Called(None, Some("provider usage error"), NO_USAGE, None)
  }

  /** `_call_once`. */
  function CallOnce<S>(p: Adapter<S>, s: S, prompt: string, maxTokens: nat): (S, Call) {
    var before := p.usage(s);
    if before.None? then (s, UsageError())
    else
      var (s', reply) := p.generate(s, prompt, maxTokens);
      match reply
      case CapHit => (s', CapAbort)
      case Failed(message) =>
        var after := p.usage(s');
        var delta := Delta(before.value, if after.None? then before.value else after.value);
        (s', if delta.None? then Called(None, Some("provider error: " + message + "; usage error"), NO_USAGE,
                                        p.finish(s'))
             else Called(None, Some("provider error: " + message), delta.value, p.finish(s')))
      case Words(text) =>
        var after := p.usage(s');
        (s', if after.None? || Delta(before.value, after.value).None? then UsageError()
             else Called(Some(text), None, Delta(before.value, after.value).value, p.finish(s')))
  }

  function ShapeText(e: ShapeError): string {
    match e
    case NoModule => "generation contained no SystemVerilog module declaration"
    case MultipleModules(_) => "generation contained multiple module declarations"
    case WrongModule(name) => "generation's module " + name + " does not match the locked interface module"
  }

  function ErrorText(e: Error): string {
    "ValueError: " +
    match e
    case UnterminatedFence => "generation contained an unterminated code fence"
    case NoModuleInFences => "generation contained no SystemVerilog module declaration"
    case MalformedFence => "generation contained a malformed code fence"
    case BadShape(shape) => ShapeText(shape)
  }

  /** What became of one generation. */
  datatype Attempt =
    | Skipped(reason: string)
    | Unusable(error: string, usage: Usage, finish: Option<string>)
    | Produced(source: string, usage: Usage, finish: Option<string>)

  /** One generation; None when the spend cap was reached. */
  function AttemptOf<S, T>(env: Env<S, T>, s: S, plan: Plan): (S, Option<Attempt>) {
    if plan.skip.Some? then (s, Some(Skipped(plan.skip.value)))
    else
      var (s', call) := CallOnce(env.provider, s, plan.prompt, env.maxTokens);
      match call
      case CapAbort => (s', None)
      case Called(response, error, usage, finish) =>
        if error.Some? then (s', Some(Unusable(error.value, usage, finish)))
        else
          match Extract(if response.Some? then response.value else "", Some(plan.top))
          case Accepted(source) => (s', Some(Produced(source, usage, finish)))
          case Refused(e) => (s', Some(Unusable(ErrorText(e), usage, finish)))
  }

  // ----- Records -----

  /** Optional text fields must be nonempty when present. */
  predicate FieldOk(field: Option<string>) {
    field != Some("")
  }

  predicate PendingRules(p: Pending) {
    var failed, skipped, submitted := p.error.Some?, p.skip.Some?, p.sha.Some?;
    && !(failed && submitted)
    && !(skipped && (failed || submitted))
    && (failed || skipped || submitted)
    && FieldOk(p.finish) && FieldOk(p.error) && FieldOk(p.skip)
  }

  predicate ManifestFieldsOk(m: Manifest) {
    FieldOk(m.finish) && FieldOk(m.error) && FieldOk(m.skip)
  }

  function ZeroManifest(taskId: string, provider: string, model: string, temperature: string, usage: Usage,
                        maxTokens: nat,
                        finish: Option<string>, error: Option<string>, skip: Option<string>,
                            sha: Option<string>): Manifest {
    Manifest(taskId, 0.0, 0.0, if skip.Some? then "all skip" else "all fail, route skip",
             provider, model, temperature, usage, maxTokens, finish, error, skip, sha)
  }

  /** `_merge_generation_fields` over a manifest that run_task built for a source. */
  function MergedManifest(taskId: string, scored: ScoreOutcome, sha: string, provider: string, model: string,
                          temperature: string,
                          usage: Usage, maxTokens: nat, finish: Option<string>): Manifest
    requires scored.Scored?
  {
    Manifest(taskId, scored.score, scored.ppa, scored.stages, provider, model, temperature, usage, maxTokens,
             finish, None, None, Some(sha))
  }

  /** What happens to a sample's .sv sidecar. */
  datatype SourceEffect = Keep | Remove | Put(source: string)

  function EffectOf(a: Attempt): SourceEffect {
    match a
    case Skipped(_) => Keep
    case Unusable(_, _, _) => Remove
    case Produced(source, _, _) => Put(source)
  }

  function PendingOf<S, T>(env: Env<S, T>, plan: Plan, a: Attempt): Pending {
    var p := env.provider;
    match a
    case Skipped(reason) =>
      Pending(plan.taskId, env.official, p.name, p.model, p.temperature, NO_USAGE, env.maxTokens, None, None, None,
              Some(reason))
    case Unusable(error, usage, finish) =>
      Pending(plan.taskId, env.official, p.name, p.model, p.temperature, usage, env.maxTokens, finish, None,
              Some(error), None)
    case Produced(source, usage, finish) =>
      Pending(plan.taskId, env.official, p.name, p.model, p.temperature, usage, env.maxTokens, finish,
              Some(env.digest(source)), None, None)
  }

  /** The combined flow's manifest for an attempt: a scorer that raises is folded into a zero
      manifest that keeps the submission hash. */
  function ManifestOf<S, T>(env: Env<S, T>, t: T, plan: Plan, a: Attempt): (T, Manifest) {
    var p := env.provider;
    match a
    case Skipped(reason) =>
      (t, ZeroManifest(plan.taskId, p.name, p.model, p.temperature, NO_USAGE, env.maxTokens, None, None, Some(reason),
                       None))
    case Unusable(error, usage, finish) =>
      (t, ZeroManifest(plan.taskId, p.name, p.model, p.temperature, usage, env.maxTokens, finish, Some(error), None,
                       None))
    case Produced(source, usage, finish) =>
      var (t', scored) := env.score(t, plan.taskId, source, env.official);
      (t', match scored
           case Scored(_, _, _) =>
             MergedManifest(plan.taskId, scored, env.digest(source), p.name, p.model, p.temperature, usage,
                            env.maxTokens, finish)
           case ScorerRaised(message) =>
             ZeroManifest(plan.taskId, p.name, p.model, p.temperature, usage, env.maxTokens, finish,
                          Some("scoring error: " + message), None, Some(env.digest(source))))
  }

  /** The score phase's manifest for a pending record and the sidecar text found on disk. */
  function ManifestOfPending<S, T>(env: Env<S, T>, t: T, taskId: string, p: Pending, source: Option<string>)
    : (T, Option<Manifest>)
  {
    if p.skip.Some? then
      (t, Some(ZeroManifest(taskId, p.provider, p.model, p.temperature, p.usage, p.maxTokens, None, None, p.skip,
                            None)))
    else if p.error.Some? then
      (t, Some(ZeroManifest(taskId, p.provider, p.model, p.temperature, p.usage, p.maxTokens, p.finish, p.error, None,
                            None)))
    else if source.None? || (p.sha.Some? && env.digest(source.value) != p.sha.value) then (t, None)
    else
      var (t', scored) := env.score(t, taskId, source.value, env.official);
      (t', match scored
           case ScorerRaised(_) => None
           case Scored(_, _, _) =>
             Some(MergedManifest(taskId, scored, env.digest(source.value), p.provider, p.model, p.temperature,
                                 p.usage, p.maxTokens, p.finish)))
  }

  /** The combined flow marks a raising scorer, and nothing else, by an error next to a
      submission hash. */
  predicate ScorerFailed(m: Manifest) {
    m.error.Some? && m.sha.Some?
  }

  function FinishOf(a: Attempt): Option<string> {
    if a.Skipped? then None else a.finish
  }

  /** Loop fission for one sample: the pending record and the sidecar carry all the score
      phase needs, and it fails exactly where the combined flow records a raising scorer. */
  lemma OneSampleAgrees<S, T>(env: Env<S, T>, t: T, plan: Plan, a: Attempt)
    ensures var (t1, m1) := ManifestOf(env, t, plan, a);
            var (t2, m2) := ManifestOfPending(env, t, plan.taskId, PendingOf(env, plan, a),
                                              if a.Produced? then Some(a.source) else None);
            t1 == t2 && (m2.Some? <==> !ScorerFailed(m1)) && (m2.Some? ==> m2.value == m1)
  {
  }

  /** Both records of an attempt satisfy the schema under the same condition. */
  lemma RecordsValidTogether<S, T>(env: Env<S, T>, s: S, t: T, plan: Plan)
    requires FieldOk(plan.skip) && AttemptOf(env, s, plan).1.Some?
    ensures var a := AttemptOf(env, s, plan).1.value;
            && (PendingRules(PendingOf(env, plan, a)) <==> FieldOk(FinishOf(a)))
            && (ManifestFieldsOk(ManifestOf(env, t, plan, a).1) <==> FieldOk(FinishOf(a)))
  {
  }
}
