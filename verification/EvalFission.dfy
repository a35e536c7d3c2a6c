/** Track A campaigns (harness/evalmodel.py): the combined flow, and the same work split into
    a generate phase and a score phase that meet only in the files between them. */
module EvalFission {
  import opened Wrappers
  import opened EvalTypes

  type Key = (string, nat)

  // ----- The matrix of samples, specified -----

  datatype Gen<S> = GenStop(why: Abort) | GenRow(s: S, pendings: seq<Pending>, effects: seq<SourceEffect>)

  datatype GenRun<S> = GenRunStop(why: Abort) | GenRun(s: S, pendings: seq<seq<Pending>>,
                                                       effects: seq<seq<SourceEffect>>)

  datatype Eval<S, T> = EvalStop(why: Abort) | EvalRow(s: S, t: T, manifests: seq<Manifest>, effects: seq<SourceEffect>)

  datatype EvalRun<S, T> = EvalRunStop(why: Abort) | EvalRun(s: S, t: T, manifests: seq<seq<Manifest>>,
                                                             effects: seq<seq<SourceEffect>>)

  /** The first n samples of a task in the generate phase. */
  function GenRowOf<S, T>(env: Env<S, T>, s: S, plan: Plan, n: nat): (r: Gen<S>)
    ensures r.GenRow? ==> |r.pendings| == |r.effects| == n
  {
    if n == 0 then GenRow(s, [], [])
    else
      var prev := GenRowOf(env, s, plan, n - 1);
      if prev.GenStop? then prev
      else
        var (s', a) := AttemptOf(env, prev.s, plan);
        if a.None? then GenStop(CapReached)
        else
          var p := PendingOf(env, plan, a.value);
          if !PendingRules(p) then GenStop(SchemaRefused)
          else GenRow(s', prev.pendings + [p], prev.effects + [EffectOf(a.value)])
  }

  function GenRunOf<S, T>(env: Env<S, T>, s: S, plans: seq<Plan>, n: nat): (r: GenRun<S>)
    requires n <= |plans|
    ensures r.GenRun? ==> |r.pendings| == |r.effects| == n
    ensures r.GenRun? ==> forall k :: 0 <= k < n ==> |r.pendings[k]| == |r.effects[k]| == env.samples
  {
    if n == 0 then GenRun(s, [], [])
    else
      var prev := GenRunOf(env, s, plans, n - 1);
      if prev.GenRunStop? then prev
      else
        var row := GenRowOf(env, prev.s, plans[n - 1], env.samples);
        if row.GenStop? then GenRunStop(row.why)
        else GenRun(row.s, prev.pendings + [row.pendings], prev.effects + [row.effects])
  }

  /** The first n samples of a task in the combined flow. */
  function EvalRowOf<S, T>(env: Env<S, T>, s: S, t: T, plan: Plan, n: nat): (r: Eval<S, T>)
    ensures r.EvalRow? ==> |r.manifests| == |r.effects| == n
  {
    if n == 0 then EvalRow(s, t, [], [])
    else
      var prev := EvalRowOf(env, s, t, plan, n - 1);
      if prev.EvalStop? then prev
      else
        var (s', a) := AttemptOf(env, prev.s, plan);
        if a.None? then EvalStop(CapReached)
        else
          var (t', m) := ManifestOf(env, prev.t, plan, a.value);
          if !ManifestFieldsOk(m) then EvalStop(SchemaRefused)
          else EvalRow(s', t', prev.manifests + [m], prev.effects + [EffectOf(a.value)])
  }

  function EvalRunOf<S, T>(env: Env<S, T>, s: S, t: T, plans: seq<Plan>, n: nat): (r: EvalRun<S, T>)
    requires n <= |plans|
    ensures r.EvalRun? ==> |r.manifests| == |r.effects| == n
    ensures r.EvalRun? ==> forall k :: 0 <= k < n ==> |r.manifests[k]| == |r.effects[k]| == env.samples
  {
    if n == 0 then EvalRun(s, t, [], [])
    else
      var prev := EvalRunOf(env, s, t, plans, n - 1);
      if prev.EvalRunStop? then prev
      else
        var row := EvalRowOf(env, prev.s, prev.t, plans[n - 1], env.samples);
        if row.EvalStop? then EvalRunStop(row.why)
        else EvalRun(row.s, row.t, prev.manifests + [row.manifests], prev.effects + [row.effects])
  }

  // ----- The score phase, reading files -----

  datatype Score<T> = ScoreStop(why: Abort) | ScoreRow(t: T, ident: Option<(string, string)>, manifests: seq<Manifest>)

  datatype ScoreRun<T> = ScoreRunStop(why: Abort) | ScoreRun(t: T, ident: Option<(string, string)>,
                                                             manifests: seq<seq<Manifest>>)

  function Lookup<K, V>(m: map<K, V>, key: K): Option<V> {
    if key in m then Some(m[key]) else None
  }

  /** The checks made on a pending record before it is used: it belongs to this task, mode and
      model, and agrees with the samples before it. */
  predicate Consistent(p: Pending, taskId: string, official: bool, model: string, ident: Option<(string, string)>,
                       firstSkip: Option<string>) {
    && p.taskId == taskId && p.official == official && p.model == model
    && (ident.Some? ==> ident.value == (p.provider, p.temperature))
    && p.skip == firstSkip
  }

  datatype Sample<T> = SampleStop(why: Abort) | Sample(t: T, ident: (string, string), manifest: Manifest)

  /** Scoring sample n of a task from its files. */
  function ScoreNext<S, T>(env: Env<S, T>, model: string, t: T, ident: Option<(string, string)>, taskId: string,
                           pendings: map<Key, Pending>, sources: map<Key, string>, n: nat): Sample<T>
    requires n > 1 ==> (taskId, 1) in pendings
  {
    var p := Lookup(pendings, (taskId, n));
    if p.None? || !PendingRules(p.value)
       || !Consistent(p.value, taskId, env.official, model, ident,
                      if n > 1 then pendings[(taskId, 1)].skip else p.value.skip)
    then SampleStop(PendingMismatch)
    else
      var (t', m) := ManifestOfPending(env, t, taskId, p.value, Lookup(sources, (taskId, n)));
      if m.None? then SampleStop(SampleFailed) else Sample(t', (p.value.provider, p.value.temperature), m.value)
  }

  function ScoreRowOf<S, T>(env: Env<S, T>, model: string, t: T, ident: Option<(string, string)>, taskId: string,
                            pendings: map<Key, Pending>, sources: map<Key, string>, n: nat): (r: Score<T>)
    ensures r.ScoreRow? ==> |r.manifests| == n && (n > 0 ==> (taskId, 1) in pendings)
  {
    if n == 0 then ScoreRow(t, ident, [])
    else
      var prev := ScoreRowOf(env, model, t, ident, taskId, pendings, sources, n - 1);
      if prev.ScoreStop? then prev
      else
        var next := ScoreNext(env, model, prev.t, prev.ident, taskId, pendings, sources, n);
        if next.SampleStop? then ScoreStop(next.why)
        else ScoreRow(next.t, Some(next.ident), prev.manifests + [next.manifest])
  }

  function ScoreRunOf<S, T>(env: Env<S, T>, model: string, t: T, taskIds: seq<string>,
                            pendings: map<Key, Pending>, sources: map<Key, string>, n: nat): (r: ScoreRun<T>)
    requires n <= |taskIds|
    ensures r.ScoreRun? ==> |r.manifests| == n
  {
    if n == 0 then ScoreRun(t, None, [])
    else
      var prev := ScoreRunOf(env, model, t, taskIds, pendings, sources, n - 1);
      if prev.ScoreRunStop? then prev
      else
        var row := ScoreRowOf(env, model, prev.t, prev.ident, taskIds[n - 1], pendings, sources, env.samples);
        if row.ScoreStop? then ScoreRunStop(row.why)
        else ScoreRun(row.t, row.ident, prev.manifests + [row.manifests])
  }

  // ----- Files -----

  /** The files after writing a task's samples. */
  function WriteRow<V>(files: map<Key, V>, taskId: string, row: seq<V>): map<Key, V> {
    if row == [] then files
    else WriteRow(files, taskId, row[..|row| - 1])[(taskId, |row|) := row[|row| - 1]]
  }

  function WriteRows<V>(files: map<Key, V>, taskIds: seq<string>, rows: seq<seq<V>>): map<Key, V>
    requires |rows| <= |taskIds|
  {
    if rows == [] then files
    else WriteRow(WriteRows(files, taskIds, rows[..|rows| - 1]), taskIds[|rows| - 1], rows[|rows| - 1])
  }

  function Touch(files: map<Key, string>, key: Key, e: SourceEffect): map<Key, string> {
    match e
    case Keep => files
    case Remove => files - {key}
    case Put(source) => files[key := source]
  }

  function TouchRow(files: map<Key, string>, taskId: string, row: seq<SourceEffect>): map<Key, string> {
    if row == [] then files
    else Touch(TouchRow(files, taskId, row[..|row| - 1]), (taskId, |row|), row[|row| - 1])
  }

  function TouchRows(files: map<Key, string>, taskIds: seq<string>, rows: seq<seq<SourceEffect>>): map<Key, string>
    requires |rows| <= |taskIds|
  {
    if rows == [] then files
    else TouchRow(TouchRows(files, taskIds, rows[..|rows| - 1]), taskIds[|rows| - 1], rows[|rows| - 1])
  }

  function Ids(plans: seq<Plan>): (ids: seq<string>)
    ensures |ids| == |plans| && forall k :: 0 <= k < |plans| ==> ids[k] == plans[k].taskId
  {
    seq(|plans|, k requires 0 <= k < |plans| => plans[k].taskId)
  }

  predicate Distinct(ids: seq<string>) {
    forall j, k :: 0 <= j < k < |ids| ==> ids[j] != ids[k]
  }

  // ----- Loop fission -----

  ghost predicate RowClean(row: seq<Manifest>) {
    forall i :: 0 <= i < |row| ==> !ScorerFailed(row[i])
  }

  /** Scoring never feeds back into generation: the combined flow stops exactly when the
      generate phase does, and otherwise leaves the provider and the sidecars the same. */
  lemma {:induction false} SameGenerationRow<S, T>(env: Env<S, T>, s: S, t: T, plan: Plan, n: nat)
    requires FieldOk(plan.skip)
    ensures var g, e := GenRowOf(env, s, plan, n), EvalRowOf(env, s, t, plan, n);
            if g.GenStop? then e == EvalStop(g.why) else e.EvalRow? && e.s == g.s && e.effects == g.effects
  {
    hide AttemptOf, PendingOf, ManifestOf, PendingRules, ManifestFieldsOk, EffectOf, FinishOf;
    if n > 0 {
      SameGenerationRow(env, s, t, plan, n - 1);
      var g := GenRowOf(env, s, plan, n - 1);
      if g.GenRow? && AttemptOf(env, g.s, plan).1.Some? {
        RecordsValidTogether(env, g.s, EvalRowOf(env, s, t, plan, n - 1).t, plan);
      }
    }
  }

  lemma {:induction false} SameGeneration<S, T>(env: Env<S, T>, s: S, t: T, plans: seq<Plan>, n: nat)
    requires n <= |plans| && forall k :: 0 <= k < |plans| ==> FieldOk(plans[k].skip)
    ensures var g, e := GenRunOf(env, s, plans, n), EvalRunOf(env, s, t, plans, n);
            if g.GenRunStop? then e == EvalRunStop(g.why) else e.EvalRun? && e.s == g.s && e.effects == g.effects
  {
    hide GenRowOf, EvalRowOf;
    if n > 0 {
      SameGeneration(env, s, t, plans, n - 1);
      var g, e := GenRunOf(env, s, plans, n - 1), EvalRunOf(env, s, t, plans, n - 1);
      if g.GenRun? {
        SameGenerationRow(env, g.s, e.t, plans[n - 1], env.samples);
      }
    }
  }

  /** The files hold what the generate phase produced for one task. */
  ghost predicate RowOnDisk(taskId: string, pendings: seq<Pending>, effects: seq<SourceEffect>,
                            pendingFiles: map<Key, Pending>, sourceFiles: map<Key, string>)
    requires |pendings| == |effects|
  {
    forall i :: 0 <= i < |pendings| ==>
      && Lookup(pendingFiles, (taskId, i + 1)) == Some(pendings[i])
      && (effects[i].Put? ==> Lookup(sourceFiles, (taskId, i + 1)) == Some(effects[i].source))
  }

  /** The identity the score phase has seen so far is that of the provider. */
  predicate IdentOk<S, T>(env: Env<S, T>, ident: Option<(string, string)>) {
    ident.Some? ==> ident.value == (env.provider.name, env.provider.temperature)
  }

  /** Earlier samples do not depend on how many follow. */
  lemma {:induction false} GenRowPrefix<S, T>(env: Env<S, T>, s: S, plan: Plan, n: nat, m: nat)
    requires n <= m && GenRowOf(env, s, plan, m).GenRow?
    ensures GenRowOf(env, s, plan, n).GenRow?
    ensures GenRowOf(env, s, plan, n).pendings == GenRowOf(env, s, plan, m).pendings[..n]
    ensures GenRowOf(env, s, plan, n).effects == GenRowOf(env, s, plan, m).effects[..n]
    decreases m
  {
    hide AttemptOf, PendingOf, PendingRules, EffectOf;
    if n < m {
      GenRowPrefix(env, s, plan, n, m - 1);
    }
  }

  /** Every record of a task carries the plan's skip reason and the provider's identity. */
  lemma RecordIdentity<S, T>(env: Env<S, T>, plan: Plan, s: S)
    requires AttemptOf(env, s, plan).1.Some?
    ensures var p := PendingOf(env, plan, AttemptOf(env, s, plan).1.value);
            && p.skip == plan.skip && p.taskId == plan.taskId && p.official == env.official
            && p.model == env.provider.model && p.provider == env.provider.name
                && p.temperature == env.provider.temperature
  {
  }

  /** The score phase reads a sidecar only where the generate phase wrote one. */
  lemma SourceOnlyMatters<S, T>(env: Env<S, T>, t: T, plan: Plan, a: Attempt, source: Option<string>)
    requires a.Produced? ==> source == Some(a.source)
    ensures ManifestOfPending(env, t, plan.taskId, PendingOf(env, plan, a), source) ==
            ManifestOfPending(env, t, plan.taskId, PendingOf(env, plan, a),
                              if a.Produced? then Some(a.source) else None)
  {
  }

  lemma RowCleanGrows(row: seq<Manifest>, m: Manifest)
    ensures RowClean(row + [m]) <==> RowClean(row) && !ScorerFailed(m)
  {
    assert forall i :: 0 <= i < |row| ==> (row + [m])[i] == row[i];
    assert (row + [m])[|row|] == m;
  }

  /** What scoring n samples from files must give, next to the combined flow's row: the same
      manifests, unless a scorer raised among them. */
  ghost predicate Agrees<S, T>(env: Env<S, T>, e: Eval<S, T>, ident: Option<(string, string)>, n: nat, r: Score<T>)
    requires e.EvalRow?
  {
    if RowClean(e.manifests) then
      r == ScoreRow(e.t, if n == 0 then ident else Some((env.provider.name, env.provider.temperature)), e.manifests)
    else r == ScoreStop(SampleFailed)
  }

  lemma FissionStep<S, T>(env: Env<S, T>, s: S, t: T, plan: Plan, ident: Option<(string, string)>,
                          pendingFiles: map<Key, Pending>, sourceFiles: map<Key, string>, n: nat, a: Attempt)
    requires 0 < n && IdentOk(env, ident)
    requires EvalRowOf(env, s, t, plan, n).EvalRow?
    requires AttemptOf(env, EvalRowOf(env, s, t, plan, n - 1).s, plan).1 == Some(a)
    requires PendingRules(PendingOf(env, plan, a))
    requires Lookup(pendingFiles, (plan.taskId, n)) == Some(PendingOf(env, plan, a))
    requires a.Produced? ==> Lookup(sourceFiles, (plan.taskId, n)) == Some(a.source)
    requires (plan.taskId, 1) in pendingFiles && pendingFiles[(plan.taskId, 1)].skip == plan.skip
    requires Agrees(env, EvalRowOf(env, s, t, plan, n - 1), ident, n - 1,
                    ScoreRowOf(env, env.provider.model, t, ident, plan.taskId, pendingFiles, sourceFiles, n - 1))
    ensures Agrees(env, EvalRowOf(env, s, t, plan, n), ident, n,
                   ScoreRowOf(env, env.provider.model, t, ident, plan.taskId, pendingFiles, sourceFiles, n))
  {
    hide AttemptOf, PendingOf, ManifestOf, ManifestOfPending, PendingRules, ManifestFieldsOk, ScorerFailed, RowClean;
    var e := EvalRowOf(env, s, t, plan, n - 1);
    RecordIdentity(env, plan, e.s);
    OneSampleAgrees(env, e.t, plan, a);
    SourceOnlyMatters(env, e.t, plan, a, Lookup(sourceFiles, (plan.taskId, n)));
    RowCleanGrows(e.manifests, ManifestOf(env, e.t, plan, a).1);
  }

  lemma FissionBase<S, T>(env: Env<S, T>, s: S, t: T, plan: Plan, ident: Option<(string, string)>,
                          pendingFiles: map<Key, Pending>, sourceFiles: map<Key, string>)
    ensures EvalRowOf(env, s, t, plan, 0).EvalRow?
    ensures Agrees(env, EvalRowOf(env, s, t, plan, 0), ident, 0,
                   ScoreRowOf(env, env.provider.model, t, ident, plan.taskId, pendingFiles, sourceFiles, 0))
  {
  }

  /** Fission of one task: scoring the files gives the combined flow's manifests, unless a
      scorer raises, in which case the score phase stops. */
  lemma {:induction false} FissionRow<S, T>(env: Env<S, T>, s: S, t: T, plan: Plan, ident: Option<(string, string)>,
                                            pendingFiles: map<Key, Pending>, sourceFiles: map<Key, string>, n: nat)
    requires n <= env.samples && IdentOk(env, ident) && FieldOk(plan.skip)
    requires GenRowOf(env, s, plan, env.samples).GenRow?
    requires var g := GenRowOf(env, s, plan, env.samples);
             RowOnDisk(plan.taskId, g.pendings, g.effects, pendingFiles, sourceFiles)
    ensures EvalRowOf(env, s, t, plan, n).EvalRow?
    ensures Agrees(env, EvalRowOf(env, s, t, plan, n), ident, n,
                   ScoreRowOf(env, env.provider.model, t, ident, plan.taskId, pendingFiles, sourceFiles, n))
    decreases n
  {
    hide AttemptOf, PendingOf, PendingRules, GenRowOf, EvalRowOf, ScoreRowOf, Agrees, RowOnDisk;
    GenRowPrefix(env, s, plan, n, env.samples);
    SameGenerationRow(env, s, t, plan, n);
    if n == 0 {
      FissionBase(env, s, t, plan, ident, pendingFiles, sourceFiles);
    } else {
      FissionRow(env, s, t, plan, ident, pendingFiles, sourceFiles, n - 1);
      SameGenerationRow(env, s, t, plan, n - 1);
      var a := OnDisk(env, s, plan, pendingFiles, sourceFiles, n);
      var first := OnDisk(env, s, plan, pendingFiles, sourceFiles, 1);
      FissionStep(env, s, t, plan, ident, pendingFiles, sourceFiles, n, a);
    }
  }

  /** What the files hold for the n-th sample. */
  lemma OnDisk<S, T>(env: Env<S, T>, s: S, plan: Plan, pendingFiles: map<Key, Pending>, sourceFiles: map<Key, string>,
                     n: nat)
    returns (a: Attempt)
    requires 0 < n <= env.samples && GenRowOf(env, s, plan, env.samples).GenRow?
    requires var g := GenRowOf(env, s, plan, env.samples);
             RowOnDisk(plan.taskId, g.pendings, g.effects, pendingFiles, sourceFiles)
    ensures GenRowOf(env, s, plan, n - 1).GenRow?
    ensures AttemptOf(env, GenRowOf(env, s, plan, n - 1).s, plan).1 == Some(a)
    ensures PendingRules(PendingOf(env, plan, a)) && PendingOf(env, plan, a).skip == plan.skip
    ensures Lookup(pendingFiles, (plan.taskId, n)) == Some(PendingOf(env, plan, a))
    ensures a.Produced? ==> Lookup(sourceFiles, (plan.taskId, n)) == Some(a.source)
  {
    hide AttemptOf, PendingOf, PendingRules;
    GenRowPrefix(env, s, plan, n, env.samples);
    GenRowPrefix(env, s, plan, n - 1, n);
    var all, g := GenRowOf(env, s, plan, env.samples), GenRowOf(env, s, plan, n);
    a := AttemptOf(env, GenRowOf(env, s, plan, n - 1).s, plan).1.value;
    RecordIdentity(env, plan, GenRowOf(env, s, plan, n - 1).s);
    assert all.pendings[n - 1] == g.pendings[n - 1] == PendingOf(env, plan, a);
    assert all.effects[n - 1] == g.effects[n - 1] == EffectOf(a);
    assert Lookup(pendingFiles, (plan.taskId, n - 1 + 1)) == Some(all.pendings[n - 1]);
  }

  // ----- Whole runs -----

  /** The files hold every task's records. */
  ghost predicate RunOnDisk(taskIds: seq<string>, pendings: seq<seq<Pending>>, effects: seq<seq<SourceEffect>>,
                            pendingFiles: map<Key, Pending>, sourceFiles: map<Key, string>)
    requires |pendings| == |effects| <= |taskIds| && forall k :: 0 <= k < |pendings| ==> |pendings[k]| == |effects[k]|
  {
    forall k :: 0 <= k < |pendings| ==> RowOnDisk(taskIds[k], pendings[k], effects[k], pendingFiles, sourceFiles)
  }

  ghost predicate RunClean(rows: seq<seq<Manifest>>) {
    forall k :: 0 <= k < |rows| ==> RowClean(rows[k])
  }

  ghost predicate RunAgrees<S, T>(env: Env<S, T>, e: EvalRun<S, T>, n: nat, r: ScoreRun<T>)
    requires e.EvalRun?
  {
    if RunClean(e.manifests) then
      r == ScoreRun(e.t, if n == 0 then None else Some((env.provider.name, env.provider.temperature)), e.manifests)
    else r == ScoreRunStop(SampleFailed)
  }

  lemma {:induction false} GenRunPrefix<S, T>(env: Env<S, T>, s: S, plans: seq<Plan>, n: nat, m: nat)
    requires n <= m <= |plans| && GenRunOf(env, s, plans, m).GenRun?
    ensures GenRunOf(env, s, plans, n).GenRun?
    ensures GenRunOf(env, s, plans, n).pendings == GenRunOf(env, s, plans, m).pendings[..n]
    ensures GenRunOf(env, s, plans, n).effects == GenRunOf(env, s, plans, m).effects[..n]
    decreases m
  {
    if n < m {
      GenRunPrefix(env, s, plans, n, m - 1);
    }
  }

  lemma RunCleanGrows(rows: seq<seq<Manifest>>, row: seq<Manifest>)
    ensures RunClean(rows + [row]) <==> RunClean(rows) && RowClean(row)
  {
    assert forall i :: 0 <= i < |rows| ==> (rows + [row])[i] == rows[i];
    assert (rows + [row])[|rows|] == row;
  }

  lemma RunFissionStep<S, T>(env: Env<S, T>, s: S, t: T, plans: seq<Plan>,
                             pendingFiles: map<Key, Pending>, sourceFiles: map<Key, string>, n: nat)
    requires 0 < n <= |plans| && 0 < env.samples
    requires EvalRunOf(env, s, t, plans, n - 1).EvalRun? && EvalRunOf(env, s, t, plans, n).EvalRun?
    requires var e := EvalRunOf(env, s, t, plans, n - 1);
             var ident := if n == 1 then None else Some((env.provider.name, env.provider.temperature));
             var row := EvalRowOf(env, e.s, e.t, plans[n - 1], env.samples);
             && row.EvalRow?
             && Agrees(env, row, ident, env.samples,
                       ScoreRowOf(env, env.provider.model, e.t, ident, plans[n - 1].taskId, pendingFiles, sourceFiles,
                                  env.samples))
    requires RunAgrees(env, EvalRunOf(env, s, t, plans, n - 1), n - 1,
                       ScoreRunOf(env, env.provider.model, t, Ids(plans), pendingFiles, sourceFiles, n - 1))
    ensures RunAgrees(env, EvalRunOf(env, s, t, plans, n), n,
                      ScoreRunOf(env, env.provider.model, t, Ids(plans), pendingFiles, sourceFiles, n))
  {
    hide EvalRowOf, ScoreRowOf, RowClean, RunClean;
    var e := EvalRunOf(env, s, t, plans, n - 1);
    RunCleanGrows(e.manifests, EvalRowOf(env, e.s, e.t, plans[n - 1], env.samples).manifests);
  }

  lemma RunFissionBase<S, T>(env: Env<S, T>, s: S, t: T, plans: seq<Plan>,
                             pendingFiles: map<Key, Pending>, sourceFiles: map<Key, string>)
    ensures EvalRunOf(env, s, t, plans, 0).EvalRun?
    ensures RunAgrees(env, EvalRunOf(env, s, t, plans, 0), 0,
                      ScoreRunOf(env, env.provider.model, t, Ids(plans), pendingFiles, sourceFiles, 0))
  {
  }

  /** Fission of a whole run: scoring the files that the generate phase left gives the
      combined flow's manifests, unless a scorer raised. */
  lemma {:induction false} RunFission<S, T>(env: Env<S, T>, s: S, t: T, plans: seq<Plan>,
                                            pendingFiles: map<Key, Pending>, sourceFiles: map<Key, string>, n: nat)
    requires n <= |plans| && 0 < env.samples && forall k :: 0 <= k < |plans| ==> FieldOk(plans[k].skip)
    requires GenRunOf(env, s, plans, |plans|).GenRun?
    requires var g := GenRunOf(env, s, plans, |plans|);
             RunOnDisk(Ids(plans), g.pendings, g.effects, pendingFiles, sourceFiles)
    ensures EvalRunOf(env, s, t, plans, n).EvalRun?
    ensures RunAgrees(env, EvalRunOf(env, s, t, plans, n), n,
                      ScoreRunOf(env, env.provider.model, t, Ids(plans), pendingFiles, sourceFiles, n))
  {
    hide GenRunOf, EvalRunOf, ScoreRunOf, RunAgrees, GenRowOf, RowOnDisk, Agrees, EvalRowOf;
    GenRunPrefix(env, s, plans, n, |plans|);
    SameGeneration(env, s, t, plans, n);
    if n == 0 {
      RunFissionBase(env, s, t, plans, pendingFiles, sourceFiles);
    } else {
      RunFission(env, s, t, plans, pendingFiles, sourceFiles, n - 1);
      GenRunPrefix(env, s, plans, n - 1, |plans|);
      SameGeneration(env, s, t, plans, n - 1);
      var g, e := GenRunOf(env, s, plans, n - 1), EvalRunOf(env, s, t, plans, n - 1);
      var all := GenRunOf(env, s, plans, |plans|);
      var ident := if n == 1 then None else Some((env.provider.name, env.provider.temperature));
      LastRow(env, s, plans, n);
      assert all.pendings[n - 1] == GenRunOf(env, s, plans, n).pendings[n - 1];
      assert all.effects[n - 1] == GenRunOf(env, s, plans, n).effects[n - 1];
      assert RowOnDisk(Ids(plans)[n - 1], all.pendings[n - 1], all.effects[n - 1], pendingFiles, sourceFiles);
      FissionRow(env, g.s, e.t, plans[n - 1], ident, pendingFiles, sourceFiles, env.samples);
      RunFissionStep(env, s, t, plans, pendingFiles, sourceFiles, n);
    }
  }

  lemma LastRow<S, T>(env: Env<S, T>, s: S, plans: seq<Plan>, n: nat)
    requires 0 < n <= |plans| && GenRunOf(env, s, plans, n).GenRun?
    ensures GenRunOf(env, s, plans, n - 1).GenRun?
    ensures var row := GenRowOf(env, GenRunOf(env, s, plans, n - 1).s, plans[n - 1], env.samples);
            && row.GenRow?
            && GenRunOf(env, s, plans, n).pendings[n - 1] == row.pendings
            && GenRunOf(env, s, plans, n).effects[n - 1] == row.effects
  {
    hide GenRowOf;
  }
}
