/** What a Track A campaign records for each sample, said of the provider, the extractor and the
    scorer alone, and what its published means are (harness/evalmodel.py). */
module EvalScores {
  import opened Wrappers
  import opened ModuleExtraction
  import opened EvalTypes
  import opened EvalFission
  import opened EvalFlows

  // ----- One sample -----

  predicate ScoresNothing(m: Manifest) {
    m.score == 0.0 && m.ppa == 0.0 && m.stages == if m.skip.Some? then "all skip" else "all fail, route skip"
  }

  /** The provider gave text, its counters could be read before and after and did not move
      backwards, and one module was extracted from the text. */
  predicate Usable<S>(p: Adapter<S>, plan: Plan, s: S, s': S, reply: Reply) {
    && reply.Words? && p.usage(s).Some? && p.usage(s').Some? && NoLess(p.usage(s).value, p.usage(s').value)
    && Extract(reply.text, Some(plan.top)).Accepted?
  }

  /** What the counters rose by; nothing when one of the two readings is malformed or they moved
      backwards. */
  function Rise<S>(p: Adapter<S>, s: S, s': S): Usage {
    if p.usage(s).Some? && p.usage(s').Some? && NoLess(p.usage(s).value, p.usage(s').value) then
      var before, after := p.usage(s).value, p.usage(s').value;
      Usage(after.tokensIn - before.tokensIn, after.tokensOut - before.tokensOut, after.cost - before.cost)
    else NO_USAGE
  }

  /** What one sample of the combined flow records and how it moves provider, scorer and sidecar.  A
      skipped sample touches neither.  A usable generation is scored, and the manifest has the
      scorer's own score, figure and stages, or nothing when the scorer raises.  Every other
      generation scores nothing, names an error and does not reach the scorer; it leaves no
      sidecar, and a skipped sample leaves the one that was there. */
  ghost predicate Recorded<S, T>(env: Env<S, T>, plan: Plan, s: S, t: T, s': S, t': T, m: Manifest,
                                 effect: SourceEffect) {
    var p := env.provider;
    && m.taskId == plan.taskId && m.provider == p.name && m.model == p.model && m.temperature == p.temperature
    && m.maxTokens == env.maxTokens && m.skip == plan.skip
    && if plan.skip.Some? then
         s' == s && t' == t && ScoresNothing(m) && m.error.None? && m.sha.None? && m.finish.None? && m.usage == NO_USAGE
         && effect == Keep
       else if p.usage(s).None? then
         s' == s && t' == t && ScoresNothing(m) && m.error.Some? && m.sha.None? && m.finish.None? && m.usage == NO_USAGE
         && effect == Remove
       else
         var (after, reply) := p.generate(s, plan.prompt, env.maxTokens);
         && s' == after && !reply.CapHit? && m.usage == Rise(p, s, after)
         && m.finish == (if reply.Words? && (p.usage(after).None? || !NoLess(p.usage(s).value, p.usage(after).value))
                         then None else p.finish(after))
         && if Usable(p, plan, s, after, reply) then
              var source := Extract(reply.text, Some(plan.top)).text;
              var (scorer, o) := env.score(t, plan.taskId, source, env.official);
              && t' == scorer && m.sha == Some(env.digest(source)) && effect == Put(source)
              && (match o
                  case Scored(score, ppa, stages) =>
                    m.error.None? && m.score == score && m.ppa == ppa && m.stages == stages
                  case ScorerRaised(_) => m.error.Some? && ScoresNothing(m))
            else t' == t && ScoresNothing(m) && m.error.Some? && m.sha.None? && effect == Remove
  }

  lemma SampleRecorded<S, T>(env: Env<S, T>, s: S, t: T, plan: Plan)
    requires AttemptOf(env, s, plan).1.Some?
    ensures var (s', a) := AttemptOf(env, s, plan);
            var (t', m) := ManifestOf(env, t, plan, a.value);
            Recorded(env, plan, s, t, s', t', m, EffectOf(a.value))
  {
    hide Extract, ErrorText;
  }

  /** A campaign stops at a sample exactly when the provider reports that the spend cap was
      reached, or when what it would record has an empty text where one has to say something. */
  lemma StoppedIff<S, T>(env: Env<S, T>, s: S, t: T, plan: Plan)
    ensures var p := env.provider;
            && (AttemptOf(env, s, plan).1.None? <==>
                  plan.skip.None? && p.usage(s).Some? && p.generate(s, plan.prompt, env.maxTokens).1.CapHit?)
            && (AttemptOf(env, s, plan).1.Some? ==>
                  var m := ManifestOf(env, t, plan, AttemptOf(env, s, plan).1.value).1;
                  ManifestFieldsOk(m) <==> m.finish != Some("") && m.skip != Some(""))
  {
    hide Extract, ErrorText;
    ErrorsSaySomething();
  }

  lemma ErrorsSaySomething()
    ensures forall e :: ErrorText(e) != ""
  {
  }

  /** So an error or a skip reason means score and figure 0. */
  lemma ErrorScoresZero<S, T>(env: Env<S, T>, plan: Plan, s: S, t: T, s': S, t': T, m: Manifest,
                              effect: SourceEffect)
    requires Recorded(env, plan, s, t, s', t', m, effect) && (m.error.Some? || m.skip.Some?)
    ensures m.score == 0.0 && m.ppa == 0.0
  {
    hide Extract;
  }

  // ----- One sample, scored from its files -----

  /** A record that may be scored: it is of this task, mode and model, agrees with the samples
      before it, and has exactly one of an error, a skip reason and a submission, no text in it
      being empty. */
  predicate RecordFits(p: Pending, taskId: string, official: bool, model: string, ident: Option<(string, string)>,
                       firstSkip: Option<string>) {
    && p.taskId == taskId && p.official == official && p.model == model && p.skip == firstSkip
    && (ident.Some? ==> p.provider == ident.value.0 && p.temperature == ident.value.1)
    && p.error != Some("") && p.skip != Some("") && p.finish != Some("")
    && (p.error.Some? || p.skip.Some? || p.sha.Some?)
    && !(p.error.Some? && p.skip.Some?) && !(p.error.Some? && p.sha.Some?) && !(p.skip.Some? && p.sha.Some?)
  }

  /** What the score phase makes of one record and its sidecar: it stops at a record that does not
      fit, at a sidecar that is missing or is not the one that was generated, and where the
      scorer raises.  An error or a skip reason scores nothing without the scorer; everything
      else has the scorer's own score, figure and stages. */
  lemma ScoredFromFiles<S, T>(env: Env<S, T>, model: string, t: T, ident: Option<(string, string)>, taskId: string,
                              pendings: map<Key, Pending>, sources: map<Key, string>, n: nat)
    requires n > 1 ==> (taskId, 1) in pendings
    ensures var key, r := (taskId, n), ScoreNext(env, model, t, ident, taskId, pendings, sources, n);
            if key !in pendings || !RecordFits(pendings[key], taskId, env.official, model, ident,
                                               pendings[if n > 1 then (taskId, 1) else key].skip)
            then r == SampleStop(PendingMismatch)
            else
              var p := pendings[key];
              (r.Sample? ==>
                 var m := r.manifest;
                 && r.ident == (p.provider, p.temperature) && m.taskId == taskId && m.provider == p.provider
                 && m.model == p.model && m.temperature == p.temperature && m.usage == p.usage
                 && m.maxTokens == p.maxTokens && m.error == p.error && m.skip == p.skip && m.sha == p.sha
                 && m.finish == if p.skip.Some? then None else p.finish) &&
              if p.sha.None? then r.Sample? && r.t == t && ScoresNothing(r.manifest)
              else if key !in sources || env.digest(sources[key]) != p.sha.value then r == SampleStop(SampleFailed)
              else
                var (scorer, o) := env.score(t, taskId, sources[key], env.official);
                match o
                case ScorerRaised(_) => r == SampleStop(SampleFailed)
                case Scored(score, ppa, stages) =>
                  && r.Sample? && r.t == scorer
                  && r.manifest.score == score && r.manifest.ppa == ppa && r.manifest.stages == stages
  {
  }

  // ----- Whole campaigns -----

  /** The states that provider and scorer pass through during one task. */
  ghost predicate RowRecorded<S, T>(env: Env<S, T>, plan: Plan, ss: seq<S>, ts: seq<T>, row: seq<Manifest>,
                                    effects: seq<SourceEffect>) {
    && |ss| == |ts| == |row| + 1 == |effects| + 1
    && forall i :: 0 <= i < |row| ==> Recorded(env, plan, ss[i], ts[i], ss[i + 1], ts[i + 1], row[i], effects[i])
  }

  lemma RowRecordedMore<S, T>(env: Env<S, T>, plan: Plan, ss: seq<S>, ts: seq<T>, row: seq<Manifest>,
                              effects: seq<SourceEffect>, s: S, t: T, m: Manifest, e: SourceEffect)
    requires RowRecorded(env, plan, ss, ts, row, effects)
    requires Recorded(env, plan, ss[|row|], ts[|row|], s, t, m, e)
    ensures RowRecorded(env, plan, ss + [s], ts + [t], row + [m], effects + [e])
  {
    hide Recorded;
    var ss', ts', row', effects' := ss + [s], ts + [t], row + [m], effects + [e];
    forall i | 0 <= i < |row'|
      ensures Recorded(env, plan, ss'[i], ts'[i], ss'[i + 1], ts'[i + 1], row'[i], effects'[i])
    {
      if i < |row| {
        assert row'[i] == row[i] && effects'[i] == effects[i] && ss'[i] == ss[i] && ss'[i + 1] == ss[i + 1];
      }
    }
  }

  lemma {:induction false} EvalRowRecorded<S, T>(env: Env<S, T>, s: S, t: T, plan: Plan, n: nat)
    returns (ss: seq<S>, ts: seq<T>)
    requires EvalRowOf(env, s, t, plan, n).EvalRow?
    ensures var e := EvalRowOf(env, s, t, plan, n);
            && RowRecorded(env, plan, ss, ts, e.manifests, e.effects)
            && ss[0] == s && ts[0] == t && ss[n] == e.s && ts[n] == e.t
  {
    hide AttemptOf, ManifestOf, ManifestFieldsOk, EffectOf, Recorded;
    if n == 0 {
      ss, ts := [s], [t];
    } else {
      ss, ts := EvalRowRecorded(env, s, t, plan, n - 1);
      var prev, e := EvalRowOf(env, s, t, plan, n - 1), EvalRowOf(env, s, t, plan, n);
      SampleRecorded(env, prev.s, prev.t, plan);
      RowRecordedMore(env, plan, ss, ts, prev.manifests, prev.effects, e.s, e.t, e.manifests[n - 1], e.effects[n - 1]);
      ss, ts := ss + [e.s], ts + [e.t];
    }
  }

  /** Rows of n + 1 states, the first starting in x and each where the one before it ended. */
  ghost predicate Linked<X>(x: X, rows: seq<seq<X>>, n: nat) {
    && (forall k :: 0 <= k < |rows| ==> |rows[k]| == n + 1)
    && forall k :: 0 <= k < |rows| ==> rows[k][0] == if k == 0 then x else rows[k - 1][n]
  }

  ghost function EndOf<X>(x: X, rows: seq<seq<X>>, n: nat): X
    requires Linked(x, rows, n)
  {
    if rows == [] then x else rows[|rows| - 1][n]
  }

  lemma LinkedMore<X>(x: X, rows: seq<seq<X>>, n: nat, row: seq<X>)
    requires Linked(x, rows, n) && |row| == n + 1 && row[0] == EndOf(x, rows, n)
    ensures Linked(x, rows + [row], n) && EndOf(x, rows + [row], n) == row[n]
  {
    var rows' := rows + [row];
    assert forall k :: 0 <= k < |rows'| ==> |rows'[k]| == n + 1;
    forall k | 0 <= k < |rows'|
      ensures rows'[k][0] == if k == 0 then x else rows'[k - 1][n]
    {
      if k > 0 {
        assert rows'[k - 1] == rows[k - 1] && |rows[k - 1]| == n + 1;
      }
      if k < |rows| {
        assert rows'[k] == rows[k] && rows[k][0] == if k == 0 then x else rows[k - 1][n];
      } else {
        assert rows'[k] == row;
      }
    }
    assert Linked(x, rows', n);
  }

  lemma NoneLinked<X>(x: X, n: nat)
    ensures Linked(x, [], n) && EndOf(x, [], n) == x
  {
  }

  /** Every row of the campaign says what `Recorded` does. */
  ghost predicate AllRecorded<S, T>(env: Env<S, T>, plans: seq<Plan>, ss: seq<seq<S>>, ts: seq<seq<T>>,
                                    rows: seq<seq<Manifest>>, effects: seq<seq<SourceEffect>>) {
    && |ss| == |ts| == |rows| == |effects| <= |plans|
    && forall k :: 0 <= k < |rows| ==> RowRecorded(env, plans[k], ss[k], ts[k], rows[k], effects[k])
  }

  lemma AllRecordedMore<S, T>(env: Env<S, T>, plans: seq<Plan>, ss: seq<seq<S>>, ts: seq<seq<T>>,
                              rows: seq<seq<Manifest>>, effects: seq<seq<SourceEffect>>,
                              s: seq<S>, t: seq<T>, row: seq<Manifest>, es: seq<SourceEffect>)
    requires AllRecorded(env, plans, ss, ts, rows, effects) && |rows| < |plans|
    requires RowRecorded(env, plans[|rows|], s, t, row, es)
    ensures AllRecorded(env, plans, ss + [s], ts + [t], rows + [row], effects + [es])
  {
    hide RowRecorded;
  }

  /** Over a whole campaign: task after task, from the states it started in to those it ends in,
      every sample records what `Recorded` says. */
  lemma {:induction false} CampaignRecorded<S, T>(env: Env<S, T>, s: S, t: T, plans: seq<Plan>, n: nat)
    returns (ss: seq<seq<S>>, ts: seq<seq<T>>)
    requires n <= |plans| && EvalRunOf(env, s, t, plans, n).EvalRun?
    ensures var e := EvalRunOf(env, s, t, plans, n);
            && |e.manifests| == n && AllRecorded(env, plans, ss, ts, e.manifests, e.effects)
            && Linked(s, ss, env.samples) && EndOf(s, ss, env.samples) == e.s
            && Linked(t, ts, env.samples) && EndOf(t, ts, env.samples) == e.t
  {
    hide EvalRowOf, RowRecorded, Linked, EndOf, AllRecorded;
    if n == 0 {
      ss, ts := [], [];
      NoneLinked(s, env.samples);
      NoneLinked(t, env.samples);
      NoneRecorded(env, plans);
    } else {
      var ss0, ts0 := CampaignRecorded(env, s, t, plans, n - 1);
      var prev := EvalRunOf(env, s, t, plans, n - 1);
      var row := EvalRowOf(env, prev.s, prev.t, plans[n - 1], env.samples);
      var ss1, ts1 := EvalRowRecorded(env, prev.s, prev.t, plans[n - 1], env.samples);
      RowLengths(env, plans[n - 1], ss1, ts1, row.manifests, row.effects);
      LinkedMore(s, ss0, env.samples, ss1);
      LinkedMore(t, ts0, env.samples, ts1);
      AllRecordedMore(env, plans, ss0, ts0, prev.manifests, prev.effects, ss1, ts1, row.manifests, row.effects);
      ss, ts := ss0 + [ss1], ts0 + [ts1];
    }
  }

  lemma NoneRecorded<S, T>(env: Env<S, T>, plans: seq<Plan>)
    ensures AllRecorded(env, plans, [], [], [], [])
  {
  }

  lemma RowLengths<S, T>(env: Env<S, T>, plan: Plan, ss: seq<S>, ts: seq<T>, row: seq<Manifest>,
                         effects: seq<SourceEffect>)
    requires RowRecorded(env, plan, ss, ts, row, effects)
    ensures |ss| == |ts| == |row| + 1
  {
  }

  // ----- Means -----

  ghost function RowTotal(row: seq<Manifest>): real {
    if row == [] then 0.0 else RowTotal(row[..|row| - 1]) + row[|row| - 1].score
  }

  /** The scores of the samples of unskipped tasks, added up, and how many they are. */
  ghost function ScoreTotal(skips: seq<Option<string>>, rows: seq<seq<Manifest>>, n: nat): real
    requires n <= |rows| <= |skips|
  {
    if n == 0 then 0.0
    else ScoreTotal(skips, rows, n - 1) + (if skips[n - 1].None? then RowTotal(rows[n - 1]) else 0.0)
  }

  ghost function ScoreCount(skips: seq<Option<string>>, rows: seq<seq<Manifest>>, n: nat): nat
    requires n <= |rows| <= |skips|
  {
    if n == 0 then 0
    else ScoreCount(skips, rows, n - 1) + (if skips[n - 1].None? then |rows[n - 1]| else 0)
  }

  lemma {:induction false} SumAppend(a: seq<real>, b: seq<real>)
    ensures Sum(a + b) == Sum(a) + Sum(b)
  {
    if b == [] {
      assert a + b == a;
    } else {
      SumAppend(a, b[..|b| - 1]);
      assert (a + b)[..|a + b| - 1] == a + b[..|b| - 1];
    }
  }

  lemma {:induction false} RowSum(row: seq<Manifest>)
    ensures Sum(Scores(row)) == RowTotal(row)
  {
    if row != [] {
      RowSum(row[..|row| - 1]);
      assert Scores(row)[..|row| - 1] == Scores(row[..|row| - 1]);
    }
  }

  lemma {:induction false} CountedSum(skips: seq<Option<string>>, rows: seq<seq<Manifest>>, n: nat)
    requires n <= |rows| <= |skips|
    ensures Sum(Counted(skips, rows, n)) == ScoreTotal(skips, rows, n)
    ensures |Counted(skips, rows, n)| == ScoreCount(skips, rows, n)
  {
    hide Sum, Scores, RowTotal;
    if n == 0 {
      SumOfNone();
    } else {
      CountedSum(skips, rows, n - 1);
      RowSum(rows[n - 1]);
      SumAppend(Counted(skips, rows, n - 1), Scores(rows[n - 1]));
      assert Counted(skips, rows, n - 1) + [] == Counted(skips, rows, n - 1);
    }
  }

  lemma SumOfNone()
    ensures Sum([]) == 0.0
  {
  }

  /** x is the quotient, or 0 when there is nothing to divide by. */
  predicate Quotient(x: real, total: real, count: nat) {
    x == if count == 0 then 0.0 else total / (count as real)
  }

  /** The published means: each task's is the sum of its scores divided by their number, and the
      aggregate is the sum over all samples of unskipped tasks divided by theirs. */
  lemma PublishedMeans<S, T>(env: Env<S, T>, ids: seq<string>, skips: seq<Option<string>>, rows: seq<seq<Manifest>>,
                             estimate: nat)
    requires |rows| == |ids| == |skips|
    ensures var p := env.provider;
            var summary := SummaryOf(env, p.name, p.model, p.temperature, ids, skips, rows, estimate);
            Quotient(summary.aggregate, ScoreTotal(skips, rows, |rows|), ScoreCount(skips, rows, |rows|))
    ensures forall k :: 0 <= k < |rows| ==>
              var entry := EntryOf(env, ids[k], skips[k], rows[k]);
              && Quotient(entry.mean, RowTotal(rows[k]), |rows[k]|) && entry.skip == skips[k]
              && |entry.scores| == |rows[k]| && forall i :: 0 <= i < |rows[k]| ==> entry.scores[i] == rows[k][i].score
  {
    hide Sum, Counted, ScoreTotal, ScoreCount, RowTotal, Entries, RunUsage, Records;
    CountedSum(skips, rows, |rows|);
    forall k | 0 <= k < |rows|
      ensures Quotient(EntryOf(env, ids[k], skips[k], rows[k]).mean, RowTotal(rows[k]), |rows[k]|)
    {
      RowSum(rows[k]);
    }
  }
}
