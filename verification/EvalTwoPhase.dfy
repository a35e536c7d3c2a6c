/** The score phase of harness/evalmodel.py, and the theorem that generating and then scoring
    is the combined flow. */
module EvalTwoPhase {
  import opened Wrappers
  import opened EvalTypes
  import opened EvalFission
  import opened EvalFlows

  // ----- What is on disk after the generate phase -----

  lemma {:induction false} WriteRowAt<V>(files: map<Key, V>, taskId: string, row: seq<V>, key: Key)
    ensures Lookup(WriteRow(files, taskId, row), key) ==
            if key.0 == taskId && 1 <= key.1 <= |row| then Some(row[key.1 - 1]) else Lookup(files, key)
  {
    if row != [] {
      WriteRowAt(files, taskId, row[..|row| - 1], key);
    }
  }

  lemma {:induction false} TouchRowAt(files: map<Key, string>, taskId: string, row: seq<SourceEffect>, key: Key)
    ensures var after := Lookup(TouchRow(files, taskId, row), key);
            if key.0 == taskId && 1 <= key.1 <= |row| then
              match row[key.1 - 1]
              case Keep => after == Lookup(files, key)
              case Remove => after == None
              case Put(source) => after == Some(source)
            else after == Lookup(files, key)
  {
    if row != [] {
      TouchRowAt(files, taskId, row[..|row| - 1], key);
    }
  }

  lemma RowIsOnDisk(taskId: string, pendings: seq<Pending>, effects: seq<SourceEffect>,
                    pendingFiles: map<Key, Pending>, sourceFiles: map<Key, string>)
    requires |pendings| == |effects|
    ensures RowOnDisk(taskId, pendings, effects, WriteRow(pendingFiles, taskId, pendings),
                      TouchRow(sourceFiles, taskId, effects))
  {
    forall i | 0 <= i < |pendings|
      ensures Lookup(WriteRow(pendingFiles, taskId, pendings), (taskId, i + 1)) == Some(pendings[i])
      ensures effects[i].Put? ==>
                Lookup(TouchRow(sourceFiles, taskId, effects), (taskId, i + 1)) == Some(effects[i].source)
    {
      WriteRowAt(pendingFiles, taskId, pendings, (taskId, i + 1));
      TouchRowAt(sourceFiles, taskId, effects, (taskId, i + 1));
    }
  }

  /** Another task's files leave a row alone. */
  lemma RowStaysOnDisk(taskId: string, pendings: seq<Pending>, effects: seq<SourceEffect>,
                       pendingFiles: map<Key, Pending>, sourceFiles: map<Key, string>,
                       other: string, otherPendings: seq<Pending>, otherEffects: seq<SourceEffect>)
    requires |pendings| == |effects| && taskId != other
    requires RowOnDisk(taskId, pendings, effects, pendingFiles, sourceFiles)
    ensures RowOnDisk(taskId, pendings, effects, WriteRow(pendingFiles, other, otherPendings),
                      TouchRow(sourceFiles, other, otherEffects))
  {
    forall i | 0 <= i < |pendings|
      ensures Lookup(WriteRow(pendingFiles, other, otherPendings), (taskId, i + 1)) == Some(pendings[i])
      ensures effects[i].Put? ==>
                Lookup(TouchRow(sourceFiles, other, otherEffects), (taskId, i + 1)) == Some(effects[i].source)
    {
      assert Lookup(pendingFiles, (taskId, i + 1)) == Some(pendings[i]);
      WriteRowAt(pendingFiles, other, otherPendings, (taskId, i + 1));
      TouchRowAt(sourceFiles, other, otherEffects, (taskId, i + 1));
    }
  }

  /** With distinct task ids, every task's records survive until the end. */
  lemma {:induction false} RunIsOnDisk(ids: seq<string>, pendings: seq<seq<Pending>>, effects: seq<seq<SourceEffect>>,
                                       pendingFiles: map<Key, Pending>, sourceFiles: map<Key, string>)
    requires Distinct(ids) && |pendings| == |effects| <= |ids|
    requires forall k :: 0 <= k < |pendings| ==> |pendings[k]| == |effects[k]|
    ensures RunOnDisk(ids, pendings, effects, WriteRows(pendingFiles, ids, pendings),
                      TouchRows(sourceFiles, ids, effects))
  {
    hide RowOnDisk, WriteRow, TouchRow;
    if pendings != [] {
      var n := |pendings| - 1;
      var p, e := pendings[..n], effects[..n];
      RunIsOnDisk(ids, p, e, pendingFiles, sourceFiles);
      var pf, sf := WriteRows(pendingFiles, ids, p), TouchRows(sourceFiles, ids, e);
      RowIsOnDisk(ids[n], pendings[n], effects[n], pf, sf);
      forall k | 0 <= k < n
        ensures RowOnDisk(ids[k], pendings[k], effects[k], WriteRow(pf, ids[n], pendings[n]),
                          TouchRow(sf, ids[n], effects[n]))
      {
        assert RowOnDisk(ids[k], p[k], e[k], pf, sf);
        RowStaysOnDisk(ids[k], p[k], e[k], pf, sf, ids[n], pendings[n], effects[n]);
      }
    }
  }

  // ----- The score phase -----

  /** One sample of `score_pending_samples`. */
  method ScoreSample<S, T>(env: Env<S, T>, scorer: Scorer<T>, store: Store, model: string,
                           ident: Option<(string, string)>, taskId: string, n: nat)
    returns (r: Sample<T>)
    requires scorer.fn == env.score && n > 0 && (n > 1 ==> (taskId, 1) in store.pendings)
    modifies scorer, store`manifests
    ensures r == ScoreNext(env, model, old(scorer.state), ident, taskId, store.pendings, store.sources, n)
    ensures r.Sample? ==> scorer.state == r.t && store.manifests == old(store.manifests)[(taskId, n) := r.manifest]
  {
    hide PendingRules, Consistent;
    var pending := Lookup(store.pendings, (taskId, n));
    if pending.None? || !PendingRules(pending.value)
       || !Consistent(pending.value, taskId, env.official, model, ident,
                      if n > 1 then store.pendings[(taskId, 1)].skip else pending.value.skip) {
      return SampleStop(PendingMismatch);
    }
    var p := pending.value;
    var m;
    if p.skip.Some? {
      m := ZeroManifest(taskId, p.provider, p.model, p.temperature, p.usage, p.maxTokens, None, None, p.skip, None);
    } else if p.error.Some? {
      m := ZeroManifest(taskId, p.provider, p.model, p.temperature, p.usage, p.maxTokens, p.finish, p.error, None,
                        None);
    } else {
      var source := Lookup(store.sources, (taskId, n));
      if source.None? || (p.sha.Some? && env.digest(source.value) != p.sha.value) {
        return SampleStop(SampleFailed);
      }
      var scored := scorer.Score(taskId, source.value, env.official);
      if scored.ScorerRaised? {
        return SampleStop(SampleFailed);
      }
      m := MergedManifest(taskId, scored, env.digest(source.value), p.provider, p.model, p.temperature, p.usage,
                          p.maxTokens, p.finish);
    }
    store.manifests := store.manifests[(taskId, n) := m];
    r := Sample(scorer.state, (p.provider, p.temperature), m);
  }

  lemma {:induction false} ScoreRowStops<S, T>(env: Env<S, T>, model: string, t: T, ident: Option<(string, string)>,
                                               taskId: string,
                                               pendings: map<Key, Pending>, sources: map<Key, string>, n: nat, m: nat)
    requires n <= m && ScoreRowOf(env, model, t, ident, taskId, pendings, sources, n).ScoreStop?
    ensures ScoreRowOf(env, model, t, ident, taskId, pendings, sources, m) ==
            ScoreRowOf(env, model, t, ident, taskId, pendings, sources, n)
    decreases m
  {
    if n < m {
      ScoreRowStops(env, model, t, ident, taskId, pendings, sources, n, m - 1);
    }
  }

  lemma {:induction false} ScoreRunStops<S, T>(env: Env<S, T>, model: string, t: T, ids: seq<string>,
                                               pendings: map<Key, Pending>, sources: map<Key, string>, n: nat, m: nat)
    requires n <= m <= |ids| && ScoreRunOf(env, model, t, ids, pendings, sources, n).ScoreRunStop?
    ensures ScoreRunOf(env, model, t, ids, pendings, sources, m) == ScoreRunOf(env, model, t, ids, pendings, sources, n)
    decreases m
  {
    if n < m {
      ScoreRunStops(env, model, t, ids, pendings, sources, n, m - 1);
    }
  }

  /** The variables of the inner loop after some samples. */
  ghost predicate RowState<S, T>(env: Env<S, T>, r: Score<T>, t: T, seen: Option<(string, string)>, taskId: string,
                                 before: map<Key, Manifest>, files: map<Key, Manifest>,
                                 scores: seq<real>, records: seq<SampleRecord>, usage: Usage) {
    && r.ScoreRow? && t == r.t && seen == r.ident
    && RowTotals(env, taskId, r.manifests, scores, records, usage)
    && files == WriteRow(before, taskId, r.manifests)
  }

  lemma NoSamples<S, T>(env: Env<S, T>, model: string, t: T, ident: Option<(string, string)>, taskId: string,
                        pendings: map<Key, Pending>, sources: map<Key, string>, files: map<Key, Manifest>)
    ensures RowState(env, ScoreRowOf(env, model, t, ident, taskId, pendings, sources, 0), t, ident, taskId, files,
                     files,
                     [], [], NO_USAGE)
  {
  }

  /** The first record is there once a sample was scored. */
  lemma FirstIsThere<S, T>(env: Env<S, T>, model: string, t0: T, ident: Option<(string, string)>, taskId: string,
                           pendings: map<Key, Pending>, sources: map<Key, string>, n: nat, t: T,
                           seen: Option<(string, string)>, before: map<Key, Manifest>, files: map<Key, Manifest>,
                           scores: seq<real>, records: seq<SampleRecord>, usage: Usage)
    requires RowState(env, ScoreRowOf(env, model, t0, ident, taskId, pendings, sources, n), t, seen, taskId, before,
                      files,
                      scores, records, usage)
    ensures n > 0 ==> (taskId, 1) in pendings
  {
  }

  /** One sample: the loop's variables before and after it. */
  lemma RowStateStep<S, T>(env: Env<S, T>, model: string, t0: T, ident: Option<(string, string)>, taskId: string,
                           pendings: map<Key, Pending>, sources: map<Key, string>, n: nat, t: T,
                           seen: Option<(string, string)>, before: map<Key, Manifest>, files: map<Key, Manifest>,
                           scores: seq<real>, records: seq<SampleRecord>, usage: Usage)
    requires RowState(env, ScoreRowOf(env, model, t0, ident, taskId, pendings, sources, n), t, seen, taskId, before,
                      files,
                      scores, records, usage)
    requires n > 0 ==> (taskId, 1) in pendings
    ensures var next := ScoreNext(env, model, t, seen, taskId, pendings, sources, n + 1);
            var r := ScoreRowOf(env, model, t0, ident, taskId, pendings, sources, n + 1);
            if next.SampleStop? then r == ScoreStop(next.why)
            else
              var m := next.manifest;
              RowState(env, r, next.t, Some(next.ident), taskId, before, files[(taskId, n + 1) := m],
                       scores + [m.score], records + [RecordOf(env, taskId, n + 1, m)], Add(usage, m.usage))
  {
    hide RowTotals, ScoreNext, RecordOf;
    var r := ScoreRowOf(env, model, t0, ident, taskId, pendings, sources, n);
    var next := ScoreNext(env, model, t, seen, taskId, pendings, sources, n + 1);
    if next.Sample? {
      RowTotalsGrow(env, taskId, r.manifests, next.manifest, scores, records, usage);
      assert (r.manifests + [next.manifest])[..n] == r.manifests;
    }
  }

  /** The inner loop of `score_pending_samples`. */
  method ScoreTask<S, T>(env: Env<S, T>, scorer: Scorer<T>, store: Store, model: string,
                         ident: Option<(string, string)>,
                         taskId: string)
    returns (why: Option<Abort>, scores: seq<real>, records: seq<SampleRecord>, usage: Usage,
             seen: Option<(string, string)>)
    requires scorer.fn == env.score
    modifies scorer, store`manifests
    ensures var r := ScoreRowOf(env, model, old(scorer.state), ident, taskId, store.pendings, store.sources,
                                env.samples);
            if why.Some? then r == ScoreStop(why.value)
            else RowState(env, r, scorer.state, seen, taskId, old(store.manifests), store.manifests, scores, records,
                          usage)
  {
    hide ScoreNext, ScoreRowOf, RowState, RecordOf;
    ghost var t0, pendings, sources, before := scorer.state, store.pendings, store.sources, store.manifests;
    why, scores, records, usage, seen := None, [], [], NO_USAGE, ident;
    NoSamples(env, model, t0, ident, taskId, pendings, sources, before);
    for n := 0 to env.samples
      invariant store.pendings == pendings && store.sources == sources
      invariant RowState(env, ScoreRowOf(env, model, t0, ident, taskId, pendings, sources, n), scorer.state, seen,
                         taskId,
                         before, store.manifests, scores, records, usage)
    {
      ghost var t, files := scorer.state, store.manifests;
      FirstIsThere(env, model, t0, ident, taskId, pendings, sources, n, t, seen, before, files, scores, records, usage);
      RowStateStep(env, model, t0, ident, taskId, pendings, sources, n, t, seen, before, files, scores, records, usage);
      var next := ScoreSample(env, scorer, store, model, seen, taskId, n + 1);
      if next.SampleStop? {
        ScoreRowStops(env, model, t0, ident, taskId, pendings, sources, n + 1, env.samples);
        why := Some(next.why);
        return;
      }
      var m := next.manifest;
      seen := Some(next.ident);
      scores, records := scores + [m.score], records + [RecordOf(env, taskId, n + 1, m)];
      usage := Add(usage, m.usage);
    }
  }

  /** The variables of the outer loop after some tasks. */
  ghost predicate RunState<S, T>(env: Env<S, T>, r: ScoreRun<T>, t: T, seen: Option<(string, string)>,
                                 ids: seq<string>, skips: seq<Option<string>>,
                                 before: map<Key, Manifest>, files: map<Key, Manifest>,
                                 tasks: map<string, TaskEntry>, counted: seq<real>, usage: Usage) {
    && r.ScoreRun? && |r.manifests| <= |ids| == |skips| && t == r.t && seen == r.ident
    && RunTotals(env, ids, skips, r.manifests, tasks, counted, usage)
    && files == WriteRows(before, ids, r.manifests)
  }

  lemma NoTasks<S, T>(env: Env<S, T>, model: string, t: T, ids: seq<string>, skips: seq<Option<string>>,
                      pendings: map<Key, Pending>, sources: map<Key, string>, files: map<Key, Manifest>)
    requires |ids| == |skips|
    ensures RunState(env, ScoreRunOf(env, model, t, ids, pendings, sources, 0), t, None, ids, skips, files, files,
                     map[], [], NO_USAGE)
  {
  }

  /** One more row: the outer loop's variables after it. */
  lemma RunGrows<S, T>(env: Env<S, T>, r: ScoreRun<T>, row: Score<T>, ids: seq<string>, skips: seq<Option<string>>,
                       t0: T, seen0: Option<(string, string)>, t: T, seen: Option<(string, string)>,
                       before: map<Key, Manifest>, middle: map<Key, Manifest>, files: map<Key, Manifest>,
                       tasks: map<string, TaskEntry>, counted: seq<real>, total: Usage,
                       scores: seq<real>, records: seq<SampleRecord>, usage: Usage)
    requires RunState(env, r, t0, seen0, ids, skips, before, middle, tasks, counted, total) && |r.manifests| < |ids|
    requires RowState(env, row, t, seen, ids[|r.manifests|], middle, files, scores, records, usage)
    ensures var n := |r.manifests|;
            RunState(env, ScoreRun(row.t, row.ident, r.manifests + [row.manifests]), t, seen, ids, skips, before, files,
                     tasks[ids[n] := TaskEntry(scores, Mean(scores), records, skips[n])],
                     counted + (if skips[n].None? then scores else []), Add(total, usage))
  {
    hide RunTotals, RowTotals, Mean, WriteRow, EntryOf, Scores, Records, RowUsage;
    var n := |r.manifests|;
    assert (r.manifests + [row.manifests])[..n] == r.manifests;
    EntryIs(env, ids[n], skips[n], row.manifests, scores, records, usage);
    RowTotalsAre(env, ids[n], row.manifests, scores, records, usage);
    RunTotalsGrow(env, ids, skips, r.manifests, row.manifests, tasks, counted, total);
  }

  /** One task: the specification's next step from the outer loop's variables. */
  lemma NextRow<S, T>(env: Env<S, T>, model: string, t0: T, ids: seq<string>, skips: seq<Option<string>>,
                      pendings: map<Key, Pending>, sources: map<Key, string>, n: nat, t: T,
                          seen: Option<(string, string)>,
                      before: map<Key, Manifest>, files: map<Key, Manifest>,
                      tasks: map<string, TaskEntry>, counted: seq<real>, total: Usage)
    requires n < |ids|
    requires RunState(env, ScoreRunOf(env, model, t0, ids, pendings, sources, n), t, seen, ids, skips, before, files,
                      tasks, counted, total)
    ensures var r := ScoreRunOf(env, model, t0, ids, pendings, sources, n);
            var row := ScoreRowOf(env, model, t, seen, ids[n], pendings, sources, env.samples);
            && |r.manifests| == n && |skips| == |ids|
            && ScoreRunOf(env, model, t0, ids, pendings, sources, n + 1) ==
               if row.ScoreStop? then ScoreRunStop(row.why)
                  else ScoreRun(row.t, row.ident, r.manifests + [row.manifests])
  {
    hide ScoreRowOf, RunTotals, WriteRows;
  }

  /** What the score phase leaves behind, from the files it found. */
  twostate predicate ScoreEffect<S, T>(env: Env<S, T>, scorer: Scorer<T>, store: Store, ids: seq<string>,
                                       model: string, r: Result)
    reads scorer, store
  {
    match ScoreRunOf(env, model, old(scorer.state), ids, store.pendings, store.sources, |ids|)
    case ScoreRunStop(w) => r == Stopped(w)
    case ScoreRun(t, ident, rows) =>
      && scorer.state == t
      && store.manifests == WriteRows(old(store.manifests), ids, rows)
      && r == if ident.None? then Stopped(PendingMismatch)
              else Finished(SummaryOf(env, ident.value.0, model, ident.value.1, ids, SkipsOnDisk(ids, store.pendings),
                                      rows, 0))
  }

  /** The outer loop of `score_pending_samples`. */
  method ScoreLoop<S, T>(env: Env<S, T>, scorer: Scorer<T>, store: Store, ids: seq<string>, model: string)
    returns (r: Result)
    requires scorer.fn == env.score
    modifies scorer, store`manifests
    ensures ScoreEffect(env, scorer, store, ids, model, r)
  {
    hide ScoreRowOf, ScoreRunOf, RowState, RunState, Mean, SkipsOnDisk, SummaryOf, WriteRows;
    ghost var t0, pendings, sources, before := scorer.state, store.pendings, store.sources, store.manifests;
    var skips := SkipsOnDisk(ids, store.pendings);
    var ident: Option<(string, string)> := None;
    var tasks: map<string, TaskEntry>, counted: seq<real>, total := map[], [], NO_USAGE;
    NoTasks(env, model, t0, ids, skips, pendings, sources, before);
    for n := 0 to |ids|
      invariant store.pendings == pendings && store.sources == sources
      invariant RunState(env, ScoreRunOf(env, model, t0, ids, pendings, sources, n), scorer.state, ident, ids, skips,
                         before, store.manifests, tasks, counted, total)
    {
      ghost var e, t, was, files := ScoreRunOf(env, model, t0, ids, pendings, sources, n), scorer.state, ident,
              store.manifests;
      ghost var row := ScoreRowOf(env, model, t, ident, ids[n], pendings, sources, env.samples);
      NextRow(env, model, t0, ids, skips, pendings, sources, n, t, ident, before, files, tasks, counted, total);
      var why, scores, records, usage, seen := ScoreTask(env, scorer, store, model, ident, ids[n]);
      if why.Some? {
        ScoreRunStops(env, model, t0, ids, pendings, sources, n + 1, |ids|);
        return Stopped(why.value);
      }
      RowIsRow(env, row, scorer.state, seen, ids[n], files, store.manifests, scores, records, usage);
      RunGrows(env, e, row, ids, skips, t, was, scorer.state, seen, before, files, store.manifests,
               tasks, counted, total, scores, records, usage);
      tasks := tasks[ids[n] := TaskEntry(scores, Mean(scores), records, skips[n])];
      counted := counted + (if skips[n].None? then scores else []);
      total, ident := Add(total, usage), seen;
    }
    RunStateEnd(env, model, t0, ids, skips, pendings, sources, scorer.state, ident, before, store.manifests,
                tasks, counted, total);
    if ident.None? {
      return Stopped(PendingMismatch);
    }
    r := Finished(Summary(ident.value.0, model, ident.value.1, env.official, env.samples, ids, tasks, Mean(counted),
                          total, 0));
  }

  lemma RowIsRow<S, T>(env: Env<S, T>, row: Score<T>, t: T, seen: Option<(string, string)>, taskId: string,
                       before: map<Key, Manifest>, files: map<Key, Manifest>,
                       scores: seq<real>, records: seq<SampleRecord>, usage: Usage)
    requires RowState(env, row, t, seen, taskId, before, files, scores, records, usage)
    ensures row.ScoreRow?
  {
  }

  lemma RunStateEnd<S, T>(env: Env<S, T>, model: string, t0: T, ids: seq<string>, skips: seq<Option<string>>,
                          pendings: map<Key, Pending>, sources: map<Key, string>, t: T, seen: Option<(string, string)>,
                          before: map<Key, Manifest>, files: map<Key, Manifest>,
                          tasks: map<string, TaskEntry>, counted: seq<real>, usage: Usage)
    requires RunState(env, ScoreRunOf(env, model, t0, ids, pendings, sources, |ids|), t, seen, ids, skips, before,
                      files,
                      tasks, counted, usage)
    ensures var r := ScoreRunOf(env, model, t0, ids, pendings, sources, |ids|);
            && r.ScoreRun? && t == r.t && seen == r.ident && files == WriteRows(before, ids, r.manifests)
            && |r.manifests| == |ids| == |skips|
            && (r.ident.Some? ==>
                  SummaryOf(env, r.ident.value.0, model, r.ident.value.1, ids, skips, r.manifests, 0) ==
                  Summary(r.ident.value.0, model, r.ident.value.1, env.official, env.samples, ids, tasks,
                          Mean(counted), usage, 0))
  {
    hide ScoreRunOf, WriteRows;
  }

  /** `score_pending_samples`: it never calls the provider. */
  method ScorePendingSamples<S, T>(env: Env<S, T>, scorer: Scorer<T>, store: Store, ids: seq<string>, model: string)
    returns (r: Result)
    requires scorer.fn == env.score
    modifies scorer, store`manifests
    ensures if ids == [] || !Distinct(ids) || env.samples < 1 then r == Stopped(BadArguments)
            else ScoreEffect(env, scorer, store, ids, model, r)
  {
    if ids == [] || !Distinct(ids) || env.samples < 1 {
      return Stopped(BadArguments);
    }
    r := ScoreLoop(env, scorer, store, ids, model);
  }

  // ----- Two phases are one -----

  /** Scoring what the generate phase left gives the combined flow's rows and identity. */
  lemma PhasesAgree<S, T>(env: Env<S, T>, s: S, t: T, plans: seq<Plan>, pendingFiles: map<Key, Pending>,
                          sourceFiles: map<Key, string>)
    requires ArgumentsOk(env, Ids(plans)) && forall k :: 0 <= k < |plans| ==> FieldOk(plans[k].skip)
    requires GenRunOf(env, s, plans, |plans|).GenRun?
    ensures var g, e := GenRunOf(env, s, plans, |plans|), EvalRunOf(env, s, t, plans, |plans|);
            var pf, sf := WriteRows(pendingFiles, Ids(plans), g.pendings),
                TouchRows(sourceFiles, Ids(plans), g.effects);
            var r := ScoreRunOf(env, env.provider.model, t, Ids(plans), pf, sf, |plans|);
            && e.EvalRun? && e.s == g.s && e.effects == g.effects
            && SkipsOnDisk(Ids(plans), pf) == Skips(plans)
            && if RunClean(e.manifests)
               then r == ScoreRun(e.t, Some((env.provider.name, env.provider.temperature)), e.manifests)
               else r == ScoreRunStop(SampleFailed)
  {
    hide GenRunOf, EvalRunOf, ScoreRunOf, RunClean, WriteRows, TouchRows, RunOnDisk, Distinct;
    var g := GenRunOf(env, s, plans, |plans|);
    var pf, sf := WriteRows(pendingFiles, Ids(plans), g.pendings), TouchRows(sourceFiles, Ids(plans), g.effects);
    RunIsOnDisk(Ids(plans), g.pendings, g.effects, pendingFiles, sourceFiles);
    SameGeneration(env, s, t, plans, |plans|);
    RunFission(env, s, t, plans, pf, sf, |plans|);
    forall k | 0 <= k < |plans| ensures SkipsOnDisk(Ids(plans), pf)[k] == plans[k].skip {
      FirstSkip(env, s, plans, pf, sf, k);
    }
    assert SkipsOnDisk(Ids(plans), pf) == Skips(plans);
  }

  lemma FirstSkip<S, T>(env: Env<S, T>, s: S, plans: seq<Plan>, pf: map<Key, Pending>, sf: map<Key, string>, k: nat)
    requires k < |plans| && env.samples >= 1 && GenRunOf(env, s, plans, |plans|).GenRun?
    requires var g := GenRunOf(env, s, plans, |plans|);
             RunOnDisk(Ids(plans), g.pendings, g.effects, pf, sf)
    ensures (plans[k].taskId, 1) in pf && pf[(plans[k].taskId, 1)].skip == plans[k].skip
  {
    hide GenRunOf, GenRowOf, RowOnDisk;
    var all, g := GenRunOf(env, s, plans, |plans|), GenRunOf(env, s, plans, k + 1);
    GenRunPrefix(env, s, plans, k + 1, |plans|);
    LastRow(env, s, plans, k + 1);
    assert all.pendings[k] == g.pendings[k] && all.effects[k] == g.effects[k];
    assert RowOnDisk(Ids(plans)[k], all.pendings[k], all.effects[k], pf, sf);
    var a := OnDisk(env, GenRunOf(env, s, plans, k).s, plans[k], pf, sf, 1);
  }

  /** Main theorem.  Generating and then scoring stops where `eval_model` stops, and otherwise
      leaves the provider, the sidecars, the manifests and the summary exactly as `eval_model`
      does (apart from the cost estimate, which the score phase does not know) -- precisely
      when no scorer raised; a raising scorer stops the score phase instead. */
  method TwoPhase<S, T>(env: Env<S, T>, provider: Provider<S>, scorer: Scorer<T>, store: Store, plans: seq<Plan>,
                        estimate: nat, remaining: int)
    returns (r: Result)
    requires provider.fns == env.provider && scorer.fn == env.score
    requires forall k :: 0 <= k < |plans| ==> FieldOk(plans[k].skip)
    modifies provider, scorer, store
    ensures if !ArgumentsOk(env, Ids(plans)) then r == Stopped(BadArguments)
            else if estimate > remaining then r == Stopped(CapReached)
            else
              match EvalRunOf(env, old(provider.state), old(scorer.state), plans, |plans|)
              case EvalRunStop(w) => r == Stopped(w)
              case EvalRun(s, t, rows, effects) =>
                && provider.state == s && store.sources == TouchRows(old(store.sources), Ids(plans), effects)
                && if RunClean(rows) then
                     && scorer.state == t
                     && store.manifests == WriteRows(old(store.manifests), Ids(plans), rows)
                     && r == Finished(SummaryOf(env, env.provider.name, env.provider.model, env.provider.temperature,
                                                Ids(plans), Skips(plans), rows, 0))
                   else r == Stopped(SampleFailed)
  {
    hide GenRunOf, EvalRunOf, ScoreRunOf, RunClean, WriteRows, TouchRows, SummaryOf, SkipsOnDisk, Skips;
    ghost var s0, t0 := provider.state, scorer.state;
    var why := GenerateModelSamples(env, provider, store, plans, estimate, remaining);
    if ArgumentsOk(env, Ids(plans)) && estimate <= remaining {
      SameGeneration(env, s0, t0, plans, |plans|);
    }
    if why.Some? {
      return Stopped(why.value);
    }
    PhasesAgree(env, s0, t0, plans, old(store.pendings), old(store.sources));
    r := ScorePendingSamples(env, scorer, store, Ids(plans), env.provider.model);
  }
}
