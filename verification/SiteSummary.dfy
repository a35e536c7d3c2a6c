/** The published row: usage is conserved from the provider's counters to the summary, and
    `_load_summary` of site/generate.py accepts every summary a campaign emits. */
module SiteSummary {
  import opened Wrappers
  import opened EvalTypes
  import opened EvalFission
  import opened EvalFlows
  import opened EvalTwoPhase

  // ----- Usage conservation -----

  /** A provider whose counters are always readable and never move backwards. */
  ghost predicate WellMetered<S(!new)>(p: Adapter<S>) {
    && (forall s :: p.usage(s).Some?)
    && forall s, prompt, n :: NoLess(p.usage(s).value, p.usage(p.generate(s, prompt, n).0).value)
  }

  lemma Metered<S(!new)>(p: Adapter<S>, s: S)
    requires WellMetered(p)
    ensures p.usage(s).Some?
  {
  }

  lemma CallConserves<S(!new)>(p: Adapter<S>, s: S, prompt: string, n: nat)
    requires WellMetered(p)
    ensures var (s', call) := CallOnce(p, s, prompt, n);
            call.Called? ==> Add(p.usage(s).value, call.usage) == p.usage(s').value
  {
    assert NoLess(p.usage(s).value, p.usage(p.generate(s, prompt, n).0).value);
  }

  lemma SampleConserves<S(!new), T>(env: Env<S, T>, s: S, t: T, plan: Plan)
    requires WellMetered(env.provider) && AttemptOf(env, s, plan).1.Some?
    ensures var (s', a) := AttemptOf(env, s, plan);
            Add(env.provider.usage(s).value, ManifestOf(env, t, plan, a.value).1.usage) == env.provider.usage(s').value
  {
    CallConserves(env.provider, s, plan.prompt, env.maxTokens);
  }

  lemma {:induction false} RowConserves<S(!new), T>(env: Env<S, T>, s: S, t: T, plan: Plan, n: nat)
    requires WellMetered(env.provider) && EvalRowOf(env, s, t, plan, n).EvalRow?
    ensures var e := EvalRowOf(env, s, t, plan, n);
            Add(env.provider.usage(s).value, RowUsage(e.manifests)) == env.provider.usage(e.s).value
  {
    hide WellMetered, AttemptOf, ManifestOf, ManifestFieldsOk, EffectOf, RowUsage;
    Metered(env.provider, s);
    if n == 0 {
      NoUsage();
    } else {
      RowConserves(env, s, t, plan, n - 1);
      var prev, e := EvalRowOf(env, s, t, plan, n - 1), EvalRowOf(env, s, t, plan, n);
      SampleConserves(env, prev.s, prev.t, plan);
      Metered(env.provider, prev.s);
      Metered(env.provider, e.s);
      UsageGrows(prev.manifests, e.manifests[n - 1]);
    }
  }

  lemma NoUsage()
    ensures RowUsage([]) == NO_USAGE
  {
  }

  lemma UsageGrows(row: seq<Manifest>, m: Manifest)
    ensures RowUsage(row + [m]) == Add(RowUsage(row), m.usage)
  {
    assert (row + [m])[..|row|] == row;
  }

  /** Over a whole campaign the per-sample deltas telescope: the summary's totals are what the
      provider's counters rose by. */
  lemma {:induction false} UsageConserved<S(!new), T>(env: Env<S, T>, s: S, t: T, plans: seq<Plan>, n: nat)
    requires WellMetered(env.provider) && n <= |plans| && EvalRunOf(env, s, t, plans, n).EvalRun?
    ensures var e := EvalRunOf(env, s, t, plans, n);
            Delta(env.provider.usage(s).value, env.provider.usage(e.s).value) == Some(RunUsage(e.manifests))
  {
    hide EvalRowOf, RowUsage, WellMetered;
    Metered(env.provider, s);
    if n > 0 {
      UsageConserved(env, s, t, plans, n - 1);
      var prev := EvalRunOf(env, s, t, plans, n - 1);
      RowConserves(env, prev.s, prev.t, plans[n - 1], env.samples);
      Metered(env.provider, prev.s);
      Metered(env.provider, EvalRunOf(env, s, t, plans, n).s);
      var e := EvalRunOf(env, s, t, plans, n);
      assert e.manifests[..n - 1] == prev.manifests;
    }
  }

  // ----- The site's recomputation -----

  /** One sample record against its manifest file. */
  predicate SampleOk(sign: Manifest -> string, s: Summary, taskId: string, entry: TaskEntry,
                     files: map<Key, Manifest>, i: nat)
    requires i < |entry.samples| && i < |entry.scores|
  {
    var record := entry.samples[i];
    && record.sample == i + 1
    && entry.scores[i] >= 0.0 && entry.scores[i] == record.score
    && record.manifest in files
    && var m := files[record.manifest];
       && m.taskId == taskId && m.provider == s.provider && m.model == s.model
       && sign(m) == record.signature && m.score == entry.scores[i]
  }

  predicate EntryOk(sign: Manifest -> string, s: Summary, taskId: string, files: map<Key, Manifest>) {
    && taskId in s.tasks
    && var entry := s.tasks[taskId];
       && FieldOk(entry.skip)
       && |entry.samples| == s.samples && |entry.scores| == s.samples
       && (forall i :: 0 <= i < s.samples ==> SampleOk(sign, s, taskId, entry, files, i))
       && entry.mean == Mean(entry.scores)
  }

  /** The usage of the manifests that the first n samples of an entry point to. */
  function EntryUsage(entry: TaskEntry, files: map<Key, Manifest>, n: nat): Usage
    requires n <= |entry.samples|
  {
    if n == 0 then NO_USAGE
    else
      var key := entry.samples[n - 1].manifest;
      Add(EntryUsage(entry, files, n - 1), if key in files then files[key].usage else NO_USAGE)
  }

  function SummaryUsage(s: Summary, files: map<Key, Manifest>, n: nat): Usage
    requires n <= |s.taskIds| && forall k :: 0 <= k < n ==> s.taskIds[k] in s.tasks
  {
    if n == 0 then NO_USAGE
    else
      var entry := s.tasks[s.taskIds[n - 1]];
      Add(SummaryUsage(s, files, n - 1), EntryUsage(entry, files, |entry.samples|))
  }

  /** The scores of the tasks that were not skipped, in task order. */
  function Included(s: Summary, n: nat): seq<real>
    requires n <= |s.taskIds| && forall k :: 0 <= k < n ==> s.taskIds[k] in s.tasks
  {
    if n == 0 then []
    else
      var entry := s.tasks[s.taskIds[n - 1]];
      Included(s, n - 1) + (if entry.skip.None? then entry.scores else [])
  }

  function IdSet(ids: seq<string>): set<string> {
    set k | 0 <= k < |ids| :: ids[k]
  }

  /** The signatures of manifests and of summaries. */
  datatype Signer = Signer(manifest: Manifest -> string, summary: Summary -> string)

  /** Everything `_load_summary` recomputes and compares for a summary file. */
  predicate SummaryLoads(signer: Signer, s: Summary, signature: string, files: map<Key, Manifest>) {
    && signature == signer.summary(s)
    && s.provider != "" && s.model != ""
    && s.taskIds != [] && "" !in s.taskIds && Distinct(s.taskIds)
    && s.tasks.Keys == IdSet(s.taskIds)
    && s.samples >= 1
    && (forall k :: 0 <= k < |s.taskIds| ==> EntryOk(signer.manifest, s, s.taskIds[k], files))
    && s.aggregate == Mean(Included(s, |s.taskIds|))
    && s.usage == SummaryUsage(s, files, |s.taskIds|)
  }

  /** The inner loop of `_load_summary`. */
  method CheckEntry(sign: Manifest -> string, s: Summary, taskId: string, files: map<Key, Manifest>)
    returns (ok: bool, usage: Usage)
    ensures ok <==> EntryOk(sign, s, taskId, files)
    ensures ok ==> usage == EntryUsage(s.tasks[taskId], files, |s.tasks[taskId].samples|)
  {
    usage := NO_USAGE;
    if taskId !in s.tasks {
      return false, usage;
    }
    var entry := s.tasks[taskId];
    if !FieldOk(entry.skip) || |entry.samples| != s.samples || |entry.scores| != s.samples {
      return false, usage;
    }
    hide SampleOk, Mean;
    for i := 0 to s.samples
      invariant forall j :: 0 <= j < i ==> SampleOk(sign, s, taskId, entry, files, j)
      invariant usage == EntryUsage(entry, files, i)
    {
      if !SampleOk(sign, s, taskId, entry, files, i) {
        return false, usage;
      }
      var key := entry.samples[i].manifest;
      usage := Add(usage, if key in files then files[key].usage else NO_USAGE);
    }
    ok := entry.mean == Mean(entry.scores);
  }

  /** `_load_summary`. */
  method LoadSummary(signer: Signer, s: Summary, signature: string, files: map<Key, Manifest>) returns (ok: bool)
    ensures ok <==> SummaryLoads(signer, s, signature, files)
  {
    if signature != signer.summary(s) {
      return false;
    }
    if s.provider == "" || s.model == "" || s.taskIds == [] || "" in s.taskIds || !Distinct(s.taskIds)
       || s.tasks.Keys != IdSet(s.taskIds) || s.samples < 1 {
      return false;
    }
    hide EntryOk, Mean, Distinct;
    var included: seq<real>, total := [], NO_USAGE;
    for n := 0 to |s.taskIds|
      invariant forall k :: 0 <= k < n ==> s.taskIds[k] in s.tasks
      invariant forall k :: 0 <= k < n ==> EntryOk(signer.manifest, s, s.taskIds[k], files)
      invariant included == Included(s, n) && total == SummaryUsage(s, files, n)
    {
      assert s.taskIds[n] in IdSet(s.taskIds);
      var ok, usage := CheckEntry(signer.manifest, s, s.taskIds[n], files);
      if !ok {
        return false;
      }
      var entry := s.tasks[s.taskIds[n]];
      included := included + (if entry.skip.None? then entry.scores else []);
      total := Add(total, usage);
    }
    ok := s.aggregate == Mean(included) && s.usage == total;
  }

  // ----- Every emitted summary loads -----

  /** A score a validated manifest can carry. */
  ghost predicate ScoresNonnegative<S, T(!new)>(env: Env<S, T>) {
    forall t, id, source, official :: var o := env.score(t, id, source, official).1; o.Scored? ==> o.score >= 0.0
  }

  /** What every manifest of a task's row says about itself. */
  ghost predicate RowHonest<S, T>(env: Env<S, T>, taskId: string, row: seq<Manifest>) {
    forall i :: 0 <= i < |row| ==>
      && row[i].taskId == taskId && row[i].provider == env.provider.name
      && row[i].model == env.provider.model && row[i].score >= 0.0
  }

  lemma {:induction false} RowIsHonest<S, T(!new)>(env: Env<S, T>, s: S, t: T, plan: Plan, n: nat)
    requires ScoresNonnegative(env) && EvalRowOf(env, s, t, plan, n).EvalRow?
    ensures RowHonest(env, plan.taskId, EvalRowOf(env, s, t, plan, n).manifests)
  {
    if n > 0 {
      RowIsHonest(env, s, t, plan, n - 1);
      var prev := EvalRowOf(env, s, t, plan, n - 1);
      ManifestIsHonest(env, prev.s, prev.t, plan);
    }
  }

  lemma ManifestIsHonest<S, T(!new)>(env: Env<S, T>, s: S, t: T, plan: Plan)
    requires ScoresNonnegative(env) && AttemptOf(env, s, plan).1.Some?
    ensures var m := ManifestOf(env, t, plan, AttemptOf(env, s, plan).1.value).1;
            && m.taskId == plan.taskId && m.provider == env.provider.name
            && m.model == env.provider.model && m.score >= 0.0
  {
    var a := AttemptOf(env, s, plan).1.value;
    if a.Produced? {
      assert var o := env.score(t, plan.taskId, a.source, env.official).1; o.Scored? ==> o.score >= 0.0;
    }
  }

  lemma {:induction false} RunIsHonest<S, T(!new)>(env: Env<S, T>, s: S, t: T, plans: seq<Plan>, n: nat)
    requires ScoresNonnegative(env) && n <= |plans| && EvalRunOf(env, s, t, plans, n).EvalRun?
    ensures var e := EvalRunOf(env, s, t, plans, n);
            forall k :: 0 <= k < n ==> RowHonest(env, plans[k].taskId, e.manifests[k])
  {
    hide EvalRowOf, RowHonest, ScoresNonnegative;
    if n > 0 {
      RunIsHonest(env, s, t, plans, n - 1);
      var prev := EvalRunOf(env, s, t, plans, n - 1);
      RowIsHonest(env, prev.s, prev.t, plans[n - 1], env.samples);
    }
  }

  /** The manifest file of each sample. */
  lemma {:induction false} RowFiles<V>(files: map<Key, V>, ids: seq<string>, rows: seq<seq<V>>, k: nat, i: nat)
    requires Distinct(ids) && k < |rows| <= |ids| && i < |rows[k]|
    ensures Lookup(WriteRows(files, ids, rows), (ids[k], i + 1)) == Some(rows[k][i])
    decreases |rows|
  {
    var n := |rows| - 1;
    WriteRowAt(WriteRows(files, ids, rows[..n]), ids[n], rows[n], (ids[k], i + 1));
    if k < n {
      RowFiles(files, ids, rows[..n], k, i);
    }
  }

  lemma {:induction false} EntryFor<S, T>(env: Env<S, T>, ids: seq<string>, skips: seq<Option<string>>,
                                          rows: seq<seq<Manifest>>, n: nat, k: nat)
    requires Distinct(ids) && k < n <= |rows| == |ids| == |skips|
    ensures Lookup(Entries(env, ids, skips, rows, n), ids[k]) == Some(EntryOf(env, ids[k], skips[k], rows[k]))
  {
    if k < n - 1 {
      EntryFor(env, ids, skips, rows, n - 1, k);
    }
  }

  lemma IdSetLast(ids: seq<string>, n: nat)
    requires 0 < n <= |ids|
    ensures IdSet(ids[..n]) == IdSet(ids[..n - 1]) + {ids[n - 1]}
  {
    assert ids[..n][n - 1] == ids[n - 1];
    assert forall k :: 0 <= k < n - 1 ==> ids[..n][k] == ids[..n - 1][k];
  }

  lemma {:induction false} EntryKeys<S, T>(env: Env<S, T>, ids: seq<string>, skips: seq<Option<string>>,
                                           rows: seq<seq<Manifest>>, n: nat)
    requires n <= |rows| == |ids| == |skips|
    ensures Entries(env, ids, skips, rows, n).Keys == IdSet(ids[..n])
  {
    hide IdSet, EntryOf;
    if n == 0 {
      NoIds(ids);
    } else {
      EntryKeys(env, ids, skips, rows, n - 1);
      IdSetLast(ids, n);
    }
  }

  lemma NoIds(ids: seq<string>)
    ensures IdSet(ids[..0]) == {}
  {
  }

  /** An entry's recomputed usage is that of its row. */
  lemma {:induction false} EntryUsageIs<S, T>(env: Env<S, T>, ids: seq<string>, rows: seq<seq<Manifest>>,
                                              skip: Option<string>,
                                              files: map<Key, Manifest>, k: nat, n: nat)
    requires Distinct(ids) && k < |rows| == |ids| && n <= |rows[k]|
    ensures EntryUsage(EntryOf(env, ids[k], skip, rows[k]), WriteRows(files, ids, rows), n) == RowUsage(rows[k][..n])
  {
    hide WriteRows, Distinct;
    if n > 0 {
      EntryUsageIs(env, ids, rows, skip, files, k, n - 1);
      RowFiles(files, ids, rows, k, n - 1);
      assert rows[k][..n][..n - 1] == rows[k][..n - 1];
    }
  }

  lemma {:induction false} TotalsAre<S, T>(env: Env<S, T>, s: Summary, rows: seq<seq<Manifest>>,
                                           skips: seq<Option<string>>,
                                           files: map<Key, Manifest>, n: nat)
    requires Distinct(s.taskIds) && n <= |rows| == |s.taskIds| == |skips|
    requires forall k :: 0 <= k < |rows| ==>
              Lookup(s.tasks, s.taskIds[k]) == Some(EntryOf(env, s.taskIds[k], skips[k], rows[k]))
    ensures forall k :: 0 <= k < n ==> s.taskIds[k] in s.tasks
    ensures Included(s, n) == Counted(skips, rows, n)
    ensures SummaryUsage(s, WriteRows(files, s.taskIds, rows), n) == RunUsage(rows[..n])
  {
    hide WriteRows, Distinct, RowUsage, EntryUsage, Mean, Records, Scores, Add;
    if n > 0 {
      TotalsAre(env, s, rows, skips, files, n - 1);
      var entry := EntryOf(env, s.taskIds[n - 1], skips[n - 1], rows[n - 1]);
      assert Lookup(s.tasks, s.taskIds[n - 1]) == Some(entry);
      EntryUsageIs(env, s.taskIds, rows, skips[n - 1], files, n - 1, |rows[n - 1]|);
      assert rows[n - 1][..|rows[n - 1]|] == rows[n - 1];
      assert rows[..n][..n - 1] == rows[..n - 1];
    }
  }

  lemma EntryLoads<S, T>(env: Env<S, T>, s: Summary, ids: seq<string>, rows: seq<seq<Manifest>>, skip: Option<string>,
                         files: map<Key, Manifest>, k: nat)
    requires Distinct(ids) && k < |rows| == |ids| && |rows[k]| == s.samples && FieldOk(skip)
    requires s.provider == env.provider.name && s.model == env.provider.model
    requires Lookup(s.tasks, ids[k]) == Some(EntryOf(env, ids[k], skip, rows[k]))
    requires RowHonest(env, ids[k], rows[k])
    ensures EntryOk(env.sign, s, ids[k], WriteRows(files, ids, rows))
  {
    hide WriteRows, Distinct, Mean;
    forall i | 0 <= i < s.samples
      ensures SampleOk(env.sign, s, ids[k], s.tasks[ids[k]], WriteRows(files, ids, rows), i)
    {
      RowFiles(files, ids, rows, k, i);
      assert rows[k][i].taskId == ids[k];
    }
  }

  /** A summary computed from honest rows loads next to the files those rows were written to. */
  lemma SummaryOfLoads<S, T>(env: Env<S, T>, ids: seq<string>, skips: seq<Option<string>>, rows: seq<seq<Manifest>>,
                             files: map<Key, Manifest>, estimate: nat, signSummary: Summary -> string)
    requires |rows| == |ids| == |skips| && ArgumentsOk(env, ids) && "" !in ids
    requires forall k :: 0 <= k < |ids| ==>
              |rows[k]| == env.samples && FieldOk(skips[k]) && RowHonest(env, ids[k], rows[k])
    ensures var s := SummaryOf(env, env.provider.name, env.provider.model, env.provider.temperature, ids, skips, rows,
                               estimate);
            SummaryLoads(Signer(env.sign, signSummary), s, signSummary(s), WriteRows(files, ids, rows))
  {
    var s := SummaryOf(env, env.provider.name, env.provider.model, env.provider.temperature, ids, skips, rows,
                       estimate);
    hide WriteRows, Distinct, EntryOk, Entries, Counted, RunUsage, Included, SummaryUsage, RowHonest, EntryOf, Mean,
        IdSet;
    EntryKeys(env, ids, skips, rows, |ids|);
    assert ids[..|ids|] == ids && rows[..|ids|] == rows;
    forall k | 0 <= k < |ids| ensures Lookup(s.tasks, ids[k]) == Some(EntryOf(env, ids[k], skips[k], rows[k])) {
      EntryFor(env, ids, skips, rows, |ids|, k);
    }
    forall k | 0 <= k < |ids| ensures EntryOk(env.sign, s, ids[k], WriteRows(files, ids, rows)) {
      EntryLoads(env, s, ids, rows, skips[k], files, k);
    }
    TotalsAre(env, s, rows, skips, files, |ids|);
  }

  /** Every summary that `eval_model` emits, next to the manifests it wrote, passes all of the
      site's recomputation checks. */
  lemma EmittedSummaryLoads<S, T(!new)>(env: Env<S, T>, s0: S, t0: T, plans: seq<Plan>, files: map<Key, Manifest>,
                                        estimate: nat,
                                             signSummary: Summary -> string)
    requires ArgumentsOk(env, Ids(plans)) && ScoresNonnegative(env)
    requires forall k :: 0 <= k < |plans| ==> FieldOk(plans[k].skip) && plans[k].taskId != ""
    requires EvalRunOf(env, s0, t0, plans, |plans|).EvalRun?
    ensures var rows := EvalRunOf(env, s0, t0, plans, |plans|).manifests;
            var s := SummaryOf(env, env.provider.name, env.provider.model, env.provider.temperature, Ids(plans),
                               Skips(plans), rows, estimate);
            SummaryLoads(Signer(env.sign, signSummary), s, signSummary(s), WriteRows(files, Ids(plans), rows))
  {
    hide EvalRunOf, WriteRows, SummaryLoads, SummaryOf, RowHonest, ArgumentsOk, ScoresNonnegative;
    RunIsHonest(env, s0, t0, plans, |plans|);
    SummaryOfLoads(env, Ids(plans), Skips(plans), EvalRunOf(env, s0, t0, plans, |plans|).manifests, files, estimate,
                   signSummary);
  }

  // ----- What loading determines -----

  /** A summary that loads is signed, names a provider, a model and distinct tasks, has an entry
      for exactly these, and each of its samples, numbered from one, points to a manifest of that
      task, provider and model with the signature and the score, not negative, it states. */
  lemma LoadedMatches(signer: Signer, s: Summary, signature: string, files: map<Key, Manifest>)
    requires SummaryLoads(signer, s, signature, files)
    ensures signature == signer.summary(s) && s.provider != "" && s.model != "" && s.samples >= 1
    ensures |s.taskIds| > 0 && forall j, k :: 0 <= j < k < |s.taskIds| ==> s.taskIds[j] != s.taskIds[k]
    ensures forall id :: id in s.tasks <==> id in s.taskIds
    ensures forall id :: id in s.taskIds ==> id != "" && EntryMatches(signer.manifest, s, id, files)
  {
    hide Mean, SummaryUsage, Included, EntryOk;
    assert forall id :: id in IdSet(s.taskIds) <==> id in s.taskIds;
    forall id | id in s.taskIds
      ensures EntryOk(signer.manifest, s, id, files)
    {
      var k :| 0 <= k < |s.taskIds| && s.taskIds[k] == id;
      assert EntryOk(signer.manifest, s, s.taskIds[k], files);
    }
    forall id | id in s.taskIds
      ensures id in s.tasks && EntryMatches(signer.manifest, s, id, files)
    {
      EntryOkMeans(signer.manifest, s, id, files);
    }
  }

  ghost predicate EntryMatches(sign: Manifest -> string, s: Summary, id: string, files: map<Key, Manifest>)
    requires id in s.tasks
  {
    var entry := s.tasks[id];
    && entry.skip != Some("") && |entry.samples| == |entry.scores| == s.samples
    && forall i :: 0 <= i < s.samples ==>
         entry.samples[i].sample == i + 1 && RecordMatches(sign, s, id, entry.samples[i], entry.scores[i], files)
  }

  ghost predicate RecordMatches(sign: Manifest -> string, s: Summary, id: string, record: SampleRecord, score: real,
                                files: map<Key, Manifest>) {
    && record.manifest in files
    && var m := files[record.manifest];
       && m.taskId == id && m.provider == s.provider && m.model == s.model
       && sign(m) == record.signature && score == record.score == m.score >= 0.0
  }

  lemma EntryOkMeans(sign: Manifest -> string, s: Summary, id: string, files: map<Key, Manifest>)
    requires EntryOk(sign, s, id, files)
    ensures EntryMatches(sign, s, id, files)
  {
    hide Mean;
    var entry := s.tasks[id];
    forall i | 0 <= i < s.samples
      ensures entry.samples[i].sample == i + 1 && RecordMatches(sign, s, id, entry.samples[i], entry.scores[i], files)
    {
      assert SampleOk(sign, s, id, entry, files, i);
    }
  }

  /** The same entry but for its numbers. */
  ghost predicate SamePaths(a: TaskEntry, b: TaskEntry) {
    && a.skip == b.skip && |a.samples| == |b.samples|
    && forall i :: 0 <= i < |a.samples| ==> a.samples[i].manifest == b.samples[i].manifest
  }

  lemma EntryDetermined(sign: Manifest -> string, s: Summary, s': Summary, taskId: string, files: map<Key, Manifest>)
    requires EntryOk(sign, s, taskId, files) && EntryOk(sign, s', taskId, files)
    requires SamePaths(s.tasks[taskId], s'.tasks[taskId])
    ensures s.tasks[taskId] == s'.tasks[taskId]
  {
    hide Mean;
    var a, b := s.tasks[taskId], s'.tasks[taskId];
    forall i | 0 <= i < |a.samples|
      ensures a.samples[i] == b.samples[i] && a.scores[i] == b.scores[i]
    {
      assert SampleOk(sign, s, taskId, a, files, i) && SampleOk(sign, s', taskId, b, files, i);
    }
    assert a.samples == b.samples && a.scores == b.scores;
  }

  lemma {:induction false} TotalsDetermined(s: Summary, s': Summary, files: map<Key, Manifest>, n: nat)
    requires s'.taskIds == s.taskIds && n <= |s.taskIds|
    requires forall k :: 0 <= k < |s.taskIds| ==>
              && s.taskIds[k] in s.tasks && s.taskIds[k] in s'.tasks
              && s.tasks[s.taskIds[k]] == s'.tasks[s.taskIds[k]]
    ensures Included(s, n) == Included(s', n) && SummaryUsage(s, files, n) == SummaryUsage(s', files, n)
  {
    hide EntryUsage;
    if n > 0 {
      TotalsDetermined(s, s', files, n - 1);
    }
  }

  /** The files decide every number of a summary that loads: two summaries of the same model that
      point to the same manifests agree on all scores, means, signatures, totals and the
      aggregate, so changing one of them, signed again or not, is refused. */
  lemma LoadedIsDetermined(signer: Signer, s: Summary, signature: string, s': Summary, signature': string,
                           files: map<Key, Manifest>)
    requires SummaryLoads(signer, s, signature, files) && SummaryLoads(signer, s', signature', files)
    requires s'.taskIds == s.taskIds
    requires forall k :: 0 <= k < |s.taskIds| ==>
              && s.taskIds[k] in s.tasks && s.taskIds[k] in s'.tasks
              && SamePaths(s.tasks[s.taskIds[k]], s'.tasks[s.taskIds[k]])
    ensures s.tasks == s'.tasks && s.aggregate == s'.aggregate && s.usage == s'.usage && s.samples == s'.samples
  {
    hide EntryOk, Mean, SamePaths, Distinct, Included, SummaryUsage;
    forall k | 0 <= k < |s.taskIds|
      ensures s.tasks[s.taskIds[k]] == s'.tasks[s.taskIds[k]]
    {
      EntryDetermined(signer.manifest, s, s', s.taskIds[k], files);
    }
    TotalsDetermined(s, s', files, |s.taskIds|);
    SampleCount(signer.manifest, s, s', s.taskIds[0], files);
    assert forall id :: id in s.tasks ==> id in IdSet(s.taskIds);
  }

  lemma SampleCount(sign: Manifest -> string, s: Summary, s': Summary, taskId: string, files: map<Key, Manifest>)
    requires EntryOk(sign, s, taskId, files) && EntryOk(sign, s', taskId, files)
    requires s.tasks[taskId] == s'.tasks[taskId]
    ensures s.samples == s'.samples
  {
  }
}
