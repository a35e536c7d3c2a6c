/** `generate_mutants` of harness/mutators/rtl.py: every operator's candidates in order, each
    distinct source kept once. */
module MutantList {
  import opened Text
  import opened SvMask
  import opened RtlPatterns
  import opened RtlMutators
  import opened RtlRewrites

  datatype Mutant = Mutant(id: string, operator: string, description: string, source: string)

  // ----- The candidate stream -----

  function Labelled(operator: string, description: string, sources: seq<string>): (r: seq<Candidate>)
    ensures |r| == |sources|
  {
    seq(|sources|, k requires 0 <= k < |sources| => Candidate(operator, description, sources[k]))
  }

  function LiteralStream(source: string, specs: seq<Spec>): seq<Candidate>
    requires forall k :: 0 <= k < |specs| ==> specs[k].before != []
  {
    if specs == [] then []
    else Labelled(specs[0].operator, specs[0].description, LiteralMutants(source, specs[0], 0)) +
         LiteralStream(source, specs[1..])
  }

  function OnceStream(source: string, specs: seq<Spec>): seq<Candidate> {
    if specs == [] then []
    else
      var r := ReplaceOnce(source, specs[0]);
      (if r.None? then [] else [Candidate(specs[0].operator, specs[0].description, r.value)]) +
      OnceStream(source, specs[1..])
  }

  function CondStream(source: string, specs: seq<CondSpec>): seq<Candidate> {
    if specs == [] then []
    else Labelled(specs[0].operator, specs[0].description, CondMutants(source, specs[0])) +
         CondStream(source, specs[1..])
  }

  function RewriteStream(source: string, rws: seq<Rewrite>): seq<Candidate> {
    if rws == [] then [] else RewriteCandidates(rws[0], source) + RewriteStream(source, rws[1..])
  }

  const REWRITES := [FlipBit, InvertContinuous, HoldValue, InvertBlocking]

  lemma GenericNonempty()
    ensures forall k :: 0 <= k < |GenericSpecs()| ==> GenericSpecs()[k].before != []
  {
  }

  /** Every candidate, in the order in which the operators produce them. */
  function Candidates(source: string, taskSpecs: seq<Spec>): seq<Candidate> {
    GenericNonempty();
    LiteralStream(source, GenericSpecs()) + OnceStream(source, taskSpecs) +
    CondStream(source, GenericRegexSpecs()) + RewriteStream(source, REWRITES)
  }

  // ----- First occurrences -----

  predicate Repeats(cands: seq<Candidate>, n: nat)
    requires n < |cands|
  {
    exists k :: 0 <= k < n && cands[k].source == cands[n].source
  }

  /** The positions, among the first n candidates, of those not seen before. */
  function Firsts(cands: seq<Candidate>, n: nat): (r: seq<nat>)
    requires n <= |cands|
    ensures forall k :: 0 <= k < |r| ==> r[k] < n && !Repeats(cands, r[k])
    ensures forall i :: 0 <= i < n && !Repeats(cands, i) ==> i in r
    ensures forall j, k :: 0 <= j < k < |r| ==> r[j] < r[k]
  {
    if n == 0 then []
    else if Repeats(cands, n - 1) then Firsts(cands, n - 1)
    else Firsts(cands, n - 1) + [n - 1]
  }

  function Id(taskId: string, index: nat): string {
    taskId + "-m" + Pad3(index)
  }

  function MutantAt(taskId: string, index: nat, c: Candidate): Mutant {
    Mutant(Id(taskId, index), c.operator, c.description, c.source)
  }

  ghost predicate Numbered(taskId: string, cands: seq<Candidate>, firsts: seq<nat>, mutants: seq<Mutant>) {
    |mutants| == |firsts| && (forall m :: 0 <= m < |firsts| ==> firsts[m] < |cands|) &&
    forall m :: 0 <= m < |mutants| ==> mutants[m] == MutantAt(taskId, m, cands[firsts[m]])
  }

  /** The list is the candidates at the positions of `Firsts`, numbered from zero. */
  ghost predicate IsMutantList(taskId: string, cands: seq<Candidate>, mutants: seq<Mutant>) {
    Numbered(taskId, cands, Firsts(cands, |cands|), mutants)
  }

  ghost function SourcesOf(cands: seq<Candidate>): set<string> {
    set k | 0 <= k < |cands| :: cands[k].source
  }

  lemma {:induction false} FirstsPrefix(cands: seq<Candidate>, c: Candidate, n: nat)
    requires n <= |cands|
    ensures Firsts(cands + [c], n) == Firsts(cands, n)
  {
    if n > 0 {
      FirstsPrefix(cands, c, n - 1);
      assert forall k :: 0 <= k < n ==> (cands + [c])[k] == cands[k];
      assert Repeats(cands + [c], n - 1) <==> Repeats(cands, n - 1);
    }
  }

  lemma SourcesGrow(cands: seq<Candidate>, c: Candidate)
    ensures SourcesOf(cands + [c]) == SourcesOf(cands) + {c.source}
    ensures Repeats(cands + [c], |cands|) <==> c.source in SourcesOf(cands)
  {
    var more, n := cands + [c], |cands|;
    assert more[n] == c && forall k :: 0 <= k < n ==> more[k] == cands[k];
    assert more[n].source in SourcesOf(more);
    forall k | 0 <= k < n ensures cands[k].source in SourcesOf(more) {
      assert more[k].source in SourcesOf(more);
    }
  }

  lemma FirstsStep(cands: seq<Candidate>, c: Candidate)
    ensures Firsts(cands + [c], |cands| + 1) ==
            if c.source in SourcesOf(cands) then Firsts(cands, |cands|) else Firsts(cands, |cands|) + [|cands|]
  {
    hide SourcesOf, Repeats;
    FirstsPrefix(cands, c, |cands|);
    SourcesGrow(cands, c);
  }

  lemma NumberedStep(taskId: string, cands: seq<Candidate>, c: Candidate, firsts: seq<nat>, mutants: seq<Mutant>)
    requires Numbered(taskId, cands, firsts, mutants)
    ensures Numbered(taskId, cands + [c], firsts, mutants)
    ensures Numbered(taskId, cands + [c], firsts + [|cands|], mutants + [MutantAt(taskId, |mutants|, c)])
  {
    hide MutantAt;
  }

  /** A further candidate is listed exactly when its source is new. */
  lemma ListStep(taskId: string, cands: seq<Candidate>, c: Candidate, mutants: seq<Mutant>)
    requires IsMutantList(taskId, cands, mutants)
    ensures IsMutantList(taskId, cands + [c],
                         if c.source in SourcesOf(cands) then mutants else mutants + [MutantAt(taskId, |mutants|, c)])
  {
    hide MutantAt, SourcesOf, Firsts, Repeats, Numbered;
    FirstsStep(cands, c);
    NumberedStep(taskId, cands, c, Firsts(cands, |cands|), mutants);
  }

  /** One `for mutated in ...` loop of the source. */
  method Collect(taskId: string, ghost done: seq<Candidate>, cands: seq<Candidate>, mutants: seq<Mutant>,
                 seen: set<string>)
    returns (mutants': seq<Mutant>, seen': set<string>)
    requires IsMutantList(taskId, done, mutants) && seen == SourcesOf(done)
    ensures IsMutantList(taskId, done + cands, mutants') && seen' == SourcesOf(done + cands)
  {
    hide IsMutantList, MutantAt, SourcesOf;
    mutants', seen' := mutants, seen;
    assert done + cands[..0] == done;
    for n := 0 to |cands|
      invariant IsMutantList(taskId, done + cands[..n], mutants')
      invariant seen' == SourcesOf(done + cands[..n])
    {
      ghost var before := done + cands[..n];
      assert done + cands[..n + 1] == before + [cands[n]];
      ListStep(taskId, before, cands[n], mutants');
      SourcesGrow(before, cands[n]);
      if cands[n].source !in seen' {
        seen' := seen' + {cands[n].source};
        mutants' := mutants' + [MutantAt(taskId, |mutants'|, cands[n])];
      }
    }
    assert done + cands[..|cands|] == done + cands;
  }

  method CollectLiteral(taskId: string, source: string, specs: seq<Spec>)
    returns (mutants: seq<Mutant>, seen: set<string>)
    requires forall k :: 0 <= k < |specs| ==> specs[k].before != []
    ensures IsMutantList(taskId, LiteralStream(source, specs), mutants)
            && seen == SourcesOf(LiteralStream(source, specs))
  {
    ghost var done: seq<Candidate> := [];
    mutants, seen := [], {};
    assert IsMutantList(taskId, done, mutants) && seen == SourcesOf(done);
    hide LiteralMutants, IsMutantList, Labelled, SourcesOf;
    for n := 0 to |specs|
      invariant done + LiteralStream(source, specs[n..]) == LiteralStream(source, specs)
      invariant IsMutantList(taskId, done, mutants) && seen == SourcesOf(done)
    {
      var results := ReplaceAll(source, specs[n]);
      var cands := Labelled(specs[n].operator, specs[n].description, results);
      assert specs[n..][1..] == specs[n + 1..];
      Assoc(done, cands, LiteralStream(source, specs[n + 1..]));
      mutants, seen := Collect(taskId, done, cands, mutants, seen);
      done := done + cands;
    }
    assert done == LiteralStream(source, specs);
  }

  method CollectOnce(taskId: string, source: string, specs: seq<Spec>, ghost prior: seq<Candidate>,
                     mutants: seq<Mutant>, seen: set<string>)
    returns (mutants': seq<Mutant>, seen': set<string>)
    requires IsMutantList(taskId, prior, mutants) && seen == SourcesOf(prior)
    ensures var all := prior + OnceStream(source, specs);
            IsMutantList(taskId, all, mutants') && seen' == SourcesOf(all)
  {
    hide ReplaceOnce, IsMutantList, SourcesOf;
    ghost var done := prior;
    mutants', seen' := mutants, seen;
    for n := 0 to |specs|
      invariant done + OnceStream(source, specs[n..]) == prior + OnceStream(source, specs)
      invariant IsMutantList(taskId, done, mutants') && seen' == SourcesOf(done)
    {
      var r := ReplaceOnce(source, specs[n]);
      var cands := if r.None? then [] else [Candidate(specs[n].operator, specs[n].description, r.value)];
      assert specs[n..][1..] == specs[n + 1..];
      Assoc(done, cands, OnceStream(source, specs[n + 1..]));
      mutants', seen' := Collect(taskId, done, cands, mutants', seen');
      done := done + cands;
    }
    assert done == prior + OnceStream(source, specs);
  }

  method CollectCond(taskId: string, source: string, specs: seq<CondSpec>, ghost prior: seq<Candidate>,
                     mutants: seq<Mutant>, seen: set<string>)
    returns (mutants': seq<Mutant>, seen': set<string>)
    requires IsMutantList(taskId, prior, mutants) && seen == SourcesOf(prior)
    ensures var all := prior + CondStream(source, specs);
            IsMutantList(taskId, all, mutants') && seen' == SourcesOf(all)
  {
    hide CondMutants, IsMutantList, Labelled, SourcesOf;
    ghost var done := prior;
    mutants', seen' := mutants, seen;
    for n := 0 to |specs|
      invariant done + CondStream(source, specs[n..]) == prior + CondStream(source, specs)
      invariant IsMutantList(taskId, done, mutants') && seen' == SourcesOf(done)
    {
      var results := ReplaceRegexAll(source, specs[n]);
      var cands := Labelled(specs[n].operator, specs[n].description, results);
      assert specs[n..][1..] == specs[n + 1..];
      Assoc(done, cands, CondStream(source, specs[n + 1..]));
      mutants', seen' := Collect(taskId, done, cands, mutants', seen');
      done := done + cands;
    }
    assert done == prior + CondStream(source, specs);
  }

  method CollectRewrites(taskId: string, source: string, rws: seq<Rewrite>, ghost prior: seq<Candidate>,
                         mutants: seq<Mutant>, seen: set<string>)
    returns (mutants': seq<Mutant>)
    requires IsMutantList(taskId, prior, mutants) && seen == SourcesOf(prior)
    ensures IsMutantList(taskId, prior + RewriteStream(source, rws), mutants')
  {
    hide RewriteCandidates, IsMutantList, SourcesOf;
    ghost var done := prior;
    var seen' := seen;
    mutants' := mutants;
    for n := 0 to |rws|
      invariant done + RewriteStream(source, rws[n..]) == prior + RewriteStream(source, rws)
      invariant IsMutantList(taskId, done, mutants') && seen' == SourcesOf(done)
    {
      var cands := RewriteAll(rws[n], source);
      assert rws[n..][1..] == rws[n + 1..];
      Assoc(done, cands, RewriteStream(source, rws[n + 1..]));
      mutants', seen' := Collect(taskId, done, cands, mutants', seen');
      done := done + cands;
    }
    assert done == prior + RewriteStream(source, rws);
  }

  method GenerateMutants(taskId: string, source: string, includeTaskSpecs: bool) returns (mutants: seq<Mutant>)
    ensures IsMutantList(taskId, Candidates(source, if includeTaskSpecs then TaskSpecs(taskId) else []), mutants)
    ensures forall m :: 0 <= m < |mutants| ==> mutants[m].source != source
  {
    hide TaskSpecs, LiteralStream, OnceStream, CondStream, RewriteStream, IsMutantList, SourcesOf;
    GenericNonempty();
    var seen;
    var taskSpecs := if includeTaskSpecs then TaskSpecs(taskId) else [];
    ghost var literal := LiteralStream(source, GenericSpecs());
    mutants, seen := CollectLiteral(taskId, source, GenericSpecs());
    mutants, seen := CollectOnce(taskId, source, taskSpecs, literal, mutants, seen);
    ghost var once := literal + OnceStream(source, taskSpecs);
    mutants, seen := CollectCond(taskId, source, GenericRegexSpecs(), once, mutants, seen);
    mutants := CollectRewrites(taskId, source, REWRITES, once + CondStream(source, GenericRegexSpecs()), mutants, seen);
    NoCandidateIsSource(taskId, source, includeTaskSpecs);
    ListedDiffer(taskId, source, Candidates(source, taskSpecs), mutants);
  }

  lemma Assoc<T>(a: seq<T>, b: seq<T>, c: seq<T>)
    ensures a + (b + c) == (a + b) + c
  {
  }

  // ----- What the list promises -----

  /** No two mutants share a source or an id, every candidate's source is represented, and
      by its first occurrence. */
  lemma MutantListProperties(taskId: string, cands: seq<Candidate>, mutants: seq<Mutant>)
    requires IsMutantList(taskId, cands, mutants)
    ensures forall m, n :: 0 <= m < n < |mutants| ==>
              mutants[m].source != mutants[n].source && mutants[m].id != mutants[n].id
    ensures forall k :: 0 <= k < |cands| ==> exists m :: 0 <= m < |mutants| && mutants[m].source == cands[k].source
    ensures forall m :: 0 <= m < |mutants| ==> mutants[m].id == Id(taskId, m)
  {
    var firsts := Firsts(cands, |cands|);
    forall m, n | 0 <= m < n < |mutants|
      ensures mutants[m].source != mutants[n].source && mutants[m].id != mutants[n].id
    {
      assert firsts[m] < firsts[n] && !Repeats(cands, firsts[n]);
      if Id(taskId, m) == Id(taskId, n) {
        assert Id(taskId, m)[|taskId + "-m"|..] == Pad3(m) && Id(taskId, n)[|taskId + "-m"|..] == Pad3(n);
        Pad3Injective(m, n);
      }
    }
    forall k | 0 <= k < |cands| ensures exists m :: 0 <= m < |mutants| && mutants[m].source == cands[k].source {
      var i := FirstLike(cands, k);
      var m :| 0 <= m < |firsts| && firsts[m] == i;
      assert mutants[m].source == cands[k].source;
    }
  }

  /** The list in order: one mutant for each candidate whose source no earlier one has, with that
      candidate's operator, description and source, and its own position in its id. */
  lemma ListIs(taskId: string, cands: seq<Candidate>, mutants: seq<Mutant>) returns (at: seq<nat>)
    requires IsMutantList(taskId, cands, mutants)
    ensures Chosen(at, |cands|, |mutants|)
    ensures forall k :: 0 <= k < |cands| ==>
              (k in at <==> forall j :: 0 <= j < k ==> cands[j].source != cands[k].source)
    ensures forall m :: 0 <= m < |mutants| ==>
              at[m] < |cands| &&
              mutants[m] == Mutant(taskId + "-m" + Pad3(m), cands[at[m]].operator, cands[at[m]].description,
                                   cands[at[m]].source)
  {
    hide Pad3;
    at := Firsts(cands, |cands|);
  }

  lemma {:induction false} FirstLike(cands: seq<Candidate>, k: nat) returns (i: nat)
    requires k < |cands|
    ensures i <= k && cands[i].source == cands[k].source && !Repeats(cands, i)
  {
    i := k;
    if Repeats(cands, k) {
      var j :| 0 <= j < k && cands[j].source == cands[k].source;
      i := FirstLike(cands, j);
    }
  }

  /** No operator is left out: the list of candidates has those of every generic operator, of
      every hand-made one that is asked for, of every condition and of every rewrite. */
  lemma NothingLeftOut(source: string, taskSpecs: seq<Spec>)
    ensures var cands := Candidates(source, taskSpecs);
            && (forall n :: 0 <= n < |GenericSpecs()| ==> GenericSpecs()[n].before != [])
            && (forall n, m :: 0 <= n < |GenericSpecs()| && m in LiteralMutants(source, GenericSpecs()[n], 0) ==>
                  Candidate(GenericSpecs()[n].operator, GenericSpecs()[n].description, m) in cands)
            && (forall n :: 0 <= n < |taskSpecs| && ReplaceOnce(source, taskSpecs[n]).Some? ==>
                  Candidate(taskSpecs[n].operator, taskSpecs[n].description, ReplaceOnce(source, taskSpecs[n]).value)
                  in cands)
            && (forall n, m :: 0 <= n < |GenericRegexSpecs()| && m in CondMutants(source, GenericRegexSpecs()[n]) ==>
                  Candidate(GenericRegexSpecs()[n].operator, GenericRegexSpecs()[n].description, m) in cands)
            && (forall rw, c :: c in RewriteCandidates(rw, source) ==> c in cands)
  {
    hide LiteralMutants, ReplaceOnce, CondMutants, RewriteCandidates, LiteralStream, OnceStream, CondStream,
      RewriteStream, GenericSpecs, GenericRegexSpecs, REWRITES;
    GenericNonempty();
    forall n | 0 <= n < |GenericSpecs()|
      ensures forall m :: m in LiteralMutants(source, GenericSpecs()[n], 0) ==>
                Candidate(GenericSpecs()[n].operator, GenericSpecs()[n].description, m) in
                LiteralStream(source, GenericSpecs())
    {
      InLiteralStream(source, GenericSpecs(), n);
    }
    forall n | 0 <= n < |taskSpecs| && ReplaceOnce(source, taskSpecs[n]).Some?
      ensures Candidate(taskSpecs[n].operator, taskSpecs[n].description, ReplaceOnce(source, taskSpecs[n]).value) in
              OnceStream(source, taskSpecs)
    {
      InOnceStream(source, taskSpecs, n);
    }
    forall n | 0 <= n < |GenericRegexSpecs()|
      ensures forall m :: m in CondMutants(source, GenericRegexSpecs()[n]) ==>
                Candidate(GenericRegexSpecs()[n].operator, GenericRegexSpecs()[n].description, m) in
                CondStream(source, GenericRegexSpecs())
    {
      InCondStream(source, GenericRegexSpecs(), n);
    }
    forall rw, c | c in RewriteCandidates(rw, source)
      ensures c in RewriteStream(source, REWRITES)
    {
      AllRewrites(rw);
      InRewriteStream(source, REWRITES, rw, c);
    }
  }

  lemma AllRewrites(rw: Rewrite)
    ensures rw in REWRITES
  {
  }

  lemma InLabelled(operator: string, description: string, sources: seq<string>, m: string)
    requires m in sources
    ensures Candidate(operator, description, m) in Labelled(operator, description, sources)
  {
    var k :| 0 <= k < |sources| && sources[k] == m;
    assert Labelled(operator, description, sources)[k] == Candidate(operator, description, m);
  }

  lemma {:induction false} InLiteralStream(source: string, specs: seq<Spec>, n: nat)
    requires n < |specs| && forall k :: 0 <= k < |specs| ==> specs[k].before != []
    ensures forall m :: m in LiteralMutants(source, specs[n], 0) ==>
              Candidate(specs[n].operator, specs[n].description, m) in LiteralStream(source, specs)
  {
    hide LiteralMutants, Labelled;
    if n == 0 {
      forall m | m in LiteralMutants(source, specs[0], 0)
        ensures Candidate(specs[0].operator, specs[0].description, m) in LiteralStream(source, specs)
      {
        InLabelled(specs[0].operator, specs[0].description, LiteralMutants(source, specs[0], 0), m);
      }
    } else {
      InLiteralStream(source, specs[1..], n - 1);
    }
  }

  lemma {:induction false} InOnceStream(source: string, specs: seq<Spec>, n: nat)
    requires n < |specs| && ReplaceOnce(source, specs[n]).Some?
    ensures Candidate(specs[n].operator, specs[n].description, ReplaceOnce(source, specs[n]).value) in
            OnceStream(source, specs)
  {
    hide ReplaceOnce;
    if n > 0 {
      InOnceStream(source, specs[1..], n - 1);
    }
  }

  lemma {:induction false} InCondStream(source: string, specs: seq<CondSpec>, n: nat)
    requires n < |specs|
    ensures forall m :: m in CondMutants(source, specs[n]) ==>
              Candidate(specs[n].operator, specs[n].description, m) in CondStream(source, specs)
  {
    hide CondMutants, Labelled;
    if n == 0 {
      forall m | m in CondMutants(source, specs[0])
        ensures Candidate(specs[0].operator, specs[0].description, m) in CondStream(source, specs)
      {
        InLabelled(specs[0].operator, specs[0].description, CondMutants(source, specs[0]), m);
      }
    } else {
      InCondStream(source, specs[1..], n - 1);
    }
  }

  lemma {:induction false} InRewriteStream(source: string, rws: seq<Rewrite>, rw: Rewrite, c: Candidate)
    requires rw in rws && c in RewriteCandidates(rw, source)
    ensures c in RewriteStream(source, rws)
  {
    hide RewriteCandidates;
    if rws[0] != rw {
      InRewriteStream(source, rws[1..], rw, c);
    }
  }

  // ----- Every mutant is a change -----

  lemma {:induction false} LiteralStreamChanges(source: string, specs: seq<Spec>, c: Candidate)
    requires forall k :: 0 <= k < |specs| ==> specs[k].before != [] && Differs(specs[k])
    requires c in LiteralStream(source, specs)
    ensures c.source != source
  {
    hide LiteralMutant, Differs, Masked, OccursAt;
    var spec, results := specs[0], LiteralMutants(source, specs[0], 0);
    var first := Labelled(spec.operator, spec.description, results);
    if c in first {
      OneMutantPerSite(source, spec, 0);
      var k :| 0 <= k < |first| && c == first[k];
      MutantDiffers(source, spec, Sites(Masked(source), spec.before, 0)[k]);
    } else {
      LiteralStreamChanges(source, specs[1..], c);
    }
  }

  lemma {:induction false} OnceStreamChanges(source: string, specs: seq<Spec>, c: Candidate)
    requires forall k :: 0 <= k < |specs| ==> Differs(specs[k])
    requires c in OnceStream(source, specs)
    ensures c.source != source
  {
    hide LiteralMutant, Differs, Masked, OccursAt, Find;
    var index := Find(Masked(source), specs[0].before, 0);
    if index.Some? {
      MutantDiffers(source, specs[0], index.value);
    }
    if ReplaceOnce(source, specs[0]).None? || c.source != ReplaceOnce(source, specs[0]).value {
      OnceStreamChanges(source, specs[1..], c);
    }
  }

  lemma {:induction false} CondStreamChanges(source: string, n: nat, c: Candidate)
    requires n <= |GenericRegexSpecs()| && c in CondStream(source, GenericRegexSpecs()[n..])
    ensures c.source != source
    decreases |GenericRegexSpecs()| - n
  {
    hide GenericRegexSpecs, CondMutant, MatchAt, FindIter, Masked;
    var specs := GenericRegexSpecs()[n..];
    var spec := specs[0];
    var first := Labelled(spec.operator, spec.description, CondMutants(source, spec));
    if c in first {
      var k :| 0 <= k < |first| && c == first[k];
      var h := FindIter(spec.pattern, Masked(source), 0)[k];
      assert spec == GenericRegexSpecs()[n];
      CondChanges(source, n, h.start);
    } else {
      assert specs[1..] == GenericRegexSpecs()[n + 1..];
      CondStreamChanges(source, n + 1, c);
    }
  }

  lemma {:induction false} RewriteStreamChanges(source: string, rws: seq<Rewrite>, c: Candidate)
    requires c in RewriteStream(source, rws)
    ensures c.source != source
  {
    hide RewriteCandidates;
    if c in RewriteCandidates(rws[0], source) {
      RewritesChange(rws[0], source);
    } else {
      RewriteStreamChanges(source, rws[1..], c);
    }
  }

  /** No candidate is the design itself, whichever operator made it. */
  lemma NoCandidateIsSource(taskId: string, source: string, includeTaskSpecs: bool)
    ensures forall c :: c in Candidates(source, if includeTaskSpecs then TaskSpecs(taskId) else []) ==>
              c.source != source
  {
    hide Differs, LiteralStream, OnceStream, CondStream, RewriteStream, GenericSpecs, TaskSpecs;
    var taskSpecs := if includeTaskSpecs then TaskSpecs(taskId) else [];
    forall k | 0 <= k < |GenericSpecs()|
      ensures Differs(GenericSpecs()[k])
    {
      TablesWellShaped(taskId, k);
    }
    forall k | 0 <= k < |taskSpecs|
      ensures Differs(taskSpecs[k])
    {
      TaskDiffers(taskId, k);
    }
    forall c | c in Candidates(source, taskSpecs)
      ensures c.source != source
    {
      if c in LiteralStream(source, GenericSpecs()) {
        LiteralStreamChanges(source, GenericSpecs(), c);
      } else if c in OnceStream(source, taskSpecs) {
        OnceStreamChanges(source, taskSpecs, c);
      } else if c in CondStream(source, GenericRegexSpecs()) {
        assert GenericRegexSpecs()[0..] == GenericRegexSpecs();
        CondStreamChanges(source, 0, c);
      } else {
        RewriteStreamChanges(source, REWRITES, c);
      }
    }
  }

  /** So no listed mutant is. */
  lemma ListedDiffer(taskId: string, source: string, cands: seq<Candidate>, mutants: seq<Mutant>)
    requires IsMutantList(taskId, cands, mutants) && forall c :: c in cands ==> c.source != source
    ensures forall m :: 0 <= m < |mutants| ==> mutants[m].source != source
  {
  }
}
