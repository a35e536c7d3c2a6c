# GateTruth in Dafny

GateTruth asks models to write RTL, gates the result through simulation and
synthesis, scores it against a reference, and publishes the scores; it also
measures testbenches by mutating designs.  This project models the parts of
the harness where a quiet mistake would change a published number, and proves
what they promise.  Tool verdicts, provider replies, clocks, hashes and the
file system contents are arbitrary inputs throughout.

`dafny verify dfyconfig.toml` checks everything.

How it is laid out:

- **Masking and mutation.**  `SvMask` is the comment and string lexer: an
  in-place method over a character array, proved against a one-character
  automaton.  Its main theorem, `SpliceIff`, is the exact condition under
  which masking commutes with replacing a span of the source.  `RtlPatterns`
  are hand-written matchers for the regular expressions, which `RtlRegex` and
  `ExtractionRegex` define as languages and prove them against; `RtlMutators` and
  `RtlRewrites` the operators with their exact conditions and the two traps
  where a condition fails, `MutantList` the de-duplicated list.
- **Spend.**  `SpendLedger` is the ledger as a class; `SpendProtocol`
  interleaves many workers with crashes and reconciliation as atomic steps
  and proves an inductive invariant; `Providers` is one API attempt and the
  bounded retry, each reservation ending as one settled row unless an exception
  escapes, which is the step `Escape` of the protocol; `SpendAdapters` shows that
  attempts are steps of the protocol, so its cap safety is theirs.
- **Campaigns.**  `ModuleExtraction` pulls one module out of a reply.
  `EvalTypes`, `EvalFission`, `EvalFlows` and `EvalTwoPhase` show that
  generating first and scoring later leaves what the combined loop leaves;
  `EvalScores` says what that is, sample by sample, and what the means are.
  `SiteSummary` carries usage to the published row; `SitePublish` is the
  crash-safe swap of directories.
- **Track B.**  `TrackB` has the gate machine and the independent validator
  of its manifests, and says exactly how they differ.  `PackageTree` is a
  package as a file tree with its guard; `AgentB` is the budgeted agent loop
  and its sandbox.  `SimStage` is the simulation verdict both tracks share.
- **Track A.**  `TrackAScore` is the capped geometric mean over exact reals;
  `TrackA` has producer, schema, checker and re-scorer.

Results where the code does not do what one might expect, each stated as an
exact condition or a concrete input:

- A blank in a literal mutation pattern can match the blanked end of a
  comment; the mutant then reopens that comment (`LiteralCommutesIff`,
  `LiteralTrap`).
- A line comment at the end of a right-hand side swallows the closing
  parenthesis of an inverted assignment, and a right-hand side that is a
  string leaves a lone quote (`InvertCommutesIff`, `TrailingCommentTrap`,
  `CommentTrapOccurs`, `StringTrapOccurs`).
- The malformed-fence error of the extractor can never be raised
  (`NeverMalformed`).
- A Track B run whose hidden tests fail to load after the gates started
  writes a manifest that the validator rejects, its message notwithstanding
  that disqualification happens before any gate (harness/trackb.py:260-265,
  `TrackB.ProducerAcceptedIff`).
- The Track B validator accepts a required equivalence check recorded as
  skipped, which no run records (`ValidatorIsExact`, `SecSkipIsNotProduced`).
- Some exceptions leave the agent loop and end the run without a manifest:
  a reply nested too deep for the JSON reader, a tool name that is a list or
  an object, a tool run that raises outside the caught classes, an unreadable
  token counter (`CrashIff`, `CrashOccurs`).
- A file that a simulated design writes below an immutable directory of its
  sandbox makes the guard reject that design (`StrayFileRejected`).
- An exception that is neither a provider error nor a ValueError, such as a
  server that closes the connection without answering, leaves the reservation
  of a live worker in the ledger (`LeaksIff`, `DroppedConnection`).
- Reconciling the ledger while a call is in flight makes its settlement fail
  (`ReconcileSafeIff`).
- A negative count in a results file can hide a skipped test (`CountsCancel`).
- Two publishing runs cut off in a row can leave neither the live nor the
  previous directory complete (`TwoCutsIff`, `TwoCutsCanLoseBoth`).
- The score phase is documented to emit what the combined loop would have
  (harness/evalmodel.py:499-504); a scorer that raises is recorded by the
  combined loop but stops the score phase (`TwoPhase`).

## Model

| member | source | states |
|---|---|---|
| `SvMask.MaskCode` | harness/sv_mask.py:9-63 | the in-place four-mode lexer computes the mask of the one-character automaton |
| `SvMask.CodeGoesOn` | harness/sv_mask.py:13-32 | the text starts as code and stays code after every character that opens nothing, which is shown as it is |
| `SvMask.LineCommentMeaning` | harness/sv_mask.py:15-39 | two slashes in code blank everything up to the first newline, which is kept and followed by code; without one, the rest |
| `SvMask.BlockCommentMeaning` | harness/sv_mask.py:20-49 | slash and star in code blank all but newlines through the first star and slash after them, then there is code; without those, the rest |
| `SvMask.StringMeaning` | harness/sv_mask.py:25-62 | a quote in code blanks everything through the first later quote that an even number of backslashes precedes, then there is code; without one, the rest |
| `SvMask.MaskShape` | harness/sv_mask.py:9-63 | pointwise the mask keeps or blanks each character, and holds no quote and no comment opener |
| `SvMask.MaskIdempotent` | harness/sv_mask.py:9-63 | masking a mask changes nothing |
| `SvMask.SpliceIff` | harness/mutators/rtl.py:121-138 | masking commutes with a splice, keeping the role of every other character, if and only if the site starts in code and the rest is entered in the state the new text ends in |
| `RtlMutators.ReplaceAll` | harness/mutators/rtl.py:121-130 | the search loop yields the candidates of the specification in order |
| `RtlMutators.OneMutantPerSite` | harness/mutators/rtl.py:121-130 | one candidate per site of the mask, spliced at that site |
| `RtlMutators.MutantsAreReplacements` | harness/mutators/rtl.py:121-130 | each candidate is the source with the replacement at its site and nothing else changed |
| `RtlMutators.OnceIsFirst` | harness/mutators/rtl.py:113-118 | a hand-made operator replaces at its first site only, if there is one |
| `RtlMutators.SitesMaximal` | harness/mutators/rtl.py:121-130 | the sites do not overlap and every occurrence of the pattern starts inside one of them |
| `RtlMutators.LiteralCommutesIff` | harness/mutators/rtl.py:121-130 | a literal mutation commutes with masking exactly when the source itself reads the pattern's first and last character at the site |
| `RtlMutators.LiteralCommutes` | harness/mutators/rtl.py:113-130 | so it does whenever the source reads the whole pattern there |
| `RtlMutators.LiteralTrap` | harness/mutators/rtl.py:121-130 | for `/*c*/== b` it does not |
| `RtlMutators.LiteralChanges` | harness/mutators/rtl.py:113-130 | no literal operator of any table reproduces its input, wherever its pattern is found |
| `RtlMutators.TablesWellShaped` | harness/mutators/rtl.py:244-311 | every row of the generic table and of the three hand-made ones meets the hypotheses of the theorems, and its texts differ in length or at a visible character |
| `RtlPatterns.FindIter` | harness/mutators/rtl.py:133-138 | successive matches do not overlap, are in order, and each is a match at its own start |
| `RtlPatterns.NoMatchMissed` | harness/mutators/rtl.py:133-138 | no match is missed: every position where the pattern matches lies inside a hit |
| `RtlRegex.MatchIff` | harness/mutators/rtl.py:133-265 | the matchers of the condition and assignment patterns find exactly the spans in the language of the regular expression, of which there is at most one per start |
| `RtlRegex.MatchLongest` | harness/mutators/rtl.py:199-215 | the reset and output patterns, with their optional parts, match when some span is in the language, and then the longest |
| `RtlRegex.AssignGroups` | harness/mutators/rtl.py:152-241 | the groups of an assignment: the left-hand side, and the right-hand side after as much white space as leaves it a character |
| `RtlRegex.TokenIff` | harness/mutators/rtl.py:216-216 | a block token is `begin` or `end` between word boundaries |
| `RtlRegex.OutputNamesAre` | harness/mutators/rtl.py:199-203 | the output names are the whole names that end the matches of the output pattern |
| `RtlRewrites.ReplaceRegexAll` | harness/mutators/rtl.py:133-138 | one candidate per match of the pattern in the mask |
| `RtlRewrites.CondMutantsAre` | harness/mutators/rtl.py:133-138 | each is the source with the replacement there and nothing else changed |
| `RtlRewrites.CondCommutes` | harness/mutators/rtl.py:133-138 | inverting a condition always commutes with masking |
| `RtlRewrites.CondChanges` | harness/mutators/rtl.py:259-265 | and never reproduces its input, even when the condition contains comments |
| `RtlRewrites.BlockLoop` | harness/mutators/rtl.py:214-221 | the depth loop finds the block end of the specification |
| `RtlRewrites.BlockEndMeaning` | harness/mutators/rtl.py:206-222 | a reset block ends at the first `end` where begins and ends balance, every proper prefix being deeper, or at its start when none closes it |
| `RtlRewrites.BlockEndUnique` | harness/mutators/rtl.py:206-222 | that determines the end of the span |
| `RtlRewrites.NoTokenMissed` | harness/mutators/rtl.py:216-216 | no `begin` or `end` is missed in between |
| `RtlRewrites.SpansAreResets` | harness/mutators/rtl.py:206-226 | a position is inside a span exactly when it lies between a reset condition and the end of its branch, with or without `begin` |
| `RtlRewrites.ResetSpans` | harness/mutators/rtl.py:206-222 | one span per reset condition, with that end |
| `RtlRewrites.RewriteAll` | harness/mutators/rtl.py:141-196 | the assignment loops yield the candidates of the specification, skipped sites left out |
| `RtlRewrites.ShieldedStateIsKept` | harness/mutators/rtl.py:152-196 | every held or flipped candidate comes from an assignment that lies outside all reset branches, or targets an output |
| `RtlRewrites.OnlyResetStateIsShielded` | harness/mutators/rtl.py:174-196 | and every other constant assignment does give its flipped candidate |
| `RtlRewrites.HeldExactly` | harness/mutators/rtl.py:152-171 | the held candidates, in order, are `lhs <= lhs;` for exactly the assignments without `default:` before them on their line, whose sides differ by more than white space, outside all reset branches or to an output |
| `RtlRewrites.FlippedExactly` | harness/mutators/rtl.py:174-196 | the flipped ones are the other bit for exactly the constant assignments outside all reset branches or to an output |
| `RtlRewrites.ContinuousExactly` | harness/mutators/rtl.py:141-149 | every continuous assignment gives `assign lhs = ~(rhs);` |
| `RtlRewrites.BlockingExactly` | harness/mutators/rtl.py:229-241 | exactly the blocking assignments without `for (` or `for(` before them on their line give `lhs = ~(rhs);` |
| `RtlRewrites.BaseNameIs` | harness/mutators/rtl.py:163-163 | the base name is what stands before the first bracket, stripped |
| `RtlRewrites.LhsIsCode` | harness/mutators/rtl.py:162-169 | the copied left-hand side, comments included, starts and ends in code on its own |
| `RtlRewrites.FlipAndHoldCommute` | harness/mutators/rtl.py:152-196 | holding a register or flipping a bit always commutes with masking |
| `RtlRewrites.InvertCommutesIff` | harness/mutators/rtl.py:141-149 | inverting an assignment commutes with masking unless something follows and its stripped right-hand side ends inside a line comment or is the closing quote of a string |
| `RtlRewrites.TrailingCommentTrap` | harness/mutators/rtl.py:229-241 | it fails for every right-hand side that ends in a line comment, whatever white space precedes the semicolon |
| `RtlRewrites.CommentTrapOccurs` | harness/mutators/rtl.py:141-149 | it fails on `assign y = a // c`, newline, `;x` |
| `RtlRewrites.StringTrapOccurs` | harness/mutators/rtl.py:141-149 | it fails on `assign y = "ab";x`, whose right-hand side is read as one quote |
| `RtlRewrites.RewritesChange` | harness/mutators/rtl.py:141-241 | no held, flipped or inverted assignment reproduces its input, comments included |
| `MutantList.GenerateMutants` | harness/mutators/rtl.py:23-110 | the list is the first-occurrence filter of all operator streams in order, hand-made tables included on request, numbered by position, and none is the design itself |
| `MutantList.ListStep` | harness/mutators/rtl.py:36-48 | a further candidate is listed exactly when its source is new |
| `MutantList.NothingLeftOut` | harness/mutators/rtl.py:23-110 | the candidates of every generic operator, every hand-made one asked for, every condition and every rewrite are in the stream |
| `MutantList.ListIs` | harness/mutators/rtl.py:34-110 | the list in order: a mutant for each candidate whose source no earlier one has, with its operator, description and source, and the position in its id |
| `MutantList.MutantListProperties` | harness/mutators/rtl.py:23-110 | sources are pairwise distinct, ids are pairwise distinct and are the positions, and every candidate's source is represented |
| `MutantList.NoCandidateIsSource` | harness/mutators/rtl.py:23-110 | no candidate, of any operator, is the design itself |
| `Text.Pad3Injective` | harness/mutators/rtl.py:43-43 | zero-padded numbers determine the position, beyond three digits too |
| `Text.Pad3Is` | harness/mutators/rtl.py:43-43 | they denote the position, in at least three digits and with no needless zero |
| `Text.StripTakesSpace` | harness/mutators/rtl.py:162-162 | stripping takes white space, only at the ends, and all of it there |
| `Text.RemoveSpacesIs` | harness/mutators/rtl.py:165-165 | removing white space works character by character |
| `ModuleExtraction.FirstModule` | harness/evalmodel.py:95-100 | the chosen fenced body is the first that is one module of the expected name; none is chosen only when none is |
| `ModuleExtraction.NoModuleMissed` | harness/evalmodel.py:110-123 | no module declaration of the mask is missed: each lies inside one that is counted |
| `ModuleExtraction.AcceptedIff` | harness/evalmodel.py:78-107 | a reply is accepted exactly when its fences are paired and its first fenced body that is a module exists, or, without fences, the whole is one; the text is that, stripped, with a newline |
| `ExtractionRegex.DeclLongest` | harness/evalmodel.py:42-42 | a declaration is found exactly where the language of the pattern between word boundaries has a span, the longest, its name after the white space |
| `ExtractionRegex.InfoLongest` | harness/evalmodel.py:43-46 | what is skipped after an opening fence is the longest blank, language word, blank and line end |
| `ModuleExtraction.OneBodyPerFencePair` | harness/evalmodel.py:91-102 | the fence pattern finds one body for every two fences |
| `ModuleExtraction.NeverMalformed` | harness/evalmodel.py:101-102 | so the malformed-fence error is unreachable |
| `ModuleExtraction.AcceptedShape` | harness/evalmodel.py:78-107 | accepted text is fence-free and exactly one unmasked module of the expected name, trimmed, with a final newline |
| `ModuleExtraction.ExtractIdempotent` | harness/evalmodel.py:78-107 | extracting accepted text again returns it unchanged |
| `ModuleExtraction.ExtractRoundTrip` | harness/evalmodel.py:78-107 | wrapping a fence-free module in a systemverilog fence and extracting gives its stripped text and a newline |
| `SpendLedger.Ledger.Reserve` | harness/spend.py:157-184 | a row is added exactly when the committed total stays within the cap, and otherwise nothing changes |
| `SpendLedger.Ledger.Settle` | harness/spend.py:187-229 | the latest matching reservation becomes the actual cost, saved even when the cap is then reported as passed; every error case leaves the ledger alone |
| `SpendLedger.Ledger.Reconcile` | harness/spend.py:232-256 | the reported totals, and with write the reservations are gone and the settled rows kept |
| `SpendLedger.SettleEffect` | harness/spend.py:201-221 | a settlement succeeds exactly when the reservation is outstanding, removes one such reservation and moves its actual cost to the settled total |
| `SpendLedger.SettlementsCommute` | harness/spend.py:201-216 | two settlements commute up to row order, even when each picks the other's row |
| `SpendLedger.ReconcileEffect` | harness/spend.py:239-256 | reconciling leaves nothing reserved, keeps the settled total, and lowers the committed total by what was reserved |
| `SpendLedger.ReconcileSplits` | harness/spend.py:239-256 | removed and kept rows together are the rows there were |
| `SpendProtocol.StepKeepsInv` | harness/spend.py:157-256 | every allowed step of any worker succeeds and keeps the invariant: outstanding reservations are exactly those of workers in flight or crashed, and those that an uncaught exception gave up |
| `SpendProtocol.SettlementsNeverFail` | harness/providers/_base.py:53-115 | in every state of every run no settlement fails to find its reservation |
| `SpendProtocol.ReconcileSafeIff` | harness/spend.py:232-256 | in every reachable state, after reconciling no enabled step of any worker fails exactly when no call was in flight |
| `SpendProtocol.CountersMatchLedger` | harness/providers/_base.py:84-104 | the settled total has risen by exactly what the workers' counters have settled |
| `SpendProtocol.ExcessIsOverrun` | harness/spend.py:173-228 | what is committed beyond the cap is at most the sum of the overruns |
| `SpendProtocol.CapIsSafe` | harness/spend.py:173-228 | with actual costs within reservations, committed spend never passes the cap, crashes and reconciliations included |
| `SpendProtocol.ReserveOnlyUnderCap` | harness/spend.py:173-184 | over any run, no reservation is added while the committed total stays over the cap, and right after any grant the total is within it |
| `Providers.WorstCaseCovers` | harness/providers/pricing.py:93-111 | a call within its token estimates costs at most its reservation |
| `Providers.OneTokenPerCharacter` | harness/providers/pricing.py:93-95 | the byte-count estimate is at least one and at most four tokens per character |
| `Providers.PricedProvider.BeginCall` | harness/providers/_base.py:53-82 | the refusals in order, each without a ledger change, or one reservation of the worst case |
| `Providers.PricedProvider.FinishCall` | harness/providers/_base.py:84-104 | counters move first, then the reservation is settled; both survive a cap error |
| `Providers.PricedProvider.ReleaseCall` | harness/providers/_base.py:106-115 | the reservation is settled at zero |
| `Providers.PricedProvider.GenerateAnthropic` | harness/providers/anthropic.py:35-93 | an attempt reserves nothing and changes nothing, or its reservation becomes one settled row whose cost the counter rose by, or stays as it is when the reply is an exception the adapter does not catch |
| `Providers.PricedProvider.GenerateOpenAI` | harness/providers/openai.py:35-105 | the same, through every empty-reply branch |
| `Providers.PricedProvider.LeaksIff` | harness/providers/anthropic.py:83-85 | an attempt that reserved leaves its reservation outstanding exactly when its reply is such an exception |
| `Providers.PricedProvider.OpenAIBilling` | harness/providers/openai.py:60-105 | on the fields of a reply: it is billed tokens times prices exactly when its usage is there and not negative and its choices are empty or the first has a message that is null or text; every other one that does not escape releases at zero |
| `Providers.PricedProvider.AnthropicBilling` | harness/providers/anthropic.py:55-93 | the same: exactly when its content is a list and its usage is there and not negative |
| `Providers.JoinedIs` | harness/providers/anthropic.py:59-64 | the text of a reply is its text blocks in order |
| `Providers.PricedProvider.GrantedIff` | harness/providers/_base.py:53-82 | a reservation is granted exactly for the adapter's model, a positive limit, a key, a sound ledger and a worst case that fits: a token per byte, 64 more, and the limit, at the prices |
| `Providers.PricedProvider.RetriedIff` | harness/providers/retry.py:41-49 | another attempt follows only a transport failure that may pass or a billed blank reply within the cap |
| `Providers.PricedProvider.GenerateWithRetry` | harness/providers/retry.py:27-49 | the ledger rose by what the counter rose by, billed empty replies included; outstanding grew by the one reservation of the last attempt when its reply escaped, else not at all; a retryable error comes out only after the last attempt, and only transient failures and billed blank replies are followed by another |
| `Providers.DroppedConnection` | harness/providers/_http.py:40-63 | a dropped connection leaves its reservation in the ledger of a process that goes on |
| `Providers.SettleOwn` | harness/spend.py:201-216 | with nobody else writing, a settlement finds the row its own call appended |
| `SpendAdapters.BeginIsStep` | harness/providers/_base.py:53-82 | asking for a reservation is the step Begin of the protocol, granted exactly where the adapter gets it |
| `SpendAdapters.RestIsSteps` | harness/providers/anthropic.py:83-93 | the rest of an attempt is Release, Escape, or Bill and Settle by its reply, and leaves the adapter's row and counter |
| `SpendAdapters.SettlementIsStep` | harness/spend.py:187-228 | in every reachable state, whatever other workers did, an adapter's settlement is the step Settle or Release and raises nothing but the cap error |
| `SpendAdapters.AdaptersKeepCap` | harness/providers/pricing.py:93-111 | when every reply bills within its token estimates, no interleaving of attempts, crashes, escaping exceptions and reconciliations takes committed spend past the cap |
| `EvalFlows.CallProvider` | harness/evalmodel.py:784-830 | one provider call with its usage read before and after, every failure folded into a record |
| `EvalTypes.OneSampleAgrees` | harness/evalmodel.py:525-680 | the pending record and the sidecar carry all that scoring one sample needs |
| `EvalTypes.RecordsValidTogether` | harness/schemas/pending.py:73-86 | the pending record and the manifest of an attempt satisfy their schemas under the same condition |
| `EvalFlows.GenerateModelSamples` | harness/evalmodel.py:358-486 | the generate phase performs the specified calls and writes exactly those records and sidecars |
| `EvalFlows.EvalModel` | harness/evalmodel.py:166-354 | the combined loop leaves the specified manifests, sidecars and summary |
| `EvalScores.SampleRecorded` | harness/evalmodel.py:215-308 | on provider, extractor and scorer alone: a usable generation gets the scorer's own score, figure and stages, or 0 when it raises; every other one and every skipped sample gets 0; with its usage, finish reason and sidecar |
| `EvalScores.ErrorScoresZero` | harness/evalmodel.py:960-972 | so a manifest with an error or a skip reason has score and figure 0 |
| `EvalScores.CampaignRecorded` | harness/evalmodel.py:208-333 | over a whole campaign, sample after sample, from the states it starts in to those it ends in |
| `EvalScores.StoppedIff` | harness/evalmodel.py:810-815 | a campaign stops at a sample exactly at a reached spend cap or an empty finish or skip reason |
| `EvalScores.PublishedMeans` | harness/evalmodel.py:310-345 | a task's mean is the sum of its scores over their number, the aggregate that of all samples of unskipped tasks |
| `EvalScores.ScoredFromFiles` | harness/evalmodel.py:531-632 | on the fields of a record: where the score phase stops, and otherwise what it records |
| `EvalTwoPhase.ScorePendingSamples` | harness/evalmodel.py:491-680 | the score phase leaves the specified manifests and summary without touching the provider |
| `EvalFission.RunFission` | harness/evalmodel.py:525-680 | scoring the records of any prefix of a campaign gives the combined loop's rows, or stops where a scorer raised |
| `EvalTwoPhase.PhasesAgree` | harness/evalmodel.py:358-680 | over a whole campaign, scoring what was generated gives the combined loop's manifests, provider and skip decisions, exactly when no scorer raised |
| `EvalTwoPhase.TwoPhase` | harness/evalmodel.py:358-680 | generating and then scoring leaves provider, sidecars, manifests and summary as the combined loop would |
| `SiteSummary.CallConserves` | harness/evalmodel.py:784-902 | the usage recorded for a call is what the counters rose by, failures included |
| `SiteSummary.UsageConserved` | harness/evalmodel.py:310-352 | per-sample deltas telescope: the summary totals are final minus initial usage |
| `SiteSummary.LoadSummary` | site/generate.py:200-329 | the accumulating loops decide exactly the signature, identity and recomputation checks |
| `SiteSummary.EmittedSummaryLoads` | site/generate.py:200-329 | every signed summary a campaign emits, next to its manifests, passes them all |
| `SiteSummary.LoadedMatches` | site/generate.py:200-290 | what a summary that loads says of its tasks, samples and the manifests they point to |
| `SiteSummary.LoadedIsDetermined` | site/generate.py:200-329 | the files decide every number of a summary that loads: changing a score, mean, total or the aggregate is refused |
| `SitePublish.Publisher.GenerateSite` | site/generate.py:167-189 | cut off at any file operation, the disk is that of the same prefix of the operation list |
| `SitePublish.CutCases` | site/generate.py:167-189 | every disk a cut run can leave, by where it was cut |
| `SitePublish.LiveIsAlwaysComplete` | site/generate.py:167-189 | over any sequence of cut runs the live path is absent or a complete site |
| `SitePublish.OneCutIsSafe` | site/generate.py:176-189 | from a complete live site, one cut anywhere leaves a complete site live or in previous |
| `SitePublish.FullRunPublishes` | site/generate.py:167-189 | an uninterrupted run from any disk ends with exactly the new site |
| `SitePublish.TwoCutsIff` | site/generate.py:167-189 | two runs cut at any two points leave no complete site exactly when the first was cut between its renames and the second between starting to remove previous and promoting |
| `SitePublish.TwoCutsCanLoseBoth` | site/generate.py:181-187 | so two cuts in a row can lose both |
| `SimStage.SimPassesIff` | harness/runner.py:237-244 | a simulation passes exactly when it was set up, exited cleanly, ran tests, and none failed or was skipped, by stated counts or else case by case |
| `SimStage.CountsCancel` | harness/runner.py:394-414 | that takes counts that are not negative: otherwise they can cancel |
| `TrackB.RunTrackB` | harness/trackb.py:92-239 | the gate machine writes the manifest given by the gate conditions, or none |
| `TrackB.RunVerdict` | harness/trackb.py:124-190 | every gate verdict, the score and the disqualification of a written manifest, on what the tools answered |
| `TrackB.ObjectiveOnRecord` | harness/trackb.py:545-574 | on the written record: a judged timing objective passes exactly at the recorded slack, an area or power objective exactly at a nonnegative slack and a recorded ratio of at most one less the demanded reduction |
| `TrackB.SmallerIsNoWorse` | harness/trackb.py:545-574 | shrinking area or power never loses a pass |
| `TrackB.RunGates` | harness/trackb.py:141-188 | the lint, simulation, equivalence and objective gates record the stages and verdicts of the gate conditions |
| `TrackB.RunObjective` | harness/trackb.py:545-574 | the verdict is that of the objective on what was measured; it raises exactly when measured and malformed |
| `TrackB.PpaDelta` | harness/trackb.py:598-604 | the recorded ratios, absent over a zero baseline |
| `TrackB.HiddenDisqualificationReason` | harness/trackb.py:386-390 | the last log line with the prefix, or the stock line |
| `TrackB.HiddenReason` | harness/trackb.py:386-390 | always a nonempty reason with the prefix, as the schema demands |
| `TrackB.HiddenReasonIsLast` | harness/trackb.py:386-390 | it is the last line with the prefix, or the stock line when there is none |
| `TrackB.WritesManifestIff` | harness/schemas/manifest_b.py:120-128 | given the tools' verdicts, a run writes a manifest exactly when its objective is supported and complete and no metric is negative; no other schema rule rejects it |
| `TrackB.ProducerAcceptedIff` | harness/trackb.py:242-383 | the validator accepts what a run writes, except exactly the late hidden-test disqualifications |
| `TrackB.LateHiddenOccurs` | harness/trackb.py:165-167 | such a run exists for every task |
| `TrackB.AcceptedScore` | harness/trackb.py:252-356 | an accepted manifest scores 100 exactly when every required gate passed, and otherwise 0 |
| `TrackB.ValidatorIsExact` | harness/trackb.py:268-383 | among manifests not disqualified, the validator accepts exactly a coherent PPA record with a trace some run records, or the skipped-check trace |
| `TrackB.SecSkipIsNotProduced` | harness/trackb.py:298-308 | and no run records that trace |
| `TrackB.SecSkipOccurs` | harness/trackb.py:298-308 | and an accepted manifest with it exists for every task that requires the check |
| `PackageTree.GuardPassesIff` | harness/trackb.py:472-515 | the guard passes exactly when the one design file is acceptable, every immutable entry is unchanged, and nothing else is at the top |
| `PackageTree.OnlyModulesBlamedIff` | harness/trackb.py:472-515 | the guard's answer concerns at most the module declarations exactly when the one design file has an acceptable name and size, and either its modules are rejected or the rest is as it must be |
| `PackageTree.EntryMatches` | harness/trackb.py:491-510 | one immutable entry passes exactly when the same files with the same bytes are below it |
| `PackageTree.ResolvedIsInside` | harness/agentb.py:402-410 | a path the sandbox resolves has no component that steps outside the root |
| `PackageTree.ResolvesText` | harness/agentb.py:402-410 | every path of plain components below the root is what its own text resolves to |
| `PackageTree.UpAgain` | harness/agentb.py:402-410 | going into a directory and up again is staying |
| `AgentB.Sandbox.ExecuteAction` | harness/agentb.py:313-399 | the file tree, the answer and the end flag after any action |
| `AgentB.Sandbox.RunAgentTask` | harness/agentb.py:94-186 | the loop visits the states of the specification, for any provider, clock and actions |
| `AgentB.ActionIff` | harness/agentb.py:287-310 | an action is accepted exactly when it is written as one JSON object with its own fields and no other, a path to read not being empty |
| `AgentB.StepRecords` | harness/agentb.py:94-186 | what one turn leaves: the counted call, the transcript entry and the sandbox |
| `AgentB.WriteMeaning` | harness/agentb.py:348-355 | a write that can be encoded in at most 256 KiB and has one design file stores that text there and nothing else; any other changes nothing |
| `AgentB.ReadMeaning` | harness/agentb.py:326-346 | a read is answered with the text of the file below design/ that the path resolves to, and otherwise rejected |
| `AgentB.ListMeaning` | harness/agentb.py:323-324 | a listing names exactly the files below design/ |
| `AgentB.LastWriteWins` | harness/agentb.py:94-186 | if no tool run of a run changed the sandbox, it ends as the package with the last carried-out write in its design file |
| `AgentB.AllowanceIsLargest` | harness/agentb.py:103-118 | a call is allowed the most output up to 16384 tokens that fits the budget with what was used and the prompt's estimate, or one token |
| `AgentB.WithinBudget` | harness/agentb.py:94-186 | at most the budgeted calls are counted, and ending on done means tokens, calls and time are strictly under budget; a run that ends at a limit names the first one reached, time before tokens before calls |
| `AgentB.TokenBound` | harness/agentb.py:103-118 | for any provider, every call starts under the token budget; if the last one stays within its estimate and allowance, the run ends at most at the budget, or at that call's start plus its estimate plus one |
| `AgentB.Estimate` | harness/agentb.py:457-467 | the least positive integer that is at least a third of the length |
| `AgentB.ExecuteKeepsSandbox` | harness/agentb.py:313-399 | no action changes anything but the design file, given the same of the tool run it may start, and a read is answered only from below design/ |
| `AgentB.EditedPassesIff` | harness/validation.py:57-73 | with only the design edited, the guard's answer is that of the module declarations alone |
| `AgentB.SandboxSafety` | harness/agentb.py:77-186 | whatever a provider asks for, the sandbox of a canonical package differs from it only in the design file throughout a run exactly when every tool run of that run wrote nothing else; then reads come only from below design/ and the guard can blame only module declarations |
| `AgentB.StrayFileRejected` | harness/trackb.py:496-502 | otherwise it may blame more: one stray file below an immutable directory makes the guard reject a design it would have passed |
| `AgentB.CrashIff` | harness/agentb.py:94-186 | the loop ends by raising exactly when the counter is unreadable at its first check or some call it makes raises what it does not catch, and that call is its last |
| `AgentB.CrashOccurs` | harness/agentb.py:287-298 | it does so for a reply nested too deep to read and for one whose tool name is a list |
| `TrackAScore.PpaIsTheCubeRoot` | harness/scoring.py:47-55 | the figure is the unique positive cube root of the product of ratios |
| `TrackAScore.ImprovementRaises` | harness/scoring.py:47-55 | improving one metric and worsening none raises it strictly |
| `TrackAScore.ReferenceScores` | harness/scoring.py:47-110 | the reference itself has figure 1 and score 100/1.5 |
| `TrackAScore.ScoreOrder` | harness/scoring.py:107-110 | the score grows with the figure, strictly below the cap, within 0 and 100 |
| `TrackAScore.FullScoreIff` | harness/scoring.py:107-110 | a design gets 100 exactly when its product of ratios is at least 27/8 |
| `TrackAScore.DelayDetermined` | harness/scoring.py:34-55 | with equal area and power, two designs have the same figure exactly when their delays are equal |
| `TrackA.RunPpaFlows` | harness/runner.py:436-525 | each physical stage passes exactly on valid metrics, and a full pass logs nothing invalid |
| `TrackA.RunStages` | harness/runner.py:549-618 | the stage chain for all tool verdicts |
| `TrackA.RunTask` | harness/runner.py:528-686 | the manifest given by the verdicts, or none |
| `TrackA.CorrectnessVerdicts` | harness/runner.py:549-595 | lint, simulation and formal verdicts on what the tools reported |
| `TrackA.PhysicalVerdicts` | harness/runner.py:436-525 | each physical stage passes exactly on finite metrics in range, which it records |
| `TrackA.RunScore` | harness/runner.py:615-640 | the figure and score on the recorded stages: the positive cube root of the product of ratios, and its share of 1.5 |
| `TrackA.OutcomeIsValid` | harness/schemas/manifest.py:76-205 | given the tools' verdicts, every manifest a run builds satisfies every schema rule; a run raises only for want of a reference after everything passed |
| `TrackA.SchemaMeans` | harness/schemas/manifest.py:76-205 | seven stages in order, each passed one with exactly its metrics in range and every other with none, zero scores where a gate failed, and the signature |
| `TrackA.RescoredIsValid` | scripts/rescore_official.py:161-165 | the re-scorer's final validation never fails |
| `TrackA.RescoreSucceedsIff` | scripts/rescore_official.py:128-165 | re-scoring succeeds on exactly the valid manifests with a failed gate or a usable reference |
| `TrackA.CheckerAcceptsFixedPoints` | harness/scoring.py:142-178 | the checker accepts exactly the manifests re-scoring leaves unchanged, and returns their score |
| `TrackA.CheckerMeans` | harness/scoring.py:142-178 | it accepts a manifest of the schema exactly when all gates passed and figure and score are those of the recorded metrics, or some gate did not and both are 0 |
| `TrackA.RescoredMeans` | scripts/rescore_official.py:128-181 | what re-scoring changes: figure, score and signature, and the three physical stages when their metrics are not physical |
| `TrackA.RescoreIdempotent` | scripts/rescore_official.py:128-165 | re-scoring twice is re-scoring once, and its result is accepted |
| `TrackA.ProducerAcceptedIff` | harness/runner.py:615-640 | a fresh manifest is accepted, and unchanged by the re-scorer, exactly when a gate failed or the reference has the clock of the run |
| `TrackA.Raw.RescoreManifest` | scripts/rescore_official.py:128-165 | the in-place re-scorer computes that result, and changes nothing when it raises |
| `TrackA.Raw.FailInvalidPpaStages` | scripts/rescore_official.py:168-181 | the three physical stages lose status and metrics, every other stage is untouched |

## Left out

- RtlPatterns.FindIter: letters, digits and white space are the ASCII ones; the backtracking engine is library code, and a pattern here is its language with the choices a greedy match makes.
- SpendLedger.Ledger.Settle: amounts are exact integers, so the 1e-12 match tolerance is equality; file locking is the atomicity of a step.
- SpendLedger.Ledger.Reserve: malformed ledger files, the default cap and the total recomputed on save are not modelled beyond negative rows.
- Providers.PricedProvider.GenerateWithRetry: the ledger has no other writer during one call; interleaving is the subject of SpendProtocol.  Sleeping has no effect.
- Providers.PricedProvider.LeaksIff: token counts near the range of a float, whose cost overflows or is infinite, also leave the reservation; costs here are exact integers, so such replies are read as settled.
- Providers.PricedProvider.GenerateAnthropic: HTTP, keys, headers and temperature support are inputs; crashes of the process are in SpendProtocol.
- EvalTwoPhase.ScoreSample: a missing or altered sidecar and a raising scorer are one failure; the signature of a pending record is not modelled.
- EvalTwoPhase.TwoPhase: timestamps and wall clock are left out; manifest signatures are compared, and they do not cover those two fields (harness/schemas/canonical_json.py:16).  Summary signatures are left out, and the cost estimate differs between the flows.
- SiteSummary.LoadSummary: means and totals are exact instead of within 1e-9, a manifest is looked up by its relative path, and prompt version, timestamp format and badges are left out.
- SitePublish.Publisher.GenerateSite: the artifacts are one flat list; a rename is one step, and durability of writes is not modelled.
- TrackB.RunTrackB: hidden-module hash and count, provenance and review fields, wall clock and the sandbox copy are left out; metrics are finite reals and ratios are compared exactly.
- TrackB.ValidatorIsExact: it says nothing about disqualified manifests, for which only skipped stages are checked.
- PackageTree.GuardPassesIff: reading a source and its module declarations is one abstract check; symbolic links do not occur, because a package copy resolves them.
- AgentB.Sandbox.RunAgentTask: parsing and rendering JSON, UTF-8 and the tool runs are functions of the world; the sandbox root is a real path.
- TrackB.WritesManifestIff: tool runs that raise, such as one whose results file is unreadable, are not among the verdicts.
- TrackA.OutcomeIsValid: likewise, a raising tool run is not among the verdicts.
- TrackA.RunTask: hashes, provenance and hidden-test fields are one opaque string; numbers written as JSON strings do not occur.
- TrackAScore.PpaIsTheCubeRoot: arithmetic is exact; the cube root is any function with the defining property, and floating-point rounding is not modelled.
- The aggregate of official re-scoring (scripts/rescore_official.py:57-125) is left out: it only sums rescored manifests and compares constants.
- `harness/providers/openrouter.py` is left out: the same protocol as the OpenAI adapter.
- Tool wrappers, report parsing, command lines, tables and HTML are left out.
