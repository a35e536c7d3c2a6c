/** The Track B agent driver of harness/agentb.py: a budgeted loop over whatever actions a
    provider asks for, each carried out in a sandbox copy of a task package. */
module AgentB {
  import opened Wrappers
  import opened PackageTree

  const PER_CALL_MAX_OUTPUT_TOKENS: nat := 16384

  datatype Budget = Budget(tokens: nat, wallClock: real, toolCalls: nat)

  datatype Limit = TokenLimit | WallClockLimit | ToolCallLimit

  // ----- Actions -----

  datatype Json = Object(fields: map<string, Json>) | Words(text: string) | List(items: seq<Json>) | Scalar

  datatype Action =
    | ListFiles
    | ReadFile(path: string)
    | WriteDesign(content: string)
    | Lint
    | Simulate
    | SynthSta
    | Done

  /** What `json.loads` does: nesting too deep for it raises RecursionError, which the loop does
      not catch. */
  datatype Reading = NotJson | Json(json: Json) | ReadingEscapes

  /** Raises: an error the loop does not handle. */
  datatype Checked = Accepted(action: Action) | Refused | Raises

  predicate KeysAre(j: Json, keys: set<string>) {
    j.Object? && j.fields.Keys == keys
  }

  function Plain(j: Json, action: Action): Checked {
    if KeysAre(j, {"tool"}) then Accepted(action) else Refused
  }

  /** `validate_action`.  The tool name is looked up in a dict, so a list or an object there
      is a TypeError, which the loop does not catch either. */
  function ValidateAction(reading: Reading): Checked {
    if reading.ReadingEscapes? then Raises
    else if reading.NotJson? || !reading.json.Object? || "tool" !in reading.json.fields then Refused
    else
      var j := reading.json;
      match j.fields["tool"]
      case List(_) => Raises
      case Object(_) => Raises
      case Scalar => Refused
      case Words(tool) =>
        if tool == "list_files" then Plain(j, ListFiles)
        else if tool == "sb_lint" then Plain(j, Lint)
        else if tool == "sb_sim" then Plain(j, Simulate)
        else if tool == "sb_synth_sta" then Plain(j, SynthSta)
        else if tool == "done" then Plain(j, Done)
        else if tool == "read_file" then
          if KeysAre(j, {"tool", "path"}) && j.fields["path"].Words? && j.fields["path"].text != ""
          then Accepted(ReadFile(j.fields["path"].text)) else Refused
        else if tool == "write_design" then
          if KeysAre(j, {"tool", "content"}) && j.fields["content"].Words?
          then Accepted(WriteDesign(j.fields["content"].text)) else Refused
        else Refused
  }

  /** How an action is written. */
  function ActionJson(action: Action): Json {
    match action
    case ListFiles => Object(map["tool" := Words("list_files")])
    case ReadFile(path) => Object(map["tool" := Words("read_file"), "path" := Words(path)])
    case WriteDesign(content) => Object(map["tool" := Words("write_design"), "content" := Words(content)])
    case Lint => Object(map["tool" := Words("sb_lint")])
    case Simulate => Object(map["tool" := Words("sb_sim")])
    case SynthSta => Object(map["tool" := Words("sb_synth_sta")])
    case Done => Object(map["tool" := Words("done")])
  }

  /** An action is accepted exactly when it is written like that, with no further field, and the
      path to read, if there is one, is not empty. */
  lemma ActionIff(reading: Reading, action: Action)
    ensures ValidateAction(reading) == Accepted(action) <==>
            reading == Reading.Json(ActionJson(action)) && (action.ReadFile? ==> action.path != "")
  {
    if reading.Json? && reading.json.Object? && "tool" in reading.json.fields {
      var fields := reading.json.fields;
      OneField(fields, "tool");
      TwoFields(fields, "tool", "path");
      TwoFields(fields, "tool", "content");
    }
  }

  lemma OneField(fields: map<string, Json>, a: string)
    requires a in fields
    ensures fields.Keys == {a} <==> fields == map[a := fields[a]]
  {
  }

  lemma TwoFields(fields: map<string, Json>, a: string, b: string)
    requires a in fields && a != b
    ensures fields.Keys == {a, b} ==> fields == map[a := fields[a], b := fields[b]]
    ensures forall x :: fields == map[a := fields[a], b := x] ==> fields.Keys == {a, b} && fields[b] == x
  {
  }

  // ----- The world around the loop -----

  datatype Reply = Answer(raw: string) | CapExceeded | Broken

  datatype Observation =
    | Listed(paths: set<Path>)
    | Content(text: string)
    | Wrote(path: Path)
    | Finished
    | Ran(report: string)
    | Rejected
    | BudgetExceeded
    | ProviderError

  datatype Turn = Turn(reply: Reply, action: Option<Action>, observation: Observation)

  /** A tool run: its report, an error the loop turns into a rejection, or one it does not
      catch, such as a results file that is not XML. */
  datatype ToolRun = Report(text: string) | Fails | RunEscapes

  /** An arbitrary stateful provider with its token counter (None when it is malformed and
      reading it raises), an arbitrary clock read at every limit check, and the library calls:
      JSON, UTF-8 and prompt rendering.  A tool run may leave anything behind in the sandbox,
      since it simulates the agent's own design there. */
  datatype World<!S> = World(
    parse: string -> Reading,
    encode: string -> Option<Bytes>,
    decode: Bytes -> Option<string>,
    tool: (Action, Tree, nat) -> (Tree, ToolRun),
    clock: nat -> real,
    promptLength: seq<Turn> -> nat,
    tokens: S -> Option<nat>,
    generate: (S, seq<Turn>, nat) -> (S, Reply))

  // ----- One action -----

  /** What the agent sees and whether it is done; or an exception that leaves the loop. */
  datatype Outcome = Seen(observation: Observation, done: bool) | Escapes

  const REJECTED := Seen(Rejected, false)

  predicate IsToolRun(action: Action) {
    action.Lint? || action.Simulate? || action.SynthSta?
  }

  /** `execute_action`: the tree afterwards and the outcome. */
  function Execute<S>(w: World<S>, root: Path, t: Tree, action: Action, call: nat): (Tree, Outcome) {
    match action
    case ListFiles =>
      (t, Seen(Listed(if IsDirectory(t, ["design"]) then FilesBelow(t, ["design"]) else {}), false))
    case ReadFile(path) =>
      var p := SandboxPath(root, path);
      if p.None? || !(["design"] <= p.value) || !IsFile(t, p.value)
         || w.decode(t[p.value].bytes).None? then (t, REJECTED)
      else (t, Seen(Content(w.decode(t[p.value].bytes).value), false))
    case WriteDesign(content) =>
      var bytes := w.encode(content);
      if bytes.None? || |bytes.value| > MAX_SOURCE_BYTES || |SvFiles(t)| != 1 then (t, REJECTED)
      else
        var p := Only(SvFiles(t));
        if t[p].Directory? then (t, REJECTED) else (t[p := File(bytes.value)], Seen(Wrote(p), false))
    case Done => (t, Seen(Finished, true))
    case _ =>
      if |SvFiles(t)| != 1 then (t, REJECTED)
      else
        var (after, report) := w.tool(action, t, call);
        (after, match report
                case Report(text) => Seen(Ran(text), false)
                case Fails => REJECTED
                case RunEscapes => Escapes)
  }

  /** The design file that a write goes to, if its text can be encoded in at most 256 KiB. */
  ghost predicate Writable<S>(w: World<S>, t: Tree, content: string, p: Path) {
    w.encode(content).Some? && |w.encode(content).value| <= 262144 && SvFiles(t) == {p} && IsFile(t, p)
  }

  /** A write that can be done stores that text in the one design file and changes nothing else;
      any other is rejected and changes nothing. */
  lemma WriteMeaning<S>(w: World<S>, root: Path, t: Tree, content: string, call: nat)
    ensures forall p :: Writable(w, t, content, p) ==>
              Execute(w, root, t, WriteDesign(content), call) ==
              (t[p := File(w.encode(content).value)], Seen(Wrote(p), false))
    ensures !(exists p :: Writable(w, t, content, p)) ==>
              Execute(w, root, t, WriteDesign(content), call) == (t, REJECTED)
  {
    if |SvFiles(t)| == 1 {
      OneDesign(t);
      assert SvFiles(t) == {Only(SvFiles(t))};
      assert IsFile(t, Only(SvFiles(t))) && w.encode(content).Some? && |w.encode(content).value| <= 262144 ==>
          Writable(w, t, content, Only(SvFiles(t)));
    }
  }

  /** The file a path names: it resolves to a file below design/ that decodes to the text. */
  ghost predicate Readable<S>(w: World<S>, root: Path, t: Tree, path: string, text: string) {
    var p := SandboxPath(root, path);
    p.Some? && ["design"] <= p.value && IsFile(t, p.value) && w.decode(t[p.value].bytes) == Some(text)
  }

  /** A read is answered with the text of such a file; any other is rejected.  No read changes
      anything. */
  lemma ReadMeaning<S>(w: World<S>, root: Path, t: Tree, path: string, call: nat)
    ensures forall text :: Readable(w, root, t, path, text) ==>
              Execute(w, root, t, ReadFile(path), call) == (t, Seen(Content(text), false))
    ensures !(exists text :: Readable(w, root, t, path, text)) ==>
              Execute(w, root, t, ReadFile(path), call) == (t, REJECTED)
  {
    hide SandboxPath;
    var p := SandboxPath(root, path);
    if p.Some? && ["design"] <= p.value && IsFile(t, p.value) && w.decode(t[p.value].bytes).Some? {
      assert Readable(w, root, t, path, w.decode(t[p.value].bytes).value);
    }
  }

  /** Listing names exactly the files below design/, and changes nothing. */
  lemma ListMeaning<S>(w: World<S>, root: Path, t: Tree, call: nat)
    ensures var (after, outcome) := Execute(w, root, t, ListFiles, call);
            && after == t && outcome.Seen? && !outcome.done && outcome.observation.Listed?
            && forall p :: p in outcome.observation.paths <==>
                 IsDirectory(t, ["design"]) && ["design"] < p && IsFile(t, p)
  {
  }

  // ----- The loop, as a function -----

  function Max(x: int, y: int): int {
    if x < y then y else x
  }

  /** `_estimate_prompt_tokens` of a prompt of n characters: a third, rounded up. */
  function Estimate(n: nat): (e: nat)
    ensures e >= 1 && 3 * e >= n
    ensures e > 1 ==> 3 * (e - 1) < n
  {
    Max(1, (n + 2) / 3)
  }

  datatype Check = Clear | Fires(limit: Limit) | UsageRaises

  /** `_fired_limit`; reading a malformed token counter raises. */
  function Fired<S>(w: World<S>, b: Budget, s: S, calls: nat, checks: nat): Check {
    if w.clock(checks) >= b.wallClock then Fires(WallClockLimit)
    else if w.tokens(s).None? then UsageRaises
    else if w.tokens(s).value >= b.tokens then Fires(TokenLimit)
    else if calls >= b.toolCalls then Fires(ToolCallLimit)
    else Clear
  }

  /** The loop's variables: the provider, the sandbox, the transcript, the counted calls, and
      how often the limits have been checked. */
  datatype Config<!S> = Config(s: S, tree: Tree, transcript: seq<Turn>, calls: nat, checks: nat)

  datatype End = LimitFired(limit: Limit) | CapReached | ProviderFailed | AgentDone | Crashed

  function MaxTokens<S>(w: World<S>, b: Budget, c: Config<S>): nat
    requires w.tokens(c.s).Some?
  {
    var remaining := Max(b.tokens - w.tokens(c.s).value, 1);
    var allowance := Max(remaining - Estimate(w.promptLength(c.transcript)), 1);
    if allowance < PER_CALL_MAX_OUTPUT_TOKENS then allowance else PER_CALL_MAX_OUTPUT_TOKENS
  }

  /** How the loop ends at a limit check, if it does. */
  function Ending(check: Check): Option<End> {
    match check
    case Clear => None
    case Fires(limit) => Some(LimitFired(limit))
    case UsageRaises => Some(Crashed)
  }

  function Close<S>(w: World<S>, b: Budget, c: Config<S>, done: bool): (Config<S>, Option<End>) {
    var end := Ending(Fired(w, b, c.s, c.calls, c.checks));
    (c.(checks := c.checks + 1), if end.Some? then end else if done then Some(AgentDone) else None)
  }

  /** Acting on one reply, its call already counted. */
  function Act<S>(w: World<S>, root: Path, b: Budget, c: Config<S>, raw: string): (Config<S>, Option<End>) {
    match ValidateAction(w.parse(raw))
    case Raises => (c, Some(Crashed))
    case Refused => Close(w, b, c.(transcript := c.transcript + [Turn(Answer(raw), None, Rejected)]), false)
    case Accepted(action) =>
      var (tree, outcome) := Execute(w, root, c.tree, action, c.calls);
      if outcome.Escapes? then (c.(tree := tree), Some(Crashed))
      else
        var turn := Turn(Answer(raw), Some(action), outcome.observation);
        Close(w, b, c.(tree := tree, transcript := c.transcript + [turn]), outcome.done)
  }

  /** One turn of the loop: where it leads, and how it ends if it does. */
  function Step<S>(w: World<S>, root: Path, b: Budget, c: Config<S>): (r: (Config<S>, Option<End>))
    ensures r.1.None? ==> c.calls < b.toolCalls && r.0.calls == c.calls + 1 && w.tokens(r.0.s).Some?
  {
    var check := Fired(w, b, c.s, c.calls, c.checks);
    var begun := c.(checks := c.checks + 1);
    if check != Clear then (begun, Ending(check))
    else
      var (s, reply) := w.generate(c.s, c.transcript, MaxTokens(w, b, c));
      match reply
      case CapExceeded =>
        (begun.(s := s, transcript := c.transcript + [Turn(reply, None, BudgetExceeded)]), Some(CapReached))
      case Broken =>
        (begun.(s := s, transcript := c.transcript + [Turn(reply, None, ProviderError)]), Some(ProviderFailed))
      case Answer(raw) =>
        Act(w, root, b, begun.(s := s, calls := c.calls + 1), raw)
  }

  /** What a turn leaves in the transcript: one entry with the reply, the action it was read as
      and what came of it, unless it raises before there is an answer; and a refused reply
      changes neither sandbox nor anything else. */
  lemma StepRecords<S>(w: World<S>, root: Path, b: Budget, c: Config<S>)
    requires Fired(w, b, c.s, c.calls, c.checks) == Clear
    ensures w.tokens(c.s).Some?
    ensures var (s, reply) := w.generate(c.s, c.transcript, MaxTokens(w, b, c));
            var (next, end) := Step(w, root, b, c);
            && next.s == s
            && (match reply
                case CapExceeded =>
                  && end == Some(CapReached) && next.calls == c.calls && next.tree == c.tree
                  && next.transcript == c.transcript + [Turn(reply, None, BudgetExceeded)]
                case Broken =>
                  && end == Some(ProviderFailed) && next.calls == c.calls && next.tree == c.tree
                  && next.transcript == c.transcript + [Turn(reply, None, ProviderError)]
                case Answer(raw) =>
                  && next.calls == c.calls + 1
                  && match ValidateAction(w.parse(raw))
                     case Raises => next.tree == c.tree && next.transcript == c.transcript
                     case Refused =>
                       next.tree == c.tree && next.transcript == c.transcript + [Turn(reply, None, Rejected)]
                     case Accepted(action) =>
                       var (tree, outcome) := Execute(w, root, c.tree, action, c.calls + 1);
                       && next.tree == tree
                       && next.transcript ==
                          if outcome.Escapes? then c.transcript
                          else c.transcript + [Turn(reply, Some(action), outcome.observation)])
  {
    hide Execute, ValidateAction, MaxTokens;
  }

  function Run<S>(w: World<S>, root: Path, b: Budget, c: Config<S>): (Config<S>, End)
    requires c.calls <= b.toolCalls
    decreases b.toolCalls - c.calls
  {
    var (next, end) := Step(w, root, b, c);
    if end.Some? then (next, end.value) else Run(w, root, b, next)
  }

  // ----- The imperative driver -----

  class Sandbox {
    const root: Path
    var tree: Tree

    /** `shutil.copytree` of the package. */
    constructor (root: Path, package: Tree)
      ensures this.root == root && tree == package
    {
      this.root, tree := root, package;
    }

    method ExecuteAction<S>(w: World<S>, action: Action, call: nat) returns (outcome: Outcome)
      modifies this
      ensures (tree, outcome) == Execute(w, root, old(tree), action, call)
    {
      hide SandboxPath, FilesBelow, IsDirectory, SvFiles;
      OneDesign(tree);
      outcome := REJECTED;
      match action {
        case ListFiles =>
          outcome := Seen(Listed(if IsDirectory(tree, ["design"]) then FilesBelow(tree, ["design"]) else {}), false);
        case ReadFile(path) =>
          var target := SandboxPath(root, path);
          if target.Some? && ["design"] <= target.value && IsFile(tree, target.value) {
            var text := w.decode(tree[target.value].bytes);
            if text.Some? {
              outcome := Seen(Content(text.value), false);
            }
          }
        case WriteDesign(content) =>
          var bytes := w.encode(content);
          if bytes.Some? && |bytes.value| <= MAX_SOURCE_BYTES && |SvFiles(tree)| == 1 {
            var design := Only(SvFiles(tree));
            if tree[design].File? {
              tree := tree[design := File(bytes.value)];
              outcome := Seen(Wrote(design), false);
            }
          }
        case Done =>
          outcome := Seen(Finished, true);
        case _ =>
          if |SvFiles(tree)| == 1 {
            var (after, report) := w.tool(action, tree, call);
            tree := after;
            match report {
              case Report(text) => outcome := Seen(Ran(text), false);
              case Fails =>
              case RunEscapes => outcome := Escapes;
            }
          }
      }
    }

    /** The loop of `run_agent_task`. */
    method RunAgentTask<S>(w: World<S>, s0: S, b: Budget)
      returns (s: S, transcript: seq<Turn>, toolCalls: nat, end: End)
      modifies this
      ensures var (c, e) := Run(w, root, b, Config(s0, old(tree), [], 0, 0));
              s == c.s && tree == c.tree && transcript == c.transcript && toolCalls == c.calls && end == e
    {
      hide Execute, ValidateAction, Estimate, Fired, MaxTokens, Max;
      s, transcript, toolCalls := s0, [], 0;
      var checks := 0;
      ghost var spec := Run(w, root, b, Config(s0, tree, [], 0, 0));
      while true
        invariant toolCalls <= b.toolCalls
        invariant Run(w, root, b, Config(s, tree, transcript, toolCalls, checks)) == spec
        decreases b.toolCalls - toolCalls
      {
        ghost var step := Step(w, root, b, Config(s, tree, transcript, toolCalls, checks));
        var check := Fired(w, b, s, toolCalls, checks);
        checks := checks + 1;
        if check != Clear {
          end := Ending(check).value;
          return;
        }
        ClearIsReadable(w, b, s, toolCalls, checks - 1);
        var maxTokens := MaxTokens(w, b, Config(s, tree, transcript, toolCalls, checks - 1));
        var (next, reply) := w.generate(s, transcript, maxTokens);
        s := next;
        if reply.CapExceeded? {
          transcript, end := transcript + [Turn(reply, None, BudgetExceeded)], CapReached;
          return;
        }
        if reply.Broken? {
          transcript, end := transcript + [Turn(reply, None, ProviderError)], ProviderFailed;
          return;
        }
        toolCalls := toolCalls + 1;
        var checked, outcome, action := ValidateAction(w.parse(reply.raw)), REJECTED, None;
        if checked.Raises? {
          end := Crashed;
          return;
        }
        if checked.Accepted? {
          action := Some(checked.action);
          outcome := ExecuteAction(w, checked.action, toolCalls);
          if outcome.Escapes? {
            end := Crashed;
            return;
          }
        }
        transcript := transcript + [Turn(reply, action, outcome.observation)];
        check := Fired(w, b, s, toolCalls, checks);
        checks := checks + 1;
        if check != Clear {
          end := Ending(check).value;
          return;
        }
        if outcome.done {
          end := AgentDone;
          return;
        }
        assert step == (Config(s, tree, transcript, toolCalls, checks), None);
      }
    }
  }

  lemma OneDesign(t: Tree)
    ensures |SvFiles(t)| == 1 ==> Only(SvFiles(t)) in t
  {
    assert forall p :: p in SvFiles(t) ==> p in t;
  }

  lemma ClearIsReadable<S>(w: World<S>, b: Budget, s: S, calls: nat, checks: nat)
    requires Fired(w, b, s, calls, checks) == Clear
    ensures w.tokens(s).Some? && w.tokens(s).value < b.tokens && calls < b.toolCalls && w.clock(checks) < b.wallClock
  {
  }

  // ----- Budget -----

  /** The output a call is allowed: the most, up to 16384 tokens, that still fits the budget
      together with what was used and the prompt's estimate; one token when nothing fits. */
  lemma AllowanceIsLargest<S>(w: World<S>, b: Budget, c: Config<S>)
    requires w.tokens(c.s).Some? && w.tokens(c.s).value < b.tokens
    ensures var used, m := w.tokens(c.s).value + Estimate(w.promptLength(c.transcript)), MaxTokens(w, b, c);
            && 1 <= m <= 16384
            && (m > 1 ==> used + m <= b.tokens)
            && (m < 16384 ==> used + m + 1 > b.tokens)
  {
    hide Estimate;
  }

  /** The loop makes at most `toolCalls` counted calls, and when it ends because the agent
      said so, tokens, calls and time are strictly under budget. */
  lemma {:induction false} WithinBudget<S>(w: World<S>, root: Path, b: Budget, c: Config<S>)
    requires c.calls <= b.toolCalls
    ensures var (last, end) := Run(w, root, b, c);
            && c.calls <= last.calls <= b.toolCalls
            && (end == AgentDone ==>
                  && w.tokens(last.s).Some? && w.tokens(last.s).value < b.tokens && last.calls < b.toolCalls
                  && last.checks > 0 && w.clock(last.checks - 1) < b.wallClock)
            && (end == LimitFired(WallClockLimit) ==> last.checks > 0 && w.clock(last.checks - 1) >= b.wallClock)
            && (end == LimitFired(TokenLimit) ==>
                  && w.tokens(last.s).Some? && w.tokens(last.s).value >= b.tokens
                  && last.checks > 0 && w.clock(last.checks - 1) < b.wallClock)
            && (end == LimitFired(ToolCallLimit) ==>
                  && last.calls == b.toolCalls
                  && w.tokens(last.s).Some? && w.tokens(last.s).value < b.tokens
                  && last.checks > 0 && w.clock(last.checks - 1) < b.wallClock)
    decreases b.toolCalls - c.calls
  {
    hide Execute, ValidateAction, Estimate, MaxTokens;
    var (next, end) := Step(w, root, b, c);
    if end.None? {
      WithinBudget(w, root, b, next);
    }
  }

  /** The loop's variables at every provider call it makes, in order. */
  ghost function Calls<S>(w: World<S>, root: Path, b: Budget, c: Config<S>): (calls: seq<Config<S>>)
    requires c.calls <= b.toolCalls
    ensures forall k :: 0 <= k < |calls| ==> w.tokens(calls[k].s).Some?
    ensures calls == [] <==> Fired(w, b, c.s, c.calls, c.checks) != Clear
    decreases b.toolCalls - c.calls
  {
    if Fired(w, b, c.s, c.calls, c.checks) != Clear then []
    else
      var (next, end) := Step(w, root, b, c);
      [c] + (if end.Some? then [] else Calls(w, root, b, next))
  }

  /** The call made from c uses at most its prompt's estimate and the output it was allowed,
      and leaves the counter readable. */
  ghost predicate StaysWithin<S>(w: World<S>, b: Budget, c: Config<S>)
    requires w.tokens(c.s).Some?
  {
    var after := w.tokens(w.generate(c.s, c.transcript, MaxTokens(w, b, c)).0);
    after.Some? && after.value <= w.tokens(c.s).value + Estimate(w.promptLength(c.transcript)) + MaxTokens(w, b, c)
  }

  /** Every call starts under the token budget, and the run ends with the provider as its last
      call left it.  If that one call stays within estimate and allowance, the tokens at the end
      are at most the budget, or what it started from plus its prompt estimate plus one. */
  lemma {:induction false} TokenBound<S>(w: World<S>, root: Path, b: Budget, c: Config<S>)
    requires c.calls <= b.toolCalls
    ensures var s, calls := Run(w, root, b, c).0.s, Calls(w, root, b, c);
            && (forall k :: 0 <= k < |calls| ==> w.tokens(calls[k].s).value < b.tokens)
            && if calls == [] then s == c.s
               else
                 var last := calls[|calls| - 1];
                 && s == w.generate(last.s, last.transcript, MaxTokens(w, b, last)).0
                 && (StaysWithin(w, b, last) ==>
                       w.tokens(s).Some? && w.tokens(s).value <=
                       Max(b.tokens, w.tokens(last.s).value + Estimate(w.promptLength(last.transcript)) + 1))
    decreases b.toolCalls - c.calls
  {
    hide Step, Execute, ValidateAction, Estimate, Fired, Act, StaysWithin, MaxTokens, Max;
    if Fired(w, b, c.s, c.calls, c.checks) == Clear {
      var (next, end) := Step(w, root, b, c);
      ClearIsReadable(w, b, c.s, c.calls, c.checks);
      StepGenerates(w, root, b, c);
      LastCallBound(w, b, c);
      if end.None? {
        TokenBound(w, root, b, next);
        NextIsReadable(w, root, b, c);
        var later := Calls(w, root, b, next);
        assert Calls(w, root, b, c) == [c] + later;
      }
    } else {
      StepStops(w, root, b, c);
    }
  }

  lemma StepStops<S>(w: World<S>, root: Path, b: Budget, c: Config<S>)
    requires Fired(w, b, c.s, c.calls, c.checks) != Clear
    ensures Step(w, root, b, c).1.Some? && Step(w, root, b, c).0.s == c.s
  {
    hide Fired;
  }

  lemma StepGenerates<S>(w: World<S>, root: Path, b: Budget, c: Config<S>)
    requires Fired(w, b, c.s, c.calls, c.checks) == Clear && w.tokens(c.s).Some?
    ensures Step(w, root, b, c).0.s == w.generate(c.s, c.transcript, MaxTokens(w, b, c)).0
  {
    hide Execute, ValidateAction, MaxTokens, Fired;
  }

  lemma LastCallBound<S>(w: World<S>, b: Budget, c: Config<S>)
    requires w.tokens(c.s).Some? && w.tokens(c.s).value < b.tokens
    ensures StaysWithin(w, b, c) ==>
              var after := w.tokens(w.generate(c.s, c.transcript, MaxTokens(w, b, c)).0);
              && after.Some?
              && after.value <= Max(b.tokens, w.tokens(c.s).value + Estimate(w.promptLength(c.transcript)) + 1)
  {
    hide Estimate;
  }

  // ----- Exceptions that leave the loop -----

  /** A tool name that is a list or an object. */
  predicate UnhashableTool(reading: Reading) {
    && reading.Json? && reading.json.Object? && "tool" in reading.json.fields
    && (reading.json.fields["tool"].List? || reading.json.fields["tool"].Object?)
  }

  /** The call made from c raises something the loop does not catch: reading the reply as JSON,
      looking up its tool name, the tool it asks for, or the token counter afterwards. */
  ghost predicate EscapesAt<S>(w: World<S>, b: Budget, c: Config<S>)
    requires w.tokens(c.s).Some?
  {
    var (s, reply) := w.generate(c.s, c.transcript, MaxTokens(w, b, c));
    reply.Answer? &&
    var reading := w.parse(reply.raw);
    || reading.ReadingEscapes?
    || UnhashableTool(reading)
    || (var checked := ValidateAction(reading);
        checked.Accepted? && IsToolRun(checked.action) && |SvFiles(c.tree)| == 1 &&
        w.tool(checked.action, c.tree, c.calls + 1).1.RunEscapes?)
    || (w.clock(c.checks + 1) < b.wallClock && w.tokens(s).None?)
  }

  lemma ActCrash<S>(w: World<S>, root: Path, b: Budget, c: Config<S>, raw: string)
    ensures Act(w, root, b, c, raw).1 == Some(Crashed) <==>
            var reading := w.parse(raw);
            || reading.ReadingEscapes?
            || UnhashableTool(reading)
            || (var checked := ValidateAction(reading);
                checked.Accepted? && IsToolRun(checked.action) && |SvFiles(c.tree)| == 1 &&
                w.tool(checked.action, c.tree, c.calls).1.RunEscapes?)
            || (w.clock(c.checks) < b.wallClock && w.tokens(c.s).None?)
  {
    hide SandboxPath, SvFiles, FilesBelow, IsFile;
  }

  /** The loop ends by raising exactly when the counter cannot be read at the first check, or
      some call it makes raises what it does not catch; and that call is the last. */
  lemma {:induction false} CrashIff<S>(w: World<S>, root: Path, b: Budget, c: Config<S>)
    requires c.calls <= b.toolCalls
    ensures var calls := Calls(w, root, b, c);
            && (Run(w, root, b, c).1 == Crashed <==>
                  || Fired(w, b, c.s, c.calls, c.checks) == UsageRaises
                  || exists k :: 0 <= k < |calls| && EscapesAt(w, b, calls[k]))
            && (forall k :: 0 <= k < |calls| - 1 ==> !EscapesAt(w, b, calls[k]))
    decreases b.toolCalls - c.calls
  {
    hide Execute, ValidateAction, Act, EscapesAt, MaxTokens;
    var (next, end) := Step(w, root, b, c);
    var calls := Calls(w, root, b, c);
    StepCrash(w, root, b, c);
    if end.None? {
      CrashIff(w, root, b, next);
      NextIsReadable(w, root, b, c);
      var later := Calls(w, root, b, next);
      assert calls == [c] + later;
      if k: nat :| k < |later| && EscapesAt(w, b, later[k]) {
        assert calls[k + 1] == later[k];
      }
    } else if calls != [] {
      assert calls == [c] && calls[0] == c;
    }
  }

  lemma StepCrash<S>(w: World<S>, root: Path, b: Budget, c: Config<S>)
    ensures Step(w, root, b, c).1 == Some(Crashed) <==>
            || Fired(w, b, c.s, c.calls, c.checks) == UsageRaises
            || (Fired(w, b, c.s, c.calls, c.checks) == Clear && EscapesAt(w, b, c))
  {
    hide Act, ValidateAction, MaxTokens;
    if Fired(w, b, c.s, c.calls, c.checks) == Clear {
      var (s, reply) := w.generate(c.s, c.transcript, MaxTokens(w, b, c));
      if reply.Answer? {
        ActCrash(w, root, b, c.(checks := c.checks + 1, s := s, calls := c.calls + 1), reply.raw);
      }
    }
  }

  lemma NextIsReadable<S>(w: World<S>, root: Path, b: Budget, c: Config<S>)
    requires Step(w, root, b, c).1.None?
    ensures var next := Step(w, root, b, c).0; Fired(w, b, next.s, next.calls, next.checks) != UsageRaises
  {
  }

  /** It happens: a reply nested too deep to read, and one whose tool name is a list. */
  lemma CrashOccurs(package: Tree, reading: Reading) returns (w: World<int>, b: Budget)
    requires reading == ReadingEscapes || reading == Json(Object(map["tool" := List([])]))
    ensures b.tokens > 0 && b.wallClock > 0.0 && b.toolCalls > 0
    ensures Run(w, [], b, Config(0, package, [], 0, 0)).1 == Crashed
  {
    b := Budget(1, 1.0, 1);
    w := World(_ => reading, _ => None, _ => None, (_, t, _) => (t, Fails), _ => 0.0, _ => 0, _ => Some(0),
               (s, _, _) => (s, Answer("")));
    var c := Config(0, package, [], 0, 0);
    assert Fired(w, b, c.s, c.calls, c.checks) == Clear;
    assert EscapesAt(w, b, c);
    CrashIff(w, [], b, c);
    assert Calls(w, [], b, c)[0] == c;
  }

  // ----- Sandbox -----

  /** The package passes the guard against itself, as every task package must. */
  ghost predicate Canonical(modules: Bytes -> Option<string>, package: Tree) {
    DiffGuard(modules, package, Some(package)).None?
  }

  ghost function DesignFile(package: Tree): Path
    requires |SvFiles(package)| == 1
  {
    Only(SvFiles(package))
  }

  /** Nothing differs from the package but the bytes of its one design file. */
  ghost predicate OnlyDesignDiffers(package: Tree, t: Tree) {
    && |SvFiles(package)| == 1 && DesignFile(package) in package
    && exists bytes: Bytes :: |bytes| <= MAX_SOURCE_BYTES && t == package[DesignFile(package) := File(bytes)]
  }

  /** Every read the agent was answered resolved to a file of the package below design/, and
      showed the package's own text unless it is the design file. */
  ghost predicate ReadsInDesign<S>(w: World<S>, root: Path, package: Tree, transcript: seq<Turn>)
    requires |SvFiles(package)| == 1
  {
    forall turn :: turn in transcript && turn.observation.Content? ==>
      && turn.action.Some? && turn.action.value.ReadFile?
      && var p := SandboxPath(root, turn.action.value.path);
         && p.Some? && ["design"] <= p.value && p.value in package
         && (p.value != DesignFile(package) ==>
               package[p.value].File? && w.decode(package[p.value].bytes) == Some(turn.observation.text))
  }

  lemma CanonicalIsUnedited(modules: Bytes -> Option<string>, package: Tree)
    requires Canonical(modules, package)
    ensures OnlyDesignDiffers(package, package)
  {
    hide CheckEntries, SvFilename;
    var p := Only(SvFiles(package));
    assert p in SvFiles(package);
    assert package[p].File?;
    assert package == package[p := File(package[p].bytes)];
  }

  lemma EditKeepsShape(package: Tree, t: Tree)
    requires OnlyDesignDiffers(package, t)
    ensures SvFiles(t) == SvFiles(package) && t.Keys == package.Keys
    ensures |SvFiles(t)| == 1 && Only(SvFiles(t)) == DesignFile(package)
    ensures t[DesignFile(package)].File?
    ensures forall q :: q in t && q != DesignFile(package) ==> t[q] == package[q]
  {
    assert DesignFile(package) in SvFiles(package);
    assert t.Keys == package.Keys;
    OneElement(SvFiles(t));
  }

  /** Nothing but the design file differs after, and that is still a file of acceptable size. */
  ghost predicate KeepsOutside(t: Tree, after: Tree) {
    && after.Keys == t.Keys
    && forall q :: q in t && after[q] != t[q] ==>
         q in SvFiles(t) && after[q].File? && |after[q].bytes| <= MAX_SOURCE_BYTES
  }

  /** The tool run that the call made from c starts, if it starts one, writes nothing into the
      sandbox outside the design. */
  ghost predicate KeptAt<S>(w: World<S>, b: Budget, c: Config<S>)
    requires w.tokens(c.s).Some?
  {
    var reply := w.generate(c.s, c.transcript, MaxTokens(w, b, c)).1;
    reply.Answer? ==>
      var checked := ValidateAction(w.parse(reply.raw));
      checked.Accepted? && IsToolRun(checked.action) && |SvFiles(c.tree)| == 1 ==>
        KeepsOutside(c.tree, w.tool(checked.action, c.tree, c.calls + 1).0)
  }

  /** So does every tool run that these calls start. */
  ghost predicate AllKept<S>(w: World<S>, b: Budget, calls: seq<Config<S>>)
    requires forall k :: 0 <= k < |calls| ==> w.tokens(calls[k].s).Some?
  {
    forall k :: 0 <= k < |calls| ==> KeptAt(w, b, calls[k])
  }

  /** Nothing but the design differs at any of these calls. */
  ghost predicate AllOnlyDesignDiffer<S>(package: Tree, calls: seq<Config<S>>) {
    forall k :: 0 <= k < |calls| ==> OnlyDesignDiffers(package, calls[k].tree)
  }

  lemma KeptIsEdited(package: Tree, t: Tree, after: Tree)
    requires OnlyDesignDiffers(package, t) && KeepsOutside(t, after)
    ensures OnlyDesignDiffers(package, after)
  {
    EditKeepsShape(package, t);
    var p := DesignFile(package);
    assert SvFiles(t) == {p};
    var was: Bytes :| |was| <= MAX_SOURCE_BYTES && t == package[p := File(was)];
    assert after[p].File? && |after[p].bytes| <= MAX_SOURCE_BYTES;
    assert after == package[p := File(after[p].bytes)];
  }

  lemma EditedIsKept(package: Tree, t: Tree, after: Tree)
    requires OnlyDesignDiffers(package, t) && OnlyDesignDiffers(package, after)
    ensures KeepsOutside(t, after)
  {
    hide SvFiles;
    EditKeepsShape(package, t);
    EditKeepsShape(package, after);
    var now: Bytes :| |now| <= MAX_SOURCE_BYTES && after == package[DesignFile(package) := File(now)];
    assert SvFiles(t) == {DesignFile(package)};
  }

  lemma ExecuteKeepsSandbox<S>(w: World<S>, root: Path, package: Tree, t: Tree, action: Action, call: nat)
    requires OnlyDesignDiffers(package, t)
    requires IsToolRun(action) ==> KeepsOutside(t, w.tool(action, t, call).0)
    ensures var (after, outcome) := Execute(w, root, t, action, call);
            && OnlyDesignDiffers(package, after)
            && (outcome.Seen? ==>
                  ReadsInDesign(w, root, package, [Turn(Answer(""), Some(action), outcome.observation)]))
  {
    hide SvFiles, SandboxPath, KeepsOutside;
    EditKeepsShape(package, t);
    if IsToolRun(action) {
      KeptIsEdited(package, t, w.tool(action, t, call).0);
    }
    if action.WriteDesign? && w.encode(action.content).Some? {
      var bytes, p := w.encode(action.content).value, DesignFile(package);
      assert t[p := File(bytes)] == package[p := File(bytes)];
    }
  }

  /** One call keeps the sandbox exactly when its tool run does, and reads nothing else then. */
  lemma StepKeepsSandbox<S>(w: World<S>, root: Path, package: Tree, b: Budget, c: Config<S>)
    requires |SvFiles(package)| == 1 && Fired(w, b, c.s, c.calls, c.checks) == Clear && w.tokens(c.s).Some?
    requires OnlyDesignDiffers(package, c.tree) && ReadsInDesign(w, root, package, c.transcript)
    ensures var next := Step(w, root, b, c).0;
            && (KeptAt(w, b, c) <==> OnlyDesignDiffers(package, next.tree))
            && (KeptAt(w, b, c) ==> ReadsInDesign(w, root, package, next.transcript))
  {
    hide Execute, ValidateAction, Fired, MaxTokens, SvFiles, OnlyDesignDiffers, SandboxPath, KeepsOutside, Ending;
    EditKeepsShape(package, c.tree);
    var (s, reply) := w.generate(c.s, c.transcript, MaxTokens(w, b, c));
    if reply.Answer? && ValidateAction(w.parse(reply.raw)).Accepted? {
      var action := ValidateAction(w.parse(reply.raw)).action;
      var (after, outcome) := Execute(w, root, c.tree, action, c.calls + 1);
      if IsToolRun(action) {
        ToolTree(w, root, c.tree, action, c.calls + 1);
        if OnlyDesignDiffers(package, after) {
          EditedIsKept(package, c.tree, after);
        }
      }
      if KeptAt(w, b, c) {
        ExecuteKeepsSandbox(w, root, package, c.tree, action, c.calls + 1);
        if outcome.Seen? {
          var turn := Turn(Answer(""), Some(action), outcome.observation);
          assert turn in [turn];
        }
      }
    }
  }

  lemma ToolTree<S>(w: World<S>, root: Path, t: Tree, action: Action, call: nat)
    requires IsToolRun(action) && |SvFiles(t)| == 1
    ensures Execute(w, root, t, action, call).0 == w.tool(action, t, call).0
  {
  }

  lemma {:induction false} RunKeepsSandbox<S>(w: World<S>, root: Path, package: Tree, b: Budget, c: Config<S>)
    requires c.calls <= b.toolCalls && |SvFiles(package)| == 1
    requires OnlyDesignDiffers(package, c.tree) && ReadsInDesign(w, root, package, c.transcript)
    ensures var last, calls := Run(w, root, b, c).0, Calls(w, root, b, c);
            && (AllKept(w, b, calls) <==> AllOnlyDesignDiffer(package, calls) && OnlyDesignDiffers(package, last.tree))
            && (AllKept(w, b, calls) ==> ReadsInDesign(w, root, package, last.transcript))
    decreases b.toolCalls - c.calls
  {
    hide Act, Fired, SvFiles, OnlyDesignDiffers, ReadsInDesign, KeptAt, MaxTokens;
    if Fired(w, b, c.s, c.calls, c.checks) == Clear {
      var calls := Calls(w, root, b, c);
      var (next, end) := Step(w, root, b, c);
      ClearIsReadable(w, b, c.s, c.calls, c.checks);
      StepKeepsSandbox(w, root, package, b, c);
      if end.Some? {
        assert calls == [c] + [];
        AllCons(w, package, b, c, []);
      } else {
        var later := Calls(w, root, b, next);
        assert calls == [c] + later;
        AllCons(w, package, b, c, later);
        if OnlyDesignDiffers(package, next.tree) {
          if KeptAt(w, b, c) {
            RunKeepsSandbox(w, root, package, b, next);
          }
        } else {
          NotLater(w, root, package, b, next);
        }
      }
    }
  }

  lemma AllCons<S>(w: World<S>, package: Tree, b: Budget, c: Config<S>, later: seq<Config<S>>)
    requires w.tokens(c.s).Some? && forall k :: 0 <= k < |later| ==> w.tokens(later[k].s).Some?
    ensures AllKept(w, b, [c] + later) <==> KeptAt(w, b, c) && AllKept(w, b, later)
    ensures AllOnlyDesignDiffer(package, [c] + later) <==>
            OnlyDesignDiffers(package, c.tree) && AllOnlyDesignDiffer(package, later)
  {
    hide KeptAt, OnlyDesignDiffers;
    var calls := [c] + later;
    assert calls[0] == c && forall k :: 0 <= k < |later| ==> calls[k + 1] == later[k];
    forall k | 0 <= k < |calls|
      ensures AllKept(w, b, later) && KeptAt(w, b, c) ==> KeptAt(w, b, calls[k])
      ensures AllOnlyDesignDiffer(package, later) && OnlyDesignDiffers(package, c.tree) ==>
                OnlyDesignDiffers(package, calls[k].tree)
    {
      if k > 0 {
        assert calls[k] == later[k - 1];
      }
    }
  }

  /** The tree a run starts from is the one at its first call, or at its end. */
  lemma NotLater<S>(w: World<S>, root: Path, package: Tree, b: Budget, c: Config<S>)
    requires c.calls <= b.toolCalls && !OnlyDesignDiffers(package, c.tree)
    ensures AllOnlyDesignDiffer(package, Calls(w, root, b, c)) ==>
              !OnlyDesignDiffers(package, Run(w, root, b, c).0.tree)
  {
    hide Act, Fired, SvFiles, OnlyDesignDiffers, MaxTokens;
    if Fired(w, b, c.s, c.calls, c.checks) == Clear {
      assert Calls(w, root, b, c)[0] == c;
    }
  }

  lemma EditKeepsImmutables(package: Tree, t: Tree)
    requires OnlyDesignDiffers(package, t) && CheckEntries(package, package, IMMUTABLE).None?
    ensures CheckEntries(package, t, IMMUTABLE).None?
  {
    hide CheckEntries, SvFiles;
    EditKeepsShape(package, t);
    assert DesignFile(package)[0] == "design" by {
      DesignIsBelow(package);
    }
    EntriesMatch(package, package, IMMUTABLE);
    EntriesMatch(package, t, IMMUTABLE);
    forall e | e in IMMUTABLE
      ensures CheckEntry(package, t, e).None?
    {
      assert e != "design" && CheckEntry(package, package, e).None?;
      assert FilesBelow(t, [e]) == FilesBelow(package, [e]);
    }
  }

  lemma DesignIsBelow(package: Tree)
    requires |SvFiles(package)| == 1
    ensures |DesignFile(package)| == 2 && DesignFile(package)[0] == "design"
  {
    assert DesignFile(package) in SvFiles(package);
  }

  /** With only the design file edited, the guard depends on nothing but its modules. */
  lemma EditedPassesIff(modules: Bytes -> Option<string>, package: Tree, t: Tree)
    requires Canonical(modules, package) && OnlyDesignDiffers(package, t)
    ensures var design := t[DesignFile(package)];
            design.File? && DiffGuard(modules, package, Some(t)) ==
            if modules(design.bytes).Some? then Some(BadModules(modules(design.bytes).value)) else None
  {
    hide CheckEntries, SvFiles, SvFilename, AllowedTop;
    EditKeepsShape(package, t);
    EditKeepsImmutables(package, t);
    DesignIsBelow(package);
    assert HasExtra(t) == HasExtra(package);
  }

  /** Whatever the provider asks for, the sandbox differs from a canonical package in nothing
      but its design file, from the first call to the end, exactly when every tool run the
      loop started wrote nothing outside the design.  Reads are then answered only from below
      design/, and the guard can reject the submission for nothing but the module declarations
      of that file. */
  lemma SandboxSafety<S>(w: World<S>, root: Path, package: Tree, modules: Bytes -> Option<string>, s0: S, b: Budget)
    requires Canonical(modules, package)
    ensures |SvFiles(package)| == 1
    ensures var c := Config(s0, package, [], 0, 0);
            var last, calls := Run(w, root, b, c).0, Calls(w, root, b, c);
            && (AllKept(w, b, calls) <==> AllOnlyDesignDiffer(package, calls) && OnlyDesignDiffers(package, last.tree))
            && (AllKept(w, b, calls) ==>
                  && last.tree.Keys == package.Keys && DesignFile(package) in last.tree
                  && (forall q :: q in package && q != DesignFile(package) ==> last.tree[q] == package[q])
                  && ReadsInDesign(w, root, package, last.transcript)
                  && var design := last.tree[DesignFile(package)];
                     design.File? && DiffGuard(modules, package, Some(last.tree)) ==
                     if modules(design.bytes).Some? then Some(BadModules(modules(design.bytes).value)) else None)
  {
    hide Run, DiffGuard, SvFiles, Calls, AllKept, AllOnlyDesignDiffer;
    CanonicalIsUnedited(modules, package);
    var c := Config(s0, package, [], 0, 0);
    RunKeepsSandbox(w, root, package, b, c);
    if AllKept(w, b, Calls(w, root, b, c)) {
      var last := Run(w, root, b, c).0;
      EditKeepsShape(package, last.tree);
      EditedPassesIff(modules, package, last.tree);
    }
  }

  /** Otherwise it may: one stray file that a simulation leaves below an immutable directory
      makes the guard reject a design it would have passed. */
  lemma StrayFileRejected(modules: Bytes -> Option<string>, package: Tree, t: Tree, entry: string, p: Path,
                          bytes: Bytes)
    requires Canonical(modules, package) && OnlyDesignDiffers(package, t)
    requires DiffGuard(modules, package, Some(t)).None?
    requires entry in IMMUTABLE && IsDirectory(package, [entry]) && [entry] < p && p !in package
    ensures DiffGuard(modules, package, Some(t[p := File(bytes)])) == Some(DifferentFileSet(entry))
  {
    hide SvFilename, AllowedTop, CheckEntries, SvFiles, CheckDesign;
    var stray := t[p := File(bytes)];
    EditKeepsShape(package, t);
    assert p[0] == [entry][0] == entry && entry != "design";
    assert SvFiles(stray) == SvFiles(t) by {
      SameDesign(t, stray, p);
    }
    SameCheck(modules, t, stray, p);
    EntriesMatch(package, t, IMMUTABLE);
    assert p in FilesBelow(stray, [entry]) && p !in FilesBelow(package, [entry]);
    assert CheckEntry(package, stray, entry) == Some(DifferentFileSet(entry));
    forall e | e in IMMUTABLE && e != entry
      ensures CheckEntry(package, stray, e).None?
    {
      OtherEntry(package, t, stray, p, e);
    }
    OneFails(package, stray, IMMUTABLE, entry);
  }

  lemma SameDesign(t: Tree, stray: Tree, p: Path)
    requires p !in t && p != [] && p[0] != "design" && stray.Keys == t.Keys + {p}
    ensures SvFiles(stray) == SvFiles(t)
  {
  }

  lemma SameCheck(modules: Bytes -> Option<string>, t: Tree, stray: Tree, p: Path)
    requires p !in t && stray.Keys == t.Keys + {p} && (forall q :: q in t ==> stray[q] == t[q])
    requires |SvFiles(t)| == 1 && SvFiles(stray) == SvFiles(t)
    ensures CheckDesign(modules, stray, Only(SvFiles(stray))) == CheckDesign(modules, t, Only(SvFiles(t)))
  {
    assert Only(SvFiles(t)) in SvFiles(t);
  }

  /** The other entries do not see the stray file. */
  lemma OtherEntry(package: Tree, t: Tree, stray: Tree, p: Path, e: string)
    requires p !in t && stray.Keys == t.Keys + {p} && (forall q :: q in t ==> stray[q] == t[q])
    requires |p| > 1 && p[0] != e && CheckEntry(package, t, e).None?
    ensures CheckEntry(package, stray, e).None?
  {
    assert FilesBelow(stray, [e]) == FilesBelow(t, [e]);
  }

  /** When one entry fails, its reason is the guard's. */
  lemma {:induction false} OneFails(package: Tree, t: Tree, entries: seq<string>, entry: string)
    requires entry in entries && CheckEntry(package, t, entry).Some?
    requires forall e :: e in entries && e != entry ==> CheckEntry(package, t, e).None?
    ensures CheckEntries(package, t, entries) == CheckEntry(package, t, entry)
    decreases |entries|
  {
    hide CheckEntry;
    if entries[0] != entry {
      assert forall e :: e in entries[1..] ==> e in entries;
      OneFails(package, t, entries[1..], entry);
    }
  }

  // ----- What the submission holds -----

  /** The content of the last write that was carried out. */
  ghost function LastWrite(transcript: seq<Turn>): Option<string> {
    if transcript == [] then None
    else
      var turn := transcript[|transcript| - 1];
      if turn.observation.Wrote? && turn.action.Some? && turn.action.value.WriteDesign?
      then Some(turn.action.value.content)
      else LastWrite(transcript[..|transcript| - 1])
  }

  /** The package with that content, encoded, in its design file. */
  ghost predicate HoldsLastWrite<S>(w: World<S>, package: Tree, t: Tree, transcript: seq<Turn>)
    requires |SvFiles(package)| == 1
  {
    match LastWrite(transcript)
    case None => t == package
    case Some(content) => w.encode(content).Some? && t == package[DesignFile(package) := File(w.encode(content).value)]
  }

  /** The tool run that the call made from c starts, if it starts one, leaves the tree as it is. */
  ghost predicate UntouchedAt<S>(w: World<S>, b: Budget, c: Config<S>)
    requires w.tokens(c.s).Some?
  {
    var reply := w.generate(c.s, c.transcript, MaxTokens(w, b, c)).1;
    reply.Answer? ==>
      var checked := ValidateAction(w.parse(reply.raw));
      checked.Accepted? && IsToolRun(checked.action) && |SvFiles(c.tree)| == 1 ==>
        w.tool(checked.action, c.tree, c.calls + 1).0 == c.tree
  }

  lemma LastWriteGrows(transcript: seq<Turn>, turn: Turn)
    ensures LastWrite(transcript + [turn]) ==
            if turn.observation.Wrote? && turn.action.Some? && turn.action.value.WriteDesign?
            then Some(turn.action.value.content)
            else LastWrite(transcript)
  {
    assert (transcript + [turn])[..|transcript|] == transcript;
  }

  lemma HeldIsEdited<S>(w: World<S>, package: Tree, t: Tree, transcript: seq<Turn>)
    requires |SvFiles(package)| == 1 && DesignFile(package) in package && package[DesignFile(package)].File?
    requires HoldsLastWrite(w, package, t, transcript)
    ensures SvFiles(t) == SvFiles(package) && IsFile(t, DesignFile(package))
    ensures t.Keys == package.Keys && forall q :: q in t && q != DesignFile(package) ==> t[q] == package[q]
  {
    assert DesignFile(package) in SvFiles(package);
    assert t.Keys == package.Keys;
  }

  lemma StepHoldsLastWrite<S>(w: World<S>, root: Path, package: Tree, b: Budget, c: Config<S>)
    requires |SvFiles(package)| == 1 && DesignFile(package) in package && package[DesignFile(package)].File?
    requires HoldsLastWrite(w, package, c.tree, c.transcript)
    requires Fired(w, b, c.s, c.calls, c.checks) == Clear ==> w.tokens(c.s).Some? && UntouchedAt(w, b, c)
    ensures var next := Step(w, root, b, c).0; HoldsLastWrite(w, package, next.tree, next.transcript)
  {
    hide Execute, ValidateAction, Fired, MaxTokens, SvFiles, SandboxPath, Ending, LastWrite;
    if Fired(w, b, c.s, c.calls, c.checks) == Clear {
      var (s, reply) := w.generate(c.s, c.transcript, MaxTokens(w, b, c));
      if reply.Answer? && ValidateAction(w.parse(reply.raw)).Accepted? {
        var action := ValidateAction(w.parse(reply.raw)).action;
        ActionHolds(w, root, package, c, action, c.calls + 1);
        var outcome := Execute(w, root, c.tree, action, c.calls + 1).1;
        if outcome.Seen? {
          LastWriteGrows(c.transcript, Turn(reply, Some(action), outcome.observation));
        }
      } else {
        LastWriteGrows(c.transcript, Turn(reply, None, Rejected));
        LastWriteGrows(c.transcript, Turn(reply, None, BudgetExceeded));
        LastWriteGrows(c.transcript, Turn(reply, None, ProviderError));
      }
    }
  }

  lemma ActionHolds<S>(w: World<S>, root: Path, package: Tree, c: Config<S>, action: Action, call: nat)
    requires |SvFiles(package)| == 1 && DesignFile(package) in package && package[DesignFile(package)].File?
    requires HoldsLastWrite(w, package, c.tree, c.transcript)
    requires IsToolRun(action) && |SvFiles(c.tree)| == 1 ==> w.tool(action, c.tree, call).0 == c.tree
    ensures var (after, outcome) := Execute(w, root, c.tree, action, call);
            if outcome.Seen? && outcome.observation.Wrote? then
              && action.WriteDesign? && w.encode(action.content).Some?
              && after == package[DesignFile(package) := File(w.encode(action.content).value)]
            else after == c.tree
  {
    hide SandboxPath, SvFiles, LastWrite, HoldsLastWrite;
    HeldIsEdited(w, package, c.tree, c.transcript);
    if action.WriteDesign? && w.encode(action.content).Some? {
      var file := File(w.encode(action.content).value);
      assert c.tree[DesignFile(package) := file] == package[DesignFile(package) := file];
    }
  }

  /** What the submission holds in the end: if no tool run of this run changed the sandbox, it is
      the package with the text of the last write that was carried out, or the package itself. */
  lemma {:induction false} LastWriteWins<S>(w: World<S>, root: Path, package: Tree, b: Budget, c: Config<S>)
    requires c.calls <= b.toolCalls
    requires |SvFiles(package)| == 1 && DesignFile(package) in package && package[DesignFile(package)].File?
    requires HoldsLastWrite(w, package, c.tree, c.transcript)
    requires forall k :: 0 <= k < |Calls(w, root, b, c)| ==> UntouchedAt(w, b, Calls(w, root, b, c)[k])
    ensures var last := Run(w, root, b, c).0; HoldsLastWrite(w, package, last.tree, last.transcript)
    decreases b.toolCalls - c.calls
  {
    hide Step, Fired, SvFiles, HoldsLastWrite, UntouchedAt, LastWrite;
    var calls := Calls(w, root, b, c);
    if Fired(w, b, c.s, c.calls, c.checks) == Clear {
      ClearIsReadable(w, b, c.s, c.calls, c.checks);
      assert calls[0] == c;
    }
    StepHoldsLastWrite(w, root, package, b, c);
    var (next, end) := Step(w, root, b, c);
    if end.None? {
      GoesOn(w, root, b, c);
      var later := Calls(w, root, b, next);
      assert calls == [c] + later;
      forall k | 0 <= k < |later|
        ensures UntouchedAt(w, b, later[k])
      {
        assert calls[k + 1] == later[k];
      }
      LastWriteWins(w, root, package, b, next);
    }
  }

  lemma GoesOn<S>(w: World<S>, root: Path, b: Budget, c: Config<S>)
    requires Step(w, root, b, c).1.None?
    ensures Fired(w, b, c.s, c.calls, c.checks) == Clear
  {
    hide Fired;
  }
}
