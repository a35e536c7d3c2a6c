/** The pattern-based mutation operators of harness/mutators/rtl.py: inverted conditions,
    flipped and held assignments, inverted outputs, and the reset spans that shield state
    which is not an output. */
module RtlRewrites {
  import opened Wrappers
  import opened SvMask
  import opened Text
  import opened RtlPatterns
  import opened RtlMutators

  datatype Candidate = Candidate(operator: string, description: string, source: string)

  // ----- Inverted conditions -----

  function CondMutant(source: string, spec: CondSpec, h: Hit): string
    requires Inside(h, source)
  {
    Splice(source, h.start, h.end, spec.after)
  }

  function CondMutants(source: string, spec: CondSpec): (r: seq<string>) {
    var hits := FindIter(spec.pattern, Masked(source), 0);
    seq(|hits|, k requires 0 <= k < |hits| => CondMutant(source, spec, hits[k]))
  }

  method ReplaceRegexAll(source: string, spec: CondSpec) returns (results: seq<string>)
    ensures results == CondMutants(source, spec)
  {
    hide FindIter, MatchAt, CondMutant, Masked;
    var mask := MaskCode(source);
    var hits := FindIter(spec.pattern, mask, 0);
    results := [];
    for n := 0 to |hits|
      invariant |results| == n && forall k :: 0 <= k < n ==> results[k] == CondMutant(source, spec, hits[k])
    {
      results := results + [CondMutant(source, spec, hits[n])];
    }
  }

  /** One mutant per match, in order: the source with the replacement there, and nothing else. */
  lemma CondMutantsAre(source: string, spec: CondSpec)
    ensures var hits, r := FindIter(spec.pattern, Masked(source), 0), CondMutants(source, spec);
            |r| == |hits| && forall k :: 0 <= k < |r| ==>
              hits[k].end <= |source| && r[k] == source[..hits[k].start] + spec.after + source[hits[k].end..]
  {
    hide FindIter, MatchAt, Masked;
  }

  /** The site of a hit of one of the condition or assignment patterns starts in code and
      the text after it is entered in code. */
  lemma HitInCode(pat: Pattern, source: string, p: nat)
    requires p < |source| && !pat.ResetIf? && !pat.Output?
    requires MatchAt(pat, Masked(source), p).Some?
    ensures var h := MatchAt(pat, Masked(source), p).value;
            && StateAt(source, h.start) == Code && source[h.start] == Masked(source)[h.start]
            && (h.end < |source| ==> StateAt(source, h.end) == Code)
            && source[h.end - 1] == Masked(source)[h.end - 1]
            && Visible(Masked(source)[h.start])
  {
    hide MatchAt;
    var h := MatchAt(pat, Masked(source), p).value;
    CodeShown(source, h.start);
    CodeShown(source, h.end - 1);
  }

  lemma CondTableShape(n: nat)
    requires n < |GenericRegexSpecs()|
    ensures var spec := GenericRegexSpecs()[n];
            spec.pattern.IfCond? && Solid(spec.after) && OpenerFree(spec.after)
  {
  }

  /** Inverting a condition always commutes with masking. */
  lemma CondCommutes(source: string, n: nat, p: nat)
    requires n < |GenericRegexSpecs()| && p < |source|
    requires MatchAt(GenericRegexSpecs()[n].pattern, Masked(source), p).Some?
    ensures var spec := GenericRegexSpecs()[n];
            Commutes(source, p, MatchAt(spec.pattern, Masked(source), p).value.end, spec.after)
  {
    hide MatchAt, Commutes;
    var spec := GenericRegexSpecs()[n];
    var h := MatchAt(spec.pattern, Masked(source), p).value;
    CondTableShape(n);
    HitInCode(spec.pattern, source, p);
    OpenerFreeIsCode(spec.after);
    SpliceIff(source, h.start, h.end, spec.after);
  }

  /** If the source reads opener-free text at a place in code, so does the mask. */
  lemma PlainTextShown(source: string, i: nat, text: string)
    requires OccursAt(source, text, i) && text != [] && OpenerFree(text) && !Joins(Last(text))
    requires StateAt(source, i) == Code
    ensures OccursAt(Masked(source), text, i)
  {
    var j := i + |text|;
    assert source[i..] == text + source[j..];
    Suffix(Code, source, i);
    Concat(Code, text, source[j..]);
    OpenerFreeIsCode(text);
    assert Masked(source)[i..][..|text|] == text;
  }

  /** `if (` directly followed by what the pattern does not allow there. */
  lemma NoCondition(t: string, name: string, bang: bool, p: nat)
    requires OccursAt(t, "if", p) && p + 4 < |t| && t[p + 2] == ' ' && t[p + 3] == '(' && !IsSpace(t[p + 4])
    requires if bang then t[p + 4] != '!' else name != "" && t[p + 4] != name[0]
    ensures IfCondEnd(t, name, bang, p).None?
  {
    assert SkipSpace(t, p + 2) == p + 3;
    assert SkipSpace(t, p + 4) == p + 4;
    if OccursAt(t, name, p + 4) && name != "" {
      assert t[p + 4] == t[p + 4..p + 4 + |name|][0];
    }
  }

  lemma ConditionShape(n: nat)
    requires n < |GenericRegexSpecs()|
    ensures var spec := GenericRegexSpecs()[n];
            && spec.pattern.IfCond? && |spec.after| > 4 && spec.after[2] == ' ' && spec.after[3] == '('
            && !IsSpace(spec.after[4])
            && (if spec.pattern.bang then spec.after[4] != '!'
                else spec.pattern.name != "" && spec.after[4] != spec.pattern.name[0])
  {
  }

  /** The text a condition operator inserts is not matched by that operator's pattern. */
  lemma InvertedDoesNotMatch(t: string, n: nat, p: nat)
    requires n < |GenericRegexSpecs()| && OccursAt(t, GenericRegexSpecs()[n].after, p) && p < |t|
    ensures MatchAt(GenericRegexSpecs()[n].pattern, t, p).None?
  {
    hide GenericRegexSpecs, IfCondEnd, IsSpace;
    var spec := GenericRegexSpecs()[n];
    ConditionShape(n);
    var u := t[p..p + |spec.after|];
    assert u[2] == t[p + 2] && u[3] == t[p + 3] && u[4] == t[p + 4];
    if OccursAt(t, "if", p) {
      NoCondition(t, spec.pattern.name, spec.pattern.bang, p);
    }
  }

  /** A condition operator never reproduces its input, even when the condition contains
      comments. */
  lemma CondChanges(source: string, n: nat, p: nat)
    requires n < |GenericRegexSpecs()| && p < |source|
    requires MatchAt(GenericRegexSpecs()[n].pattern, Masked(source), p).Some?
    ensures CondMutant(source, GenericRegexSpecs()[n],
                       MatchAt(GenericRegexSpecs()[n].pattern, Masked(source), p).value) != source
  {
    hide MatchAt;
    var spec := GenericRegexSpecs()[n];
    var h := MatchAt(spec.pattern, Masked(source), p).value;
    var mutant := CondMutant(source, spec, h);
    CondTableShape(n);
    HitInCode(spec.pattern, source, p);
    if mutant == source {
      assert mutant[h.start..h.start + |spec.after|] == spec.after;
      PlainTextShown(source, h.start, spec.after);
      InvertedDoesNotMatch(Masked(source), n, h.start);
    }
  }

  // ----- Reset spans -----

  datatype Token = Token(isBegin: bool, end: nat)

  /** `\b(begin|end)\b` at position p. */
  function TokenAt(u: string, p: nat): (r: Option<Token>)
    ensures r.Some? ==> p < r.value.end <= |u|
  {
    if WordStart(u, "begin", p) && (p + 5 == |u| || !IsWord(u[p + 5])) then Some(Token(true, p + 5))
    else if WordStart(u, "end", p) && (p + 3 == |u| || !IsWord(u[p + 3])) then Some(Token(false, p + 3))
    else None
  }

  function Tokens(u: string, p: nat): (r: seq<Token>)
    ensures forall k :: 0 <= k < |r| ==> p < r[k].end <= |u|
    decreases |u| - p
  {
    if p >= |u| then []
    else
      var t := TokenAt(u, p);
      if t.None? then Tokens(u, p + 1) else [t.value] + Tokens(u, t.value.end)
  }

  lemma WordsHaveNoBoundary(u: string, w: string, p: nat, q: nat)
    requires OccursAt(u, w, p) && p < q < p + |w| && forall k :: 0 <= k < |w| ==> IsWord(w[k])
    ensures TokenAt(u, q).None?
  {
    assert u[q - 1] == u[p..p + |w|][q - 1 - p];
  }

  /** No `begin` or `end` is missed. */
  lemma {:induction false} NoTokenMissed(u: string, p: nat, q: nat)
    requires p <= q && TokenAt(u, q).Some?
    ensures TokenAt(u, q).value in Tokens(u, p)
    decreases |u| - p
  {
    hide OccursAt, TokenAt;
    var t := TokenAt(u, p);
    if t.None? {
      NoTokenMissed(u, p + 1, q);
    } else if q > p {
      if q < t.value.end {
        TokenIsWord(u, p);
        WordsHaveNoBoundary(u, if t.value.isBegin then "begin" else "end", p, q);
        assert false;
      }
      NoTokenMissed(u, t.value.end, q);
    }
  }

  lemma TokenIsWord(u: string, p: nat)
    requires TokenAt(u, p).Some?
    ensures var t := TokenAt(u, p).value;
            var w := if t.isBegin then "begin" else "end";
            OccursAt(u, w, p) && t.end == p + |w| && forall k :: 0 <= k < |w| ==> IsWord(w[k])
  {
  }

  /** The nesting depth after the first n tokens that follow the `begin` of the reset branch. */
  function Depth(tokens: seq<Token>, n: nat): int
    requires n <= |tokens|
  {
    if n == 0 then 1
    else Depth(tokens, n - 1) + (if tokens[n - 1].isBegin then 1 else -1)
  }

  /** The n-th token closes the block: depth returns to zero there for the first time. */
  ghost predicate Closes(tokens: seq<Token>, n: nat) {
    1 <= n <= |tokens| && Depth(tokens, n) == 0 && forall m :: 0 <= m < n ==> Depth(tokens, m) > 0
  }

  /** Where the block opened before `start` ends: at the token that closes it, or at
      `start` itself when no token does. */
  ghost predicate IsBlockEnd(tokens: seq<Token>, start: nat, end: nat) {
    if exists n :: Closes(tokens, n) then
      exists n :: Closes(tokens, n) && !tokens[n - 1].isBegin && end == start + tokens[n - 1].end
    else
      end == start && forall n :: 0 <= n <= |tokens| ==> Depth(tokens, n) > 0
  }

  lemma BlockEndUnique(tokens: seq<Token>, start: nat, a: nat, b: nat)
    requires IsBlockEnd(tokens, start, a) && IsBlockEnd(tokens, start, b)
    ensures a == b
  {
    forall m, n | Closes(tokens, m) && Closes(tokens, n) ensures m == n {
      assert Depth(tokens, m) == 0 && Depth(tokens, n) == 0;
    }
  }

  function BlockEnd(tokens: seq<Token>, start: nat, n: nat): nat
    requires n <= |tokens|
    decreases |tokens| - n
  {
    if n == |tokens| then start
    else if Depth(tokens, n + 1) == 0 then start + tokens[n].end
    else BlockEnd(tokens, start, n + 1)
  }

  /** The block ends at the first token where begins and ends balance, every proper prefix
      being still inside the block. */
  lemma {:induction false} BlockEndMeaning(tokens: seq<Token>, start: nat, n: nat)
    requires n <= |tokens| && forall m :: 0 <= m <= n ==> Depth(tokens, m) > 0
    ensures IsBlockEnd(tokens, start, BlockEnd(tokens, start, n))
    decreases |tokens| - n
  {
    if n < |tokens| {
      if Depth(tokens, n + 1) == 0 {
        assert Depth(tokens, n + 1) == Depth(tokens, n) + (if tokens[n].isBegin then 1 else -1);
        assert Closes(tokens, n + 1);
        assert !tokens[n + 1 - 1].isBegin;
      } else {
        BlockEndMeaning(tokens, start, n + 1);
      }
    }
  }

  function SpanEnd(mask: string, h: Hit): nat
    requires Inside(h, mask)
  {
    if h.a0 == h.a1 then
      var semi := Find(mask, ";", h.end);
      if semi.None? then |mask| else semi.value + 1
    else BlockEnd(Tokens(mask[h.end..], 0), h.end, 0)
  }

  function ResetSpansOf(mask: string): (spans: seq<(nat, nat)>) {
    var hits := FindIter(ResetIf, mask, 0);
    seq(|hits|, k requires 0 <= k < |hits| => (hits[k].start, SpanEnd(mask, hits[k])))
  }

  method ResetSpans(mask: string) returns (spans: seq<(nat, nat)>)
    ensures spans == ResetSpansOf(mask)
  {
    hide FindIter, SpanEnd, MatchAt;
    var hits := FindIter(ResetIf, mask, 0);
    spans := [];
    for k := 0 to |hits|
      invariant |spans| == k && forall i :: 0 <= i < k ==> spans[i] == (hits[i].start, SpanEnd(mask, hits[i]))
    {
      var end := OneSpan(mask, hits[k]);
      spans := spans + [(hits[k].start, end)];
    }
  }

  /** The body of the outer loop. */
  method OneSpan(mask: string, h: Hit) returns (end: nat)
    requires Inside(h, mask)
    ensures end == SpanEnd(mask, h)
  {
    if h.a0 == h.a1 {
      var semi := Find(mask, ";", h.end);
      end := if semi.None? then |mask| else semi.value + 1;
    } else {
      end := BlockLoop(Tokens(mask[h.end..], 0), h.end);
    }
  }

  /** The inner depth loop of `_reset_spans`. */
  method BlockLoop(tokens: seq<Token>, start: nat) returns (end: nat)
    ensures end == BlockEnd(tokens, start, 0)
  {
    var depth := 1;
    end := start;
    for n := 0 to |tokens|
      invariant depth == Depth(tokens, n) && end == start
      invariant BlockEnd(tokens, start, n) == BlockEnd(tokens, start, 0)
    {
      depth := depth + (if tokens[n].isBegin then 1 else -1);
      if depth == 0 {
        end := start + tokens[n].end;
        return;
      }
    }
  }

  // ----- Rewritten assignments -----

  datatype Rewrite = FlipBit | InvertContinuous | HoldValue | InvertBlocking

  function PatternOf(rw: Rewrite): Pattern {
    match rw
    case FlipBit => NonblockingBit
    case InvertContinuous => Continuous
    case HoldValue => Nonblocking
    case InvertBlocking => Blocking
  }

  function OutputNames(mask: string): set<string> {
    var hits := FindIter(Output, mask, 0);
    set k | 0 <= k < |hits| :: mask[hits[k].a0..hits[k].a1]
  }

  predicate InsideAnySpan(p: nat, spans: seq<(nat, nat)>) {
    exists k :: 0 <= k < |spans| && spans[k].0 <= p < spans[k].1
  }

  /** `lhs.split("[", 1)[0].strip()` */
  function BaseName(lhs: string): string {
    Strip(lhs[..SkipWhile((c: char) => c != '[', lhs, 0)])
  }

  /** It is what stands before the first bracket, without white space around it. */
  lemma BaseNameIs(name: string, index: string)
    requires '[' !in name
    ensures BaseName(name) == Strip(name) && BaseName(name + "[" + index) == Strip(name)
  {
    hide Strip, SkipWhile;
    var lhs := name + "[" + index;
    assert lhs[|name|] == '[' && forall k :: 0 <= k < |name| ==> lhs[k] == name[k];
    assert lhs[..|name|] == name && name[..|name|] == name;
  }

  /** Resetting state that is not an output is left alone. */
  predicate Shielded(mask: string, h: Hit, lhs: string) {
    InsideAnySpan(h.start, ResetSpansOf(mask)) && BaseName(lhs) !in OutputNames(mask)
  }

  function Lhs(source: string, h: Hit): string
    requires Inside(h, source)
  {
    Strip(source[h.a0..h.a1])
  }

  function RhsText(source: string, h: Hit): string
    requires Inside(h, source)
  {
    Strip(source[h.b0..h.b1])
  }

  /** The text that replaces a matched assignment; None where the loop continues. */
  function Replacement(rw: Rewrite, source: string, h: Hit): (r: Option<string>)
    requires Inside(h, source)
  {
    var mask, lhs, rhs := Masked(source), Lhs(source, h), RhsText(source, h);
    var line := mask[LineStart(mask, h.start)..h.start];
    match rw
    case FlipBit =>
      if Shielded(mask, h, lhs) then None
      else Some(lhs + " <= '" + (if CharAt(mask, h.b0, '0') then "1" else "0") + ";")
    case InvertContinuous => Some("assign " + mask[h.a0..h.a1] + " = ~(" + rhs + ");")
    case HoldValue =>
      if Contains(line, "default:") then None
      else if RemoveSpaces(rhs) == RemoveSpaces(lhs) then None
      else if Shielded(mask, h, lhs) then None
      else Some(lhs + " <= " + lhs + ";")
    case InvertBlocking =>
      if Contains(line, "for (") || Contains(line, "for(") then None
      else Some(lhs + " = ~(" + rhs + ");")
  }

  function Describe(rw: Rewrite, mask: string, h: Hit): (string, string) {
    match rw
    case FlipBit =>
      ("assignment_deletion",
       if CharAt(mask, h.b0, '0') then "zero assignment becomes all ones" else "all-ones assignment becomes zero")
    case InvertContinuous => ("output_inversion", "continuous output is inverted")
    case HoldValue => ("assignment_hold", "registered assignment holds its previous value")
    case InvertBlocking => ("blocking_output_inversion", "combinational assignment is inverted")
  }

  /** The candidates of the first n hits. */
  function Rewritten(rw: Rewrite, source: string, hits: seq<Hit>, n: nat): seq<Candidate>
    requires n <= |hits| && forall k :: 0 <= k < |hits| ==> Inside(hits[k], source)
  {
    if n == 0 then []
    else
      var h := hits[n - 1];
      var text, d := Replacement(rw, source, h), Describe(rw, Masked(source), h);
      Rewritten(rw, source, hits, n - 1) +
      (if text.None? then [] else [Candidate(d.0, d.1, Splice(source, h.start, h.end, text.value))])
  }

  function RewriteCandidates(rw: Rewrite, source: string): seq<Candidate> {
    var hits := FindIter(PatternOf(rw), Masked(source), 0);
    Rewritten(rw, source, hits, |hits|)
  }

  /** The four loops over `finditer`, which differ only in pattern and replacement. */
  method RewriteAll(rw: Rewrite, source: string) returns (results: seq<Candidate>)
    ensures results == RewriteCandidates(rw, source)
  {
    hide FindIter, MatchAt, Replacement, Describe, Splice, Masked, PatternOf;
    var mask := MaskCode(source);
    var hits := FindIter(PatternOf(rw), mask, 0);
    results := [];
    for n := 0 to |hits|
      invariant results == Rewritten(rw, source, hits, n)
    {
      var h := hits[n];
      var text, d := Replacement(rw, source, h), Describe(rw, mask, h);
      if text.Some? {
        results := results + [Candidate(d.0, d.1, Splice(source, h.start, h.end, text.value))];
      }
    }
  }

  // ----- When a rewritten assignment commutes with masking -----

  /** A prefix that ends with a visible code character ends in code. */
  lemma PrefixRun(u: string, n: nat)
    requires 0 < n <= |u| && Visible(Masked(u)[n - 1])
    ensures Run(Code, u[..n]) == Code
  {
    assert Trace(Code, u)[n - 1] == Code && Next(Code, [u[n - 1]]) == Code by {
      CodeShown(u, n - 1);
      At(Code, u, n - 1);
    }
    var p := u[..n];
    Prefix(Code, u, n);
    assert Trace(Code, p)[n - 1] == Code;
    Suffix(Code, p, n - 1);
    assert p[n - 1..] == [u[n - 1]];
    assert Run(Code, [u[n - 1]]) == Run(Next(Code, [u[n - 1]]), []);
  }

  /** Text cut out of the source from a place in code up to a visible code character is code
      from end to end. */
  lemma SliceRun(source: string, a: nat, b: nat)
    requires a < b <= |source| && StateAt(source, a) == Code && Visible(Masked(source)[b - 1])
    ensures Run(Code, source[a..b]) == Code
  {
    hide Visible, Run, Mask, Trace;
    var u, n := source[a..], b - a;
    Suffix(Code, source, a);
    assert Masked(source)[b - 1] == Masked(source)[a..][n - 1];
    assert Masked(u) == Masked(source)[a..];
    PrefixRun(u, n);
    assert source[a..b] == u[..n];
  }

  /** The left-hand side is copied verbatim: it has no white space at its ends, and lexed on
      its own it starts and ends in code even when it contains comments. */
  lemma LhsIsCode(pat: Pattern, source: string, h: Hit)
    requires pat in {Nonblocking, NonblockingBit, Blocking}
    requires h.start < |source| && MatchAt(pat, Masked(source), h.start) == Some(h)
    ensures Inside(h, source) && Lhs(source, h) == source[h.a0..h.a1]
    ensures Run(Code, Lhs(source, h)) == Code && Solid(Lhs(source, h))
  {
    hide MatchAt, Strip, Masked, LhsEnd;
    CodeShown(source, h.a0);
    CodeShown(source, h.a1 - 1);
    var lhs := source[h.a0..h.a1];
    assert lhs[0] == source[h.a0] && lhs[|lhs| - 1] == source[h.a1 - 1];
    StripTrimmed(lhs);
    SliceRun(source, h.a0, h.a1);
  }

  lemma PlainRun(text: string)
    requires Plain(text)
    ensures Run(Code, text) == Code
  {
    OpenerFreeIsCode(text);
  }

  lemma PlainIsOpenerFree(text: string)
    requires Plain(text)
    ensures OpenerFree(text)
  {
  }

  lemma PlainTail(lhs: string, rest: string)
    requires lhs != [] && !Joins(lhs[|lhs| - 1]) && Run(Code, lhs) == Code
    requires Plain(rest)
    ensures Run(Code, lhs + rest) == Code
  {
    Concat(Code, lhs, rest);
    PlainRun(rest);
  }

  lemma FlipText(lhs: string, bit: string)
    requires lhs != [] && Solid(lhs) && Run(Code, lhs) == Code && (bit == "0" || bit == "1")
    ensures var text := lhs + " <= '" + bit + ";"; Solid(text) && Run(Code, text) == Code
  {
    hide Run;
    var tail := " <= '" + bit + ";";
    PlainTail(lhs, tail);
    assert lhs + " <= '" + bit + ";" == lhs + tail;
  }

  lemma HoldText(lhs: string)
    requires lhs != [] && Solid(lhs) && Run(Code, lhs) == Code
    ensures var text := lhs + " <= " + lhs + ";"; Solid(text) && Run(Code, text) == Code
  {
    hide Run;
    PlainTail(lhs, " <= ");
    Concat(Code, lhs + " <= ", lhs);
    PlainTail(lhs + " <= " + lhs, ";");
  }

  /** Flipping a bit or holding a register always commutes with masking. */
  lemma FlipAndHoldCommute(rw: Rewrite, source: string, h: Hit)
    requires rw.FlipBit? || rw.HoldValue?
    requires h.start < |source| && MatchAt(PatternOf(rw), Masked(source), h.start) == Some(h)
    requires Inside(h, source) && Replacement(rw, source, h).Some?
    ensures Commutes(source, h.start, h.end, Replacement(rw, source, h).value)
  {
    hide MatchAt, Commutes, Lhs, RhsText, Shielded, Contains, RemoveSpaces, Run, Masked, Solid;
    var lhs := Lhs(source, h);
    LhsIsCode(PatternOf(rw), source, h);
    HitInCode(PatternOf(rw), source, h.start);
    if rw.FlipBit? {
      FlipText(lhs, if CharAt(Masked(source), h.b0, '0') then "1" else "0");
    } else {
      HoldText(lhs);
    }
    SpliceIff(source, h.start, h.end, Replacement(rw, source, h).value);
  }

  /** Without lookahead, no text ends inside a two-character token. */
  lemma RunEnds(s: string)
    ensures Run(Code, s) !in {LineOpen, BlockOpen, BlockClose}
  {
    if s != [] {
      At(Code, s, |s| - 1);
    }
  }

  /** `head + rhs + ");"` ends in code exactly when the right-hand side does. */
  lemma WrappedRun(head: string, rhs: string)
    requires head != [] && !Joins(head[|head| - 1]) && Run(Code, head) == Code
    ensures Run(Code, head + rhs + ");") == Code <==> Run(Code, rhs) == Code
  {
    Concat(Code, head, rhs);
    Concat(Code, head + rhs, ");");
    RunEnds(rhs);
    var x := Run(Code, rhs);
    assert ");"[1..] == ";" && ";"[1..] == "";
    assert Run(x, ");") == Run(Next(x, ");"), ";") == Next(Next(x, ");"), ";");
  }

  lemma AssignHead(source: string, h: Hit)
    requires h.start < |source| && MatchAt(Continuous, Masked(source), h.start) == Some(h)
    requires Inside(h, source)
    ensures Run(Code, "assign " + Masked(source)[h.a0..h.a1] + " = ~(") == Code
  {
    hide MatchAt;
    var name := Masked(source)[h.a0..h.a1];
    assert forall k :: 0 <= k < |name| ==> IsWord(name[k]);
    PlainRun("assign " + name + " = ~(");
  }

  predicate NoNewline(s: string) {
    forall k :: 0 <= k < |s| ==> s[k] != '\n'
  }

  /** Two slashes read as code at position k, and no newline after them. */
  predicate CommentAt(st: State, s: string, k: nat) {
    k + 2 <= |s| && Trace(st, s)[k] == Code && s[k] == '/' && s[k + 1] == '/' && NoNewline(s[k + 2..])
  }

  ghost predicate CommentFrom(st: State, s: string) {
    exists k: nat :: CommentAt(st, s, k)
  }

  lemma CommentShift(st: State, s: string, k: nat)
    requires s != []
    ensures CommentAt(st, s, k + 1) <==> CommentAt(Next(st, s), s[1..], k)
  {
    hide Next, NoNewline;
    if k + 3 <= |s| {
      assert s[k + 3..] == s[1..][k + 2..] && Trace(st, s)[k + 1] == Trace(Next(st, s), s[1..])[k];
    }
  }

  lemma CommentFromTail(st: State, s: string)
    requires s != []
    ensures CommentFrom(st, s) <==> CommentAt(st, s, 0) || CommentFrom(Next(st, s), s[1..])
  {
    hide CommentAt, Next;
    if CommentFrom(Next(st, s), s[1..]) {
      var k: nat :| CommentAt(Next(st, s), s[1..], k);
      CommentShift(st, s, k);
    }
    if CommentFrom(st, s) {
      var k: nat :| CommentAt(st, s, k);
      if k > 0 {
        CommentShift(st, s, k - 1);
      }
    }
  }

  /** Lexing ends inside a line comment exactly when two slashes read as code open one and no
      newline follows. */
  lemma {:induction false} LineEnds(st: State, s: string)
    ensures Run(st, s) == Line <==>
            || (st == Line && NoNewline(s))
            || (st == LineOpen && s != [] && NoNewline(s[1..]))
            || CommentFrom(st, s)
    decreases |s|
  {
    hide CommentFrom, NoNewline;
    if s == [] {
      NoComment(st);
    } else {
      LineEnds(Next(st, s), s[1..]);
      CommentFromTail(st, s);
      NewlineTail(s);
      if |s| >= 2 {
        assert s[1..][1..] == s[2..];
      }
    }
  }

  lemma NoComment(st: State)
    ensures !CommentFrom(st, []) && NoNewline([])
  {
  }

  lemma NewlineTail(s: string)
    requires s != []
    ensures NoNewline(s) <==> s[0] != '\n' && NoNewline(s[1..])
  {
    assert forall k :: 0 < k < |s| ==> s[k] == s[1..][k - 1];
  }

  /** The text ends inside a line comment. */
  ghost predicate EndsInLineComment(s: string) {
    CommentFrom(Code, s)
  }

  /** White space leads back to code only from code or from a line comment. */
  lemma {:induction false} SpaceRun(st: State, ws: string)
    requires AllSpace(ws) && st !in {LineOpen, BlockOpen, BlockClose}
    ensures Run(st, ws) == Code ==> st == Code || st == Line
    ensures st == Code ==> Run(st, ws) == Code
    decreases |ws|
  {
    if ws != [] {
      SpaceRun(Next(st, ws), ws[1..]);
    }
  }

  lemma VisibleKept(s: string, k: nat)
    requires k < |s| && !IsSpace(s[k])
    ensures |TrimEnd(s)| > k
  {
    hide TrimEnd;
    var r := TrimEnd(s);
    assert forall j :: |r| <= j < |s| ==> s[j] == s[|r|..][j - |r|];
  }

  /** A text that starts visibly and ends in code, stripped: it ends in code or in a comment. */
  lemma StrippedRun(u: string)
    requires u != [] && !IsSpace(u[0]) && Run(Code, u) == Code
    ensures Strip(u) != [] && Strip(u)[0] == u[0] && Run(Code, Strip(u)) in {Code, Line}
  {
    hide Run, TrimEnd;
    var a := SkipSpace(u, 0);
    assert a == 0 && u[0..] == u;
    var r := Strip(u);
    assert r == TrimEnd(u);
    VisibleKept(u, 0);
    var ws := u[|r|..];
    assert u == r + ws;
    assert ws != [] ==> !Joins(ws[0]);
    Concat(Code, r, ws);
    RunEnds(r);
    SpaceRun(Run(Code, r), ws);
  }

  /** Text cut out between two places in code lexes to code on its own. */
  lemma CodeToCode(source: string, a: nat, b: nat)
    requires a < b < |source| && StateAt(source, a) == Code && StateAt(source, b) == Code
    ensures Run(Code, source[a..b]) == Code
  {
    hide Run, Mask;
    var u, n := source[a..], b - a;
    Suffix(Code, source, a);
    assert Trace(Code, u)[n] == Trace(Code, source)[a..][n];
    PrefixMask(Code, u, n);
    assert u[..n] == source[a..b];
  }

  /** How the stripped right-hand side of a hit lexes on its own: it fails to end in code only
      inside a line comment, or when it is the closing quote of a blanked string. */
  lemma RhsRun(rw: Rewrite, source: string, h: Hit)
    requires rw.InvertContinuous? || rw.InvertBlocking?
    requires h.start < |source| && MatchAt(PatternOf(rw), Masked(source), h.start) == Some(h)
    requires Inside(h, source)
    ensures Run(Code, RhsText(source, h)) == Code <==>
            !EndsInLineComment(RhsText(source, h)) && RhsText(source, h) != ['"']
  {
    hide MatchAt, Strip, Run, CommentFrom, Masked;
    var m, u, r := Masked(source), source[h.b0..h.b1], RhsText(source, h);
    LineEnds(Code, r);
    assert RhsShape(m, h.b0, h.b1);
    CodeShown(source, h.b1);
    if !IsSpace(m[h.b0]) {
      CodeShown(source, h.b0);
      MaskShape(source);
      CodeToCode(source, h.b0, h.b1);
      assert u[0] == source[h.b0] == m[h.b0] != '"';
      StrippedRun(u);
    } else {
      assert u == [source[h.b0]];
      OneCharacter(source[h.b0]);
    }
  }

  lemma OneCharacter(c: char)
    ensures Strip([c]) == (if IsSpace(c) then [] else [c])
    ensures Run(Code, Strip([c])) == Code <==> Strip([c]) != ['"']
    ensures !CommentFrom(Code, Strip([c]))
  {
    if IsSpace(c) {
      assert SkipSpace([c], 0) == 1;
      assert [c][1..] == [];
    } else {
      StripTrimmed([c]);
      assert Run(Code, [c]) == Run(Next(Code, [c]), []);
    }
  }

  /** Inverting an assignment commutes with masking unless something follows it and its
      right-hand side, stripped, ends inside a line comment (which swallows the closing
      parenthesis) or is the closing quote of a string (which then opens one). */
  lemma InvertCommutesIff(rw: Rewrite, source: string, h: Hit)
    requires rw.InvertContinuous? || rw.InvertBlocking?
    requires h.start < |source| && MatchAt(PatternOf(rw), Masked(source), h.start) == Some(h)
    requires Inside(h, source) && Replacement(rw, source, h).Some?
    ensures Commutes(source, h.start, h.end, Replacement(rw, source, h).value) <==>
            (h.end < |source| ==> !EndsInLineComment(RhsText(source, h)) && RhsText(source, h) != ['"'])
  {
    hide MatchAt, Commutes, Lhs, Contains, RhsText, EndsInLineComment;
    var rhs, text := RhsText(source, h), Replacement(rw, source, h).value;
    HitInCode(PatternOf(rw), source, h.start);
    var head;
    if rw.InvertContinuous? {
      head := "assign " + Masked(source)[h.a0..h.a1] + " = ~(";
      AssignHead(source, h);
    } else {
      LhsIsCode(PatternOf(rw), source, h);
      head := Lhs(source, h) + " = ~(";
      PlainTail(Lhs(source, h), " = ~(");
    }
    assert text == head + rhs + ");";
    WrappedRun(head, rhs);
    RhsRun(rw, source, h);
    SpliceIff(source, h.start, h.end, text);
  }

  // ----- The condition fails -----

  /** A line comment: two slashes, and no newline after them. */
  predicate IsLineComment(s: string) {
    |s| >= 2 && s[0] == '/' && s[1] == '/' && NoNewline(s[2..])
  }

  /** Stripping takes white space off the end of a comment, never its slashes. */
  lemma TrimmedComment(comment: string)
    requires IsLineComment(comment)
    ensures IsLineComment(TrimEnd(comment))
  {
    hide TrimEnd;
    var r := TrimEnd(comment);
    VisibleKept(comment, 1);
    assert forall k :: 2 <= k < |r| ==> r[k] == comment[k] == comment[2..][k - 2];
  }

  lemma CodeThenComment(code: string, comment: string)
    requires code == [] || !Joins(code[|code| - 1])
    requires Run(Code, code) == Code && IsLineComment(comment)
    ensures EndsInLineComment(code + comment)
  {
    hide Run, Trace, Mask, NoNewline, CommentAt;
    Concat(Code, code, comment);
    FirstIsCode(comment);
    CommentAfter(code, comment);
  }

  lemma CommentAfter(code: string, comment: string)
    requires IsLineComment(comment) && Trace(Code, comment)[0] == Code
    requires Trace(Code, code + comment) == Trace(Code, code) + Trace(Code, comment)
    ensures CommentAt(Code, code + comment, |code|)
  {
    hide Trace, NoNewline;
    assert (code + comment)[|code| + 2..] == comment[2..];
  }

  lemma FirstIsCode(s: string)
    requires s != []
    ensures Trace(Code, s)[0] == Code
  {
  }

  lemma StripComment(code: string, comment: string, tail: string)
    requires code != [] && !IsSpace(code[0]) && IsLineComment(comment) && AllSpace(tail)
    ensures Strip(code + comment + tail) == code + TrimEnd(comment)
  {
    hide Strip;
    TrimmedComment(comment);
    var c := TrimEnd(comment);
    var r, right := code + c, comment[|c|..] + tail;
    assert code + comment + tail == [] + r + right by {
      assert comment == c + comment[|c|..];
    }
    StripAround([], r, right);
  }

  /** Every inversion whose right-hand side ends in a line comment fails, whatever white space
      lies between the comment and the semicolon. */
  lemma TrailingCommentTrap(rw: Rewrite, source: string, h: Hit, code: string, comment: string, tail: string)
    requires rw.InvertContinuous? || rw.InvertBlocking?
    requires h.start < |source| && MatchAt(PatternOf(rw), Masked(source), h.start) == Some(h)
    requires Inside(h, source) && Replacement(rw, source, h).Some? && h.end < |source|
    requires source[h.b0..h.b1] == code + comment + tail && IsLineComment(comment) && AllSpace(tail)
    requires code != [] && !IsSpace(code[0]) && !Joins(code[|code| - 1]) && Run(Code, code) == Code
    ensures !Commutes(source, h.start, h.end, Replacement(rw, source, h).value)
  {
    hide MatchAt, Commutes, Replacement, Strip, TrimEnd, EndsInLineComment, Run, Masked, IsLineComment;
    StripComment(code, comment, tail);
    TrimmedComment(comment);
    CodeThenComment(code, TrimEnd(comment));
    InvertCommutesIff(rw, source, h);
  }

  /** The mask of code, then something that is blanked, then the rest. */
  lemma MaskedMiddle(code: string, middle: string, rest: string)
    requires code != [] && OpenerFree(code) && !Joins(Last(code)) && middle != [] && !Joins(Last(middle))
    ensures Masked(code + middle + rest) == code + Mask(Code, middle) + Mask(Run(Code, middle), rest)
  {
    hide Mask, Run, Trace;
    OpenerFreeIsCode(code);
    Concat(Code, code + middle, rest);
    Concat(Code, code, middle);
  }

  /** An assignment to y in a mask, up to where its right-hand side starts. */
  lemma AssignToY(t: string, head: string, b0: nat, b1: nat)
    requires head == "assign y = " && head <= t && Rhs(t, 10, ';') == Some((b0, b1))
    ensures MatchAt(Continuous, t, 0) == Some(Hit(0, b1 + 1, 7, 8, b0, b1))
  {
    hide Rhs;
    assert forall k :: 0 <= k < 11 ==> t[k] == head[k];
    assert t[0..6] == "assign";
    assert t[6] == ' ' && t[7] == 'y' && t[8] == ' ' && t[9] == '=';
    SkipIs(IsSpace, t, 6, 7);
    SkipIs(IsWord, t, 7, 8);
    SkipIs(IsSpace, t, 8, 9);
  }

  lemma SkipIs(cls: char -> bool, t: string, p: nat, q: nat)
    requires p <= q < |t| && !cls(t[q]) && forall k :: p <= k < q ==> cls(t[k])
    ensures SkipWhile(cls, t, p) == q
  {
    hide SkipWhile;
  }

  lemma InvertAlways(source: string, h: Hit)
    requires Inside(h, source)
    ensures Replacement(InvertContinuous, source, h).Some?
  {
    hide Masked, RhsText, Lhs, LineStart;
  }

  lemma RhsIs(t: string, p: nat, s: nat, e: nat)
    requires p <= s <= e < |t| && t[e] == ';' && !IsSpace(t[s])
    requires forall k :: p <= k < s ==> IsSpace(t[k])
    requires forall k :: s <= k < e ==> t[k] != ';'
    ensures Rhs(t, p, ';') == if s < e then Some((s, e)) else if p < s then Some((s - 1, e)) else None
  {
    assert SkipSpace(t, p) == s;
    assert SkipWhile((c: char) => c != ';' && c != ';', t, s) == e;
  }

  /** It happens: the comment swallows the parenthesis that the mutation adds. */
  lemma CommentTrapOccurs() returns (source: string, h: Hit)
    ensures source == "assign y = a // c\n;x"
    ensures MatchAt(Continuous, Masked(source), 0) == Some(h) && Inside(h, source)
    ensures !Commutes(source, h.start, h.end, Replacement(InvertContinuous, source, h).value)
  {
    hide Run, Mask, Trace, Rhs, Strip, TrimEnd, MatchAt, Commutes, EndsInLineComment, Replacement, OpenerFree;
    var head, code, comment, newline, rest := "assign y = ", "a ", "// c", "\n", ";x";
    var front := head + code;
    source := front + comment + (newline + rest);
    CommentMask(comment);
    PlainIsOpenerFree(front);
    MaskedMiddle(front, comment, newline + rest);
    LineMask(comment, newline, rest);
    var t := Masked(source);
    assert t == front + "    " + (newline + rest);
    assert t[18] == ';' && t[11] == 'a' && head <= t;
    RhsIs(t, 10, 11, 18);
    AssignToY(t, head, 11, 18);
    h := Hit(0, 19, 7, 8, 11, 18);
    assert source[11..18] == code + comment + newline;
    PlainRun(code);
    InvertAlways(source, h);
    TrailingCommentTrap(InvertContinuous, source, h, code, comment, newline);
  }

  lemma CommentMask(comment: string)
    requires comment == "// c"
    ensures Run(Code, comment) == Line && Mask(Code, comment) == "    "
  {
    At(Code, comment, 0);
    At(Code, comment, 1);
    At(Code, comment, 2);
    At(Code, comment, 3);
  }

  lemma LineMask(comment: string, newline: string, rest: string)
    requires newline == "\n" && rest == ";x"
    ensures Mask(Line, newline + rest) == newline + rest
  {
    assert (newline + rest)[1..] == rest;
    OpenerFreeIsCode(rest);
  }

  /** And the closing quote of a string, alone, opens one. */
  lemma StringTrapOccurs() returns (source: string, h: Hit)
    ensures source == "assign y = \"ab\";x"
    ensures MatchAt(Continuous, Masked(source), 0) == Some(h) && Inside(h, source)
    ensures RhsText(source, h) == ['"']
    ensures !Commutes(source, h.start, h.end, Replacement(InvertContinuous, source, h).value)
  {
    hide Run, Mask, Trace, Rhs, TrimEnd, MatchAt, Commutes, EndsInLineComment, Replacement, OpenerFree;
    var head, text, rest := "assign y = ", "\"ab\"", ";x";
    source := head + text + rest;
    StringMask(text);
    PlainIsOpenerFree(head);
    PlainIsOpenerFree(rest);
    MaskedMiddle(head, text, rest);
    OpenerFreeIsCode(rest);
    var t := Masked(source);
    assert t == head + "    " + rest;
    assert t[15] == ';' && head <= t;
    RhsIs(t, 10, 15, 15);
    AssignToY(t, head, 14, 15);
    h := Hit(0, 16, 7, 8, 14, 15);
    assert source[14..15] == ['"'];
    StripTrimmed(['"']);
    InvertAlways(source, h);
    InvertCommutesIff(InvertContinuous, source, h);
  }

  lemma StringMask(text: string)
    requires text == "\"ab\""
    ensures Run(Code, text) == Code && Mask(Code, text) == "    "
  {
    At(Code, text, 0);
    At(Code, text, 1);
    At(Code, text, 2);
    At(Code, text, 3);
  }

  // ----- No rewrite reproduces its input -----

  lemma SameSplice(source: string, i: nat, j: nat, text: string)
    requires i <= j <= |source| && Splice(source, i, j, text) == source
    ensures |text| == j - i && source[i..j] == text
  {
    assert Splice(source, i, j, text)[i..i + |text|] == text;
  }

  /** Where a right-hand side starts that one blank separates from its operator. */
  lemma RhsAfterBlank(t: string, p: nat, extra: char)
    requires p + 1 < |t| && t[p] == ' ' && !IsSpace(t[p + 1]) && t[p + 1] != ';' && t[p + 1] != extra
    ensures Rhs(t, p, extra).Some? ==> Rhs(t, p, extra).value.0 == p + 1
  {
    hide SkipWhile;
  }

  /** A match whose left-hand side is followed by the operator and single blanks. */
  lemma AssignRead(t: string, op: string, extra: char, h: Hit, more: string)
    requires h.start < |t| && MatchAssign(t, op, extra, h.start) == Some(h)
    requires op == "<=" || op == "="
    requires |more| == |op| + 3 && OccursAt(t, more, h.a1)
    requires more[0] == ' ' && more[1] == op[0] && more[|op| + 1] == ' '
    requires var c := more[|op| + 2]; !IsSpace(c) && c != ';' && c != extra
    ensures h.b0 == h.a1 + |op| + 2
  {
    hide LhsEnd, Rhs, SkipWhile, OccursAt;
    ReadAt(t, more, h.a1, 0);
    ReadAt(t, more, h.a1, 1);
    ReadAt(t, more, h.a1, |op| + 1);
    ReadAt(t, more, h.a1, |op| + 2);
    assert SkipSpace(t, h.a1) == h.a1 + 1;
    RhsAfterBlank(t, h.a1 + 1 + |op|, extra);
  }

  /** Text that the source reads in code after the left-hand side is in the mask too. */
  lemma OperatorRead(source: string, a1: nat, op: string)
    requires 0 < a1 < |source| && Visible(Masked(source)[a1 - 1])
    requires op != [] && OccursAt(source, op, a1) && OpenerFree(op) && !Joins(Last(op))
    ensures OccursAt(Masked(source), op, a1)
  {
    CodeShown(source, a1 - 1);
    PlainTextShown(source, a1, op);
  }

  lemma ReadAt(t: string, pat: string, p: nat, k: nat)
    requires OccursAt(t, pat, p) && k < |pat|
    ensures t[p + k] == pat[k]
  {
    assert t[p..p + |pat|][k] == pat[k];
  }

  /** Part of a replacement that equals what it replaces. */
  lemma Middle(source: string, i: nat, j: nat, a: string, b: string, c: string)
    requires i <= j <= |source| && source[i..j] == a + b + c
    ensures OccursAt(source, b, i + |a|) && source[i + |a|..i + |a| + |b|] == b
  {
    var t, p := source[i..j], i + |a|;
    var m := source[p..p + |b|];
    forall k | 0 <= k < |b|
      ensures m[k] == b[k]
    {
      assert t[|a| + k] == source[p + k];
    }
  }

  /** If the source reads the left-hand side, a blank, the operator, a blank and u, then u is
      its right-hand side. */
  lemma RhsIsRead(op: string, extra: char, source: string, h: Hit, lhs: string, u: string)
    requires h.start < |source| && MatchAssign(Masked(source), op, extra, h.start) == Some(h)
    requires Inside(h, source) && (op == "<=" || op == "=") && |lhs| == h.a1 - h.a0
    requires source[h.start..h.end] == lhs + (" " + op + " ") + u + ";"
    requires u != [] && u[0] !in {';', extra, '/', '*', '"'} && !IsSpace(u[0])
    ensures source[h.b0..h.b1] == u
  {
    hide MatchAssign, Masked, OpenerFree, OccursAt;
    var more := " " + op + " " + [u[0]];
    var rest := u[1..] + ";";
    assert lhs + (" " + op + " ") + u + ";" == lhs + more + rest;
    Middle(source, h.start, h.end, lhs, more, rest);
    PlainIsOpenerFree(more);
    assert Last(more) == u[0];
    OperatorRead(source, h.a1, more);
    AssignRead(Masked(source), op, extra, h, more);
    Middle(source, h.start, h.end, lhs + (" " + op + " "), u, ";");
  }

  lemma FlipChanges(source: string, h: Hit)
    requires h.start < |source| && MatchAt(NonblockingBit, Masked(source), h.start) == Some(h)
    requires Inside(h, source) && Replacement(FlipBit, source, h).Some?
    ensures Splice(source, h.start, h.end, Replacement(FlipBit, source, h).value) != source
  {
    hide Lhs, RhsText, Shielded, LhsThen, Masked, LineStart;
    var text := Replacement(FlipBit, source, h).value;
    CodeShown(source, h.b0);
    assert h.b0 == h.end - 2 && text[|text| - 2] != source[h.b0];
    EndDiffers(source, h.start, h.end, text);
  }

  lemma EndDiffers(source: string, i: nat, j: nat, text: string)
    requires i + 2 <= j <= |source| && |text| >= 2 && text[|text| - 2] != source[j - 2]
    ensures Splice(source, i, j, text) != source
  {
    assert Splice(source, i, j, text)[i + |text| - 2] == text[|text| - 2];
  }

  lemma HoldChanges(source: string, h: Hit)
    requires h.start < |source| && MatchAt(Nonblocking, Masked(source), h.start) == Some(h)
    requires Inside(h, source) && Replacement(HoldValue, source, h).Some?
    ensures Splice(source, h.start, h.end, Replacement(HoldValue, source, h).value) != source
  {
    hide MatchAssign, Lhs, Masked, Splice, Solid, Run, OccursAt, Replacement, Anchored;
    var text, lhs := Replacement(HoldValue, source, h).value, Lhs(source, h);
    LhsIsCode(Nonblocking, source, h);
    CodeShown(source, h.a0);
    HoldIs(source, h);
    if Splice(source, h.start, h.end, text) == source {
      SameSplice(source, h.start, h.end, text);
      assert lhs[0] == source[h.a0];
      RhsIsRead("<=", ';', source, h, lhs, lhs);
      HeldAlready(source, h);
    }
  }

  lemma HoldIs(source: string, h: Hit)
    requires Inside(h, source) && Replacement(HoldValue, source, h).Some?
    ensures var lhs := Lhs(source, h);
            Replacement(HoldValue, source, h).value == lhs + (" " + "<=" + " ") + lhs + ";"
  {
    hide Masked, Lhs, RhsText, Contains, Shielded, RemoveSpaces;
  }

  /** An assignment that holds its register already has no mutant. */
  lemma HeldAlready(source: string, h: Hit)
    requires Inside(h, source) && source[h.b0..h.b1] == Lhs(source, h)
    ensures Replacement(HoldValue, source, h).None?
  {
    hide Masked, Strip, Contains, Shielded, RemoveSpaces;
    StripTrimmed(Lhs(source, h));
  }

  function Wrapped(rhs: string): string {
    "~(" + rhs + ")"
  }

  /** A wrapped right-hand side is not the one that was there. */
  lemma WrappedDiffers(rhs: string)
    ensures Strip(Wrapped(rhs)) != rhs
  {
    hide Strip;
    StripTrimmed(Wrapped(rhs));
  }

  lemma BlockingIs(source: string, h: Hit)
    requires Inside(h, source) && Replacement(InvertBlocking, source, h).Some?
    ensures var lhs, u := Lhs(source, h), Wrapped(RhsText(source, h));
            Replacement(InvertBlocking, source, h).value == lhs + (" " + "=" + " ") + u + ";"
  {
    hide Masked, Lhs, RhsText, Contains;
  }

  lemma BlockingChanges(source: string, h: Hit)
    requires h.start < |source| && MatchAt(Blocking, Masked(source), h.start) == Some(h)
    requires Inside(h, source) && Replacement(InvertBlocking, source, h).Some?
    ensures Splice(source, h.start, h.end, Replacement(InvertBlocking, source, h).value) != source
  {
    hide MatchAssign, Lhs, Masked, Strip, Splice, Solid, Run, OccursAt, Replacement, Anchored;
    var text, lhs, rhs := Replacement(InvertBlocking, source, h).value, Lhs(source, h), RhsText(source, h);
    LhsIsCode(Blocking, source, h);
    BlockingIs(source, h);
    if Splice(source, h.start, h.end, text) == source {
      SameSplice(source, h.start, h.end, text);
      RhsIsRead("=", '=', source, h, lhs, Wrapped(rhs));
      WrappedDiffers(rhs);
    }
  }

  /** A continuous assignment written with single blanks. */
  lemma ContinuousRead(t: string, h: Hit, name: string, more: string)
    requires h.start < |t| && MatchContinuous(t, h.start) == Some(h)
    requires name == t[h.a0..h.a1] && name != []
    requires |more| == 11 + |name| && OccursAt(t, more, h.start)
    requires more[6] == ' ' && more[7..7 + |name|] == name && (forall k :: 0 <= k < |name| ==> IsWord(name[k]))
    requires var l := 7 + |name|; more[l] == ' ' && more[l + 1] == '=' && more[l + 2] == ' ' && more[l + 3] == '~'
    ensures h.a0 == h.start + 7 && h.b0 == h.a1 + 3
  {
    hide Rhs, SkipWhile, OccursAt;
    var p, l := h.start, 7 + |name|;
    ReadAt(t, more, p, 6);
    ReadAt(t, more, p, 7);
    assert more[7] == name[0];
    ReadAt(t, more, p, l);
    ReadAt(t, more, p, l + 1);
    ReadAt(t, more, p, l + 2);
    ReadAt(t, more, p, l + 3);
    assert IsIdentStart(name[0]) by {
      assert name[0] == t[h.a0];
    }
    assert SkipSpace(t, p + 6) == p + 7;
    assert h.a0 == p + 7;
    EndOfName(t, h.a0, h.a1, p + l, name);
    assert SkipSpace(t, p + l) == p + l + 1;
    RhsAfterBlank(t, p + l + 2, ';');
  }

  lemma EndOfName(t: string, a0: nat, a1: nat, q: nat, name: string)
    requires a0 <= a1 <= |t| && name == t[a0..a1] && q == a0 + |name|
    ensures q == a1
  {
  }

  lemma FrontShape(name: string, u: string) returns (more: string)
    requires u != [] && u[0] == '~' && forall k :: 0 <= k < |name| ==> IsWord(name[k])
    ensures more == "assign " + name + " = " + "~" && |more| == 11 + |name|
    ensures more[6] == ' ' && more[7..7 + |name|] == name
    ensures var l := 7 + |name|; more[l] == ' ' && more[l + 1] == '=' && more[l + 2] == ' ' && more[l + 3] == '~'
    ensures OpenerFree(more) && !Joins(Last(more))
    ensures "assign " + name + " = " + u + ";" == more + (u[1..] + ";")
  {
    more := "assign " + name + " = " + "~";
    PlainIsOpenerFree(more);
  }

  lemma ContinuousIsRead(source: string, h: Hit, name: string, u: string)
    requires h.start < |source| && MatchContinuous(Masked(source), h.start) == Some(h)
    requires Inside(h, source) && name == Masked(source)[h.a0..h.a1] && u != [] && u[0] == '~'
    requires source[h.start..h.end] == "assign " + name + " = " + u + ";"
    ensures source[h.b0..h.b1] == u
  {
    hide MatchContinuous, Masked, OpenerFree, OccursAt;
    assert forall k :: 0 <= k < |name| ==> IsWord(name[k]);
    var more := FrontShape(name, u);
    Front(source, h.start, h.end, more, u[1..] + ";");
    CodeShown(source, h.start);
    PlainTextShown(source, h.start, more);
    ContinuousRead(Masked(source), h, name, more);
    Middle(source, h.start, h.end, "assign " + name + " = ", u, ";");
  }

  lemma Front(source: string, i: nat, j: nat, a: string, b: string)
    requires i <= j <= |source| && source[i..j] == a + b
    ensures OccursAt(source, a, i)
  {
    assert [] + a + b == a + b;
    Middle(source, i, j, [], a, b);
  }

  lemma ContinuousIs(source: string, h: Hit)
    requires Inside(h, source)
    ensures var name, u := Masked(source)[h.a0..h.a1], Wrapped(RhsText(source, h));
            Replacement(InvertContinuous, source, h) == Some("assign " + name + " = " + u + ";")
  {
    hide Masked, Lhs, RhsText, LineStart;
    var name, u := Masked(source)[h.a0..h.a1], Wrapped(RhsText(source, h));
    assert "assign " + name + " = ~(" + RhsText(source, h) + ");" == "assign " + name + " = " + u + ";";
  }

  lemma ContinuousChanges(source: string, h: Hit)
    requires h.start < |source| && MatchAt(Continuous, Masked(source), h.start) == Some(h)
    requires Inside(h, source) && Replacement(InvertContinuous, source, h).Some?
    ensures Splice(source, h.start, h.end, Replacement(InvertContinuous, source, h).value) != source
  {
    hide MatchContinuous, Masked, Strip, Splice, Replacement;
    var text, rhs := Replacement(InvertContinuous, source, h).value, RhsText(source, h);
    ContinuousIs(source, h);
    if Splice(source, h.start, h.end, text) == source {
      SameSplice(source, h.start, h.end, text);
      ContinuousIsRead(source, h, Masked(source)[h.a0..h.a1], Wrapped(rhs));
      WrappedDiffers(rhs);
    }
  }

  lemma RewriteChanges(rw: Rewrite, source: string, h: Hit)
    requires IsHit(PatternOf(rw), Masked(source), 0, h)
    ensures var text := Replacement(rw, source, h);
            text.Some? ==> Splice(source, h.start, h.end, text.value) != source
  {
    hide MatchAt, Replacement, Splice, Masked;
    if Replacement(rw, source, h).Some? {
      match rw
      case FlipBit => FlipChanges(source, h);
      case InvertContinuous => ContinuousChanges(source, h);
      case HoldValue => HoldChanges(source, h);
      case InvertBlocking => BlockingChanges(source, h);
    }
  }

  /** No held, flipped or inverted assignment reproduces its input, even when the assignment
      contains comments or strings. */
  lemma RewritesChange(rw: Rewrite, source: string)
    ensures forall c :: c in RewriteCandidates(rw, source) ==> c.source != source
  {
    hide FindIter, MatchAt, Rewritten, Replacement, Describe, Splice, Masked, PatternOf;
    var hits := FindIter(PatternOf(rw), Masked(source), 0);
    forall c | c in RewriteCandidates(rw, source)
      ensures c.source != source
    {
      RewrittenIff(rw, source, hits, |hits|, c);
      var k :| 0 <= k < |hits| && FromHit(rw, source, hits[k], c);
      RewriteChanges(rw, source, hits[k]);
    }
  }

  // ----- Reset state -----

  /** Where the branch of a reset condition ends: after its first semicolon (or with the text)
      when it has no `begin`, else at the `end` that balances it. */
  ghost predicate IsResetEnd(mask: string, h: Hit, end: nat)
    requires Inside(h, mask)
  {
    if h.a0 == h.a1 then
      && h.end <= end <= |mask| && (forall k :: h.end <= k < end - 1 ==> mask[k] != ';')
      && (|| (end > h.end && mask[end - 1] == ';')
          || (end == |mask| && forall k :: h.end <= k < |mask| ==> mask[k] != ';'))
    else IsBlockEnd(Tokens(mask[h.end..], 0), h.end, end)
  }

  lemma FirstSemicolon(mask: string, p: nat)
    requires p <= |mask|
    ensures var semi := Find(mask, ";", p);
            if semi.None? then forall k :: p <= k < |mask| ==> mask[k] != ';'
            else
              && p <= semi.value < |mask| && mask[semi.value] == ';'
              && forall k :: p <= k < semi.value ==> mask[k] != ';'
  {
    forall k | p <= k < |mask|
      ensures OccursAt(mask, ";", k) <==> mask[k] == ';'
    {
      assert mask[k..k + 1] == [mask[k]];
    }
  }

  lemma SpanEndMeans(mask: string, h: Hit)
    requires Inside(h, mask)
    ensures IsResetEnd(mask, h, SpanEnd(mask, h))
  {
    hide Tokens, BlockEnd, Find, IsBlockEnd;
    FirstSemicolon(mask, h.end);
    var tokens := Tokens(mask[h.end..], 0);
    BlockEndMeaning(tokens, h.end, 0);
  }

  lemma ResetEndUnique(mask: string, h: Hit, a: nat, b: nat)
    requires Inside(h, mask) && IsResetEnd(mask, h, a) && IsResetEnd(mask, h, b)
    ensures a == b
  {
    if h.a0 != h.a1 {
      BlockEndUnique(Tokens(mask[h.end..], 0), h.end, a, b);
    }
  }

  /** Position p lies between a reset condition and the end of its branch. */
  ghost predicate InReset(mask: string, p: nat) {
    var hits := FindIter(ResetIf, mask, 0);
    exists k: nat, end: nat :: k < |hits| && IsResetEnd(mask, hits[k], end) && hits[k].start <= p < end
  }

  lemma SpansAreResets(mask: string, p: nat)
    ensures InsideAnySpan(p, ResetSpansOf(mask)) <==> InReset(mask, p)
  {
    hide FindIter, IsResetEnd, SpanEnd;
    var hits, spans := FindIter(ResetIf, mask, 0), ResetSpansOf(mask);
    if InsideAnySpan(p, spans) {
      var k :| 0 <= k < |spans| && spans[k].0 <= p < spans[k].1;
      SpanEndMeans(mask, hits[k]);
    }
    if InReset(mask, p) {
      var k: nat, end: nat :| k < |hits| && IsResetEnd(mask, hits[k], end) && hits[k].start <= p < end;
      SpanEndMeans(mask, hits[k]);
      ResetEndUnique(mask, hits[k], end, SpanEnd(mask, hits[k]));
      assert spans[k] == (hits[k].start, end);
    }
  }

  /** The candidate that hit h gives. */
  ghost predicate FromHit(rw: Rewrite, source: string, h: Hit, c: Candidate)
    requires Inside(h, source)
  {
    var text, d := Replacement(rw, source, h), Describe(rw, Masked(source), h);
    text.Some? && c == Candidate(d.0, d.1, Splice(source, h.start, h.end, text.value))
  }

  lemma {:induction false} RewrittenIff(rw: Rewrite, source: string, hits: seq<Hit>, n: nat, c: Candidate)
    requires n <= |hits| && forall k :: 0 <= k < |hits| ==> Inside(hits[k], source)
    ensures c in Rewritten(rw, source, hits, n) <==> exists k :: 0 <= k < n && FromHit(rw, source, hits[k], c)
  {
    hide Replacement, Describe, Splice, Masked;
    if n > 0 {
      RewrittenIff(rw, source, hits, n - 1, c);
      if FromHit(rw, source, hits[n - 1], c) {
        assert c in Rewritten(rw, source, hits, n);
      }
    }
  }

  /** The state of the register a held or flipped assignment targets: outside every reset
      branch, or an output. */
  ghost predicate MayMutate(source: string, h: Hit)
    requires Inside(h, source)
  {
    var mask := Masked(source);
    InReset(mask, h.start) ==> BaseName(Lhs(source, h)) in OutputNames(mask)
  }

  lemma NotShielded(rw: Rewrite, source: string, h: Hit)
    requires rw.FlipBit? || rw.HoldValue?
    requires Inside(h, source) && Replacement(rw, source, h).Some?
    ensures !Shielded(Masked(source), h, Lhs(source, h))
  {
    hide Shielded, Masked, Contains, RemoveSpaces, Lhs, RhsText;
  }

  /** No held or flipped mutant targets reset state that is not an output: every candidate
      comes from an assignment outside all reset branches or to an output. */
  lemma ShieldedStateIsKept(rw: Rewrite, source: string, c: Candidate) returns (h: Hit)
    requires rw.FlipBit? || rw.HoldValue?
    requires c in RewriteCandidates(rw, source)
    ensures h in FindIter(PatternOf(rw), Masked(source), 0) && Inside(h, source)
    ensures FromHit(rw, source, h, c) && MayMutate(source, h)
  {
    hide FindIter, Rewritten, FromHit, MayMutate, Masked, PatternOf;
    var hits := FindIter(PatternOf(rw), Masked(source), 0);
    assert c in Rewritten(rw, source, hits, |hits|);
    RewrittenIff(rw, source, hits, |hits|, c);
    var k :| 0 <= k < |hits| && FromHit(rw, source, hits[k], c);
    h := hits[k];
    HitMayMutate(rw, source, h, c);
  }

  lemma HitMayMutate(rw: Rewrite, source: string, h: Hit, c: Candidate)
    requires rw.FlipBit? || rw.HoldValue?
    requires Inside(h, source) && FromHit(rw, source, h, c)
    ensures MayMutate(source, h)
  {
    hide InReset, OutputNames, BaseName, Lhs, ResetSpansOf, InsideAnySpan, Masked, Splice, Replacement, Describe;
    SpansAreResets(Masked(source), h.start);
    NotShielded(rw, source, h);
  }

  /** And no other constant assignment is spared: each one outside all reset branches, or to
      an output, gives its flipped mutant. */
  lemma OnlyResetStateIsShielded(source: string, k: nat)
    requires k < |FindIter(NonblockingBit, Masked(source), 0)|
    ensures var h := FindIter(NonblockingBit, Masked(source), 0)[k];
            MayMutate(source, h) <==>
            exists c :: c in RewriteCandidates(FlipBit, source) && FromHit(FlipBit, source, h, c)
  {
    hide FindIter, Rewritten, InReset, OutputNames, BaseName, Lhs, ResetSpansOf, InsideAnySpan, Masked, Splice,
        Describe;
    var hits := FindIter(NonblockingBit, Masked(source), 0);
    var h := hits[k];
    SpansAreResets(Masked(source), h.start);
    if MayMutate(source, h) {
      var d, text := Describe(FlipBit, Masked(source), h), Replacement(FlipBit, source, h);
      var c := Candidate(d.0, d.1, Splice(source, h.start, h.end, text.value));
      RewrittenIff(FlipBit, source, hits, |hits|, c);
      assert FromHit(FlipBit, source, hits[k], c);
    }
  }

  // ----- Exactly which assignments are rewritten, and to what -----

  /** The word stands before position p on its line. */
  ghost predicate BeforeOnLine(mask: string, word: string, p: nat) {
    exists j: nat ::
      j + |word| <= p <= |mask| && OccursAt(mask, word, j) && forall k :: j <= k < p ==> mask[k] != '\n'
  }

  lemma LineContains(mask: string, word: string, p: nat)
    requires p <= |mask|
    ensures Contains(mask[LineStart(mask, p)..p], word) <==> BeforeOnLine(mask, word, p)
  {
    hide LineStart, Find, OccursAt;
    var start := LineStart(mask, p);
    var line := mask[start..p];
    if Contains(line, word) {
      OccursInside(mask, start, p, word, Find(line, word, 0).value);
      assert OccursAt(mask, word, start + Find(line, word, 0).value);
    }
    if BeforeOnLine(mask, word, p) {
      var j: nat :| j + |word| <= p && OccursAt(mask, word, j) && forall k :: j <= k < p ==> mask[k] != '\n';
      SameLine(mask, j, p);
      OccursInside(mask, start, p, word, j - start);
    }
  }

  lemma OccursInside(t: string, a: nat, b: nat, word: string, j: nat)
    requires a <= b <= |t|
    ensures OccursAt(t[a..b], word, j) <==> a + j + |word| <= b && OccursAt(t, word, a + j)
  {
    if a + j + |word| <= b {
      var line := t[a..b];
      var inner, outer := line[j..j + |word|], t[a + j..a + j + |word|];
      assert forall k :: 0 <= k < |word| ==> inner[k] == line[j + k] == t[a + j + k] == outer[k];
      assert inner == outer;
    }
  }

  lemma {:induction false} SameLine(mask: string, j: nat, p: nat)
    requires j <= p <= |mask| && forall k :: j <= k < p ==> mask[k] != '\n'
    ensures LineStart(mask, p) <= j
    decreases p
  {
    if p > j {
      SameLine(mask, j, p - 1);
    }
  }

  /** Positions of n candidates among `total` hits, in order. */
  ghost predicate Chosen(at: seq<nat>, total: nat, n: nat) {
    && |at| == n && (forall m :: 0 <= m < n ==> at[m] < total)
    && forall i, j :: 0 <= i < j < n ==> at[i] < at[j]
  }

  /** The candidates come from the hits at these positions: exactly those, among the first n,
      that have a replacement. */
  ghost predicate ListedAt(rw: Rewrite, source: string, hits: seq<Hit>, n: nat, at: seq<nat>, cands: seq<Candidate>)
    requires n <= |hits| && forall k :: 0 <= k < |hits| ==> Inside(hits[k], source)
  {
    && Chosen(at, n, |cands|)
    && (forall k :: 0 <= k < n ==> (k in at <==> Replacement(rw, source, hits[k]).Some?))
    && (forall m :: 0 <= m < |cands| ==> FromHit(rw, source, hits[at[m]], cands[m]))
  }

  lemma ListSkip(rw: Rewrite, source: string, hits: seq<Hit>, n: nat, at: seq<nat>, cands: seq<Candidate>)
    requires n < |hits| && forall k :: 0 <= k < |hits| ==> Inside(hits[k], source)
    requires ListedAt(rw, source, hits, n, at, cands) && Replacement(rw, source, hits[n]).None?
    ensures ListedAt(rw, source, hits, n + 1, at, cands)
  {
    hide Replacement, FromHit;
    assert n !in at;
  }

  lemma ListTake(rw: Rewrite, source: string, hits: seq<Hit>, n: nat, at: seq<nat>, cands: seq<Candidate>, c: Candidate)
    requires n < |hits| && forall k :: 0 <= k < |hits| ==> Inside(hits[k], source)
    requires ListedAt(rw, source, hits, n, at, cands)
    requires Replacement(rw, source, hits[n]).Some? && FromHit(rw, source, hits[n], c)
    ensures ListedAt(rw, source, hits, n + 1, at + [n], cands + [c])
  {
    hide Replacement, FromHit;
    var at', cands' := at + [n], cands + [c];
    assert at'[|at|] == n && forall m :: 0 <= m < |at| ==> at'[m] == at[m];
    forall m | 0 <= m < |cands'|
      ensures FromHit(rw, source, hits[at'[m]], cands'[m])
    {
      if m < |cands| {
        assert cands'[m] == cands[m] && at'[m] == at[m];
      }
    }
  }

  lemma {:induction false} RewrittenAt(rw: Rewrite, source: string, hits: seq<Hit>, n: nat) returns (at: seq<nat>)
    requires n <= |hits| && forall k :: 0 <= k < |hits| ==> Inside(hits[k], source)
    ensures ListedAt(rw, source, hits, n, at, Rewritten(rw, source, hits, n))
  {
    hide Replacement, Describe, Splice, Masked, ListedAt, FromHit;
    if n == 0 {
      at := [];
      NoneListed(rw, source, hits);
    } else {
      var before := RewrittenAt(rw, source, hits, n - 1);
      var cands, text := Rewritten(rw, source, hits, n - 1), Replacement(rw, source, hits[n - 1]);
      if text.None? {
        at := before;
        ListSkip(rw, source, hits, n - 1, before, cands);
        assert cands + [] == cands;
      } else {
        at := before + [n - 1];
        var d := Describe(rw, Masked(source), hits[n - 1]);
        var c := Candidate(d.0, d.1, Splice(source, hits[n - 1].start, hits[n - 1].end, text.value));
        TakenFrom(rw, source, hits[n - 1], c);
        ListTake(rw, source, hits, n - 1, before, cands, c);
      }
    }
  }

  lemma TakenFrom(rw: Rewrite, source: string, h: Hit, c: Candidate)
    requires Inside(h, source) && Replacement(rw, source, h).Some?
    requires var d := Describe(rw, Masked(source), h);
             c == Candidate(d.0, d.1, Splice(source, h.start, h.end, Replacement(rw, source, h).value))
    ensures FromHit(rw, source, h, c)
  {
  }

  lemma NoneListed(rw: Rewrite, source: string, hits: seq<Hit>)
    requires forall k :: 0 <= k < |hits| ==> Inside(hits[k], source)
    ensures ListedAt(rw, source, hits, 0, [], [])
  {
  }

  /** The hits that a rewrite's candidates come from. */
  lemma CandidatesAt(rw: Rewrite, source: string) returns (at: seq<nat>)
    ensures var hits, cands := FindIter(PatternOf(rw), Masked(source), 0), RewriteCandidates(rw, source);
            && Chosen(at, |hits|, |cands|)
            && (forall k :: 0 <= k < |hits| ==> (k in at <==> Replacement(rw, source, hits[k]).Some?))
            && (forall m :: 0 <= m < |cands| ==> at[m] < |hits| && FromHit(rw, source, hits[at[m]], cands[m]))
  {
    hide Rewritten, FindIter, FromHit, Masked, Replacement, PatternOf;
    var hits := FindIter(PatternOf(rw), Masked(source), 0);
    at := RewrittenAt(rw, source, hits, |hits|);
  }

  /** The source with the text of hit h replaced. */
  ghost predicate ReplacedAt(source: string, h: Hit, text: string, mutant: string)
    requires Inside(h, source)
  {
    mutant == source[..h.start] + text + source[h.end..]
  }

  /** A register is held by exactly those nonblocking assignments, in order, that have no
      `default:` before them on their line, whose two sides differ by more than white space,
      and that lie outside all reset branches or target an output; each becomes an assignment
      of the left-hand side to itself. */
  lemma HeldExactly(source: string) returns (at: seq<nat>)
    ensures var mask := Masked(source);
            var hits, cands := FindIter(Nonblocking, mask, 0), RewriteCandidates(HoldValue, source);
            && Chosen(at, |hits|, |cands|)
            && (forall k :: 0 <= k < |hits| ==> (k in at <==> Held(source, hits[k])))
            && (forall m :: 0 <= m < |cands| ==>
                  && at[m] < |hits|
                  && var h := hits[at[m]];
                     var lhs := Strip(source[h.a0..h.a1]);
                     && cands[m].operator == "assignment_hold"
                     && cands[m].description == "registered assignment holds its previous value"
                     && ReplacedAt(source, h, lhs + " <= " + lhs + ";", cands[m].source))
  {
    hide FindIter, RewriteCandidates, InReset, OutputNames, BaseName, Strip, ResetSpansOf, InsideAnySpan, Masked,
        RemoveSpaces, LineStart, Find, MayMutate, BeforeOnLine;
    at := CandidatesAt(HoldValue, source);
    var mask := Masked(source);
    var hits := FindIter(Nonblocking, mask, 0);
    forall k | 0 <= k < |hits|
      ensures Replacement(HoldValue, source, hits[k]).Some? <==> Held(source, hits[k])
    {
      HeldIff(source, hits[k]);
    }
  }

  /** The condition, with the two sides as the source has them. */
  ghost predicate Held(source: string, h: Hit)
    requires Inside(h, source)
  {
    && !BeforeOnLine(Masked(source), "default:", h.start)
    && RemoveSpaces(Strip(source[h.b0..h.b1])) != RemoveSpaces(Strip(source[h.a0..h.a1]))
    && MayMutate(source, h)
  }

  lemma HeldIff(source: string, h: Hit)
    requires Inside(h, source)
    ensures Replacement(HoldValue, source, h).Some? <==> Held(source, h)
  {
    hide InReset, OutputNames, BaseName, Strip, ResetSpansOf, InsideAnySpan, Masked, RemoveSpaces, LineStart, Find;
    LineContains(Masked(source), "default:", h.start);
    SpansAreResets(Masked(source), h.start);
  }

  /** A bit is flipped in exactly those constant assignments that lie outside all reset branches
      or target an output. */
  lemma FlippedExactly(source: string) returns (at: seq<nat>)
    ensures var mask := Masked(source);
            var hits, cands := FindIter(NonblockingBit, mask, 0), RewriteCandidates(FlipBit, source);
            && Chosen(at, |hits|, |cands|)
            && (forall k :: 0 <= k < |hits| ==> (k in at <==> MayMutate(source, hits[k])))
            && (forall m :: 0 <= m < |cands| ==>
                  && at[m] < |hits|
                  && var h := hits[at[m]];
                     && mask[h.b0] in {'0', '1'}
                     && cands[m].operator == "assignment_deletion"
                     && cands[m].description == (if mask[h.b0] == '0' then "zero assignment becomes all ones"
                                                 else "all-ones assignment becomes zero")
                     && ReplacedAt(source, h, Strip(source[h.a0..h.a1]) + " <= '" +
                                              (if mask[h.b0] == '0' then "1" else "0") + ";", cands[m].source))
  {
    hide FindIter, RewriteCandidates, InReset, OutputNames, BaseName, Strip, ResetSpansOf, InsideAnySpan, Masked,
        LineStart, Find, MatchBit;
    at := CandidatesAt(FlipBit, source);
    var mask := Masked(source);
    var hits := FindIter(NonblockingBit, mask, 0);
    forall k | 0 <= k < |hits|
      ensures Replacement(FlipBit, source, hits[k]).Some? <==> MayMutate(source, hits[k])
      ensures mask[hits[k].b0] in {'0', '1'}
    {
      SpansAreResets(mask, hits[k].start);
      BitIsBit(mask, hits[k].start);
    }
  }

  lemma BitIsBit(t: string, p: nat)
    requires p < |t| && MatchBit(t, p).Some?
    ensures t[MatchBit(t, p).value.b0] in {'0', '1'}
  {
  }

  /** Every continuous assignment is inverted. */
  lemma ContinuousExactly(source: string) returns (at: seq<nat>)
    ensures var mask := Masked(source);
            var hits, cands := FindIter(Continuous, mask, 0), RewriteCandidates(InvertContinuous, source);
            && Chosen(at, |hits|, |cands|)
            && (forall k :: 0 <= k < |hits| ==> k in at)
            && (forall m :: 0 <= m < |cands| ==>
                  && at[m] < |hits|
                  && var h := hits[at[m]];
                     && cands[m].operator == "output_inversion"
                     && cands[m].description == "continuous output is inverted"
                     && ReplacedAt(source, h, "assign " + mask[h.a0..h.a1] + " = ~(" + Strip(source[h.b0..h.b1]) + ");",
                                   cands[m].source))
  {
    hide FindIter, RewriteCandidates, Strip, Masked, LineStart, Find;
    at := CandidatesAt(InvertContinuous, source);
  }

  /** Exactly those blocking assignments are inverted that no `for (` precedes on their line. */
  lemma BlockingExactly(source: string) returns (at: seq<nat>)
    ensures var mask := Masked(source);
            var hits, cands := FindIter(Blocking, mask, 0), RewriteCandidates(InvertBlocking, source);
            && Chosen(at, |hits|, |cands|)
            && (forall k :: 0 <= k < |hits| ==>
                  (k in at <==>
                     !BeforeOnLine(mask, "for (", hits[k].start) && !BeforeOnLine(mask, "for(", hits[k].start)))
            && (forall m :: 0 <= m < |cands| ==>
                  && at[m] < |hits|
                  && var h := hits[at[m]];
                     && cands[m].operator == "blocking_output_inversion"
                     && cands[m].description == "combinational assignment is inverted"
                     && ReplacedAt(source, h, Strip(source[h.a0..h.a1]) + " = ~(" + Strip(source[h.b0..h.b1]) + ");",
                                   cands[m].source))
  {
    hide FindIter, RewriteCandidates, Strip, Masked, LineStart, Find;
    at := CandidatesAt(InvertBlocking, source);
    var mask := Masked(source);
    var hits := FindIter(Blocking, mask, 0);
    forall k | 0 <= k < |hits|
      ensures Replacement(InvertBlocking, source, hits[k]).Some? <==>
              !BeforeOnLine(mask, "for (", hits[k].start) && !BeforeOnLine(mask, "for(", hits[k].start)
    {
      LineContains(mask, "for (", hits[k].start);
      LineContains(mask, "for(", hits[k].start);
    }
  }
}
