/** `extract_module_source` of harness/evalmodel.py: pulling one module out of a model's reply. */
module ModuleExtraction {
  import opened Wrappers
  import opened SvMask
  import opened Text
  import opened RtlPatterns

  datatype ShapeError =
    | NoModule
    | MultipleModules(names: seq<string>)
    | WrongModule(name: string)

  datatype Error =
    | UnterminatedFence
    | NoModuleInFences
    | MalformedFence
    | BadShape(shape: ShapeError)

  datatype Extraction = Accepted(text: string) | Refused(error: Error)

  // ----- Module declarations -----

  predicate IsModuleChar(c: char) {
    IsWord(c) || c == '$'
  }

  /** The trailing `\b` gives back dollar signs: the last position after a word character. */
  function LastBoundary(t: string, q: nat, e: nat): (r: nat)
    requires q < e <= |t| && IsWord(t[q])
    ensures q < r <= e && IsWord(t[r - 1]) && forall k :: r <= k < e ==> !IsWord(t[k])
  {
    if IsWord(t[e - 1]) then e else LastBoundary(t, q, e - 1)
  }

  /** `\bmodule\s+([A-Za-z_][A-Za-z0-9_$]*)\b` at position p: the span of the name. */
  function DeclAt(t: string, p: nat): (r: Option<(nat, nat)>)
    ensures r.Some? ==> p < r.value.0 < r.value.1 <= |t|
  {
    if !WordStart(t, "module", p) then None
    else
      var q := SkipSpace(t, p + 6);
      if q == p + 6 || !IdentAt(t, q) then None
      else
        var e := SkipWhile(IsModuleChar, t, q);
        Some((q, LastBoundary(t, q, e)))
  }

  /** The names of all declarations from position p on. */
  function ModuleNames(t: string, p: nat): seq<string>
    decreases |t| - p
  {
    if p >= |t| then []
    else
      var d := DeclAt(t, p);
      if d.None? then ModuleNames(t, p + 1)
      else [t[d.value.0..d.value.1]] + ModuleNames(t, d.value.1)
  }

  /** Each start is a declaration of the name at the same place. */
  ghost predicate Names(t: string, starts: seq<nat>, names: seq<string>) {
    && |starts| == |names|
    && forall k :: 0 <= k < |starts| ==>
         var d := DeclAt(t, starts[k]); d.Some? && names[k] == t[d.value.0..d.value.1]
  }

  lemma NamesCons(t: string, p: nat, rest: seq<nat>, names: seq<string>)
    requires DeclAt(t, p).Some? && Names(t, rest, names)
    ensures Names(t, [p] + rest, [t[DeclAt(t, p).value.0..DeclAt(t, p).value.1]] + names)
  {
    hide DeclAt;
    var starts := [p] + rest;
    forall k | 0 < k < |starts|
      ensures starts[k] == rest[k - 1]
    {
    }
  }

  lemma NoNames(t: string)
    ensures Names(t, [], [])
  {
  }

  /** Where those declarations start. */
  ghost function ModuleStarts(t: string, p: nat): (starts: seq<nat>)
    ensures Names(t, starts, ModuleNames(t, p))
    decreases |t| - p
  {
    hide DeclAt, Names;
    NoNames(t);
    if p >= |t| then []
    else
      var d := DeclAt(t, p);
      if d.None? then ModuleStarts(t, p + 1)
      else
        var rest := ModuleStarts(t, d.value.1);
        NamesCons(t, p, rest, ModuleNames(t, d.value.1));
        [p] + rest
  }

  /** Position q lies inside one of the declarations. */
  ghost predicate Declared(t: string, starts: seq<nat>, q: nat) {
    exists k :: 0 <= k < |starts| && DeclAt(t, starts[k]).Some? && starts[k] <= q < DeclAt(t, starts[k]).value.1
  }

  lemma DeclaredCons(t: string, p: nat, rest: seq<nat>, q: nat)
    requires DeclAt(t, p).Some? && (p <= q < DeclAt(t, p).value.1 || Declared(t, rest, q))
    ensures Declared(t, [p] + rest, q)
  {
    hide DeclAt;
    var starts := [p] + rest;
    if p <= q < DeclAt(t, p).value.1 {
      assert starts[0] == p;
    } else {
      var k :| 0 <= k < |rest| && DeclAt(t, rest[k]).Some? && rest[k] <= q < DeclAt(t, rest[k]).value.1;
      assert starts[k + 1] == rest[k];
    }
  }

  /** No declaration is missed: each lies inside one that is listed. */
  lemma {:induction false} NoModuleMissed(t: string, p: nat, q: nat)
    requires p <= q < |t| && DeclAt(t, q).Some?
    ensures Declared(t, ModuleStarts(t, p), q)
    decreases |t| - p
  {
    hide DeclAt, Declared;
    var d := DeclAt(t, p);
    if d.None? {
      NoModuleMissed(t, p + 1, q);
    } else {
      if q >= d.value.1 {
        NoModuleMissed(t, d.value.1, q);
      }
      DeclaredCons(t, p, ModuleStarts(t, d.value.1), q);
    }
  }

  function ShapeErrorOf(source: string, expected: Option<string>): Option<ShapeError> {
    var names := ModuleNames(Masked(source), 0);
    if names == [] then Some(NoModule)
    else if |names| > 1 then Some(MultipleModules(names))
    else if expected.Some? && names[0] != expected.value then Some(WrongModule(names[0]))
    else None
  }

  // ----- Code fences -----

  /** A code fence, three backticks, starts at position p. */
  predicate FenceAt(s: string, p: nat) {
    p + 3 <= |s| && s[p] == '`' && s[p + 1] == '`' && s[p + 2] == '`'
  }

  ghost predicate FenceFree(s: string) {
    forall k: nat :: !FenceAt(s, k)
  }

  /** The leftmost fence at or after p. */
  function NextFence(s: string, p: nat): (r: Option<nat>)
    ensures r.Some? ==> p <= r.value <= |s| - 3 && FenceAt(s, r.value)
    ensures r.Some? ==> forall k :: p <= k < r.value ==> !FenceAt(s, k)
    ensures r.None? ==> forall k :: p <= k ==> !FenceAt(s, k)
    decreases |s| - p
  {
    if p >= |s| then None else if FenceAt(s, p) then Some(p) else NextFence(s, p + 1)
  }

  /** The number of non-overlapping fences from position p on. */
  function FenceCount(s: string, p: nat): nat
    decreases |s| - p
  {
    var i := NextFence(s, p);
    if i.None? then 0 else 1 + FenceCount(s, i.value + 3)
  }

  function Lower(c: char): char {
    if 'A' <= c <= 'Z' then (c as int + 32) as char else c
  }

  predicate OccursIgnoringCase(s: string, w: string, p: nat) {
    p + |w| <= |s| && forall k :: 0 <= k < |w| ==> Lower(s[p + k]) == w[k]
  }

  lemma WordIsPlain(s: string, w: string, p: nat)
    requires forall k :: 0 <= k < |w| ==> w[k] != '`'
    ensures OccursIgnoringCase(s, w, p) ==> forall k :: p <= k < p + |w| ==> s[k] != '`'
  {
    if OccursIgnoringCase(s, w, p) {
      forall k | p <= k < p + |w| ensures s[k] != '`' {
        assert Lower(s[p + (k - p)]) == w[k - p];
      }
    }
  }

  predicate IsBlank(c: char) {
    c == ' ' || c == '\t'
  }

  /** The end of `[ \t]*(?:systemverilog|verilog|sv)?[ \t]*\r?\n?`.  Nothing in it is a
      backtick, so it never reaches into a fence. */
  function InfoEnd(s: string, p: nat): (q: nat)
    requires p <= |s|
    ensures p <= q <= |s| && forall k :: p <= k < q ==> s[k] != '`'
  {
    var a := SkipWhile(IsBlank, s, p);
    var b := if OccursIgnoringCase(s, "systemverilog", a) then a + 13
             else if OccursIgnoringCase(s, "verilog", a) then a + 7
             else if OccursIgnoringCase(s, "sv", a) then a + 2
             else a;
    WordIsPlain(s, "systemverilog", a);
    WordIsPlain(s, "verilog", a);
    WordIsPlain(s, "sv", a);
    var c := SkipWhile(IsBlank, s, b);
    var d := if CharAt(s, c, '\r') then c + 1 else c;
    if CharAt(s, d, '\n') then d + 1 else d
  }

  /** `FENCE_RE.findall` from position p on: the text between each pair of fences. */
  function FencedBodies(s: string, p: nat): (bodies: seq<string>)
    decreases |s| - p
  {
    var open := NextFence(s, p);
    if open.None? then []
    else
      var start := InfoEnd(s, open.value + 3);
      var close := NextFence(s, start);
      if close.None? then FencedBodies(s, open.value + 1)
      else [s[start..close.value]] + FencedBodies(s, close.value + 3)
  }

  /** Fenced body k, stripped, is a single module of the expected name, and no earlier one is. */
  ghost predicate IsFirstModule(bodies: seq<string>, expected: Option<string>, k: nat) {
    && k < |bodies| && ShapeErrorOf(Strip(bodies[k]), expected).None?
    && forall j :: 0 <= j < k ==> ShapeErrorOf(Strip(bodies[j]), expected).Some?
  }

  ghost predicate NoneIsModule(bodies: seq<string>, expected: Option<string>) {
    forall k :: 0 <= k < |bodies| ==> ShapeErrorOf(Strip(bodies[k]), expected).Some?
  }

  lemma FirstIsLater(bodies: seq<string>, expected: Option<string>, k: nat)
    requires bodies != [] && ShapeErrorOf(Strip(bodies[0]), expected).Some?
    requires IsFirstModule(bodies[1..], expected, k)
    ensures IsFirstModule(bodies, expected, k + 1) && bodies[k + 1] == bodies[1..][k]
  {
    hide ShapeErrorOf, Strip;
    assert forall j :: 0 < j < k + 1 ==> bodies[j] == bodies[1..][j - 1];
  }

  lemma NoneIsLater(bodies: seq<string>, expected: Option<string>)
    requires bodies != [] && ShapeErrorOf(Strip(bodies[0]), expected).Some? && NoneIsModule(bodies[1..], expected)
    ensures NoneIsModule(bodies, expected)
  {
    hide ShapeErrorOf, Strip;
    assert forall k :: 0 < k < |bodies| ==> bodies[k] == bodies[1..][k - 1];
  }

  /** The first candidate that is a single module of the expected name. */
  function FirstModule(bodies: seq<string>, expected: Option<string>): (r: Option<string>)
    ensures r.Some? ==> exists k: nat :: IsFirstModule(bodies, expected, k) && r.value == Strip(bodies[k])
    ensures r.None? ==> NoneIsModule(bodies, expected)
  {
    hide ShapeErrorOf, Strip;
    if bodies == [] then None
    else if ShapeErrorOf(Strip(bodies[0]), expected).None? then
      assert IsFirstModule(bodies, expected, 0);
      Some(Strip(bodies[0]))
    else
      var r := FirstModule(bodies[1..], expected);
      FirstModuleStep(bodies, expected, r);
      r
  }

  lemma FirstModuleStep(bodies: seq<string>, expected: Option<string>, r: Option<string>)
    requires bodies != [] && ShapeErrorOf(Strip(bodies[0]), expected).Some?
    requires r.Some? ==> exists k: nat :: IsFirstModule(bodies[1..], expected, k) && r.value == Strip(bodies[1..][k])
    requires r.None? ==> NoneIsModule(bodies[1..], expected)
    ensures r.Some? ==> exists k: nat :: IsFirstModule(bodies, expected, k) && r.value == Strip(bodies[k])
    ensures r.None? ==> NoneIsModule(bodies, expected)
  {
    hide ShapeErrorOf, Strip, NoneIsModule;
    if r.Some? {
      var k: nat :| IsFirstModule(bodies[1..], expected, k) && r.value == Strip(bodies[1..][k]);
      FirstIsLater(bodies, expected, k);
    } else {
      NoneIsLater(bodies, expected);
    }
  }

  function Extract(response: string, expected: Option<string>): Extraction {
    var count := FenceCount(response, 0);
    if count % 2 != 0 then Refused(UnterminatedFence)
    else
      var fenced := FencedBodies(response, 0);
      if fenced != [] then
        var source := FirstModule(fenced, expected);
        if source.Some? then Accepted(source.value + "\n") else Refused(NoModuleInFences)
      else if count != 0 then Refused(MalformedFence)
      else
        var source := Strip(response);
        var error := ShapeErrorOf(source, expected);
        if error.Some? then Refused(BadShape(error.value)) else Accepted(source + "\n")
  }

  // ----- Properties -----

  /** The one declaration in the masked text is of the expected module. */
  ghost predicate IsModule(source: string, expected: Option<string>) {
    var names := ModuleNames(Masked(source), 0);
    |names| == 1 && (expected.Some? ==> names[0] == expected.value)
  }

  /** A reply is accepted exactly when its fences are paired and either its first fenced body that
      is a module, or, without any fence, the whole of it, is one; the text is that, stripped,
      with a newline. */
  lemma AcceptedIff(response: string, expected: Option<string>, text: string)
    ensures Extract(response, expected) == Accepted(text) <==>
            && FenceCount(response, 0) % 2 == 0
            && if FenceCount(response, 0) == 0 then
                 IsModule(Strip(response), expected) && text == Strip(response) + "\n"
               else
                 exists k :: FirstIs(FencedBodies(response, 0), expected, k)
                             && text == Strip(FencedBodies(response, 0)[k]) + "\n"
  {
    hide Strip, ShapeErrorOf, IsModule, FencedBodies, FenceCount, FirstIs;
    OneBodyPerFencePair(response, 0);
    FirstModuleIs(FencedBodies(response, 0), expected);
    ShapeIff(Strip(response), expected);
  }

  /** Body k is a module and no earlier one is. */
  ghost predicate FirstIs(bodies: seq<string>, expected: Option<string>, k: int) {
    && 0 <= k < |bodies| && IsModule(Strip(bodies[k]), expected)
    && forall j :: 0 <= j < k ==> !IsModule(Strip(bodies[j]), expected)
  }

  lemma ShapeIff(source: string, expected: Option<string>)
    ensures ShapeErrorOf(source, expected).None? <==> IsModule(source, expected)
  {
    hide Masked, ModuleNames;
  }

  lemma FirstModuleIs(bodies: seq<string>, expected: Option<string>)
    ensures var first := FirstModule(bodies, expected);
            && (first.Some? ==> exists k :: FirstIs(bodies, expected, k) && first.value == Strip(bodies[k]))
            && forall k :: FirstIs(bodies, expected, k) ==> first == Some(Strip(bodies[k]))
  {
    hide Strip, ShapeErrorOf, IsModule, FirstModule;
    var first := FirstModule(bodies, expected);
    forall k | 0 <= k < |bodies|
      ensures ShapeErrorOf(Strip(bodies[k]), expected).None? <==> IsModule(Strip(bodies[k]), expected)
    {
      ShapeIff(Strip(bodies[k]), expected);
    }
    if first.Some? {
      var i: nat :| IsFirstModule(bodies, expected, i) && first.value == Strip(bodies[i]);
      assert FirstIs(bodies, expected, i);
    }
  }

  /** No fence starts inside a stretch without backticks. */
  lemma SkipPlain(s: string, p: nat, q: nat)
    requires p <= q <= |s| && forall k :: p <= k < q ==> s[k] != '`'
    ensures NextFence(s, p) == NextFence(s, q)
  {
    assert forall k :: p <= k < q ==> !FenceAt(s, k);
  }

  /** `findall` yields one body for every two fences; so an even, non-zero count always
      yields bodies and the malformed-fence branch is never taken. */
  lemma {:induction false} OneBodyPerFencePair(s: string, p: nat)
    ensures |FencedBodies(s, p)| == FenceCount(s, p) / 2
    decreases |s| - p
  {
    hide InfoEnd, FenceAt, FencedBodies, FenceCount, NextFence;
    var open := NextFence(s, p);
    if open.None? {
      UnfoldNone(s, p);
    } else {
      var start := InfoEnd(s, open.value + 3);
      var close := NextFence(s, start);
      UnfoldPair(s, p);
      if close.Some? {
        OneBodyPerFencePair(s, close.value + 3);
      } else {
        OneBodyPerFencePair(s, open.value + 1);
        AtMostOneFence(s, open.value);
      }
    }
  }

  lemma UnfoldNone(s: string, p: nat)
    requires NextFence(s, p).None?
    ensures FencedBodies(s, p) == [] && FenceCount(s, p) == 0
  {
  }

  /** One step of the two scans. */
  lemma UnfoldPair(s: string, p: nat)
    requires NextFence(s, p).Some?
    ensures var open := NextFence(s, p).value;
            var close := NextFence(s, InfoEnd(s, open + 3));
            && close == NextFence(s, open + 3)
            && (if close.Some? then
                  && |FencedBodies(s, p)| == 1 + |FencedBodies(s, close.value + 3)|
                  && FenceCount(s, p) == 2 + FenceCount(s, close.value + 3)
                else
                  FencedBodies(s, p) == FencedBodies(s, open + 1) && FenceCount(s, p) == 1)
  {
    hide InfoEnd, FenceAt;
    var open := NextFence(s, p).value;
    SkipPlain(s, open + 3, InfoEnd(s, open + 3));
    assert FenceCount(s, p) == 1 + FenceCount(s, open + 3);
  }

  /** When no fence follows the one at i, restarting inside it finds no pair either. */
  lemma AtMostOneFence(s: string, i: nat)
    requires FenceAt(s, i) && NextFence(s, i + 3).None?
    ensures FenceCount(s, i + 1) <= 1
  {
    var next := NextFence(s, i + 1);
    if next.Some? {
      assert forall k :: next.value + 3 <= k ==> !FenceAt(s, k);
    }
  }

  lemma NeverMalformed(response: string, expected: Option<string>)
    ensures Extract(response, expected) != Refused(MalformedFence)
  {
    OneBodyPerFencePair(response, 0);
  }

  lemma NoFences(s: string)
    requires FenceCount(s, 0) == 0
    ensures FenceFree(s)
  {
  }

  lemma SliceFenceFree(s: string, a: nat, b: nat)
    requires a <= b <= |s| && forall k :: a <= k < b ==> !FenceAt(s, k)
    ensures FenceFree(s[a..b])
  {
    assert forall k: nat :: FenceAt(s[a..b], k) ==> FenceAt(s, a + k);
  }

  lemma {:induction false} BodiesFenceFree(s: string, p: nat)
    ensures forall k :: 0 <= k < |FencedBodies(s, p)| ==> FenceFree(FencedBodies(s, p)[k])
    decreases |s| - p
  {
    hide InfoEnd, FenceAt;
    var open := NextFence(s, p);
    if open.Some? {
      var start := InfoEnd(s, open.value + 3);
      var close := NextFence(s, start);
      if close.Some? {
        SliceFenceFree(s, start, close.value);
        BodiesFenceFree(s, close.value + 3);
      } else {
        BodiesFenceFree(s, open.value + 1);
      }
    }
  }

  /** Stripping cuts a slice, so it creates no fence. */
  lemma StripFenceFree(s: string)
    requires FenceFree(s)
    ensures FenceFree(Strip(s))
  {
    var a := SkipSpace(s, 0);
    var r := Strip(s);
    assert r == s[a..a + |r|];
    SliceFenceFree(s, a, a + |r|);
  }

  lemma AppendNewline(s: string)
    requires FenceFree(s)
    ensures FenceFree(s + "\n")
  {
    assert forall k: nat :: FenceAt(s + "\n", k) ==> FenceAt(s, k);
  }

  /** Accepted text has no fence and is one trimmed module of the expected name, with a
      final newline. */
  lemma AcceptedShape(response: string, expected: Option<string>)
    requires Extract(response, expected).Accepted?
    ensures var out := Extract(response, expected).text;
            && FenceFree(out) && out != [] && out[|out| - 1] == '\n'
            && Trimmed(out[..|out| - 1])
            && |ModuleNames(Masked(out[..|out| - 1]), 0)| == 1
            && (expected.Some? ==> ModuleNames(Masked(out[..|out| - 1]), 0) == [expected.value])
  {
    hide Extract, Strip, FencedBodies, FenceCount, ModuleNames, FenceFree, Masked;
    var out := Extract(response, expected).text;
    AcceptedIff(response, expected, out);
    var source;
    if FenceCount(response, 0) == 0 {
      source := Strip(response);
      NoFences(response);
      StripFenceFree(response);
    } else {
      var k :| FirstIs(FencedBodies(response, 0), expected, k) && out == Strip(FencedBodies(response, 0)[k]) + "\n";
      source := Strip(FencedBodies(response, 0)[k]);
      BodiesFenceFree(response, 0);
      StripFenceFree(FencedBodies(response, 0)[k]);
    }
    assert out[..|out| - 1] == source;
    AppendNewline(source);
  }

  lemma ExtractFenceFree(response: string, expected: Option<string>)
    requires FenceFree(response) && ShapeErrorOf(Strip(response), expected).None?
    ensures Extract(response, expected) == Accepted(Strip(response) + "\n")
  {
  }

  lemma StripNewline(source: string)
    requires Trimmed(source) && source != []
    ensures Strip(source + "\n") == source
  {
    StripAround("", source, "\n");
    assert "" + source + "\n" == source + "\n";
  }

  lemma EmptyHasNoModule(expected: Option<string>)
    ensures ShapeErrorOf("", expected).Some?
  {
  }

  /** Extraction is a fixed point on what it accepts. */
  lemma ExtractIdempotent(response: string, expected: Option<string>)
    requires Extract(response, expected).Accepted?
    ensures Extract(Extract(response, expected).text, expected) == Extract(response, expected)
  {
    hide ShapeErrorOf, FencedBodies, FenceCount;
    var out := Extract(response, expected).text;
    var source := out[..|out| - 1];
    AcceptedShape(response, expected);
    assert out == source + "\n";
    EmptyHasNoModule(expected);
    assert ShapeErrorOf(source, expected).None?;
    StripNewline(source);
    ExtractFenceFree(out, expected);
  }

  /** Trailing white space does not change what stripping gives. */
  lemma StripThenNewline(s: string)
    requires Strip(s) != []
    ensures Strip(s + "\n") == Strip(s)
  {
    var a := SkipSpace(s, 0);
    var u, r := s[a..], Strip(s);
    assert s + "\n" == s[..a] + r + (u[|r|..] + "\n");
    StripAround(s[..a], r, u[|r|..] + "\n");
  }

  lemma FenceAtEnd(front: string, tail: string, w: string)
    requires tail == "\n```" && w == front + tail
    ensures |w| == |front| + 4 && FenceAt(w, |front| + 1)
  {
    var n := |front|;
    assert w[n + 1] == tail[1] && w[n + 2] == tail[2] && w[n + 3] == tail[3];
  }

  /** After the opening line, the first fence is the closing one, and no other follows. */
  lemma ClosingFence(head: string, source: string, w: string)
    requires FenceFree(source) && w == head + source + "\n```"
    ensures NextFence(w, |head|) == Some(|head| + |source| + 1)
    ensures NextFence(w, |head| + |source| + 4).None?
  {
    hide FenceAt, NextFence, FenceFree;
    var n := |head| + |source|;
    FenceAtEnd(head + source, "\n```", w);
    forall k | |head| <= k < n + 1 ensures !FenceAt(w, k) {
      InsideSource(head, source, w, k);
    }
    FirstFence(w, |head|, n + 1);
    NoFenceAfter(w, n + 4);
  }

  lemma NoFenceAfter(w: string, p: nat)
    requires p >= |w|
    ensures NextFence(w, p).None?
  {
  }

  lemma FirstFence(w: string, p: nat, q: nat)
    requires p <= q && FenceAt(w, q) && forall k :: p <= k < q ==> !FenceAt(w, k)
    ensures NextFence(w, p) == Some(q)
  {
  }

  lemma InsideSource(head: string, source: string, w: string, k: nat)
    requires FenceFree(source) && w == head + source + "\n```" && |head| <= k <= |head| + |source|
    ensures !FenceAt(w, k)
  {
    var n := |head| + |source|;
    assert w[n] == '\n';
    if k + 2 < n {
      var i := k - |head|;
      assert w[k] == source[i] && w[k + 1] == source[i + 1] && w[k + 2] == source[i + 2];
      assert !FenceAt(source, i);
    }
  }

  lemma OpeningFence(head: string, w: string)
    requires head == "```systemverilog\n" && head <= w
    ensures NextFence(w, 0) == Some(0) && InfoEnd(w, 3) == 17
    ensures forall k :: 3 <= k < 17 ==> w[k] != '`'
  {
    assert forall k :: 0 <= k < 17 ==> w[k] == head[k];
    assert FenceAt(w, 0);
    assert SkipWhile(IsBlank, w, 3) == 3;
    assert SkipWhile(IsBlank, w, 16) == 16;
    assert OccursIgnoringCase(w, "systemverilog", 3);
  }

  /** Wrapping a fence-free module in a systemverilog fence and extracting gives back its
      stripped text and a newline. */
  lemma ExtractRoundTrip(source: string, expected: Option<string>, head: string, w: string)
    requires FenceFree(source) && ShapeErrorOf(Strip(source), expected).None?
    requires head == "```systemverilog\n" && w == head + source + "\n```"
    ensures Extract(w, expected) == Accepted(Strip(source) + "\n")
  {
    hide ShapeErrorOf, InfoEnd, FenceAt;
    OpeningFence(head, w);
    ClosingFence(head, source, w);
    var close := 17 + |source| + 1;
    SkipPlain(w, 3, 17);
    assert FenceCount(w, close + 3) == 0 && FencedBodies(w, close + 3) == [];
    assert FenceCount(w, 3) == 1 + FenceCount(w, close + 3);
    assert FenceCount(w, 0) == 2;
    assert FencedBodies(w, 0) == [w[17..close]];
    assert w[17..close] == source + "\n";
    EmptyHasNoModule(expected);
    StripThenNewline(source);
  }
}
