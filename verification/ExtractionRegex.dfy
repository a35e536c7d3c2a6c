/** The regular expressions of harness/evalmodel.py as languages, and the scanners of
    ModuleExtraction against them. */
module ExtractionRegex {
  import opened Wrappers
  import opened Text
  import opened RtlPatterns
  import opened RtlRegex
  import opened ModuleExtraction

  // ----- Module declarations -----

  const NAME_CHAR := (c: char) => IsWord(c) || c == '$'

  const MODULE_NAME := Cat(One(IsIdentStart), Many(NAME_CHAR))

  /** `module\s+([A-Za-z_][A-Za-z0-9_$]*)` */
  const DECLARATION := Cat(Lit("module"), Cat(Plus(IsSpace), MODULE_NAME))

  /** `\b` at position q. */
  predicate BoundaryAt(t: string, q: nat)
    requires q <= |t|
  {
    (q > 0 && IsWord(t[q - 1])) != (q < |t| && IsWord(t[q]))
  }

  lemma ModuleNameIs(t: string, p: nat, q: nat)
    ensures In(MODULE_NAME, t, p, q) <==>
            IdentAt(t, p) && p < q <= |t| && forall k :: p <= k < q ==> IsWord(t[k]) || t[k] == '$'
  {
    if In(MODULE_NAME, t, p, q) {
      var m := Split(One(IsIdentStart), Many(NAME_CHAR), t, p, q);
    }
    if IdentAt(t, p) && p < q <= |t| && forall k :: p <= k < q ==> IsWord(t[k]) || t[k] == '$' {
      Join(One(IsIdentStart), Many(NAME_CHAR), t, p, p + 1, q);
    }
  }

  lemma DeclarationIs(t: string, p: nat, q: nat)
    ensures In(DECLARATION, t, p, q) <==>
            && OccursAt(t, "module", p) && SkipSpace(t, p + 6) > p + 6
            && In(MODULE_NAME, t, SkipSpace(t, p + 6), q)
  {
    hide In, SkipWhile, OccursAt;
    LitThen("module", Cat(Plus(IsSpace), MODULE_NAME), t, p, q);
    if OccursAt(t, "module", p) {
      Fits(t, "module", p);
      forall m: nat | In(MODULE_NAME, t, m, q)
        ensures m < |t| && !IsSpace(t[m])
      {
        ModuleNameIs(t, m, q);
      }
      MoreSpacesThen(MODULE_NAME, t, p + 6, q);
    }
  }

  /** Up to the last word character of the name there is a boundary, and later there is none. */
  lemma LastBoundaryIs(t: string, n: nat, q: nat)
    requires IdentAt(t, n)
    ensures var r := LastBoundary(t, n, SkipWhile(IsModuleChar, t, n));
            && n < r && BoundaryAt(t, r) && In(MODULE_NAME, t, n, r)
            && (In(MODULE_NAME, t, n, q) && BoundaryAt(t, q) ==> q <= r)
  {
    hide In, SkipWhile, LastBoundary;
    var e := SkipWhile(IsModuleChar, t, n);
    var r := LastBoundary(t, n, e);
    ModuleNameIs(t, n, r);
    ModuleNameIs(t, n, q);
    assert r < |t| ==> !IsWord(t[r]);
  }

  /** A declaration is found exactly when some text in the language, between word boundaries,
      starts there; it is the longest, and its name starts after the white space. */
  lemma DeclLongest(t: string, p: nat, q: nat)
    requires p < |t|
    ensures Boundary(t, p) && In(DECLARATION, t, p, q) && BoundaryAt(t, q) ==>
              DeclAt(t, p).Some? && q <= DeclAt(t, p).value.1
    ensures DeclAt(t, p).Some? ==>
              var (name, end) := DeclAt(t, p).value;
              && Boundary(t, p) && In(DECLARATION, t, p, end) && BoundaryAt(t, end)
              && In(Cat(Lit("module"), Plus(IsSpace)), t, p, name) && In(MODULE_NAME, t, name, end)
  {
    hide In, SkipWhile, OccursAt, LastBoundary;
    DeclarationIs(t, p, q);
    if OccursAt(t, "module", p) {
      Fits(t, "module", p);
      var n := SkipSpace(t, p + 6);
      ModuleNameIs(t, n, q);
      if n > p + 6 && IdentAt(t, n) {
        LastBoundaryIs(t, n, q);
        DeclarationIs(t, p, LastBoundary(t, n, SkipWhile(IsModuleChar, t, n)));
        PlusIs(IsSpace, t, p + 6, n);
        LitIs("module", t, p, p + 6);
        Join(Lit("module"), Plus(IsSpace), t, p, p + 6, n);
      }
    }
  }

  // ----- The information string of a fence -----

  /** A word in any case. */
  ghost predicate WordIn(s: string, w: string, p: nat, q: nat) {
    q == p + |w| <= |s| && forall k :: 0 <= k < |w| ==> Lower(s[p + k]) == w[k]
  }

  /** `[ \t]*(?:systemverilog|verilog|sv)?[ \t]*\r?\n?` spans the text from p up to q, in these
      pieces. */
  ghost predicate InfoSpan(s: string, p: nat, a: nat, b: nat, c: nat, d: nat, q: nat) {
    && p <= a <= b <= c <= d <= q <= |s|
    && (forall k :: p <= k < a ==> s[k] == ' ' || s[k] == '\t')
    && (a == b || WordIn(s, "systemverilog", a, b) || WordIn(s, "verilog", a, b) || WordIn(s, "sv", a, b))
    && (forall k :: b <= k < c ==> s[k] == ' ' || s[k] == '\t')
    && (c == d || (d == c + 1 && s[c] == '\r'))
    && (d == q || (q == d + 1 && s[d] == '\n'))
  }

  lemma WordIsIn(s: string, w: string, p: nat)
    ensures OccursIgnoringCase(s, w, p) <==> WordIn(s, w, p, p + |w|)
  {
  }

  /** The end of `[ \t]*\r?\n?` from position b on. */
  function TailEnd(s: string, b: nat): nat
    requires b <= |s|
  {
    var c := SkipWhile(IsBlank, s, b);
    var d := if CharAt(s, c, '\r') then c + 1 else c;
    if CharAt(s, d, '\n') then d + 1 else d
  }

  lemma TailLongest(s: string, b: nat, c: nat, d: nat, q: nat)
    requires b <= c <= d <= q <= |s| && forall k :: b <= k < c ==> IsBlank(s[k])
    requires c == d || (d == c + 1 && s[c] == '\r')
    requires d == q || (q == d + 1 && s[d] == '\n')
    ensures q <= TailEnd(s, b)
  {
    hide SkipWhile;
    assert c < SkipWhile(IsBlank, s, b) ==> IsBlank(s[c]);
  }

  /** Blanks, a word from a on, the rest. */
  lemma WordTaken(s: string, p: nat, a: nat, b: nat)
    requires p <= a <= |s| && forall k :: p <= k < a ==> IsBlank(s[k])
    requires WordIn(s, "systemverilog", a, b) || WordIn(s, "verilog", a, b) || WordIn(s, "sv", a, b)
    ensures InfoEnd(s, p) == TailEnd(s, b)
  {
    hide SkipWhile, OccursIgnoringCase, WordIn;
    WordIsIn(s, "systemverilog", a);
    WordIsIn(s, "verilog", a);
    WordIsIn(s, "sv", a);
    assert |"systemverilog"| == 13 && |"verilog"| == 7 && |"sv"| == 2;
    OneInfoWord(s, a, b);
  }

  /** The three words exclude each other, and none starts with a blank. */
  lemma OneInfoWord(s: string, a: nat, b: nat)
    requires WordIn(s, "systemverilog", a, b) || WordIn(s, "verilog", a, b) || WordIn(s, "sv", a, b)
    ensures a < b <= |s| && !IsBlank(s[a])
    ensures OccursIgnoringCase(s, "systemverilog", a) ==> b == a + 13
    ensures !OccursIgnoringCase(s, "systemverilog", a) && OccursIgnoringCase(s, "verilog", a) ==> b == a + 7
    ensures !OccursIgnoringCase(s, "systemverilog", a) && !OccursIgnoringCase(s, "verilog", a) ==>
              OccursIgnoringCase(s, "sv", a) && b == a + 2
  {
    hide OccursIgnoringCase, WordIn;
    FirstTwo(s, "systemverilog", a, b);
    FirstTwo(s, "verilog", a, b);
    FirstTwo(s, "sv", a, b);
    FirstTwo(s, "systemverilog", a, a + 13);
    FirstTwo(s, "verilog", a, a + 7);
  }

  lemma FirstTwo(s: string, w: string, a: nat, b: nat)
    requires |w| >= 2
    ensures OccursIgnoringCase(s, w, a) <==> WordIn(s, w, a, a + |w|)
    ensures WordIn(s, w, a, b) ==> b == a + |w| <= |s| && Lower(s[a]) == w[0] && Lower(s[a + 1]) == w[1]
  {
    if WordIn(s, w, a, b) {
      assert Lower(s[a + 0]) == w[0] && Lower(s[a + 1]) == w[1];
    }
  }

  lemma NoWord(s: string, p: nat, a: nat)
    requires p <= a <= |s| && forall k :: p <= k < a ==> IsBlank(s[k])
    ensures TailEnd(s, p) <= InfoEnd(s, p)
  {
    hide SkipWhile, OccursIgnoringCase;
    var e := SkipWhile(IsBlank, s, p);
    if OccursIgnoringCase(s, "systemverilog", e) {
      WordIsIn(s, "systemverilog", e);
      OneInfoWord(s, e, e + 13);
    } else if OccursIgnoringCase(s, "verilog", e) {
      WordIsIn(s, "verilog", e);
      OneInfoWord(s, e, e + 7);
    } else if OccursIgnoringCase(s, "sv", e) {
      WordIsIn(s, "sv", e);
      OneInfoWord(s, e, e + 2);
    }
    if e < |s| && (s[e] == '\r' || s[e] == '\n') {
      NotLetters(s, e);
    }
  }

  lemma NotLetters(s: string, e: nat)
    requires e < |s| && (s[e] == '\r' || s[e] == '\n')
    ensures forall w :: w in {"systemverilog", "verilog", "sv"} ==> !OccursIgnoringCase(s, w, e)
  {
    forall w | w in {"systemverilog", "verilog", "sv"} && OccursIgnoringCase(s, w, e)
      ensures Lower(s[e]) == w[0]
    {
      assert Lower(s[e + 0]) == w[0];
    }
  }

  lemma NothingLonger(s: string, p: nat, a: nat, b: nat, c: nat, d: nat, q: nat)
    requires InfoSpan(s, p, a, b, c, d, q)
    ensures q <= InfoEnd(s, p)
  {
    hide InfoEnd, TailEnd, WordIn;
    if a == b {
      TailLongest(s, p, c, d, q);
      NoWord(s, p, a);
    } else {
      TailLongest(s, b, c, d, q);
      WordTaken(s, p, a, b);
    }
  }

  /** What is skipped after an opening fence is in that language, and nothing longer is. */
  lemma InfoLongest(s: string, p: nat) returns (a: nat, b: nat, c: nat, d: nat)
    requires p <= |s|
    ensures InfoSpan(s, p, a, b, c, d, InfoEnd(s, p))
    ensures forall a': nat, b': nat, c': nat, d': nat, q: nat ::
              InfoSpan(s, p, a', b', c', d', q) ==> q <= InfoEnd(s, p)
  {
    hide SkipWhile, OccursIgnoringCase;
    a := SkipWhile(IsBlank, s, p);
    WordIsIn(s, "systemverilog", a);
    WordIsIn(s, "verilog", a);
    WordIsIn(s, "sv", a);
    b := if OccursIgnoringCase(s, "systemverilog", a) then a + 13
         else if OccursIgnoringCase(s, "verilog", a) then a + 7
         else if OccursIgnoringCase(s, "sv", a) then a + 2
         else a;
    c := SkipWhile(IsBlank, s, b);
    d := if CharAt(s, c, '\r') then c + 1 else c;
    forall a': nat, b': nat, c': nat, d': nat, q: nat | InfoSpan(s, p, a', b', c', d', q)
      ensures q <= InfoEnd(s, p)
    {
      NothingLonger(s, p, a', b', c', d', q);
    }
  }
}
