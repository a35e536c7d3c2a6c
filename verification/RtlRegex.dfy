/** The regular expressions of harness/mutators/rtl.py as languages, and the matchers of
    RtlPatterns against them. */
module RtlRegex {
  import opened Wrappers
  import opened Text
  import opened RtlPatterns
  import R = RtlRewrites

  datatype Re =
    | Empty
    | One(cls: char -> bool)     // one character of a class
    | Many(cls: char -> bool)    // any number of them
    | Lit(w: string)
    | Cat(a: Re, b: Re)
    | Either(a: Re, b: Re)

  /** The text from p up to q is in the language. */
  ghost predicate In(r: Re, t: string, p: nat, q: nat)
    decreases r
  {
    p <= q <= |t| &&
    match r
    case Empty => p == q
    case One(cls) => q == p + 1 && cls(t[p])
    case Many(cls) => forall k :: p <= k < q ==> cls(t[k])
    case Lit(w) => q == p + |w| && OccursAt(t, w, p)
    case Cat(a, b) => exists m: nat :: In(a, t, p, m) && In(b, t, m, q)
    case Either(a, b) => In(a, t, p, q) || In(b, t, p, q)
  }

  // ----- The patterns -----

  const SPACES := Many(IsSpace)

  function Plus(cls: char -> bool): Re {
    Cat(One(cls), Many(cls))
  }

  function Maybe(r: Re): Re {
    Either(r, Empty)
  }

  const NAME := Cat(One(IsIdentStart), Many(IsWord))

  const NOT_CLOSE := (c: char) => c != ']'

  /** An index in brackets. */
  const BRACKETS := Cat(Lit("["), Cat(Plus(NOT_CLOSE), Lit("]")))

  const LHS := Cat(NAME, Maybe(Cat(SPACES, BRACKETS)))

  function NotIn(extra: char): char -> bool {
    (c: char) => c != ';' && c != extra
  }

  /** A right-hand side up to its semicolon. */
  function RHS(extra: char): Re {
    Cat(SPACES, Cat(Plus(NotIn(extra)), Lit(";")))
  }

  const BIT := (c: char) => c == '0' || c == '1'

  function Condition(bang: Re, name: string): Re {
    Cat(Lit("if"), Cat(SPACES, Cat(Lit("("), Cat(SPACES, Cat(bang, Cat(Lit(name), Cat(SPACES, Lit(")"))))))))
  }

  function Assign(op: string, extra: char): Re {
    Cat(LHS, Cat(SPACES, Cat(Lit(op), RHS(extra))))
  }

  const TYPE := Either(Lit("logic"), Either(Lit("wire"), Lit("reg")))

  function Followed(r: Re): Re {
    Maybe(Cat(r, Plus(IsSpace)))
  }

  /** Each pattern as it is written in the source, without its leading word boundary. */
  function ReOf(pat: Pattern): Re {
    match pat
    case IfCond(name, bang) => Condition(if bang then Lit("!") else Empty, name)
    case ResetIf => Cat(Condition(Maybe(Lit("!")), "rst"), Cat(SPACES, Maybe(Lit("begin"))))
    case Nonblocking => Assign("<=", ';')
    case NonblockingBit => Cat(LHS, Cat(SPACES, Cat(Lit("<="), Cat(SPACES, Cat(Lit("'"), Cat(One(BIT), Lit(";")))))))
    case Continuous =>
      Cat(Lit("assign"), Cat(Plus(IsSpace), Cat(NAME, Cat(SPACES, Cat(Lit("="), RHS(';'))))))
    case Blocking => Assign("=", '=')
    case Output =>
      Cat(Lit("output"), Cat(Plus(IsSpace), Cat(Followed(TYPE), Cat(Followed(Lit("signed")),
          Cat(Maybe(Cat(BRACKETS, SPACES)), NAME)))))
  }

  /** `\b` before a word character. */
  predicate Boundary(t: string, p: nat)
    requires p <= |t|
  {
    p == 0 || !IsWord(t[p - 1])
  }

  // ----- Concatenation -----

  lemma Join(a: Re, b: Re, t: string, p: nat, m: nat, q: nat)
    requires In(a, t, p, m) && In(b, t, m, q)
    ensures In(Cat(a, b), t, p, q)
  {
  }

  lemma Split(a: Re, b: Re, t: string, p: nat, q: nat) returns (m: nat)
    requires In(Cat(a, b), t, p, q)
    ensures In(a, t, p, m) && In(b, t, m, q)
  {
    m :| In(a, t, p, m) && In(b, t, m, q);
  }

  lemma Range(r: Re, t: string, p: nat, q: nat)
    requires In(r, t, p, q)
    ensures p <= q <= |t|
  {
  }

  /** A run of a class that something outside the class follows is the longest one. */
  lemma ManyEnds(cls: char -> bool, t: string, p: nat, m: nat)
    requires p <= |t|
    ensures In(Many(cls), t, p, SkipWhile(cls, t, p))
    ensures In(Many(cls), t, p, m) ==> m <= SkipWhile(cls, t, p)
    ensures In(Many(cls), t, p, m) && (m == |t| || !cls(t[m])) ==> m == SkipWhile(cls, t, p)
  {
    hide SkipWhile;
  }

  lemma SpacesEnd(t: string, p: nat, m: nat)
    requires p <= |t|
    ensures In(SPACES, t, p, SkipSpace(t, p))
    ensures In(SPACES, t, p, m) ==> m <= SkipSpace(t, p)
    ensures In(SPACES, t, p, m) && (m == |t| || !IsSpace(t[m])) ==> m == SkipSpace(t, p)
  {
    ManyEnds(IsSpace, t, p, m);
  }

  lemma PlusIs(cls: char -> bool, t: string, p: nat, q: nat)
    ensures In(Plus(cls), t, p, q) <==> p < q <= |t| && forall k :: p <= k < q ==> cls(t[k])
  {
    if p < q <= |t| && forall k :: p <= k < q ==> cls(t[k]) {
      assert In(One(cls), t, p, p + 1) && In(Many(cls), t, p + 1, q);
    }
  }

  lemma LitIs(w: string, t: string, p: nat, q: nat)
    ensures In(Lit(w), t, p, q) <==> q == p + |w| && OccursAt(t, w, p)
  {
  }

  lemma FirstOf(t: string, w: string, p: nat)
    requires w != [] && OccursAt(t, w, p)
    ensures p < |t| && t[p] == w[0]
  {
    assert t[p..p + |w|][0] == w[0];
  }

  // ----- Names and left-hand sides -----

  lemma NameIs(t: string, p: nat, q: nat)
    ensures In(NAME, t, p, q) <==> IdentAt(t, p) && p < q <= |t| && forall k :: p <= k < q ==> IsWord(t[k])
  {
    if In(NAME, t, p, q) {
      var m := Split(One(IsIdentStart), Many(IsWord), t, p, q);
    }
    if IdentAt(t, p) && p < q <= |t| && forall k :: p <= k < q ==> IsWord(t[k]) {
      Join(One(IsIdentStart), Many(IsWord), t, p, p + 1, q);
    }
  }

  /** A name that no word character follows. */
  lemma NameEnds(t: string, p: nat, q: nat)
    requires In(NAME, t, p, q) && (q == |t| || !IsWord(t[q]))
    ensures q == SkipWord(t, p)
  {
    NameIs(t, p, q);
    hide SkipWhile;
  }

  lemma NameAt(t: string, p: nat)
    requires IdentAt(t, p)
    ensures In(NAME, t, p, SkipWord(t, p))
  {
    NameIs(t, p, SkipWord(t, p));
  }

  /** The position after an index in brackets: after the first closing one, if there is
      something in between. */
  lemma BracketsAre(t: string, p: nat, q: nat)
    ensures In(BRACKETS, t, p, q) <==>
            && p + 2 < q <= |t| && t[p] == '[' && t[q - 1] == ']'
            && forall k :: p < k < q - 1 ==> t[k] != ']'
  {
    hide In;
    var inner, close := Plus(NOT_CLOSE), Lit("]");
    if In(BRACKETS, t, p, q) {
      var m := Split(Lit("["), Cat(inner, close), t, p, q);
      var n := Split(inner, close, t, m, q);
      LitIs("[", t, p, m);
      LitIs("]", t, n, q);
      PlusIs(NOT_CLOSE, t, m, n);
      FirstOf(t, "[", p);
      FirstOf(t, "]", n);
    }
    if && p + 2 < q <= |t| && t[p] == '[' && t[q - 1] == ']'
       && forall k :: p < k < q - 1 ==> t[k] != ']' {
      assert t[p..p + 1] == "[" && t[q - 1..q] == "]";
      LitIs("[", t, p, p + 1);
      LitIs("]", t, q - 1, q);
      PlusIs(NOT_CLOSE, t, p + 1, q - 1);
      Join(inner, close, t, p + 1, q - 1, q);
      Join(Lit("["), Cat(inner, close), t, p, p + 1, q);
    }
  }

  lemma MaybeIs(r: Re, t: string, p: nat, q: nat)
    ensures In(Maybe(r), t, p, q) <==> In(r, t, p, q) || p == q <= |t|
  {
  }

  /** Neither goes on a left-hand side nor is white space. */
  predicate EndsLhs(c: char) {
    !IsWord(c) && !IsSpace(c) && c != '['
  }

  /** The left-hand side before white space and an operator is the longest one. */
  lemma LhsEnds(t: string, p: nat, l: nat, m: nat)
    requires In(LHS, t, p, l) && In(SPACES, t, l, m) && m < |t| && EndsLhs(t[m])
    ensures IdentAt(t, p) && l == LhsEnd(t, p) && m == SkipSpace(t, l)
  {
    hide In, SkipWhile;
    var w := Split(NAME, Maybe(Cat(SPACES, BRACKETS)), t, p, l);
    NameIs(t, p, w);
    MaybeIs(Cat(SPACES, BRACKETS), t, w, l);
    SpacesAre(t, l, m);
    if w == l {
      assert w < m ==> IsSpace(t[w]);
      NameEnds(t, p, w);
    } else {
      var x := Split(SPACES, BRACKETS, t, w, l);
      SpacesAre(t, w, x);
      BracketsAre(t, x, l);
      assert w < x ==> IsSpace(t[w]);
      NameEnds(t, p, w);
    }
  }

  lemma SpacesAre(t: string, p: nat, q: nat)
    ensures In(SPACES, t, p, q) <==> p <= q <= |t| && forall k :: p <= k < q ==> IsSpace(t[k])
  {
  }

  lemma LhsAt(t: string, p: nat)
    requires IdentAt(t, p)
    ensures In(LHS, t, p, LhsEnd(t, p))
  {
    hide In, SkipWhile;
    var w := SkipWord(t, p);
    var s := SkipSpace(t, w);
    NameAt(t, p);
    MaybeIs(Cat(SPACES, BRACKETS), t, w, LhsEnd(t, p));
    if LhsEnd(t, p) != w {
      SpacesAre(t, w, s);
      BracketsAre(t, s, LhsEnd(t, p));
      Join(SPACES, BRACKETS, t, w, s, LhsEnd(t, p));
    }
    Join(NAME, Maybe(Cat(SPACES, BRACKETS)), t, p, w, LhsEnd(t, p));
  }

  // ----- Right-hand sides -----

  /** What a right-hand side spans: anything but semicolons and the excluded character, and at
      least one character, up to the semicolon. */
  lemma RhsIs(extra: char, t: string, p: nat, q: nat)
    requires extra == ';' || extra == '='
    ensures In(RHS(extra), t, p, q) <==>
            p + 1 < q <= |t| && t[q - 1] == ';' && forall k :: p <= k < q - 1 ==> t[k] != ';' && t[k] != extra
  {
    hide In;
    var inner := Plus(NotIn(extra));
    if In(RHS(extra), t, p, q) {
      var m := Split(SPACES, Cat(inner, Lit(";")), t, p, q);
      var n := Split(inner, Lit(";"), t, m, q);
      SpacesAre(t, p, m);
      PlusIs(NotIn(extra), t, m, n);
      LitIs(";", t, n, q);
      FirstOf(t, ";", n);
    }
    if p + 1 < q <= |t| && t[q - 1] == ';' && forall k :: p <= k < q - 1 ==> t[k] != ';' && t[k] != extra {
      assert t[q - 1..q] == ";";
      LitIs(";", t, q - 1, q);
      PlusIs(NotIn(extra), t, p, q - 1);
      Join(inner, Lit(";"), t, p, q - 1, q);
      SpacesAre(t, p, p);
      Join(SPACES, Cat(inner, Lit(";")), t, p, p, q);
    }
  }

  lemma RhsMatch(extra: char, t: string, p: nat, q: nat)
    requires p <= |t| && (extra == ';' || extra == '=')
    ensures In(RHS(extra), t, p, q) <==> Rhs(t, p, extra).Some? && q == Rhs(t, p, extra).value.1 + 1
  {
    hide In, SkipWhile;
    RhsIs(extra, t, p, q);
    var s := SkipSpace(t, p);
  }

  // ----- One step at a time -----

  lemma LitThen(w: string, r: Re, t: string, p: nat, q: nat)
    ensures In(Cat(Lit(w), r), t, p, q) <==> OccursAt(t, w, p) && In(r, t, p + |w|, q)
  {
    hide OccursAt;
    if In(Cat(Lit(w), r), t, p, q) {
      var m := Split(Lit(w), r, t, p, q);
    }
    if OccursAt(t, w, p) && In(r, t, p + |w|, q) {
      Fits(t, w, p);
      Join(Lit(w), r, t, p, p + |w|, q);
    }
  }

  lemma Fits(t: string, w: string, p: nat)
    requires OccursAt(t, w, p)
    ensures p + |w| <= |t|
  {
  }

  /** What the language of r spans up to q never starts with white space. */
  ghost predicate StartsVisibly(r: Re, t: string, q: nat) {
    forall m: nat :: In(r, t, m, q) ==> m < |t| && !IsSpace(t[m])
  }

  lemma SpacesThen(r: Re, t: string, p: nat, q: nat)
    requires p <= |t| && StartsVisibly(r, t, q)
    ensures In(Cat(SPACES, r), t, p, q) <==> In(r, t, SkipSpace(t, p), q)
  {
    hide In, SkipWhile;
    var s := SkipSpace(t, p);
    if In(Cat(SPACES, r), t, p, q) {
      var m := Split(SPACES, r, t, p, q);
      SpacesEnd(t, p, m);
    }
    if In(r, t, s, q) {
      SpacesEnd(t, p, s);
      Join(SPACES, r, t, p, s, q);
    }
  }

  /** At least one white-space character. */
  lemma MoreSpacesThen(r: Re, t: string, p: nat, q: nat)
    requires p <= |t| && StartsVisibly(r, t, q)
    ensures In(Cat(Plus(IsSpace), r), t, p, q) <==> SkipSpace(t, p) > p && In(r, t, SkipSpace(t, p), q)
  {
    hide In, SkipWhile;
    var s := SkipSpace(t, p);
    if In(Cat(Plus(IsSpace), r), t, p, q) {
      var m := Split(Plus(IsSpace), r, t, p, q);
      PlusIs(IsSpace, t, p, m);
    }
    if s > p && In(r, t, s, q) {
      PlusIs(IsSpace, t, p, s);
      Join(Plus(IsSpace), r, t, p, s, q);
    }
  }

  predicate PlainName(name: string) {
    name != "" && !IsSpace(name[0])
  }

  lemma LitStarts(w: string, r: Re, t: string, q: nat)
    requires PlainName(w)
    ensures StartsVisibly(Lit(w), t, q) && StartsVisibly(Cat(Lit(w), r), t, q)
  {
    hide In;
    forall m: nat | In(Lit(w), t, m, q)
      ensures m < |t| && !IsSpace(t[m])
    {
      LitIs(w, t, m, q);
      FirstOf(t, w, m);
    }
    forall m: nat | In(Cat(Lit(w), r), t, m, q)
      ensures m < |t| && !IsSpace(t[m])
    {
      LitThen(w, r, t, m, q);
      FirstOf(t, w, m);
    }
  }

  /** White space, a word, the rest. */
  lemma SpacesLitThen(w: string, r: Re, t: string, p: nat, q: nat)
    requires p <= |t| && PlainName(w)
    ensures In(Cat(SPACES, Cat(Lit(w), r)), t, p, q) <==>
            OccursAt(t, w, SkipSpace(t, p)) && In(r, t, SkipSpace(t, p) + |w|, q)
  {
    hide In, SkipWhile;
    LitStarts(w, r, t, q);
    SpacesThen(Cat(Lit(w), r), t, p, q);
    LitThen(w, r, t, SkipSpace(t, p), q);
  }

  lemma SpacesLit(w: string, t: string, p: nat, q: nat)
    requires p <= |t| && PlainName(w)
    ensures In(Cat(SPACES, Lit(w)), t, p, q) <==> OccursAt(t, w, SkipSpace(t, p)) && q == SkipSpace(t, p) + |w|
  {
    hide In, SkipWhile;
    LitStarts(w, Empty, t, q);
    SpacesThen(Lit(w), t, p, q);
    LitIs(w, t, SkipSpace(t, p), q);
  }

  /** A word that ends a left-hand side. */
  predicate Operator(op: string) {
    op != "" && EndsLhs(op[0])
  }

  /** A left-hand side, white space, an operator, the rest. */
  lemma LhsOpThen(op: string, r: Re, t: string, p: nat, q: nat)
    requires Operator(op)
    ensures In(Cat(LHS, Cat(SPACES, Cat(Lit(op), r))), t, p, q) <==>
            && IdentAt(t, p)
            && var s := SkipSpace(t, LhsEnd(t, p));
               OccursAt(t, op, s) && In(r, t, s + |op|, q)
  {
    hide In, SkipWhile, LhsEnd;
    var tail := Cat(SPACES, Cat(Lit(op), r));
    if In(Cat(LHS, tail), t, p, q) {
      var l := Split(LHS, tail, t, p, q);
      var m := Split(SPACES, Cat(Lit(op), r), t, l, q);
      LitThen(op, r, t, m, q);
      FirstOf(t, op, m);
      LhsEnds(t, p, l, m);
    }
    if IdentAt(t, p) {
      var l := LhsEnd(t, p);
      SpacesLitThen(op, r, t, l, q);
      if In(tail, t, l, q) {
        LhsAt(t, p);
        Join(LHS, tail, t, p, l, q);
      }
    }
  }

  /** The same with a name. */
  lemma NameOpThen(op: string, r: Re, t: string, p: nat, q: nat)
    requires Operator(op)
    ensures In(Cat(NAME, Cat(SPACES, Cat(Lit(op), r))), t, p, q) <==>
            && IdentAt(t, p)
            && var s := SkipSpace(t, SkipWord(t, p));
               OccursAt(t, op, s) && In(r, t, s + |op|, q)
  {
    hide In, SkipWhile;
    var tail := Cat(SPACES, Cat(Lit(op), r));
    if In(Cat(NAME, tail), t, p, q) {
      var l := Split(NAME, tail, t, p, q);
      NameIs(t, p, l);
      SpacesLitThen(op, r, t, l, q);
      NotWordAfter(t, op, l);
      NameEnds(t, p, l);
    }
    if IdentAt(t, p) {
      var l := SkipWord(t, p);
      SpacesLitThen(op, r, t, l, q);
      if In(tail, t, l, q) {
        NameAt(t, p);
        Join(NAME, tail, t, p, l, q);
      }
    }
  }

  lemma NotWordAfter(t: string, op: string, l: nat)
    requires l <= |t| && Operator(op) && OccursAt(t, op, SkipSpace(t, l))
    ensures l == |t| || !IsWord(t[l])
  {
    hide SkipWhile;
    FirstOf(t, op, SkipSpace(t, l));
    if l < SkipSpace(t, l) {
      assert IsSpace(t[l]);
    }
  }

  // ----- Assignments -----

  lemma AssignMatch(op: string, extra: char, t: string, p: nat, q: nat)
    requires p < |t| && ((op == "<=" && extra == ';') || (op == "=" && extra == '='))
    ensures Boundary(t, p) && In(Assign(op, extra), t, p, q) <==>
            MatchAssign(t, op, extra, p).Some? && MatchAssign(t, op, extra, p).value.end == q
  {
    hide In, SkipWhile, LhsEnd, Rhs, OccursAt;
    LhsOpThen(op, RHS(extra), t, p, q);
    if IdentAt(t, p) {
      var s := SkipSpace(t, LhsEnd(t, p));
      if OccursAt(t, op, s) {
        Fits(t, op, s);
        RhsMatch(extra, t, s + |op|, q);
      }
    }
  }

  const BIT_END := Cat(One(BIT), Lit(";"))

  lemma BitEnd(t: string, p: nat, q: nat)
    ensures In(BIT_END, t, p, q) <==> p + 2 == q <= |t| && (t[p] == '0' || t[p] == '1') && t[p + 1] == ';'
  {
    if In(BIT_END, t, p, q) {
      var m := Split(One(BIT), Lit(";"), t, p, q);
      FirstOf(t, ";", m);
    }
    if p + 2 == q <= |t| && (t[p] == '0' || t[p] == '1') && t[p + 1] == ';' {
      assert t[p + 1..p + 2] == ";";
      Join(One(BIT), Lit(";"), t, p, p + 1, q);
    }
  }

  lemma Single(t: string, c: char, p: nat)
    ensures OccursAt(t, [c], p) <==> CharAt(t, p, c)
  {
    if p < |t| {
      assert t[p..p + 1] == [t[p]];
    }
  }

  lemma BitMatch(t: string, p: nat, q: nat)
    requires p < |t|
    ensures Boundary(t, p) && In(ReOf(NonblockingBit), t, p, q) <==>
            MatchBit(t, p).Some? && MatchBit(t, p).value.end == q
  {
    hide In, SkipWhile, LhsEnd, OccursAt;
    var quote := Cat(SPACES, Cat(Lit("'"), BIT_END));
    LhsOpThen("<=", quote, t, p, q);
    if IdentAt(t, p) {
      var m := SkipSpace(t, LhsEnd(t, p));
      if OccursAt(t, "<=", m) {
        Fits(t, "<=", m);
        SpacesLitThen("'", BIT_END, t, m + 2, q);
        var s := SkipSpace(t, m + 2);
        Single(t, '\'', s);
        BitEnd(t, s + 1, q);
      }
    }
  }

  lemma ContinuousMatch(t: string, p: nat, q: nat)
    requires p < |t|
    ensures Boundary(t, p) && In(ReOf(Continuous), t, p, q) <==>
            MatchContinuous(t, p).Some? && MatchContinuous(t, p).value.end == q
  {
    hide In, SkipWhile, Rhs, OccursAt;
    var equals := Cat(SPACES, Cat(Lit("="), RHS(';')));
    var named := Cat(NAME, equals);
    LitThen("assign", Cat(Plus(IsSpace), named), t, p, q);
    if OccursAt(t, "assign", p) {
      Fits(t, "assign", p);
      NameStarts(equals, t, q);
      MoreSpacesThen(named, t, p + 6, q);
      var n := SkipSpace(t, p + 6);
      NameOpThen("=", RHS(';'), t, n, q);
      if IdentAt(t, n) {
        var r := SkipSpace(t, SkipWord(t, n));
        Single(t, '=', r);
        if CharAt(t, r, '=') {
          RhsMatch(';', t, r + 1, q);
        }
      }
    }
  }

  lemma NameStarts(r: Re, t: string, q: nat)
    ensures StartsVisibly(NAME, t, q) && StartsVisibly(Cat(NAME, r), t, q)
  {
    hide In;
    forall m: nat | In(NAME, t, m, q)
      ensures m < |t| && !IsSpace(t[m])
    {
      NameIs(t, m, q);
    }
    forall m: nat | In(Cat(NAME, r), t, m, q)
      ensures m < |t| && !IsSpace(t[m])
    {
      var l := Split(NAME, r, t, m, q);
      NameIs(t, m, l);
    }
  }

  // ----- Conditions -----

  function Bang(bang: bool): Re {
    if bang then Lit("!") else Empty
  }

  lemma EmptyThen(r: Re, t: string, p: nat, q: nat)
    ensures In(Cat(Empty, r), t, p, q) <==> In(r, t, p, q)
  {
    if In(r, t, p, q) {
      Range(r, t, p, q);
      Join(Empty, r, t, p, p, q);
    }
  }

  /** White space, an exclamation mark if there is to be one, a name, the rest. */
  lemma BangNameThen(bang: bool, name: string, r: Re, t: string, p: nat, q: nat)
    requires p <= |t| && PlainName(name)
    ensures In(Cat(SPACES, Cat(Bang(bang), Cat(Lit(name), r))), t, p, q) <==>
            var s := SkipSpace(t, p);
            var n := if bang then s + 1 else s;
            (bang ==> CharAt(t, s, '!')) && OccursAt(t, name, n) && In(r, t, n + |name|, q)
  {
    hide In, SkipWhile, OccursAt;
    var s := SkipSpace(t, p);
    if bang {
      SpacesLitThen("!", Cat(Lit(name), r), t, p, q);
      Single(t, '!', s);
      LitThen(name, r, t, s + 1, q);
    } else {
      LitStarts(name, r, t, q);
      EmptyStarts(Cat(Lit(name), r), t, q);
      SpacesThen(Cat(Empty, Cat(Lit(name), r)), t, p, q);
      EmptyThen(Cat(Lit(name), r), t, s, q);
      LitThen(name, r, t, s, q);
    }
  }

  lemma EmptyStarts(r: Re, t: string, q: nat)
    requires StartsVisibly(r, t, q)
    ensures StartsVisibly(Cat(Empty, r), t, q)
  {
    hide In;
    forall m: nat | In(Cat(Empty, r), t, m, q)
      ensures m < |t| && !IsSpace(t[m])
    {
      EmptyThen(r, t, m, q);
    }
  }

  lemma CondMatch(name: string, bang: bool, t: string, p: nat, q: nat)
    requires PlainName(name)
    ensures In(Condition(Bang(bang), name), t, p, q) <==>
            OccursAt(t, "if", p) && IfCondEnd(t, name, bang, p) == Some(q)
  {
    hide In, SkipWhile, OccursAt;
    var close := Cat(SPACES, Lit(")"));
    var inner := Cat(SPACES, Cat(Bang(bang), Cat(Lit(name), close)));
    LitThen("if", Cat(SPACES, Cat(Lit("("), inner)), t, p, q);
    if OccursAt(t, "if", p) {
      Fits(t, "if", p);
      SpacesLitThen("(", inner, t, p + 2, q);
      var b := SkipSpace(t, p + 2);
      Single(t, '(', b);
      if CharAt(t, b, '(') {
        CondInner(name, bang, t, b + 1, q);
      }
    }
  }

  /** What follows the opening parenthesis. */
  lemma CondInner(name: string, bang: bool, t: string, p: nat, q: nat)
    requires PlainName(name) && p <= |t|
    ensures In(Cat(SPACES, Cat(Bang(bang), Cat(Lit(name), Cat(SPACES, Lit(")"))))), t, p, q) <==>
            var r := SkipSpace(t, p);
            var n := if bang then r + 1 else r;
            && (bang ==> CharAt(t, r, '!')) && OccursAt(t, name, n)
            && CharAt(t, SkipSpace(t, n + |name|), ')') && q == SkipSpace(t, n + |name|) + 1
  {
    hide In, SkipWhile, OccursAt;
    BangNameThen(bang, name, Cat(SPACES, Lit(")")), t, p, q);
    var r := SkipSpace(t, p);
    var n := if bang then r + 1 else r;
    if OccursAt(t, name, n) {
      Fits(t, name, n);
      SpacesLit(")", t, n + |name|, q);
      Single(t, ')', SkipSpace(t, n + |name|));
    }
  }

  lemma IfMatch(name: string, bang: bool, t: string, p: nat, q: nat)
    requires p < |t| && PlainName(name)
    ensures Boundary(t, p) && In(Condition(Bang(bang), name), t, p, q) <==>
            MatchIf(t, name, bang, p).Some? && MatchIf(t, name, bang, p).value.end == q
  {
    hide In, IfCondEnd;
    CondMatch(name, bang, t, p, q);
  }

  // ----- Reset conditions: an optional end is taken when it can be -----

  lemma CatUnion(x: Re, r: Re, a: Re, b: Re, t: string, q: nat)
    requires forall m :: In(r, t, m, q) <==> In(a, t, m, q) || In(b, t, m, q)
    ensures forall m :: In(Cat(x, r), t, m, q) <==> In(Cat(x, a), t, m, q) || In(Cat(x, b), t, m, q)
  {
    hide In;
    forall m | In(Cat(x, r), t, m, q) || In(Cat(x, a), t, m, q) || In(Cat(x, b), t, m, q)
      ensures In(Cat(x, r), t, m, q) && (In(Cat(x, a), t, m, q) || In(Cat(x, b), t, m, q))
    {
      if In(Cat(x, r), t, m, q) {
        var n := Split(x, r, t, m, q);
        if In(a, t, n, q) {
          Join(x, a, t, m, n, q);
        } else {
          Join(x, b, t, m, n, q);
        }
      } else if In(Cat(x, a), t, m, q) {
        var n := Split(x, a, t, m, q);
        Join(x, r, t, m, n, q);
      } else {
        var n := Split(x, b, t, m, q);
        Join(x, r, t, m, n, q);
      }
    }
  }

  lemma EitherCat(a: Re, b: Re, r: Re, t: string, q: nat)
    ensures forall m :: In(Cat(Either(a, b), r), t, m, q) <==> In(Cat(a, r), t, m, q) || In(Cat(b, r), t, m, q)
  {
    forall m | In(Cat(Either(a, b), r), t, m, q) || In(Cat(a, r), t, m, q) || In(Cat(b, r), t, m, q)
      ensures In(Cat(Either(a, b), r), t, m, q) && (In(Cat(a, r), t, m, q) || In(Cat(b, r), t, m, q))
    {
      if In(Cat(Either(a, b), r), t, m, q) {
        var n := Split(Either(a, b), r, t, m, q);
      } else if In(Cat(a, r), t, m, q) {
        var n := Split(a, r, t, m, q);
        Join(Either(a, b), r, t, m, n, q);
      } else {
        var n := Split(b, r, t, m, q);
        Join(Either(a, b), r, t, m, n, q);
      }
    }
  }

  const CLOSE_RST := Cat(Lit("rst"), Cat(SPACES, Lit(")")))

  /** A reset condition is one of the two. */
  lemma ResetCondition(t: string, p: nat, q: nat)
    ensures In(Condition(Maybe(Lit("!")), "rst"), t, p, q) <==>
            In(Condition(Bang(true), "rst"), t, p, q) || In(Condition(Bang(false), "rst"), t, p, q)
  {
    hide In;
    var yes, no, both := Cat(Bang(true), CLOSE_RST), Cat(Bang(false), CLOSE_RST), Cat(Maybe(Lit("!")), CLOSE_RST);
    EitherCat(Bang(true), Bang(false), CLOSE_RST, t, q);
    CatUnion(SPACES, both, yes, no, t, q);
    CatUnion(Lit("("), Cat(SPACES, both), Cat(SPACES, yes), Cat(SPACES, no), t, q);
    var b, y, n := Cat(Lit("("), Cat(SPACES, both)), Cat(Lit("("), Cat(SPACES, yes)), Cat(Lit("("), Cat(SPACES, no));
    CatUnion(SPACES, b, y, n, t, q);
    CatUnion(Lit("if"), Cat(SPACES, b), Cat(SPACES, y), Cat(SPACES, n), t, q);
  }

  lemma NotBoth(t: string, p: nat)
    requires p < |t| && MatchIf(t, "rst", true, p).Some?
    ensures MatchIf(t, "rst", false, p).None?
  {
    hide SkipWhile;
    var r := SkipSpace(t, SkipSpace(t, p + 2) + 1);
    if OccursAt(t, "rst", r) {
      FirstOf(t, "rst", r);
    }
  }

  const BEGIN := Maybe(Lit("begin"))

  /** White space and an optional `begin`: at most up to the longest. */
  lemma BeginLongest(t: string, m: nat, q: nat)
    requires m <= |t|
    ensures var s := SkipSpace(t, m);
            var e := if OccursAt(t, "begin", s) then s + 5 else s;
            In(Cat(SPACES, BEGIN), t, m, e) && (In(Cat(SPACES, BEGIN), t, m, q) ==> q <= e)
  {
    hide In, SkipWhile, OccursAt;
    var s := SkipSpace(t, m);
    var e := if OccursAt(t, "begin", s) then s + 5 else s;
    MaybeIs(Lit("begin"), t, s, e);
    if OccursAt(t, "begin", s) {
      Fits(t, "begin", s);
    }
    LitIs("begin", t, s, e);
    SpacesEnd(t, m, s);
    Join(SPACES, BEGIN, t, m, s, e);
    if In(Cat(SPACES, BEGIN), t, m, q) {
      var x := Split(SPACES, BEGIN, t, m, q);
      MaybeIs(Lit("begin"), t, x, q);
      LitIs("begin", t, x, q);
      SpacesEnd(t, m, x);
      if q != x {
        FirstOf(t, "begin", x);
        SpacesEnd(t, m, x);
      }
    }
  }

  lemma ResetLongest(t: string, p: nat, q: nat)
    requires p < |t|
    ensures Boundary(t, p) && In(ReOf(ResetIf), t, p, q) ==> MatchReset(t, p).Some? && q <= MatchReset(t, p).value.end
    ensures MatchReset(t, p).Some? ==> Boundary(t, p) && In(ReOf(ResetIf), t, p, MatchReset(t, p).value.end)
  {
    hide In, SkipWhile, OccursAt, MatchIf;
    var cond := Condition(Maybe(Lit("!")), "rst");
    var bang, plain := MatchIf(t, "rst", true, p), MatchIf(t, "rst", false, p);
    if bang.Some? {
      NotBoth(t, p);
    }
    if Boundary(t, p) && In(ReOf(ResetIf), t, p, q) {
      var m := Split(cond, Cat(SPACES, BEGIN), t, p, q);
      ResetCondition(t, p, m);
      IfMatch("rst", true, t, p, m);
      IfMatch("rst", false, t, p, m);
      Range(cond, t, p, m);
      BeginLongest(t, m, q);
    }
    if MatchReset(t, p).Some? {
      var m := if bang.Some? then bang.value.end else plain.value.end;
      IfMatch("rst", true, t, p, m);
      IfMatch("rst", false, t, p, m);
      ResetCondition(t, p, m);
      Range(cond, t, p, m);
      BeginLongest(t, m, q);
      Join(cond, Cat(SPACES, BEGIN), t, p, m, MatchReset(t, p).value.end);
    }
  }

  // ----- Outputs -----

  const INDEX := Cat(BRACKETS, SPACES)
  const INDEXED := Cat(Maybe(INDEX), NAME)
  const SIGNED := Cat(Followed(Lit("signed")), INDEXED)
  const TYPED := Cat(Followed(TYPE), SIGNED)

  /** The end of the name a matcher finds, as the longest the language allows. */
  ghost predicate Longest(r: Re, t: string, p: nat, found: Option<(nat, nat)>) {
    && (found.Some? ==> In(r, t, p, found.value.1))
    && forall q: nat :: In(r, t, p, q) ==> found.Some? && q <= found.value.1
  }

  /** A whole name. */
  predicate WholeName(t: string, span: (nat, nat)) {
    IdentAt(t, span.0) && span.1 == SkipWord(t, span.0) && Boundary(t, span.0)
  }

  lemma IndexedLongest(t: string, p: nat)
    requires p <= |t|
    ensures Longest(INDEXED, t, p, RangeThenName(t, p))
    ensures RangeThenName(t, p).Some? && (p < |t| && IdentAt(t, p) ==> Boundary(t, p)) ==>
              WholeName(t, RangeThenName(t, p).value)
  {
    hide In, SkipWhile;
    var found := RangeThenName(t, p);
    forall q: nat | In(INDEXED, t, p, q)
      ensures found.Some? && q <= found.value.1
    {
      var m := Split(Maybe(INDEX), NAME, t, p, q);
      NameIs(t, m, q);
      MaybeIs(INDEX, t, p, m);
      if m != p {
        var x := Split(BRACKETS, SPACES, t, p, m);
        BracketsAre(t, p, x);
        SpacesEnd(t, x, m);
      }
    }
    if found.Some? {
      var m, q := found.value.0, found.value.1;
      NameAt(t, m);
      if CharAt(t, p, '[') {
        var e := SkipWhile((c: char) => c != ']', t, p + 1);
        BracketsAre(t, p, e + 1);
        SpacesEnd(t, e + 1, m);
        Join(BRACKETS, SPACES, t, p, e + 1, m);
        AfterSpaces(t, e + 1, m);
      }
      MaybeIs(INDEX, t, p, m);
      Join(Maybe(INDEX), NAME, t, p, m, q);
    }
  }

  lemma AfterSpaces(t: string, p: nat, m: nat)
    requires 0 < p <= m < |t| && !IsWord(t[p - 1]) && forall k :: p <= k < m ==> IsSpace(t[k])
    ensures Boundary(t, m)
  {
  }

  lemma IndexedStarts(t: string, q: nat)
    ensures StartsVisibly(INDEXED, t, q)
  {
    hide In;
    forall m: nat | In(INDEXED, t, m, q)
      ensures m < |t| && !IsSpace(t[m])
    {
      var n := Split(Maybe(INDEX), NAME, t, m, q);
      NameIs(t, n, q);
      MaybeIs(INDEX, t, m, n);
      if n != m {
        var x := Split(BRACKETS, SPACES, t, m, n);
        BracketsAre(t, m, x);
      }
    }
  }

  /** One of these words and white space, optionally, then the rest. */
  lemma FollowedThen(word: Re, r: Re, t: string, p: nat, q: nat)
    ensures In(Cat(Followed(word), r), t, p, q) <==> In(Cat(word, Cat(Plus(IsSpace), r)), t, p, q) || In(r, t, p, q)
  {
    hide In;
    var more := Cat(word, Plus(IsSpace));
    EitherCat(more, Empty, r, t, q);
    EmptyThen(r, t, p, q);
    CatAssoc(word, Plus(IsSpace), r, t, p, q);
  }

  lemma CatAssoc(a: Re, b: Re, c: Re, t: string, p: nat, q: nat)
    ensures In(Cat(Cat(a, b), c), t, p, q) <==> In(Cat(a, Cat(b, c)), t, p, q)
  {
    hide In;
    if In(Cat(Cat(a, b), c), t, p, q) {
      var n := Split(Cat(a, b), c, t, p, q);
      var m := Split(a, b, t, p, n);
      Join(b, c, t, m, n, q);
      Join(a, Cat(b, c), t, p, m, q);
    }
    if In(Cat(a, Cat(b, c)), t, p, q) {
      var m := Split(a, Cat(b, c), t, p, q);
      var n := Split(b, c, t, m, q);
      Join(a, b, t, p, m, n);
      Join(Cat(a, b), c, t, p, n, q);
    }
  }

  /** A word, white space, the rest. */
  lemma WordThen(w: string, r: Re, t: string, p: nat, q: nat)
    requires p <= |t| && StartsVisibly(r, t, q)
    ensures In(Cat(Lit(w), Cat(Plus(IsSpace), r)), t, p, q) <==>
            OptionalWord(t, w, p).Some? && In(r, t, OptionalWord(t, w, p).value, q)
  {
    hide In, SkipWhile, OccursAt;
    LitThen(w, Cat(Plus(IsSpace), r), t, p, q);
    if OccursAt(t, w, p) {
      Fits(t, w, p);
      MoreSpacesThen(r, t, p + |w|, q);
    }
  }

  /** A word that white space follows is a whole name. */
  lemma WordIsName(t: string, w: string, p: nat, q: nat)
    requires p <= |t| && OptionalWord(t, w, p).Some? && w != [] && (forall k :: 0 <= k < |w| ==> IsWord(w[k]))
    requires In(INDEXED, t, p, q)
    ensures q <= p + |w|
  {
    hide In, SkipWhile;
    FirstOf(t, w, p);
    var m := Split(Maybe(INDEX), NAME, t, p, q);
    MaybeIs(INDEX, t, p, m);
    if m != p {
      var x := Split(BRACKETS, SPACES, t, p, m);
      BracketsAre(t, p, x);
    } else {
      NameIs(t, p, q);
      assert IsSpace(t[p + |w|]);
    }
  }

  lemma SignedLongest(t: string, p: nat)
    requires p <= |t|
    ensures Longest(SIGNED, t, p, SignThenName(t, p))
    ensures SignThenName(t, p).Some? && (p < |t| && IdentAt(t, p) ==> Boundary(t, p)) ==>
              WholeName(t, SignThenName(t, p).value)
  {
    hide In, SkipWhile, OccursAt, RangeThenName, OptionalWord;
    var found, word := SignThenName(t, p), OptionalWord(t, "signed", p);
    IndexedLongest(t, p);
    if word.Some? {
      IndexedLongest(t, word.value);
      AfterWord(t, "signed", p);
    }
    forall q: nat
      ensures In(SIGNED, t, p, q) <==>
              (word.Some? && In(INDEXED, t, word.value, q)) || In(INDEXED, t, p, q)
    {
      FollowedThen(Lit("signed"), INDEXED, t, p, q);
      IndexedStarts(t, q);
      WordThen("signed", INDEXED, t, p, q);
    }
    forall q: nat | In(SIGNED, t, p, q)
      ensures found.Some? && q <= found.value.1
    {
      if word.Some? && In(INDEXED, t, p, q) {
        WordIsName(t, "signed", p, q);
      }
    }
  }

  lemma AfterWord(t: string, w: string, p: nat)
    requires p <= |t| && OptionalWord(t, w, p).Some?
    ensures p + |w| < OptionalWord(t, w, p).value
    ensures Boundary(t, OptionalWord(t, w, p).value)
  {
    hide SkipWhile;
  }

  lemma SignedStarts(t: string, q: nat)
    ensures StartsVisibly(SIGNED, t, q)
  {
    hide In;
    IndexedStarts(t, q);
    forall m: nat | In(SIGNED, t, m, q)
      ensures m < |t| && !IsSpace(t[m])
    {
      FollowedThen(Lit("signed"), INDEXED, t, m, q);
      LitStarts("signed", Cat(Plus(IsSpace), INDEXED), t, q);
    }
  }

  /** The type word that white space follows, if one is there. */
  function TypeWord(t: string, p: nat): (w: Option<string>)
    requires p <= |t|
    ensures w.Some? ==> OptionalWord(t, w.value, p).Some? && w.value in {"logic", "wire", "reg"}
  {
    if OptionalWord(t, "logic", p).Some? then Some("logic")
    else if OptionalWord(t, "wire", p).Some? then Some("wire")
    else if OptionalWord(t, "reg", p).Some? then Some("reg")
    else None
  }

  /** No two of them are at the same place, and none is where `signed` is. */
  lemma OneWord(t: string, p: nat)
    requires p <= |t| && TypeWord(t, p).Some?
    ensures OptionalWord(t, "signed", p).None?
    ensures forall w :: w in {"logic", "wire", "reg"} && OptionalWord(t, w, p).Some? ==> w == TypeWord(t, p).value
  {
    hide SkipWhile;
    forall w | w in {"logic", "wire", "reg", "signed"} && OptionalWord(t, w, p).Some?
      ensures p < |t| && t[p] == w[0]
    {
      FirstOf(t, w, p);
    }
  }

  lemma TypedIs(t: string, p: nat, q: nat)
    requires p <= |t|
    ensures In(TYPED, t, p, q) <==>
            (TypeWord(t, p).Some? && In(SIGNED, t, OptionalWord(t, TypeWord(t, p).value, p).value, q))
            || In(SIGNED, t, p, q)
  {
    hide In, OptionalWord;
    var rest := Cat(Plus(IsSpace), SIGNED);
    FollowedThen(TYPE, SIGNED, t, p, q);
    EitherCat(Lit("logic"), Either(Lit("wire"), Lit("reg")), rest, t, q);
    EitherCat(Lit("wire"), Lit("reg"), rest, t, q);
    SignedStarts(t, q);
    WordThen("logic", SIGNED, t, p, q);
    WordThen("wire", SIGNED, t, p, q);
    WordThen("reg", SIGNED, t, p, q);
    if TypeWord(t, p).Some? {
      OneWord(t, p);
    }
  }

  lemma TypeFound(t: string, p: nat)
    requires p <= |t|
    ensures TypeThenName(t, p) ==
            var w := TypeWord(t, p);
            if w.Some? && SignThenName(t, OptionalWord(t, w.value, p).value).Some?
            then SignThenName(t, OptionalWord(t, w.value, p).value)
            else SignThenName(t, p)
  {
    hide OptionalWord, SignThenName;
  }

  lemma TypedLongest(t: string, p: nat)
    requires p <= |t|
    ensures Longest(TYPED, t, p, TypeThenName(t, p))
    ensures TypeThenName(t, p).Some? && (p < |t| && IdentAt(t, p) ==> Boundary(t, p)) ==>
              WholeName(t, TypeThenName(t, p).value)
  {
    hide In, SkipWhile, OccursAt, SignThenName, TypeThenName, OptionalWord, TypeWord;
    var found, w := TypeThenName(t, p), TypeWord(t, p);
    TypeFound(t, p);
    SignedLongest(t, p);
    if w.Some? {
      SignedLongest(t, OptionalWord(t, w.value, p).value);
      AfterWord(t, w.value, p);
      OneWord(t, p);
    }
    forall q: nat
      ensures In(TYPED, t, p, q) <==>
              (w.Some? && In(SIGNED, t, OptionalWord(t, w.value, p).value, q)) || In(SIGNED, t, p, q)
    {
      TypedIs(t, p, q);
    }
    forall q: nat | In(TYPED, t, p, q)
      ensures found.Some? && q <= found.value.1
    {
      if w.Some? && In(SIGNED, t, p, q) {
        NotSigned(t, p, q);
        WordIsName(t, w.value, p, q);
      }
    }
  }

  lemma NotSigned(t: string, p: nat, q: nat)
    requires p <= |t| && OptionalWord(t, "signed", p).None? && In(SIGNED, t, p, q)
    ensures In(INDEXED, t, p, q)
  {
    hide In, OptionalWord;
    FollowedThen(Lit("signed"), INDEXED, t, p, q);
    IndexedStarts(t, q);
    WordThen("signed", INDEXED, t, p, q);
  }

  lemma TypedStarts(t: string, q: nat)
    ensures StartsVisibly(TYPED, t, q)
  {
    hide In, OptionalWord;
    SignedStarts(t, q);
    forall m: nat | In(TYPED, t, m, q)
      ensures m < |t| && !IsSpace(t[m])
    {
      Range(TYPED, t, m, q);
      TypedIs(t, m, q);
      if TypeWord(t, m).Some? {
        WordVisible(t, TypeWord(t, m).value, m);
      }
    }
  }

  lemma WordVisible(t: string, w: string, p: nat)
    requires p <= |t| && OptionalWord(t, w, p).Some? && w in {"logic", "wire", "reg"}
    ensures p < |t| && !IsSpace(t[p])
  {
    hide SkipWhile;
    FirstOf(t, w, p);
  }

  lemma OutputLongest(t: string, p: nat, q: nat)
    requires p < |t|
    ensures Boundary(t, p) && In(ReOf(Output), t, p, q) ==>
              MatchOutput(t, p).Some? && q <= MatchOutput(t, p).value.end
    ensures MatchOutput(t, p).Some? ==>
              var h := MatchOutput(t, p).value;
              Boundary(t, p) && In(ReOf(Output), t, p, h.end) && h.a1 == h.end && WholeName(t, (h.a0, h.a1))
  {
    hide In, SkipWhile, OccursAt, TypeThenName;
    var found := MatchOutput(t, p);
    if OccursAt(t, "output", p) {
      Fits(t, "output", p);
      TypedLongest(t, SkipSpace(t, p + 6));
      if found.Some? {
        AfterMoreSpaces(t, p + 6);
        OutputIs(t, p, found.value.end);
      }
    }
    if Boundary(t, p) && In(ReOf(Output), t, p, q) {
      OutputIs(t, p, q);
    }
  }

  lemma AfterMoreSpaces(t: string, p: nat)
    requires p <= |t| && SkipSpace(t, p) > p
    ensures Boundary(t, SkipSpace(t, p))
  {
    hide SkipWhile;
  }

  lemma OutputIs(t: string, p: nat, q: nat)
    ensures In(ReOf(Output), t, p, q) <==>
            && OccursAt(t, "output", p) && SkipSpace(t, p + 6) > p + 6
            && In(TYPED, t, SkipSpace(t, p + 6), q)
  {
    hide In, SkipWhile, OccursAt;
    LitThen("output", Cat(Plus(IsSpace), TYPED), t, p, q);
    if OccursAt(t, "output", p) {
      Fits(t, "output", p);
      TypedStarts(t, q);
      MoreSpacesThen(TYPED, t, p + 6, q);
    }
  }

  // ----- The matchers and the patterns -----

  /** A matcher finds a span exactly when the pattern's language, after a word boundary, has it;
      so there is never a choice of end. */
  lemma MatchIff(pat: Pattern, t: string, p: nat, q: nat)
    requires p < |t| && !pat.ResetIf? && !pat.Output? && (pat.IfCond? ==> PlainName(pat.name))
    ensures Boundary(t, p) && In(ReOf(pat), t, p, q) <==>
            MatchAt(pat, t, p).Some? && MatchAt(pat, t, p).value.end == q
  {
    hide In, MatchIf, MatchBit, MatchContinuous, MatchAssign;
    match pat
    case IfCond(name, bang) => IfMatch(name, bang, t, p, q);
    case Nonblocking => AssignMatch("<=", ';', t, p, q);
    case NonblockingBit => BitMatch(t, p, q);
    case Continuous => ContinuousMatch(t, p, q);
    case Blocking => AssignMatch("=", '=', t, p, q);
  }

  /** The two patterns with an optional end are matched when some span is in the language, and
      then with the longest. */
  lemma MatchLongest(pat: Pattern, t: string, p: nat)
    requires p < |t| && (pat.ResetIf? || pat.Output?)
    ensures MatchAt(pat, t, p).Some? <==> Boundary(t, p) && exists q: nat :: In(ReOf(pat), t, p, q)
    ensures MatchAt(pat, t, p).Some? ==>
              var end := MatchAt(pat, t, p).value.end;
              In(ReOf(pat), t, p, end) && forall q: nat :: In(ReOf(pat), t, p, q) ==> q <= end
  {
    hide In, MatchReset, MatchOutput;
    forall q: nat
      ensures Boundary(t, p) && In(ReOf(pat), t, p, q) ==>
                MatchAt(pat, t, p).Some? && q <= MatchAt(pat, t, p).value.end
      ensures MatchAt(pat, t, p).Some? ==> Boundary(t, p) && In(ReOf(pat), t, p, MatchAt(pat, t, p).value.end)
    {
      if pat.ResetIf? {
        ResetLongest(t, p, q);
      } else {
        OutputLongest(t, p, q);
      }
    }
    if MatchAt(pat, t, p).Some? {
      assert In(ReOf(pat), t, p, MatchAt(pat, t, p).value.end);
    }
  }

  /** The groups of an assignment: the left-hand side, and the right-hand side after as much
      white space as leaves it a character. */
  lemma AssignGroups(op: string, extra: char, t: string, p: nat) returns (o: nat)
    requires p < |t| && ((op == "<=" && extra == ';') || (op == "=" && extra == '='))
    requires MatchAssign(t, op, extra, p).Some?
    ensures var h := MatchAssign(t, op, extra, p).value;
            && h.a0 == p && In(LHS, t, h.a0, h.a1) && In(Cat(SPACES, Lit(op)), t, h.a1, o)
            && In(SPACES, t, o, h.b0) && In(Plus(NotIn(extra)), t, h.b0, h.b1) && h.b1 + 1 == h.end
            && forall b :: b > h.b0 ==> !(In(SPACES, t, o, b) && In(Plus(NotIn(extra)), t, b, h.b1))
  {
    hide In, SkipWhile, LhsEnd, OccursAt;
    var h := MatchAssign(t, op, extra, p).value;
    var s := SkipSpace(t, h.a1);
    o := s + |op|;
    LhsAt(t, p);
    SpacesEnd(t, h.a1, s);
    LitIs(op, t, s, o);
    Fits(t, op, s);
    Join(SPACES, Lit(op), t, h.a1, s, o);
    RhsGroup(extra, t, o);
  }

  lemma RhsGroup(extra: char, t: string, o: nat)
    requires o <= |t| && (extra == ';' || extra == '=') && Rhs(t, o, extra).Some?
    ensures var (b0, b1) := Rhs(t, o, extra).value;
            && In(SPACES, t, o, b0) && In(Plus(NotIn(extra)), t, b0, b1)
            && forall b :: b > b0 ==> !(In(SPACES, t, o, b) && In(Plus(NotIn(extra)), t, b, b1))
  {
    hide In, SkipWhile;
    var (b0, b1) := Rhs(t, o, extra).value;
    SpacesAre(t, o, b0);
    PlusIs(NotIn(extra), t, b0, b1);
    forall b: nat | b > b0 && In(SPACES, t, o, b)
      ensures !In(Plus(NotIn(extra)), t, b, b1)
    {
      SpacesAre(t, o, b);
      PlusIs(NotIn(extra), t, b, b1);
      assert IsSpace(t[b0]);
    }
  }

  // ----- Tokens and output names -----

  /** A token of a reset branch is one of the two words between word boundaries. */
  lemma TokenIff(u: string, p: nat, token: R.Token)
    requires p <= |u|
    ensures R.TokenAt(u, p) == Some(token) <==>
            && Boundary(u, p) && In(Lit(if token.isBegin then "begin" else "end"), u, p, token.end)
            && (token.end == |u| || !IsWord(u[token.end]))
  {
    LitIs("begin", u, p, p + 5);
    LitIs("end", u, p, p + 3);
    if OccursAt(u, "end", p) {
      FirstOf(u, "end", p);
    }
    if OccursAt(u, "begin", p) {
      FirstOf(u, "begin", p);
    }
  }

  /** The declared outputs: the whole names that end the matches of the output pattern. */
  lemma OutputNamesAre(mask: string, name: string)
    ensures name in R.OutputNames(mask) <==>
            exists h :: h in FindIter(Output, mask, 0) && EndsWith(mask, h, name)
  {
    hide FindIter, EndsWith;
    var hits := FindIter(Output, mask, 0);
    forall k | 0 <= k < |hits|
      ensures name == mask[hits[k].a0..hits[k].a1] <==> EndsWith(mask, hits[k], name)
    {
      HitEndsWith(mask, hits[k], name);
    }
  }

  /** The match ends with this whole name. */
  predicate EndsWith(mask: string, h: Hit, name: string) {
    |name| <= h.end <= |mask| && WholeName(mask, (h.end - |name|, h.end)) && name == mask[h.end - |name|..h.end]
  }

  lemma HitEndsWith(mask: string, h: Hit, name: string)
    requires IsHit(Output, mask, 0, h)
    ensures name == mask[h.a0..h.a1] <==> EndsWith(mask, h, name)
  {
    hide MatchAt, SkipWhile;
    HitIsWhole(mask, h);
    if EndsWith(mask, h, name) {
      SameStart(mask, h.end - |name|, h.a0, h.end);
    }
  }

  lemma HitIsWhole(mask: string, h: Hit)
    requires IsHit(Output, mask, 0, h)
    ensures h.a1 == h.end && WholeName(mask, (h.a0, h.end))
  {
    hide MatchOutput, In, SkipWhile;
    OutputLongest(mask, h.start, h.end);
  }

  lemma SameStart(t: string, a: nat, b: nat, end: nat)
    requires WholeName(t, (a, end)) && WholeName(t, (b, end))
    ensures a == b
  {
    hide SkipWhile;
    if a < b {
      NoBoundaryInside(t, a, b, end);
    } else if b < a {
      NoBoundaryInside(t, b, a, end);
    }
  }

  lemma NoBoundaryInside(t: string, a: nat, b: nat, end: nat)
    requires WholeName(t, (a, end)) && a < b < end
    ensures !Boundary(t, b)
  {
    hide SkipWhile;
  }
}
