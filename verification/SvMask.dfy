/** The comment and string masking lexer of harness/sv_mask.py.

    The source runs four modes (code, line, block, string) over a character list and
    sometimes consumes two characters at once.  The specification is a one-character
    automaton: four modes plus four states for the second half of a two-character token. */
module SvMask {

  datatype State =
    | Code
    | LineOpen    // at the second '/' of "//"
    | Line
    | BlockOpen   // at the '*' of "/*"
    | Block
    | BlockClose  // at the '/' of "*/"
    | Str
    | StrEsc      // at the character after a backslash

  predicate Starts(s: string, a: char, b: char) {
    |s| >= 2 && s[0] == a && s[1] == b
  }

  /** The state after reading s[0] in state st; s[1], when there is one, is lookahead. */
  function Next(st: State, s: string): State
    requires s != []
  {
    match st
    case Code =>
      if Starts(s, '/', '/') then LineOpen
      else if Starts(s, '/', '*') then BlockOpen
      else if s[0] == '"' then Str
      else Code
    case LineOpen => Line
    case Line => if s[0] == '\n' then Code else Line
    case BlockOpen => Block
    case Block => if Starts(s, '*', '/') then BlockClose else Block
    case BlockClose => Code
    case Str => if s[0] == '\\' then StrEsc else if s[0] == '"' then Code else Str
    case StrEsc => Str
  }

  /** What the mask shows in place of s[0] when it is read in state st. */
  function Shown(st: State, s: string): char
    requires s != []
  {
    match st
    case Code => if Next(st, s) == Code then s[0] else ' '
    case Line => if s[0] == '\n' then '\n' else ' '
    case Block => if s[0] == '\n' then '\n' else ' '
    case _ => ' '
  }

  /** The lexical role of every character: the state in which it is read. */
  function Trace(st: State, s: string): (t: seq<State>)
    ensures |t| == |s|
    decreases |s|
  {
    if s == [] then [] else [st] + Trace(Next(st, s), s[1..])
  }

  function Mask(st: State, s: string): (m: string)
    ensures |m| == |s|
    decreases |s|
  {
    if s == [] then [] else [Shown(st, s)] + Mask(Next(st, s), s[1..])
  }

  /** The state in which lexing s ends. */
  function Run(st: State, s: string): State
    decreases |s|
  {
    if s == [] then st else Run(Next(st, s), s[1..])
  }

  /** The role of the character at position k of a source text. */
  function StateAt(s: string, k: nat): State
    requires k < |s|
  {
    Trace(Code, s)[k]
  }

  function Masked(s: string): (m: string)
    ensures |m| == |s|
  {
    Mask(Code, s)
  }

  // ----- Reading the recursive definitions position by position -----

  /** Roles and mask from position k on depend only on the role at k and the text from k on. */
  lemma {:induction false} Suffix(st: State, s: string, k: nat)
    requires k < |s|
    ensures Trace(st, s)[k..] == Trace(Trace(st, s)[k], s[k..])
    ensures Mask(st, s)[k..] == Mask(Trace(st, s)[k], s[k..])
    ensures Run(st, s) == Run(Trace(st, s)[k], s[k..])
    decreases k
  {
    if k == 0 {
      assert s[0..] == s;
    } else {
      Suffix(Next(st, s), s[1..], k - 1);
      assert s[1..][k - 1..] == s[k..];
    }
  }

  lemma At(st: State, s: string, k: nat)
    requires k < |s|
    ensures Mask(st, s)[k] == Shown(Trace(st, s)[k], s[k..])
    ensures k + 1 < |s| ==> Trace(st, s)[k + 1] == Next(Trace(st, s)[k], s[k..])
    ensures k + 1 == |s| ==> Run(st, s) == Next(Trace(st, s)[k], s[k..])
  {
    Suffix(st, s, k);
    var r := s[k..];
    assert Trace(st, s)[k..][0] == Trace(st, s)[k];
    assert Mask(st, s)[k..][0] == Mask(st, s)[k];
    if k + 1 < |s| {
      assert Trace(st, s)[k..][1] == Trace(st, s)[k + 1];
      assert r[1..] != [];
    } else {
      assert r[1..] == [];
    }
  }

  /** The in-place lexer of the source refines the automaton.  The second and third
      invariants say that the loop only ever reads cells it has not blanked yet. */
  method MaskCode(source: string) returns (masked: string)
    ensures masked == Masked(source)
  {
    var chars := new char[|source|](i requires 0 <= i < |source| => source[i]);
    var index := 0;
    var mode := Code;
    while index < chars.Length
      invariant 0 <= index <= |source| + 1
      invariant forall k :: 0 <= k < index && k < |source| ==> chars[k] == Masked(source)[k]
      invariant forall k :: index <= k < |source| ==> chars[k] == source[k]
      invariant mode in {Code, Line, Block, Str}
      invariant index < |source| ==> StateAt(source, index) == mode
    {
      At(Code, source, index);
      if index + 1 < |source| {
        At(Code, source, index + 1);
      }
      if mode == Code && index + 1 < chars.Length && chars[index] == '/' && chars[index + 1] == '/' {
        mode := Line;
        chars[index], chars[index + 1] := ' ', ' ';
        index := index + 2;
      } else if mode == Code && index + 1 < chars.Length && chars[index] == '/' && chars[index + 1] == '*' {
        mode := Block;
        chars[index], chars[index + 1] := ' ', ' ';
        index := index + 2;
      } else if mode == Code && chars[index] == '"' {
        mode := Str;
        chars[index] := ' ';
        index := index + 1;
      } else if mode == Code {
        index := index + 1;
      } else if mode == Line {
        if chars[index] == '\n' {
          mode := Code;
        } else {
          chars[index] := ' ';
        }
        index := index + 1;
      } else if mode == Block {
        if index + 1 < chars.Length && chars[index] == '*' && chars[index + 1] == '/' {
          chars[index], chars[index + 1] := ' ', ' ';
          index := index + 2;
          mode := Code;
        } else {
          if chars[index] != '\n' {
            chars[index] := ' ';
          }
          index := index + 1;
        }
      } else if chars[index] == '\\' {
        chars[index] := ' ';
        if index + 1 < chars.Length {
          chars[index + 1] := ' ';
        }
        index := index + 2;
      } else if chars[index] == '"' {
        chars[index] := ' ';
        index := index + 1;
        mode := Code;
      } else {
        chars[index] := ' ';
        index := index + 1;
      }
    }
    masked := chars[..];
  }

  // ----- What the mask looks like -----

  /** A character that is neither a blank nor a newline in the mask was read as code, is
      shown as it is, and leaves the lexer in code. */
  lemma CodeShown(s: string, k: nat)
    requires k < |s|
    requires Masked(s)[k] != ' ' && Masked(s)[k] != '\n'
    ensures StateAt(s, k) == Code && s[k] == Masked(s)[k]
    ensures if k + 1 < |s| then StateAt(s, k + 1) == Code else Run(Code, s) == Code
  {
    At(Code, s, k);
  }

  /** No quote and no comment opener is left in a mask. */
  ghost predicate OpenerFree(m: string) {
    && (forall k :: 0 <= k < |m| ==> m[k] != '"')
    && (forall k :: 0 <= k < |m| - 1 ==> !(m[k] == '/' && (m[k + 1] == '/' || m[k + 1] == '*')))
  }

  lemma MaskShape(s: string)
    ensures forall k :: 0 <= k < |s| ==> Masked(s)[k] == s[k] || Masked(s)[k] == ' '
    ensures OpenerFree(Masked(s))
  {
    forall k | 0 <= k < |s|
      ensures Masked(s)[k] == s[k] || Masked(s)[k] == ' '
      ensures Masked(s)[k] != '"'
    {
      At(Code, s, k);
    }
    forall k | 0 <= k < |s| - 1
      ensures !(Masked(s)[k] == '/' && (Masked(s)[k + 1] == '/' || Masked(s)[k + 1] == '*'))
    {
      At(Code, s, k);
      At(Code, s, k + 1);
    }
  }

  /** Text without openers is code throughout. */
  lemma {:induction false} OpenerFreeIsCode(s: string)
    requires OpenerFree(s)
    ensures Mask(Code, s) == s
    ensures forall k :: 0 <= k < |s| ==> Trace(Code, s)[k] == Code
    ensures Run(Code, s) == Code
  {
    if s != [] {
      assert Next(Code, s) == Code;
      assert OpenerFree(s[1..]) by {
        assert forall k :: 0 <= k < |s[1..]| ==> s[1..][k] == s[k + 1];
      }
      OpenerFreeIsCode(s[1..]);
    }
  }

  lemma MaskIdempotent(s: string)
    ensures Masked(Masked(s)) == Masked(s)
  {
    MaskShape(s);
    OpenerFreeIsCode(Masked(s));
  }

  // ----- What comments and strings are -----

  /** Shown as a blank, or as the newline it is. */
  predicate BlankOrNewline(s: string, k: nat)
    requires k < |s|
  {
    Masked(s)[k] == if s[k] == '\n' then '\n' else ' '
  }

  /** Position k is read as code, or is the end of the text. */
  predicate CodeFrom(s: string, k: nat)
    requires k <= |s|
  {
    if k < |s| then StateAt(s, k) == Code else Run(Code, s) == Code
  }

  /** Two characters at position k. */
  predicate PairAt(s: string, k: int, a: char, b: char) {
    0 <= k < |s| - 1 && s[k] == a && s[k + 1] == b
  }

  /** The text starts as code, and goes on as code after every character that is neither a
      quote nor the start of a comment; those characters are shown as they are. */
  lemma CodeGoesOn(s: string, i: nat)
    ensures s != [] ==> StateAt(s, 0) == Code
    ensures i < |s| && StateAt(s, i) == Code && s[i] != '"' && !PairAt(s, i, '/', '/') && !PairAt(s, i, '/', '*') ==>
              Masked(s)[i] == s[i] && CodeFrom(s, i + 1)
  {
    if i < |s| {
      At(Code, s, i);
    }
  }

  lemma {:induction false} InLine(s: string, i: nat, k: nat)
    requires PairAt(s, i, '/', '/') && StateAt(s, i) == Code && i + 2 <= k < |s|
    requires forall j :: i + 2 <= j < k ==> s[j] != '\n'
    ensures StateAt(s, k) == Line
  {
    At(Code, s, k - 1);
    if k == i + 2 {
      At(Code, s, i);
    } else {
      InLine(s, i, k - 1);
    }
  }

  /** A line comment: two slashes in code blank everything up to the first newline, which is
      kept and followed by code; without one, everything that follows. */
  lemma LineCommentMeaning(s: string, i: nat, e: nat)
    requires PairAt(s, i, '/', '/') && StateAt(s, i) == Code
    requires i + 2 <= e <= |s| && (forall k :: i + 2 <= k < e ==> s[k] != '\n') && (e < |s| ==> s[e] == '\n')
    ensures forall k :: i <= k < e ==> Masked(s)[k] == ' '
    ensures e < |s| ==> Masked(s)[e] == '\n' && CodeFrom(s, e + 1)
  {
    At(Code, s, i);
    At(Code, s, i + 1);
    forall k | i + 2 <= k < |s| && k <= e
      ensures StateAt(s, k) == Line && Masked(s)[k] == if k < e then ' ' else '\n'
    {
      InLine(s, i, k);
      At(Code, s, k);
    }
    if e < |s| {
      At(Code, s, e);
    }
  }

  lemma {:induction false} InBlock(s: string, i: nat, k: nat)
    requires PairAt(s, i, '/', '*') && StateAt(s, i) == Code && i + 2 <= k < |s|
    requires forall j :: i + 2 <= j < k ==> !PairAt(s, j, '*', '/')
    ensures StateAt(s, k) == Block
  {
    At(Code, s, k - 1);
    if k == i + 2 {
      At(Code, s, i);
    } else {
      InBlock(s, i, k - 1);
      assert !PairAt(s, k - 1, '*', '/');
    }
  }

  /** A block comment: a slash and a star in code blank everything but newlines through the
      first star and slash that follow them, after which there is code; without those,
      everything that follows. */
  lemma BlockCommentMeaning(s: string, i: nat, e: nat)
    requires PairAt(s, i, '/', '*') && StateAt(s, i) == Code
    requires i + 2 <= e <= |s| && (forall k :: i + 2 <= k < e ==> !PairAt(s, k, '*', '/'))
    requires e < |s| ==> PairAt(s, e, '*', '/')
    ensures forall k :: i <= k < e ==> BlankOrNewline(s, k)
    ensures e < |s| ==> Masked(s)[e] == Masked(s)[e + 1] == ' ' && CodeFrom(s, e + 2)
  {
    At(Code, s, i);
    At(Code, s, i + 1);
    forall k | i + 2 <= k < |s| && k <= e
      ensures StateAt(s, k) == Block && (k < e ==> BlankOrNewline(s, k))
    {
      InBlock(s, i, k);
      At(Code, s, k);
      assert k < e ==> !PairAt(s, k, '*', '/');
    }
    if e < |s| {
      assert StateAt(s, e) == Block;
      At(Code, s, e);
      At(Code, s, e + 1);
    }
  }

  /** How many backslashes stand directly before position k, not looking before `low`. */
  function Backslashes(s: string, low: nat, k: nat): nat
    requires low <= k <= |s|
  {
    if k == low || s[k - 1] != '\\' then 0 else 1 + Backslashes(s, low, k - 1)
  }

  /** A quote after position i that an even number of backslashes precedes. */
  predicate ClosesString(s: string, i: nat, e: nat) {
    i < e < |s| && s[e] == '"' && Backslashes(s, i + 1, e) % 2 == 0
  }

  lemma {:induction false} InString(s: string, i: nat, k: nat)
    requires i < k < |s| && s[i] == '"' && StateAt(s, i) == Code
    requires forall j :: i < j < k ==> !ClosesString(s, i, j)
    ensures StateAt(s, k) == if Backslashes(s, i + 1, k) % 2 == 0 then Str else StrEsc
  {
    At(Code, s, k - 1);
    if k > i + 1 {
      InString(s, i, k - 1);
      assert !ClosesString(s, i, k - 1);
    }
  }

  /** A string: a quote in code blanks everything through the first later quote that an even
      number of backslashes precedes, after which there is code; without one, everything that
      follows. */
  lemma StringMeaning(s: string, i: nat, e: nat)
    requires i < |s| && s[i] == '"' && StateAt(s, i) == Code
    requires i < e <= |s| && (forall k :: i < k < e ==> !ClosesString(s, i, k))
    requires e < |s| ==> ClosesString(s, i, e)
    ensures forall k :: i <= k < |s| && k <= e ==> Masked(s)[k] == ' '
    ensures e < |s| ==> CodeFrom(s, e + 1)
  {
    At(Code, s, i);
    forall k | i < k < |s| && k <= e
      ensures Masked(s)[k] == ' '
    {
      InString(s, i, k);
      At(Code, s, k);
    }
    if e < |s| {
      InString(s, i, e);
      At(Code, s, e);
    }
  }

  // ----- Splicing -----

  function Splice<T>(s: seq<T>, i: nat, j: nat, middle: seq<T>): (r: seq<T>)
    requires i <= j <= |s|
    ensures |r| == i + |middle| + (|s| - j)
  {
    s[..i] + middle + s[j..]
  }

  /** Masking commutes with replacing s[i..j] by text: every other character keeps its
      role and its mask, and the new text is lexed as it would be on its own. */
  ghost predicate Commutes(s: string, i: nat, j: nat, text: string)
    requires i <= j <= |s|
  {
    && Trace(Code, Splice(s, i, j, text)) == Splice(Trace(Code, s), i, j, Trace(Code, text))
    && Masked(Splice(s, i, j, text)) == Splice(Masked(s), i, j, Masked(text))
  }

  predicate Joins(c: char) {
    c == '/' || c == '*'
  }

  /** Text whose ends cannot form a two-character token with what surrounds it. */
  predicate Solid(text: string) {
    text != [] && !Joins(text[0]) && !Joins(text[|text| - 1])
  }

  /** Appending text that joins with nothing does not change how the first character is read. */
  lemma Lookahead(st: State, a: string, b: string)
    requires a != [] && (b == [] || !Joins(a[|a| - 1]) || !Joins(b[0]))
    ensures (a + b)[0] == a[0] && (a + b)[1..] == a[1..] + b
    ensures Next(st, a + b) == Next(st, a) && Shown(st, a + b) == Shown(st, a)
  {
    if |a| == 1 && b != [] {
      assert (a + b)[1] == b[0];
    }
  }

  lemma {:induction false} Concat(st: State, a: string, b: string)
    requires a == [] || b == [] || !Joins(a[|a| - 1]) || !Joins(b[0])
    ensures Trace(st, a + b) == Trace(st, a) + Trace(Run(st, a), b)
    ensures Mask(st, a + b) == Mask(st, a) + Mask(Run(st, a), b)
    ensures Run(st, a + b) == Run(Run(st, a), b)
    decreases |a|
  {
    if a == [] {
      assert a + b == b;
    } else {
      Lookahead(st, a, b);
      var st', rest := Next(st, a), a[1..];
      Concat(st', rest, b);
      calc {
        Trace(st, a + b);
        [st] + Trace(st', rest + b);
        [st] + (Trace(st', rest) + Trace(Run(st', rest), b));
        ([st] + Trace(st', rest)) + Trace(Run(st', rest), b);
      }
      calc {
        Mask(st, a + b);
        [Shown(st, a)] + Mask(st', rest + b);
        [Shown(st, a)] + (Mask(st', rest) + Mask(Run(st', rest), b));
        ([Shown(st, a)] + Mask(st', rest)) + Mask(Run(st', rest), b);
      }
    }
  }

  /** Roles before position i do not depend on the text from i on. */
  lemma {:induction false} Prefix(st: State, s: string, i: nat)
    requires i <= |s|
    ensures Trace(st, s)[..i] == Trace(st, s[..i])
    decreases i
  {
    if i > 0 {
      var p := s[..i];
      if i == 1 {
        assert p[1..] == [];
        assert Trace(st, p) == [st];
      } else {
        assert p[1..] == s[1..][..i - 1] && p[1] == s[1];
        Prefix(Next(st, s), s[1..], i - 1);
      }
    }
  }

  /** The mask before position i is that of the cut text, except when the cut falls inside
      a two-character token. */
  lemma {:induction false} PrefixMask(st: State, s: string, i: nat)
    requires i < |s|
    ensures Trace(st, s)[i] == Code ==> Run(st, s[..i]) == Code
    ensures Trace(st, s)[i] == Code ==> Mask(st, s)[..i] == Mask(st, s[..i])
    ensures Run(st, s[..i]) == Code && Mask(st, s)[..i] == Mask(st, s[..i]) ==> Trace(st, s)[i] == Code
    decreases i
  {
    if i > 0 {
      var p := s[..i];
      if i == 1 {
        assert p[1..] == [];
        assert Run(st, p) == Run(Next(st, p), []) == Next(st, p);
        assert Mask(st, p) == [Shown(st, p)] + Mask(Next(st, p), []) == [Shown(st, p)];
        assert Mask(st, s)[..1] == [Shown(st, s)];
        assert Trace(st, s)[1] == Next(st, s);
        assert p[0] == s[0];
        if Mask(st, s)[..1] == Mask(st, p) {
          assert Shown(st, s) == Mask(st, s)[..1][0] == Shown(st, p);
        }
      } else {
        assert p[1..] == s[1..][..i - 1] && p[1] == s[1] && p[0] == s[0];
        assert Next(st, p) == Next(st, s) && Shown(st, p) == Shown(st, s);
        PrefixMask(Next(st, s), s[1..], i - 1);
        assert Mask(st, s)[..i] == [Shown(st, s)] + Mask(Next(st, s), s[1..])[..i - 1];
        assert Mask(st, p) == [Shown(st, s)] + Mask(Next(st, s), p[1..]);
        if Mask(st, s)[..i] == Mask(st, p) {
          assert Mask(Next(st, s), s[1..])[..i - 1] == Mask(st, s)[..i][1..] == Mask(Next(st, s), p[1..]);
        }
      }
    }
  }

  /** The three parts of a spliced text, lexed one after the other. */
  lemma SpliceParts(s: string, i: nat, j: nat, text: string)
    requires i < j <= |s| && Solid(text)
    ensures var p, q, t := s[..i], s[j..], Splice(s, i, j, text);
            && Trace(Code, t) == Trace(Code, p) + Trace(Run(Code, p), text) + Trace(Run(Run(Code, p), text), q)
            && Masked(t) == Mask(Code, p) + Mask(Run(Code, p), text) + Mask(Run(Run(Code, p), text), q)
  {
    var p, q, t := s[..i], s[j..], Splice(s, i, j, text);
    Concat(Code, p + text, q);
    Concat(Code, p, text);
  }

  lemma SpliceIf(s: string, i: nat, j: nat, text: string)
    requires i < j <= |s| && Solid(text)
    requires StateAt(s, i) == Code && (j < |s| ==> StateAt(s, j) == Run(Code, text))
    ensures Commutes(s, i, j, text)
  {
    SpliceParts(s, i, j, text);
    Prefix(Code, s, i);
    PrefixMask(Code, s, i);
    if j < |s| {
      Suffix(Code, s, j);
    }
  }

  lemma SpliceOnlyIf(s: string, i: nat, j: nat, text: string)
    requires i < j <= |s| && Solid(text)
    requires Commutes(s, i, j, text)
    ensures StateAt(s, i) == Code && (j < |s| ==> StateAt(s, j) == Run(Code, text))
  {
    var p, t, n := s[..i], Splice(s, i, j, text), i + |text|;
    SpliceParts(s, i, j, text);
    assert Trace(Code, t)[i] == Trace(Run(Code, p), text)[0] == Run(Code, p);
    assert Splice(Trace(Code, s), i, j, Trace(Code, text))[i] == Trace(Code, text)[0] == Code;
    assert Mask(Code, p) == Masked(t)[..i] == Masked(s)[..i];
    PrefixMask(Code, s, i);
    if j < |s| {
      assert Trace(Code, t)[n] == Trace(Run(Code, text), s[j..])[0];
      assert Splice(Trace(Code, s), i, j, Trace(Code, text))[n] == Trace(Code, s)[j];
    }
  }

  /** Main theorem: the exact condition for masking to commute with a splice.  The site
      must start in code, and the text after it must be entered in the state in which the
      new text ends. */
  lemma SpliceIff(s: string, i: nat, j: nat, text: string)
    requires i < j <= |s| && Solid(text)
    ensures Commutes(s, i, j, text) <==>
            (StateAt(s, i) == Code && (j < |s| ==> StateAt(s, j) == Run(Code, text)))
  {
    if Commutes(s, i, j, text) {
      SpliceOnlyIf(s, i, j, text);
    } else if StateAt(s, i) == Code && (j < |s| ==> StateAt(s, j) == Run(Code, text)) {
      SpliceIf(s, i, j, text);
    }
  }
}
