/** The regular expressions of harness/mutators/rtl.py as deterministic matchers over the mask.
    Every quantifier in them is greedy and followed by something it cannot absorb, so the only
    backtracking that can change a match is the one written out in `Rhs` and `OutputName`. */
module RtlPatterns {
  import opened Wrappers
  import opened Text

  datatype Pattern =
    | IfCond(name: string, bang: bool)   // \bif\s*\(\s*!?name\s*\)
    | ResetIf                            // \bif\s*\(\s*!?rst\s*\)\s*(begin)?
    | Nonblocking                        // \b(lhs)\s*<=\s*([^;]+);
    | NonblockingBit                     // \b(lhs)\s*<=\s*'(0|1);
    | Continuous                         // \bassign\s+(name)\s*=\s*([^;]+);
    | Blocking                           // \b(lhs)\s*=\s*([^=;]+);
    | Output                             // \boutput ... (name)

  /** A match: its span and the spans of groups 1 and 2 (empty when the pattern has none). */
  datatype Hit = Hit(start: nat, end: nat, a0: nat, a1: nat, b0: nat, b1: nat)

  predicate Inside(h: Hit, t: string) {
    h.start <= h.a0 <= h.a1 <= h.end <= |t| && h.start <= h.b0 <= h.b1 <= h.end && h.start < h.end
  }

  predicate CharAt(t: string, p: nat, c: char) {
    p < |t| && t[p] == c
  }

  /** `\bw` for a word w. */
  predicate WordStart(t: string, w: string, p: nat) {
    OccursAt(t, w, p) && (p == 0 || !IsWord(t[p - 1]))
  }

  function SkipWord(t: string, p: nat): (q: nat)
    requires p <= |t|
    ensures p <= q <= |t|
    ensures forall k :: p <= k < q ==> IsWord(t[k])
    ensures q < |t| ==> !IsWord(t[q])
  {
    SkipWhile(IsWord, t, p)
  }

  predicate IdentAt(t: string, p: nat) {
    p < |t| && IsIdentStart(t[p])
  }

  /** The end of `[A-Za-z_]\w*(?:\s*\[[^\]]+\])?` at an identifier. */
  function LhsEnd(t: string, p: nat): (q: nat)
    requires IdentAt(t, p)
    ensures p < q <= |t|
    ensures IsWord(t[q - 1]) || t[q - 1] == ']'
  {
    var w := SkipWord(t, p);
    assert w > p;
    var s := SkipSpace(t, w);
    if CharAt(t, s, '[') then
      var e := SkipWhile((c: char) => c != ']', t, s + 1);
      if s + 1 < e < |t| then e + 1 else w
    else w
  }

  /** The span of group 2 in `\s*([^;]+);` from p on, `extra` being a further excluded
      character.  When only white space precedes the semicolon, `\s*` gives its last
      character back to the group. */
  function Rhs(t: string, p: nat, extra: char): (r: Option<(nat, nat)>)
    requires p <= |t|
    ensures r.Some? ==> p <= r.value.0 && RhsShape(t, r.value.0, r.value.1)
  {
    var s := SkipSpace(t, p);
    var e := SkipWhile((c: char) => c != ';' && c != extra, t, s);
    if !CharAt(t, e, ';') then None
    else if e > s then Some((s, e))
    else if s > p then Some((s - 1, e))
    else None
  }

  /** The end of `if\s*\(\s*!?name\s*\)`. */
  function IfCondEnd(t: string, name: string, bang: bool, p: nat): (e: Option<nat>)
    requires OccursAt(t, "if", p)
    ensures e.Some? ==> p < e.value <= |t| && t[e.value - 1] == ')'
  {
    var q := SkipSpace(t, p + 2);
    if !CharAt(t, q, '(') then None
    else
      var r := SkipSpace(t, q + 1);
      if bang && !CharAt(t, r, '!') then None
      else
        var n := if bang then r + 1 else r;
        if !OccursAt(t, name, n) then None
        else
          var e := SkipSpace(t, n + |name|);
          if CharAt(t, e, ')') then Some(e + 1) else None
  }

  predicate Span(r: Option<(nat, nat)>, t: string, p: nat) {
    r.Some? ==> p <= r.value.0 < r.value.1 <= |t|
  }

  function Ident(t: string, p: nat): (r: Option<(nat, nat)>)
    ensures Span(r, t, p)
  {
    if IdentAt(t, p) then Some((p, SkipWord(t, p))) else None
  }

  /** An optional `[...]`, then the name. */
  function RangeThenName(t: string, p: nat): (r: Option<(nat, nat)>)
    requires p <= |t|
    ensures Span(r, t, p)
  {
    if CharAt(t, p, '[') then
      var e := SkipWhile((c: char) => c != ']', t, p + 1);
      if p + 1 < e < |t| then Ident(t, SkipSpace(t, e + 1)) else None
    else Ident(t, p)
  }

  /** `(?:w\s+)?`: the position after the word and its white space, if both are there. */
  function OptionalWord(t: string, w: string, p: nat): (r: Option<nat>)
    requires p <= |t|
    ensures r.Some? ==> p < r.value <= |t|
  {
    if OccursAt(t, w, p) && SkipSpace(t, p + |w|) > p + |w| then Some(SkipSpace(t, p + |w|)) else None
  }

  /** An optional group is first tried, then left out. */
  function SignThenName(t: string, p: nat): (r: Option<(nat, nat)>)
    requires p <= |t|
    ensures Span(r, t, p)
  {
    var q := OptionalWord(t, "signed", p);
    if q.Some? && RangeThenName(t, q.value).Some? then RangeThenName(t, q.value) else RangeThenName(t, p)
  }

  function TypeThenName(t: string, p: nat): (r: Option<(nat, nat)>)
    requires p <= |t|
    ensures Span(r, t, p)
  {
    var l, w, r := OptionalWord(t, "logic", p), OptionalWord(t, "wire", p), OptionalWord(t, "reg", p);
    var q := if l.Some? then l else if w.Some? then w else r;
    if q.Some? && SignThenName(t, q.value).Some? then SignThenName(t, q.value) else SignThenName(t, p)
  }

  /** `\b(lhs)\s*op`: the end of the left-hand side and the position after the operator. */
  function LhsThen(t: string, op: string, p: nat): (r: Option<(nat, nat)>)
    requires p < |t|
    ensures r.Some? ==> IdentAt(t, p) && p < r.value.0 == LhsEnd(t, p) && r.value.0 <= r.value.1 <= |t|
  {
    if !IdentAt(t, p) || !(p == 0 || !IsWord(t[p - 1])) then None
    else
      var l := LhsEnd(t, p);
      var q := SkipSpace(t, l);
      if OccursAt(t, op, q) then Some((l, q + |op|)) else None
  }

  predicate Found(h: Option<Hit>, t: string, p: nat) {
    h.Some? ==> Inside(h.value, t) && h.value.start == p
  }

  /** The match starts with a letter or underscore and ends with ')' or ';'. */
  predicate Anchored(h: Hit, t: string)
    requires Inside(h, t)
  {
    IsIdentStart(t[h.start]) && (t[h.end - 1] == ')' || t[h.end - 1] == ';')
  }

  function MatchIf(t: string, name: string, bang: bool, p: nat): (h: Option<Hit>)
    requires p < |t|
    ensures Found(h, t, p)
    ensures h.Some? ==> OccursAt(t, "if", p) && Anchored(h.value, t)
  {
    if !WordStart(t, "if", p) then None
    else
      assert t[p] == t[p..p + 2][0] == 'i';
      var e := IfCondEnd(t, name, bang, p);
      if e.None? then None else Some(Hit(p, e.value, p, p, p, p))
  }

  /** Group 1 is the word `begin`, or empty. */
  function MatchReset(t: string, p: nat): (h: Option<Hit>)
    requires p < |t|
    ensures Found(h, t, p)
  {
    var bang, plain := MatchIf(t, "rst", true, p), MatchIf(t, "rst", false, p);
    var m := if bang.Some? then bang else plain;
    if m.None? then None
    else
      var s := SkipSpace(t, m.value.end);
      var e := if OccursAt(t, "begin", s) then s + 5 else s;
      Some(Hit(p, e, s, e, p, p))
  }

  /** Group 2 starts with something visible, or is the single white-space character that
      `\s*` gave back. */
  predicate RhsShape(t: string, b0: nat, b1: nat) {
    b0 < b1 < |t| && t[b1] == ';' && (!IsSpace(t[b0]) || b1 == b0 + 1)
  }

  /** The shape shared by the assignment patterns: group 1 is a left-hand side (or a name)
      and the match ends with a semicolon. */
  predicate AssignHit(h: Option<Hit>, t: string, p: nat) {
    && Found(h, t, p)
    && (h.Some? ==>
          && Anchored(h.value, t)
          && IdentAt(t, h.value.a0) && h.value.a0 < h.value.a1
          && (IsWord(t[h.value.a1 - 1]) || t[h.value.a1 - 1] == ']')
          && h.value.b0 < h.value.b1 == h.value.end - 1
          && RhsShape(t, h.value.b0, h.value.b1))
  }

  function MatchAssign(t: string, op: string, extra: char, p: nat): (h: Option<Hit>)
    requires p < |t|
    ensures AssignHit(h, t, p)
    ensures h.Some? ==> h.value.a0 == p
  {
    var a := LhsThen(t, op, p);
    if a.None? then None
    else
      var b := Rhs(t, a.value.1, extra);
      if b.None? then None else Some(Hit(p, b.value.1 + 1, p, a.value.0, b.value.0, b.value.1))
  }

  function MatchBit(t: string, p: nat): (h: Option<Hit>)
    requires p < |t|
    ensures AssignHit(h, t, p)
    ensures h.Some? ==> h.value.a0 == p
  {
    var a := LhsThen(t, "<=", p);
    if a.None? then None
    else
      var s := SkipSpace(t, a.value.1);
      if CharAt(t, s, '\'') && (CharAt(t, s + 1, '0') || CharAt(t, s + 1, '1')) && CharAt(t, s + 2, ';') then
        Some(Hit(p, s + 3, p, a.value.0, s + 1, s + 2))
      else None
  }

  function MatchContinuous(t: string, p: nat): (h: Option<Hit>)
    requires p < |t|
    ensures AssignHit(h, t, p)
    ensures h.Some? ==> forall k :: h.value.a0 <= k < h.value.a1 ==> IsWord(t[k])
  {
    if !WordStart(t, "assign", p) then None
    else
      assert t[p] == t[p..p + 6][0] == 'a';
      var q := SkipSpace(t, p + 6);
      if q == p + 6 || !IdentAt(t, q) then None
      else
        var l := SkipWord(t, q);
        var r := SkipSpace(t, l);
        if !CharAt(t, r, '=') then None
        else
          var b := Rhs(t, r + 1, ';');
          if b.None? then None else Some(Hit(p, b.value.1 + 1, q, l, b.value.0, b.value.1))
  }

  function MatchOutput(t: string, p: nat): (h: Option<Hit>)
    requires p < |t|
    ensures Found(h, t, p)
  {
    if !WordStart(t, "output", p) then None
    else
      var q := SkipSpace(t, p + 6);
      if q == p + 6 then None
      else
        var n := TypeThenName(t, q);
        if n.None? then None else Some(Hit(p, n.value.1, n.value.0, n.value.1, p, p))
  }

  /** What `pattern.match` finds when started at exactly position p. */
  function MatchAt(pat: Pattern, t: string, p: nat): (h: Option<Hit>)
    requires p < |t|
    ensures Found(h, t, p)
    ensures h.Some? && !pat.ResetIf? && !pat.Output? ==> Anchored(h.value, t)
    ensures pat in {Nonblocking, NonblockingBit, Continuous, Blocking} ==> AssignHit(h, t, p)
    ensures pat in {Nonblocking, NonblockingBit, Blocking} && h.Some? ==> h.value.a0 == p
    ensures pat.Continuous? && h.Some? ==> forall k :: h.value.a0 <= k < h.value.a1 ==> IsWord(t[k])
  {
    match pat
    case IfCond(name, bang) => MatchIf(t, name, bang, p)
    case ResetIf => MatchReset(t, p)
    case Nonblocking => MatchAssign(t, "<=", ';', p)
    case NonblockingBit => MatchBit(t, p)
    case Continuous => MatchContinuous(t, p)
    case Blocking => MatchAssign(t, "=", '=', p)
    case Output => MatchOutput(t, p)
  }

  /** A match found at or after p. */
  predicate IsHit(pat: Pattern, t: string, p: nat, h: Hit) {
    Inside(h, t) && h.start >= p && MatchAt(pat, t, h.start) == Some(h)
  }

  predicate InTurn(hits: seq<Hit>) {
    forall k :: 0 < k < |hits| ==> hits[k - 1].end <= hits[k].start
  }

  lemma InTurnCons(h: Hit, rest: seq<Hit>)
    requires InTurn(rest) && (rest != [] ==> h.end <= rest[0].start)
    ensures InTurn([h] + rest)
  {
    var hits := [h] + rest;
    forall k | 0 < k < |hits| ensures hits[k - 1].end <= hits[k].start {
      if k > 1 {
        assert hits[k] == rest[k - 1] && hits[k - 1] == rest[k - 1 - 1];
      }
    }
  }

  /** `pattern.finditer(t)` from position p: leftmost matches, each search resuming at the
      end of the one before. */
  function FindIter(pat: Pattern, t: string, p: nat): (hits: seq<Hit>)
    ensures forall k :: 0 <= k < |hits| ==> IsHit(pat, t, p, hits[k])
    ensures InTurn(hits)
    decreases |t| - p
  {
    hide MatchAt, InTurn;
    if p >= |t| then
      NoHits();
      []
    else
      var h := MatchAt(pat, t, p);
      if h.None? then FindIter(pat, t, p + 1)
      else
        var rest := FindIter(pat, t, h.value.end);
        InTurnCons(h.value, rest);
        [h.value] + rest
  }

  lemma NoHits()
    ensures InTurn([])
  {
  }

  ghost predicate Within(hits: seq<Hit>, q: nat) {
    exists k :: 0 <= k < |hits| && hits[k].start <= q < hits[k].end
  }

  lemma WithinCons(h: Hit, rest: seq<Hit>, q: nat)
    ensures Within([h] + rest, q) <==> h.start <= q < h.end || Within(rest, q)
  {
    var hits := [h] + rest;
    if Within(rest, q) {
      var k :| 0 <= k < |rest| && rest[k].start <= q < rest[k].end;
      assert hits[k + 1] == rest[k];
    }
    if h.start <= q < h.end {
      assert hits[0] == h;
    }
  }

  /** No match is missed: wherever the pattern matches, the position lies inside a hit. */
  lemma {:induction false} NoMatchMissed(pat: Pattern, t: string, p: nat, q: nat)
    requires p <= q < |t| && MatchAt(pat, t, q).Some?
    ensures Within(FindIter(pat, t, p), q)
    decreases |t| - p
  {
    hide MatchAt, InTurn, Within;
    var h := MatchAt(pat, t, p);
    if h.None? {
      NoMatchMissed(pat, t, p + 1, q);
    } else {
      var end := h.value.end;
      WithinCons(h.value, FindIter(pat, t, end), q);
      if q >= end {
        NoMatchMissed(pat, t, end, q);
      }
    }
  }
}
