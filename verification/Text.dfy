/** The Python string operations the harness relies on.  Character classes are ASCII. */
module Text {
  import opened Wrappers

  predicate IsSpace(c: char) {
    c == ' ' || '\t' <= c <= '\r' || '\U{1c}' <= c <= '\U{1f}'
  }

  predicate IsDigit(c: char) {
    '0' <= c <= '9'
  }

  predicate IsIdentStart(c: char) {
    'a' <= c <= 'z' || 'A' <= c <= 'Z' || c == '_'
  }

  predicate IsWord(c: char) {
    IsIdentStart(c) || IsDigit(c)
  }

  // ----- Scanning -----

  /** The first position at or after p whose character is outside the class. */
  function SkipWhile(cls: char -> bool, t: string, p: nat): (q: nat)
    requires p <= |t|
    ensures p <= q <= |t|
    ensures forall k :: p <= k < q ==> cls(t[k])
    ensures q < |t| ==> !cls(t[q])
    decreases |t| - p
  {
    if p < |t| && cls(t[p]) then SkipWhile(cls, t, p + 1) else p
  }

  function SkipSpace(t: string, p: nat): (q: nat)
    requires p <= |t|
    ensures p <= q <= |t|
    ensures forall k :: p <= k < q ==> IsSpace(t[k])
    ensures q < |t| ==> !IsSpace(t[q])
  {
    SkipWhile(IsSpace, t, p)
  }

  predicate OccursAt(t: string, pat: string, p: nat) {
    p + |pat| <= |t| && t[p..p + |pat|] == pat
  }

  /** `t.find(pat, p)`: the leftmost occurrence at or after p. */
  function Find(t: string, pat: string, p: nat): (r: Option<nat>)
    ensures r.Some? ==> p <= r.value && OccursAt(t, pat, r.value)
    ensures r.Some? ==> forall k :: p <= k < r.value ==> !OccursAt(t, pat, k)
    ensures r.None? ==> forall k :: p <= k ==> !OccursAt(t, pat, k)
    decreases |t| - p
  {
    if p > |t| then None
    else if OccursAt(t, pat, p) then Some(p)
    else Find(t, pat, p + 1)
  }

  predicate Contains(t: string, pat: string) {
    Find(t, pat, 0).Some?
  }

  /** `t.rfind("\n", 0, p) + 1`: where the line of position p starts. */
  function LineStart(t: string, p: nat): (q: nat)
    requires p <= |t|
    ensures q <= p
    ensures forall k :: q <= k < p ==> t[k] != '\n'
    ensures q > 0 ==> t[q - 1] == '\n'
  {
    if p == 0 || t[p - 1] == '\n' then p else LineStart(t, p - 1)
  }

  // ----- strip -----

  predicate AllSpace(s: string) {
    forall k :: 0 <= k < |s| ==> IsSpace(s[k])
  }

  /** Neither end is white space. */
  predicate Trimmed(s: string) {
    s == [] || (!IsSpace(s[0]) && !IsSpace(s[|s| - 1]))
  }

  function TrimEnd(s: string): (r: string)
    ensures r <= s && AllSpace(s[|r|..])
    ensures r == [] || !IsSpace(r[|r| - 1])
  {
    if s != [] && IsSpace(s[|s| - 1]) then
      var r := TrimEnd(s[..|s| - 1]);
      assert forall k :: |r| <= k < |s| - 1 ==> s[k] == s[..|s| - 1][|r|..][k - |r|];
      r
    else s
  }

  function Strip(s: string): (r: string)
    ensures Trimmed(r)
  {
    TrimEnd(s[SkipSpace(s, 0)..])
  }

  lemma StripAround(left: string, r: string, right: string)
    requires AllSpace(left) && AllSpace(right) && Trimmed(r) && r != []
    ensures Strip(left + r + right) == r
  {
    var s := left + r + right;
    var a := SkipSpace(s, 0);
    assert s[|left|] == r[0];
    assert a == |left| by {
      assert forall k :: 0 <= k < |left| ==> s[k] == left[k];
    }
    var u := s[a..];
    assert u == r + right;
    var e := TrimEnd(u);
    assert !IsSpace(u[|r| - 1]);
    assert forall k :: |r| <= k < |u| ==> u[k] == right[k - |r|];
    assert forall k :: |e| <= k < |u| ==> u[k] == u[|e|..][k - |e|];
    assert |e| == |r|;
  }

  lemma StripTrimmed(s: string)
    requires Trimmed(s)
    ensures Strip(s) == s
  {
    if s != [] {
      StripAround([], s, []);
      assert [] + s + [] == s;
    }
  }

  function RemoveSpaces(s: string): string {
    if s == [] then [] else (if IsSpace(s[0]) then [] else [s[0]]) + RemoveSpaces(s[1..])
  }

  /** Stripping takes away white space, and only at the ends; what is left has none there. */
  lemma StripTakesSpace(s: string) returns (left: string, right: string)
    ensures s == left + Strip(s) + right && AllSpace(left) && AllSpace(right) && Trimmed(Strip(s))
  {
    var a := SkipSpace(s, 0);
    var r := TrimEnd(s[a..]);
    left, right := s[..a], s[a..][|r|..];
    assert s[a..] == r + right;
  }

  /** Removing white space works character by character: `RemoveOne` says how. */
  lemma {:induction false} RemoveSpacesIs(a: string, b: string)
    ensures RemoveSpaces(a + b) == RemoveSpaces(a) + RemoveSpaces(b)
  {
    hide RemoveSpaces, IsSpace;
    if a == [] {
      assert a + b == b;
      RemoveNone();
    } else {
      var first := if IsSpace(a[0]) then [] else [a[0]];
      RemoveSpacesIs(a[1..], b);
      RemoveFirst(a);
      RemoveFirst(a + b);
      assert (a + b)[1..] == a[1..] + b;
      assert first + (RemoveSpaces(a[1..]) + RemoveSpaces(b)) == (first + RemoveSpaces(a[1..])) + RemoveSpaces(b);
    }
  }

  lemma RemoveNone()
    ensures RemoveSpaces([]) == []
  {
  }

  lemma RemoveFirst(s: string)
    requires s != []
    ensures RemoveSpaces(s) == (if IsSpace(s[0]) then [] else [s[0]]) + RemoveSpaces(s[1..])
  {
  }

  lemma RemoveOne(c: char)
    ensures RemoveSpaces([c]) == if IsSpace(c) then [] else [c]
  {
    assert [c][1..] == [];
  }

  // ----- f"{n:03d}" -----

  function Decimal(n: nat): (s: string)
    ensures s != []
  {
    (if n < 10 then [] else Decimal(n / 10)) + [('0' as int + n % 10) as char]
  }

  function Zeros(n: nat): (s: string)
    ensures |s| == n
  {
    seq(n, _ => '0')
  }

  function Pad3(n: nat): string {
    var d := Decimal(n);
    if |d| < 3 then Zeros(3 - |d|) + d else d
  }

  /** The number a digit string denotes. */
  ghost function Value(s: string): int {
    if s == [] then 0 else 10 * Value(s[..|s| - 1]) + (s[|s| - 1] as int - '0' as int)
  }

  lemma {:induction false} DecimalValue(n: nat)
    ensures Value(Decimal(n)) == n
  {
    var d := Decimal(n);
    if n >= 10 {
      DecimalValue(n / 10);
      assert d[..|d| - 1] == Decimal(n / 10);
    } else {
      assert d[..|d| - 1] == [];
    }
  }

  lemma {:induction false} LeadingZeros(k: nat, s: string)
    ensures Value(Zeros(k) + s) == Value(s)
    decreases |s| + k
  {
    var t := Zeros(k) + s;
    if s != [] {
      assert t[..|t| - 1] == Zeros(k) + s[..|s| - 1];
      LeadingZeros(k, s[..|s| - 1]);
    } else if k > 0 {
      assert t[..|t| - 1] == Zeros(k - 1) + [];
      LeadingZeros(k - 1, []);
    }
  }

  /** Zero-padded to at least three digits, and to no more than needed. */
  lemma Pad3Is(n: nat)
    ensures Value(Pad3(n)) == n && |Pad3(n)| >= 3
    ensures |Pad3(n)| > 3 ==> Pad3(n)[0] != '0'
  {
    DecimalValue(n);
    NoLeadingZero(n);
    if |Decimal(n)| < 3 {
      LeadingZeros(3 - |Decimal(n)|, Decimal(n));
    }
  }

  lemma {:induction false} NoLeadingZero(n: nat)
    ensures n > 0 ==> Decimal(n)[0] != '0'
    ensures |Decimal(n)| > 1 ==> n > 0
  {
    if n >= 10 {
      NoLeadingZero(n / 10);
    }
  }

  lemma Pad3Injective(m: nat, n: nat)
    requires Pad3(m) == Pad3(n)
    ensures m == n
  {
    forall x: nat ensures Value(Pad3(x)) == x {
      DecimalValue(x);
      if |Decimal(x)| < 3 {
        LeadingZeros(3 - |Decimal(x)|, Decimal(x));
      }
    }
  }
}
