/** A Track B package as a file tree: `diff_guard` in harness/trackb.py, the source checks of
    harness/validation.py and the path resolution of harness/agentb.py. */
module PackageTree {
  import opened Wrappers
  import Text

  type Bytes = seq<bv8>

  type Path = seq<string>

  datatype Entry = Directory | File(bytes: Bytes)

  /** The entries below a package root, which is itself the empty path. */
  type Tree = map<Path, Entry>

  const MAX_SOURCE_BYTES: nat := 256 * 1024

  const IMMUTABLE: seq<string> := ["tb", "formal", "constraints.sdc", "task.yaml", "objective.yaml", "baseline"]

  // ----- Source checks -----

  predicate IsIdentifier(s: string) {
    s != [] && Text.IsIdentStart(s[0]) && forall k :: 1 <= k < |s| ==> Text.IsWord(s[k]) || s[k] == '$'
  }

  predicate IsSv(name: string) {
    |name| >= 3 && name[|name| - 3..] == ".sv"
  }

  /** `validate_sv_filename`. */
  predicate SvFilename(name: string) {
    IsSv(name) && IsIdentifier(name[..|name| - 3])
  }

  // ----- diff_guard -----

  datatype Reason =
    | MissingSubmission
    | MissingDesign
    | DesignCount(found: nat)
    | BadFilename
    | NotAFile
    | TooLarge
    | BadModules(message: string)
    | MissingImmutable(entry: string)
    | DifferentFileSet(entry: string)
    | DifferentFile(entry: string)
    | ExtraEntry

  predicate IsFile(t: Tree, p: Path) {
    p in t && t[p].File?
  }

  predicate IsDirectory(t: Tree, p: Path) {
    p in t && t[p].Directory?
  }

  /** `design.glob("*.sv")`. */
  function SvFiles(t: Tree): set<Path> {
    set p <- t.Keys | |p| == 2 && p[0] == "design" && IsSv(p[1])
  }

  function FilesBelow(t: Tree, dir: Path): set<Path> {
    set p <- t.Keys | dir < p && t[p].File?
  }

  /** Why a submission's copy of one immutable entry is rejected. */
  function CheckEntry(canonical: Tree, t: Tree, entry: string): Option<Reason> {
    var p := [entry];
    if p !in canonical then None
    else if canonical[p].Directory? then
      if !IsDirectory(t, p) then Some(MissingImmutable(entry))
      else if FilesBelow(canonical, p) != FilesBelow(t, p) then Some(DifferentFileSet(entry))
      else if exists q <- FilesBelow(canonical, p) :: canonical[q] != t[q] then Some(DifferentFile(entry))
      else None
    else if !IsFile(t, p) then Some(MissingImmutable(entry))
    else if canonical[p] != t[p] then Some(DifferentFile(entry))
    else None
  }

  function CheckEntries(canonical: Tree, t: Tree, entries: seq<string>): Option<Reason> {
    if entries == [] then None
    else
      var first := CheckEntry(canonical, t, entries[0]);
      if first.Some? then first else CheckEntries(canonical, t, entries[1..])
  }

  const MARKDOWN: string := ".md"

  /** The name of a task's written specification. */
  const SPECIFICATION: string := "spec" + MARKDOWN

  predicate AllowedTop(name: string) {
    name == "design" || name == SPECIFICATION || name in IMMUTABLE
  }

  predicate HasExtra(t: Tree) {
    exists p <- t.Keys :: |p| == 1 && !AllowedTop(p[0])
  }

  /** The single element of a set of one. */
  function Only(s: set<Path>): (p: Path)
    requires |s| == 1
    ensures s == {p}
  {
    OneElement(s);
    var p :| p in s && s == {p};
    p
  }

  lemma OneElement(s: set<Path>)
    requires |s| == 1
    ensures exists p :: p in s && s == {p}
    ensures forall p, q :: p in s && q in s ==> p == q
  {
    var p :| p in s;
    assert |s - {p}| == 0;
    assert s == {p};
  }

  /** The checks on the one design file: its name, its size, its module declarations.
      `modules` stands for reading the source and `validate_module_declarations`. */
  function CheckDesign(modules: Bytes -> Option<string>, t: Tree, p: Path): Option<Reason>
    requires p in t && |p| == 2
  {
    if !SvFilename(p[1]) then Some(BadFilename)
    else if t[p].Directory? then Some(NotAFile)
    else if |t[p].bytes| > MAX_SOURCE_BYTES then Some(TooLarge)
    else if modules(t[p].bytes).Some? then Some(BadModules(modules(t[p].bytes).value))
    else None
  }

  /** `diff_guard`: None when the submission may be scored. */
  function DiffGuard(modules: Bytes -> Option<string>, canonical: Tree, submission: Option<Tree>): Option<Reason> {
    if submission.None? then Some(MissingSubmission)
    else
      var t := submission.value;
      if !IsDirectory(t, ["design"]) then Some(MissingDesign)
      else if |SvFiles(t)| != 1 then Some(DesignCount(|SvFiles(t)|))
      else
        var design := CheckDesign(modules, t, Only(SvFiles(t)));
        if design.Some? then design
        else
          var immutable := CheckEntries(canonical, t, IMMUTABLE);
          if immutable.Some? then immutable
          else if HasExtra(t) then Some(ExtraEntry)
          else None
  }

  // ----- What passing diff_guard means -----

  /** Under every immutable entry that the package has, the two trees hold the same files. */
  ghost predicate SameImmutables(canonical: Tree, t: Tree) {
    forall entry :: entry in IMMUTABLE && [entry] in canonical ==>
      && [entry] in t && (canonical[[entry]].Directory? <==> t[[entry]].Directory?)
      && (forall p: Path :: [entry] <= p ==> (IsFile(canonical, p) <==> IsFile(t, p)))
      && (forall p: Path :: [entry] <= p && IsFile(canonical, p) ==> t[p] == canonical[p])
  }

  /** Below a file there is nothing. */
  ghost predicate Wellformed(t: Tree) {
    forall p, q :: p in t && q in t && p < q ==> t[p].Directory?
  }

  lemma EntryMatches(canonical: Tree, t: Tree, entry: string)
    requires Wellformed(canonical) && Wellformed(t) && [entry] in canonical
    ensures CheckEntry(canonical, t, entry).None? <==>
            && [entry] in t && (canonical[[entry]].Directory? <==> t[[entry]].Directory?)
            && (forall p: Path :: [entry] <= p ==> (IsFile(canonical, p) <==> IsFile(t, p)))
            && (forall p: Path :: [entry] <= p && IsFile(canonical, p) ==> t[p] == canonical[p])
  {
    var p := [entry];
    forall q: Path | p <= q && (IsFile(canonical, q) || IsFile(t, q))
      ensures q == p || p < q
    {
    }
    assert forall q :: p < q ==> (q in FilesBelow(canonical, p) <==> IsFile(canonical, q));
    assert forall q :: p < q ==> (q in FilesBelow(t, p) <==> IsFile(t, q));
  }

  lemma {:induction false} EntriesMatch(canonical: Tree, t: Tree, entries: seq<string>)
    ensures CheckEntries(canonical, t, entries).None? <==>
            forall e :: e in entries ==> CheckEntry(canonical, t, e).None?
    decreases |entries|
  {
    if entries != [] {
      EntriesMatch(canonical, t, entries[1..]);
      assert forall e :: e in entries <==> e == entries[0] || e in entries[1..];
    }
  }

  lemma ImmutablesMatch(canonical: Tree, t: Tree)
    requires Wellformed(canonical) && Wellformed(t)
    ensures CheckEntries(canonical, t, IMMUTABLE).None? <==> SameImmutables(canonical, t)
  {
    hide CheckEntries, FilesBelow;
    EntriesMatch(canonical, t, IMMUTABLE);
    forall e | e in IMMUTABLE && [e] in canonical
      ensures CheckEntry(canonical, t, e).None? <==>
              && [e] in t && (canonical[[e]].Directory? <==> t[[e]].Directory?)
              && (forall p: Path :: [e] <= p ==> (IsFile(canonical, p) <==> IsFile(t, p)))
              && (forall p: Path :: [e] <= p && IsFile(canonical, p) ==> t[p] == canonical[p])
    {
      EntryMatches(canonical, t, e);
    }
  }

  /** The one design file is p, with an acceptable name and size. */
  ghost predicate DesignAt(t: Tree, p: Path) {
    SvFiles(t) == {p} && |p| == 2 && SvFilename(p[1]) && IsFile(t, p) && |t[p].bytes| <= MAX_SOURCE_BYTES
  }

  /** It is there, and its modules are acceptable too. */
  ghost predicate DesignOk(modules: Bytes -> Option<string>, t: Tree) {
    exists p: Path :: DesignAt(t, p) && modules(t[p].bytes).None?
  }

  lemma DesignChecked(modules: Bytes -> Option<string>, t: Tree)
    requires |SvFiles(t)| == 1
    ensures Only(SvFiles(t)) in SvFiles(t)
    ensures forall p: Path :: DesignAt(t, p) ==> p == Only(SvFiles(t))
    ensures var p, answer := Only(SvFiles(t)), CheckDesign(modules, t, Only(SvFiles(t)));
            && (answer.None? <==> DesignAt(t, p) && modules(t[p].bytes).None?)
            && (answer.Some? && answer.value.BadModules? <==> DesignAt(t, p) && modules(t[p].bytes).Some?)
  {
    hide SvFilename;
    var p := Only(SvFiles(t));
    assert p in SvFiles(t);
    forall q: Path | DesignAt(t, q)
      ensures q == p
    {
      assert q in {p};
    }
  }

  /** A submission passes exactly when its one design file is acceptable, every immutable
      entry of the package is there unchanged, and nothing else is at the top. */
  lemma GuardPassesIff(modules: Bytes -> Option<string>, canonical: Tree, t: Tree)
    requires Wellformed(canonical) && Wellformed(t)
    ensures DiffGuard(modules, canonical, Some(t)).None? <==>
            && IsDirectory(t, ["design"]) && DesignOk(modules, t) && SameImmutables(canonical, t)
            && (forall p :: p in t && |p| == 1 ==> AllowedTop(p[0]))
  {
    hide CheckEntries, AllowedTop, SvFilename, SvFiles, SameImmutables, CheckDesign;
    ImmutablesMatch(canonical, t);
    if |SvFiles(t)| == 1 {
      DesignChecked(modules, t);
    }
  }

  lemma ImmutablesNeverBlameModules(canonical: Tree, t: Tree, entries: seq<string>)
    ensures CheckEntries(canonical, t, entries).Some? ==> !CheckEntries(canonical, t, entries).value.BadModules?
  {
  }

  /** The guard has nothing to say but about the module declarations, if about anything,
      exactly when the one design file has an acceptable name and size, and either its modules
      are rejected or the rest is as it must be. */
  lemma OnlyModulesBlamedIff(modules: Bytes -> Option<string>, canonical: Tree, t: Tree)
    requires Wellformed(canonical) && Wellformed(t)
    ensures var answer := DiffGuard(modules, canonical, Some(t));
            answer.None? || answer.value.BadModules? <==>
            && IsDirectory(t, ["design"])
            && exists p: Path ::
                 && DesignAt(t, p)
                 && (|| modules(t[p].bytes).Some?
                     || (SameImmutables(canonical, t) && forall q :: q in t && |q| == 1 ==> AllowedTop(q[0])))
  {
    hide CheckEntries, AllowedTop, SvFilename, SvFiles, SameImmutables, CheckDesign;
    ImmutablesMatch(canonical, t);
    ImmutablesNeverBlameModules(canonical, t, IMMUTABLE);
    if |SvFiles(t)| == 1 {
      DesignChecked(modules, t);
    }
  }

  // ----- Paths -----

  /** The components of a relative path: empty ones and "." are dropped, as `Path` does. */
  function Components(s: string): Path {
    Keep(Split(s))
  }

  function Split(s: string): (r: Path)
    ensures r != []
  {
    if s == [] then [[]]
    else
      var rest := Split(s[1..]);
      if s[0] == '/' then [[]] + rest else [[s[0]] + rest[0]] + rest[1..]
  }

  function Keep(parts: Path): Path {
    if parts == [] then []
    else (if parts[0] == "" || parts[0] == "." then [] else [parts[0]]) + Keep(parts[1..])
  }

  /** Following the components from a directory, with ".." going up and staying at the top. */
  function Walk(from: Path, parts: Path): Path
    decreases |parts|
  {
    if parts == [] then from
    else if parts[0] == ".." then Walk(if from == [] then [] else from[..|from| - 1], parts[1..])
    else Walk(from + [parts[0]], parts[1..])
  }

  /** `sandbox_path`: the path below the sandbox root; None where it raises. */
  function SandboxPath(root: Path, relative: string): Option<Path> {
    if relative != [] && relative[0] == '/' then None
    else if '\0' in relative then None
    else
      var target := Walk(root, Components(relative));
      if root <= target then Some(target[|root|..]) else None
  }

  ghost predicate Normal(p: Path) {
    forall k :: 0 <= k < |p| ==> p[k] != "" && p[k] != "." && p[k] != ".." && '/' !in p[k]
  }

  lemma {:induction false} SplitParts(s: string)
    ensures forall part :: part in Split(s) ==> '/' !in part
  {
    if s != [] {
      SplitParts(s[1..]);
    }
  }

  lemma {:induction false} KeepParts(parts: Path)
    ensures forall part :: part in Keep(parts) ==> part in parts && part != "" && part != "."
  {
    if parts != [] {
      KeepParts(parts[1..]);
    }
  }

  lemma {:induction false} WalkIsNormal(from: Path, parts: Path)
    requires Normal(from)
    requires forall part :: part in parts ==> part != "" && part != "." && '/' !in part
    ensures Normal(Walk(from, parts))
    decreases |parts|
  {
    if parts != [] {
      assert parts[0] in parts && forall part :: part in parts[1..] ==> part in parts;
      if parts[0] == ".." {
        WalkIsNormal(if from == [] then [] else from[..|from| - 1], parts[1..]);
      } else {
        WalkIsNormal(from + [parts[0]], parts[1..]);
      }
    }
  }

  /** The text of a path: its components with slashes in between. */
  function PathText(p: Path): string
    requires p != []
  {
    if |p| == 1 then p[0] else p[0] + "/" + PathText(p[1..])
  }

  lemma {:induction false} SplitJoin(part: string, rest: string)
    requires '/' !in part
    ensures Split(part) == [part] && Split(part + "/" + rest) == [part] + Split(rest)
  {
    if part == [] {
      assert (part + "/" + rest)[1..] == rest && (part + "/" + rest)[0] == '/';
    } else {
      var tail := part[1..] + "/" + rest;
      SplitJoin(part[1..], rest);
      assert (part + "/" + rest)[1..] == tail && (part + "/" + rest)[0] == part[0];
      assert [part[0]] + part[1..] == part;
    }
  }

  lemma {:induction false} SplitText(p: Path)
    requires p != [] && Normal(p)
    ensures Split(PathText(p)) == p
    decreases |p|
  {
    if |p| == 1 {
      SplitJoin(p[0], "");
    } else {
      SplitJoin(p[0], PathText(p[1..]));
      SplitText(p[1..]);
      assert [p[0]] + p[1..] == p;
    }
  }

  lemma {:induction false} KeepNormal(p: Path)
    requires Normal(p)
    ensures Keep(p) == p
  {
    if p != [] {
      KeepNormal(p[1..]);
    }
  }

  lemma {:induction false} WalkNormal(from: Path, p: Path)
    requires Normal(p)
    ensures Walk(from, p) == from + p
    decreases |p|
  {
    if p != [] {
      WalkNormal(from + [p[0]], p[1..]);
      assert from + p == from + [p[0]] + p[1..];
    }
  }

  /** Every path below the root that has plain components is what its own text resolves to. */
  lemma ResolvesText(root: Path, p: Path)
    requires p != [] && Normal(p) && '\0' !in PathText(p)
    ensures SandboxPath(root, PathText(p)) == Some(p)
  {
    hide Split, Keep, Walk;
    SplitText(p);
    KeepNormal(p);
    WalkNormal(root, p);
    TextStarts(p);
    assert (root + p)[|root|..] == p && root <= root + p;
  }

  lemma TextStarts(p: Path)
    requires p != [] && Normal(p)
    ensures PathText(p) != [] && PathText(p)[0] != '/'
  {
    assert p[0] != "" && '/' !in p[0];
    assert PathText(p)[0] == p[0][0];
  }

  /** Going into a directory and up again is staying. */
  lemma UpAgain(from: Path, name: string, rest: Path)
    requires name != ".."
    ensures Walk(from, [name, ".."] + rest) == Walk(from, rest)
  {
    var parts := [name, ".."] + rest;
    assert parts[1..] == [".."] + rest && ([".."] + rest)[1..] == rest;
    assert (from + [name])[..|from|] == from;
  }

  /** A resolved path has no component that could step outside: what it names really is
      below the root. */
  lemma ResolvedIsInside(root: Path, relative: string)
    requires Normal(root) && SandboxPath(root, relative).Some?
    ensures Normal(root + SandboxPath(root, relative).value)
    ensures Walk(root, Components(relative)) == root + SandboxPath(root, relative).value
  {
    SplitParts(relative);
    KeepParts(Split(relative));
    WalkIsNormal(root, Components(relative));
  }
}
