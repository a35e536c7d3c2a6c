/** The staging/previous/live steps of `generate_site` in site/generate.py, cut off at any
    file operation. */
module SitePublish {
  import opened Wrappers

  datatype File = File(name: string, text: string)

  /** A directory is the list of its files; None when the path does not exist. */
  type Dir = Option<seq<File>>

  datatype Disk = Disk(staging: Dir, previous: Dir, live: Dir)

  /** One file operation.  Writing creates an empty file and then fills it. */
  datatype Op =
    | RemoveStagingFile | RemoveStagingDir
    | RemovePreviousFile | RemovePreviousDir
    | MakeStaging
    | Create(name: string)
    | Fill(file: File)
    | Retire      // live -> previous
    | Promote     // staging -> live

  function Rest(d: Dir): Dir {
    if d.None? || d.value == [] then d else Some(d.value[1..])
  }

  function Do(disk: Disk, op: Op): Disk {
    match op
    case RemoveStagingFile => disk.(staging := Rest(disk.staging))
    case RemoveStagingDir => disk.(staging := None)
    case RemovePreviousFile => disk.(previous := Rest(disk.previous))
    case RemovePreviousDir => disk.(previous := None)
    case MakeStaging => disk.(staging := Some([]))
    case Create(name) =>
      if disk.staging.None? then disk else disk.(staging := Some(disk.staging.value + [File(name, "")]))
    case Fill(file) =>
      if disk.staging.None? || disk.staging.value == [] then disk
      else disk.(staging := Some(disk.staging.value[..|disk.staging.value| - 1] + [file]))
    case Retire => Disk(disk.staging, disk.live, None)
    case Promote => Disk(None, disk.previous, disk.staging)
  }

  function Exec(disk: Disk, ops: seq<Op>): Disk
    decreases |ops|
  {
    if ops == [] then disk else Exec(Do(disk, ops[0]), ops[1..])
  }

  function Times(op: Op, n: nat): (r: seq<Op>)
    ensures |r| == n
  {
    if n == 0 then [] else [op] + Times(op, n - 1)
  }

  /** `shutil.rmtree`, when the path exists. */
  function RemoveTree(d: Dir, file: Op, dir: Op): seq<Op> {
    if d.None? then [] else Times(file, |d.value|) + [dir]
  }

  function Writes(site: seq<File>): seq<Op> {
    if site == [] then [] else [Create(site[0].name), Fill(site[0])] + Writes(site[1..])
  }

  /** Everything before the first rename that can touch `previous`. */
  function Stage(disk: Disk, site: seq<File>): seq<Op> {
    RemoveTree(disk.staging, RemoveStagingFile, RemoveStagingDir) + [MakeStaging] + Writes(site)
  }

  function Swap(disk: Disk): seq<Op> {
    if disk.live.None? then [Promote] else [Retire, Promote]
  }

  /** The operations of one uninterrupted run. */
  function Program(disk: Disk, site: seq<File>): seq<Op> {
    Stage(disk, site) + RemoveTree(disk.previous, RemovePreviousFile, RemovePreviousDir) +
    Swap(disk) + RemoveTree(disk.live, RemovePreviousFile, RemovePreviousDir)
  }

  function Take<T>(s: seq<T>, n: nat): seq<T> {
    if n < |s| then s[..n] else s
  }

  /** The disk after a run that is cut off after n operations. */
  function CutAfter(disk: Disk, site: seq<File>, n: nat): Disk {
    Exec(disk, Take(Program(disk, site), n))
  }

  // ----- Composition -----

  lemma {:induction false} ExecConcat(disk: Disk, a: seq<Op>, b: seq<Op>)
    ensures Exec(disk, a + b) == Exec(Exec(disk, a), b)
    decreases |a|
  {
    if a == [] {
      assert a + b == b;
    } else {
      assert (a + b)[1..] == a[1..] + b;
      ExecConcat(Do(disk, a[0]), a[1..], b);
    }
  }

  lemma TakeConcat(disk: Disk, a: seq<Op>, b: seq<Op>, n: nat)
    ensures Exec(disk, Take(a + b, n)) ==
            if n <= |a| then Exec(disk, Take(a, n)) else Exec(Exec(disk, a), Take(b, n - |a|))
  {
    if n <= |a| {
      assert Take(a + b, n) == Take(a, n);
    } else {
      assert Take(a + b, n) == a + Take(b, n - |a|);
      ExecConcat(disk, a, Take(b, n - |a|));
    }
  }

  /** A run cut inside `b` after `a` is complete. */
  lemma Chain(disk: Disk, a: seq<Op>, b: seq<Op>, n: nat)
    requires |a| <= n
    ensures Exec(disk, Take(a + b, n)) == Exec(Exec(disk, a), Take(b, n - |a|))
    ensures Take(a, n) == a
  {
    TakeConcat(disk, a, b, n);
    if n == |a| {
      assert Take(b, 0) == [];
    }
  }

  // ----- What each stretch does -----

  predicate OnlyStaging(op: Op) {
    op.RemoveStagingFile? || op.RemoveStagingDir? || op.MakeStaging? || op.Create? || op.Fill?
  }

  lemma {:induction false} StagingOnly(disk: Disk, ops: seq<Op>)
    requires forall k :: 0 <= k < |ops| ==> OnlyStaging(ops[k])
    ensures Exec(disk, ops).previous == disk.previous && Exec(disk, ops).live == disk.live
    decreases |ops|
  {
    if ops != [] {
      StagingOnly(Do(disk, ops[0]), ops[1..]);
    }
  }

  lemma {:induction false} TimesAt(op: Op, n: nat)
    ensures forall k :: 0 <= k < n ==> Times(op, n)[k] == op
  {
    if n > 0 {
      TimesAt(op, n - 1);
    }
  }

  lemma {:induction false} WritesAreStaging(site: seq<File>)
    ensures forall k :: 0 <= k < |Writes(site)| ==> OnlyStaging(Writes(site)[k])
  {
    if site != [] {
      WritesAreStaging(site[1..]);
    }
  }

  lemma {:induction false} WritesAt(site: seq<File>)
    ensures |Writes(site)| == 2 * |site|
    ensures forall k :: 0 <= k < |site| ==>
              Writes(site)[2 * k] == Create(site[k].name) && Writes(site)[2 * k + 1] == Fill(site[k])
  {
    if site != [] {
      WritesAt(site[1..]);
      var rest := Writes(site[1..]);
      forall k | 0 <= k < |site|
        ensures Writes(site)[2 * k] == Create(site[k].name) && Writes(site)[2 * k + 1] == Fill(site[k])
      {
        if k > 0 {
          assert rest[2 * (k - 1)] == Create(site[k].name) && rest[2 * (k - 1) + 1] == Fill(site[k]);
        }
      }
    }
  }

  lemma {:induction false} WritesResult(disk: Disk, site: seq<File>)
    requires disk.staging.Some?
    ensures Exec(disk, Writes(site)) == disk.(staging := Some(disk.staging.value + site))
    decreases |site|
  {
    if site != [] {
      var mid := Do(Do(disk, Create(site[0].name)), Fill(site[0]));
      assert mid == disk.(staging := Some(disk.staging.value + [site[0]]));
      WritesResult(mid, site[1..]);
      assert disk.staging.value + [site[0]] + site[1..] == disk.staging.value + site;
      var ops := Writes(site);
      assert ops[1..] == [Fill(site[0])] + Writes(site[1..]) && ops[1..][1..] == Writes(site[1..]);
    } else {
      assert disk.staging.value + [] == disk.staging.value;
    }
  }

  /** The first stretch leaves the two published paths alone at every point, and ends with the
      new site staged. */
  lemma StageResult(disk: Disk, site: seq<File>, n: nat)
    ensures Exec(disk, Stage(disk, site)) == disk.(staging := Some(site))
    ensures var cut := Exec(disk, Take(Stage(disk, site), n));
            cut.previous == disk.previous && cut.live == disk.live
  {
    var remove := RemoveTree(disk.staging, RemoveStagingFile, RemoveStagingDir);
    var ops := Stage(disk, site);
    if disk.staging.Some? {
      TimesAt(RemoveStagingFile, |disk.staging.value|);
    }
    WritesAreStaging(site);
    StagingOnly(disk, Take(ops, n));
    StagingOnly(disk, remove);
    ExecConcat(disk, remove + [MakeStaging], Writes(site));
    ExecConcat(disk, remove, [MakeStaging]);
    assert Exec(Exec(disk, remove), [MakeStaging]) == disk.(staging := Some([]));
    WritesResult(disk.(staging := Some([])), site);
    assert [] + site == site;
  }

  /** What is left of a directory after n operations of its removal. */
  function Remains(d: Dir, n: nat): Dir {
    if d.None? || n > |d.value| then None else Some(d.value[n..])
  }

  lemma {:induction false} RemovePrevious(disk: Disk, n: nat)
    ensures Exec(disk, Take(RemoveTree(disk.previous, RemovePreviousFile, RemovePreviousDir), n)) ==
            disk.(previous := Remains(disk.previous, n))
    decreases n
  {
    var ops := RemoveTree(disk.previous, RemovePreviousFile, RemovePreviousDir);
    if disk.previous.None? || n == 0 {
      assert Take(ops, n) == [];
      if n == 0 && disk.previous.Some? {
        assert disk.previous.value[0..] == disk.previous.value;
      }
    } else if disk.previous.value == [] {
      assert Take(ops, n) == [RemovePreviousDir];
      assert Exec(disk, [RemovePreviousDir]) == Do(disk, RemovePreviousDir);
    } else {
      var next := Do(disk, RemovePreviousFile);
      RemovePrevious(next, n - 1);
      var rest := RemoveTree(next.previous, RemovePreviousFile, RemovePreviousDir);
      assert ops[0] == RemovePreviousFile && ops[1..] == rest;
      assert Take(ops, n) == [RemovePreviousFile] + Take(rest, n - 1);
      assert Exec(disk, Take(ops, n)) == Exec(next, Take(rest, n - 1));
      assert Remains(disk.previous, n) == Remains(next.previous, n - 1);
    }
  }

  // ----- Where a cut can leave the disk -----

  /** The number of operations before `previous` is first touched, and up to and including the
      rename that puts the new site live. */
  function Staged(disk: Disk, site: seq<File>): nat {
    |Stage(disk, site)|
  }

  function Cleared(disk: Disk, site: seq<File>): nat {
    Staged(disk, site) + |RemoveTree(disk.previous, RemovePreviousFile, RemovePreviousDir)|
  }

  function Promoted(disk: Disk, site: seq<File>): nat {
    Cleared(disk, site) + |Swap(disk)|
  }

  /** Every disk a cut run can leave, by where it was cut. */
  lemma CutCases(disk: Disk, site: seq<File>, n: nat)
    ensures var after := CutAfter(disk, site, n);
            && (n <= Staged(disk, site) ==> after.live == disk.live && after.previous == disk.previous)
            && (Staged(disk, site) < n <= Cleared(disk, site) ==>
                  after == Disk(Some(site), Remains(disk.previous, n - Staged(disk, site)), disk.live))
            && (Cleared(disk, site) < n < Promoted(disk, site) ==> after == Disk(Some(site), disk.live, None))
            && (Promoted(disk, site) <= n ==>
                  after == Disk(None, Remains(disk.live, n - Promoted(disk, site)), Some(site)))
  {
    var a, b := Stage(disk, site), RemoveTree(disk.previous, RemovePreviousFile, RemovePreviousDir);
    var c, d := Swap(disk), RemoveTree(disk.live, RemovePreviousFile, RemovePreviousDir);
    var staged := disk.(staging := Some(site));
    var cleared := staged.(previous := None);
    StageResult(disk, site, n);
    assert Program(disk, site) == a + (b + (c + d));
    TakeConcat(disk, a, b + (c + d), n);
    if n > |a| {
      TakeConcat(staged, b, c + d, n - |a|);
      RemovePrevious(staged, n - |a|);
      RemovePrevious(staged, |b|);
      assert Take(b, |b|) == b && Exec(staged, b) == cleared;
      if n > |a| + |b| {
        CutSwap(disk, site, cleared, n - |a| - |b|);
      }
    }
  }

  lemma CutSwap(disk: Disk, site: seq<File>, cleared: Disk, n: nat)
    requires cleared == Disk(Some(site), None, disk.live) && n > 0
    ensures var c, d := Swap(disk), RemoveTree(disk.live, RemovePreviousFile, RemovePreviousDir);
            Exec(cleared, Take(c + d, n)) ==
            if n < |c| then Disk(Some(site), disk.live, None) else Disk(None, Remains(disk.live, n - |c|), Some(site))
  {
    var c, d := Swap(disk), RemoveTree(disk.live, RemovePreviousFile, RemovePreviousDir);
    var done := Disk(None, disk.live, Some(site));
    if disk.live.None? {
      assert Exec(cleared, [Promote]) == done;
    } else {
      var retired := Disk(Some(site), disk.live, None);
      assert c[1..] == [Promote] && Exec(retired, [Promote]) == done;
      assert Exec(cleared, c) == done;
      if n < |c| {
        assert Take(c + d, n) == [Retire];
        assert Exec(cleared, [Retire]) == retired;
      }
    }
    if n >= |c| {
      Chain(cleared, c, d, n);
      RemovePrevious(done, n - |c|);
    }
  }

  // ----- Safety -----

  /** The live path is absent or one of the given complete sites. */
  ghost predicate LiveOk(disk: Disk, sites: set<seq<File>>) {
    disk.live.Some? ==> disk.live.value in sites
  }

  /** Over any sequence of runs, each cut at an arbitrary point, what is live is always a
      complete site: the one before or one of those published. */
  lemma {:induction false} LiveIsAlwaysComplete(disks: seq<Disk>, runs: seq<seq<File>>, cuts: seq<nat>,
                                                sites: set<seq<File>>)
    requires |disks| == |runs| + 1 && |cuts| == |runs|
    requires forall k :: 0 <= k < |runs| ==> disks[k + 1] == CutAfter(disks[k], runs[k], cuts[k])
    requires LiveOk(disks[0], sites) && forall k :: 0 <= k < |runs| ==> runs[k] in sites
    ensures forall k :: 0 <= k < |disks| ==> LiveOk(disks[k], sites)
  {
    if runs != [] {
      var n := |runs| - 1;
      LiveIsAlwaysComplete(disks[..n + 1], runs[..n], cuts[..n], sites);
      assert LiveOk(disks[..n + 1][n], sites) && disks[n + 1] == CutAfter(disks[n], runs[n], cuts[n]);
      CutCases(disks[n], runs[n], cuts[n]);
      assert forall k :: 0 <= k <= n ==> disks[k] == disks[..n + 1][k];
    }
  }

  /** A run that starts with a live site, cut anywhere, leaves that site live or in
      `previous`, or has the new one live. */
  lemma OneCutIsSafe(disk: Disk, site: seq<File>, n: nat)
    requires disk.live.Some?
    ensures var after := CutAfter(disk, site, n);
            after.live == disk.live || after.live == Some(site) || (after.live.None? && after.previous == disk.live)
  {
    CutCases(disk, site, n);
  }

  /** An uninterrupted run, whatever the disk looked like, ends with exactly the new site. */
  lemma FullRunPublishes(disk: Disk, site: seq<File>, n: nat)
    requires n >= |Program(disk, site)|
    ensures CutAfter(disk, site, n) == Disk(None, None, Some(site))
  {
    CutCases(disk, site, n);
  }

  /** A complete site is still there: live, or the one that was live last, in `previous`. */
  predicate Survives(after: Disk, last: seq<File>) {
    after.live.Some? || after.previous == Some(last)
  }

  /** From a disk with nothing live and a complete site in `previous`. */
  lemma CutWithoutLive(disk: Disk, last: seq<File>, site: seq<File>, n: nat)
    requires disk.live.None? && disk.previous == Some(last)
    ensures Survives(CutAfter(disk, site, n), last) <==> !(Staged(disk, site) < n < Promoted(disk, site))
  {
    CutCases(disk, site, n);
  }

  /** Two runs cut at any two points, from a complete live site: none is left complete exactly
      when the first was cut between its renames and the second after it had begun to remove
      `previous` and before it had promoted its own site. */
  lemma TwoCutsIff(disk: Disk, v0: seq<File>, v1: seq<File>, v2: seq<File>, m: nat, n: nat)
    requires disk.live == Some(v0)
    ensures var once := CutAfter(disk, v1, m);
            var twice := CutAfter(once, v2, n);
            var last := if once.live.Some? then once.live.value else v0;
            && (Survives(twice, last) <==>
                  !(Cleared(disk, v1) < m < Promoted(disk, v1) && Staged(once, v2) < n < Promoted(once, v2)))
            && last in {v0, v1} && (twice.live.Some? ==> twice.live.value in {v0, v1, v2})
  {
    hide Staged, Cleared, Promoted, CutAfter;
    var once := CutAfter(disk, v1, m);
    FirstCut(disk, v0, v1, m);
    if once.live.None? {
      CutWithoutLive(once, v0, v2, n);
    } else {
      OneCutIsSafe(once, v2, n);
    }
    LiveIsAlwaysComplete([disk, once, CutAfter(once, v2, n)], [v1, v2], [m, n], {v0, v1, v2});
    assert LiveOk([disk, once, CutAfter(once, v2, n)][2], {v0, v1, v2});
  }

  lemma FirstCut(disk: Disk, v0: seq<File>, v1: seq<File>, m: nat)
    requires disk.live == Some(v0)
    ensures var once := CutAfter(disk, v1, m);
            if Cleared(disk, v1) < m < Promoted(disk, v1) then once.live.None? && once.previous == Some(v0)
            else once.live == Some(v0) || once.live == Some(v1)
  {
    CutCases(disk, v1, m);
  }

  /** So two runs cut in a row can leave neither path complete. */
  lemma TwoCutsCanLoseBoth(v0: seq<File>, v1: seq<File>, v2: seq<File>)
    ensures exists m: nat, n: nat ::
              var once := CutAfter(Disk(None, None, Some(v0)), v1, m);
              var twice := CutAfter(once, v2, n);
              twice.live.None? && twice.previous.None?
  {
    var disk := Disk(None, None, Some(v0));
    var m := Cleared(disk, v1) + 1;
    CutCases(disk, v1, m);
    var once := CutAfter(disk, v1, m);
    var n := Cleared(once, v2);
    CutCases(once, v2, n);
    assert CutAfter(once, v2, n) == Disk(Some(v2), None, None);
  }

  // ----- The imperative publisher -----

  /** One run of the generator: the disk and the operations left before it is cut off.  The
      ghost plan splits into what was performed and what is still to do. */
  class Publisher {
    var disk: Disk
    var fuel: nat
    const site: seq<File>
    ghost const start: Disk
    ghost const budget: nat
    ghost var log: seq<Op>
    ghost var todo: seq<Op>

    ghost predicate Valid()
      reads this
    {
      && disk == Exec(start, log)
      && log + todo == Program(start, site)
      && fuel + |log| == budget
    }

    constructor (disk: Disk, fuel: nat, site: seq<File>)
      ensures Valid() && start == this.disk == disk && this.fuel == budget == fuel && this.site == site && log == []
    {
      this.disk, this.fuel, this.site := disk, fuel, site;
      start, budget, log, todo := disk, fuel, [], Program(disk, site);
      new;
      assert log + todo == todo;
    }

    /** The operations before `rest` were performed, or the process was cut off in them. */
    ghost predicate Reached(rest: seq<Op>, alive: bool)
      reads this
    {
      if alive then todo == rest else todo != [] && fuel == 0
    }

    /** One file operation, unless the process has been cut off. */
    method Perform(op: Op, ghost rest: seq<Op>) returns (alive: bool)
      requires Valid() && todo == [op] + rest
      modifies this
      ensures Valid() && Reached(rest, alive)
      ensures alive ==> disk == Do(old(disk), op) && log == old(log) + [op]
    {
      hide Program;
      alive := fuel > 0;
      if alive {
        ExecConcat(start, log, [op]);
        assert Exec(disk, [op]) == Do(disk, op);
        assert log + ([op] + rest) == log + [op] + rest;
        disk, fuel := Do(disk, op), fuel - 1;
        log, todo := log + [op], rest;
      }
    }

    /** `shutil.rmtree`, file by file. */
    method RemoveAll(d: Dir, file: Op, dir: Op, ghost rest: seq<Op>) returns (alive: bool)
      requires Valid() && todo == RemoveTree(d, file, dir) + rest
      modifies this
      ensures Valid() && Reached(rest, alive)
      ensures alive ==> log == old(log) + RemoveTree(d, file, dir)
    {
      hide Program, Exec, Do;
      if d.None? {
        assert log + [] == log && [] + rest == rest;
        return true;
      }
      ghost var files, before := Times(file, |d.value|), log;
      assert todo == files + ([dir] + rest);
      alive := Repeat(file, |d.value|, [dir] + rest);
      if alive {
        alive := Perform(dir, rest);
        assert before + files + [dir] == before + (files + [dir]);
      }
    }

    /** The same operation n times. */
    method Repeat(op: Op, n: nat, ghost rest: seq<Op>) returns (alive: bool)
      requires Valid() && todo == Times(op, n) + rest
      modifies this
      ensures Valid() && Reached(rest, alive)
      ensures alive ==> log == old(log) + Times(op, n)
    {
      hide Program, Exec, Do;
      ghost var before := log;
      assert before + [] == before && Times(op, 0) == [];
      for i := 0 to n
        invariant Valid() && todo == Times(op, n - i) + rest && log == before + Times(op, i)
      {
        assert todo == [op] + (Times(op, n - i - 1) + rest);
        alive := Perform(op, Times(op, n - i - 1) + rest);
        if !alive {
          return;
        }
        TimesSnoc(op, i);
        assert before + Times(op, i) + [op] == before + (Times(op, i) + [op]);
      }
      assert [] + rest == rest;
      alive := true;
    }

    /** `staging.mkdir` and the write loop. */
    method WriteAll(ghost rest: seq<Op>) returns (alive: bool)
      requires Valid() && todo == [MakeStaging] + Writes(site) + rest
      modifies this
      ensures Valid() && Reached(rest, alive)
      ensures alive ==> log == old(log) + [MakeStaging] + Writes(site)
    {
      hide Program;
      ghost var ops, before := Writes(site), log + [MakeStaging];
      WritesAt(site);
      assert todo == [MakeStaging] + (ops + rest);
      alive := Perform(MakeStaging, ops + rest);
      if !alive {
        return;
      }
      for k := 0 to |site|
        invariant Valid() && todo == ops[2 * k..] + rest && log == before + ops[..2 * k]
      {
        assert ops[2 * k..] + rest == [Create(site[k].name)] + ([Fill(site[k])] + (ops[2 * k + 2..] + rest));
        alive := Perform(Create(site[k].name), [Fill(site[k])] + (ops[2 * k + 2..] + rest));
        if !alive {
          return;
        }
        alive := Perform(Fill(site[k]), ops[2 * k + 2..] + rest);
        if !alive {
          return;
        }
        assert before + ops[..2 * k] + [Create(site[k].name)] + [Fill(site[k])] == before + ops[..2 * k + 2];
      }
      assert ops[2 * |site|..] + rest == rest && ops[..2 * |site|] == ops;
      alive := true;
    }

    /** `generate_site` from the staging step on: at whatever operation it is cut off, the
        disk is that of the same run modelled as a list of operations. */
    method GenerateSite() returns (finished: bool)
      requires Valid() && log == []
      modifies this
      ensures disk == CutAfter(start, site, budget)
      ensures finished <==> budget >= |Program(start, site)|
    {
      finished := StageAndClear();
      if finished {
        finished := SwapAndClean();
      }
      assert log == Take(Program(start, site), budget) by {
        hide Program, Exec;
        if !finished {
          assert log == (log + todo)[..budget];
        } else {
          assert log + [] == log;
        }
      }
    }

    /** Removing staging, then writing the new site there. */
    method StageSite(ghost rest: seq<Op>) returns (alive: bool)
      requires Valid() && log == [] && todo == Stage(start, site) + rest
      modifies this
      ensures Valid() && Reached(rest, alive)
      ensures alive ==> log == Stage(start, site)
    {
      ghost var a, w := RemoveTree(start.staging, RemoveStagingFile, RemoveStagingDir), [MakeStaging] + Writes(site);
      assert disk == start;
      StageParts(start, site, rest);
      hide RemoveTree, Writes, Stage, Program, Exec;
      alive := RemoveAll(disk.staging, RemoveStagingFile, RemoveStagingDir, w + rest);
      if alive {
        assert todo == [MakeStaging] + Writes(site) + rest;
        alive := WriteAll(rest);
        assert [] + a == a;
      }
    }

    /** Staging the new site, then removing `previous`. */
    method StageAndClear() returns (alive: bool)
      requires Valid() && log == []
      modifies this
      ensures Valid() && Reached(Swap(start) + RemoveTree(start.live, RemovePreviousFile, RemovePreviousDir), alive)
      ensures alive ==> disk == Disk(Some(site), None, start.live)
    {
      ghost var c := Swap(start) + RemoveTree(start.live, RemovePreviousFile, RemovePreviousDir);
      ghost var b := RemoveTree(start.previous, RemovePreviousFile, RemovePreviousDir);
      assert todo == Stage(start, site) + (b + c) by {
        assert [] + todo == todo;
        assert Program(start, site) == Stage(start, site) + b + Swap(start) +
               RemoveTree(start.live, RemovePreviousFile, RemovePreviousDir);
      }
      hide RemoveTree, Writes, Stage, Program, Exec;
      alive := StageSite(b + c);
      if !alive {
        return;
      }
      assert disk == start.(staging := Some(site)) by {
        StageResult(start, site, 0);
      }
      alive := RemoveAll(disk.previous, RemovePreviousFile, RemovePreviousDir, c);
      if alive {
        ClearedDisk(start, site);
      }
    }

    /** The two renames and the removal of the retired site. */
    method SwapAndClean() returns (alive: bool)
      requires Valid() && disk == Disk(Some(site), None, start.live)
      requires todo == Swap(start) + RemoveTree(start.live, RemovePreviousFile, RemovePreviousDir)
      modifies this
      ensures Valid() && Reached([], alive)
    {
      ghost var d := RemoveTree(start.live, RemovePreviousFile, RemovePreviousDir);
      if disk.live.Some? {
        assert todo == [Retire] + ([Promote] + d);
        alive := Perform(Retire, [Promote] + d);
        if !alive {
          return;
        }
      }
      alive := Perform(Promote, d);
      if !alive {
        return;
      }
      assert d + [] == d;
      alive := RemoveAll(disk.previous, RemovePreviousFile, RemovePreviousDir, []);
    }
  }

  lemma StageParts(disk: Disk, site: seq<File>, rest: seq<Op>)
    ensures var a, w := RemoveTree(disk.staging, RemoveStagingFile, RemoveStagingDir), [MakeStaging] + Writes(site);
            Stage(disk, site) + rest == a + (w + rest) && a + [MakeStaging] + Writes(site) == Stage(disk, site)
  {
    var a, w := RemoveTree(disk.staging, RemoveStagingFile, RemoveStagingDir), [MakeStaging] + Writes(site);
    assert a + [MakeStaging] + Writes(site) == a + w;
  }

  lemma {:induction false} TimesSnoc(op: Op, n: nat)
    ensures Times(op, n + 1) == Times(op, n) + [op]
  {
    if n > 0 {
      TimesSnoc(op, n - 1);
      assert [op] + (Times(op, n - 1) + [op]) == [op] + Times(op, n - 1) + [op];
    }
  }

  lemma ClearedDisk(start: Disk, site: seq<File>)
    ensures Exec(start, Stage(start, site) + RemoveTree(start.previous, RemovePreviousFile, RemovePreviousDir)) ==
            Disk(Some(site), None, start.live)
  {
    var b := RemoveTree(start.previous, RemovePreviousFile, RemovePreviousDir);
    ExecConcat(start, Stage(start, site), b);
    StageResult(start, site, 0);
    RemovePrevious(start.(staging := Some(site)), |b|);
    assert Take(b, |b|) == b;
  }
}
