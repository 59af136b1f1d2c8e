/** setup_names and cleanup_names of lat_fs.c. */
module LatFs {
  import opened Arith
  import opened Chains
  import opened DirTree

  /** The directories that exist below the temporary directory. */
  class FileSystem {
    var dirs: set<Path>

    constructor ()
      ensures dirs == {}
    {
      dirs := {};
    }

    /** mkdir fails if the directory exists or the one it is to lie in does not. */
    method Mkdir(p: Path) returns (ok: bool)
      modifies this
      ensures ok <==> p !in old(dirs) && (p == [] || Parent(p) in old(dirs))
      ensures dirs == if ok then old(dirs) + {p} else old(dirs)
    {
      ok := p !in dirs && (p == [] || Parent(p) in dirs);
      if ok { dirs := dirs + {p}; }
    }

    /** rmdir fails if the directory does not exist or is not empty. */
    method Rmdir(p: Path) returns (ok: bool)
      modifies this
      ensures ok <==> p in old(dirs) && forall q :: q in old(dirs) && q != [] ==> Parent(q) != p
      ensures dirs == if ok then old(dirs) - {p} else old(dirs)
    {
      ok := p in dirs && forall q :: q in dirs && q != [] ==> Parent(q) != p;
      if ok { dirs := dirs - {p}; }
    }
  }

  /** struct _state; the root directory is the path []. */
  class FsState {
    var max: nat
    var n: nat
    var names: array<Path>
    var ndirs: nat
    var dirs: array<Path>

    constructor (max: nat)
      ensures this.max == max && n == 0 && ndirs == 0
    {
      this.max, n, ndirs := max, 0, 0;
      names, dirs := new Path[0], new Path[0];
    }
  }

  ghost function SetOf(s: seq<Path>): set<Path> {
    set p | p in s
  }

  /** What dirs[] is to hold once the call that starts with `done` and has `files` files left to place
      at iteration i is over. */
  ghost function Planned(m: nat, done: seq<Path>, base: Path, d: nat, files: nat, i: nat): seq<Path> {
    done + DirsFrom(m, base, d, files, i)
  }

  ghost function PlannedNames(m: nat, done: seq<Path>, base: Path, d: nat, files: nat, i: nat): seq<Path> {
    done + FilesFrom(m, base, d, files, i)
  }

  lemma JoinFour(a: seq<Path>, b: seq<Path>, c: seq<Path>, d: seq<Path>)
    ensures a + (b + c + d) == (a + b + c) + d
  {
  }

  /** One iteration for a directory: the entry, what goes into it, and the iterations that follow. */
  lemma PlannedStep(m: nat, done: seq<Path>, base: Path, d: nat, files: nat, i: nat)
    requires d > 0 && i < m && files > 0
    ensures Planned(m, done, base, d, files, i) ==
            Planned(m, done + [base + [i]] + DirsFrom(m, base + [i], d - 1, files, 0), base, d,
                    files - Share(m, d, files), i + 1)
  {
    JoinFour(done, [base + [i]], DirsFrom(m, base + [i], d - 1, files, 0),
             DirsFrom(m, base, d, files - Share(m, d, files), i + 1));
  }

  lemma PlannedNamesStep(m: nat, names: seq<Path>, base: Path, d: nat, files: nat, i: nat)
    requires d > 0 && i < m && files > 0
    ensures PlannedNames(m, names, base, d, files, i) ==
            PlannedNames(m, names + FilesFrom(m, base + [i], d - 1, files, 0), base, d,
                         files - Share(m, d, files), i + 1)
    ensures |FilesFrom(m, base + [i], d - 1, files, 0)| == Share(m, d, files)
  {
    FilesCount(m, base + [i], d - 1, files, 0);
    JoinFour(names, FilesFrom(m, base + [i], d - 1, files, 0), [],
             FilesFrom(m, base, d, files - Share(m, d, files), i + 1));
    var inner := FilesFrom(m, base + [i], d - 1, files, 0);
    assert inner + [] == inner && names + inner + [] == names + inner;
  }

  lemma PrefixDistinct(s: seq<Path>, t: seq<Path>)
    requires s <= t && Distinct(t)
    ensures Distinct(s)
  {
    assert forall k :: 0 <= k < |s| ==> s[k] == t[k];
  }

  /** The bound ndirs never stops the loop before all files are placed. */
  lemma EnoughDirs(files: nat, count: nat, i: nat)
    requires count > 0 && i * count < files
    ensures i < files / count + 1
  {
    Digits(files, count);
    MulCompare(i, files / count + 1, count);
  }

  /** The files that fit below one entry of a directory: max to the power of its height. */
  method Power(max: nat, depth: nat) returns (count: nat)
    requires depth > 0
    ensures count == Pow(max, depth)
  {
    count := max;
    assert Pow(max, 1) == max * Pow(max, 0);
    for i := 1 to depth
      invariant count == Pow(max, i)
    {
      count := count * max;
    }
  }

  /** The state of the recursion: the first doff + 1 entries of dirs[] exist on disk. */
  ghost predicate Ready(fs: FileSystem, dirs: array<Path>, doff: nat)
    reads fs, dirs
  {
    doff < dirs.Length && fs.dirs == SetOf(dirs[..doff + 1])
  }

  /** mkdir of the next entry of dirs[]. */
  method MakeDir(fs: FileSystem, dirs: array<Path>, doff: nat, child: Path)
    requires Ready(fs, dirs, doff) && doff + 1 < dirs.Length
    requires child != [] && child !in dirs[..doff + 1] && Parent(child) in dirs[..doff + 1]
    modifies fs, dirs
    ensures Ready(fs, dirs, doff + 1) && dirs[..doff + 2] == old(dirs[..doff + 1]) + [child]
  {
    ghost var before := dirs[..doff + 1];
    dirs[doff + 1] := child;
    var ok := fs.Mkdir(child);
    assert dirs[..doff + 2] == before + [child];
  }

  /** setup_names_recurse: the results are the new values of the two counters. Every mkdir succeeds. */
  method SetupNamesRecurse(max: nat, n: nat, fs: FileSystem, names: array<Path>, dirs: array<Path>,
                           foff: nat, doff: nat, depth: nat) returns (foff': nat, doff': nat)
    requires max > 0 && names != dirs && foff <= n == names.Length && Ready(fs, dirs, doff)
    requires var plan := Planned(max, dirs[..doff + 1], dirs[doff], depth, n - foff, 0);
             |plan| <= dirs.Length && Distinct(plan)
    modifies fs, names, dirs
    ensures foff <= foff' <= n && Ready(fs, dirs, doff')
    ensures dirs[..doff' + 1] == Planned(max, old(dirs[..doff + 1]), old(dirs[doff]), depth, n - foff, 0)
    ensures names[..foff'] == PlannedNames(max, old(names[..foff]), old(dirs[doff]), depth, n - foff, 0)
    decreases depth, 1
  {
    if depth > 0 {
      foff', doff' := MakeDirs(max, n, fs, names, dirs, foff, doff, depth);
    } else {
      foff' := MakeNames(max, n, names, dirs, foff, doff);
      doff' := doff;
    }
  }

  /** The branch for directories. */
  method MakeDirs(max: nat, n: nat, fs: FileSystem, names: array<Path>, dirs: array<Path>,
                  foff: nat, doff: nat, depth: nat) returns (foff': nat, doff': nat)
    requires max > 0 && depth > 0 && names != dirs && foff <= n == names.Length && Ready(fs, dirs, doff)
    requires var plan := Planned(max, dirs[..doff + 1], dirs[doff], depth, n - foff, 0);
             |plan| <= dirs.Length && Distinct(plan)
    modifies fs, names, dirs
    ensures foff <= foff' <= n && Ready(fs, dirs, doff')
    ensures dirs[..doff' + 1] == Planned(max, old(dirs[..doff + 1]), old(dirs[doff]), depth, n - foff, 0)
    ensures names[..foff'] == PlannedNames(max, old(names[..foff]), old(dirs[doff]), depth, n - foff, 0)
    decreases depth, 0
  {
    var basename := dirs[doff];
    var count := Power(max, depth);
    PowPositive(max, depth);
    var ndirs := (n - foff) / count + 1;
    ghost var plan := Planned(max, dirs[..doff + 1], basename, depth, n - foff, 0);
    ghost var planNames := PlannedNames(max, names[..foff], basename, depth, n - foff, 0);
    foff', doff' := foff, doff;
    var i := 0;
    while i < max && i < ndirs && foff' < n
      invariant 0 <= i <= max && foff <= foff' <= n && doff <= doff' && Ready(fs, dirs, doff')
      invariant foff' < n ==> foff' == foff + i * count
      invariant plan == Planned(max, dirs[..doff' + 1], basename, depth, n - foff', i)
      invariant planNames == PlannedNames(max, names[..foff'], basename, depth, n - foff', i)
      invariant dirs[doff] == basename
      decreases max - i
    {
      foff', doff' := MakeOneDir(max, n, fs, names, dirs, foff', doff', depth, basename, i, plan, planNames, doff);
      MulSucc(i, count);
      i := i + 1;
    }
    if foff' < n { EnoughDirs(n - foff, count, i); }
  }

  /** The body of the loop, against the plan. */
  method MakeOneDir(max: nat, n: nat, fs: FileSystem, names: array<Path>, dirs: array<Path>,
                    foff: nat, doff: nat, depth: nat, basename: Path, i: nat,
                    ghost plan: seq<Path>, ghost planNames: seq<Path>, ghost entry: nat)
    returns (foff': nat, doff': nat)
    requires depth > 0 && i < max && names != dirs && foff < n == names.Length && Ready(fs, dirs, doff)
    requires Distinct(plan) && |plan| <= dirs.Length && entry <= doff && dirs[entry] == basename
    requires plan == Planned(max, dirs[..doff + 1], basename, depth, n - foff, i)
    requires planNames == PlannedNames(max, names[..foff], basename, depth, n - foff, i)
    modifies fs, names, dirs
    ensures foff' == foff + Share(max, depth, n - foff) && doff <= doff' && Ready(fs, dirs, doff')
    ensures dirs[entry] == basename
    ensures plan == Planned(max, dirs[..doff' + 1], basename, depth, n - foff', i + 1)
    ensures planNames == PlannedNames(max, names[..foff'], basename, depth, n - foff', i + 1)
    decreases depth, 0, 1
  {
    ghost var done, doneNames := dirs[..doff + 1], names[..foff];
    NextPlan(max, plan, planNames, done, doneNames, basename, depth, n - foff, i);
    assert done[entry] == basename;
    foff', doff' := MakeDirAndFill(max, n, fs, names, dirs, foff, doff, depth, basename, i, plan);
    assert dirs[..doff' + 1][entry] == done[entry];
  }

  /** The plan with one directory, and what goes into it, done. */
  lemma NextPlan(m: nat, plan: seq<Path>, planNames: seq<Path>, done: seq<Path>, doneNames: seq<Path>, base: Path,
                 d: nat, files: nat, i: nat)
    requires d > 0 && i < m && files > 0
    requires plan == Planned(m, done, base, d, files, i) && planNames == PlannedNames(m, doneNames, base, d, files, i)
    ensures var dirs := done + [base + [i]] + DirsFrom(m, base + [i], d - 1, files, 0);
            dirs <= plan && plan == Planned(m, dirs, base, d, files - Share(m, d, files), i + 1)
    ensures var names := doneNames + FilesFrom(m, base + [i], d - 1, files, 0);
            planNames == PlannedNames(m, names, base, d, files - Share(m, d, files), i + 1)
            && |names| == |doneNames| + Share(m, d, files)
  {
    PlannedStep(m, done, base, d, files, i);
    PlannedNamesStep(m, doneNames, base, d, files, i);
  }

  /** The body of the loop. */
  method MakeDirAndFill(max: nat, n: nat, fs: FileSystem, names: array<Path>, dirs: array<Path>,
                        foff: nat, doff: nat, depth: nat, basename: Path, i: nat, ghost plan: seq<Path>)
    returns (foff': nat, doff': nat)
    requires max > 0 && depth > 0 && names != dirs && foff < n == names.Length && Ready(fs, dirs, doff)
    requires Distinct(plan) && |plan| <= dirs.Length && basename in dirs[..doff + 1]
    requires dirs[..doff + 1] + [basename + [i]] + DirsFrom(max, basename + [i], depth - 1, n - foff, 0) <= plan
    modifies fs, names, dirs
    ensures foff <= foff' <= n && doff <= doff' && Ready(fs, dirs, doff')
    ensures dirs[..doff' + 1] ==
            old(dirs[..doff + 1]) + [basename + [i]] + DirsFrom(max, basename + [i], depth - 1, n - foff, 0)
    ensures names[..foff'] == old(names[..foff]) + FilesFrom(max, basename + [i], depth - 1, n - foff, 0)
    decreases depth, 0, 0
  {
    var child := basename + [i];
    ghost var start := dirs[..doff + 1] + [child];
    ghost var target := start + DirsFrom(max, child, depth - 1, n - foff, 0);
    PrefixDistinct(target, plan);
    PrefixDistinct(start, target);
    NotBefore(dirs[..doff + 1], child);
    MakeDir(fs, dirs, doff, child);
    foff', doff' := SetupNamesRecurse(max, n, fs, names, dirs, foff, doff + 1, depth - 1);
  }

  lemma NotBefore(s: seq<Path>, p: Path)
    requires Distinct(s + [p])
    ensures p !in s
  {
    forall k | 0 <= k < |s|
      ensures s[k] != p
    {
      assert (s + [p])[k] != (s + [p])[|s|];
    }
  }

  /** The branch for files. */
  method MakeNames(max: nat, n: nat, names: array<Path>, dirs: array<Path>, foff: nat, doff: nat) returns (foff': nat)
    requires names != dirs && foff <= n == names.Length && doff < dirs.Length
    modifies names
    ensures foff <= foff' <= n
    ensures names[..foff'] == PlannedNames(max, old(names[..foff]), dirs[doff], 0, n - foff, 0)
  {
    var basename := dirs[doff];
    ghost var plan := PlannedNames(max, names[..foff], basename, 0, n - foff, 0);
    foff' := foff;
    var i := 0;
    while i < max && foff' < n
      invariant 0 <= i <= max && foff <= foff' <= n
      invariant plan == PlannedNames(max, names[..foff'], basename, 0, n - foff', i)
      decreases max - i
    {
      ghost var before := names[..foff'];
      names[foff'] := basename + [i];
      foff' := foff' + 1;
      assert names[..foff'] == before + [basename + [i]];
      assert Share(max, 0, n - foff' + 1) == 1;
      i := i + 1;
    }
  }

  /** The plan for n files in `depth` levels above the leaves: as many directories as counted. */
  lemma PlanFits(m: nat, n: nat, depth: nat)
    requires m > 0 && 1 <= n <= Pow(m, depth + 1)
    ensures var dirs := [[]] + DirsFrom(m, [], depth, n, 0);
            |dirs| == Levels(m, n, depth + 1) && Distinct(dirs) && |FilesFrom(m, [], depth, n, 0)| == n
  {
    PowPositive(m, depth + 1);
    DirsCount(m, [], depth, n, 0);
    FilesCount(m, [], depth, n, 0);
    CeilOne(n, Pow(m, depth + 1));
    DirsBelow(m, [], depth, n, 0);
    var below := DirsFrom(m, [], depth, n, 0);
    assert forall t :: 0 <= t < |below| ==> Below([], 0, below[t]);
    DirsDistinct(m, [], depth, n, 0);
    DistinctJoin([[]], below);
  }

  /** The loop that counts directories and levels: one leaf directory for max files, one directory
      above for max of these, and so on up to a single one. */
  method CountDirs(max: nat, n: nat) returns (total: nat, depth: nat)
    requires max >= 2 && n >= 1
    ensures n <= Pow(max, depth + 1) && (depth > 0 ==> n > Pow(max, depth))
    ensures total == Levels(max, n, depth + 1)
  {
    depth := 0;
    total := n / max;
    if n % max != 0 { total := total + 1; }
    assert Pow(max, 1) == max * Pow(max, 0) == max;
    assert Levels(max, n, 1) == Levels(max, n, 0) + Ceil(n, Pow(max, 1));
    var ndirs := total;
    while ndirs > 1
      invariant Pow(max, depth + 1) > 0
      invariant ndirs == Ceil(n, Pow(max, depth + 1))
      invariant total == Levels(max, n, depth + 1)
      invariant depth > 0 ==> n > Pow(max, depth)
      decreases ndirs
    {
      CeilShrinks(ndirs, max);
      CeilOne(n, Pow(max, depth + 1));
      CeilTwice(n, Pow(max, depth + 1), max);
      assert Pow(max, depth + 2) == max * Pow(max, depth + 1);
      ndirs := ndirs / max + if ndirs % max != 0 then 1 else 0;
      total := total + ndirs;
      depth := depth + 1;
    }
    CeilOne(n, Pow(max, depth + 1));
  }

  /** What setup_names leaves behind: n distinct file names and ndirs distinct directories, which all
      exist and nothing else does, each recorded after the one it lies in. */
  ghost predicate Tree(state: FsState, fs: FileSystem)
    reads state, state.names, state.dirs, fs
  {
    && state.n == state.names.Length && Distinct(state.names[..])
    && state.ndirs == state.dirs.Length > 0 && Distinct(state.dirs[..])
    && fs.dirs == SetOf(state.dirs[..])
    && state.dirs[0] == [] && ParentsFirst([], state.dirs[1..])
    && forall t :: 0 <= t < state.n ==> state.names[t] != [] && Parent(state.names[t]) in state.dirs[..]
  }

  /** The names lie `depth` + 1 levels below the root, with entry numbers below max. */
  ghost predicate Even(state: FsState, depth: nat)
    reads state, state.names
  {
    forall t :: 0 <= t < state.names.Length ==> Shape(state.max, [], depth, state.names[t])
  }

  /** setup_names. `error` is its own check of foff and doff:
      it never fails, and the directories are as few levels deep as max entries each allow. */
  method SetupNames(iterations: nat, state: FsState, fs: FileSystem) returns (error: bool, ghost depth: nat)
    requires state.max >= 2 && fs.dirs == {}
    modifies state, fs
    ensures iterations == 0 ==> unchanged(state) && unchanged(fs)
    ensures !error && state.max == old(state.max)
    ensures iterations > 0 ==> fresh(state.names) && fresh(state.dirs) && state.n == iterations && Tree(state, fs)
    ensures iterations > 0 ==> Even(state, depth) && iterations <= Pow(state.max, depth + 1)
                               && (depth > 0 ==> iterations > Pow(state.max, depth))
  {
    error, depth := false, 0;
    if iterations == 0 { return; }
    var total, levels := CountDirs(state.max, iterations);
    depth := levels;
    var foff, doff := Grow(iterations, total, levels, state, fs);
    error := foff != iterations || doff != total - 1;
    TreeGrown(state, fs, levels);
  }

  /** The part of setup_names that allocates the arrays and runs the recursion. */
  method Grow(iterations: nat, total: nat, levels: nat, state: FsState, fs: FileSystem) returns (foff: nat, doff: nat)
    requires state.max >= 2 && fs.dirs == {}
    requires 1 <= iterations <= Pow(state.max, levels + 1) && total == Levels(state.max, iterations, levels + 1)
    modifies state, fs
    ensures fresh(state.names) && fresh(state.dirs) && state.max == old(state.max)
    ensures foff == iterations == state.n == state.names.Length && doff + 1 == total == state.ndirs == state.dirs.Length
    ensures state.dirs[..] == [[]] + DirsFrom(state.max, [], levels, iterations, 0)
    ensures state.names[..] == FilesFrom(state.max, [], levels, iterations, 0)
    ensures fs.dirs == SetOf(state.dirs[..])
  {
    PlanFits(state.max, iterations, levels);
    var names, dirs := new Path[iterations], new Path[total];
    state.n, state.ndirs, state.names, state.dirs := iterations, total, names, dirs;
    var made := fs.Mkdir([]);
    dirs[0] := [];
    assert dirs[..1] == [[]] && names[..0] == [];
    foff, doff := SetupNamesRecurse(state.max, iterations, fs, names, dirs, 0, 0, levels);
    assert dirs[..doff + 1] == [[]] + DirsFrom(state.max, [], levels, iterations, 0);
    assert names[..foff] == FilesFrom(state.max, [], levels, iterations, 0);
    assert dirs[..doff + 1] == dirs[..] && names[..foff] == names[..];
  }

  lemma TreeGrown(state: FsState, fs: FileSystem, depth: nat)
    requires state.max > 0 && 1 <= state.n == state.names.Length && state.ndirs == state.dirs.Length
    requires state.n <= Pow(state.max, depth + 1)
    requires state.dirs[..] == [[]] + DirsFrom(state.max, [], depth, state.n, 0)
    requires state.names[..] == FilesFrom(state.max, [], depth, state.n, 0)
    requires fs.dirs == SetOf(state.dirs[..])
    ensures Tree(state, fs) && Even(state, depth)
  {
    var m, n := state.max, state.n;
    PlanFits(m, n, depth);
    FilesDistinct(m, [], depth, n, 0);
    FilesInDirs(m, [], depth, n, 0);
    FilesShape(m, [], depth, n, 0);
    DirsParentsFirst(m, [], depth, n, 0);
    assert state.dirs[..][0] == [];
    assert state.dirs[1..] == DirsFrom(m, [], depth, n, 0);
    forall t | 0 <= t < n
      ensures state.names[t] != [] && Parent(state.names[t]) in state.dirs[..] && Shape(m, [], depth, state.names[t])
    {
      assert state.names[t] == state.names[..][t];
    }
  }

  /** No directory of s[..i] lies in s[i], since each lies in one recorded before it. */
  lemma LastIsEmpty(s: seq<Path>, i: nat)
    requires i < |s| && Distinct(s) && s[0] == [] && ParentsFirst([], s[1..])
    ensures forall q :: q in SetOf(s[..i + 1]) && q != [] ==> Parent(q) != s[i]
    ensures SetOf(s[..i + 1]) - {s[i]} == SetOf(s[..i])
  {
    forall t | 1 <= t <= i
      ensures s[t] != [] && Parent(s[t]) in s[..t]
    {
      var rest := s[1..];
      assert rest[t - 1] == s[t];
      if Parent(rest[t - 1]) != [] {
        var k :| 0 <= k < t - 1 && rest[k] == Parent(s[t]);
        assert s[k + 1] == rest[k];
      }
    }
  }

  /** cleanup_names, once the files are removed: every rmdir
      finds its directory empty, and none is left. */
  method CleanupNames(iterations: nat, state: FsState, fs: FileSystem) returns (removed: nat)
    requires iterations > 0 ==> Tree(state, fs)
    modifies state, fs
    ensures iterations == 0 ==> unchanged(state) && unchanged(fs)
    ensures iterations > 0 ==> fs.dirs == {} && removed == old(state.ndirs) && state.n == state.ndirs == 0
  {
    removed := 0;
    if iterations == 0 { return; }
    state.n := 0;
    var dirs := state.dirs;
    var i := state.ndirs;
    while i > 0
      invariant 0 <= i <= dirs.Length && removed == dirs.Length - i
      invariant fs.dirs == SetOf(dirs[..i])
      invariant state.n == 0 && state.ndirs == dirs.Length && dirs == old(state.dirs) && dirs[..] == old(state.dirs[..])
    {
      i := i - 1;
      LastIsEmpty(dirs[..], i);
      assert dirs[..][..i + 1] == dirs[..i + 1] && dirs[..][..i] == dirs[..i];
      assert dirs[i] in dirs[..i + 1];
      var ok := fs.Rmdir(dirs[i]);
      if ok { removed := removed + 1; }
    }
    state.ndirs := 0;
  }
}
