/** The directory tree of lat_fs.c: how many directories and levels setup_names plans for, what
    its recursion creates, and why cleanup_names can remove it all. */
module DirTree {
  import opened Arith
  import opened Chains

  /** The numbers after the temporary directory in "%s/%ld/%ld...". */
  type Path = seq<nat>

  function Parent(p: Path): Path
    requires p != []
  {
    p[..|p| - 1]
  }

  function Pow(m: nat, d: nat): nat {
    if d == 0 then 1 else m * Pow(m, d - 1)
  }

  function Min(a: nat, b: nat): nat {
    if a <= b then a else b
  }

  /** a / d, rounded up. */
  function Ceil(a: nat, d: nat): nat
    requires d > 0
  {
    a / d + if a % d != 0 then 1 else 0
  }

  lemma {:induction false} PowPositive(m: nat, d: nat)
    requires m > 0
    ensures Pow(m, d) > 0
  {
    if d > 0 {
      PowPositive(m, d - 1);
      MulMono(1, m, Pow(m, d - 1));
    }
  }

  // ----- what the recursion creates

  /** The files placed below one entry of a directory at height d: an entry of a leaf directory is a
      file, an entry of a higher one is a directory for Pow(m, d) files. */
  function Share(m: nat, d: nat, files: nat): nat {
    Min(files, Pow(m, d))
  }

  /** Directories created below `base` at height d by the iterations from i on, in order, with
      `files` files left to place. */
  function DirsFrom(m: nat, base: Path, d: nat, files: nat, i: nat): seq<Path>
    decreases d, m - i
  {
    if d == 0 || i >= m || files == 0 then []
    else
      [base + [i]] + DirsFrom(m, base + [i], d - 1, files, 0)
      + DirsFrom(m, base, d, files - Share(m, d, files), i + 1)
  }

  /** ... and the file names recorded. */
  function FilesFrom(m: nat, base: Path, d: nat, files: nat, i: nat): seq<Path>
    decreases d, m - i
  {
    if i >= m || files == 0 then []
    else
      (if d == 0 then [base + [i]] else FilesFrom(m, base + [i], d - 1, files, 0))
      + FilesFrom(m, base, d, files - Share(m, d, files), i + 1)
  }

  // ----- how many

  /** Ceil(files, m) + ... + Ceil(files, Pow(m, d)): directories on d levels. */
  function Levels(m: nat, files: nat, d: nat): nat
    requires m > 0
    decreases d
  {
    if d == 0 then 0 else PowPositive(m, d); Levels(m, files, d - 1) + Ceil(files, Pow(m, d))
  }

  lemma {:induction false} FilesCount(m: nat, base: Path, d: nat, files: nat, i: nat)
    requires m > 0
    ensures |FilesFrom(m, base, d, files, i)| == if i >= m then 0 else Min(files, (m - i) * Pow(m, d))
    decreases d, m - i
  {
    if i < m && files > 0 {
      var p := Pow(m, d);
      MulSucc(m - i - 1, p);
      MulMono(0, m - i - 1, p);
      if d > 0 { FilesCount(m, base + [i], d - 1, files, 0); }
      FilesCount(m, base, d, files - Share(m, d, files), i + 1);
    }
  }

  lemma {:induction false} LevelsZero(m: nat, d: nat)
    requires m > 0
    ensures Levels(m, 0, d) == 0
    decreases d
  {
    if d > 0 {
      LevelsZero(m, d - 1);
      PowPositive(m, d);
      Quotient(0, 0, Pow(m, d));
    }
  }

  lemma CeilMultiple(q: nat, g: nat, d: nat)
    requires d > 0
    ensures Ceil(q * d + g, d) == q + Ceil(g, d)
  {
    Digits(g, d);
    MulAdd(q, g / d, d);
    Quotient(q + g / d, g % d, d);
  }

  lemma {:induction false} PowSplit(m: nat, e: nat, d: nat)
    requires e <= d
    ensures Pow(m, d) == Pow(m, d - e) * Pow(m, e)
    decreases e
  {
    if e > 0 {
      PowSplit(m, e - 1, d);
      MulSwap(m, Pow(m, d - e), Pow(m, e - 1));
    }
  }

  lemma MulSwap(m: int, a: int, b: int)
    ensures m * a * b == a * (m * b)
  {
  }

  /** A full share of Pow(m, d) files needs its own directories on every level up to d. */
  lemma {:induction false} LevelsAdd(m: nat, d: nat, files: nat, e: nat)
    requires m > 0 && e <= d
    ensures Levels(m, Pow(m, d) + files, e) == Levels(m, Pow(m, d), e) + Levels(m, files, e)
    decreases e
  {
    if e > 0 {
      LevelsAdd(m, d, files, e - 1);
      PowPositive(m, e);
      PowSplit(m, e, d);
      CeilMultiple(Pow(m, d - e), files, Pow(m, e));
      CeilMultiple(Pow(m, d - e), 0, Pow(m, e));
      Quotient(0, 0, Pow(m, e));
    }
  }

  lemma CeilOne(a: nat, d: nat)
    requires d > 0
    ensures Ceil(a, d) == 0 <==> a == 0
    ensures Ceil(a, d) <= 1 <==> a <= d
  {
    Digits(a, d);
    if a == d {
      Quotient(1, 0, d);
    } else if a < d {
      Quotient(0, a, d);
    } else {
      MulCompare(1, a / d + 1, d);
      if a / d == 1 { assert a % d != 0; }
    }
    if a / d >= 1 { MulMono(1, a / d, d); }
  }

  lemma {:induction false} DirsCount(m: nat, base: Path, d: nat, files: nat, i: nat)
    requires m > 0 && i <= m
    ensures |DirsFrom(m, base, d, files, i)| == Levels(m, Min(files, (m - i) * Pow(m, d)), d)
    decreases d, m - i
  {
    var p := Pow(m, d);
    PowPositive(m, d);
    MulMono(0, m - i, p);
    if d == 0 {
    } else if i >= m || files == 0 {
      LevelsZero(m, d);
    } else {
      var rest := files - Share(m, d, files);
      DirsCount(m, base + [i], d - 1, files, 0);
      DirsCount(m, base, d, rest, i + 1);
      MulSucc(m - i - 1, p);
      MulMono(0, m - i - 1, p);
      CeilOne(Min(files, p), p);
      if files > p {
        LevelsAdd(m, d, Min(rest, (m - i - 1) * p), d);
      } else {
        LevelsZero(m, d);
      }
    }
  }

  // ----- the shape of what is created

  /** p lies below entry j >= i of base. */
  ghost predicate Below(base: Path, i: nat, p: Path) {
    |p| > |base| && p[..|base|] == base && p[|base|] >= i
  }

  ghost predicate AllBelow(base: Path, i: nat, s: seq<Path>) {
    forall t :: 0 <= t < |s| ==> Below(base, i, s[t])
  }

  lemma BelowChild(base: Path, i: nat, j: nat, s: seq<Path>)
    requires AllBelow(base + [i], j, s)
    ensures forall t :: 0 <= t < |s| ==> Below(base, i, s[t]) && s[t][|base|] == i && s[t] != base + [i]
  {
    forall t | 0 <= t < |s|
      ensures Below(base, i, s[t]) && s[t][|base|] == i && s[t] != base + [i]
    {
      assert Below(base + [i], j, s[t]);
      var p := s[t];
      assert p[..|base| + 1] == base + [i];
      assert p[..|base|] == p[..|base| + 1][..|base|] == base;
      assert p[|base|] == p[..|base| + 1][|base|] == i;
    }
  }

  lemma {:induction false} DirsBelow(m: nat, base: Path, d: nat, files: nat, i: nat)
    ensures AllBelow(base, i, DirsFrom(m, base, d, files, i))
    decreases d, m - i
  {
    if d > 0 && i < m && files > 0 {
      var inner := DirsFrom(m, base + [i], d - 1, files, 0);
      DirsBelow(m, base + [i], d - 1, files, 0);
      DirsBelow(m, base, d, files - Share(m, d, files), i + 1);
      BelowChild(base, i, 0, inner);
      assert (base + [i])[..|base|] == base;
    }
  }

  lemma {:induction false} FilesBelow(m: nat, base: Path, d: nat, files: nat, i: nat)
    ensures AllBelow(base, i, FilesFrom(m, base, d, files, i))
    decreases d, m - i
  {
    if i < m && files > 0 {
      FilesBelow(m, base, d, files - Share(m, d, files), i + 1);
      if d > 0 {
        FilesBelow(m, base + [i], d - 1, files, 0);
        BelowChild(base, i, 0, FilesFrom(m, base + [i], d - 1, files, 0));
      }
      assert (base + [i])[..|base|] == base;
    }
  }

  lemma DistinctJoin(a: seq<Path>, b: seq<Path>)
    requires Distinct(a) && Distinct(b)
    requires forall x, y :: 0 <= x < |a| && 0 <= y < |b| ==> a[x] != b[y]
    ensures Distinct(a + b)
  {
  }

  /** No directory is created twice. */
  lemma {:induction false} DirsDistinct(m: nat, base: Path, d: nat, files: nat, i: nat)
    ensures Distinct(DirsFrom(m, base, d, files, i))
    decreases d, m - i
  {
    if d > 0 && i < m && files > 0 {
      var inner := DirsFrom(m, base + [i], d - 1, files, 0);
      var rest := DirsFrom(m, base, d, files - Share(m, d, files), i + 1);
      DirsDistinct(m, base + [i], d - 1, files, 0);
      DirsDistinct(m, base, d, files - Share(m, d, files), i + 1);
      DirsBelow(m, base + [i], d - 1, files, 0);
      DirsBelow(m, base, d, files - Share(m, d, files), i + 1);
      BelowChild(base, i, 0, inner);
      DistinctJoin([base + [i]], inner);
      assert forall y :: 0 <= y < |rest| ==> Below(base, i + 1, rest[y]);
      DistinctJoin([base + [i]] + inner, rest);
    }
  }

  /** No file name is used twice. */
  lemma {:induction false} FilesDistinct(m: nat, base: Path, d: nat, files: nat, i: nat)
    ensures Distinct(FilesFrom(m, base, d, files, i))
    decreases d, m - i
  {
    if i < m && files > 0 {
      var inner := if d == 0 then [base + [i]] else FilesFrom(m, base + [i], d - 1, files, 0);
      var rest := FilesFrom(m, base, d, files - Share(m, d, files), i + 1);
      if d > 0 {
        FilesDistinct(m, base + [i], d - 1, files, 0);
        FilesBelow(m, base + [i], d - 1, files, 0);
        BelowChild(base, i, 0, inner);
      }
      FilesDistinct(m, base, d, files - Share(m, d, files), i + 1);
      FilesBelow(m, base, d, files - Share(m, d, files), i + 1);
      assert forall y :: 0 <= y < |rest| ==> Below(base, i + 1, rest[y]);
      DistinctJoin(inner, rest);
    }
  }

  /** Every path of s lies directly in base or in an earlier path of s. */
  ghost predicate ParentsFirst(base: Path, s: seq<Path>) {
    forall t :: 0 <= t < |s| ==> s[t] != [] && (Parent(s[t]) == base || Parent(s[t]) in s[..t])
  }

  lemma ParentsFirstJoin(base: Path, a: seq<Path>, b: seq<Path>)
    requires ParentsFirst(base, a) && ParentsFirst(base, b)
    ensures ParentsFirst(base, a + b)
  {
    forall t | 0 <= t < |a + b|
      ensures (a + b)[t] != [] && (Parent((a + b)[t]) == base || Parent((a + b)[t]) in (a + b)[..t])
    {
      if t < |a| {
        assert (a + b)[..t] == a[..t];
      } else {
        assert (a + b)[..t] == a + b[..t - |a|];
      }
    }
  }

  /** A child and what is created inside it. */
  lemma ParentsFirstNest(base: Path, child: Path, inner: seq<Path>)
    requires child != [] && Parent(child) == base && ParentsFirst(child, inner)
    ensures ParentsFirst(base, [child] + inner)
  {
    var s := [child] + inner;
    forall t | 0 <= t < |s|
      ensures s[t] != [] && (Parent(s[t]) == base || Parent(s[t]) in s[..t])
    {
      if t > 0 { assert s[..t] == [child] + inner[..t - 1]; }
    }
  }

  /** A directory is created after the directory it lies in. */
  lemma {:induction false} DirsParentsFirst(m: nat, base: Path, d: nat, files: nat, i: nat)
    ensures ParentsFirst(base, DirsFrom(m, base, d, files, i))
    decreases d, m - i
  {
    if d > 0 && i < m && files > 0 {
      var inner := DirsFrom(m, base + [i], d - 1, files, 0);
      var rest := DirsFrom(m, base, d, files - Share(m, d, files), i + 1);
      DirsParentsFirst(m, base + [i], d - 1, files, 0);
      DirsParentsFirst(m, base, d, files - Share(m, d, files), i + 1);
      ParentsFirstNest(base, base + [i], inner);
      ParentsFirstJoin(base, [base + [i]] + inner, rest);
    }
  }

  /** Every file lies in base or in a directory created by the same call. */
  lemma {:induction false} FilesInDirs(m: nat, base: Path, d: nat, files: nat, i: nat)
    ensures forall t :: 0 <= t < |FilesFrom(m, base, d, files, i)| ==>
              var p := FilesFrom(m, base, d, files, i)[t];
              p != [] && (Parent(p) == base || Parent(p) in DirsFrom(m, base, d, files, i))
    decreases d, m - i
  {
    if i < m && files > 0 {
      FilesInDirs(m, base, d, files - Share(m, d, files), i + 1);
      if d > 0 { FilesInDirs(m, base + [i], d - 1, files, 0); }
    }
  }

  /** All files are on one level, and every directory on the way has fewer than m entries before. */
  lemma {:induction false} FilesShape(m: nat, base: Path, d: nat, files: nat, i: nat)
    ensures forall t :: 0 <= t < |FilesFrom(m, base, d, files, i)| ==>
              Shape(m, base, d, FilesFrom(m, base, d, files, i)[t])
    decreases d, m - i
  {
    if i < m && files > 0 {
      FilesShape(m, base, d, files - Share(m, d, files), i + 1);
      if d > 0 {
        var inner := FilesFrom(m, base + [i], d - 1, files, 0);
        FilesShape(m, base + [i], d - 1, files, 0);
        forall t | 0 <= t < |inner|
          ensures Shape(m, base, d, inner[t])
        {
          ShapeUp(m, base, i, d, inner[t]);
        }
      }
    }
  }

  /** p is d + 1 levels below base and takes an entry number below m on each. */
  ghost predicate Shape(m: nat, base: Path, d: nat, p: Path) {
    |p| == |base| + d + 1 && p[..|base|] == base && forall k :: |base| <= k < |p| ==> p[k] < m
  }

  lemma ShapeUp(m: nat, base: Path, i: nat, d: nat, p: Path)
    requires d > 0 && i < m && Shape(m, base + [i], d - 1, p)
    ensures Shape(m, base, d, p)
  {
    assert p[..|base|] == p[..|base| + 1][..|base|] == base;
    assert p[|base|] == p[..|base| + 1][|base|];
  }

  // ----- the number of levels setup_names finds

  lemma CeilBounds(a: nat, d: nat)
    requires d > 0
    ensures a <= Ceil(a, d) * d < a + d
  {
    Digits(a, d);
    MulSucc(a / d, d);
  }

  lemma CeilUnique(a: nat, d: nat, k: nat)
    requires d > 0 && a <= k * d < a + d
    ensures k == Ceil(a, d)
  {
    CeilBounds(a, d);
    var c := Ceil(a, d);
    MulSucc(k, d);
    MulSucc(c, d);
    if k < c { MulMono(k + 1, c, d); }
    if c < k { MulMono(c + 1, k, d); }
  }

  /** Rounding up twice is rounding up once. */
  lemma CeilTwice(a: nat, b: nat, c: nat)
    requires b > 0 && c > 0
    ensures c * b > 0 && Ceil(Ceil(a, b), c) == Ceil(a, c * b)
  {
    var x := Ceil(a, b);
    var k := Ceil(x, c);
    CeilBounds(a, b);
    CeilBounds(x, c);
    MulMono(1, c, b);
    MulMono(x, k * c, b);
    MulMono(k * c, x + c - 1, b);
    MulAdd(x, c - 1, b);
    MulSucc(c - 1, b);
    assert k * c * b == k * (c * b) by { MulSwap(c, k, b); }
    CeilUnique(a, c * b, k);
  }

  lemma CeilShrinks(a: nat, d: nat)
    requires a > 1 && d > 1
    ensures 1 <= Ceil(a, d) < a
  {
    CeilBounds(a, d);
    CeilOne(a, d);
    if Ceil(a, d) >= a {
      MulMono(a, Ceil(a, d), d);
      MulMono(2, d, a - 1);
      MulSucc(a - 1, d);
    }
  }
}
