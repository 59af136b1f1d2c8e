/** The result lists of lib_timing.c: samples (u microseconds for n iterations) kept from the largest
    to the smallest u / n. The quotients are compared exactly, by cross-multiplication. */
module Results {
  import opened Arith

  const TRIES: nat := 11

  datatype Sample = Sample(u: nat, n: nat)

  /** a.u / a.n > b.u / b.n */
  predicate Larger(a: Sample, b: Sample) {
    a.u * b.n > b.u * a.n
  }

  ghost predicate Proper(r: seq<Sample>) {
    forall k :: 0 <= k < |r| ==> r[k].n > 0
  }

  ghost predicate Descending(r: seq<Sample>) {
    forall a, b :: 0 <= a < b < |r| ==> !Larger(r[b], r[a])
  }

  /** The first entry that is smaller than s. */
  function Place(s: Sample, r: seq<Sample>): (i: nat)
    ensures i <= |r|
    ensures forall k :: 0 <= k < i ==> !Larger(s, r[k])
    ensures i < |r| ==> Larger(s, r[i])
  {
    if r == [] || Larger(s, r[0]) then 0 else 1 + Place(s, r[1..])
  }

  lemma NotYet(s: Sample, r: seq<Sample>, i: nat)
    requires i < |r| && i <= Place(s, r) && !Larger(s, r[i])
    ensures i < Place(s, r)
  {
  }

  /** The list after insertsort(s.u, s.n, r): zero times are dropped. */
  function Inserted(s: Sample, r: seq<Sample>): seq<Sample> {
    if s.u == 0 then r else r[..Place(s, r)] + [s] + r[Place(s, r)..]
  }

  function InsertedAll(samples: seq<Sample>, r: seq<Sample>): seq<Sample> {
    if samples == [] then r else InsertedAll(samples[1..], Inserted(samples[0], r))
  }

  /** The samples that count. */
  ghost function Nonzero(samples: seq<Sample>): multiset<Sample> {
    if samples == [] then multiset{}
    else (if samples[0].u == 0 then multiset{} else multiset{samples[0]}) + Nonzero(samples[1..])
  }

  lemma LargerTransitive(a: Sample, b: Sample, c: Sample)
    requires a.n > 0 && b.n > 0 && c.n > 0 && !Larger(b, a) && !Larger(c, b)
    ensures !Larger(c, a)
  {
    MulMono(b.u * a.n, a.u * b.n, c.n);
    MulMono(c.u * b.n, b.u * c.n, a.n);
    assert c.u * a.n * b.n <= a.u * c.n * b.n;
    if Larger(c, a) { MulStrict(a.u * c.n, c.u * a.n, b.n); }
  }

  lemma MulStrict(a: int, b: int, d: int)
    requires a < b && d > 0
    ensures a * d < b * d
  {
    MulGap(a, b, d);
  }

  /** The list with s at its place. */
  ghost function At(s: Sample, r: seq<Sample>, i: nat): (r': seq<Sample>)
    requires i <= |r|
    ensures |r'| == |r| + 1 && r'[i] == s
    ensures forall k :: 0 <= k < i ==> r'[k] == r[k]
    ensures forall k :: i < k < |r'| ==> r'[k] == r[k - 1]
  {
    r[..i] + [s] + r[i..]
  }

  /** What follows the place is smaller than s. */
  lemma SmallerAfter(s: Sample, r: seq<Sample>, i: nat, k: nat)
    requires s.n > 0 && Proper(r) && Descending(r) && i <= k < |r| && Larger(s, r[i])
    ensures !Larger(r[k], s)
  {
    assert !Larger(r[i], s);
    if i < k { LargerTransitive(s, r[i], r[k]); }
  }

  lemma DescendingAt(s: Sample, r: seq<Sample>, i: nat)
    requires s.n > 0 && Proper(r) && Descending(r) && i <= |r|
    requires forall k :: 0 <= k < i ==> !Larger(s, r[k])
    requires i < |r| ==> Larger(s, r[i])
    ensures Descending(At(s, r, i))
  {
    var r' := At(s, r, i);
    forall a, b | 0 <= a < b < |r'|
      ensures !Larger(r'[b], r'[a])
    {
      if a == i {
        SmallerAfter(s, r, i, b - 1);
      } else if b != i {
        var a', b' := if a < i then a else a - 1, if b < i then b else b - 1;
        assert r'[a] == r[a'] && r'[b] == r[b'];
      }
    }
  }

  lemma ContentsAt(s: Sample, r: seq<Sample>, i: nat)
    requires i <= |r| && s.n > 0 && Proper(r)
    ensures Proper(At(s, r, i)) && multiset(At(s, r, i)) == multiset(r) + multiset{s}
  {
    assert r == r[..i] + r[i..];
  }

  lemma JoinedAt(r': seq<Sample>, shifted: seq<Sample>, r: seq<Sample>, i: nat, s: Sample)
    requires i <= |r| < |shifted| && shifted[..i] == r[..i] && shifted[i + 1..|r| + 1] == r[i..]
    requires r' == shifted[i := s][..|r| + 1]
    ensures r' == r[..i] + [s] + r[i..]
  {
    assert r'[..i] == r[..i] && r'[i + 1..] == r[i..];
    assert r' == r'[..i] + [r'[i]] + r'[i + 1..];
  }

  lemma InsertedSorted(s: Sample, r: seq<Sample>)
    requires s.n > 0 && Proper(r) && Descending(r)
    ensures Proper(Inserted(s, r)) && Descending(Inserted(s, r))
    ensures multiset(Inserted(s, r)) == multiset(r) + Nonzero([s])
    ensures |Inserted(s, r)| <= |r| + 1
  {
    if s.u != 0 {
      assert Inserted(s, r) == At(s, r, Place(s, r));
      DescendingAt(s, r, Place(s, r));
      ContentsAt(s, r, Place(s, r));
    }
    assert Nonzero([s][1..]) == multiset{};
  }

  lemma {:induction false} InsertedAllSorted(samples: seq<Sample>, r: seq<Sample>)
    requires Proper(samples) && Proper(r) && Descending(r)
    ensures Proper(InsertedAll(samples, r)) && Descending(InsertedAll(samples, r))
    ensures multiset(InsertedAll(samples, r)) == multiset(r) + Nonzero(samples)
    ensures |InsertedAll(samples, r)| <= |r| + |samples|
    decreases |samples|
  {
    if samples != [] {
      InsertedSorted(samples[0], r);
      InsertedAllSorted(samples[1..], Inserted(samples[0], r));
      assert Nonzero(samples) == Nonzero([samples[0]]) + Nonzero(samples[1..]);
    }
  }

  lemma {:induction false} NonzeroMultiset(samples: seq<Sample>)
    requires Positive(samples)
    ensures Nonzero(samples) == multiset(samples)
  {
    if samples != [] {
      NonzeroMultiset(samples[1..]);
      assert samples == [samples[0]] + samples[1..];
    }
  }

  ghost predicate Positive(r: seq<Sample>) {
    forall k :: 0 <= k < |r| ==> r[k].u > 0
  }

  lemma {:induction false} InsertedAllPositive(samples: seq<Sample>, r: seq<Sample>)
    requires Positive(r)
    ensures Positive(InsertedAll(samples, r))
    decreases |samples|
  {
    if samples != [] { InsertedAllPositive(samples[1..], Inserted(samples[0], r)); }
  }

  /** The list a process builds from its samples, merged into another list, adds the nonzero ones. */
  lemma MergeList(taken: seq<Sample>, merged: seq<Sample>)
    requires Proper(taken) && Proper(merged) && Descending(merged)
    ensures var merged' := InsertedAll(InsertedAll(taken, []), merged);
            && Proper(merged') && Descending(merged')
            && multiset(merged') == multiset(merged) + Nonzero(taken)
            && |merged'| <= |merged| + |taken|
  {
    var r := InsertedAll(taken, []);
    InsertedAllSorted(taken, []);
    InsertedAllPositive(taken, []);
    NonzeroMultiset(r);
    InsertedAllSorted(r, merged);
  }

  lemma {:induction false} InsertedAllAppend(samples: seq<Sample>, s: Sample, r: seq<Sample>)
    ensures InsertedAll(samples + [s], r) == Inserted(s, InsertedAll(samples, r))
    decreases |samples|
  {
    if samples == [] {
      assert (samples + [s])[1..] == [];
    } else {
      assert (samples + [s])[1..] == samples[1..] + [s];
      InsertedAllAppend(samples[1..], s, Inserted(samples[0], r));
    }
  }

  lemma {:induction false} NonzeroAppend(samples: seq<Sample>, s: Sample)
    ensures Nonzero(samples + [s]) == Nonzero(samples) + Nonzero([s])
  {
    if samples == [] {
      assert samples + [s] == [s];
    } else {
      assert (samples + [s])[1..] == samples[1..] + [s];
      NonzeroAppend(samples[1..], s);
    }
  }

  /** The number of entries that sizeof_result(repetitions) bytes have room for. */
  function Slots(repetitions: int): nat {
    if repetitions <= TRIES then TRIES else repetitions
  }

  /** result_t */
  class ResultList {
    var N: nat
    var v: array<Sample>

    /** An uninitialised list with room for sizeof_result(repetitions) bytes, after insertinit. */
    constructor (repetitions: int)
      ensures Valid() && Entries() == [] && v.Length == Slots(repetitions) && fresh(v)
    {
      N := 0;
      v := new Sample[Slots(repetitions)](_ => Sample(0, 0));
    }

    ghost predicate Valid()
      reads this, v
    {
      N <= v.Length && Proper(v[..N]) && Descending(v[..N])
    }

    ghost function Entries(): seq<Sample>
      requires N <= v.Length
      reads this, v
    {
      v[..N]
    }

    /** insertsort */
    method InsertSort(u: nat, n: nat)
      requires Valid() && n > 0 && (u > 0 ==> N < v.Length)
      modifies this`N, v
      ensures Valid() && v == old(v) && Entries() == Inserted(Sample(u, n), old(Entries()))
    {
      if u == 0 { return; }
      InsertedSorted(Sample(u, n), v[..N]);
      Insert(u, n);
    }

    /** ... once the time is known to be positive. */
    method Insert(u: nat, n: nat)
      requires N < v.Length && u > 0
      modifies this`N, v
      ensures N == old(N) + 1 && v == old(v) && v[..N] == Inserted(Sample(u, n), old(v[..N]))
    {
      ghost var r := v[..N];
      var i := FirstSmaller(u, n);
      Shift(i);
      ghost var shifted := v[..];
      v[i] := Sample(u, n);
      N := N + 1;
      JoinedAt(v[..N], shifted, r, i, Sample(u, n));
    }

    /** The loop that looks for the first entry that is smaller. */
    method FirstSmaller(u: nat, n: nat) returns (i: nat)
      requires N <= v.Length
      ensures i == Place(Sample(u, n), v[..N])
    {
      i := 0;
      while i < N && !Larger(Sample(u, n), v[i])
        invariant 0 <= i <= N && i <= Place(Sample(u, n), v[..N])
      {
        NotYet(Sample(u, n), v[..N], i);
        i := i + 1;
      }
    }

    /** The loop that makes room at i. */
    method Shift(i: nat)
      requires i <= N < v.Length
      modifies v
      ensures v[..i] == old(v[..i]) && v[i + 1..N + 1] == old(v[i..N])
    {
      ghost var r := v[..N];
      var j := N;
      while j > i
        invariant i <= j <= N == |r|
        invariant forall k :: 0 <= k < j ==> v[k] == r[k]
        invariant forall k :: j < k <= N ==> v[k] == r[k - 1]
      {
        v[j] := v[j - 1];
        j := j - 1;
      }
    }
  }
}
