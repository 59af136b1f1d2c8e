/** search of cache.c: adaptive bisection of the latency curve. */
module Searching {
  import opened Benchmarks
  import opened ChunkTesting
  import opened MemStates
  import opened Measuring
  import opened Reals
  import opened Swaps

  /** The fields of struct cache_results that search reads and writes; a negative latency marks a
      size that has not been measured. */
  datatype Reading = Reading(len: nat, latency: real, ratio: real, slope: real)

  ghost predicate Measured(p: seq<Reading>, k: nat)
    requires k < |p|
  {
    p[k].latency >= 0.0
  }

  /** a and b are measured and nothing between them is. */
  ghost predicate Consecutive(p: seq<Reading>, a: nat, b: nat) {
    a < b < |p| && Measured(p, a) && Measured(p, b) && forall k :: a < k < b ==> !Measured(p, k)
  }

  /** What search promises of two consecutive measured sizes: ratio and slope describe the step from a
      to b, the latency falls by at most 2%, and no step above 35% is left unless there is no size
      between. A latency differs from the one sampled only where the sample lies more than 2% above
      the latency of b; then it is that latency. */
  ghost predicate Linked(p: seq<Reading>, a: nat, b: nat, raw: map<nat, real>)
    requires a < b < |p|
  {
    && p[a].latency > 0.0
    && p[a].ratio * p[a].latency == p[b].latency
    && p[a].ratio >= 0.98
    && p[a].slope * (b - a) as real == p[a].ratio - 1.0
    && (b == a + 1 || p[a].ratio <= 1.35)
    && a in raw && (p[a].latency == raw[a] || p[a].latency == p[b].latency < 0.98 * raw[a])
  }

  ghost predicate AllLinked(p: seq<Reading>, left: nat, right: nat, raw: map<nat, real>)
    requires right < |p|
  {
    forall a: nat, b: nat :: left <= a < b <= right && Consecutive(p, a, b) ==> Linked(p, a, b, raw)
  }

  /** q differs from p on [left, right) only, and the sizes are the same everywhere. */
  ghost predicate SameOutside(p: seq<Reading>, q: seq<Reading>, left: nat, right: nat) {
    && |q| == |p|
    && (forall k :: 0 <= k < |p| && !(left <= k < right) ==> q[k] == p[k])
    && (forall k :: 0 <= k < |p| ==> q[k].len == p[k].len)
  }

  lemma Divide(x: real, y: real) returns (r: real)
    requires y > 0.0
    ensures r == x / y && r * y == x
    ensures x > 0.0 ==> r > 0.0
    ensures r < 0.98 ==> x < 0.98 * y
  {
    r := x / y;
    assert r * y == x;
    if r < 0.98 { MulStrictly(r, 0.98, y); }
    if r <= 0.0 { MulMonotone(r, 0.0, y); }
  }

  /** The new entry `left` once right is known, if its latency is positive. */
  function Settled(here: Reading, there: Reading, gap: nat): (r: Reading)
    requires gap > 0
  {
    if here.latency > 0.0 then
      var ratio := there.latency / here.latency;
      if ratio < 0.98 then Reading(here.len, there.latency, 1.0, 0.0)
      else Reading(here.len, here.latency, ratio, (ratio - 1.0) / gap as real)
    else here
  }

  lemma SettledLinks(here: Reading, there: Reading, gap: nat)
    requires here.latency > 0.0 && there.latency > 0.0 && gap > 0
    ensures var r := Settled(here, there, gap);
            && r.latency > 0.0 && r.ratio * r.latency == there.latency && r.ratio >= 0.98
            && r.slope * gap as real == r.ratio - 1.0
            && (r.latency == here.latency || r.latency == there.latency < 0.98 * here.latency)
  {
    var ratio := Divide(there.latency, here.latency);
    var slope := Divide(ratio - 1.0, gap as real);
  }

  /** The assignments to p[left]. */
  method Settle(p: array<Reading>, left: nat, right: nat)
    requires left < right < p.Length
    modifies p
    ensures p[..] == old(p[..])[left := Settled(old(p[left]), old(p[right]), right - left)]
  {
    if p[left].latency > 0.0 {
      var ratio := p[right].latency / p[left].latency;
      p[left] := p[left].(ratio := ratio);
      p[left] := p[left].(slope := (ratio - 1.0) / (right - left) as real);
      if p[left].ratio < 0.98 {
        p[left] := p[left].(latency := p[right].latency, ratio := 1.0, slope := 0.0);
      }
    }
  }

  /** The right half, then the left half, which leaves the right half alone. */
  lemma Halves(before: seq<Reading>, after: seq<Reading>, left: nat, middle: nat, right: nat,
               rawRight: map<nat, real>, rawLeft: map<nat, real>)
    requires left < middle < right < |before| && SameOutside(before, after, left, middle)
    requires AllLinked(before, middle, right, rawRight) && AllLinked(after, left, middle, rawLeft)
    requires Measured(before, middle) && Between(rawRight, middle, right) && Between(rawLeft, left, middle)
    ensures AllLinked(after, left, right, rawRight + rawLeft)
  {
    var raw := rawRight + rawLeft;
    forall a: nat, b: nat | left <= a < b <= right && Consecutive(after, a, b)
      ensures Linked(after, a, b, raw)
    {
      assert Measured(after, middle);
      if b <= middle {
        assert Linked(after, a, b, rawLeft);
      } else {
        assert a >= middle;
        assert forall k :: a < k < b ==> !Measured(after, k) && after[k] == before[k];
        assert Consecutive(before, a, b);
        assert Linked(before, a, b, rawRight);
      }
    }
  }

  // ----- what was sampled

  ghost predicate Between(raw: map<nat, real>, left: nat, right: nat) {
    forall k :: k in raw ==> left <= k < right
  }

  ghost predicate AllPositive(raw: map<nat, real>) {
    forall k :: k in raw ==> raw[k] > 0.0
  }

  /** Every sample but the one at `left` was measured since `from`. */
  ghost predicate Sampled(raw: map<nat, real>, left: nat, log: seq<Run>, from: nat) {
    forall k :: k in raw && k != left ==> Took(log, from, raw[k])
  }

  /** The samples of the middle and of both halves. */
  lemma HalvesSampled(rawRight: map<nat, real>, rawLeft: map<nat, real>, left: nat, middle: nat, right: nat,
                      log0: seq<Run>, log1: seq<Run>, log2: seq<Run>, log3: seq<Run>)
    requires left < middle < right && Between(rawRight, middle, right) && Between(rawLeft, left, middle)
    requires log0 <= log1 <= log2 <= log3 && middle in rawRight && Took(log1, |log0|, rawRight[middle])
    requires Sampled(rawRight, middle, log2, |log1|) && Sampled(rawLeft, left, log3, |log2|)
    ensures Sampled(rawRight + rawLeft, left, log3, |log0|) && Between(rawRight + rawLeft, left, right)
    ensures AllPositive(rawRight + rawLeft) ==> AllPositive(rawRight) && AllPositive(rawLeft)
  {
    var raw := rawRight + rawLeft;
    forall k | k in raw && k != left
      ensures Took(log3, |log0|, raw[k])
    {
      if k in rawLeft {
        TookSince(log3, |log0|, |log2|, raw[k]);
      } else if k == middle {
        TookLonger(log1, log3, |log0|, raw[k]);
      } else {
        TookLonger(log2, log3, |log1|, raw[k]);
        TookSince(log3, |log0|, |log1|, raw[k]);
      }
    }
    if AllPositive(raw) { PositiveParts(rawRight, rawLeft, left, middle, right); }
  }

  lemma PositiveParts(rawRight: map<nat, real>, rawLeft: map<nat, real>, left: nat, middle: nat, right: nat)
    requires Between(rawRight, middle, right) && Between(rawLeft, left, middle) && AllPositive(rawRight + rawLeft)
    ensures AllPositive(rawRight) && AllPositive(rawLeft)
  {
    var raw := rawRight + rawLeft;
    assert forall k :: k in rawRight ==> k in raw && raw[k] == rawRight[k];
    assert forall k :: k in rawLeft ==> k in raw && raw[k] == rawLeft[k];
  }

  // ----- the bisection

  /** The sizes between left and right can be sampled. */
  ghost predicate Fitting(p: seq<Reading>, left: nat, right: nat, pagesize: nat, line: nat, pages: nat) {
    && right <= |p|
    && forall k :: left < k < right ==>
         SizeOk(p[k].len, pagesize, line, pages) && PageCount(p[k].len, pagesize) + 2 <= pages
  }

  ghost predicate Unmeasured(p: seq<Reading>, left: nat, right: nat) {
    right <= |p| && forall k :: left < k < right ==> p[k].latency < 0.0
  }

  /** What search leaves, whatever is measured: entries change on [left, right) only, and if all samples
      and the latency at `right` are positive, every consecutive measured pair is linked. */
  ghost predicate Searched(p: seq<Reading>, q: seq<Reading>, left: nat, right: nat, raw: map<nat, real>) {
    && left < right < |p| && SameOutside(p, q, left, right) && Between(raw, left, right)
    && left in raw && raw[left] == p[left].latency
    && (AllPositive(raw) && p[right].latency > 0.0 ==> AllLinked(q, left, right, raw) && q[left].latency > 0.0)
  }

  /** search: through the whole bisection the memory stays measurable and the page list a rearrangement;
      raw holds the latency at `left` and the ones that were sampled. */
  method Search(bench: Bench, state: MemState, left: nat, right: nat, p: array<Reading>, available: nat)
    returns (newAvailable: nat, ghost raw: map<nat, real>)
    requires bench.Valid() && CacheValid(state) && left < right < p.Length
    requires Fitting(p[..], left, right, state.pagesize, state.line, state.pages.Length)
    requires Unmeasured(p[..], left, right)
    modifies bench, state.pages, state.mem, p
    ensures bench.Valid() && CacheValid(state) && Rearranged(old(state.pages[..]), state.pages[..])
    ensures old(bench.log) <= bench.log && Sampled(raw, left, bench.log, |old(bench.log)|)
    ensures Searched(old(p[..]), p[..], left, right, raw)
    decreases right - left, 1
  {
    var middle := left + (right - left) / 2;
    ghost var entry := p[..];
    newAvailable, raw := available, map[left := p[left].latency];
    Settle(p, left, right);
    ghost var settled := p[..];
    if middle == left || middle == right || !(p[left].ratio > 1.35 || p[left].ratio < 0.97) {
      NothingBetween(entry, settled, left, right);
      return;
    }
    newAvailable, raw := SearchHalves(bench, state, left, middle, right, p, available);
    Settling(entry, settled, p[..], left, right, raw);
  }

  /** The sample in the middle, the right half, the left half. */
  method SearchHalves(bench: Bench, state: MemState, left: nat, middle: nat, right: nat, p: array<Reading>,
                      available: nat) returns (newAvailable: nat, ghost raw: map<nat, real>)
    requires bench.Valid() && CacheValid(state) && left < middle < right < p.Length
    requires Fitting(p[..], left, right, state.pagesize, state.line, state.pages.Length)
    requires Unmeasured(p[..], left, right)
    modifies bench, state.pages, state.mem, p
    ensures bench.Valid() && CacheValid(state) && Rearranged(old(state.pages[..]), state.pages[..])
    ensures old(bench.log) <= bench.log && Sampled(raw, left, bench.log, |old(bench.log)|)
    ensures Searched(old(p[..]), p[..], left, right, raw)
    decreases right - left, 0
  {
    ghost var log0, p0 := bench.log, p[..];
    newAvailable := SampleMiddle(bench, state, left, middle, right, p, available);
    ghost var log1, p1 := bench.log, p[..];
    ghost var rawRight, rawLeft;
    newAvailable, rawRight := Search(bench, state, middle, right, p, newAvailable);
    ghost var log2, p2 := bench.log, p[..];
    newAvailable, rawLeft := Search(bench, state, left, middle, p, newAvailable);
    raw := rawRight + rawLeft;
    HalvesSampled(rawRight, rawLeft, left, middle, right, log0, log1, log2, bench.log);
    HalvesSearched(p0, p1, p2, p[..], left, middle, right, rawRight, rawLeft);
  }

  method SampleMiddle(bench: Bench, state: MemState, ghost left: nat, middle: nat, ghost right: nat,
                      p: array<Reading>, available: nat) returns (newAvailable: nat)
    requires bench.Valid() && CacheValid(state) && left < middle < right < p.Length
    requires Fitting(p[..], left, right, state.pagesize, state.line, state.pages.Length)
    modifies bench, state.pages, state.mem, p
    ensures bench.Valid() && CacheValid(state) && Rearranged(old(state.pages[..]), state.pages[..])
    ensures old(bench.log) <= bench.log && Took(bench.log, |old(bench.log)|, p[middle].latency)
    ensures p[..] == old(p[..])[middle := old(p[middle]).(latency := p[middle].latency)]
  {
    var latency;
    latency, newAvailable := CollectSample(bench, state, p[middle].len, available);
    p[middle] := p[middle].(latency := latency);
  }

  lemma HalvesSearched(p0: seq<Reading>, p1: seq<Reading>, p2: seq<Reading>, p3: seq<Reading>,
                       left: nat, middle: nat, right: nat, rawRight: map<nat, real>, rawLeft: map<nat, real>)
    requires left < middle < right < |p0| == |p1| && p1 == p0[middle := p0[middle].(latency := p1[middle].latency)]
    requires Searched(p1, p2, middle, right, rawRight) && Searched(p2, p3, left, middle, rawLeft)
    ensures Searched(p0, p3, left, right, rawRight + rawLeft)
  {
    var raw := rawRight + rawLeft;
    if AllPositive(raw) && p0[right].latency > 0.0 {
      PositiveParts(rawRight, rawLeft, left, middle, right);
      Halves(p2, p3, left, middle, right, rawRight, rawLeft);
    }
  }

  /** Without a sample in the middle left and right are the one consecutive pair. */
  lemma NothingBetween(p: seq<Reading>, q: seq<Reading>, left: nat, right: nat)
    requires left < right < |p| && Unmeasured(p, left, right)
    requires q == p[left := Settled(p[left], p[right], right - left)]
    requires right == left + 1 || q[left].ratio <= 1.35
    ensures Searched(p, q, left, right, map[left := p[left].latency])
  {
    var raw: map<nat, real> := map[left := p[left].latency];
    if AllPositive(raw) && p[right].latency > 0.0 {
      assert left in raw;
      SettledLinks(p[left], p[right], right - left);
      OnlyPair(q, left, right, raw);
    }
  }

  /** Where the bisection goes on, the first assignments have kept the latency at `left`. */
  lemma Settling(p: seq<Reading>, q: seq<Reading>, r: seq<Reading>, left: nat, right: nat, raw: map<nat, real>)
    requires left < right < |p| && q == p[left := Settled(p[left], p[right], right - left)]
    requires q[left].ratio > 1.35 || q[left].ratio < 0.97
    requires Searched(q, r, left, right, raw)
    ensures Searched(p, r, left, right, raw)
  {
  }

  lemma OnlyPair(p: seq<Reading>, left: nat, right: nat, raw: map<nat, real>)
    requires left < right < |p| && Linked(p, left, right, raw)
    requires forall k :: left < k < right ==> p[k].latency < 0.0
    ensures AllLinked(p, left, right, raw)
  {
    forall a: nat, b: nat | left <= a < b <= right && Consecutive(p, a, b)
      ensures Linked(p, a, b, raw)
    {
      assert a == left && b == right;
    }
  }

  /** Taking the left half first would not do: settling the right half may still lower the latency in
      the middle, to which the left half has been fitted. */
  lemma LeftHalfFirst(raw: map<nat, real>)
    requires raw == map[0 := 1.0, 1 := 3.0]
    ensures var p := [Reading(1, 1.0, 2.0, 0.5), Reading(2, 3.0, -1.0, -1.0), Reading(3, 2.0, -1.0, -1.0)];
            var q := p[0 := Settled(p[0], p[1], 1)];
            var r := q[1 := Settled(q[1], q[2], 1)];
            AllLinked(q, 0, 1, raw) && Consecutive(r, 0, 1) && !Linked(r, 0, 1, raw)
  {
    var p := [Reading(1, 1.0, 2.0, 0.5), Reading(2, 3.0, -1.0, -1.0), Reading(3, 2.0, -1.0, -1.0)];
    SettledLinks(p[0], p[1], 1);
    var q := p[0 := Settled(p[0], p[1], 1)];
    assert q[0] == Reading(1, 1.0, 3.0, 2.0);
    OnlyPair(q, 0, 1, raw);
    var r := q[1 := Settled(q[1], q[2], 1)];
    assert r[1] == Reading(2, 2.0, 1.0, 0.0);
    assert Measured(r, 0) && Measured(r, 1);
  }
}
