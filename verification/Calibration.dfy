/** The two calibration loops: BENCH_INNER of bench.h and the timing intervals of a single child of
    lib_timing.c. Both look for an iteration count that takes about `enough` microseconds. */
module Calibration {
  import opened BitReversal
  import opened Reals
  import opened Results

  /** The iteration count above which calibration gives up: 2 to the 27th. */
  const GIVE_UP: nat := 0x800_0000

  /** time(k, n) is what the clock shows for the k-th run, of n iterations: d microseconds each, less
      up to one microsecond. floor(c * n) is such a clock, and so is one from which an overhead per
      iteration has been subtracted. */
  ghost predicate Linear(time: (nat, nat) -> real, d: real) {
    forall k: nat, n: nat :: Reading(time(k, n), n, d)
  }

  ghost predicate Reading(result: real, n: nat, d: real) {
    d * n as real - 1.0 < result <= d * n as real
  }

  /** n iterations take more than 1.1 times `enough`. */
  ghost predicate Ample(n: nat, enough: nat, d: real) {
    n > 0 && d * n as real > 1.1 * enough as real
  }

  lemma AmpleIsEnough(result: real, n: nat, enough: nat, d: real)
    requires Ample(n, enough, d) && Reading(result, n, d) && enough > 150
    ensures result > 1.09 * enough as real
  {
  }

  lemma FloorIsLinear(c: real)
    ensures Linear((k: nat, n: nat) => (c * n as real).Floor as real, c)
  {
    var time := (k: nat, n: nat) => (c * n as real).Floor as real;
    forall k: nat, n: nat
      ensures Reading(time(k, n), n, c)
    {
    }
  }

  /** The count that would have taken 1.1 times `enough`, judging by this run, rounded up past it. */
  function Rescaled(n: nat, result: real, enough: nat): nat
    requires result > 150.0
  {
    var tmp := n as real / result * (1.1 * enough as real);
    RescaledPositive(n, result, enough);
    (tmp + 1.0).Floor
  }

  lemma RescaledPositive(n: nat, result: real, enough: nat)
    requires result > 150.0
    ensures n as real / result * (1.1 * enough as real) >= 0.0
  {
    var q := Divided(n as real, result);
    MulNonNegative(q, 1.1 * enough as real);
  }

  /** One rescaling is enough: the new count takes more than 1.1 times `enough`. */
  lemma RescaledReaches(n: nat, result: real, enough: nat, d: real)
    requires 150.0 < result && Reading(result, n, d)
    ensures Ample(Rescaled(n, result, enough), enough, d)
  {
    var goal := 1.1 * enough as real;
    var q := Divided(n as real, result);
    RescaledPositive(n, result, enough);
    var tmp := q * goal;
    var next := Rescaled(n, result, enough);
    assert next as real > tmp;
    if d <= 0.0 { MulMonotone(d, 0.0, n as real); }
    var each := d * q;
    assert each * result == d * n as real by { MulThree(d, q, result); }
    if each < 1.0 { MulStrictly(each, 1.0, result); }
    MulMonotone(1.0, each, goal);
    MulThree(d, q, goal);
    MulStrictly(tmp, next as real, d);
    Commute(next as real, d);
    Commute(tmp, d);
  }

  /** The run that ends the loop keeps its count exactly when it lies in the band, or when it is too
      long and the count too small for the correction to show. */
  predicate InBand(result: real, enough: nat) {
    0.99 * enough as real <= result <= 1.2 * enough as real
  }

  /** __iterations after a run. */
  function NextCount(n: nat, result: real, enough: nat): nat {
    if InBand(result, enough) then n
    else if result > 150.0 then Rescaled(n, result, enough)
    else 8 * n
  }

  /** BENCH_INNER reports NextCount of the run it measured: this is the measured count if and only if
      the run lies in the band, or is too long while n is so small that the correction rounds away. */
  lemma ReportsMeasured(n: nat, result: real, enough: nat)
    requires n > 0 && enough > 0 && result >= 0.95 * enough as real
    ensures NextCount(n, result, enough) == n <==>
            InBand(result, enough)
            || (result > 1.2 * enough as real && result > 150.0
                && n as real * (result - 1.1 * enough as real) <= result)
  {
    if !InBand(result, enough) && result > 150.0 {
      if result < 0.99 * enough as real {
        ShortGrows(n, result, enough);
      } else {
        LongKeeps(n, result, enough);
      }
    }
  }

  lemma ShortGrows(n: nat, result: real, enough: nat)
    requires n > 0 && 150.0 < result < 1.1 * enough as real
    ensures Rescaled(n, result, enough) > n
  {
    var q := Divided(n as real, result);
    if q <= 0.0 { MulMonotone(q, 0.0, result); }
    MulStrictly(result, 1.1 * enough as real, q);
    Commute(result, q);
    Commute(1.1 * enough as real, q);
  }

  lemma LongKeeps(n: nat, result: real, enough: nat)
    requires n > 0 && result > 150.0 && result > 1.1 * enough as real
    ensures Rescaled(n, result, enough) == n <==> n as real * (result - 1.1 * enough as real) <= result
  {
    var goal := 1.1 * enough as real;
    var q := Divided(n as real, result);
    if q <= 0.0 { MulMonotone(q, 0.0, result); }
    MulStrictly(goal, result, q);
    Commute(result, q);
    Commute(goal, q);
    var tmp := q * goal;
    RescaledPositive(n, result, enough);
    Expand(n as real, q, result, goal);
    SameSign(n as real - tmp - 1.0, result, n as real * (result - goal) - result);
  }

  lemma Expand(n: real, q: real, result: real, goal: real)
    requires q * result == n
    ensures n * (result - goal) - result == (n - q * goal - 1.0) * result
  {
    assert q * goal * result == n * goal by {
      MulThree(q, goal, result);
      Commute(goal, result);
      MulThree(q, result, goal);
    }
  }

  /** A count that is reported though another was measured: 100 iterations that take 1.25 times
      `enough` are reported as 89. */
  lemma ReportsAnother()
    ensures NextCount(100, 1250.0, 1000) == 89
  {
    assert 100.0 / 1250.0 * (1.1 * 1000.0) == 88.0;
  }

  /** BENCH_INNER(loop_body, enough), whatever the static __iterations is when it starts. The loop ends
      after at most twelve runs, with a run of at least 0.95 * enough or by giving up: then the last
      run, of more than 2^27 iterations, took at most 150 microseconds, and no run of up to 2^27 iterations
      can take 151. `n` is the count the last run measured. */
  method BenchInner(enough: int, iterations: nat, time: (nat, nat) -> real, ghost d: real)
    returns (saved: nat, result: real, n: nat, runs: nat)
    requires iterations > 0 && Linear(time, d)
    ensures runs <= 12 && (runs == 0 <==> enough <= 0)
    ensures runs > 0 ==> n > 0
    ensures result >= 0.95 * enough as real && runs > 0 ==>
              result == time(runs - 1, n) && saved == NextCount(n, result, enough)
    ensures result < 0.95 * enough as real ==>
              result == 0.0 && saved == n > GIVE_UP && time(runs - 1, n) <= 150.0
              && forall k: nat, m: nat :: m <= GIVE_UP ==> time(k, m) < 151.0
  {
    saved, result, n, runs := iterations, 0.0, 0, 0;
    ghost var ample := false;
    while result < 0.95 * enough as real
      invariant saved > 0 && (runs > 0 ==> n > 0 && enough > 0)
      invariant runs == 0 ==> result == 0.0
      invariant result < 0.95 * enough as real && !ample ==> runs <= 10 && Pow2(3 * runs) <= saved
      invariant result < 0.95 * enough as real && ample ==> runs <= 11 && enough > 150 && Ample(saved, enough, d)
      invariant result >= 0.95 * enough as real && runs > 0 ==>
                  runs <= 12 && result == time(runs - 1, n) && saved == NextCount(n, result, enough)
      decreases 12 - runs
    {
      n := saved;
      result := time(runs, n);
      runs := runs + 1;
      assert Reading(result, n, d);
      if ample { AmpleIsEnough(result, n, enough, d); }
      if result < 0.99 * enough as real || result > 1.2 * enough as real {
        if result > 150.0 {
          ample := true;
          RescaledReaches(n, result, enough, d);
          saved := Rescaled(n, result, enough);
        } else {
          if saved > GIVE_UP {
            NeverLong(time, d, n, result);
            result := 0.0;
            break;
          }
          FewShifts(runs - 1, saved);
          NextPower(runs - 1, saved);
          saved := 8 * saved;
        }
      }
    }
  }

  /** A count above 2^27 that takes at most 150 microseconds bounds the time of all smaller ones. */
  lemma NeverLong(time: (nat, nat) -> real, d: real, n: nat, result: real)
    requires Linear(time, d) && n > GIVE_UP && Reading(result, n, d) && result <= 150.0
    ensures forall k: nat, m: nat :: m <= GIVE_UP ==> time(k, m) < 151.0
  {
    forall k: nat, m: nat | m <= GIVE_UP
      ensures time(k, m) < 151.0
    {
      assert Reading(time(k, m), m, d);
      if d >= 0.0 {
        MulMonotone(m as real, n as real, d);
        Commute(m as real, d);
        Commute(n as real, d);
      } else {
        MulMonotone(d, 0.0, m as real);
      }
    }
  }

  lemma {:induction false} Pow2Mono(a: nat, b: nat)
    requires a <= b
    ensures Pow2(a) <= Pow2(b)
    decreases b
  {
    if a < b { Pow2Mono(a, b - 1); }
  }

  lemma NextPower(k: nat, count: nat)
    requires Pow2(3 * k) <= count
    ensures Pow2(3 * (k + 1)) <= 8 * count
  {
    assert Pow2(3 * k + 3) == 8 * Pow2(3 * k) by {
      assert Pow2(3 * k + 2) == 2 * Pow2(3 * k + 1);
    }
  }

  /** A count that has grown eightfold k times and is not past 2^27. */
  lemma FewShifts(k: nat, count: nat)
    requires Pow2(3 * k) <= count <= GIVE_UP
    ensures k <= 9
  {
    assert Pow2(28) == 2 * GIVE_UP by {
      assert Pow2(7) == 128;
      Pow2Add(7, 7);
      Pow2Add(14, 14);
    }
    if k > 9 { Pow2Mono(28, 3 * k); }
  }

  // ----- the timing intervals of a child

  /** The time saved: whole microseconds, and 0 for a time that the overheads have made negative. */
  function Recorded(result: real): nat {
    if result >= 0.0 then result.Floor else 0
  }

  /** The child gives up looking for a count. */
  predicate TooFast(result: real, next: nat) {
    result <= 150.0 && (next > GIVE_UP || (result < 0.0 && next > 0x10_0000))
  }

  /** The fields of benchmp_child_state that a timing interval reads and writes. */
  class Child {
    const enough: nat
    const parallel: nat
    const repetitions: nat
    var cooldown: bool
    var iterations: nat
    var i: nat
    var r: seq<Sample>

    constructor (enough: nat, parallel: nat, repetitions: nat, iterations: nat)
      ensures this.enough == enough && this.parallel == parallel && this.repetitions == repetitions
      ensures this.iterations == iterations && !cooldown && i == 0 && r == []
    {
      this.enough, this.parallel, this.repetitions := enough, parallel, repetitions;
      this.iterations, cooldown, i, r := iterations, false, 0, [];
    }

    /** case timing_interval of benchmp_interval, after a batch that took `result` microseconds. */
    method TimingInterval(result: real) returns (stored: bool)
      requires !cooldown
      modifies this
      ensures stored <==> parallel > 1 || result > 0.95 * enough as real
      ensures i == old(i) + (if stored then 1 else 0)
      ensures r == if stored then Inserted(Sample(Recorded(result), old(iterations)), old(r)) else old(r)
      ensures iterations == if parallel == 1 then NextCount(old(iterations), result, enough) else old(iterations)
      ensures cooldown <==> (stored && i >= repetitions)
                            || (parallel == 1 && !InBand(result, enough) && TooFast(result, iterations))
    {
      stored := parallel > 1 || result > 0.95 * enough as real;
      if stored {
        r := Inserted(Sample(Recorded(result), iterations), r);
        i := i + 1;
        if i >= repetitions { cooldown := true; }
      }
      if parallel == 1 && (result < 0.99 * enough as real || result > 1.2 * enough as real) {
        if result > 150.0 {
          iterations := Rescaled(iterations, result, enough);
        } else {
          iterations := 8 * iterations;
          if iterations > GIVE_UP || (result < 0.0 && iterations > 0x10_0000) {
            cooldown := true;
          }
        }
      }
    }
  }

  /** n iterations take at least 0.99 times `enough`. */
  ghost predicate Steady(n: nat, enough: nat, d: real) {
    n > 0 && d * n as real >= 0.99 * enough as real
  }

  lemma SteadyStores(result: real, n: nat, enough: nat, d: real)
    requires enough >= 160 && Steady(n, enough, d) && Reading(result, n, d)
    ensures result > 150.0 && result > 0.95 * enough as real
  {
  }

  /** The first run above 150 microseconds settles the matter. */
  lemma BecomesSteady(result: real, n: nat, enough: nat, d: real)
    requires n > 0 && result > 150.0 && Reading(result, n, d)
    ensures Steady(NextCount(n, result, enough), enough, d)
  {
    if !InBand(result, enough) { RescaledReaches(n, result, enough, d); }
  }

  ghost predicate LongEnough(taken: seq<Sample>, enough: nat) {
    forall k :: 0 <= k < |taken| ==> taken[k].u >= (0.95 * enough as real).Floor && taken[k].n > 0
  }

  /** The samples a repetition count asks for: i is compared only after a sample is stored. */
  function Wanted(repetitions: nat): nat {
    if repetitions == 0 then 1 else repetitions
  }

  /** The timing intervals of the only child, until it goes to cooldown: it gets there within
      Wanted(repetitions) + 10 intervals, with exactly the samples wanted, all of them long enough,
      or with none after giving up. */
  method CalibrateChild(child: Child, time: (nat, nat) -> real, ghost d: real)
    returns (intervals: nat, ghost taken: seq<Sample>)
    requires child.parallel == 1 && child.enough >= 160 && child.iterations > 0 && Linear(time, d)
    requires !child.cooldown && child.i == 0
    modifies child
    ensures child.cooldown && intervals <= Wanted(child.repetitions) + 10
    ensures child.r == InsertedAll(taken, old(child.r)) && |taken| == child.i && LongEnough(taken, child.enough)
    ensures child.i == Wanted(child.repetitions) || (child.i == 0 && child.iterations > 0x10_0000)
  {
    intervals, taken := 0, [];
    ghost var steady := false;
    while !child.cooldown
      invariant child.iterations > 0 && |taken| == child.i && LongEnough(taken, child.enough)
      invariant child.r == InsertedAll(taken, old(child.r))
      invariant !steady ==> child.i == 0 && Pow2(3 * intervals) <= child.iterations && intervals <= 10
      invariant !steady && !child.cooldown ==> intervals <= 9
      invariant !steady && child.cooldown ==> child.iterations > 0x10_0000
      invariant steady ==> Steady(child.iterations, child.enough, d) && intervals <= child.i + 10
      invariant steady ==>
                  if child.cooldown then child.i == Wanted(child.repetitions) else child.i < Wanted(child.repetitions)
      decreases Wanted(child.repetitions) + 10 - intervals, !child.cooldown
    {
      var n := child.iterations;
      var result := time(intervals, n);
      assert Reading(result, n, d);
      if steady { SteadyStores(result, n, child.enough, d); }
      if result > 150.0 { BecomesSteady(result, n, child.enough, d); } else { NextPower(intervals, n); }
      var stored := child.TimingInterval(result);
      if stored {
        InsertedAllAppend(taken, Sample(Recorded(result), n), old(child.r));
        taken := taken + [Sample(Recorded(result), n)];
      }
      steady := result > 150.0;
      intervals := intervals + 1;
      if !steady && child.iterations <= GIVE_UP { FewShifts(intervals, child.iterations); }
    }
  }
}
