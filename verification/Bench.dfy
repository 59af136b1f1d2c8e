/** The benchmark loops behind every measurement. What a run shows on the clock may depend on how
    many runs there were before and on everything in memory. */
module Benchmarks {
  import opened Chains

  /** One run: the buffer, its contents while the benchmark followed pointers, the chain it followed,
      the last page on that chain, and the time it took. */
  datatype Run = Run(at: array<int>, mem: seq<int>, order: seq<int>, page: int, time: real)

  class Bench {
    const sample: (nat, seq<int>) -> real
    var calls: nat
    ghost var log: seq<Run>

    constructor (sample: (nat, seq<int>) -> real)
      ensures Valid() && log == [] && this.sample == sample
    {
      this.sample, calls, log := sample, 0, [];
    }

    /** Every run so far was on a single cycle, and took the time the clock showed. */
    ghost predicate Valid()
      reads this
    {
      |log| == calls && forall k :: 0 <= k < |log| ==> Sound(k, log[k])
    }

    ghost predicate Sound(k: nat, run: Run) {
      run.time == sample(k, run.mem) && IsCycle(run.mem, run.order)
    }

    /** The benchmark follows the chain `order` in mem. */
    method Go(mem: array<int>, ghost order: seq<int>, ghost page: int) returns (t: real)
      requires Valid() && IsCycle(mem[..], order)
      modifies this
      ensures Valid() && log == old(log) + [Run(mem, mem[..], order, page, t)]
    {
      t := sample(calls, mem[..]);
      log := log + [Run(mem, mem[..], order, page, t)];
      calls := calls + 1;
    }
  }

  /** after is before and one more run. */
  ghost predicate OneMore(before: seq<Run>, after: seq<Run>) {
    |after| == |before| + 1 && after[..|before|] == before
  }
}
