/** test_chunk and collect_sample of cache.c: where in the page list exchanges are worth trying. */
module ChunkTesting {
  import opened Arith
  import opened Benchmarks
  import opened MemStates
  import opened Measuring
  import opened Swaps
  import opened CachePages
  import opened ChunkFixing

  /** A baseline that was accepted is lower, as long as latencies are positive at all. */
  ghost predicate Improved(baseline: real, newBaseline: real) {
    if baseline > 0.0 then newBaseline < baseline else newBaseline <= 0.0
  }

  /** Some run since `from` took time t. */
  ghost predicate Took(log: seq<Run>, from: nat, t: real) {
    exists k :: from <= k < |log| && log[k].time == t
  }

  /** The baseline is as it was, or better and measured since. */
  ghost predicate Progress(modified: bool, baseline: real, newBaseline: real, log: seq<Run>, from: nat) {
    if modified then Improved(baseline, newBaseline) && Took(log, from, newBaseline) else newBaseline == baseline
  }

  lemma ProgressLonger(modified: bool, baseline: real, t: real, log: seq<Run>, log': seq<Run>, from: nat)
    requires Progress(modified, baseline, t, log, from) && log <= log'
    ensures Progress(modified, baseline, t, log', from)
  {
    if modified {
      var k :| from <= k < |log| && log[k].time == t;
      assert log'[k] == log[k];
    }
  }

  /** test_chunk: the page list stays a rearrangement, and a change that is reported has lowered the
      baseline to a time that was measured. */
  method TestChunk(bench: Bench, state: MemState, i: nat, chunk: nat, npages: nat, len: nat, baseline: real,
                   chunkBaseline: real, available: nat)
    returns (modified: bool, newBaseline: real, newAvailable: nat)
    requires bench.Valid() && CacheValid(state) && 0 < chunk && i + chunk <= npages && 1 < npages
    requires npages + 2 <= state.pages.Length
    requires SizeOk(len, state.pagesize, state.line, state.pages.Length) && PageCount(len, state.pagesize) == npages
    modifies bench, state.pages, state.mem
    ensures bench.Valid() && CacheValid(state) && Rearranged(old(state.pages[..]), state.pages[..])
    ensures old(bench.log) <= bench.log
    ensures Progress(modified, baseline, newBaseline, bench.log, |old(bench.log)|)
    decreases chunk
  {
    if chunk <= 20 && chunk < npages {
      modified, newBaseline, newAvailable :=
        FixOneChunk(bench, state, i, chunk, npages, len, baseline, chunkBaseline, available);
      return;
    }
    ghost var from := |bench.log|;
    var nodiff := baseline;
    newBaseline, newAvailable, modified := baseline, available, false;
    var subchunk := (chunk + 19) / 20;
    var j := i;
    while j < i + chunk
      invariant i <= j && 0 < subchunk < chunk
      invariant bench.Valid() && CacheValid(state) && Rearranged(old(state.pages[..]), state.pages[..])
      invariant old(bench.log) <= bench.log
      invariant Progress(modified, baseline, newBaseline, bench.log, from)
      decreases i + chunk - j
    {
      if j + subchunk > i + chunk { subchunk := i + chunk - j; }
      ghost var log := bench.log;
      var promising, t := ProbeChunk(bench, state, j, subchunk, npages, len, newBaseline, nodiff);
      ProgressLonger(modified, baseline, newBaseline, log, bench.log, from);
      if promising {
        log := bench.log;
        ghost var before := newBaseline;
        var changed;
        changed, newBaseline, newAvailable :=
          TestChunk(bench, state, j, subchunk, npages, len, newBaseline, t, newAvailable);
        ProgressTwice(modified, changed, baseline, before, newBaseline, log, bench.log, from);
        if changed { modified := true; } else { nodiff := t; }
      }
      j := j + subchunk;
    }
  }

  lemma ProgressTwice(modified: bool, changed: bool, baseline: real, t: real, t': real, log: seq<Run>, log': seq<Run>,
                      from: nat)
    requires from <= |log| && log <= log' && Progress(modified, baseline, t, log, from)
    requires Progress(changed, t, t', log', |log|)
    ensures Progress(modified || changed, baseline, t', log', from)
  {
    if changed {
      var k :| |log| <= k < |log'| && log'[k].time == t';
      assert Took(log', from, t');
    } else {
      ProgressLonger(modified, baseline, t, log, log', from);
    }
  }

  /** A chunk of at most twenty pages goes to fixup_chunk. */
  method FixOneChunk(bench: Bench, state: MemState, i: nat, chunk: nat, npages: nat, len: nat, baseline: real,
                     chunkBaseline: real, available: nat)
    returns (modified: bool, newBaseline: real, newAvailable: nat)
    requires bench.Valid() && CacheValid(state) && 0 < chunk <= 20 && i + chunk <= npages
    requires npages + 2 <= state.pages.Length
    requires SizeOk(len, state.pagesize, state.line, state.pages.Length) && PageCount(len, state.pagesize) == npages
    modifies bench, state.pages, state.mem
    ensures bench.Valid() && CacheValid(state) && Rearranged(old(state.pages[..]), state.pages[..])
    ensures old(bench.log) <= bench.log
    ensures Progress(modified, baseline, newBaseline, bench.log, |old(bench.log)|)
  {
    var r;
    ghost var log;
    r, log := FixupChunk(bench, state, i, chunk, npages, len, baseline, chunkBaseline, available);
    modified, newBaseline, newAvailable := r.swapped > 0, r.baseline, r.available;
    if modified { assert bench.log[|log.runs|].time == newBaseline; }
  }

  /** Taking the chunk out is measured, and if that looks good measured again; t is the larger time.
      The chunk is promising if both times are low enough. */
  method ProbeChunk(bench: Bench, state: MemState, j: nat, subchunk: nat, npages: nat, len: nat, baseline: real,
                    nodiff: real) returns (promising: bool, t: real)
    requires bench.Valid() && CacheValid(state) && j + subchunk <= npages && subchunk < npages
    requires SizeOk(len, state.pagesize, state.line, state.pages.Length) && PageCount(len, state.pagesize) == npages
    modifies bench, state.pages, state.mem
    ensures bench.Valid() && CacheValid(state) && state.pages[..] == old(state.pages[..])
    ensures old(bench.log) <= bench.log
    ensures var n := |old(bench.log)|;
            if promising then |bench.log| == n + 2 && t == Larger(bench.log[n].time, bench.log[n + 1].time)
                              && Low(t, baseline, nodiff)
            else exists k :: n <= k < |bench.log| && !Low(bench.log[k].time, baseline, nodiff)
  {
    ghost var log := bench.log;
    t := TimeWithout(bench, state, j, subchunk, npages, len);
    promising := Low(t, baseline, nodiff);
    if promising {
      ghost var log' := bench.log;
      var tt := TimeWithout(bench, state, j, subchunk, npages, len);
      TwoMore(log, log', bench.log);
      t := Larger(t, tt);
      promising := Low(t, baseline, nodiff);
    }
  }

  lemma TwoMore(log: seq<Run>, log': seq<Run>, log'': seq<Run>)
    requires OneMore(log, log') && OneMore(log', log'')
    ensures log <= log'' && |log''| == |log| + 2 && log''[|log|] == log'[|log|]
  {
    assert log''[..|log'|] == log';
  }

  method TimeWithout(bench: Bench, state: MemState, j: nat, subchunk: nat, npages: nat, len: nat) returns (t: real)
    requires bench.Valid() && CacheValid(state) && j + subchunk <= npages && subchunk < npages
    requires SizeOk(len, state.pagesize, state.line, state.pages.Length) && PageCount(len, state.pagesize) == npages
    modifies bench, state.pages, state.mem
    ensures bench.Valid() && CacheValid(state) && state.pages[..] == old(state.pages[..])
    ensures OneMore(old(bench.log), bench.log) && bench.log[|old(bench.log)|].time == t
  {
    t := RemoveChunk(bench, state, j, subchunk, npages, len);
  }

  /** Low enough against the baseline and against the last time that made no difference. */
  predicate Low(t: real, baseline: real, nodiff: real) {
    t < 0.99 * baseline && t < 0.999 * nodiff
  }

  function Larger(t: real, tt: real): real {
    if tt > t then tt else t
  }

  /** collect_sample: the latency of len bytes after up to eight rounds of page exchanges is a time that
      was measured, and the page list stays a rearrangement. */
  method CollectSample(bench: Bench, state: MemState, len: nat, available: nat)
    returns (latency: real, newAvailable: nat)
    requires bench.Valid() && CacheValid(state) && SizeOk(len, state.pagesize, state.line, state.pages.Length)
    requires PageCount(len, state.pagesize) + 2 <= state.pages.Length
    modifies bench, state.pages, state.mem
    ensures bench.Valid() && CacheValid(state) && Rearranged(old(state.pages[..]), state.pages[..])
    ensures old(bench.log) < bench.log && Took(bench.log, |old(bench.log)|, latency)
  {
    ghost var from := |bench.log|;
    var npages := PageCount(len, state.pagesize);
    newAvailable := available;
    latency := MeasureUpTo(bench, state, len, npages);
    assert bench.log[from].time == latency;
    if npages > 1 {
      var i, modified := 0, true;
      while i < 8 && modified
        invariant bench.Valid() && CacheValid(state) && Rearranged(old(state.pages[..]), state.pages[..])
        invariant old(bench.log) < bench.log && Took(bench.log, from, latency)
      {
        modified, latency, newAvailable := ImproveList(bench, state, npages, len, latency, newAvailable, from);
        i := i + 1;
      }
    }
  }

  /** One round over the whole list. */
  method ImproveList(bench: Bench, state: MemState, npages: nat, len: nat, latency: real, available: nat,
                     ghost from: nat) returns (modified: bool, newLatency: real, newAvailable: nat)
    requires bench.Valid() && CacheValid(state) && 1 < npages && npages + 2 <= state.pages.Length
    requires SizeOk(len, state.pagesize, state.line, state.pages.Length) && PageCount(len, state.pagesize) == npages
    requires from <= |bench.log| && Took(bench.log, from, latency)
    modifies bench, state.pages, state.mem
    ensures bench.Valid() && CacheValid(state) && Rearranged(old(state.pages[..]), state.pages[..])
    ensures old(bench.log) <= bench.log && Took(bench.log, from, newLatency)
  {
    ghost var log := bench.log;
    modified, newLatency, newAvailable := TestChunk(bench, state, 0, npages, npages, len, latency, 0.0, available);
    TookLonger(log, bench.log, from, latency);
    if modified { TookSince(bench.log, from, |log|, newLatency); }
  }

  lemma TookLonger(log: seq<Run>, log': seq<Run>, from: nat, t: real)
    requires log <= log' && Took(log, from, t)
    ensures Took(log', from, t)
  {
    var k :| from <= k < |log| && log[k].time == t;
    assert log'[k] == log[k];
  }

  lemma TookSince(log: seq<Run>, from: nat, later: nat, t: real)
    requires from <= later && Took(log, later, t)
    ensures Took(log, from, t)
  {
  }
}
