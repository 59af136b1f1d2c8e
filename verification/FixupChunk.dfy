/** fixup_chunk of cache.c: the pages of a chunk are measured one at a time, the costly ones are
    exchanged for spare pages, and changes that do not pay are backed out. */
module ChunkFixing {
  import opened Arith
  import opened Benchmarks
  import opened Chains
  import opened Layouts
  import opened MemStates
  import opened Measuring
  import opened Swaps
  import opened CachePages
  import opened PageSorting

  // ----- what the runs say of a page

  /** The last run of h that ended on the page took time t. */
  ghost predicate Latest(h: seq<Run>, page: int, t: real) {
    h != [] && if h[|h| - 1].page == page then h[|h| - 1].time == t else Latest(h[..|h| - 1], page, t)
  }

  lemma LatestNext(h: seq<Run>, run: Run, page: int, t: real)
    ensures Latest(h + [run], page, t) <==> if run.page == page then run.time == t else Latest(h, page, t)
  {
    assert (h + [run])[..|h|] == h;
  }

  lemma {:induction false} LatestIsRun(h: seq<Run>, page: int, t: real) returns (k: nat)
    requires Latest(h, page, t)
    ensures k < |h| && h[k].page == page && h[k].time == t
  {
    k := |h| - 1;
    if h[k].page != page { k := LatestIsRun(h[..k], page, t); }
  }

  /** The runs since `from`, but for run number `bar` if that is one of them. */
  ghost function History(log: seq<Run>, from: nat, bar: int): seq<Run>
    requires from <= |log|
  {
    if from <= bar < |log| then log[from..bar] + log[bar + 1..] else log[from..]
  }

  lemma HistoryNext(log: seq<Run>, log': seq<Run>, from: nat, bar: int)
    requires from <= |log| && OneMore(log, log') && bar < |log|
    ensures History(log', from, bar) == History(log, from, bar) + [log'[|log|]]
  {
    var run := log'[|log|];
    assert log' == log + [run];
  }

  /** Latency m is what the last run that ended on the page in slot m of the window w took. */
  ghost predicate Recorded(w: seq<int>, lat: seq<real>, h: seq<Run>, lo: nat, hi: nat) {
    hi <= |lat| && hi <= |w| && forall m :: lo <= m < hi ==> Latest(h, w[m], lat[m])
  }

  /** A run on some other page changes nothing. */
  lemma RecordedOther(w: seq<int>, lat: seq<real>, h: seq<Run>, run: Run, lo: nat, hi: nat)
    requires Recorded(w, lat, h, lo, hi) && forall m :: lo <= m < hi ==> w[m] != run.page
    ensures Recorded(w, lat, h + [run], lo, hi)
  {
    forall m | lo <= m < hi
      ensures Latest(h + [run], w[m], lat[m])
    {
      LatestNext(h, run, w[m], lat[m]);
    }
  }

  lemma SortKeepsRecorded(p: seq<int>, l: seq<real>, p': seq<int>, l': seq<real>, base: nat, lo: nat, hi: nat,
                          h: seq<Run>)
    requires |l| == |l'| && |p| == |p'| && lo <= hi <= |l| && base + hi <= |p|
    requires SortKeeps(p, l, p', l', base, lo, hi) && Recorded(Window(p, base, hi), l, h, 0, hi)
    ensures Recorded(Window(p', base, hi), l', h, 0, hi)
  {
    var w, w' := Window(p, base, hi), Window(p', base, hi);
    forall m | 0 <= m < hi
      ensures Latest(h, w'[m], l'[m])
    {
      if m < lo {
        assert p'[base + m] == p'[..base + lo][base + m] && l'[m] == l'[..lo][m];
        assert p[base + m] == p[..base + lo][base + m] && l[m] == l[..lo][m];
        assert w[m] == w'[m];
      } else {
        var s, s' := Pairs(p, base, l, lo, hi), Pairs(p', base, l', lo, hi);
        var k := RearrangedFrom(s, s', m - lo);
        assert s[k] == (w[lo + k], l[lo + k]) && s'[m - lo] == (w'[m], l'[m]);
      }
    }
  }

  /** The page is worth keeping. */
  predicate Keeps(latency: real, chunkBaseline: real) {
    0.995 * latency <= chunkBaseline
  }

  ghost predicate AllKept(lat: seq<real>, chunkBaseline: real, n: nat) {
    n <= |lat| && forall m :: 0 <= m < n ==> Keeps(lat[m], chunkBaseline)
  }

  lemma SamePrefixKept(lat: seq<real>, lat': seq<real>, j: nat, chunkBaseline: real)
    requires j <= |lat| && j <= |lat'| && lat[..j] == lat'[..j]
    ensures AllKept(lat, chunkBaseline, j) ==> AllKept(lat', chunkBaseline, j)
  {
    assert forall m :: 0 <= m < j ==> lat'[m] == lat'[..j][m] == lat[..j][m] == lat[m];
  }

  /** The slots of the chunk that starts at base. */
  ghost function Window(p: seq<int>, base: nat, chunk: nat): (w: seq<int>)
    requires base + chunk <= |p|
    ensures |w| == chunk
  {
    p[base..base + chunk]
  }

  lemma WindowSwapped(p: seq<int>, base: nat, chunk: nat, a: nat, b: nat)
    requires base + chunk <= |p| && a < chunk && b < chunk
    ensures Window(Swapped(p, base + a, base + b), base, chunk) == Swapped(Window(p, base, chunk), a, b)
  {
  }

  lemma WindowDistinct(state: MemState, base: nat, chunk: nat)
    requires CacheValid(state) && base + chunk <= state.pages.Length
    ensures Distinct(Window(state.pages[..], base, chunk))
  {
    PagesDistinct(state);
  }

  lemma SpareNotInWindow(state: MemState, base: nat, chunk: nat, spare: nat)
    requires CacheValid(state) && base + chunk <= spare < state.pages.Length
    ensures forall m :: 0 <= m < chunk ==> Window(state.pages[..], base, chunk)[m] != state.pages[spare]
  {
    PagesDistinct(state);
    var p := state.pages[..];
    forall m | 0 <= m < chunk
      ensures Window(p, base, chunk)[m] != p[spare]
    {
      assert p[base + m] != p[spare];
    }
  }

  /** Exchanges behind the first `base` slots. */
  lemma FrontSwapped(s: seq<int>, a: nat, b: nat, base: nat)
    requires base <= a < |s| && base <= b < |s|
    ensures Swapped(s, a, b)[..base] == s[..base]
  {
  }

  // ----- one measurement

  /** The n pages in front of the list are measured: the run ends on page n - 1. */
  method MeasurePages(bench: Bench, state: MemState, n: nat) returns (t: real)
    requires bench.Valid() && CacheValid(state) && 0 < n <= state.pages.Length
    modifies bench, state.mem
    ensures bench.Valid() && CacheValid(state) && OneMore(old(bench.log), bench.log)
    ensures var run := bench.log[|old(bench.log)|]; run.page == state.pages[n - 1] && run.time == t
  {
    WholePagesOk(state.pagesize, state.line, state.pages.Length, n);
    t := MeasureUpTo(bench, state, WholePages(n, state.pagesize), n);
  }

  method MeasureUpTo(bench: Bench, state: MemState, size: nat, ghost n: nat) returns (t: real)
    requires bench.Valid() && CacheValid(state) && 0 < n <= state.pages.Length
    requires SizeOk(size, state.pagesize, state.line, state.pages.Length) && PageCount(size, state.pagesize) == n
    modifies bench, state.mem
    ensures bench.Valid() && CacheValid(state) && OneMore(old(bench.log), bench.log)
    ensures var run := bench.log[|old(bench.log)|]; run.page == state.pages[n - 1] && run.time == t
  {
    t := Measure(bench, state, size);
  }

  /** A measurement with the spare page in the slot `original`, the last one of the size. */
  method MeasureSpare(bench: Bench, state: MemState, original: nat, spare: nat, size: nat) returns (t: real)
    requires bench.Valid() && CacheValid(state) && original < state.pages.Length && spare < state.pages.Length
    requires SizeOk(size, state.pagesize, state.line, state.pages.Length)
    requires PageCount(size, state.pagesize) == original + 1
    modifies bench, state.pages, state.mem
    ensures bench.Valid() && CacheValid(state) && state.pages[..] == old(state.pages[..])
    ensures OneMore(old(bench.log), bench.log)
    ensures var run := bench.log[|old(bench.log)|]; run.page == state.pages[spare] && run.time == t
  {
    SwappedTwice(state.pages[..], original, spare);
    SwapPages(state, original, spare);
    t := MeasureUpTo(bench, state, size, original + 1);
    SwapPages(state, original, spare);
  }

  // ----- the first loop

  /** The loop invariant of the partition: entries below j are kept, entries from k on are not. */
  ghost predicate Parted(w: seq<int>, lat: seq<real>, h: seq<Run>, j: nat, k: nat, chunkBaseline: real) {
    && j <= k <= |w| <= |lat|
    && AllKept(lat, chunkBaseline, j)
    && (forall m :: k <= m < |w| ==> !Keeps(lat[m], chunkBaseline))
    && Recorded(w, lat, h, 0, j) && Recorded(w, lat, h, k, |w|)
  }

  lemma PartedKeep(w: seq<int>, lat: seq<real>, h: seq<Run>, j: nat, k: nat, chunkBaseline: real, run: Run)
    requires Parted(w, lat, h, j, k, chunkBaseline) && j < k && Distinct(w) && run.page == w[j]
    requires Keeps(run.time, chunkBaseline)
    ensures Parted(w, lat[j := run.time], h + [run], j + 1, k, chunkBaseline)
  {
    RecordedOther(w, lat, h, run, 0, j);
    RecordedOther(w, lat, h, run, k, |w|);
    LatestNext(h, run, w[j], run.time);
  }

  lemma PartedDrop(w: seq<int>, lat: seq<real>, h: seq<Run>, j: nat, k: nat, chunkBaseline: real, run: Run)
    requires Parted(w, lat, h, j, k, chunkBaseline) && j < k && Distinct(w) && run.page == w[j]
    requires !Keeps(run.time, chunkBaseline)
    ensures Parted(Swapped(w, j, k - 1), lat[k - 1 := run.time], h + [run], j, k - 1, chunkBaseline)
  {
    RecordedOther(w, lat, h, run, 0, j);
    RecordedOther(w, lat, h, run, k, |w|);
    LatestNext(h, run, w[j], run.time);
  }

  /** How many of the runs pass the bar. */
  ghost function Passing(runs: seq<Run>, chunkBaseline: real): nat {
    if runs == [] then 0
    else Passing(runs[..|runs| - 1], chunkBaseline) + if Keeps(runs[|runs| - 1].time, chunkBaseline) then 1 else 0
  }

  lemma PassingNext(log: seq<Run>, log': seq<Run>, from: nat, chunkBaseline: real)
    requires from <= |log| && OneMore(log, log')
    ensures Passing(log'[from..], chunkBaseline) ==
            Passing(log[from..], chunkBaseline) + if Keeps(log'[|log|].time, chunkBaseline) then 1 else 0
  {
    var runs := log'[from..];
    assert runs[..|runs| - 1] == log'[..|log|][from..] == log[from..];
  }

  /** Pages that cost nothing move to the front of the chunk. Every page is measured exactly once, and
      those are kept whose run passes the bar. */
  method Partition(bench: Bench, state: MemState, base: nat, chunk: nat, chunkBaseline: real, latencies: array<real>)
    returns (kept: nat)
    requires bench.Valid() && CacheValid(state)
    requires 0 < chunk <= latencies.Length && base + chunk <= state.pages.Length
    modifies bench, state.pages, state.mem, latencies
    ensures bench.Valid() && CacheValid(state) && TailOnly(old(state.pages[..]), state.pages[..], base)
    ensures old(bench.log) <= bench.log && |bench.log| == |old(bench.log)| + chunk
    ensures kept == Passing(bench.log[|old(bench.log)|..], chunkBaseline)
    ensures Parted(Window(state.pages[..], base, chunk), latencies[..], History(bench.log, |old(bench.log)|, -1),
              kept, kept, chunkBaseline)
  {
    ghost var from := |bench.log|;
    var j, k := 0, chunk;
    while j < k
      invariant bench.Valid() && CacheValid(state) && TailOnly(old(state.pages[..]), state.pages[..], base)
      invariant old(bench.log) <= bench.log && |bench.log| == from + j + chunk - k
      invariant j == Passing(bench.log[from..], chunkBaseline)
      invariant Parted(Window(state.pages[..], base, chunk), latencies[..], History(bench.log, from, -1), j, k,
                  chunkBaseline)
      decreases k - j
    {
      ghost var log := bench.log;
      var keep := MeasurePage(bench, state, base, chunk, chunkBaseline, latencies, j, k, from);
      PassingNext(log, bench.log, from, chunkBaseline);
      if keep { j := j + 1; } else { k := k - 1; }
    }
    kept := j;
  }

  /** The body of the loop. */
  method MeasurePage(bench: Bench, state: MemState, base: nat, ghost chunk: nat, chunkBaseline: real,
                     latencies: array<real>, j: nat, k: nat, ghost from: nat) returns (keep: bool)
    requires bench.Valid() && CacheValid(state) && base + chunk <= state.pages.Length && j < k && from <= |bench.log|
    requires Parted(Window(state.pages[..], base, chunk), latencies[..], History(bench.log, from, -1), j, k,
               chunkBaseline)
    modifies bench, state.pages, state.mem, latencies
    ensures bench.Valid() && CacheValid(state) && TailOnly(old(state.pages[..]), state.pages[..], base)
    ensures OneMore(old(bench.log), bench.log)
    ensures keep <==> Keeps(bench.log[|old(bench.log)|].time, chunkBaseline)
    ensures Parted(Window(state.pages[..], base, chunk), latencies[..], History(bench.log, from, -1),
              if keep then j + 1 else j, if keep then k else k - 1, chunkBaseline)
  {
    ghost var h, log := History(bench.log, from, -1), bench.log;
    WindowDistinct(state, base, chunk);
    var t := MeasurePages(bench, state, base + j + 1);
    HistoryNext(log, bench.log, from, -1);
    keep := Keeps(t, chunkBaseline);
    if keep {
      KeepPage(Window(state.pages[..], base, chunk), chunkBaseline, latencies, j, k, t, h, bench.log[|log|]);
    } else {
      DropPage(state, base, chunk, chunkBaseline, latencies, j, k - 1, t, h, bench.log[|log|]);
    }
  }

  method KeepPage(ghost w: seq<int>, ghost chunkBaseline: real, latencies: array<real>, j: nat, ghost k: nat, t: real,
                  ghost h: seq<Run>, ghost run: Run)
    requires Parted(w, latencies[..], h, j, k, chunkBaseline) && j < k && Distinct(w)
    requires run.page == w[j] && run.time == t && Keeps(t, chunkBaseline)
    modifies latencies
    ensures Parted(w, latencies[..], h + [run], j + 1, k, chunkBaseline)
  {
    PartedKeep(w, latencies[..], h, j, k, chunkBaseline, run);
    latencies[j] := t;
    assert latencies[..] == old(latencies[..])[j := t];
  }

  method DropPage(state: MemState, base: nat, ghost chunk: nat, ghost chunkBaseline: real, latencies: array<real>,
                  j: nat, k: nat, t: real, ghost h: seq<Run>, ghost run: Run)
    requires CacheValid(state) && base + chunk <= state.pages.Length && j <= k < chunk
    requires Parted(Window(state.pages[..], base, chunk), latencies[..], h, j, k + 1, chunkBaseline)
    requires run.page == state.pages[base + j] && run.time == t && !Keeps(t, chunkBaseline)
    modifies state.pages, latencies
    ensures CacheValid(state) && TailOnly(old(state.pages[..]), state.pages[..], base)
    ensures Parted(Window(state.pages[..], base, chunk), latencies[..], h + [run], j, k, chunkBaseline)
  {
    ghost var p, lat := state.pages[..], latencies[..];
    WindowDistinct(state, base, chunk);
    DroppedPage(p, base, chunk, lat, h, j, k, chunkBaseline, run);
    FrontSwapped(p, base + j, base + k, base);
    ghost var p', lat' := Swapped(p, base + j, base + k), lat[k := t];
    assert Parted(Window(p', base, chunk), lat', h + [run], j, k, chunkBaseline);
    latencies[k] := t;
    assert latencies[..] == lat';
    SwapPages(state, base + j, base + k);
    assert state.pages[..] == p';
  }

  lemma DroppedPage(p: seq<int>, base: nat, chunk: nat, lat: seq<real>, h: seq<Run>, j: nat, k: nat,
                    chunkBaseline: real, run: Run)
    requires base + chunk <= |p| && Distinct(Window(p, base, chunk)) && j <= k < chunk
    requires Parted(Window(p, base, chunk), lat, h, j, k + 1, chunkBaseline)
    requires run.page == p[base + j] && !Keeps(run.time, chunkBaseline)
    ensures Parted(Window(Swapped(p, base + j, base + k), base, chunk), lat[k := run.time], h + [run], j, k,
              chunkBaseline)
  {
    var w := Window(p, base, chunk);
    assert w[j] == p[base + j];
    PartedDrop(w, lat, h, j, k + 1, chunkBaseline, run);
    WindowSwapped(p, base, chunk, j, k);
  }

  // ----- the second loop

  /** The spare page takes the place of the worst one; the measured latency goes with the page. */
  method TakeSpare(state: MemState, base: nat, chunk: nat, spare: nat, latencies: array<real>, j: nat, t: real,
                   ghost h: seq<Run>, ghost run: Run)
    requires CacheValid(state) && base + chunk <= spare < state.pages.Length
    requires j < chunk <= latencies.Length && Recorded(Window(state.pages[..], base, chunk), latencies[..], h, 0, chunk)
    requires run.page == state.pages[spare] && run.time == t
    modifies state.pages, latencies
    ensures CacheValid(state) && TailOnly(old(state.pages[..]), state.pages[..], base)
    ensures Increasing(latencies[..], j, chunk) && latencies[..j] == old(latencies[..j])
    ensures Recorded(Window(state.pages[..], base, chunk), latencies[..], h + [run], 0, chunk)
  {
    ghost var lat, p := latencies[..], state.pages[..];
    PlaceSpare(state, base, chunk, spare, latencies, t, h, run);
    ghost var p' := state.pages[..];
    assert latencies[..j] == lat[..j];
    SortChunk(state, base, chunk, latencies, j, h + [run]);
    TailTwice(p, p', state.pages[..], base);
  }

  lemma TailTwice(s: seq<int>, s': seq<int>, s'': seq<int>, base: nat)
    requires TailOnly(s, s', base) && TailOnly(s', s'', base)
    ensures TailOnly(s, s'', base)
  {
  }

  method PlaceSpare(state: MemState, base: nat, chunk: nat, spare: nat, latencies: array<real>, t: real,
                    ghost h: seq<Run>, ghost run: Run)
    requires CacheValid(state) && base + chunk <= spare < state.pages.Length
    requires 0 < chunk <= latencies.Length && Recorded(Window(state.pages[..], base, chunk), latencies[..], h, 0, chunk)
    requires run.page == state.pages[spare] && run.time == t
    modifies state.pages, latencies
    ensures CacheValid(state) && TailOnly(old(state.pages[..]), state.pages[..], base)
    ensures latencies[..] == old(latencies[..])[chunk - 1 := t]
    ensures Recorded(Window(state.pages[..], base, chunk), latencies[..], h + [run], 0, chunk)
  {
    ghost var p, lat := state.pages[..], latencies[..];
    SpareNotInWindow(state, base, chunk, spare);
    RecordedSwap(p, base, chunk, spare, lat, h, run);
    FrontSwapped(p, base + chunk - 1, spare, base);
    latencies[chunk - 1] := t;
    assert latencies[..] == lat[chunk - 1 := t];
    SwapPages(state, base + chunk - 1, spare);
  }

  lemma RecordedSwap(p: seq<int>, base: nat, chunk: nat, spare: nat, lat: seq<real>, h: seq<Run>, run: Run)
    requires 0 < chunk <= |lat| && base + chunk <= spare < |p| && run.page == p[spare]
    requires Recorded(Window(p, base, chunk), lat, h, 0, chunk)
    requires forall m :: 0 <= m < chunk ==> Window(p, base, chunk)[m] != p[spare]
    ensures Recorded(Window(Swapped(p, base + chunk - 1, spare), base, chunk), lat[chunk - 1 := run.time], h + [run],
              0, chunk)
  {
    var w, w' := Window(p, base, chunk), Window(Swapped(p, base + chunk - 1, spare), base, chunk);
    RecordedOther(w, lat, h, run, 0, chunk);
    LatestNext(h, run, run.page, run.time);
    assert w' == w[chunk - 1 := run.page];
  }

  /** The pages not kept are sorted by their latencies. */
  method SortChunk(state: MemState, base: nat, chunk: nat, latencies: array<real>, j: nat, ghost h: seq<Run>)
    requires CacheValid(state) && base + chunk <= state.pages.Length && j <= chunk <= latencies.Length
    requires Recorded(Window(state.pages[..], base, chunk), latencies[..], h, 0, chunk)
    modifies state.pages, latencies
    ensures CacheValid(state) && TailOnly(old(state.pages[..]), state.pages[..], base)
    ensures Increasing(latencies[..], j, chunk) && latencies[..j] == old(latencies[..j])
    ensures Recorded(Window(state.pages[..], base, chunk), latencies[..], h, 0, chunk)
  {
    ghost var tb, lat := state.Tb(), latencies[..];
    PageSort(chunk - j, state.pages, base, latencies, j);
    RearrangedMeasurable(tb, state.Tb(), state.mem[..]);
    SortKeepsRecorded(tb.pages, lat, state.pages[..], latencies[..], base, j, chunk, h);
    SortKeepsFront(tb.pages, lat, state.pages[..], latencies[..], base, j, chunk);
  }

  lemma SortKeepsFront(p: seq<int>, l: seq<real>, p': seq<int>, l': seq<real>, base: nat, lo: nat, hi: nat)
    requires |l| == |l'| && |p| == |p'| && lo <= hi <= |l| && base + hi <= |p|
    requires SortKeeps(p, l, p', l', base, lo, hi)
    ensures TailOnly(p, p', base)
  {
    assert p'[..base] == p'[..base + lo][..base] == p[..base + lo][..base] == p[..base];
  }

  /** The size of the trial measurement with page j of the chunk last. */
  method TrialSize(len: nat, pagesize: nat, line: nat, ghost pages: nat, base: nat, chunk: nat, j: nat)
    returns (size: nat)
    requires SizeOk(len, pagesize, line, pages) && PageCount(len, pagesize) == base + chunk <= pages && j < chunk
    ensures size == if j == chunk - 1 && len % pagesize != 0 then len else WholePages(base + j + 1, pagesize)
    ensures SizeOk(size, pagesize, line, pages) && PageCount(size, pagesize) == base + j + 1
  {
    WholePagesOk(pagesize, line, pages, base + j + 1);
    size := if j == chunk - 1 && len % pagesize != 0 then len else WholePages(base + j + 1, pagesize);
  }

  /** The state of the trials: every page of the chunk w has its latency, the first j of them pass the
      bar if `all` says so, and the others ascend. */
  ghost predicate Trying(w: seq<int>, lat: seq<real>, h: seq<Run>, j: nat, chunkBaseline: real, all: bool) {
    j <= |w| && Recorded(w, lat, h, 0, |w|) && Increasing(lat, j, |w|) && (all ==> AllKept(lat, chunkBaseline, j))
  }

  /** One trial: the spare page is measured in slot base + j. */
  method TryPage(bench: Bench, state: MemState, base: nat, chunk: nat, len: nat, spare: nat, latencies: array<real>,
                 j: nat, chunkBaseline: real, ghost from: nat, ghost bar: int, ghost all: bool) returns (keep: bool)
    requires bench.Valid() && CacheValid(state) && base + chunk <= spare < state.pages.Length && j < chunk
    requires from <= |bench.log| && bar < |bench.log|
    requires SizeOk(len, state.pagesize, state.line, state.pages.Length)
    requires PageCount(len, state.pagesize) == base + chunk
    requires Trying(Window(state.pages[..], base, chunk), latencies[..], History(bench.log, from, bar), j,
               chunkBaseline, all)
    modifies bench, state.pages, state.mem, latencies
    ensures bench.Valid() && CacheValid(state) && TailOnly(old(state.pages[..]), state.pages[..], base)
    ensures OneMore(old(bench.log), bench.log)
    ensures Trying(Window(state.pages[..], base, chunk), latencies[..], History(bench.log, from, bar),
              if keep then j + 1 else j, chunkBaseline, all)
  {
    ghost var h, log := History(bench.log, from, bar), bench.log;
    var size := TrialSize(len, state.pagesize, state.line, state.pages.Length, base, chunk, j);
    var t := MeasureSpare(bench, state, base + j, spare, size);
    HistoryNext(log, bench.log, from, bar);
    CompareSpare(state, base, chunk, spare, latencies, j, t, chunkBaseline, h, bench.log[|log|], all);
    keep := Keeps(latencies[j], chunkBaseline);
    OneMoreKept(Window(state.pages[..], base, chunk), latencies[..], h + [bench.log[|log|]], j, chunkBaseline, all);
    assert History(bench.log, from, bar) == h + [bench.log[|log|]];
  }

  lemma OneMoreKept(w: seq<int>, lat: seq<real>, h: seq<Run>, j: nat, chunkBaseline: real, all: bool)
    requires Trying(w, lat, h, j, chunkBaseline, all) && j < |w|
    ensures Trying(w, lat, h, if Keeps(lat[j], chunkBaseline) then j + 1 else j, chunkBaseline, all)
  {
  }

  /** The spare page is taken if it was faster than the worst page of the chunk. */
  method CompareSpare(state: MemState, base: nat, chunk: nat, spare: nat, latencies: array<real>, j: nat, t: real,
                      ghost chunkBaseline: real, ghost h: seq<Run>, ghost run: Run, ghost all: bool)
    requires CacheValid(state) && base + chunk <= spare < state.pages.Length && j < chunk
    requires run.page == state.pages[spare] && run.time == t
    requires Trying(Window(state.pages[..], base, chunk), latencies[..], h, j, chunkBaseline, all)
    modifies state.pages, latencies
    ensures CacheValid(state) && TailOnly(old(state.pages[..]), state.pages[..], base)
    ensures Trying(Window(state.pages[..], base, chunk), latencies[..], h + [run], j, chunkBaseline, all)
  {
    ghost var lat := latencies[..];
    if t < latencies[chunk - 1] {
      TakeSpare(state, base, chunk, spare, latencies, j, t, h, run);
      SamePrefixKept(lat, latencies[..], j, chunkBaseline);
    } else {
      SpareNotInWindow(state, base, chunk, spare);
      RecordedOther(Window(state.pages[..], base, chunk), lat, h, run, 0, chunk);
    }
  }

  /** Spare pages are tried in place of the pages not yet kept. Result: the pages kept, the number of
      trials and the number of pages newly kept. */
  method Replace(bench: Bench, state: MemState, base: nat, chunk: nat, len: nat, chunkBaseline: real, available: nat,
                 latencies: array<real>, kept: nat, ghost from: nat, ghost bar: int, ghost all: bool)
    returns (j: nat, k: nat, swapped: nat)
    requires bench.Valid() && CacheValid(state) && base + chunk + 2 <= state.pages.Length
    requires from <= |bench.log| && bar < |bench.log|
    requires SizeOk(len, state.pagesize, state.line, state.pages.Length)
    requires PageCount(len, state.pagesize) == base + chunk
    requires Trying(Window(state.pages[..], base, chunk), latencies[..], History(bench.log, from, bar), kept,
               chunkBaseline, all)
    modifies bench, state.pages, state.mem, latencies
    ensures bench.Valid() && CacheValid(state) && TailOnly(old(state.pages[..]), state.pages[..], base)
    ensures old(bench.log) <= bench.log && |bench.log| == |old(bench.log)| + k
    ensures kept <= j <= chunk && k <= 2 * (base + chunk) && swapped == j - kept
    ensures j == chunk || k == 2 * (base + chunk)
    ensures Trying(Window(state.pages[..], base, chunk), latencies[..], History(bench.log, from, bar), j,
              chunkBaseline, all)
  {
    var npages := base + chunk;
    var nspare := state.pages.Length - npages;
    j, k, swapped := kept, 0, 0;
    while j < chunk && k < 2 * npages
      invariant bench.Valid() && CacheValid(state) && TailOnly(old(state.pages[..]), state.pages[..], base)
      invariant old(bench.log) <= bench.log && |bench.log| == |old(bench.log)| + k
      invariant kept <= j <= chunk && k <= 2 * npages && swapped == j - kept
      invariant Trying(Window(state.pages[..], base, chunk), latencies[..], History(bench.log, from, bar), j,
                  chunkBaseline, all)
      decreases 2 * npages - k
    {
      var spare := npages + Substitute(nspare, k + available);
      var keep := TryPage(bench, state, base, chunk, len, spare, latencies, j, chunkBaseline, from, bar, all);
      if keep {
        j, swapped := j + 1, swapped + 1;
      }
      k := k + 1;
    }
  }

  /** Which of the spare pages is tried. */
  function Substitute(nspare: nat, n: nat): (x: nat)
    requires nspare >= 2
    ensures 0 < x < nspare
  {
    nspare - 1 - n % (nspare - 1)
  }

  // ----- the whole routine

  lemma HistoryBar(log: seq<Run>, log': seq<Run>, from: nat)
    requires from <= |log| && OneMore(log, log')
    ensures History(log', from, |log|) == History(log, from, -1)
  {
    assert log'[from..|log|] == log'[..|log|][from..];
  }

  /** From the partition to the sorted bad pages, with the special case of a chunk that is the whole
      list: there half of the pages are kept unseen, and run number `bar` sets the limit for the rest. */
  method SortBadPages(bench: Bench, state: MemState, base: nat, chunk: nat, chunkBaseline: real,
                      latencies: array<real>) returns (kept: nat, limit: real, ghost bar: int)
    requires bench.Valid() && CacheValid(state) && 0 < chunk <= latencies.Length && base + chunk < state.pages.Length
    modifies bench, state.pages, state.mem, latencies
    ensures bench.Valid() && CacheValid(state) && TailOnly(old(state.pages[..]), state.pages[..], base)
    ensures old(bench.log) <= bench.log && bar < |bench.log|
    ensures base > 0 ==> limit == chunkBaseline && bar == -1
    ensures |bench.log| >= |old(bench.log)| + chunk
    ensures kept == Started(bench.log, |old(bench.log)|, base, chunk, chunkBaseline)
    ensures Trying(Window(state.pages[..], base, chunk), latencies[..], History(bench.log, |old(bench.log)|, bar),
              kept, limit, base > 0)
  {
    ghost var from := |bench.log|;
    kept := PartAndSort(bench, state, base, chunk, chunkBaseline, latencies);
    limit, bar := chunkBaseline, -1;
    ghost var log := bench.log;
    if base == 0 && kept < chunk / 2 {
      kept := chunk / 2;
      limit := MeasurePages(bench, state, base + kept + 1);
      bar := |log|;
      HistoryBar(log, bench.log, from);
    }
    StartedFrom(log, bench.log, from, base, chunk, chunkBaseline);
  }

  lemma StartedFrom(log: seq<Run>, log': seq<Run>, from: nat, base: nat, chunk: nat, chunkBaseline: real)
    requires |log| == from + chunk && log <= log'
    ensures var passing := Passing(log[from..], chunkBaseline);
            Started(log', from, base, chunk, chunkBaseline) ==
            if base == 0 && passing < chunk / 2 then chunk / 2 else passing
  {
    assert log'[from..from + chunk] == log[from..];
  }

  /** The pages kept when the trials with spare pages start: those of the first `chunk` runs since `from`
      that pass the bar, but at least half of a chunk that is the whole list. */
  ghost function Started(log: seq<Run>, from: nat, base: nat, chunk: nat, chunkBaseline: real): nat
    requires from + chunk <= |log|
  {
    var passing := Passing(log[from..from + chunk], chunkBaseline);
    if base == 0 && passing < chunk / 2 then chunk / 2 else passing
  }

  method PartAndSort(bench: Bench, state: MemState, base: nat, chunk: nat, chunkBaseline: real,
                     latencies: array<real>) returns (kept: nat)
    requires bench.Valid() && CacheValid(state) && 0 < chunk <= latencies.Length && base + chunk < state.pages.Length
    modifies bench, state.pages, state.mem, latencies
    ensures bench.Valid() && CacheValid(state) && TailOnly(old(state.pages[..]), state.pages[..], base)
    ensures old(bench.log) <= bench.log && |bench.log| == |old(bench.log)| + chunk
    ensures kept == Passing(bench.log[|old(bench.log)|..], chunkBaseline)
    ensures Trying(Window(state.pages[..], base, chunk), latencies[..], History(bench.log, |old(bench.log)|, -1),
              kept, chunkBaseline, true)
  {
    ghost var from, p := |bench.log|, state.pages[..];
    kept := Partition(bench, state, base, chunk, chunkBaseline, latencies);
    ghost var lat, p' := latencies[..], state.pages[..];
    SortChunk(state, base, chunk, latencies, kept, History(bench.log, from, -1));
    SamePrefixKept(lat, latencies[..], kept, chunkBaseline);
    TailTwice(p, p', state.pages[..], base);
  }

  /** What fixup_chunk has found when its trials end: the page list, the latencies of the chunk, how many
      of its pages were kept before the trials with spare pages and how many are now, and the runs of the
      benchmark so far. */
  datatype FixupLog = FixupLog(pages: seq<int>, latencies: seq<real>, before: nat, kept: nat, limit: real, bar: int,
                               runs: seq<Run>)
  {
    /** Every latency is what the last run since `from` that ended on its page took, the kept pages pass
        the bar and the others ascend. */
    ghost predicate Consistent(from: nat, base: nat, chunk: nat, chunkBaseline: real) {
      && from + chunk <= |runs| && base + chunk <= |pages| && bar < |runs|
      && before == Started(runs, from, base, chunk, chunkBaseline) <= kept
      && (base > 0 ==> limit == chunkBaseline && bar == -1)
      && Trying(Window(pages, base, chunk), latencies, History(runs, from, bar), kept, limit, base > 0)
    }
  }

  lemma StartedLonger(log: seq<Run>, log': seq<Run>, from: nat, base: nat, chunk: nat, chunkBaseline: real)
    requires from + chunk <= |log| && log <= log'
    ensures Started(log', from, base, chunk, chunkBaseline) == Started(log, from, base, chunk, chunkBaseline)
  {
    assert log'[from..from + chunk] == log[from..from + chunk];
  }

  /** The two search loops of fixup_chunk. */
  method Trials(bench: Bench, state: MemState, base: nat, chunk: nat, len: nat, chunkBaseline: real, available: nat)
    returns (k: nat, swapped: nat, ghost log: FixupLog)
    requires bench.Valid() && CacheValid(state) && 0 < chunk <= 20 && base + chunk + 2 <= state.pages.Length
    requires SizeOk(len, state.pagesize, state.line, state.pages.Length)
    requires PageCount(len, state.pagesize) == base + chunk
    modifies bench, state.pages, state.mem
    ensures bench.Valid() && CacheValid(state) && TailOnly(old(state.pages[..]), state.pages[..], base)
    ensures old(bench.log) <= bench.log && log.runs == bench.log && log.pages == state.pages[..]
    ensures log.Consistent(|old(bench.log)|, base, chunk, chunkBaseline)
    ensures swapped == log.kept - log.before
  {
    ghost var from, p := |bench.log|, state.pages[..];
    var latencies := new real[20];
    ghost var bar;
    var kept, limit, j;
    kept, limit, bar := SortBadPages(bench, state, base, chunk, chunkBaseline, latencies);
    ghost var p', runs := state.pages[..], bench.log;
    j, k, swapped := Replace(bench, state, base, chunk, len, limit, available, latencies, kept, from, bar, base > 0);
    TailTwice(p, p', state.pages[..], base);
    StartedLonger(runs, bench.log, from, base, chunk, chunkBaseline);
    log := FixupLog(state.pages[..], latencies[..], kept, j, limit, bar, bench.log);
  }

  /** Everything up to the test whether pages were swapped; `next` is the new available_index. */
  method MoveAndTry(bench: Bench, state: MemState, i: nat, chunk: nat, npages: nat, len: nat, chunkBaseline: real,
                    available: nat) returns (swapped: nat, next: nat, ghost log: FixupLog)
    requires bench.Valid() && CacheValid(state) && 0 < chunk <= 20 && i + chunk <= npages
    requires npages + 2 <= state.pages.Length
    requires SizeOk(len, state.pagesize, state.line, state.pages.Length) && PageCount(len, state.pagesize) == npages
    modifies bench, state.pages, state.mem
    ensures bench.Valid() && CacheValid(state)
    ensures Rearranged(old(state.pages[..]), state.pages[..])
    ensures TailOnly(Forward(old(state.pages[..]), i, chunk, npages), state.pages[..], npages - chunk)
    ensures old(bench.log) <= bench.log && log.runs == bench.log && log.pages == state.pages[..]
    ensures log.Consistent(|old(bench.log)|, npages - chunk, chunk, chunkBaseline)
    ensures swapped == log.kept - log.before
    ensures next < state.pages.Length - npages - 1
  {
    MoveChunk(state, i, chunk, npages);
    var first := if available >= state.pages.Length - npages then 0 else available;
    var k;
    k, swapped, log := Trials(bench, state, npages - chunk, chunk, len, chunkBaseline, first);
    next := (k + first) % (state.pages.Length - npages - 1);
  }

  /** The value returned, the pages the trials kept, the baseline and the static available_index. */
  datatype FixupResult = FixupResult(swapped: nat, kept: nat, baseline: real, available: nat)

  /** The last part of fixup_chunk: the changes are judged by one more run, and backed out if they do
      not pay. */
  method Judge(bench: Bench, state: MemState, i: nat, chunk: nat, npages: nat, len: nat, baseline: real, swapped: nat,
               saved: array<int>, ghost entry: seq<int>) returns (r: FixupResult)
    requires bench.Valid() && CacheValid(state) && 0 < chunk && i + chunk <= npages <= state.pages.Length
    requires SizeOk(len, state.pagesize, state.line, state.pages.Length) && PageCount(len, state.pagesize) == npages
    requires saved != state.pages && saved != state.lines && saved != state.words && saved != state.mem
    requires saved[..] == entry && Rearranged(entry, state.pages[..])
    modifies bench, state.pages, state.mem
    ensures bench.Valid() && CacheValid(state) && Rearranged(entry, state.pages[..])
    ensures r.kept == swapped
    ensures swapped == 0 ==> bench.log == old(bench.log) && r.swapped == 0 && r.baseline == baseline
                             && state.pages[..] == old(state.pages[..])
    ensures swapped > 0 ==> OneMore(old(bench.log), bench.log)
                            && bench.log[|old(bench.log)|].page == old(state.pages[npages - 1])
                            && Verdict(r, baseline, bench.log[|old(bench.log)|].time)
                            && state.pages[..] ==
                               if r.swapped > 0 then Forward(old(state.pages[..]), i, chunk, npages) else entry
  {
    r := FixupResult(swapped, swapped, baseline, 0);
    if swapped > 0 {
      var newBaseline := MeasureUpTo(bench, state, len, npages);
      if newBaseline >= 0.999 * baseline {
        RestorePages(state, saved, entry);
        r := r.(swapped := 0);
      } else {
        MoveChunk(state, i, chunk, npages);
        r := r.(baseline := newBaseline);
      }
    }
  }

  /** The changes stay, and lower the baseline, exactly if the run took less than 0.999 of it. */
  ghost predicate Verdict(r: FixupResult, baseline: real, time: real) {
    if time < 0.999 * baseline then r.swapped == r.kept && r.baseline == time
    else r.swapped == 0 && r.baseline == baseline
  }

  /** What becomes of the page list: if no trial was kept, it is the list the trials ended with; if the
      kept ones do not pay, the list as it was; else the former list with the chunk moved back. */
  ghost predicate Outcome(r: FixupResult, log: FixupLog, runs: seq<Run>, entry: seq<int>, pages: seq<int>,
                          i: nat, chunk: nat, npages: nat, baseline: real)
    requires 0 < chunk && i + chunk <= npages <= |entry|
  {
    && r.kept == log.kept - log.before && log.runs <= runs && |runs| == |log.runs| + (if r.kept > 0 then 1 else 0)
    && TailOnly(Forward(entry, i, chunk, npages), log.pages, npages - chunk)
    && (r.kept == 0 ==> r.swapped == 0 && r.baseline == baseline && pages == log.pages)
    && (r.kept > 0 ==> runs[|log.runs|].page == log.pages[npages - 1] && Verdict(r, baseline, runs[|log.runs|].time))
    && (r.kept > 0 && r.swapped == 0 ==> pages == entry)
    && (r.swapped > 0 ==> npages <= |log.pages| && pages == Forward(log.pages, i, chunk, npages))
  }

  /** With the chunk in front of the end of the list, a call that returns 0 leaves the list as it was if
      and only if some trial was kept and backed out. */
  lemma UnchangedExactly(r: FixupResult, log: FixupLog, runs: seq<Run>, entry: seq<int>, pages: seq<int>,
                         i: nat, chunk: nat, npages: nat, baseline: real)
    requires 0 < chunk && i + chunk < npages <= |entry| && Distinct(entry)
    requires Outcome(r, log, runs, entry, pages, i, chunk, npages, baseline) && r.swapped == 0
    ensures pages == entry <==> r.kept > 0
  {
    if r.kept == 0 { ForwardMoves(entry, i, chunk, npages, log.pages); }
  }

  /** fixup_chunk: the trials, what they rest on, and what becomes of the page list. */
  method FixupChunk(bench: Bench, state: MemState, i: nat, chunk: nat, npages: nat, len: nat, baseline: real,
                    chunkBaseline: real, available: nat) returns (r: FixupResult, ghost log: FixupLog)
    requires bench.Valid() && CacheValid(state) && 0 < chunk <= 20 && i + chunk <= npages
    requires npages + 2 <= state.pages.Length
    requires SizeOk(len, state.pagesize, state.line, state.pages.Length) && PageCount(len, state.pagesize) == npages
    modifies bench, state.pages, state.mem
    ensures bench.Valid() && CacheValid(state) && Rearranged(old(state.pages[..]), state.pages[..])
    ensures old(bench.log) <= bench.log
    ensures log.Consistent(|old(bench.log)|, npages - chunk, chunk, chunkBaseline)
    ensures Outcome(r, log, bench.log, old(state.pages[..]), state.pages[..], i, chunk, npages, baseline)
    ensures r.available < state.pages.Length - npages - 1
    ensures i + chunk < npages && r.swapped == 0 ==> (state.pages[..] == old(state.pages[..]) <==> r.kept > 0)
  {
    ghost var entry := state.pages[..];
    PagesDistinct(state);
    r, log := TryAndJudge(bench, state, i, chunk, npages, len, baseline, chunkBaseline, available);
    if i + chunk < npages && r.swapped == 0 {
      UnchangedExactly(r, log, bench.log, entry, state.pages[..], i, chunk, npages, baseline);
    }
  }

  /** The body of fixup_chunk. */
  method TryAndJudge(bench: Bench, state: MemState, i: nat, chunk: nat, npages: nat, len: nat, baseline: real,
                     chunkBaseline: real, available: nat) returns (r: FixupResult, ghost log: FixupLog)
    requires bench.Valid() && CacheValid(state) && 0 < chunk <= 20 && i + chunk <= npages
    requires npages + 2 <= state.pages.Length
    requires SizeOk(len, state.pagesize, state.line, state.pages.Length) && PageCount(len, state.pagesize) == npages
    modifies bench, state.pages, state.mem
    ensures bench.Valid() && CacheValid(state) && Rearranged(old(state.pages[..]), state.pages[..])
    ensures old(bench.log) <= bench.log
    ensures log.Consistent(|old(bench.log)|, npages - chunk, chunk, chunkBaseline)
    ensures Outcome(r, log, bench.log, old(state.pages[..]), state.pages[..], i, chunk, npages, baseline)
    ensures r.available < state.pages.Length - npages - 1
  {
    ghost var entry := state.pages[..];
    var saved := Copy(state.pages);
    var swapped, next;
    swapped, next, log := MoveAndTry(bench, state, i, chunk, npages, len, chunkBaseline, available);
    r := Judge(bench, state, i, chunk, npages, len, baseline, swapped, saved, entry);
    r := r.(available := next);
  }

  /** A page that is kept has a run that passes the bar. */
  lemma KeptRun(log: FixupLog, from: nat, base: nat, chunk: nat, chunkBaseline: real) returns (k: nat)
    requires log.Consistent(from, base, chunk, chunkBaseline) && base > 0 && log.kept > 0
    ensures from <= k < |log.runs| && Keeps(log.runs[k].time, chunkBaseline)
  {
    var h := History(log.runs, from, -1);
    k := LatestIsRun(h, Window(log.pages, base, chunk)[0], log.latencies[0]);
    k := from + k;
  }

  /** Whatever the clock shows fails the bar. */
  ghost predicate TooSlow(sample: (nat, seq<int>) -> real, chunkBaseline: real) {
    forall k: nat, mem: seq<int> :: !Keeps(sample(k, mem), chunkBaseline)
  }

  /** An oracle for which a call returns 0 and leaves the list rearranged: every run takes too long. */
  method AllTooSlow(bench: Bench, state: MemState, i: nat, chunk: nat, npages: nat, len: nat, baseline: real,
                    chunkBaseline: real, available: nat) returns (r: FixupResult)
    requires bench.Valid() && CacheValid(state) && 0 < chunk <= 20 && i + chunk < npages
    requires npages + 2 <= state.pages.Length
    requires SizeOk(len, state.pagesize, state.line, state.pages.Length) && PageCount(len, state.pagesize) == npages
    requires TooSlow(bench.sample, chunkBaseline)
    modifies bench, state.pages, state.mem
    ensures r.swapped == 0 && state.pages[..] != old(state.pages[..])
  {
    ghost var log;
    ghost var from, entry := |bench.log|, state.pages[..];
    r, log := FixupChunk(bench, state, i, chunk, npages, len, baseline, chunkBaseline, available);
    NothingKept(bench, r, log, from, entry, state.pages[..], i, chunk, npages, baseline, chunkBaseline);
  }

  lemma NothingKept(bench: Bench, r: FixupResult, log: FixupLog, from: nat, entry: seq<int>, pages: seq<int>,
                    i: nat, chunk: nat, npages: nat, baseline: real, chunkBaseline: real)
    requires bench.Valid() && TooSlow(bench.sample, chunkBaseline) && 0 < chunk && i + chunk < npages <= |entry|
    requires log.Consistent(from, npages - chunk, chunk, chunkBaseline)
    requires Outcome(r, log, bench.log, entry, pages, i, chunk, npages, baseline)
    ensures r.kept == 0 && r.swapped == 0
  {
    if log.kept > 0 {
      var k := KeptRun(log, from, npages - chunk, chunk, chunkBaseline);
      assert false;
    }
  }
}
