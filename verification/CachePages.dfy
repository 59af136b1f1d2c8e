/** The page list of cache.c and how it is edited: remove_chunk, the move of a chunk to the end of the
    list, and the saved copy. Latencies are exact reals; every run of the benchmark may take any time. */
module CachePages {
  import opened Arith
  import opened Benchmarks
  import opened Chains
  import opened Layouts
  import opened MemStates
  import opened MemLib
  import opened Measuring
  import opened Swaps

  // ----- remove_chunk

  /** s after j of the exchanges of slots i + x and n - 1 - x: their sum never changes, so a slot
      reached from both sides is back where it was. */
  ghost function Mirrored(s: seq<int>, i: nat, n: nat, j: nat): (s': seq<int>)
    requires i + j <= n <= |s|
    ensures |s'| == |s|
  {
    seq(|s|, x requires 0 <= x < |s| =>
      if (i <= x < i + j) != (n - j <= x < n) then s[i + n - 1 - x] else s[x])
  }

  lemma MirrorStep(s: seq<int>, i: nat, n: nat, j: nat)
    requires i + j + 1 <= n <= |s|
    ensures Swapped(Mirrored(s, i, n, j), i + j, n - 1 - j) == Mirrored(s, i, n, j + 1)
  {
  }

  /** Doing the exchanges again undoes them. */
  lemma MirrorTwice(s: seq<int>, i: nat, n: nat, j: nat)
    requires i + j <= n <= |s|
    ensures Mirrored(Mirrored(s, i, n, j), i, n, j) == s
  {
  }

  /** Where the page in slot x of the mirrored list, or its partner, comes from. */
  ghost function MirrorSource(i: nat, chunk: nat, n: nat, x: int): int {
    if (i <= x < i + chunk) != (n - chunk <= x < n) then i + n - 1 - x else x
  }

  /** For every chunk inside the list, overlapping its tail or not, the first n - chunk slots of the
      mirrored list hold exactly the pages outside the chunk. */
  lemma MirrorRemoves(s: seq<int>, i: nat, chunk: nat, n: nat)
    requires i + chunk <= n <= |s|
    ensures forall x :: 0 <= x < n - chunk ==>
              var y := MirrorSource(i, chunk, n, x);
              0 <= y < n && !(i <= y < i + chunk) && Mirrored(s, i, n, chunk)[x] == s[y]
    ensures forall y :: 0 <= y < n && !(i <= y < i + chunk) ==>
              var x := MirrorSource(i, chunk, n, y);
              0 <= x < n - chunk && Mirrored(s, i, n, chunk)[x] == s[y]
  {
  }

  method Mirror(state: MemState, i: nat, chunk: nat, npages: nat)
    requires CacheValid(state) && i + chunk <= npages <= state.pages.Length
    modifies state.pages
    ensures CacheValid(state) && Rearranged(old(state.pages[..]), state.pages[..])
    ensures state.pages[..] == Mirrored(old(state.pages[..]), i, npages, chunk)
  {
    ghost var tb, entry := state.Tb(), state.pages[..];
    for j := 0 to chunk
      invariant state.pages[..] == Mirrored(entry, i, npages, j)
      invariant Rearranged(entry, state.pages[..])
      invariant state.lines[..] == tb.lines && state.words[..] == tb.words
    {
      MirrorStep(entry, i, npages, j);
      Swap(state.pages, i + j, npages - 1 - j);
    }
    RearrangedMeasurable(tb, state.Tb(), state.mem[..]);
  }

  /** The page list is mirrored while the benchmark runs and as before afterwards. The one run is on
      npages - chunk pages, in the order of the mirrored list. */
  method RemoveChunk(bench: Bench, state: MemState, i: nat, chunk: nat, npages: nat, len: nat) returns (t: real)
    requires bench.Valid() && CacheValid(state)
    requires SizeOk(len, state.pagesize, state.line, state.pages.Length) && npages == PageCount(len, state.pagesize)
    requires i + chunk <= npages && chunk < npages
    modifies bench, state.pages, state.mem
    ensures bench.Valid() && CacheValid(state) && state.pages[..] == old(state.pages[..])
    ensures npages <= state.pages.Length && OneMore(old(bench.log), bench.log)
    ensures RanWithout(bench.log[|old(bench.log)|], state.mem, state.Tb(), i, chunk, npages,
              SizeLeft(len, chunk, state.pagesize), t)
  {
    var size := Without(len, chunk, state.pagesize, state.line, state.pages.Length);
    t := MeasureLess(bench, state, i, chunk, npages, size);
  }

  /** The size measured when chunk pages are taken out. */
  function SizeLeft(len: nat, chunk: nat, pagesize: nat): nat {
    if chunk * pagesize <= len then len - chunk * pagesize else 0
  }

  method Without(len: nat, chunk: nat, pagesize: nat, line: nat, ghost pages: nat) returns (size: nat)
    requires SizeOk(len, pagesize, line, pages) && chunk < PageCount(len, pagesize)
    ensures PageCount(len, pagesize) <= pages && size == SizeLeft(len, chunk, pagesize)
    ensures SizeOk(size, pagesize, line, pages) && PageCount(size, pagesize) == PageCount(len, pagesize) - chunk
  {
    WithoutFits(len, chunk, pagesize, line, pages);
    size := SizeLeft(len, chunk, pagesize);
  }

  method MeasureLess(bench: Bench, state: MemState, i: nat, chunk: nat, npages: nat, size: nat) returns (t: real)
    requires bench.Valid() && CacheValid(state) && SizeOk(size, state.pagesize, state.line, state.pages.Length)
    requires i + chunk <= npages <= state.pages.Length && PageCount(size, state.pagesize) == npages - chunk
    modifies bench, state.pages, state.mem
    ensures bench.Valid() && CacheValid(state) && state.pages[..] == old(state.pages[..])
    ensures OneMore(old(bench.log), bench.log) && state.pagesize > 0 && state.line > 0
    ensures RanWithout(bench.log[|old(bench.log)|], state.mem, state.Tb(), i, chunk, npages, size, t)
  {
    if i + chunk < npages {
      t := MeasureMirrored(bench, state, i, chunk, npages, size);
    } else {
      t := MeasureWithout(bench, state, i, chunk, npages, size, state.Tb());
    }
  }

  /** The chunk is not at the end of the list: mirror, measure, mirror. */
  method MeasureMirrored(bench: Bench, state: MemState, i: nat, chunk: nat, npages: nat, size: nat) returns (t: real)
    requires bench.Valid() && CacheValid(state) && SizeOk(size, state.pagesize, state.line, state.pages.Length)
    requires i + chunk < npages <= state.pages.Length && PageCount(size, state.pagesize) == npages - chunk
    modifies bench, state.pages, state.mem
    ensures bench.Valid() && CacheValid(state) && state.pages[..] == old(state.pages[..])
    ensures OneMore(old(bench.log), bench.log) && state.pagesize > 0 && state.line > 0
    ensures RanWithout(bench.log[|old(bench.log)|], state.mem, state.Tb(), i, chunk, npages, size, t)
  {
    ghost var tb := state.Tb();
    Mirror(state, i, chunk, npages);
    t := MeasureWithout(bench, state, i, chunk, npages, size, tb);
    MirrorTwice(tb.pages, i, npages, chunk);
    Mirror(state, i, chunk, npages);
    assert state.Tb() == tb;
  }

  /** The measurement, with the chunk out of the way; tb are the tables from before. */
  method MeasureWithout(bench: Bench, state: MemState, ghost i: nat, ghost chunk: nat, ghost npages: nat, size: nat,
                        ghost tb: Tables) returns (t: real)
    requires bench.Valid() && CacheValid(state) && SizeOk(size, state.pagesize, state.line, state.pages.Length)
    requires i + chunk <= npages <= |tb.pages| && PageCount(size, state.pagesize) == npages - chunk
    requires state.Tb() == tb.(pages := if i + chunk < npages then Mirrored(tb.pages, i, npages, chunk) else tb.pages)
    modifies bench, state.mem
    ensures bench.Valid() && CacheValid(state)
    ensures OneMore(old(bench.log), bench.log) && tb.pagesize > 0 && tb.line > 0
    ensures RanWithout(bench.log[|old(bench.log)|], state.mem, tb, i, chunk, npages, size, t)
  {
    t := Measure(bench, state, size);
  }

  /** A run on the npages - chunk pages left when the chunk is mirrored out of the list. */
  ghost predicate RanWithout(run: Run, mem: array<int>, tb: Tables, i: nat, chunk: nat, npages: nat, size: nat, t: real)
    requires i + chunk <= npages <= |tb.pages| && tb.pagesize > 0 && tb.line > 0
  {
    var tb' := tb.(pages := if i + chunk < npages then Mirrored(tb.pages, i, npages, chunk) else tb.pages);
    && MeasureSweep(tb', size).Ok() && MeasureSweep(tb', size).Fits(tb')
    && MeasureSweep(tb', size).npages == npages - chunk
    && RanOn(run, mem, tb', size, t)
  }

  /** What is left of a size that takes npages pages takes npages - chunk pages. */
  lemma WithoutFits(len: nat, chunk: nat, pagesize: nat, line: nat, pages: nat)
    requires SizeOk(len, pagesize, line, pages) && chunk < PageCount(len, pagesize)
    ensures PageCount(len, pagesize) <= pages && chunk * pagesize < len
    ensures SizeOk(len - chunk * pagesize, pagesize, line, pages)
    ensures PageCount(len - chunk * pagesize, pagesize) == PageCount(len, pagesize) - chunk
  {
    var n := PageCount(len, pagesize);
    CountBounds(len, pagesize);
    MulMono(chunk, n - 1, pagesize);
    MulCompare(n - 1, pages, pagesize);
    ShorterOk(len, chunk, pagesize, line, pages);
    MulDiff(n, chunk, pagesize);
    MulSucc(n - chunk - 1, pagesize);
    CountIs(len - chunk * pagesize, pagesize, n - chunk);
  }

  lemma CountBounds(len: nat, pagesize: nat)
    requires pagesize > 0 && len > 0
    ensures var n := PageCount(len, pagesize); n > 0 && (n - 1) * pagesize < len <= n * pagesize
  {
    Digits(len + pagesize - 1, pagesize);
    var n := PageCount(len, pagesize);
    MulSucc(n - 1, pagesize);
    MulCompare(0, n, pagesize);
  }

  lemma CountIs(len: nat, pagesize: nat, n: nat)
    requires pagesize > 0 && n > 0 && (n - 1) * pagesize < len <= n * pagesize
    ensures PageCount(len, pagesize) == n
  {
    MulSucc(n - 1, pagesize);
    Quotient(n, len + pagesize - 1 - n * pagesize, pagesize);
  }

  lemma ShorterOk(len: nat, n: nat, pagesize: nat, line: nat, pages: nat)
    requires SizeOk(len, pagesize, line, pages) && n * pagesize < len
    ensures SizeOk(len - n * pagesize, pagesize, line, pages)
  {
    Digits(len, pagesize);
    MulMono(0, n, pagesize);
    MulDiff(len / pagesize, n, pagesize);
    MulCompare(n, len / pagesize + 1, pagesize);
    Quotient(len / pagesize - n, len % pagesize, pagesize);
  }

  /** n whole pages. */
  function WholePages(n: nat, pagesize: nat): nat {
    n * pagesize
  }

  /** The sizes of the measurements fixup_chunk makes: 1 .. npages whole pages. */
  lemma WholePagesOk(pagesize: nat, line: nat, pages: nat, n: nat)
    requires pagesize > 0 && line > 0 && 0 < n <= pages
    ensures SizeOk(WholePages(n, pagesize), pagesize, line, pages)
    ensures PageCount(WholePages(n, pagesize), pagesize) == n
  {
    MulMono(n, pages, pagesize);
    MulMono(1, n, pagesize);
    MulSucc(n - 1, pagesize);
    Quotient(n, 0, pagesize);
    CountIs(n * pagesize, pagesize, n);
  }

  lemma PagesDistinct(state: MemState)
    requires CacheValid(state)
    ensures Distinct(state.pages[..])
  {
    MulMono(1, |state.Tb().lines|, state.line);
    ApartDistinct(state.pages[..], state.pagesize);
  }

  method SwapPages(state: MemState, a: nat, b: nat)
    requires CacheValid(state) && a < state.pages.Length && b < state.pages.Length
    modifies state.pages
    ensures CacheValid(state) && state.pages[..] == Swapped(old(state.pages[..]), a, b)
    ensures Rearranged(old(state.pages[..]), state.pages[..])
  {
    ghost var tb := state.Tb();
    Swap(state.pages, a, b);
    RearrangedMeasurable(tb, state.Tb(), state.mem[..]);
  }

  // ----- moving a chunk to the end of the list and back

  /** s after x exchanges of slots i, i + 1, ... with slots to, to + 1, ..., which may overlap. */
  ghost function Moved(s: seq<int>, i: nat, to: nat, x: nat): (s': seq<int>)
    requires i + x <= |s| && to + x <= |s|
    ensures |s'| == |s|
    decreases x
  {
    if x == 0 then s else Swapped(Moved(s, i, to, x - 1), i + x - 1, to + x - 1)
  }

  /** The chunk at i goes to the end of the first npages slots, if it is not there already. */
  ghost function Forward(s: seq<int>, i: nat, chunk: nat, npages: nat): (s': seq<int>)
    requires i + chunk <= npages <= |s|
    ensures |s'| == |s|
  {
    if i + chunk < npages then Moved(s, i, npages - chunk, chunk) else s
  }

  lemma {:induction false} MovedFirst(s: seq<int>, i: nat, to: nat, x: nat)
    requires i < to && 0 < x && to + x <= |s|
    ensures Moved(s, i, to, x)[i] == s[to]
    decreases x
  {
    if x > 1 {
      MovedFirst(s, i, to, x - 1);
    } else {
      assert Moved(s, i, to, 0) == s;
    }
  }

  method MoveChunk(state: MemState, i: nat, chunk: nat, npages: nat)
    requires CacheValid(state) && i + chunk <= npages <= state.pages.Length
    modifies state.pages
    ensures CacheValid(state) && Rearranged(old(state.pages[..]), state.pages[..])
    ensures state.pages[..] == Forward(old(state.pages[..]), i, chunk, npages)
  {
    ghost var tb := state.Tb();
    ExchangeForward(state.pages, i, chunk, npages);
    RearrangedMeasurable(tb, state.Tb(), state.mem[..]);
  }

  method ExchangeForward(pages: array<int>, i: nat, chunk: nat, npages: nat)
    requires i + chunk <= npages <= pages.Length
    modifies pages
    ensures Rearranged(old(pages[..]), pages[..]) && pages[..] == Forward(old(pages[..]), i, chunk, npages)
  {
    if i + chunk < npages { ExchangeBlocks(pages, i, npages - chunk, chunk); }
  }

  method ExchangeBlocks(pages: array<int>, i: nat, to: nat, chunk: nat)
    requires i + chunk <= pages.Length && to + chunk <= pages.Length
    modifies pages
    ensures Rearranged(old(pages[..]), pages[..]) && pages[..] == Moved(old(pages[..]), i, to, chunk)
  {
    for j := 0 to chunk
      invariant Rearranged(old(pages[..]), pages[..]) && pages[..] == Moved(old(pages[..]), i, to, j)
    {
      Swap(pages, i + j, to + j);
    }
  }

  /** A page list that was rearranged but for its first slots. */
  ghost predicate TailOnly(s: seq<int>, s': seq<int>, base: nat) {
    Rearranged(s, s') && base <= |s| && s'[..base] == s[..base]
  }

  /** After the forward move and any edit of the tail a page list that had the chunk further in front
      is not the old one: slot i holds the first page of the old tail. */
  lemma ForwardMoves(s: seq<int>, i: nat, chunk: nat, npages: nat, s': seq<int>)
    requires 0 < chunk && i + chunk < npages <= |s| && Distinct(s)
    requires TailOnly(Forward(s, i, chunk, npages), s', npages - chunk)
    ensures s' != s
  {
    var to := npages - chunk;
    MovedFirst(s, i, to, chunk);
    assert s'[i] == s'[..to][i] == Forward(s, i, chunk, npages)[..to][i] == s[to];
    assert s[i] != s[to];
  }

  // ----- the saved copy

  method Copy(a: array<int>) returns (b: array<int>)
    ensures fresh(b) && b[..] == a[..]
  {
    b := new int[a.Length];
    for n := 0 to a.Length
      invariant b[..n] == a[..n]
    {
      b[n] := a[n];
    }
  }

  /** bcopy(saved_pages, pages, ...): the back-out. */
  method RestorePages(state: MemState, saved: array<int>, ghost entry: seq<int>)
    requires CacheValid(state) && saved != state.pages && saved != state.lines && saved != state.words
    requires saved != state.mem && saved[..] == entry && Rearranged(entry, state.pages[..])
    modifies state.pages
    ensures CacheValid(state) && state.pages[..] == entry
  {
    ghost var tb := state.Tb();
    for n := 0 to saved.Length
      invariant saved[..] == entry && state.pages[..n] == entry[..n]
      invariant state.lines[..] == tb.lines && state.words[..] == tb.words
    {
      state.pages[n] := saved[n];
    }
    assert state.pages[..] == entry;
    RearrangedMeasurable(tb, state.Tb(), state.mem[..]);
  }
}
