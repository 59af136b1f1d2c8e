/** measure of cache.c: the links between pages are rewritten for the current order of the page
    list, a benchmark runs on the first `size` bytes' worth of lines, and the one line whose links
    inside its page were cut is repaired. */
module Measuring {
  import opened Arith
  import opened Benchmarks
  import opened Chains
  import opened Layouts
  import opened MemStates
  import opened MemLib
  import opened Swaps

  /** Every word of line j of page i points to the same word of the next table line. */
  ghost predicate LineIntact(tb: Tables, mem: seq<int>, i: nat, j: nat) {
    forall w :: 0 <= w < |tb.words| ==> tb.Joined(mem, Slot(i, j, w), Slot(i, j + 1, w))
  }

  /** The links inside pages are all there, whatever the links between pages are. */
  ghost predicate Intact(tb: Tables, mem: seq<int>) {
    forall i, j :: 0 <= i < |tb.pages| && 0 <= j < |tb.lines| - 1 ==> LineIntact(tb, mem, i, j)
  }

  /** ... except perhaps in line c of page p. */
  ghost predicate IntactBut(tb: Tables, mem: seq<int>, p: nat, c: nat) {
    forall i, j :: 0 <= i < |tb.pages| && 0 <= j < |tb.lines| - 1 && !(i == p && j == c) ==> LineIntact(tb, mem, i, j)
  }

  lemma OtherLinesIntact(tb: Tables, mem: seq<int>, mem': seq<int>, p: nat, c: nat)
    requires tb.OnlyLine(mem, mem', p, c) && IntactBut(tb, mem, p, c)
    ensures IntactBut(tb, mem', p, c)
  {
    forall i, j | 0 <= i < |tb.pages| && 0 <= j < |tb.lines| - 1 && !(i == p && j == c)
      ensures LineIntact(tb, mem', i, j)
    {
      assert LineIntact(tb, mem, i, j);
    }
  }

  /** The lines used of the last page. */
  function LastLinesOf(size: nat, pagesize: nat, line: nat, nlines: nat): nat
    requires pagesize > 0 && line > 0
  {
    if size % pagesize != 0 then size % pagesize / line else nlines
  }

  /** The pages that size bytes take. */
  function PageCount(size: nat, pagesize: nat): nat
    requires pagesize > 0
  {
    (size + pagesize - 1) / pagesize
  }

  /** The chain a measurement runs on. */
  ghost function MeasureSweep(tb: Tables, size: nat): Sweep
    requires tb.pagesize > 0 && tb.line > 0
  {
    Sweep(PageCount(size, tb.pagesize), |tb.lines|,
      LastLinesOf(size, tb.pagesize, tb.line, |tb.lines|), |tb.words|)
  }

  /** What cache.c relies on: the tables of mem_initialize over whole pages, with the page list in
      any order, and intact pages. */
  ghost predicate Measurable(tb: Tables, mem: seq<int>) {
    && tb.Wf(|mem|) && tb.line > 0 && tb.pagesize == |tb.lines| * tb.line
    && Intact(tb, mem)
  }

  /** The sizes measure handles: at least one line of every page it uses. */
  predicate SizeOk(size: nat, pagesize: nat, line: nat, npages: nat) {
    && pagesize > 0 && line > 0
    && 0 < size <= npages * pagesize
    && (size % pagesize == 0 || size % pagesize >= line)
  }

  lemma MeasureSweepFits(tb: Tables, size: nat)
    requires tb.line > 0 && tb.pagesize == |tb.lines| * tb.line && |tb.words| > 0
    requires SizeOk(size, tb.pagesize, tb.line, |tb.pages|)
    ensures MeasureSweep(tb, size).Ok() && MeasureSweep(tb, size).Fits(tb)
  {
    SizeFits(size, tb.pagesize, tb.line, |tb.lines|, |tb.pages|);
  }

  lemma SizeFits(size: nat, pagesize: nat, line: nat, nlines: nat, npages: nat)
    requires line > 0 && pagesize == nlines * line && SizeOk(size, pagesize, line, npages)
    ensures 0 < PageCount(size, pagesize) <= npages && 0 < LastLinesOf(size, pagesize, line, nlines) <= nlines
  {
    Digits(size + pagesize - 1, pagesize);
    MulSucc(npages, pagesize);
    MulCompare(PageCount(size, pagesize), npages + 1, pagesize);
    MulCompare(0, PageCount(size, pagesize), pagesize);
    if size % pagesize != 0 {
      LinesBelow(size % pagesize, line, nlines);
    } else {
      MulCompare(0, nlines, line);
    }
  }

  lemma LinesBelow(r: nat, line: nat, nlines: nat)
    requires 0 < line <= r < nlines * line
    ensures 0 < r / line <= nlines
  {
    Digits(r, line);
    MulCompare(r / line, nlines, line);
    MulSucc(r / line, line);
    MulCompare(1, r / line + 1, line);
  }

  /** The chain has one cell for every word of the whole lines in the first size bytes. */
  lemma MeasureCount(tb: Tables, size: nat)
    requires tb.line > 0 && tb.pagesize == |tb.lines| * tb.line && |tb.words| > 0
    requires SizeOk(size, tb.pagesize, tb.line, |tb.pages|) && MeasureSweep(tb, size).Ok()
    ensures MeasureSweep(tb, size).Count() == |tb.words| * (size / tb.line)
  {
    Digits(size, tb.pagesize);
    if size % tb.pagesize == 0 {
      WholeLines(size, tb.pagesize, |tb.lines|, tb.line);
    } else {
      PartLines(size, tb.pagesize, |tb.lines|, tb.line);
    }
  }

  lemma WholeLines(size: nat, pagesize: nat, nlines: nat, line: nat)
    requires line > 0 && pagesize == nlines * line > 0 && size % pagesize == 0
    ensures (size + pagesize - 1) / pagesize == size / pagesize
    ensures size / line == (size / pagesize - 1) * nlines + nlines
  {
    var q := size / pagesize;
    Digits(size, pagesize);
    MulAssoc(q, nlines, line);
    Quotient(q, pagesize - 1, pagesize);
    Quotient(q * nlines, 0, line);
    MulSucc(q - 1, nlines);
  }

  lemma PartLines(size: nat, pagesize: nat, nlines: nat, line: nat)
    requires line > 0 && pagesize == nlines * line > 0 && size % pagesize > 0
    ensures (size + pagesize - 1) / pagesize == size / pagesize + 1
    ensures size / line == size / pagesize * nlines + size % pagesize / line
  {
    var q, r := size / pagesize, size % pagesize;
    Digits(size, pagesize);
    Digits(r, line);
    MulAssoc(q, nlines, line);
    MulSucc(q, pagesize);
    Quotient(q + 1, r - 1, pagesize);
    MulAdd(q * nlines, r / line, line);
    Quotient(q * nlines + r / line, r % line, line);
  }

  /** A run on the first `size` bytes' worth of lines in the order of the page list. */
  ghost predicate RanOn(run: Run, mem: array<int>, tb: Tables, size: nat, t: real)
    requires tb.pagesize > 0 && tb.line > 0 && MeasureSweep(tb, size).Ok() && MeasureSweep(tb, size).Fits(tb)
  {
    var sw := MeasureSweep(tb, size);
    run.at == mem && run.order == sw.Order(tb) && run.page == tb.pages[sw.npages - 1] && run.time == t
  }

  /** The memory part of measure: one run of the benchmark, on mem while it is such a cycle. */
  method MeasureChain(bench: Bench, mem: array<int>, tb: Tables, size: nat) returns (t: real)
    requires bench.Valid() && Measurable(tb, mem[..]) && SizeOk(size, tb.pagesize, tb.line, |tb.pages|)
    modifies bench, mem
    ensures bench.Valid() && Measurable(tb, mem[..])
    ensures MeasureSweep(tb, size).Ok() && MeasureSweep(tb, size).Fits(tb)
    ensures OneMore(old(bench.log), bench.log) && RanOn(bench.log[|old(bench.log)|], mem, tb, size, t)
  {
    ghost var sw := MeasureSweep(tb, size);
    MeasureSweepFits(tb, size);
    var npages := PageCount(size, tb.pagesize);
    var nlines := LastLinesOf(size, tb.pagesize, tb.line, |tb.lines|);
    JoinPages(mem, tb, sw, npages);
    ghost var joined := mem[..];
    LinkBack(mem, tb, sw, npages, nlines - 1, |tb.words|);
    ghost var during := mem[..];
    MeasureLinked(tb, sw, joined, during);
    sw.LinkedIsCycle(tb, during);
    t := bench.Go(mem, sw.Order(tb), tb.pages[npages - 1]);
    OtherLinesIntact(tb, joined, during, npages - 1, nlines - 1);
    if nlines < |tb.lines| {
      Repair(mem, tb, npages - 1, nlines - 1);
      OtherLinesIntact(tb, during, mem[..], npages - 1, nlines - 1);
    }
  }

  /** The first loop of measure: the last line of every page leads to the next page of the list. */
  method JoinPages(mem: array<int>, tb: Tables, ghost sw: Sweep, npages: nat)
    requires sw.Ok() && sw.Fits(tb) && tb.Wf(mem.Length) && Intact(tb, mem[..])
    requires npages == sw.npages && sw.nlines == |tb.lines| && sw.nwords == |tb.words|
    modifies mem
    ensures Intact(tb, mem[..])
    ensures forall i :: 0 <= i < npages - 1 ==> LastLineLinked(tb, sw, mem[..], i)
  {
    for i := 0 to npages - 1
      invariant Intact(tb, mem[..])
      invariant forall k :: 0 <= k < i ==> LastLineLinked(tb, sw, mem[..], k)
    {
      ghost var before := mem[..];
      LinkPage(mem, tb, sw, i, |tb.lines| - 1, |tb.words|);
      OtherLinesIntact(tb, before, mem[..], i, |tb.lines| - 1);
      OtherLinesLinked(tb, sw, before, mem[..], i, |tb.lines| - 1);
      forall k | 0 <= k < i
        ensures LastLineLinked(tb, sw, mem[..], k)
      {
        assert LastLineLinked(tb, sw, before, k);
      }
    }
  }

  ghost predicate LastLineLinked(tb: Tables, sw: Sweep, mem: seq<int>, i: nat)
    requires sw.Ok() && sw.Fits(tb)
  {
    LineLinked(tb, sw, mem, i, sw.nlines - 1)
  }

  lemma MeasureLinked(tb: Tables, sw: Sweep, joined: seq<int>, during: seq<int>)
    requires sw.Ok() && sw.Fits(tb) && tb.Wf(|joined|) && Intact(tb, joined)
    requires sw.nlines == |tb.lines| && sw.nwords == |tb.words|
    requires forall i :: 0 <= i < sw.npages - 1 ==> LastLineLinked(tb, sw, joined, i)
    requires tb.OnlyLine(joined, during, sw.npages - 1, sw.last - 1)
    requires LineLinked(tb, sw, during, sw.npages - 1, sw.last - 1)
    ensures sw.Linked(tb, during)
  {
    forall s | sw.Has(s)
      ensures tb.Joined(during, s, sw.Next(s))
    {
      if !sw.Final(s) {
        assert tb.Joined(joined, s, sw.Next(s)) by {
          if s.line + 1 < sw.LinesOf(s.page) {
            assert LineIntact(tb, joined, s.page, s.line);
          } else {
            assert LastLineLinked(tb, sw, joined, s.page);
          }
        }
      }
    }
  }

  /** The last loop of measure. */
  method Repair(mem: array<int>, tb: Tables, p: nat, c: nat)
    requires tb.Wf(mem.Length) && p < |tb.pages| && c + 1 < |tb.lines|
    modifies mem
    ensures LineIntact(tb, mem[..], p, c) && tb.OnlyLine(old(mem[..]), mem[..], p, c)
  {
    for j := 0 to |tb.words|
      invariant forall w :: 0 <= w < j ==> tb.Joined(mem[..], Slot(p, c, w), Slot(p, c + 1, w))
      invariant tb.OnlyLine(old(mem[..]), mem[..], p, c)
    {
      Tables.Store(mem, tb.pages[p] + tb.lines[c] + tb.words[j], tb.pages[p] + tb.lines[c + 1] + tb.words[j],
        tb, Slot(p, c, j), Slot(p, c + 1, j));
    }
  }

  // ----- any order of the page list will do

  lemma {:induction false} Twice<T>(s: seq<T>, a: nat, b: nat)
    requires a < b < |s| && s[a] == s[b]
    ensures multiset(s)[s[a]] >= 2
  {
    assert s == s[..b] + s[b..];
    assert s[a] in s[..b] && s[b] in s[b..];
    assert multiset(s[..b])[s[a]] >= 1 && multiset(s[b..])[s[a]] >= 1;
  }

  lemma {:induction false} Once<T>(s: seq<T>, v: T)
    requires Distinct(s)
    ensures multiset(s)[v] <= 1
  {
    if s != [] {
      var front, x := s[..|s| - 1], s[|s| - 1];
      assert s == front + [x];
      Once(front, v);
      if x == v { assert v !in front; }
    }
  }

  lemma RearrangedDistinct<T>(s: seq<T>, s': seq<T>)
    requires Rearranged(s, s') && Distinct(s)
    ensures Distinct(s')
  {
    forall a, b | 0 <= a < b < |s'|
      ensures s'[a] != s'[b]
    {
      if s'[a] == s'[b] {
        Twice(s', a, b);
        Once(s, s'[a]);
      }
    }
  }

  lemma RearrangedFrom<T>(s: seq<T>, s': seq<T>, i: nat) returns (k: nat)
    requires Rearranged(s, s') && i < |s'|
    ensures k < |s| && s[k] == s'[i]
  {
    assert s'[i] in multiset(s');
    assert s'[i] in s;
    k :| 0 <= k < |s| && s[k] == s'[i];
  }

  lemma RearrangedApart(s: seq<int>, s': seq<int>, d: nat, lo: int, hi: int)
    requires d > 0 && Rearranged(s, s') && Apart(s, d) && Within(s, lo, hi)
    ensures Apart(s', d) && Within(s', lo, hi)
  {
    ApartDistinct(s, d);
    RearrangedDistinct(s, s');
    forall a | 0 <= a < |s'|
      ensures lo <= s'[a] <= hi
    {
      var k := RearrangedFrom(s, s', a);
    }
    forall a, b | 0 <= a < b < |s'|
      ensures s'[a] + d <= s'[b] || s'[b] + d <= s'[a]
    {
      var x := RearrangedFrom(s, s', a);
      var y := RearrangedFrom(s, s', b);
      if x < y {} else { assert y < x; }
    }
  }

  lemma RearrangedIntact(tb: Tables, tb': Tables, mem: seq<int>)
    requires Intact(tb, mem) && tb' == tb.(pages := tb'.pages) && Rearranged(tb.pages, tb'.pages)
    requires tb.Wf(|mem|) && tb'.Wf(|mem|)
    ensures Intact(tb', mem)
  {
    forall i, j | 0 <= i < |tb'.pages| && 0 <= j < |tb'.lines| - 1
      ensures LineIntact(tb', mem, i, j)
    {
      var k := RearrangedFrom(tb.pages, tb'.pages, i);
      assert LineIntact(tb, mem, k, j);
      forall w | 0 <= w < |tb.words|
        ensures tb'.Joined(mem, Slot(i, j, w), Slot(i, j + 1, w))
      {
        assert tb.Joined(mem, Slot(k, j, w), Slot(k, j + 1, w));
      }
    }
  }

  /** A rearranged page list describes the same intact memory. */
  lemma RearrangedMeasurable(tb: Tables, tb': Tables, mem: seq<int>)
    requires Measurable(tb, mem) && tb' == tb.(pages := tb'.pages) && Rearranged(tb.pages, tb'.pages)
    ensures Measurable(tb', mem)
  {
    MulMono(1, |tb.lines|, tb.line);
    RearrangedApart(tb.pages, tb'.pages, tb.pagesize, 0, |mem| - tb.pagesize);
    RearrangedIntact(tb, tb', mem);
  }

  lemma ApartDistinct(s: seq<int>, d: int)
    requires Apart(s, d) && d > 0
    ensures Distinct(s)
  {
  }

  // ----- the state of cache.c

  ghost predicate CacheValid(state: MemState)
    reads state, state.mem, state.pages, state.lines, state.words
  {
    && state.mem != state.pages && state.mem != state.lines && state.mem != state.words
    && state.pages != state.lines && state.pages != state.words
    && Measurable(state.Tb(), state.mem[..])
  }

  /** collect_data calls mem_initialize on the whole scratch buffer; measure may follow. */
  lemma ReadyToMeasure(state: MemState)
    requires state.Valid() && state.npages == state.pages.Length && MemSweep(state).last == state.nlines
    requires MemSweep(state).Fits(state.Tb()) && MemSweep(state).Linked(state.Tb(), state.mem[..])
    ensures CacheValid(state)
  {
    state.TablesFit();
    state.GeometryFacts();
    var tb, sw := state.Tb(), MemSweep(state);
    forall i, j | 0 <= i < |tb.pages| && 0 <= j < |tb.lines| - 1
      ensures LineIntact(tb, state.mem[..], i, j)
    {
      forall w | 0 <= w < |tb.words|
        ensures tb.Joined(state.mem[..], Slot(i, j, w), Slot(i, j + 1, w))
      {
        assert sw.Has(Slot(i, j, w)) && sw.Next(Slot(i, j, w)) == Slot(i, j + 1, w);
      }
    }
  }

  /** measure: the state stays measurable, and the one run was on state->mem as the page list says. */
  method Measure(bench: Bench, state: MemState, size: nat) returns (t: real)
    requires bench.Valid() && CacheValid(state) && SizeOk(size, state.pagesize, state.line, state.pages.Length)
    modifies bench, state.mem
    ensures bench.Valid() && CacheValid(state)
    ensures MeasureSweep(state.Tb(), size).Ok() && MeasureSweep(state.Tb(), size).Fits(state.Tb())
    ensures OneMore(old(bench.log), bench.log)
    ensures RanOn(bench.log[|old(bench.log)|], state.mem, state.Tb(), size, t)
  {
    var tb := Tables(state.pages[..], state.lines[..], state.words[..], state.pagesize, state.line, state.ptr);
    t := MeasureChain(bench, state.mem, tb, size);
    assert state.Tb() == tb;
  }
}
