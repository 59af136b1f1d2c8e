/** line_initialize and line_test of lib_mem.c: a chain through the first word of every line,
    and the shorter chain that samples one line in every `line` bytes. */
module LineTests {
  import opened Arith
  import opened Benchmarks
  import opened BitReversal
  import opened Chains
  import opened Layouts
  import opened MemStates
  import opened MemLib
  import opened Swaps

  /** The tables of line_initialize: only the first word of a line is used. */
  ghost function LineTb(state: MemState): Tables
    reads state, state.pages, state.lines
  {
    Tables(state.pages[..], state.lines[..], [0], state.pagesize, state.line, state.ptr)
  }

  ghost predicate LineValid(state: MemState)
    reads state, state.pages, state.lines
  {
    && state.Based()
    && state.lines != state.mem && state.lines != state.pages
    && state.lines[..] == WordOrder(state.nlines, state.line)
  }

  lemma LineTablesFit(state: MemState)
    requires LineValid(state)
    ensures LineTb(state).Wf(state.mem.Length) && state.nlines > 0 && |LineTb(state).lines| == state.nlines
  {
    state.GeometryFacts();
    WordOrderFits(state.nlines, state.line, state.pagesize);
  }

  /** The chain over the first `nlines` table lines of every page. */
  ghost function LineSweep(npages: nat, nlines: nat): Sweep {
    Sweep(npages, nlines, nlines, 1)
  }

  /** line_initialize, called with iterations == 0 */
  method LineInitialize(state: MemState, draw: nat -> nat) returns (p0: int)
    requires state.Geometry()
    modifies state
    ensures LineValid(state) && fresh(state.mem) && fresh(state.pages) && fresh(state.lines)
    ensures Rearranged(Ascending(state.pages.Length, state.pagesize), state.pages[..])
    ensures state.nlines > 0 && LineSweep(state.npages, state.nlines).Fits(LineTb(state))
    ensures LineSweep(state.npages, state.nlines).Linked(LineTb(state), state.mem[..])
    ensures IsCycle(state.mem[..], LineSweep(state.npages, state.nlines).Order(LineTb(state)))
    ensures p0 == LineSweep(state.npages, state.nlines).Order(LineTb(state))[0]
  {
    BaseInitialize(state, draw);
    state.lines := WordsInitialize(state.nlines, state.line);
    LineTablesFit(state);
    var tb := Tables(state.pages[..], state.lines[..], [0], state.pagesize, state.line, state.ptr);
    ghost var sw := LineSweep(state.npages, state.nlines);
    ThreadLines(state.mem, tb, state.npages, state.nlines);
    sw.LinkedIsCycle(tb, state.mem[..]);
    sw.OrderStart(tb);
    p0 := tb.pages[0] + tb.lines[0];
  }

  /** The loops of line_initialize. */
  method ThreadLines(mem: array<int>, tb: Tables, npages: nat, nlines: nat)
    requires npages > 0 && nlines > 0 && tb.words == [0] && tb.Wf(mem.Length)
    requires LineSweep(npages, nlines).Fits(tb)
    modifies mem
    ensures LineSweep(npages, nlines).Linked(tb, mem[..])
  {
    ghost var sw := LineSweep(npages, nlines);
    for i := 0 to npages
      invariant PagesLead(tb, sw, mem[..], i)
    {
      ghost var before := mem[..];
      ThreadLine(mem, tb, sw, i, nlines);
      ghost var inner := mem[..];
      var next := if i < npages - 1 then i + 1 else 0;
      Tables.Store(mem, tb.pages[i] + tb.lines[nlines - 1], tb.pages[next] + tb.lines[0],
        tb, Slot(i, nlines - 1, 0), Slot(next, 0, 0));
      NextPage(tb, sw, before, inner, mem[..], i);
    }
    PagesLeadOn(tb, sw, mem[..]);
  }

  /** The word of line j of page i leads on. */
  ghost predicate LineLeads(tb: Tables, sw: Sweep, mem: seq<int>, i: nat, j: nat) {
    tb.Joined(mem, Slot(i, j, 0), sw.Next(Slot(i, j, 0)))
  }

  ghost predicate PagesLead(tb: Tables, sw: Sweep, mem: seq<int>, pages: nat) {
    forall i, j :: 0 <= i < pages && 0 <= j < sw.nlines ==> LineLeads(tb, sw, mem, i, j)
  }

  ghost predicate OnlyPage(tb: Tables, before: seq<int>, after: seq<int>, i: nat) {
    forall s {:trigger tb.Peek(after, s)} :: tb.Has(s) && s.page != i ==> tb.Peek(after, s) == tb.Peek(before, s)
  }

  lemma NextPage(tb: Tables, sw: Sweep, before: seq<int>, inner: seq<int>, after: seq<int>, i: nat)
    requires sw.nlines > 0 && PagesLead(tb, sw, before, i) && OnlyPage(tb, before, inner, i)
    requires forall j :: 0 <= j < sw.nlines - 1 ==> LineLeads(tb, sw, inner, i, j)
    requires LineLeads(tb, sw, after, i, sw.nlines - 1) && tb.OnlySlot(inner, after, Slot(i, sw.nlines - 1, 0))
    ensures PagesLead(tb, sw, after, i + 1)
  {
    forall p, j | 0 <= p < i + 1 && 0 <= j < sw.nlines
      ensures LineLeads(tb, sw, after, p, j)
    {
      if p < i {
        assert LineLeads(tb, sw, before, p, j);
      } else if j < sw.nlines - 1 {
        assert LineLeads(tb, sw, inner, i, j);
      }
    }
  }

  lemma PagesLeadOn(tb: Tables, sw: Sweep, mem: seq<int>)
    requires sw.Ok() && sw.Fits(tb) && sw.last == sw.nlines && sw.nwords == 1 && PagesLead(tb, sw, mem, sw.npages)
    ensures sw.Linked(tb, mem)
  {
    forall s | sw.Has(s)
      ensures tb.Joined(mem, s, sw.Next(s))
    {
      assert LineLeads(tb, sw, mem, s.page, s.line);
    }
  }

  /** The inner loop: one page, but for its last line. */
  method ThreadLine(mem: array<int>, tb: Tables, ghost sw: Sweep, i: nat, nlines: nat)
    requires tb.words == [0] && tb.Wf(mem.Length) && sw.Ok() && sw.Fits(tb)
    requires sw == LineSweep(sw.npages, nlines) && i < sw.npages
    modifies mem
    ensures forall j :: 0 <= j < nlines - 1 ==> LineLeads(tb, sw, mem[..], i, j)
    ensures OnlyPage(tb, old(mem[..]), mem[..], i)
  {
    for j := 0 to nlines - 1
      invariant forall k :: 0 <= k < j ==> LineLeads(tb, sw, mem[..], i, k)
      invariant OnlyPage(tb, old(mem[..]), mem[..], i)
    {
      ghost var before := mem[..];
      Tables.Store(mem, tb.pages[i] + tb.lines[j], tb.pages[i] + tb.lines[j + 1],
        tb, Slot(i, j, 0), Slot(i, j + 1, 0));
      NextLine(tb, sw, before, mem[..], i, j);
    }
  }

  lemma NextLine(tb: Tables, sw: Sweep, before: seq<int>, after: seq<int>, i: nat, j: nat)
    requires forall k :: 0 <= k < j ==> LineLeads(tb, sw, before, i, k)
    requires LineLeads(tb, sw, after, i, j) && tb.OnlySlot(before, after, Slot(i, j, 0))
    ensures forall k :: 0 <= k < j + 1 ==> LineLeads(tb, sw, after, i, k)
  {
    forall k | 0 <= k < j
      ensures LineLeads(tb, sw, after, i, k)
    {
      assert LineLeads(tb, sw, before, i, k);
    }
  }

  /** line_test: memory is as before, and the one run of the benchmark was on state->mem while it was
      one cycle over the first pagesize / line table lines of every page. */
  method LineTest(bench: Bench, state: MemState, line: nat) returns (t: real)
    requires bench.Valid() && LineValid(state) && state.nlines > 0
    requires LineSweep(state.npages, state.nlines).Fits(LineTb(state))
    requires LineSweep(state.npages, state.nlines).Linked(LineTb(state), state.mem[..])
    requires 0 < line <= state.pagesize && state.line <= line
    modifies bench, state.mem
    ensures bench.Valid() && state.mem[..] == old(state.mem[..])
    ensures 0 < state.pagesize / line <= state.nlines
    ensures OneMore(old(bench.log), bench.log)
    ensures SampledOn(bench.log[|old(bench.log)|], state.mem, LineTb(state), state.npages, state.pagesize / line, t)
  {
    LineTablesFit(state);
    DivMono(state.pagesize, state.line, line);
    var tb := Tables(state.pages[..], state.lines[..], [0], state.pagesize, state.line, state.ptr);
    t := SampleLines(bench, state.mem, tb, state.npages, state.nlines, state.pagesize / line);
  }

  /** A run on the first nlines table lines of npages pages. */
  ghost predicate SampledOn(run: Run, mem: array<int>, tb: Tables, npages: nat, nlines: nat, t: real)
    requires npages > 0 && nlines > 0 && LineSweep(npages, nlines).Fits(tb)
  {
    run.at == mem && run.order == LineSweep(npages, nlines).Order(tb) && run.time == t
  }

  method SampleLines(bench: Bench, mem: array<int>, tb: Tables, npages: nat, allLines: nat, nlines: nat)
    returns (t: real)
    requires bench.Valid()
    requires npages > 0 && 0 < nlines <= allLines && tb.words == [0] && tb.Wf(mem.Length)
    requires LineSweep(npages, allLines).Fits(tb) && LineSweep(npages, allLines).Linked(tb, mem[..])
    modifies bench, mem
    ensures bench.Valid() && mem[..] == old(mem[..])
    ensures OneMore(old(bench.log), bench.log)
    ensures SampledOn(bench.log[|old(bench.log)|], mem, tb, npages, nlines, t)
  {
    if nlines < allLines {
      Splice(mem, tb, npages, allLines, nlines);
    }
    ghost var sw := LineSweep(npages, nlines);
    sw.LinkedIsCycle(tb, mem[..]);
    t := bench.Go(mem, sw.Order(tb), tb.pages[npages - 1]);
    if nlines < allLines {
      Unsplice(mem, tb, npages, allLines, nlines, old(mem[..]));
    }
  }

  /** The cells line_test redirects: line c of every page. */
  ghost function CutCells(tb: Tables, npages: nat, c: nat): set<int>
    requires npages <= |tb.pages| && c < |tb.lines|
  {
    set i | 0 <= i < npages :: tb.pages[i] + tb.lines[c]
  }

  ghost predicate SameOutside(mem: seq<int>, mem': seq<int>, cells: set<int>) {
    |mem| == |mem'| && forall o :: 0 <= o < |mem| && o !in cells ==> mem'[o] == mem[o]
  }

  /** Line c of every page below i holds its successor in the chain sw. */
  ghost predicate CutJoined(tb: Tables, sw: Sweep, mem: seq<int>, c: nat, i: nat) {
    forall k :: 0 <= k < i ==> tb.Joined(mem, Slot(k, c, 0), sw.Next(Slot(k, c, 0)))
  }

  /** Line c of one more page has been redirected. */
  lemma NextCut(tb: Tables, sw: Sweep, first: seq<int>, before: seq<int>, after: seq<int>, npages: nat, c: nat, i: nat,
                to: int)
    requires i < npages <= |tb.pages| && c < |tb.lines| && |tb.words| > 0
    requires CutJoined(tb, sw, before, c, i) && SameOutside(first, before, CutCells(tb, npages, c))
    requires tb.Joined(after, Slot(i, c, 0), sw.Next(Slot(i, c, 0))) && tb.OnlySlot(before, after, Slot(i, c, 0))
    requires var at := tb.pages[i] + tb.lines[c]; 0 <= at < |before| && after == before[at := to]
    ensures CutJoined(tb, sw, after, c, i + 1) && SameOutside(first, after, CutCells(tb, npages, c))
  {
    assert tb.pages[i] + tb.lines[c] in CutCells(tb, npages, c);
    forall k | 0 <= k < i + 1
      ensures tb.Joined(after, Slot(k, c, 0), sw.Next(Slot(k, c, 0)))
    {
      if k < i { assert tb.Joined(before, Slot(k, c, 0), sw.Next(Slot(k, c, 0))); }
    }
  }

  method Splice(mem: array<int>, tb: Tables, npages: nat, allLines: nat, nlines: nat)
    requires npages > 0 && 0 < nlines < allLines && tb.words == [0] && tb.Wf(mem.Length)
    requires LineSweep(npages, allLines).Fits(tb) && LineSweep(npages, allLines).Linked(tb, mem[..])
    modifies mem
    ensures LineSweep(npages, nlines).Linked(tb, mem[..])
    ensures SameOutside(old(mem[..]), mem[..], CutCells(tb, npages, nlines - 1))
  {
    CutPages(mem, tb, npages, nlines);
    ShorterChain(tb, npages, allLines, nlines, old(mem[..]), mem[..]);
  }

  method CutPages(mem: array<int>, tb: Tables, npages: nat, nlines: nat)
    requires npages > 0 && nlines > 0 && tb.words == [0] && tb.Wf(mem.Length)
    requires LineSweep(npages, nlines).Fits(tb)
    modifies mem
    ensures CutJoined(tb, LineSweep(npages, nlines), mem[..], nlines - 1, npages)
    ensures SameOutside(old(mem[..]), mem[..], CutCells(tb, npages, nlines - 1))
  {
    ghost var sw, c, first := LineSweep(npages, nlines), nlines - 1, mem[..];
    for i := 0 to npages - 1
      invariant CutJoined(tb, sw, mem[..], c, i) && SameOutside(first, mem[..], CutCells(tb, npages, c))
    {
      CutPage(mem, tb, npages, nlines, i, i + 1, first);
    }
    CutPage(mem, tb, npages, nlines, npages - 1, 0, first);
  }

  /** The last line of the shorter chain on page i leads to the first line of page `next`. */
  method CutPage(mem: array<int>, tb: Tables, npages: nat, nlines: nat, i: nat, next: nat, ghost first: seq<int>)
    requires i < npages && nlines > 0 && next == (if i == npages - 1 then 0 else i + 1)
    requires tb.words == [0] && tb.Wf(mem.Length) && LineSweep(npages, nlines).Fits(tb)
    requires CutJoined(tb, LineSweep(npages, nlines), mem[..], nlines - 1, i)
    requires SameOutside(first, mem[..], CutCells(tb, npages, nlines - 1))
    modifies mem
    ensures CutJoined(tb, LineSweep(npages, nlines), mem[..], nlines - 1, i + 1)
    ensures SameOutside(first, mem[..], CutCells(tb, npages, nlines - 1))
  {
    ghost var before, sw, c := mem[..], LineSweep(npages, nlines), nlines - 1;
    var to := tb.pages[next] + tb.lines[0];
    Tables.Store(mem, tb.pages[i] + tb.lines[nlines - 1], to, tb, Slot(i, c, 0), Slot(next, 0, 0));
    NextCut(tb, sw, first, before, mem[..], npages, c, i, to);
  }

  lemma ShorterChain(tb: Tables, npages: nat, allLines: nat, nlines: nat, before: seq<int>, after: seq<int>)
    requires npages > 0 && 0 < nlines < allLines && tb.words == [0] && tb.Wf(|before|)
    requires LineSweep(npages, allLines).Fits(tb) && LineSweep(npages, allLines).Linked(tb, before)
    requires SameOutside(before, after, CutCells(tb, npages, nlines - 1))
    requires CutJoined(tb, LineSweep(npages, nlines), after, nlines - 1, npages)
    ensures LineSweep(npages, nlines).Linked(tb, after)
  {
    var sw, all, c := LineSweep(npages, nlines), LineSweep(npages, allLines), nlines - 1;
    forall s | sw.Has(s)
      ensures tb.Joined(after, s, sw.Next(s))
    {
      if s.line == c {
        assert s == Slot(s.page, c, 0);
      } else {
        tb.AtBounds(|before|, s);
        assert tb.At(s) !in CutCells(tb, npages, c) by {
          forall k | 0 <= k < npages
            ensures tb.At(s) != tb.At(Slot(k, c, 0))
          {
            tb.AtInjective(|before|, s, Slot(k, c, 0));
          }
        }
        assert tb.Joined(before, s, all.Next(s));
      }
    }
  }

  /** The fix-up puts back exactly what line_initialize had stored. */
  method Unsplice(mem: array<int>, tb: Tables, npages: nat, allLines: nat, nlines: nat, ghost before: seq<int>)
    requires npages > 0 && 0 < nlines < allLines && tb.words == [0] && tb.Wf(mem.Length)
    requires LineSweep(npages, allLines).Fits(tb) && LineSweep(npages, allLines).Linked(tb, before)
    requires SameOutside(before, mem[..], CutCells(tb, npages, nlines - 1))
    modifies mem
    ensures mem[..] == before
  {
    JoinLines(mem, tb, npages, allLines, nlines, before);
    SameInCells(tb, npages, allLines, nlines - 1, before, mem[..]);
  }

  method JoinLines(mem: array<int>, tb: Tables, npages: nat, ghost allLines: nat, nlines: nat, ghost before: seq<int>)
    requires npages > 0 && 0 < nlines < allLines && tb.words == [0] && tb.Wf(mem.Length)
    requires LineSweep(npages, allLines).Fits(tb)
    requires SameOutside(before, mem[..], CutCells(tb, npages, nlines - 1))
    modifies mem
    ensures CutJoined(tb, LineSweep(npages, allLines), mem[..], nlines - 1, npages)
    ensures SameOutside(before, mem[..], CutCells(tb, npages, nlines - 1))
  {
    ghost var all, c := LineSweep(npages, allLines), nlines - 1;
    for i := 0 to npages - 1
      invariant CutJoined(tb, all, mem[..], c, i)
      invariant SameOutside(before, mem[..], CutCells(tb, npages, c))
    {
      ghost var cut := mem[..];
      Tables.Store(mem, tb.pages[i] + tb.lines[nlines - 1], tb.pages[i] + tb.lines[nlines],
        tb, Slot(i, c, 0), Slot(i, nlines, 0));
      NextCut(tb, all, before, cut, mem[..], npages, c, i, tb.pages[i] + tb.lines[nlines]);
    }
    var last := npages - 1;
    ghost var cut := mem[..];
    Tables.Store(mem, tb.pages[last] + tb.lines[nlines - 1], tb.pages[last] + tb.lines[nlines],
      tb, Slot(last, c, 0), Slot(last, nlines, 0));
    NextCut(tb, all, before, cut, mem[..], npages, c, last, tb.pages[last] + tb.lines[nlines]);
  }

  lemma SameInCells(tb: Tables, npages: nat, allLines: nat, c: nat, before: seq<int>, after: seq<int>)
    requires npages > 0 && c < allLines && tb.words == [0] && tb.Wf(|before|)
    requires LineSweep(npages, allLines).Fits(tb) && LineSweep(npages, allLines).Linked(tb, before)
    requires SameOutside(before, after, CutCells(tb, npages, c))
    requires CutJoined(tb, LineSweep(npages, allLines), after, c, npages)
    ensures after == before
  {
    var all := LineSweep(npages, allLines);
    forall o | 0 <= o < |before| && o in CutCells(tb, npages, c)
      ensures after[o] == before[o]
    {
      var k :| 0 <= k < npages && o == tb.pages[k] + tb.lines[c];
      var s := Slot(k, c, 0);
      assert tb.At(s) == o;
      assert tb.Joined(after, s, all.Next(s));
      assert tb.Joined(before, s, all.Next(s));
    }
  }

  lemma DivMono(n: nat, a: nat, b: nat)
    requires 0 < a <= b <= n
    ensures 0 < n / b <= n / a
  {
    Digits(n, a);
    Digits(n, b);
    MulCompare(0, n / b + 1, b);
    if n / a < n / b {
      MulMono(n / a + 1, n / b, a);
      MulMono(a, b, n / b);
      MulSucc(n / a, a);
    }
  }

  /** The lines sampled for a candidate size of 2^more table lines are the multiples of that
      size: entry j of the table is such a multiple, a different one for every j ... */
  lemma SampledLine(nlines: nat, line: nat, few: nat, more: nat, j: nat)
    requires nlines == Pow2(few + more) && j < Pow2(few)
    ensures j < nlines && WordOrder(nlines, line)[j] == line * Pow2(more) * Rev(j, few)
  {
    Log2Pow2(few + more);
    FewerBelow(few, more);
    RevPrefix(j, few, more);
    MulAssoc(line, Pow2(more), Rev(j, few));
  }

  lemma FewerBelow(few: nat, more: nat)
    ensures Pow2(few) <= Pow2(few + more)
  {
    Pow2Add(few, more);
    MulMono(1, Pow2(more), Pow2(few));
  }

  /** ... and every multiple below the page size is sampled. */
  lemma MultipleSampled(nlines: nat, line: nat, few: nat, more: nat, m: nat)
    requires nlines == Pow2(few + more) && m < Pow2(few)
    ensures Rev(m, few) < nlines && WordOrder(nlines, line)[Rev(m, few)] == line * Pow2(more) * m
  {
    SampledLine(nlines, line, few, more, Rev(m, few));
    RevInvolution(m, few);
  }

  /** For a candidate size that is a power of two of table lines, the cells that line_test samples are
      exactly the multiples of that size on every page. */
  lemma SampledCells(state: MemState, line: nat, more: nat, o: int)
    requires LineValid(state) && state.nlines > 0 && line == state.line * Pow2(more) && line <= state.pagesize
    requires state.pagesize / line > 0
    requires LineSweep(state.npages, state.pagesize / line).Fits(LineTb(state))
    ensures o in LineSweep(state.npages, state.pagesize / line).Order(LineTb(state)) <==>
            exists i, m ::
              0 <= i < state.npages && 0 <= m < state.pagesize / line && OnPage(state.pages[..], i, m, line, o)
  {
    var few := Candidates(state, line, more);
    var tb, sw := LineTb(state), LineSweep(state.npages, state.pagesize / line);
    assert |tb.lines| == Pow2(few + more);
    if o in sw.Order(tb) {
      var i, m := CellOnPage(tb, state.npages, state.line, few, more, line, o);
    }
    if i, m :| 0 <= i < state.npages && 0 <= m < state.pagesize / line && OnPage(tb.pages, i, m, line, o) {
      CellSampled(tb, state.npages, state.line, few, more, line, i, m);
    }
  }

  lemma CellOnPage(tb: Tables, npages: nat, tableLine: nat, few: nat, more: nat, line: nat, o: int)
    returns (i: nat, m: nat)
    requires npages > 0 && tb.lines == WordOrder(Pow2(few + more), tableLine) && tb.words == [0]
    requires line == tableLine * Pow2(more) && LineSweep(npages, Pow2(few)).Fits(tb)
    requires o in LineSweep(npages, Pow2(few)).Order(tb)
    ensures i < npages && m < Pow2(few) && OnPage(tb.pages, i, m, line, o)
  {
    var sw := LineSweep(npages, Pow2(few));
    sw.VisitsAll();
    var t :| 0 <= t < |sw.Order(tb)| && sw.Order(tb)[t] == o;
    var s := sw.Visits()[t];
    SampledLine(Pow2(few + more), tableLine, few, more, s.line);
    i, m := s.page, Rev(s.line, few);
  }

  lemma CellSampled(tb: Tables, npages: nat, tableLine: nat, few: nat, more: nat, line: nat, i: nat, m: nat)
    requires npages > 0 && tb.lines == WordOrder(Pow2(few + more), tableLine) && tb.words == [0]
    requires line == tableLine * Pow2(more) && LineSweep(npages, Pow2(few)).Fits(tb)
    requires i < npages && m < Pow2(few)
    ensures tb.pages[i] + line * m in LineSweep(npages, Pow2(few)).Order(tb)
  {
    MultipleSampled(Pow2(few + more), tableLine, few, more, m);
    LineSweep(npages, Pow2(few)).OrderPasses(tb, Slot(i, Rev(m, few), 0));
  }

  /** o is m candidate lines into page i. */
  ghost predicate OnPage(pages: seq<int>, i: int, m: int, line: nat, o: int) {
    0 <= i < |pages| && o == pages[i] + line * m
  }

  lemma Candidates(state: MemState, line: nat, more: nat) returns (few: nat)
    requires LineValid(state) && line == state.line * Pow2(more) && line <= state.pagesize
    ensures line > 0 && state.pagesize / line == Pow2(few) && state.nlines == Pow2(few + more)
  {
    state.GeometryFacts();
    few := CandidateBits(state.pagesize, state.line, Log2(state.nlines), line, more);
  }

  lemma CandidateBits(pagesize: nat, tableLine: nat, all: nat, line: nat, more: nat) returns (few: nat)
    requires tableLine > 0 && pagesize == Pow2(all) * tableLine && line == tableLine * Pow2(more) <= pagesize
    ensures line > 0 && pagesize / line == Pow2(few) && all == few + more
  {
    MulMono(1, Pow2(more), tableLine);
    MulCompare(Pow2(more), Pow2(all) + 1, tableLine);
    if all < more { Pow2Above(all, more); }
    few := all - more;
    Pow2Add(few, more);
    Reorder(Pow2(few), Pow2(more), tableLine);
    Quotient(Pow2(few), 0, line);
  }

  lemma Reorder(a: int, b: int, c: int)
    ensures a * b * c == a * (c * b)
  {
  }

  lemma {:induction false} Pow2Above(a: nat, b: nat)
    requires a < b
    ensures Pow2(a) < Pow2(b)
    decreases b
  {
    if a < b - 1 { Pow2Above(a, b - 1); }
  }
}
