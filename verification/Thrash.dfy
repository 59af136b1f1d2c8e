/** thrash_initialize of lib_mem.c: every access is on a different page from the one before. */
module Thrashing {
  import opened Arith
  import opened BitReversal
  import opened Chains
  import opened Layouts
  import opened MemStates
  import opened MemLib
  import opened LineTests
  import opened Swaps

  // ----- positions on a ring

  lemma RingForth(i: int, j: int, n: nat)
    requires 0 <= j < n
    ensures ((i + j) % n - i) % n == j
  {
    RingShift(i + j, -i, n);
    ModSmall(j, n);
  }

  lemma RingBack(i: int, x: int, n: nat)
    requires 0 <= x < n
    ensures (i + (x - i) % n) % n == x
  {
    RingShift(x - i, i, n);
    ModSmall(x, n);
  }

  /** Reducing before adding makes no difference. */
  lemma RingShift(a: int, b: int, n: nat)
    requires n > 0
    ensures (a % n + b) % n == (a + b) % n
  {
    var q, q' := a / n, (a % n + b) / n;
    IntDigits(a, n);
    IntDigits(a % n + b, n);
    IntDigits(a + b, n);
    MulSum(n, q, q');
    SameDigits(q + q', (a % n + b) % n, (a + b) / n, (a + b) % n, n);
  }

  lemma IntDigits(a: int, n: nat)
    requires n > 0
    ensures a == a / n * n + a % n && 0 <= a % n < n
  {
  }

  lemma ModSmall(x: int, n: nat)
    requires 0 <= x < n
    ensures x % n == x
  {
    Quotient(0, x, n);
  }

  // ----- the order

  /** npages pages with nwords used words each; slots use the line table for those words. */
  datatype Thrash = Thrash(npages: nat, nwords: nat)
  {
    ghost predicate Ok() {
      npages > 0 && nwords > 0
    }

    ghost predicate Has(s: Slot) {
      s.page < npages && s.line < nwords && s.word == 0
    }

    /** Which lap of the pages uses a slot. */
    ghost function LapOf(s: Slot): nat
      requires Ok()
    {
      (s.line - s.page) % nwords
    }

    ghost function SlotOf(lap: int, page: nat): Slot
      requires Ok()
    {
      Slot(page, (page + lap) % nwords, 0)
    }

    ghost function Next(s: Slot): Slot
      requires Ok()
    {
      if s.page + 1 < npages then SlotOf(LapOf(s), s.page + 1) else SlotOf(LapOf(s) + 1, 0)
    }

    ghost function Visits(): (slots: seq<Slot>)
      requires Ok()
      ensures |slots| == nwords * npages
    {
      seq(nwords * npages, (t: nat) => SlotOf(t / npages, t % npages))
    }

    lemma SlotOfLap(lap: nat, page: nat)
      requires Ok() && lap < nwords && page < npages
      ensures Has(SlotOf(lap, page)) && LapOf(SlotOf(lap, page)) == lap
    {
      RingForth(page, lap, nwords);
    }

    lemma SlotIsOfLap(s: Slot)
      requires Ok() && Has(s)
      ensures LapOf(s) < nwords && s == SlotOf(LapOf(s), s.page)
    {
      RingBack(s.page, s.line, nwords);
    }

    lemma VisitAt(lap: nat, page: nat)
      requires Ok() && lap < nwords && page < npages
      ensures lap * npages + page < |Visits()| && Visits()[lap * npages + page] == SlotOf(lap, page)
    {
      MulGap(lap, nwords, npages);
      Quotient(lap, page, npages);
    }

    /** Every slot is visited once, one page after another, one word further on every lap. */
    lemma VisitsAll()
      requires Ok()
      ensures |Visits()| > 0
      ensures forall t :: 0 <= t < |Visits()| ==>
                Has(Visits()[t]) && Visits()[t].page == t % npages && LapOf(Visits()[t]) == t / npages
      ensures Distinct(Visits())
    {
      MulMono(1, nwords, npages);
      forall t | 0 <= t < |Visits()|
        ensures Has(Visits()[t]) && Visits()[t].page == t % npages && LapOf(Visits()[t]) == t / npages
      {
        Digits(t, npages);
        MulCompare(t / npages, nwords, npages);
        SlotOfLap(t / npages, t % npages);
      }
      forall t, t' | 0 <= t < t' < |Visits()|
        ensures Visits()[t] != Visits()[t']
      {
        Digits(t, npages);
        Digits(t', npages);
      }
    }

    lemma VisitsStep(t: nat)
      requires Ok() && t < |Visits()|
      ensures Next(Visits()[t]) == Visits()[if t == |Visits()| - 1 then 0 else t + 1]
    {
      var lap, page := t / npages, t % npages;
      Digits(t, npages);
      MulCompare(lap, nwords, npages);
      SlotOfLap(lap, page);
      MulSucc(lap, npages);
      if page + 1 < npages {
        VisitAt(lap, page + 1);
      } else if lap + 1 < nwords {
        VisitAt(lap + 1, 0);
      } else {
        LapsEnd();
      }
    }

    lemma LapsEnd()
      requires Ok()
      ensures |Visits()| == nwords * npages > 0 && Visits()[0] == SlotOf(0, 0) == SlotOf(nwords, 0)
    {
      VisitAt(0, 0);
      Quotient(1, 0, nwords);
      ModSmall(0, nwords);
    }

    ghost predicate Fits(tb: Tables) {
      npages <= |tb.pages| && nwords <= |tb.lines| && |tb.words| > 0
    }

    ghost function Order(tb: Tables): seq<int>
      requires Ok() && Fits(tb)
    {
      VisitsAll();
      tb.Cells(Visits())
    }

    lemma OrderStart(tb: Tables)
      requires Ok() && Fits(tb)
      ensures |Order(tb)| > 0 && Order(tb)[0] == tb.At(Slot(0, 0, 0))
    {
      VisitsAll();
      VisitAt(0, 0);
      ModSmall(0, nwords);
    }

    ghost predicate Linked(tb: Tables, mem: seq<int>)
      requires Ok() && Fits(tb)
    {
      forall s :: Has(s) ==> tb.Joined(mem, s, Next(s))
    }

    lemma LinkedIsCycle(tb: Tables, mem: seq<int>)
      requires Ok() && Fits(tb) && tb.Wf(|mem|) && Linked(tb, mem)
      ensures IsCycle(mem, Order(tb))
    {
      VisitsAll();
      forall t | 0 <= t < |Visits()|
        ensures tb.Joined(mem, Visits()[t], Visits()[if t == |Visits()| - 1 then 0 else t + 1])
      {
        VisitsStep(t);
      }
      tb.SlotsMakeCycle(Visits(), mem);
    }

    /** With two pages or more no two consecutive accesses are on the same page, and npages accesses
        later the chain is on the same page, at the next word of the word table, also when it starts
        over. */
    lemma Laps(t: nat)
      requires Ok() && t < |Visits()|
      ensures npages >= 2 ==> Next(Visits()[t]).page != Visits()[t].page
      ensures var later := Visits()[(t + npages) % |Visits()|];
              later.page == Visits()[t].page && later.line == (Visits()[t].line + 1) % nwords
    {
      VisitsStep(t);
      var lap, page := t / npages, t % npages;
      Digits(t, npages);
      MulSucc(lap, npages);
      MulCompare(lap, nwords, npages);
      VisitAt(lap, page);
      if lap + 1 < nwords {
        VisitAt(lap + 1, page);
        ModSmall(t + npages, |Visits()|);
        RingShift(page + lap, 1, nwords);
      } else {
        LastLap(t, lap, page);
      }
    }

    lemma LastLap(t: nat, lap: nat, page: nat)
      requires Ok() && lap + 1 == nwords && page < npages && t == lap * npages + page
      ensures |Visits()| > 0 && Visits()[(t + npages) % |Visits()|] == SlotOf(0, page)
      ensures SlotOf(0, page).line == ((page + lap) % nwords + 1) % nwords
    {
      MulSucc(lap, npages);
      MulMono(1, nwords, npages);
      Quotient(1, page, |Visits()|);
      VisitAt(0, page);
      RingShift(page + lap, 1, nwords);
      RingShift(page + nwords, 0, nwords);
      ModStep(page, nwords);
    }
  }

  // ----- the builder

  /** The words of page i for the first `laps` laps lead on. */
  ghost predicate LapsLinked(tb: Tables, th: Thrash, mem: seq<int>, i: nat, laps: nat)
    requires th.Ok()
  {
    forall s :: th.Has(s) && s.page == i && th.LapOf(s) < laps ==> tb.Joined(mem, s, th.Next(s))
  }

  lemma NextLap(tb: Tables, th: Thrash, before: seq<int>, after: seq<int>, i: nat, j: nat)
    requires th.Ok() && i < th.npages && j < th.nwords && LapsLinked(tb, th, before, i, j)
    requires var cell := th.SlotOf(j, i);
             tb.Joined(after, cell, th.Next(cell)) && tb.OnlySlot(before, after, cell)
    ensures LapsLinked(tb, th, after, i, j + 1)
  {
    var cell := th.SlotOf(j, i);
    th.SlotOfLap(j, i);
    forall s | th.Has(s) && s.page == i && th.LapOf(s) < j + 1
      ensures tb.Joined(after, s, th.Next(s))
    {
      th.SlotIsOfLap(s);
      if s != cell { assert tb.Joined(before, s, th.Next(s)); }
    }
  }

  /** One page of the loops of thrash_initialize: word (i + j) of page i leads to word
      (k + j + 1) of the next page, where k is i, or 0 for the last page. */
  method ThrashPage(mem: array<int>, tb: Tables, ghost th: Thrash, i: nat, next: nat, nwords: nat)
    requires th.Ok() && th.Fits(tb) && tb.Wf(mem.Length) && tb.words == [0] && nwords == th.nwords
    requires i < th.npages && next == (if i + 1 < th.npages then i + 1 else 0)
    modifies mem
    ensures forall s :: th.Has(s) && s.page == i ==> tb.Joined(mem[..], s, th.Next(s))
    ensures forall s :: tb.Has(s) && s.page != i ==> tb.Peek(mem[..], s) == tb.Peek(old(mem[..]), s)
  {
    for j := 0 to nwords
      invariant LapsLinked(tb, th, mem[..], i, j)
      invariant forall s :: tb.Has(s) && s.page != i ==> tb.Peek(mem[..], s) == tb.Peek(old(mem[..]), s)
    {
      ghost var cell, before := th.SlotOf(j, i), mem[..];
      th.SlotOfLap(j, i);
      var cur := tb.pages[i] + tb.lines[(i + j) % nwords];
      var to := tb.pages[next] + tb.lines[(if next == 0 then j + 1 else i + j + 1) % nwords];
      Tables.Store(mem, cur, to, tb, cell, th.Next(cell));
      NextLap(tb, th, before, mem[..], i, j);
    }
    forall s | th.Has(s) && s.page == i
      ensures tb.Joined(mem[..], s, th.Next(s))
    {
      th.SlotIsOfLap(s);
    }
  }

  /** The whole-page branch of thrash_initialize. */
  method ThrashPages(mem: array<int>, tb: Tables, npages: nat, nwords: nat)
    requires Thrash(npages, nwords).Ok() && Thrash(npages, nwords).Fits(tb)
    requires tb.Wf(mem.Length) && tb.words == [0]
    modifies mem
    ensures IsCycle(mem[..], Thrash(npages, nwords).Order(tb))
  {
    ghost var th := Thrash(npages, nwords);
    for i := 0 to npages - 1
      invariant forall s :: th.Has(s) && s.page < i ==> tb.Joined(mem[..], s, th.Next(s))
    {
      ThrashPage(mem, tb, th, i, i + 1, nwords);
    }
    ThrashPage(mem, tb, th, npages - 1, 0, nwords);
    th.LinkedIsCycle(tb, mem[..]);
  }

  // ----- a buffer that is not whole pages

  /** The lines the chain over n lines touches: all if n is a power of two, else only those by which n
      exceeds the power of two below. */
  function Touched(n: nat): (r: nat)
    requires n > 0
    ensures 0 < r <= n
  {
    Log2Bounds(n);
    if n == Pow2(Log2(n)) then n else n - Pow2(Log2(n))
  }

  /** The entries of a period that have been linked last lead on. */
  ghost predicate Trailing(mem: seq<int>, order: seq<int>, p: nat, i: nat) {
    && (forall k :: 0 <= k < |order| ==> 0 <= order[k] < |mem|)
    && forall k :: 0 <= k < i <= k + p && k + 1 < |order| ==> mem[order[k]] == order[k + 1]
  }

  lemma TrailingNext(mem: seq<int>, n: nat, line: nat, i: nat)
    requires line > 0 && i + 1 < n && Trailing(mem, WordOrder(n, line), Pow2(Log2(n)), i)
    ensures var order := WordOrder(n, line);
            Trailing(mem[order[i] := order[i + 1]], order, Pow2(Log2(n)), i + 1)
  {
    var order, p := WordOrder(n, line), Pow2(Log2(n));
    forall k | 0 <= k < i && i + 1 <= k + p
      ensures order[k] != order[i]
    {
      NearApart(n, line, k, i);
    }
  }

  /** When the last entry has been led back to the first, the entries of the last period are a cycle. */
  lemma TrailingCycle(mem: seq<int>, n: nat, line: nat)
    requires n > 0 && line > 0 && Trailing(mem, WordOrder(n, line), Pow2(Log2(n)), n - 1)
    ensures var order := WordOrder(n, line);
            IsCycle(mem[order[n - 1] := order[0]], order[..Touched(n)])
  {
    var order, p, r := WordOrder(n, line), Pow2(Log2(n)), Touched(n);
    var mem' := mem[order[n - 1] := order[0]];
    Log2Bounds(n);
    forall t | 0 <= t < r
      ensures mem'[order[t]] == order[if t == r - 1 then 0 else t + 1]
    {
      TrailingAt(mem, n, line, t);
    }
    forall a, b | 0 <= a < b < r
      ensures order[a] != order[b]
    {
      NearApart(n, line, a, b);
    }
  }

  lemma TrailingAt(mem: seq<int>, n: nat, line: nat, t: nat)
    requires n > 0 && line > 0 && Trailing(mem, WordOrder(n, line), Pow2(Log2(n)), n - 1) && t < Touched(n)
    ensures var order := WordOrder(n, line);
            mem[order[n - 1] := order[0]][order[t]] == order[if t == Touched(n) - 1 then 0 else t + 1]
  {
    var order, p := WordOrder(n, line), Pow2(Log2(n));
    Log2Bounds(n);
    var k := if n == p then t else t + p;
    if n != p { OrderRepeats(n, line, t); }
    if k < n - 1 {
      NearApart(n, line, k, n - 1);
      if n != p { OrderRepeats(n, line, t + 1); }
    }
    LastLink(mem, order, p, t, k);
  }

  /** Entry k is the one of the last period that has the offset of entry t. */
  lemma LastLink(mem: seq<int>, order: seq<int>, p: nat, t: nat, k: nat)
    requires |order| > 0 && Trailing(mem, order, p, |order| - 1)
    requires t <= k < |order| <= k + p + 1 && order[k] == order[t]
    requires k < |order| - 1 ==> order[k] != order[|order| - 1] && order[k + 1] == order[t + 1]
    ensures mem[order[|order| - 1] := order[0]][order[t]] == order[if k == |order| - 1 then 0 else t + 1]
  {
  }

  /** The chain through all words of the buffer. */
  method ThrashWords(mem: array<int>, words: array<int>, nwords: nat, line: nat)
    requires mem != words && nwords > 0 && words[..] == WordOrder(nwords, line) && line > 0
    requires line * nwords <= mem.Length
    modifies mem
    ensures IsCycle(mem[..], WordOrder(nwords, line)[..Touched(nwords)]) && WordOrder(nwords, line)[0] == 0
  {
    ghost var order, p := WordOrder(nwords, line), Pow2(Log2(nwords));
    TrailingStart(mem[..], nwords, line);
    for i := 0 to nwords - 1
      invariant words[..] == order && Trailing(mem[..], order, p, i)
    {
      TrailingNext(mem[..], nwords, line, i);
      LinkWord(mem, order, words[i], words[i + 1]);
    }
    TrailingCycle(mem[..], nwords, line);
    LinkWord(mem, order, words[nwords - 1], 0);
  }

  lemma TrailingStart(mem: seq<int>, n: nat, line: nat)
    requires n > 0 && line > 0 && line * n <= |mem|
    ensures Trailing(mem, WordOrder(n, line), Pow2(Log2(n)), 0) && WordOrder(n, line)[0] == 0
  {
    WordOrderBelow(n, line);
    RevZero(Log2(n));
  }

  method LinkWord(mem: array<int>, ghost order: seq<int>, at: int, to: int)
    requires 0 <= at < mem.Length
    modifies mem
    ensures mem[..] == old(mem[..])[at := to]
  {
    mem[at] := to;
  }

  /** Following the pointers from the start reaches every line if and only if the number of lines is a
      power of two. */
  lemma AllLinesReached(mem: seq<int>, n: nat, line: nat)
    requires n > 0 && line > 0 && IsCycle(mem, WordOrder(n, line)[..Touched(n)]) && WordOrder(n, line)[0] == 0
    ensures (forall m: nat :: m < n ==> Reached(mem, line * m)) <==> IsPow2(n)
  {
    Log2Bounds(n);
    if IsPow2(n) {
      assert WordOrder(n, line)[..n] == WordOrder(n, line);
      forall m: nat | m < n
        ensures Reached(mem, line * m)
      {
        WordOrderCovers(n, line, m);
        CycleReaches(mem, WordOrder(n, line), Rev(m, Log2(n)));
      }
    } else {
      NotReached(mem, n, line);
    }
  }

  ghost predicate Reached(mem: seq<int>, o: int) {
    exists k: nat :: Follow(mem, 0, k) == o
  }

  lemma NotReached(mem: seq<int>, n: nat, line: nat)
    requires n > 0 && line > 0 && IsCycle(mem, WordOrder(n, line)[..Touched(n)]) && WordOrder(n, line)[0] == 0
    requires !IsPow2(n)
    ensures exists m: nat :: m < n && !Reached(mem, line * m)
  {
    var order, r := WordOrder(n, line), Touched(n);
    var m := Rev(r, Log2(n));
    Log2Bounds(n);
    forall k | 0 <= k < r
      ensures order[..r][k] != order[r]
    {
      NearApart(n, line, k, r);
    }
    OutsideCycle(mem, order[..r], order[r]);
    assert m < n && !Reached(mem, line * m);
  }

  lemma OutsideCycle(mem: seq<int>, order: seq<int>, o: int)
    requires IsCycle(mem, order) && order[0] == 0 && o !in order
    ensures !Reached(mem, o)
  {
    forall k: nat
      ensures Follow(mem, 0, k) != o
    {
      CycleStays(mem, order, k);
    }
  }

  /** A page and a half of 64-byte lines: 32 of the 96 lines are touched. With three lines the first one
      points to itself. */
  lemma PartialPages()
    ensures Touched(96) == 32 && Touched(3) == 1
  {
    assert Log2(96) == 6 && Pow2(6) == 64;
    assert Log2(3) == 1 && Pow2(1) == 2;
  }

  /** The tables of thrash_initialize: state->words holds one word per line of a page. */
  ghost function ThrashTb(state: MemState): Tables
    reads state, state.pages, state.words
  {
    Tables(state.pages[..], state.words[..], [0], state.pagesize, state.line, state.ptr)
  }

  /** thrash_initialize, called with iterations == 0. Over whole pages the chain is one cycle in
      thrashing order; otherwise it is one cycle over the touched lines of the buffer. The result is
      state->p[0], the cell where the benchmark starts: the first one of the cycle. */
  method ThrashInitialize(state: MemState, draw: nat -> nat) returns (p0: int)
    requires state.Sizes() && state.ptr <= state.line <= state.len
    requires state.len % state.pagesize == 0 ==> state.Geometry()
    modifies state
    ensures unchanged(state`len, state`line, state`pagesize) && state.line > 0 && state.pagesize > 0
    ensures state.len % state.pagesize == 0 ==>
              var th := Thrash(state.npages, state.pagesize / state.line);
              th.Ok() && th.Fits(ThrashTb(state)) && IsCycle(state.mem[..], th.Order(ThrashTb(state)))
              && p0 == th.Order(ThrashTb(state))[0]
    ensures state.len % state.pagesize != 0 ==>
              state.len / state.line > 0
              && var order := WordOrder(state.len / state.line, state.line);
                 IsCycle(state.mem[..], order[..Touched(state.len / state.line)]) && p0 == order[0] == 0
  {
    BaseInitialize(state, draw);
    if state.len % state.pagesize != 0 {
      ThrashBuffer(state);
      p0 := 0;
    } else {
      ThrashWholePages(state);
      p0 := state.pages[0];
    }
  }

  method ThrashBuffer(state: MemState)
    requires state.Laid() && state.line <= state.len
    modifies state`nwords, state`words, state.mem
    ensures state.line > 0 && state.len / state.line > 0
    ensures var order := WordOrder(state.len / state.line, state.line);
            IsCycle(state.mem[..], order[..Touched(state.len / state.line)]) && order[0] == 0
  {
    state.nwords := state.len / state.line;
    state.words := WordsInitialize(state.nwords, state.line);
    BufferHolds(state.len, state.line, state.pagesize, state.maxlen);
    ThrashWords(state.mem, state.words, state.nwords, state.line);
  }

  method ThrashWholePages(state: MemState)
    requires state.Based()
    modifies state`nwords, state`words, state.mem
    ensures fresh(state.words) && unchanged(state.pages) && 0 < state.npages <= state.pages.Length && state.line > 0
    ensures var th := Thrash(state.npages, state.pagesize / state.line);
            th.Ok() && th.Fits(ThrashTb(state)) && IsCycle(state.mem[..], th.Order(ThrashTb(state)))
            && state.pages[0] == th.Order(ThrashTb(state))[0]
  {
    state.GeometryFacts();
    state.nwords := state.pagesize / state.line;
    state.words := WordsInitialize(state.nwords, state.line);
    WordOrderFits(state.nwords, state.line, state.pagesize);
    var tb := Tables(state.pages[..], state.words[..], [0], state.pagesize, state.line, state.ptr);
    ThrashPages(state.mem, tb, state.npages, state.nwords);
    assert ThrashTb(state) == tb;
    Thrash(state.npages, state.nwords).OrderStart(tb);
    RevZero(Log2(state.nwords));
  }

  lemma BufferHolds(len: nat, line: nat, pagesize: nat, maxlen: nat)
    requires 0 < line <= len <= maxlen && pagesize > 0
    ensures 0 < len / line && line * (len / line) <= (maxlen + pagesize - 1) / pagesize * pagesize
  {
    Digits(len, line);
    Digits(maxlen + pagesize - 1, pagesize);
    MulCompare(0, len / line + 1, line);
    if len / line == 0 { ModSmall(len, line); }
  }
}
