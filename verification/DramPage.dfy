/** regroup and dram_page_initialize of lat_dram_page.c: the chain of mem_initialize is rethreaded
    so that it stays on a group of pages for as long as possible. */
module DramPages {
  import opened Arith
  import opened BitReversal
  import opened Chains
  import opened GroupOrders
  import opened Layouts
  import opened MemStates
  import opened MemLib
  import opened Swaps

  /** The pointer at byte q of page k. */
  ghost function Word(pages: seq<int>, mem: seq<int>, k: nat, q: int): int
    requires k < |pages|
  {
    if 0 <= pages[k] + q < |mem| then mem[pages[k] + q] else -1
  }

  ghost predicate Aligned(q: int, pagesize: nat, ptr: nat) {
    ptr > 0 && 0 <= q < pagesize && q % ptr == 0
  }

  ghost predicate PageKept(pages: seq<int>, mem: seq<int>, mem': seq<int>, pagesize: nat, k: nat) {
    k < |pages| && forall q :: 0 <= q < pagesize ==> Word(pages, mem', k, q) == Word(pages, mem, k, q)
  }

  /** Every word of page k points to the same word of the next page. */
  ghost predicate PageAhead(pages: seq<int>, mem: seq<int>, pagesize: nat, ptr: nat, k: nat) {
    k + 1 < |pages| && forall q :: Aligned(q, pagesize, ptr) ==> Word(pages, mem, k, q) == pages[k + 1] + q
  }

  /** Links within page k now lead to page `first`; links that leave it are as before. */
  ghost predicate PageBack(pages: seq<int>, mem: seq<int>, mem': seq<int>, pagesize: nat, ptr: nat, first: nat, k: nat)
  {
    && first < |pages| && k < |pages|
    && forall q :: Aligned(q, pagesize, ptr) ==>
         var to := Word(pages, mem, k, q);
         Word(pages, mem', k, q) == if pages[k] <= to < pages[k] + pagesize then pages[first] + (to - pages[k]) else to
  }

  /** regroup, on the groupsize pages from number `first` of the page list on. */
  method Regroup(mem: array<int>, pages: seq<int>, first: nat, groupsize: nat, pagesize: nat, ptr: nat)
    requires ptr > 0 && pagesize % ptr == 0 && groupsize > 0 && first + groupsize <= |pages|
    requires Apart(pages, pagesize) && Within(pages, 0, mem.Length - pagesize)
    modifies mem
    ensures forall k :: first <= k < first + groupsize - 1 ==> PageAhead(pages, mem[..], pagesize, ptr, k)
    ensures PageBack(pages, old(mem[..]), mem[..], pagesize, ptr, first, first + groupsize - 1)
    ensures forall k :: 0 <= k < |pages| && (k < first || first + groupsize <= k) ==>
              PageKept(pages, old(mem[..]), mem[..], pagesize, k)
  {
    if groupsize <= 1 { return; }
    for i := 0 to groupsize - 1
      invariant forall k :: first <= k < first + i ==> PageAhead(pages, mem[..], pagesize, ptr, k)
      invariant forall k :: 0 <= k < |pages| && (k < first || first + i <= k) ==>
                  PageKept(pages, old(mem[..]), mem[..], pagesize, k)
    {
      ghost var before := mem[..];
      PointAhead(mem, pages, first + i, pagesize, ptr);
      KeptPages(pages, old(mem[..]), before, mem[..], pagesize, ptr, first + i);
    }
    ghost var before := mem[..];
    assert PageKept(pages, old(mem[..]), before, pagesize, first + groupsize - 1);
    PointBack(mem, pages, first, first + groupsize - 1, pagesize, ptr);
    KeptPages(pages, old(mem[..]), before, mem[..], pagesize, ptr, first + groupsize - 1);
  }

  lemma KeptPages(pages: seq<int>, m0: seq<int>, m1: seq<int>, m2: seq<int>, pagesize: nat, ptr: nat, i: nat)
    requires forall k :: 0 <= k < |pages| && k != i ==> PageKept(pages, m1, m2, pagesize, k)
    ensures forall k :: k != i && PageKept(pages, m0, m1, pagesize, k) ==> PageKept(pages, m0, m2, pagesize, k)
    ensures forall k :: 0 <= k < |pages| && k != i && PageAhead(pages, m1, pagesize, ptr, k) ==>
              PageAhead(pages, m2, pagesize, ptr, k)
  {
    forall k | 0 <= k < |pages| && k != i && PageAhead(pages, m1, pagesize, ptr, k)
      ensures PageAhead(pages, m2, pagesize, ptr, k)
    {
      assert PageKept(pages, m1, m2, pagesize, k);
    }
    forall k | k != i && PageKept(pages, m0, m1, pagesize, k)
      ensures PageKept(pages, m0, m2, pagesize, k)
    {
      assert PageKept(pages, m1, m2, pagesize, k);
    }
  }

  /** One page of the first loop of regroup. */
  method PointAhead(mem: array<int>, pages: seq<int>, i: nat, pagesize: nat, ptr: nat)
    requires ptr > 0 && pagesize % ptr == 0 && i + 1 < |pages|
    requires Apart(pages, pagesize) && Within(pages, 0, mem.Length - pagesize)
    modifies mem
    ensures PageAhead(pages, mem[..], pagesize, ptr, i)
    ensures forall k :: 0 <= k < |pages| && k != i ==> PageKept(pages, old(mem[..]), mem[..], pagesize, k)
  {
    var j: nat := 0;
    while j < pagesize
      invariant j % ptr == 0
      invariant forall q :: Aligned(q, pagesize, ptr) && q < j ==> Word(pages, mem[..], i, q) == pages[i + 1] + q
      invariant forall k :: 0 <= k < |pages| && k != i ==> PageKept(pages, old(mem[..]), mem[..], pagesize, k)
      decreases pagesize - j
    {
      ghost var before := mem[..];
      PutWord(mem, pages, i, j, pages[i + 1] + j, pagesize);
      KeptPages(pages, old(mem[..]), before, mem[..], pagesize, ptr, i);
      NextAligned(j, ptr);
      j := j + ptr;
    }
  }

  /** The second loop of regroup. */
  method PointBack(mem: array<int>, pages: seq<int>, first: nat, last: nat, pagesize: nat, ptr: nat)
    requires ptr > 0 && pagesize % ptr == 0 && first < last < |pages|
    requires Apart(pages, pagesize) && Within(pages, 0, mem.Length - pagesize)
    modifies mem
    ensures PageBack(pages, old(mem[..]), mem[..], pagesize, ptr, first, last)
    ensures forall k :: 0 <= k < |pages| && k != last ==> PageKept(pages, old(mem[..]), mem[..], pagesize, k)
  {
    var page, pageEnd := pages[last], pages[last] + pagesize;
    var i: nat := 0;
    while i < pagesize
      invariant i % ptr == 0
      invariant forall q :: Aligned(q, pagesize, ptr) ==>
                  var to := Word(pages, old(mem[..]), last, q);
                  Word(pages, mem[..], last, q) ==
                  if q < i && page <= to < pageEnd then pages[first] + (to - page) else to
      invariant forall k :: 0 <= k < |pages| && k != last ==> PageKept(pages, old(mem[..]), mem[..], pagesize, k)
      decreases pagesize - i
    {
      var to := mem[page + i];
      assert to == Word(pages, mem[..], last, i);
      ghost var before := mem[..];
      if page <= to < pageEnd {
        var offset := to - page;
        PutWord(mem, pages, last, i, pages[first] + offset, pagesize);
        KeptPages(pages, old(mem[..]), before, mem[..], pagesize, ptr, last);
      }
      NextAligned(i, ptr);
      i := i + ptr;
    }
  }

  /** A store to byte q of page i changes no other word of that page and no other page. */
  method PutWord(mem: array<int>, pages: seq<int>, i: nat, q: nat, to: int, pagesize: nat)
    requires i < |pages| && q < pagesize
    requires Apart(pages, pagesize) && Within(pages, 0, mem.Length - pagesize)
    modifies mem
    ensures Word(pages, mem[..], i, q) == to
    ensures forall x :: x != q ==> Word(pages, mem[..], i, x) == Word(pages, old(mem[..]), i, x)
    ensures forall k :: 0 <= k < |pages| && k != i ==> PageKept(pages, old(mem[..]), mem[..], pagesize, k)
  {
    mem[pages[i] + q] := to;
    forall k, x | 0 <= k < |pages| && k != i && 0 <= x < pagesize
      ensures Word(pages, mem[..], k, x) == Word(pages, old(mem[..]), k, x)
    {
      assert if k < i then pages[k] + pagesize <= pages[i] || pages[i] + pagesize <= pages[k]
             else pages[i] + pagesize <= pages[k] || pages[k] + pagesize <= pages[i];
    }
  }

  /** There is no aligned offset strictly between j and j + ptr. */
  lemma NextAligned(j: nat, ptr: nat)
    requires ptr > 0 && j % ptr == 0
    ensures (j + ptr) % ptr == 0
    ensures forall q :: j <= q < j + ptr && q % ptr == 0 ==> q == j
  {
    ModStep(j, ptr);
    Digits(j, ptr);
    forall q | j <= q < j + ptr && q % ptr == 0
      ensures q == j
    {
      Quotient(j / ptr, q - j, ptr);
    }
  }

  // ----- from words of pages to slots

  ghost predicate AlignedTables(tb: Tables) {
    && tb.ptr > 0
    && (forall l :: 0 <= l < |tb.lines| ==> tb.lines[l] % tb.ptr == 0)
    && (forall w :: 0 <= w < |tb.words| ==> tb.words[w] % tb.ptr == 0)
  }

  lemma SlotWord(tb: Tables, mem: seq<int>, s: Slot)
    requires tb.Wf(|mem|) && AlignedTables(tb) && tb.Has(s)
    ensures var q := tb.lines[s.line] + tb.words[s.word];
            Aligned(q, tb.pagesize, tb.ptr) && tb.At(s) == tb.pages[s.page] + q
            && tb.Peek(mem, s) == Word(tb.pages, mem, s.page, q)
  {
    ModSum(tb.lines[s.line], tb.words[s.word], tb.ptr);
  }

  lemma ModSum(a: nat, b: nat, d: nat)
    requires d > 0 && a % d == 0 && b % d == 0
    ensures (a + b) % d == 0
  {
    Digits(a, d);
    Digits(b, d);
    MulAdd(a / d, b / d, d);
    Quotient(a / d + b / d, 0, d);
  }

  ghost predicate PageSwept(tb: Tables, sw: Sweep, mem: seq<int>, p: nat) {
    forall s :: sw.Has(s) && s.page == p ==> tb.Joined(mem, s, sw.Next(s))
  }

  ghost predicate PageGrouped(tb: Tables, gr: Groups, mem: seq<int>, p: nat)
    requires gr.Ok()
  {
    forall s :: gr.Has(s) && s.page == p ==> tb.Joined(mem, s, gr.Next(s))
  }

  /** The group chain over the pages of a whole sweep. */
  ghost predicate SameCells(gr: Groups, sw: Sweep) {
    && gr.Ok() && sw.Ok() && sw.last == sw.nlines
    && gr.npages == sw.npages && gr.nlines == sw.nlines && gr.nwords == sw.nwords
  }

  lemma RegroupedPage(tb: Tables, gr: Groups, sw: Sweep, before: seq<int>, after: seq<int>, first: nat, p: nat)
    requires SameCells(gr, sw) && sw.Fits(tb) && tb.Wf(|before|) && |after| == |before| && AlignedTables(tb)
    requires first <= p < first + gr.SizeAt(first) && first % gr.size == 0
    requires PageSwept(tb, sw, before, p)
    requires p + 1 < first + gr.SizeAt(first) ==> PageAhead(tb.pages, after, tb.pagesize, tb.ptr, p)
    requires p + 1 == first + gr.SizeAt(first) ==> PageBack(tb.pages, before, after, tb.pagesize, tb.ptr, first, p)
    ensures PageGrouped(tb, gr, after, p)
  {
    GroupStart(gr, first, p);
    if gr.LastOfGroup(p) {
      forall s | gr.Has(s) && s.page == p
        ensures tb.Joined(after, s, gr.Next(s))
      {
        assert tb.Joined(before, s, sw.Next(s));
        LastPageSlot(tb, gr, sw, before, after, first, s);
      }
    } else {
      AheadPage(tb, gr, after, p);
    }
  }

  /** A page that points ahead and is not the last one of its group. */
  lemma AheadPage(tb: Tables, gr: Groups, mem: seq<int>, p: nat)
    requires gr.Ok() && gr.Fits(tb) && tb.Wf(|mem|) && AlignedTables(tb)
    requires p + 1 < |tb.pages| && !gr.LastOfGroup(p) && PageAhead(tb.pages, mem, tb.pagesize, tb.ptr, p)
    ensures PageGrouped(tb, gr, mem, p)
  {
    forall s | gr.Has(s) && s.page == p
      ensures tb.Joined(mem, s, gr.Next(s))
    {
      SlotWord(tb, mem, s);
    }
  }

  lemma LastPageSlot(tb: Tables, gr: Groups, sw: Sweep, before: seq<int>, after: seq<int>, first: nat, s: Slot)
    requires SameCells(gr, sw) && sw.Fits(tb) && tb.Wf(|before|) && |after| == |before| && AlignedTables(tb)
    requires gr.Has(s) && gr.LastOfGroup(s.page) && gr.First(s.page) == first <= s.page
    requires PageBack(tb.pages, before, after, tb.pagesize, tb.ptr, first, s.page)
    requires tb.Joined(before, s, sw.Next(s))
    ensures tb.Joined(after, s, gr.Next(s))
  {
    var next := sw.Next(s);
    SlotWord(tb, before, s);
    SlotWord(tb, after, s);
    SlotWord(tb, before, next);
    var to, page := tb.At(next), tb.pages[s.page];
    if next.page == s.page {
      assert page <= to < page + tb.pagesize;
      assert tb.At(gr.Next(s)) == tb.pages[first] + (to - page);
    } else {
      PagesApart(tb, |before|, next.page, s.page);
      assert !(page <= to < page + tb.pagesize);
      assert gr.Next(s) == next;
    }
  }

  lemma PagesApart(tb: Tables, size: nat, p: nat, p': nat)
    requires tb.Wf(size) && p < |tb.pages| && p' < |tb.pages| && p != p'
    ensures tb.pages[p] + tb.pagesize <= tb.pages[p'] || tb.pages[p'] + tb.pagesize <= tb.pages[p]
  {
    if p < p' {} else { assert p' < p; }
  }

  lemma GroupStart(gr: Groups, first: nat, p: nat)
    requires gr.Ok() && first % gr.size == 0 && first <= p < first + gr.SizeAt(first)
    ensures gr.First(p) == first
  {
    Digits(first, gr.size);
    Quotient(first / gr.size, p - first, gr.size);
  }

  lemma KeptPage(tb: Tables, sw: Sweep, gr: Groups, before: seq<int>, after: seq<int>, p: nat)
    requires gr.Ok() && tb.Wf(|before|) && |after| == |before| && AlignedTables(tb)
    requires PageKept(tb.pages, before, after, tb.pagesize, p)
    ensures PageSwept(tb, sw, before, p) ==> PageSwept(tb, sw, after, p)
    ensures PageGrouped(tb, gr, before, p) ==> PageGrouped(tb, gr, after, p)
  {
    forall s | tb.Has(s) && s.page == p
      ensures tb.Peek(after, s) == tb.Peek(before, s)
    {
      SlotWord(tb, before, s);
      SlotWord(tb, after, s);
    }
  }

  /** The loop of dram_page_initialize. */
  method RegroupAll(mem: array<int>, tb: Tables, ghost sw: Sweep, ghost gr: Groups, npages: nat, group: nat)
    requires SameCells(gr, sw) && sw.Fits(tb) && tb.Wf(mem.Length) && AlignedTables(tb) && tb.pagesize % tb.ptr == 0
    requires npages == gr.npages && group == gr.size
    requires sw.Linked(tb, mem[..])
    modifies mem
    ensures gr.Linked(tb, mem[..])
  {
    var i: nat := 0;
    assert forall p :: 0 <= p < npages ==> PageSwept(tb, sw, mem[..], p);
    while i < npages
      invariant i % group == 0
      invariant forall p :: 0 <= p < npages && p < i ==> PageGrouped(tb, gr, mem[..], p)
      invariant forall p :: i <= p < npages ==> PageSwept(tb, sw, mem[..], p)
    {
      var groupsize := group;
      if groupsize > npages - i { groupsize := npages - i; }
      ghost var before := mem[..];
      Regroup(mem, tb.pages, i, groupsize, tb.pagesize, tb.ptr);
      RegroupedGroup(tb, gr, sw, before, mem[..], i);
      ModStep(i, group);
      i := i + group;
    }
    forall s | gr.Has(s)
      ensures tb.Joined(mem[..], s, gr.Next(s))
    {
      assert PageGrouped(tb, gr, mem[..], s.page);
    }
  }

  lemma RegroupedGroup(tb: Tables, gr: Groups, sw: Sweep, before: seq<int>, after: seq<int>, first: nat)
    requires SameCells(gr, sw) && sw.Fits(tb) && tb.Wf(|before|) && |after| == |before| && AlignedTables(tb)
    requires first < gr.npages && first % gr.size == 0
    requires forall p :: 0 <= p < gr.npages && p < first ==> PageGrouped(tb, gr, before, p)
    requires forall p :: first <= p < gr.npages ==> PageSwept(tb, sw, before, p)
    requires forall k :: first <= k < first + gr.SizeAt(first) - 1 ==>
               PageAhead(tb.pages, after, tb.pagesize, tb.ptr, k)
    requires PageBack(tb.pages, before, after, tb.pagesize, tb.ptr, first, first + gr.SizeAt(first) - 1)
    requires forall k :: 0 <= k < |tb.pages| && (k < first || first + gr.SizeAt(first) <= k) ==>
               PageKept(tb.pages, before, after, tb.pagesize, k)
    ensures forall p :: 0 <= p < gr.npages && p < first + gr.size ==> PageGrouped(tb, gr, after, p)
    ensures forall p :: first + gr.size <= p < gr.npages ==> PageSwept(tb, sw, after, p)
  {
    forall p | 0 <= p < gr.npages && p < first + gr.size
      ensures PageGrouped(tb, gr, after, p)
    {
      if p < first {
        assert PageGrouped(tb, gr, before, p);
        KeptPage(tb, sw, gr, before, after, p);
      } else {
        assert PageSwept(tb, sw, before, p);
        RegroupedPage(tb, gr, sw, before, after, first, p);
      }
    }
    forall p | first + gr.size <= p < gr.npages
      ensures PageSwept(tb, sw, after, p)
    {
      assert PageSwept(tb, sw, before, p);
      KeptPage(tb, sw, gr, before, after, p);
    }
  }

  /** The chain dram_page_initialize leaves: the cells of state in group order. */
  ghost function DramGroups(state: MemState, group: nat): Groups
    reads state
  {
    Groups(state.npages, state.nlines, state.nwords, group)
  }

  /** dram_page_initialize, called with iterations == 0 on a whole number of pages: whatever the group
      size, all words of all pages are still on one cycle. The result is state->p[0]; the benchmark of
      lat_dram_page.c starts at offset 0 instead, which is on the cycle too if the whole buffer is used. */
  method DramPageInitialize(state: MemState, draw: nat -> nat, group: nat) returns (p0: int)
    requires state.Geometry() && state.len % state.pagesize == 0 && group > 0
    modifies state
    ensures state.Valid() && fresh(state.mem)
    ensures Rearranged(Ascending(state.pages.Length, state.pagesize), state.pages[..])
    ensures unchanged(state`len, state`maxlen, state`line, state`pagesize)
    ensures DramGroups(state, group).Ok() && DramGroups(state, group).Fits(state.Tb())
    ensures IsCycle(state.mem[..], DramGroups(state, group).Order(state.Tb()))
    ensures state.nlines > 1 && state.len / state.line > 1 ==> p0 == DramGroups(state, group).Order(state.Tb())[0]
    ensures state.len == state.maxlen ==> 0 in DramGroups(state, group).Order(state.Tb())
  {
    p0 := MemInitialize(state, draw);
    RegroupMemory(state, group);
    if state.len == state.maxlen { BaseVisited(state, group); }
  }

  /** The second half of dram_page_initialize. */
  method RegroupMemory(state: MemState, group: nat)
    requires state.Valid() && state.len % state.pagesize == 0 && group > 0
    requires MemSweep(state).Fits(state.Tb()) && MemSweep(state).Linked(state.Tb(), state.mem[..])
    modifies state.mem
    ensures state.Valid()
    ensures DramGroups(state, group).Ok() && DramGroups(state, group).Fits(state.Tb())
    ensures MemSweep(state).Fits(state.Tb())
    ensures IsCycle(state.mem[..], DramGroups(state, group).Order(state.Tb()))
    ensures DramGroups(state, group).Order(state.Tb())[0] == MemSweep(state).Order(state.Tb())[0]
  {
    state.TablesFit();
    SweptWhole(state);
    StateAligned(state);
    var tb := Tables(state.pages[..], state.lines[..], state.words[..], state.pagesize, state.line, state.ptr);
    ghost var sw, gr := MemSweep(state), DramGroups(state, group);
    sw.OrderStart(tb);
    gr.OrderStart(tb);
    RegroupCycle(state.mem, tb, sw, gr, state.npages, group);
    assert state.Tb() == tb;
  }

  /** Every word of every page is on the regrouped cycle, and its time says where. */
  lemma EveryWordGrouped(state: MemState, group: nat, i: nat, q: nat)
    requires state.Valid() && DramGroups(state, group).Ok() && DramGroups(state, group).Fits(state.Tb())
    requires i < state.npages && q < state.pagesize && q % state.ptr == 0
    ensures state.pages[i] + q in DramGroups(state, group).Order(state.Tb())
  {
    var s := WordSlot(state, i, q);
    DramGroups(state, group).OrderPasses(state.Tb(), s);
  }

  /** Offset 0 is in some page of the list; if the list is used up to its end it is on the cycle. */
  lemma BaseVisited(state: MemState, group: nat)
    requires state.Valid() && DramGroups(state, group).Ok() && DramGroups(state, group).Fits(state.Tb())
    requires Rearranged(Ascending(state.pages.Length, state.pagesize), state.pages[..])
    requires state.len == state.maxlen
    ensures 0 in DramGroups(state, group).Order(state.Tb())
  {
    var ascending := Ascending(state.pages.Length, state.pagesize);
    assert ascending[0] == 0;
    assert 0 in multiset(ascending);
    assert 0 in state.pages[..];
    var i :| 0 <= i < state.pages.Length && state.pages[i] == 0;
    Quotient(0, 0, state.ptr);
    EveryWordGrouped(state, group, i, 0);
  }

  method RegroupCycle(mem: array<int>, tb: Tables, ghost sw: Sweep, ghost gr: Groups, npages: nat, group: nat)
    requires SameCells(gr, sw) && sw.Fits(tb) && tb.Wf(mem.Length) && AlignedTables(tb) && tb.pagesize % tb.ptr == 0
    requires npages == gr.npages && group == gr.size
    requires sw.Linked(tb, mem[..])
    modifies mem
    ensures gr.Fits(tb) && IsCycle(mem[..], gr.Order(tb))
  {
    RegroupAll(mem, tb, sw, gr, npages, group);
    gr.LinkedIsCycle(tb, mem[..]);
  }

  lemma SweptWhole(state: MemState)
    requires state.Based() && state.len % state.pagesize == 0
    ensures state.nlines > 0 && MemSweep(state).last == state.nlines
    ensures state.len / state.line == state.npages * state.nlines
  {
    state.GeometryFacts();
    var n, p := state.len / state.pagesize, state.pagesize;
    Digits(state.len, p);
    Quotient(n, p - 1, p);
    MulAssoc(n, state.nlines, state.line);
    Quotient(n * state.nlines, 0, state.line);
    OneLess(n, state.nlines);
  }

  lemma StateAligned(state: MemState)
    requires state.Valid()
    ensures AlignedTables(state.Tb()) && state.pagesize % state.ptr == 0
  {
    state.GeometryFacts();
    ScaledAligned(state.nlines, state.line, state.ptr);
    ScaledAligned(state.nwords, state.ptr, state.ptr);
    Quotient(1, 0, state.ptr);
    MulMod(state.pagesize / state.line, state.line, state.ptr);
  }

  lemma ScaledAligned(max: nat, scale: nat, d: nat)
    requires d > 0 && scale % d == 0
    ensures forall i :: 0 <= i < max ==> WordOrder(max, scale)[i] % d == 0
  {
    forall i | 0 <= i < max
      ensures WordOrder(max, scale)[i] % d == 0
    {
      MulMod(Rev(i, Log2(max)), scale, d);
    }
  }

  lemma MulMod(a: nat, b: nat, d: nat)
    requires d > 0 && b % d == 0
    ensures a * b % d == 0
  {
    Digits(b, d);
    MulAssoc(a, b / d, d);
    Quotient(a * (b / d), 0, d);
  }
}
