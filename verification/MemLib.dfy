/** base_initialize and mem_initialize of lib_mem.c. */
module MemLib {
  import opened Arith
  import opened BitReversal
  import opened Chains
  import opened Layouts
  import opened MemStates
  import opened Swaps

  /** The lines of the last page that mem_initialize links: its counter l runs over the
      lines of all pages but skips one at every page jump. */
  ghost function LastLines(npages: nat, nlines: nat, npointers: nat): (last: nat)
    requires npages > 0 && nlines > 0
    ensures 0 < last <= nlines
  {
    var rest := npointers - (npages - 1) * (nlines - 1);
    if rest < 1 then 1 else if rest < nlines then rest else nlines
  }

  /** Every word of the line has been linked to the same word of the line that follows it. */
  ghost predicate LineLinked(tb: Tables, sw: Sweep, mem: seq<int>, i: nat, j: nat)
    requires sw.Ok() && sw.Fits(tb)
  {
    forall s :: sw.Has(s) && s.page == i && s.line == j ==> tb.Joined(mem, s, sw.Next(s))
  }

  /** Words at byte offsets below k have been linked. */
  ghost predicate WordsLinked(tb: Tables, mem: seq<int>, i: nat, j: nat, k: nat) {
    forall w :: 0 <= w < |tb.words| && tb.words[w] < k ==> tb.Joined(mem, Slot(i, j, w), Slot(i, j + 1, w))
  }

  lemma NextWordLinked(tb: Tables, mem: seq<int>, mem': seq<int>, i: nat, j: nat, k: nat, w: nat)
    requires tb.Wf(|mem|) && w < |tb.words| && tb.words[w] == k && WordsLinked(tb, mem, i, j, k)
    requires tb.Joined(mem', Slot(i, j, w), Slot(i, j + 1, w)) && tb.OnlySlot(mem, mem', Slot(i, j, w))
    ensures WordsLinked(tb, mem', i, j, k + tb.ptr)
  {
    forall x | 0 <= x < |tb.words| && tb.words[x] < k + tb.ptr
      ensures tb.Joined(mem', Slot(i, j, x), Slot(i, j + 1, x))
    {
      if x < w { assert tb.words[x] + tb.ptr <= tb.words[w]; }
      if x != w { assert tb.Joined(mem, Slot(i, j, x), Slot(i, j + 1, x)); }
    }
  }

  /** The innermost loop of mem_initialize: from line j of page i to line j + 1, byte offset
      by byte offset. */
  method LinkLine(mem: array<int>, tb: Tables, ghost sw: Sweep, i: nat, j: nat)
    requires sw.Ok() && sw.Fits(tb) && tb.Wf(mem.Length) && tb.WordsCover()
    requires i < sw.npages && j + 1 < sw.LinesOf(i)
    modifies mem
    ensures LineLinked(tb, sw, mem[..], i, j) && tb.OnlyLine(old(mem[..]), mem[..], i, j)
  {
    var k: nat := 0;
    while k < tb.line
      invariant k % tb.ptr == 0 && WordsLinked(tb, mem[..], i, j, k)
      invariant tb.OnlyLine(old(mem[..]), mem[..], i, j)
      decreases tb.line - k
    {
      LinkByte(mem, tb, i, j, k);
      k := k + tb.ptr;
    }
    LineOfWords(tb, sw, mem[..], i, j, k);
  }

  /** The word at byte k of line j leads to byte k of line j + 1. */
  method LinkByte(mem: array<int>, tb: Tables, i: nat, j: nat, k: nat)
    requires tb.Wf(mem.Length) && tb.WordsCover() && i < |tb.pages| && j + 1 < |tb.lines|
    requires k < tb.line && k % tb.ptr == 0 && WordsLinked(tb, mem[..], i, j, k)
    modifies mem
    ensures (k + tb.ptr) % tb.ptr == 0 && WordsLinked(tb, mem[..], i, j, k + tb.ptr)
    ensures tb.OnlyLine(old(mem[..]), mem[..], i, j)
  {
    assert k in tb.words;
    ghost var w :| 0 <= w < |tb.words| && tb.words[w] == k;
    ghost var before := mem[..];
    Tables.Store(mem, tb.pages[i] + tb.lines[j] + k, tb.pages[i] + tb.lines[j + 1] + k,
      tb, Slot(i, j, w), Slot(i, j + 1, w));
    NextWordLinked(tb, before, mem[..], i, j, k, w);
    ModStep(k, tb.ptr);
  }

  lemma LineOfWords(tb: Tables, sw: Sweep, mem: seq<int>, i: nat, j: nat, k: nat)
    requires sw.Ok() && sw.Fits(tb) && tb.Wf(|mem|) && i < sw.npages && j + 1 < sw.LinesOf(i)
    requires k >= tb.line && WordsLinked(tb, mem, i, j, k)
    ensures LineLinked(tb, sw, mem, i, j)
  {
  }

  /** From the last line of page i to the first line of page i + 1. */
  method LinkPage(mem: array<int>, tb: Tables, ghost sw: Sweep, i: nat, j: nat, nwords: nat)
    requires sw.Ok() && sw.Fits(tb) && tb.Wf(mem.Length) && nwords == sw.nwords
    requires i + 1 < sw.npages && j == sw.nlines - 1
    modifies mem
    ensures LineLinked(tb, sw, mem[..], i, j) && tb.OnlyLine(old(mem[..]), mem[..], i, j)
  {
    for k := 0 to nwords
      invariant forall w :: 0 <= w < k ==> tb.Joined(mem[..], Slot(i, j, w), Slot(i + 1, 0, w))
      invariant tb.OnlyLine(old(mem[..]), mem[..], i, j)
    {
      Tables.Store(mem, tb.pages[i] + tb.lines[j] + tb.words[k], tb.pages[i + 1] + tb.lines[0] + tb.words[k],
        tb, Slot(i, j, k), Slot(i + 1, 0, k));
    }
  }

  /** From the last line back to the first line of the first page, one word further on. */
  method LinkBack(mem: array<int>, tb: Tables, ghost sw: Sweep, npages: nat, j: nat, nwords: nat)
    requires sw.Ok() && sw.Fits(tb) && tb.Wf(mem.Length)
    requires npages == sw.npages && j == sw.last - 1 && nwords == sw.nwords
    modifies mem
    ensures LineLinked(tb, sw, mem[..], npages - 1, j) && tb.OnlyLine(old(mem[..]), mem[..], npages - 1, j)
  {
    var last := npages - 1;
    for k := 0 to nwords
      invariant forall w :: 0 <= w < k ==> WordBack(tb, mem[..], last, j, w, nwords)
      invariant tb.OnlyLine(old(mem[..]), mem[..], last, j)
    {
      var nw := if k == nwords - 1 then 0 else k + 1;
      ghost var before := mem[..];
      Tables.Store(mem, tb.pages[last] + tb.lines[j] + tb.words[k], tb.pages[0] + tb.lines[0] + tb.words[nw],
        tb, Slot(last, j, k), Slot(0, 0, nw));
      NextWordBack(tb, before, mem[..], last, j, k, nwords);
    }
    WordsBackLinked(tb, sw, mem[..], last, j);
  }

  /** Word w of line j of page i leads to the next word of the first line. */
  ghost predicate WordBack(tb: Tables, mem: seq<int>, i: nat, j: nat, w: nat, nwords: nat) {
    tb.Joined(mem, Slot(i, j, w), Slot(0, 0, if w == nwords - 1 then 0 else w + 1))
  }

  lemma NextWordBack(tb: Tables, before: seq<int>, after: seq<int>, i: nat, j: nat, k: nat, nwords: nat)
    requires forall w :: 0 <= w < k ==> WordBack(tb, before, i, j, w, nwords)
    requires WordBack(tb, after, i, j, k, nwords) && tb.OnlySlot(before, after, Slot(i, j, k))
    ensures forall w :: 0 <= w < k + 1 ==> WordBack(tb, after, i, j, w, nwords)
  {
    forall w | 0 <= w < k
      ensures WordBack(tb, after, i, j, w, nwords)
    {
      assert WordBack(tb, before, i, j, w, nwords);
    }
  }

  lemma WordsBackLinked(tb: Tables, sw: Sweep, mem: seq<int>, i: nat, j: nat)
    requires sw.Ok() && sw.Fits(tb) && i == sw.npages - 1 && j == sw.last - 1
    requires forall w :: 0 <= w < sw.nwords ==> WordBack(tb, mem, i, j, w, sw.nwords)
    ensures LineLinked(tb, sw, mem, i, j)
  {
    forall s | sw.Has(s) && s.page == i && s.line == j
      ensures tb.Joined(mem, s, sw.Next(s))
    {
      assert WordBack(tb, mem, i, j, s.word, sw.nwords);
    }
  }

  ghost predicate LinesLinked(tb: Tables, sw: Sweep, mem: seq<int>, i: nat, j: nat)
    requires sw.Ok() && sw.Fits(tb)
  {
    forall j' :: 0 <= j' < j ==> LineLinked(tb, sw, mem, i, j')
  }

  /** Pages before i are linked, but for the return to the start of the chain. */
  ghost predicate PagesLinked(tb: Tables, sw: Sweep, mem: seq<int>, i: nat)
    requires sw.Ok() && sw.Fits(tb)
  {
    forall i', j :: 0 <= i' < i && 0 <= j < sw.LinesOf(i') && !(i' == sw.npages - 1 && j == sw.last - 1) ==>
      LineLinked(tb, sw, mem, i', j)
  }

  lemma OtherLinesLinked(tb: Tables, sw: Sweep, mem: seq<int>, mem': seq<int>, i: nat, j: nat)
    requires sw.Ok() && sw.Fits(tb) && tb.OnlyLine(mem, mem', i, j)
    ensures forall i', j' :: (i' != i || j' != j) && LineLinked(tb, sw, mem, i', j') ==>
              LineLinked(tb, sw, mem', i', j')
  {
    forall i', j' | (i' != i || j' != j) && LineLinked(tb, sw, mem, i', j')
      ensures LineLinked(tb, sw, mem', i', j')
    {
      forall s | sw.Has(s) && s.page == i' && s.line == j'
        ensures tb.Joined(mem', s, sw.Next(s))
      {
        assert tb.Joined(mem, s, sw.Next(s));
      }
    }
  }

  /** The loops of mem_initialize. */
  method ThreadPages(mem: array<int>, tb: Tables, ghost sw: Sweep,
                     npages: nat, nlines: nat, nwords: nat, npointers: nat) returns (p0: int)
    requires npages > 0 && nlines > 0 && nwords > 0
    requires sw == Sweep(npages, nlines, LastLines(npages, nlines, npointers), nwords)
    requires sw.Fits(tb) && tb.Wf(mem.Length)
    requires tb.WordsCover() && (npages - 1) * nlines <= npointers
    modifies mem
    ensures sw.Linked(tb, mem[..])
    ensures nlines > 1 && npointers > 1 ==> p0 == tb.At(Slot(0, 0, 0))
  {
    var l, j := 0, nlines - 1;
    p0 := 0;
    for i := 0 to npages
      invariant i < npages ==> l == i * (nlines - 1)
      invariant i == npages ==> j == sw.last - 1
      invariant PagesLinked(tb, sw, mem[..], i)
      invariant l > 0 ==> p0 == tb.At(Slot(0, 0, 0))
      invariant i > 0 && nlines > 1 && npointers > 1 ==> l > 0
    {
      j := 0;
      InnerLoopStops(sw, npointers, i, j);
      while j < nlines - 1 && l < npointers - 1
        invariant l == i * (nlines - 1) + j && j < sw.LinesOf(i)
        invariant j < nlines - 1 && l < npointers - 1 <==> j + 1 < sw.LinesOf(i)
        invariant PagesLinked(tb, sw, mem[..], i) && LinesLinked(tb, sw, mem[..], i, j)
        invariant l > 0 ==> p0 == tb.At(Slot(0, 0, 0))
        decreases nlines - j
      {
        ghost var before := mem[..];
        LinkLine(mem, tb, sw, i, j);
        OtherLinesLinked(tb, sw, before, mem[..], i, j);
        if l == 0 { p0 := tb.pages[i] + tb.lines[j] + tb.words[0]; }
        j, l := j + 1, l + 1;
        InnerLoopStops(sw, npointers, i, j);
      }
      if i < npages - 1 {
        ghost var before := mem[..];
        LinkPage(mem, tb, sw, i, j, nwords);
        OtherLinesLinked(tb, sw, before, mem[..], i, j);
      }
      MulSucc(i, nlines - 1);
    }
    ghost var before := mem[..];
    LinkBack(mem, tb, sw, npages, j, nwords);
    OtherLinesLinked(tb, sw, before, mem[..], npages - 1, j);
    forall s | sw.Has(s)
      ensures tb.Joined(mem[..], s, sw.Next(s))
    {
      assert LineLinked(tb, sw, mem[..], s.page, s.line);
    }
  }

  /** Before the last page the counter l never stops the inner loop; on it, it stops after `last` lines. */
  lemma InnerLoopStops(sw: Sweep, npointers: nat, i: nat, j: nat)
    requires sw.Ok() && sw.last == LastLines(sw.npages, sw.nlines, npointers)
    requires i < sw.npages && (sw.npages - 1) * sw.nlines <= npointers
    ensures j < sw.nlines - 1 && i * (sw.nlines - 1) + j < npointers - 1 <==> j + 1 < sw.LinesOf(i)
  {
    if i < sw.npages - 1 {
      MulMono(i + 1, sw.npages - 1, sw.nlines - 1);
      MulSucc(i, sw.nlines - 1);
      OneLess(sw.npages - 1, sw.nlines);
    }
  }

  lemma OneLess(a: int, b: int)
    ensures a * b == a * (b - 1) + a
  {
  }

  /** base_initialize, called with iterations == 0 */
  method BaseInitialize(state: MemState, draw: nat -> nat)
    requires state.Sizes()
    modifies state
    ensures state.Laid() && fresh(state.mem) && fresh(state.pages)
    ensures Rearranged(Ascending(state.pages.Length, state.pagesize), state.pages[..])
    ensures unchanged(state`len, state`maxlen, state`line, state`pagesize)
  {
    var nmpages := (state.maxlen + state.pagesize - 1) / state.pagesize;
    CeilMono(state.len, state.maxlen, state.pagesize);
    state.nwords, state.nlines := state.line / state.ptr, state.pagesize / state.line;
    state.npages := (state.len + state.pagesize - 1) / state.pagesize;
    state.pages := Permutation(nmpages, state.pagesize, draw);
    MulMono(0, nmpages, state.pagesize);
    state.mem := new int[nmpages * state.pagesize];
  }

  /** The first half of mem_initialize: the buffer and the tables. */
  method MemTables(state: MemState, draw: nat -> nat)
    requires state.Geometry()
    modifies state
    ensures state.Valid()
    ensures fresh(state.mem) && fresh(state.pages) && fresh(state.lines) && fresh(state.words)
    ensures Rearranged(Ascending(state.pages.Length, state.pagesize), state.pages[..])
    ensures unchanged(state`len, state`maxlen, state`line, state`pagesize)
  {
    BaseInitialize(state, draw);
    state.words := WordsInitialize(state.nwords, state.ptr);
    state.lines := WordsInitialize(state.nlines, state.line);
  }

  /** The chain mem_initialize builds. */
  ghost function MemSweep(state: MemState): (sw: Sweep)
    requires state.Based()
    reads state, state.pages
    ensures sw.Ok()
  {
    Sweep(state.npages, state.nlines, LastLines(state.npages, state.nlines, state.len / state.line), state.nwords)
  }

  /** mem_initialize, called with iterations == 0:
      one cycle in sweep order. The result is state->p[0], where the benchmark starts. */
  method MemInitialize(state: MemState, draw: nat -> nat) returns (p0: int)
    requires state.Geometry()
    modifies state
    ensures state.Valid()
    ensures fresh(state.mem) && fresh(state.pages) && fresh(state.lines) && fresh(state.words)
    ensures Rearranged(Ascending(state.pages.Length, state.pagesize), state.pages[..])
    ensures unchanged(state`len, state`maxlen, state`line, state`pagesize)
    ensures MemSweep(state).Fits(state.Tb()) && MemSweep(state).Linked(state.Tb(), state.mem[..])
    ensures IsCycle(state.mem[..], MemSweep(state).Order(state.Tb()))
    ensures state.nlines > 1 && state.len / state.line > 1 ==> p0 == MemSweep(state).Order(state.Tb())[0]
  {
    MemTables(state, draw);
    state.TablesFit();
    p0 := BuildMemory(state, state.Tb(), MemSweep(state));
    MemoryIsCycle(state);
  }

  lemma MemoryIsCycle(state: MemState)
    requires state.Valid()
    requires MemSweep(state).Fits(state.Tb()) && MemSweep(state).Linked(state.Tb(), state.mem[..])
    ensures IsCycle(state.mem[..], MemSweep(state).Order(state.Tb()))
  {
    state.TablesFit();
    MemSweep(state).LinkedIsCycle(state.Tb(), state.mem[..]);
  }

  /** The second half: the chain. */
  method BuildMemory(state: MemState, ghost tb: Tables, ghost sw: Sweep) returns (p0: int)
    requires state.Based() && state.lines != state.mem && state.words != state.mem
    requires tb == state.Tb() && sw == MemSweep(state) && sw.Fits(tb) && tb.Wf(state.mem.Length) && tb.WordsCover()
    requires (state.npages - 1) * state.nlines <= state.len / state.line
    modifies state.mem
    ensures state.Tb() == tb && sw.Linked(tb, state.mem[..])
    ensures state.nlines > 1 && state.len / state.line > 1 ==> p0 == sw.Order(tb)[0]
  {
    var here := Tables(state.pages[..], state.lines[..], state.words[..], state.pagesize, state.line, state.ptr);
    p0 := ThreadPages(state.mem, here, sw, state.npages, state.nlines, state.nwords, state.len / state.line);
    sw.OrderStart(tb);
  }

  /** How much of the buffer the chain covers: exactly the len bytes asked for if and only if len is a
      whole number of lines and either fits one page or is a whole number of pages. For any other
      len the chain is still one cycle, but as l does not count page jumps it is too long. */
  lemma ExactWordCount(state: MemState)
    requires state.Based()
    ensures MemSweep(state).Count() * state.ptr == state.len <==>
            state.len % state.line == 0 && (state.len <= state.pagesize || state.len % state.pagesize == 0)
  {
    var sw := MemSweep(state);
    state.GeometryFacts();
    ExactBytes(state.len, state.line, state.pagesize, state.nlines, state.npages, sw.Lap(), state.nwords, state.ptr);
  }

  lemma ExactBytes(len: nat, line: nat, pagesize: nat, nlines: nat, npages: nat, lap: nat, nwords: nat, ptr: nat)
    requires line > 0 && nlines > 0 && pagesize == nlines * line && len > 0 && line == nwords * ptr
    requires npages == (len + pagesize - 1) / pagesize
    requires npages > 0 && lap == (npages - 1) * nlines + LastLines(npages, nlines, len / line)
    ensures nwords * lap * ptr == len <==> len % line == 0 && (len <= pagesize || len % pagesize == 0)
  {
    SwapFactors(nwords, lap, ptr);
    PointerBounds(len, line, pagesize, nlines, npages, len / line);
    ExactLines(len, line, pagesize, nlines, npages, lap);
  }

  /** The same in terms of lines. */
  lemma ExactLines(len: nat, line: nat, pagesize: nat, nlines: nat, npages: nat, lap: nat)
    requires line > 0 && nlines > 0 && pagesize == nlines * line && len > 0
    requires npages == (len + pagesize - 1) / pagesize
    requires lap == (npages - 1) * nlines + LastLines(npages, nlines, len / line)
    ensures lap * line == len <==> len % line == 0 && (len <= pagesize || len % pagesize == 0)
  {
    OneLess(npages - 1, nlines);
    MulSucc(npages - 1, nlines);
    LenInLines(len, line, pagesize, nlines, npages);
    if lap * line == len { Quotient(lap, 0, line); }
  }

  lemma SwapFactors(a: int, b: int, c: int)
    ensures a * b * c == b * (a * c)
  {
  }

  lemma LenInLines(len: nat, line: nat, pagesize: nat, nlines: nat, npages: nat)
    requires line > 0 && nlines > 0 && pagesize == nlines * line && len > 0
    requires npages == (len + pagesize - 1) / pagesize
    ensures len == len / line * line + len % line
    ensures npages == 1 <==> len <= pagesize
    ensures len % pagesize == 0 <==> len % line == 0 && len / line == npages * nlines
  {
    Digits(len, line);
    Digits(len + pagesize - 1, pagesize);
    if npages == 1 || len <= pagesize {
      if npages > 1 { MulMono(2, npages, pagesize); }
    }
    if len % pagesize == 0 {
      var n := len / pagesize;
      Digits(len, pagesize);
      Quotient(n, pagesize - 1, pagesize);
      MulAssoc(n, nlines, line);
      Quotient(n * nlines, 0, line);
    }
    if len % line == 0 && len / line == npages * nlines {
      MulAssoc(npages, nlines, line);
      Quotient(npages, 0, pagesize);
    }
  }

  /** Six lines of pages with four lines: the chain has seven. */
  lemma OneLineTooMany(state: MemState)
    requires state.Based() && state.pagesize == 4 * state.line && state.len == 6 * state.line
    ensures MemSweep(state).Lap() == 7
  {
    SixLines(state.line);
  }

  lemma SixLines(line: nat)
    requires line > 0
    ensures 4 * line / line == 4 && 6 * line / line == 6 && (6 * line + 4 * line - 1) / (4 * line) == 2
  {
    Quotient(4, 0, line);
    Quotient(6, 0, line);
    Quotient(2, 2 * line - 1, 4 * line);
  }

  /** Where the table slot of byte q of page i is. */
  lemma WordSlot(state: MemState, i: nat, q: nat) returns (s: Slot)
    requires state.Valid() && i < state.npages && q < state.pagesize && q % state.ptr == 0
    ensures s.page == i && s.line < state.nlines && s.word < state.nwords
    ensures state.Tb().Has(s) && state.Tb().At(s) == state.pages[i] + q
  {
    state.GeometryFacts();
    var l, r := q / state.line, q % state.line;
    Digits(q, state.line);
    MulCompare(l, state.nlines, state.line);
    WordOrderCovers(state.nlines, state.line, l);
    SplitAligned(q, state.line, state.ptr);
    Digits(r, state.ptr);
    MulCompare(r / state.ptr, state.nwords, state.ptr);
    WordOrderCovers(state.nwords, state.ptr, r / state.ptr);
    s := Slot(i, Rev(l, Log2(state.nlines)), Rev(r / state.ptr, Log2(state.nwords)));
  }

  /** Over whole pages every word of every page is on the chain. */
  lemma EveryWordVisited(state: MemState, i: nat, q: nat)
    requires state.Valid() && MemSweep(state).last == state.nlines && MemSweep(state).Fits(state.Tb())
    requires i < state.npages && q < state.pagesize && q % state.ptr == 0
    ensures state.pages[i] + q in MemSweep(state).Order(state.Tb())
  {
    var s := WordSlot(state, i, q);
    MemSweep(state).OrderPasses(state.Tb(), s);
  }

  lemma SplitAligned(q: nat, line: nat, ptr: nat)
    requires ptr > 0 && line > 0 && line % ptr == 0 && q % ptr == 0
    ensures q % line % ptr == 0
  {
    var l := q / line;
    Digits(q, line);
    Digits(line, ptr);
    Digits(q, ptr);
    MulAssoc(l, line / ptr, ptr);
    var a, b := q / ptr, l * (line / ptr);
    assert q % line == (a - b) * ptr + 0 by { MulDiff(a, b, ptr); }
    MulCompare(b, a + 1, ptr);
    Quotient(a - b, 0, ptr);
  }

  lemma MulDiff(a: int, b: int, d: int)
    ensures (a - b) * d == a * d - b * d
  {
  }
}
