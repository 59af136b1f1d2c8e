/** Cells of a buffer that is cut into pages, pages into lines and lines into words,
    and the orders in which lmbench threads a pointer chain through them. */
module Layouts {
  import opened Arith
  import opened Chains

  /** A cell by its indices in the page, line and word tables. */
  datatype Slot = Slot(page: nat, line: nat, word: nat)

  /** Any two entries are at least d apart. */
  ghost predicate Apart(s: seq<int>, d: int) {
    forall a, b :: 0 <= a < b < |s| ==> s[a] + d <= s[b] || s[b] + d <= s[a]
  }

  ghost predicate Within(s: seq<int>, lo: int, hi: int) {
    forall a :: 0 <= a < |s| ==> lo <= s[a] <= hi
  }

  /** The three offset tables of struct mem_state and the sizes they were made for. */
  datatype Tables = Tables(pages: seq<int>, lines: seq<int>, words: seq<int>, pagesize: nat, line: nat, ptr: nat)
  {
    /** Pages of `pagesize` bytes do not overlap, nor do the lines of a page or the
        `ptr`-byte words of a line, and all cells are inside `size` bytes. */
    ghost predicate Wf(size: nat) {
      && |pages| > 0 && |lines| > 0 && |words| > 0
      && ptr > 0
      && Apart(pages, pagesize) && Within(pages, 0, size - pagesize)
      && Apart(lines, line) && Within(lines, 0, pagesize - line)
      && Apart(words, ptr) && Within(words, 0, line - ptr)
    }

    /** The word table reaches every ptr-aligned offset of a line. */
    ghost predicate WordsCover() {
      ptr > 0 && forall k :: 0 <= k < line && k % ptr == 0 ==> k in words
    }

    ghost predicate Has(s: Slot) {
      s.page < |pages| && s.line < |lines| && s.word < |words|
    }

    ghost function At(s: Slot): int
      requires Has(s)
    {
      pages[s.page] + lines[s.line] + words[s.word]
    }

    /** Different slots are different, non-overlapping cells. */
    lemma AtInjective(size: nat, s: Slot, s': Slot)
      requires Wf(size)
      requires Has(s) && Has(s') && s != s'
      ensures At(s) + ptr <= At(s') || At(s') + ptr <= At(s)
    {
      assert words[s.word] <= line - ptr && words[s'.word] <= line - ptr;
    }

    lemma AtBounds(size: nat, s: Slot)
      requires Wf(size) && Has(s)
      ensures 0 <= At(s) <= size - ptr
    {
    }

    /** The pointer stored in the cell of s. */
    ghost function Peek(mem: seq<int>, s: Slot): int
      requires Has(s)
    {
      if 0 <= At(s) < |mem| then mem[At(s)] else -1
    }

    /** The cell of s holds the address of the cell of s'. */
    ghost predicate Joined(mem: seq<int>, s: Slot, s': Slot) {
      Has(s) && Has(s') && Peek(mem, s) == At(s')
    }

    /** Only the cell of s differs. */
    ghost predicate OnlySlot(mem: seq<int>, mem': seq<int>, s: Slot) {
      forall x {:trigger Peek(mem', x)} :: Has(x) && x != s ==> Peek(mem', x) == Peek(mem, x)
    }

    /** Only cells of line j of page i differ. */
    ghost predicate OnlyLine(mem: seq<int>, mem': seq<int>, i: nat, j: nat) {
      forall x {:trigger Peek(mem', x)} :: Has(x) && !(x.page == i && x.line == j) ==> Peek(mem', x) == Peek(mem, x)
    }

    /** A store to the cell of s leaves every other cell alone. */
    lemma StoreSlot(mem: seq<int>, s: Slot, s': Slot)
      requires Wf(|mem|) && Has(s) && Has(s')
      ensures 0 <= At(s) < |mem|
      ensures Joined(mem[At(s) := At(s')], s, s') && OnlySlot(mem, mem[At(s) := At(s')], s)
    {
      AtBounds(|mem|, s);
      forall x | Has(x) && x != s
        ensures Peek(mem[At(s) := At(s')], x) == Peek(mem, x)
      {
        AtInjective(|mem|, s, x);
      }
    }

    /** *(char **)(p + at) = p + to, where at and to are the cells of s and s'. */
    static method Store(mem: array<int>, at: int, to: int, ghost tb: Tables, ghost s: Slot, ghost s': Slot)
      requires tb.Wf(mem.Length) && tb.Has(s) && tb.Has(s') && at == tb.At(s) && to == tb.At(s')
      modifies mem
      ensures tb.Joined(mem[..], s, s') && tb.OnlySlot(old(mem[..]), mem[..], s)
      ensures 0 <= at < mem.Length && mem[..] == old(mem[..])[at := to]
    {
      tb.StoreSlot(mem[..], s, s');
      mem[at] := to;
      assert mem[..] == old(mem[..])[at := to];
    }

    /** The cells of a list of slots. */
    ghost function Cells(slots: seq<Slot>): (cells: seq<int>)
      requires forall t :: 0 <= t < |slots| ==> Has(slots[t])
    {
      seq(|slots|, t requires 0 <= t < |slots| => At(slots[t]))
    }

    /** Different slots, each linked to the next one, are a cycle of cells. */
    lemma SlotsMakeCycle(slots: seq<Slot>, mem: seq<int>)
      requires Wf(|mem|) && |slots| > 0 && Distinct(slots) && forall t :: 0 <= t < |slots| ==> Has(slots[t])
      requires forall t :: 0 <= t < |slots| ==>
                 Joined(mem, slots[t], slots[if t == |slots| - 1 then 0 else t + 1])
      ensures IsCycle(mem, Cells(slots))
    {
      var cells := Cells(slots);
      forall t | 0 <= t < |cells|
        ensures 0 <= cells[t] < |mem|
        ensures mem[cells[t]] == cells[if t == |cells| - 1 then 0 else t + 1]
      {
        AtBounds(|mem|, slots[t]);
        assert Joined(mem, slots[t], slots[if t == |slots| - 1 then 0 else t + 1]);
      }
      forall t, t' | 0 <= t < t' < |cells|
        ensures cells[t] != cells[t']
      {
        AtInjective(|mem|, slots[t], slots[t']);
      }
    }
  }

  // ----- positions in mixed radix

  ghost function Rank(s: Slot, lap: nat, nlines: nat): nat {
    s.word * lap + s.page * nlines + s.line
  }

  ghost function Unrank(t: nat, lap: nat, nlines: nat): Slot
    requires lap > 0 && nlines > 0
  {
    Digits(t, lap);
    Digits(t % lap, nlines);
    Slot(t % lap / nlines, t % lap % nlines, t / lap)
  }

  lemma RankUnrank(t: nat, lap: nat, nlines: nat)
    requires lap > 0 && nlines > 0
    ensures var s := Unrank(t, lap, nlines);
            Rank(s, lap, nlines) == t && s.line < nlines && s.page * nlines + s.line < lap
  {
    Digits(t, lap);
    Digits(t % lap, nlines);
  }

  lemma UnrankRank(s: Slot, lap: nat, nlines: nat)
    requires lap > 0 && nlines > 0
    requires s.line < nlines && s.page * nlines + s.line < lap
    ensures Unrank(Rank(s, lap, nlines), lap, nlines) == s
  {
    Quotient(s.word, s.page * nlines + s.line, lap);
    Quotient(s.page, s.line, nlines);
  }

  // ----- page after page: mem_initialize, line_initialize, line_test and measure

  /** The chain through `npages` pages that uses `nlines` lines of every page but the
      last, `last` lines of the last page, and `nwords` words of each line. */
  datatype Sweep = Sweep(npages: nat, nlines: nat, last: nat, nwords: nat)
  {
    ghost predicate Ok() {
      npages > 0 && 0 < last <= nlines && nwords > 0
    }

    ghost function LinesOf(page: nat): nat {
      if page == npages - 1 then last else nlines
    }

    ghost predicate Has(s: Slot) {
      s.page < npages && s.line < LinesOf(s.page) && s.word < nwords
    }

    /** The last line of the last page, from which the chain returns to the start. */
    ghost predicate Final(s: Slot) {
      s.page + 1 == npages && s.line + 1 == last
    }

    /** The next line of the page, else the first line of the next page, else the
        next word of the very first line. */
    ghost function Next(s: Slot): Slot
    {
      if s.line + 1 < LinesOf(s.page) then Slot(s.page, s.line + 1, s.word)
      else if s.page + 1 < npages then Slot(s.page + 1, 0, s.word)
      else Slot(0, 0, if s.word + 1 == nwords then 0 else s.word + 1)
    }

    /** Cells visited per word index, and in all. */
    ghost function Lap(): (n: nat)
      requires Ok()
      ensures n > 0
    {
      (npages - 1) * nlines + last
    }

    ghost function Count(): nat
      requires Ok()
    {
      nwords * Lap()
    }

    /** When a slot is visited ... */
    ghost function Time(s: Slot): nat
      requires Ok()
    {
      Rank(s, Lap(), nlines)
    }

    /** ... and which slot is visited when. */
    ghost function SlotAt(t: nat): Slot
      requires Ok()
    {
      Unrank(t, Lap(), nlines)
    }

    /** A line of the sweep by its position within the lap. */
    lemma LapPosition(page: nat, line: nat)
      requires Ok() && line < nlines
      ensures page < npages && line < LinesOf(page) <==> page * nlines + line < Lap()
    {
      if page < npages - 1 {
        MulGap(page, npages - 1, nlines);
      } else if page >= npages {
        MulMono(npages, page, nlines);
        MulSucc(npages - 1, nlines);
      }
    }

    lemma TimeOfSlotAt(t: nat)
      requires Ok() && t < Count()
      ensures Has(SlotAt(t)) && Time(SlotAt(t)) == t
    {
      var s := SlotAt(t);
      RankUnrank(t, Lap(), nlines);
      LapPosition(s.page, s.line);
      MulCompare(s.word, nwords, Lap());
    }

    lemma SlotAtTime(s: Slot)
      requires Ok() && Has(s)
      ensures Time(s) < Count() && SlotAt(Time(s)) == s
    {
      LapPosition(s.page, s.line);
      UnrankRank(s, Lap(), nlines);
      MulGap(s.word, nwords, Lap());
    }

    lemma NextTime(s: Slot)
      requires Ok() && Has(s)
      ensures Has(Next(s))
      ensures Time(Next(s)) == if Time(s) == Count() - 1 then 0 else Time(s) + 1
    {
      SlotAtTime(s);
      SlotAtTime(Next(s));
      MulSucc(s.word, Lap());
      MulSucc(s.page, nlines);
      if Next(s) == Slot(0, 0, 0) {
        assert Time(s) + 1 == (s.word + 1) * Lap();
      }
    }

    /** The slots of the chain in the order they are visited. */
    ghost function Visits(): (slots: seq<Slot>)
      requires Ok()
      ensures |slots| == Count() && forall t: nat :: t < Count() ==> slots[t] == SlotAt(t)
    {
      seq(Count(), (t: nat) => SlotAt(t))
    }

    /** Every slot of the sweep is visited, and only once. */
    lemma VisitsAll()
      requires Ok()
      ensures |Visits()| == Count() > 0
      ensures forall t :: 0 <= t < |Visits()| ==> Has(Visits()[t])
      ensures Distinct(Visits())
      ensures forall s :: Has(s) ==> Time(s) < Count() && Visits()[Time(s)] == s
    {
      MulMono(1, nwords, Lap());
      forall t | 0 <= t < Count()
        ensures Has(Visits()[t])
      {
        TimeOfSlotAt(t);
      }
      forall t, t' | 0 <= t < t' < Count()
        ensures Visits()[t] != Visits()[t']
      {
        TimeOfSlotAt(t);
        TimeOfSlotAt(t');
      }
      forall s | Has(s)
        ensures Time(s) < Count() && Visits()[Time(s)] == s
      {
        SlotAtTime(s);
      }
    }

    lemma VisitsStep(t: nat)
      requires Ok() && t < Count()
      ensures Has(Visits()[t])
      ensures Next(Visits()[t]) == Visits()[if t == Count() - 1 then 0 else t + 1]
    {
      var s := Visits()[t];
      TimeOfSlotAt(t);
      NextTime(s);
      SlotAtTime(Next(s));
    }

    ghost predicate Fits(tb: Tables) {
      npages <= |tb.pages| && nlines <= |tb.lines| && nwords <= |tb.words|
    }

    /** The cells of the chain in the order they are visited. */
    ghost function Order(tb: Tables): seq<int>
      requires Ok() && Fits(tb)
    {
      VisitsAll();
      tb.Cells(Visits())
    }

    /** The chain passes through the cell of s when Time says, and starts at the first slot. */
    lemma OrderPasses(tb: Tables, s: Slot)
      requires Ok() && Fits(tb) && Has(s)
      ensures Time(s) < |Order(tb)| && Order(tb)[Time(s)] == tb.At(s)
    {
      VisitsAll();
      assert Visits()[Time(s)] == s;
    }

    lemma OrderStart(tb: Tables)
      requires Ok() && Fits(tb)
      ensures |Order(tb)| > 0 && Order(tb)[0] == tb.At(Slot(0, 0, 0))
    {
      OrderPasses(tb, Slot(0, 0, 0));
    }

    /** Every cell holds the next one. */
    ghost predicate Linked(tb: Tables, mem: seq<int>)
      requires Ok() && Fits(tb)
    {
      forall s {:trigger tb.Joined(mem, s, Next(s))} :: Has(s) ==> tb.Joined(mem, s, Next(s))
    }

    /** Memory linked slot by slot is one cycle through all of them. */
    lemma LinkedIsCycle(tb: Tables, mem: seq<int>)
      requires Ok() && Fits(tb) && tb.Wf(|mem|) && Linked(tb, mem)
      ensures IsCycle(mem, Order(tb))
    {
      VisitsAll();
      forall t | 0 <= t < Count()
        ensures tb.Joined(mem, Visits()[t], Visits()[if t == Count() - 1 then 0 else t + 1])
      {
        VisitsStep(t);
      }
      tb.SlotsMakeCycle(Visits(), mem);
    }
  }
}
