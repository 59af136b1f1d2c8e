/** The order in which lat_dram_page walks memory: group of pages by group of pages, and inside
    a group every line on all pages of the group before the next line. */
module GroupOrders {
  import opened Arith
  import opened Chains
  import opened Layouts

  datatype Groups = Groups(npages: nat, nlines: nat, nwords: nat, size: nat)
  {
    ghost predicate Ok() {
      npages > 0 && nlines > 0 && nwords > 0 && size > 0
    }

    ghost predicate Has(s: Slot) {
      s.page < npages && s.line < nlines && s.word < nwords
    }

    /** First page of the group of a page, and the number of pages of a group by its first page. */
    ghost function First(page: nat): nat
      requires Ok()
    {
      page / size * size
    }

    ghost function SizeAt(first: nat): nat {
      if first + size <= npages then size else if first <= npages then npages - first else 0
    }

    ghost predicate LastOfGroup(page: nat)
      requires Ok()
    {
      page + 1 == First(page) + SizeAt(First(page))
    }

    /** The same cell of the next page of the group, else the next line of the first page of the
        group, else the next group, else the next word of the very first line. */
    ghost function Next(s: Slot): Slot
      requires Ok()
    {
      if !LastOfGroup(s.page) then Slot(s.page + 1, s.line, s.word)
      else if s.line + 1 < nlines then Slot(First(s.page), s.line + 1, s.word)
      else if s.page + 1 < npages then Slot(s.page + 1, 0, s.word)
      else Slot(0, 0, if s.word + 1 == nwords then 0 else s.word + 1)
    }

    ghost function Lap(): nat {
      npages * nlines
    }

    ghost function Count(): nat {
      nwords * Lap()
    }

    ghost function Time(s: Slot): nat
      requires Ok()
    {
      var first := First(s.page);
      s.word * Lap() + GroupTime(first, SizeAt(first), s.page, s.line)
    }

    /** Position within the lap of a cell, by its group. */
    ghost function GroupTime(first: nat, pages: nat, page: nat, line: nat): nat {
      first * nlines + line * pages + if page >= first then page - first else 0
    }

    ghost function SlotAt(t: nat): Slot
      requires Ok()
    {
      MulMono(1, npages, nlines);
      Digits(t, Lap());
      var (page, line) := PlaceAt(t % Lap());
      Slot(page, line, t / Lap())
    }

    ghost function PlaceAt(r: nat): (nat, nat)
      requires Ok()
    {
      MulMono(1, size, nlines);
      Digits(r, size * nlines);
      var first, rest := r / (size * nlines) * size, r % (size * nlines);
      if SizeAt(first) == 0 then (0, 0)
      else Digits(rest, SizeAt(first)); (first + rest % SizeAt(first), rest / SizeAt(first))
    }

    lemma GroupFacts(page: nat)
      requires Ok() && page < npages
      ensures First(page) <= page < First(page) + SizeAt(First(page)) <= npages
      ensures First(First(page)) == First(page)
    {
      Digits(page, size);
      Quotient(page / size, 0, size);
    }

    lemma NextGroup(page: nat)
      requires Ok() && page + 1 < npages
      ensures First(page + 1) == if LastOfGroup(page) then page + 1 else First(page)
    {
      GroupFacts(page);
      var g := page / size;
      if LastOfGroup(page) {
        MulSucc(g, size);
        Quotient(g + 1, 0, size);
      } else {
        Quotient(g, page + 1 - g * size, size);
      }
    }

    /** A place is found again from its time ... */
    lemma PlaceAtTime(page: nat, line: nat)
      requires Ok() && page < npages && line < nlines
      ensures var first := First(page);
              var r := GroupTime(first, SizeAt(first), page, line);
              r < Lap() && PlaceAt(r) == (page, line)
    {
      GroupFacts(page);
      var g, first := page / size, First(page);
      var n := SizeAt(first);
      var rest := line * n + (page - first);
      MulGap(line, nlines, n);
      assert rest < nlines * n;
      MulMono(n, size, nlines);
      MulMono(first + n, npages, nlines);
      MulAdd(first, n, nlines);
      MulAssoc(g, size, nlines);
      MulMono(1, size, nlines);
      Quotient(g, rest, size * nlines);
      Quotient(line, page - first, n);
    }

    /** ... and a time from its place. */
    lemma TimeOfPlace(r: nat)
      requires Ok() && r < Lap()
      ensures var (page, line) := PlaceAt(r);
              page < npages && line < nlines
              && GroupTime(First(page), SizeAt(First(page)), page, line) == r
    {
      MulMono(1, size, nlines);
      Digits(r, size * nlines);
      var g, rest := r / (size * nlines), r % (size * nlines);
      var first := g * size;
      MulAssoc(g, size, nlines);
      MulCompare(first, npages, nlines);
      var n := SizeAt(first);
      assert rest < n * nlines by {
        if n < size { MulAdd(first, n, nlines); }
      }
      Digits(rest, n);
      MulCompare(rest / n, nlines, n);
      Quotient(g, rest % n, size);
    }

    lemma TimeOfSlotAt(t: nat)
      requires Ok() && t < Count()
      ensures Has(SlotAt(t)) && Time(SlotAt(t)) == t
    {
      MulMono(1, npages, nlines);
      Digits(t, Lap());
      MulCompare(t / Lap(), nwords, Lap());
      TimeOfPlace(t % Lap());
    }

    lemma SlotAtTime(s: Slot)
      requires Ok() && Has(s)
      ensures Time(s) < Count() && SlotAt(Time(s)) == s
    {
      PlaceAtTime(s.page, s.line);
      var first := First(s.page);
      Quotient(s.word, GroupTime(first, SizeAt(first), s.page, s.line), Lap());
      MulGap(s.word, nwords, Lap());
    }

    /** The last line of the last page of a group is visited just before the next page. */
    lemma GroupEnd(page: nat)
      requires Ok() && page < npages && LastOfGroup(page)
      ensures GroupTime(First(page), SizeAt(First(page)), page, nlines - 1) + 1 == (page + 1) * nlines
      ensures page + 1 < npages ==>
                GroupTime(First(page + 1), SizeAt(First(page + 1)), page + 1, 0) == (page + 1) * nlines
    {
      GroupFacts(page);
      var first := First(page);
      var n := SizeAt(first);
      MulAdd(first, n, nlines);
      MulSucc(nlines - 1, n);
      if page + 1 < npages { NextGroup(page); }
    }

    lemma NextTime(s: Slot)
      requires Ok() && Has(s)
      ensures Has(Next(s))
      ensures Time(Next(s)) == if Time(s) == Count() - 1 then 0 else Time(s) + 1
    {
      GroupFacts(s.page);
      SlotAtTime(s);
      if !LastOfGroup(s.page) {
        NextGroup(s.page);
      } else if s.line + 1 < nlines {
        MulSucc(s.line, SizeAt(First(s.page)));
      } else {
        GroupEnd(s.page);
        if s.page + 1 == npages { NextWord(s); }
      }
      SlotAtTime(Next(s));
    }

    lemma NextWord(s: Slot)
      requires Ok() && Has(s) && s.page + 1 == npages && s.line + 1 == nlines && LastOfGroup(s.page)
      ensures Time(s) + 1 == (s.word + 1) * Lap()
      ensures s.word + 1 < nwords ==> Time(Slot(0, 0, s.word + 1)) == (s.word + 1) * Lap()
      ensures Time(Slot(0, 0, 0)) == 0
    {
      GroupEnd(s.page);
      MulSucc(s.word, Lap());
      Quotient(0, 0, size);
    }

    /** The slots of the chain in the order they are visited. */
    ghost function Visits(): (slots: seq<Slot>)
      requires Ok()
      ensures |slots| == Count() && forall t: nat :: t < Count() ==> slots[t] == SlotAt(t)
    {
      seq(Count(), (t: nat) => SlotAt(t))
    }

    /** Every slot is visited, and only once. */
    lemma VisitsAll()
      requires Ok()
      ensures |Visits()| == Count() > 0
      ensures forall t :: 0 <= t < |Visits()| ==> Has(Visits()[t])
      ensures Distinct(Visits())
      ensures forall s :: Has(s) ==> Time(s) < Count() && Visits()[Time(s)] == s
    {
      MulMono(1, npages, nlines);
      MulMono(1, nwords, Lap());
      forall t | 0 <= t < Count()
        ensures Has(Visits()[t])
      {
        TimeOfSlotAt(t);
      }
      forall t, t' | 0 <= t < t' < Count()
        ensures Visits()[t] != Visits()[t']
      {
        TimeOfSlotAt(t);
        TimeOfSlotAt(t');
      }
      forall s | Has(s)
        ensures Time(s) < Count() && Visits()[Time(s)] == s
      {
        SlotAtTime(s);
      }
    }

    lemma VisitsStep(t: nat)
      requires Ok() && t < Count()
      ensures Has(Visits()[t])
      ensures Next(Visits()[t]) == Visits()[if t == Count() - 1 then 0 else t + 1]
    {
      var s := Visits()[t];
      TimeOfSlotAt(t);
      NextTime(s);
      SlotAtTime(Next(s));
    }

    ghost predicate Fits(tb: Tables) {
      npages <= |tb.pages| && nlines <= |tb.lines| && nwords <= |tb.words|
    }

    /** The cells of the chain in the order they are visited. */
    ghost function Order(tb: Tables): seq<int>
      requires Ok() && Fits(tb)
    {
      VisitsAll();
      tb.Cells(Visits())
    }

    /** The chain passes through the cell of s when Time says, and starts at the first slot. */
    lemma OrderPasses(tb: Tables, s: Slot)
      requires Ok() && Fits(tb) && Has(s)
      ensures Time(s) < |Order(tb)| && Order(tb)[Time(s)] == tb.At(s)
    {
      VisitsAll();
      assert Visits()[Time(s)] == s;
    }

    lemma OrderStart(tb: Tables)
      requires Ok() && Fits(tb)
      ensures |Order(tb)| > 0 && Order(tb)[0] == tb.At(Slot(0, 0, 0))
    {
      OrderPasses(tb, Slot(0, 0, 0));
    }

    /** Every cell holds the next one. */
    ghost predicate Linked(tb: Tables, mem: seq<int>)
      requires Ok() && Fits(tb)
    {
      forall s :: Has(s) ==> tb.Joined(mem, s, Next(s))
    }

    /** Memory linked slot by slot is one cycle through all of them. */
    lemma LinkedIsCycle(tb: Tables, mem: seq<int>)
      requires Ok() && Fits(tb) && tb.Wf(|mem|) && Linked(tb, mem)
      ensures IsCycle(mem, Order(tb))
    {
      VisitsAll();
      forall t | 0 <= t < Count()
        ensures tb.Joined(mem, Visits()[t], Visits()[if t == Count() - 1 then 0 else t + 1])
      {
        VisitsStep(t);
      }
      tb.SlotsMakeCycle(Visits(), mem);
    }
  }
}
