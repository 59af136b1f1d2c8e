/** The state that lib_mem.c shares between its pointer-chain builders, and the tables
    it keeps there. Addresses are byte offsets from state->base. */
module MemStates {
  import opened Arith
  import opened BitReversal
  import opened Layouts
  import opened Swaps

  lemma WordOrderApart(max: nat, scale: nat)
    requires IsPow2(max)
    ensures Apart(WordOrder(max, scale), scale) && Within(WordOrder(max, scale), 0, scale * max - scale)
  {
    var s, b := WordOrder(max, scale), Log2(max);
    forall i | 0 <= i < max
      ensures 0 <= s[i] <= scale * max - scale
    {
      MulGap(Rev(i, b), max, scale);
      MulMono(0, Rev(i, b), scale);
    }
    forall i, i' | 0 <= i < i' < max
      ensures s[i] + scale <= s[i'] || s[i'] + scale <= s[i]
    {
      if Rev(i, b) == Rev(i', b) { RevInjective(i, i', b); }
      if Rev(i, b) < Rev(i', b) {
        MulGap(Rev(i, b), Rev(i', b), scale);
      } else {
        MulGap(Rev(i', b), Rev(i, b), scale);
      }
    }
  }

  /** The order fits the max * scale bytes it was made for. */
  lemma WordOrderFits(max: nat, scale: nat, total: nat)
    requires IsPow2(max) && max * scale == total
    ensures Apart(WordOrder(max, scale), scale) && Within(WordOrder(max, scale), 0, total - scale)
  {
    WordOrderApart(max, scale);
    assert scale * max == total;
  }

  lemma WordOrderBelow(max: nat, scale: nat)
    requires max > 0
    ensures Within(WordOrder(max, scale), 0, scale * max - scale)
  {
    Log2Bounds(max);
    forall i | 0 <= i < max
      ensures 0 <= WordOrder(max, scale)[i] <= scale * max - scale
    {
      MulGap(Rev(i, Log2(max)), max, scale);
      MulMono(0, Rev(i, Log2(max)), scale);
    }
  }

  lemma WordOrderFull(max: nat, scale: nat)
    requires IsPow2(max) && scale > 0
    ensures forall k :: 0 <= k < max * scale && k % scale == 0 ==> k in WordOrder(max, scale)
  {
    forall k | 0 <= k < max * scale && k % scale == 0
      ensures k in WordOrder(max, scale)
    {
      var q := WholeMultiple(k, max, scale);
      WordOrderCovers(max, scale, q);
    }
  }

  lemma WholeMultiple(k: nat, max: nat, scale: nat) returns (q: nat)
    requires scale > 0 && k < max * scale && k % scale == 0
    ensures k == scale * q && q < max
  {
    q := k / scale;
    Digits(k, scale);
    MulCompare(q, max, scale);
  }

  /** words_initialize: the offsets in bit-reversed order. */
  method WordsInitialize(max: nat, scale: nat) returns (words: array<int>)
    ensures fresh(words) && words[..] == WordOrder(max, scale)
  {
    words := new int[max];
    var nbits: nat, i: nat := 0, max / 2;
    while i != 0
      invariant Log2(max) == nbits + (if i == 0 then 0 else 1 + Log2(i))
    {
      i, nbits := i / 2, nbits + 1;
    }
    for i := 0 to max
      invariant forall k :: 0 <= k < i ==> words[k] == scale * Rev(k, Log2(max))
    {
      var w := ReverseLoop(i, nbits);
      words[i] := w * scale;
    }
  }

  /** The pages in address order. */
  ghost function Ascending(max: nat, scale: nat): (s: seq<int>)
    ensures |s| == max
  {
    seq(max, (i: nat) => i * scale)
  }

  lemma SwappedApart(s: seq<int>, i: nat, j: nat, d: int, lo: int, hi: int)
    requires i < |s| && j < |s| && Apart(s, d) && Within(s, lo, hi)
    ensures Apart(Swapped(s, i, j), d) && Within(Swapped(s, i, j), lo, hi)
  {
    var s' := Swapped(s, i, j);
    forall a, b | 0 <= a < b < |s'|
      ensures s'[a] + d <= s'[b] || s'[b] + d <= s'[a]
    {
      var a0 := if a == i then j else if a == j then i else a;
      var b0 := if b == i then j else if b == j then i else b;
      assert s'[a] == s[a0] && s'[b] == s[b0];
      assert s[a0] + d <= s[b0] || s[b0] + d <= s[a0] by {
        if a0 < b0 {} else { assert b0 < a0; }
      }
    }
  }

  /** permutation of lib_timing.c, for every stream of random numbers. */
  method Permutation(max: nat, scale: nat, draw: nat -> nat) returns (result: array<int>)
    ensures fresh(result) && Rearranged(Ascending(max, scale), result[..])
    ensures Apart(result[..], scale) && Within(result[..], 0, max * scale - scale)
  {
    result := new int[max];
    for i := 0 to max
      invariant forall k :: 0 <= k < i ==> result[k] == k * scale
    {
      result[i] := i * scale;
    }
    assert result[..] == Ascending(max, scale);
    AscendingApart(max, scale);
    for i := 0 to max
      invariant Rearranged(Ascending(max, scale), result[..])
      invariant Apart(result[..], scale) && Within(result[..], 0, max * scale - scale)
    {
      var o := draw(i) % max;
      SwappedApart(result[..], o, i, scale, 0, max * scale - scale);
      Swap(result, o, i);
    }
  }

  lemma AscendingApart(max: nat, scale: nat)
    ensures Apart(Ascending(max, scale), scale) && Within(Ascending(max, scale), 0, max * scale - scale)
  {
    forall a, b | 0 <= a < b < max
      ensures a * scale + scale <= b * scale
    {
      MulGap(a, b, scale);
    }
    forall a | 0 <= a < max
      ensures 0 <= a * scale <= max * scale - scale
    {
      MulGap(a, max, scale);
      MulMono(0, a, scale);
    }
  }

  /** struct mem_state. `mem` holds the pointer stored at each byte offset from `base`. */
  class MemState {
    const ptr: nat               // sizeof(char *)
    var mem: array<int>
    var len: nat
    var maxlen: nat
    var line: nat
    var pagesize: nat
    var nlines: nat
    var npages: nat
    var nwords: nat
    var pages: array<int>
    var lines: array<int>
    var words: array<int>

    constructor (ptr: nat, len: nat, maxlen: nat, line: nat, pagesize: nat)
      ensures this.ptr == ptr && this.len == len && this.maxlen == maxlen
      ensures this.line == line && this.pagesize == pagesize
    {
      this.ptr, this.len, this.maxlen, this.line, this.pagesize := ptr, len, maxlen, line, pagesize;
      mem, pages, lines, words := new int[0], new int[0], new int[0], new int[0];
      nlines, npages, nwords := 0, 0, 0;
    }

    /** What every builder needs of its caller. */
    ghost predicate Sizes()
      reads this
    {
      ptr > 0 && line > 0 && pagesize > 0 && 0 < len <= maxlen
    }

    /** Lines are a power of two of words and pages a power of two of lines. */
    ghost predicate Geometry()
      reads this
    {
      && Sizes()
      && line % ptr == 0 && IsPow2(line / ptr)
      && pagesize % line == 0 && IsPow2(pagesize / line)
    }

    /** What base_initialize sets up. */
    ghost predicate Laid()
      reads this, pages
    {
      && Sizes()
      && nwords == line / ptr && nlines == pagesize / line
      && npages == (len + pagesize - 1) / pagesize
      && 0 < npages <= pages.Length
      && pages != mem
      && Apart(pages[..], pagesize) && Within(pages[..], 0, mem.Length - pagesize)
      && pages.Length == (maxlen + pagesize - 1) / pagesize
      && mem.Length == pages.Length * pagesize
    }

    ghost predicate Based()
      reads this, pages
    {
      Geometry() && Laid()
    }

    /** ... and the line and word tables of mem_initialize. */
    ghost predicate Valid()
      reads this, pages, lines, words
    {
      && Based()
      && lines != mem && words != mem && pages != lines && pages != words
      && lines[..] == WordOrder(nlines, line)
      && words[..] == WordOrder(nwords, ptr)
    }

    ghost function Tb(): Tables
      reads this, pages, lines, words
    {
      Tables(pages[..], lines[..], words[..], pagesize, line, ptr)
    }

    lemma GeometryFacts()
      requires Geometry()
      ensures line / ptr * ptr == line && pagesize / line * line == pagesize
      ensures line / ptr > 0 && pagesize / line > 0 && ptr <= line <= pagesize
    {
      Digits(line, ptr);
      Digits(pagesize, line);
      MulMono(1, line / ptr, ptr);
      MulMono(1, pagesize / line, line);
    }

    /** The tables describe separate cells, and the chain of mem_initialize fits them. */
    lemma TablesFit()
      requires Valid()
      ensures nwords > 0 && nlines > 0 && Tb().Wf(mem.Length) && Tb().WordsCover()
      ensures npages <= |Tb().pages| && nlines == |Tb().lines| && nwords == |Tb().words|
      ensures (npages - 1) * nlines <= len / line <= npages * nlines
    {
      GeometryFacts();
      WordOrderFits(nlines, line, pagesize);
      WordOrderFits(nwords, ptr, line);
      WordOrderFull(nwords, ptr);
      PointerBounds(len, line, pagesize, nlines, npages, len / line);
    }
  }

  /** len lies in the last of the npages pages, as base_initialize counts them. */
  lemma PointerBounds(len: nat, line: nat, pagesize: nat, nlines: nat, npages: nat, npointers: nat)
    requires line > 0 && nlines > 0 && pagesize == nlines * line && len > 0
    requires npages == (len + pagesize - 1) / pagesize && npointers == len / line
    ensures (npages - 1) * nlines <= npointers <= npages * nlines
  {
    Digits(len + pagesize - 1, pagesize);
    MulSucc(npages - 1, pagesize);
    assert (npages - 1) * pagesize < len <= npages * pagesize;
    Digits(len, line);
    MulAssoc(npages - 1, nlines, line);
    MulAssoc(npages, nlines, line);
    MulCompare((npages - 1) * nlines, npointers + 1, line);
    MulCompare(npointers, npages * nlines + 1, line);
  }

  lemma CeilMono(a: nat, b: nat, d: nat)
    requires 0 < a <= b && d > 0
    ensures 0 < (a + d - 1) / d <= (b + d - 1) / d
  {
    Digits(a + d - 1, d);
    Digits(b + d - 1, d);
    MulCompare((a + d - 1) / d, (b + d - 1) / d + 1, d);
  }
}
