/** tlb_initialize of lib_mem.c: a random walk over separately allocated pages. */
module TlbChains {
  import opened Arith
  import opened BitReversal
  import opened Chains
  import opened Layouts
  import opened MemStates
  import opened Swaps

  function Identity(n: nat): (s: seq<int>)
    ensures |s| == n && forall x :: 0 <= x < n ==> s[x] == x
  {
    seq(n, (x: nat) => x)
  }

  /** One of the slots 1 .. i. */
  function Pick(draw: nat -> nat, i: nat): (a: nat)
    requires i > 0
    ensures 1 <= a <= i
  {
    draw(i) % i + 1
  }

  /** The remaining steps i, i - 1, ..., 1 of the shuffle; step k exchanges slot k + 1 with one of
      the slots 1 .. k, picked by the k-th random number. */
  function Shuffled<T>(s: seq<T>, i: nat, draw: nat -> nat): (s': seq<T>)
    requires i == 0 || i + 1 < |s|
    ensures |s'| == |s|
    decreases i
  {
    if i == 0 then s else Shuffled(Swapped(s, Pick(draw, i), i + 1), i - 1, draw)
  }

  /** The same permutation of slots is applied to any list of pages. */
  lemma {:induction false} ShuffledByIndex<T>(s: seq<T>, i: nat, draw: nat -> nat, x: nat)
    requires (i == 0 || i + 1 < |s|) && x < |s|
    ensures 0 <= Shuffled(Identity(|s|), i, draw)[x] < |s|
    ensures Shuffled(s, i, draw)[x] == s[Shuffled(Identity(|s|), i, draw)[x]]
    decreases i
  {
    if i > 0 {
      var a, b := Pick(draw, i), i + 1;
      ShuffledByIndex(Swapped(s, a, b), i - 1, draw, x);
      ShuffledByIndex(Swapped(Identity(|s|), a, b), i - 1, draw, x);
    }
  }

  lemma {:induction false} ShuffledRearranged<T>(s: seq<T>, i: nat, draw: nat -> nat)
    requires i == 0 || i + 1 < |s|
    ensures Rearranged(s, Shuffled(s, i, draw))
    decreases i
  {
    if i > 0 {
      SwappedRearranged(s, Pick(draw, i), i + 1);
      ShuffledRearranged(Swapped(s, Pick(draw, i), i + 1), i - 1, draw);
    }
  }

  /** `order` lists exactly the numbers 1 .. top. */
  ghost predicate Lists(order: seq<int>, top: nat) {
    forall x :: x in order <==> 1 <= x <= top
  }

  /** The steps i .. 1 permute the slots 1 .. i + 1 in one single cycle and leave the others alone:
      read as a memory of pointers, the permutation is one pointer chain. */
  lemma {:induction false} ShuffleIsOneCycle(n: nat, i: nat, draw: nat -> nat) returns (order: seq<int>)
    requires i + 1 < n
    ensures IsCycle(Shuffled(Identity(n), i, draw), order) && Lists(order, i + 1)
    ensures forall x :: 0 <= x < n && x !in order ==> Shuffled(Identity(n), i, draw)[x] == x
    decreases i
  {
    if i == 0 {
      order := [1];
    } else {
      var inner := ShuffleIsOneCycle(n, i - 1, draw);
      ShuffleStep(n, i, draw);
      order := CycleGrows(Shuffled(Identity(n), i - 1, draw), Shuffled(Identity(n), i, draw), inner,
                          Pick(draw, i), i + 1);
    }
  }

  /** A cycle of 1 .. b - 1, followed by an exchange of its member a with b, is a cycle of 1 .. b. */
  lemma CycleGrows(p: seq<int>, p': seq<int>, inner: seq<int>, a: nat, b: nat) returns (order: seq<int>)
    requires 1 <= a < b < |p| && IsCycle(p, inner) && Lists(inner, b - 1) && ThenExchanged(p, p', a, b)
    requires forall x :: 0 <= x < |p| && x !in inner ==> p[x] == x
    ensures IsCycle(p', order) && Lists(order, b)
    ensures forall x :: 0 <= x < |p| && x !in order ==> p'[x] == x
  {
    assert a in inner;
    var k :| 0 <= k < |inner| && inner[k] == a;
    order := Insert(inner, k, b);
    InsertedCycle(p, p', inner, k, b);
    InsertMembers(inner, k, b);
  }

  /** Step i comes first, so it acts last on slot numbers. */
  lemma ShuffleStep(n: nat, i: nat, draw: nat -> nat)
    requires 0 < i && i + 1 < n
    ensures ThenExchanged(Shuffled(Identity(n), i - 1, draw), Shuffled(Identity(n), i, draw), Pick(draw, i), i + 1)
  {
    var a, b := Pick(draw, i), i + 1;
    forall x | 0 <= x < n
      ensures var y := Shuffled(Identity(n), i - 1, draw)[x];
              0 <= y < n && Shuffled(Identity(n), i, draw)[x] == Swapped(Identity(n), a, b)[y]
    {
      ShuffledByIndex(Swapped(Identity(n), a, b), i - 1, draw, x);
    }
  }

  function Insert(s: seq<int>, k: nat, b: int): (s': seq<int>)
    requires k <= |s|
    ensures |s'| == |s| + 1 && s'[k] == b
    ensures forall t :: 0 <= t < k ==> s'[t] == s[t]
    ensures forall t :: k < t < |s'| ==> s'[t] == s[t - 1]
  {
    s[..k] + [b] + s[k..]
  }

  lemma InsertMembers(s: seq<int>, k: nat, b: int)
    requires k <= |s|
    ensures forall x :: x in Insert(s, k, b) <==> x in s || x == b
  {
    assert s == s[..k] + s[k..];
  }

  /** p' is p followed by the exchange of a and b. */
  ghost predicate ThenExchanged(p: seq<int>, p': seq<int>, a: int, b: int) {
    |p| == |p'| && forall x :: 0 <= x < |p| ==> p'[x] == if p[x] == a then b else if p[x] == b then a else p[x]
  }

  /** Following a cycle by an exchange of its k-th entry with a new one puts the new one into the
      cycle just before that entry. */
  lemma InsertedCycle(p: seq<int>, p': seq<int>, inner: seq<int>, k: nat, b: nat)
    requires IsCycle(p, inner) && k < |inner| && ThenExchanged(p, p', inner[k], b)
    requires b < |p| && p[b] == b && b !in inner
    ensures IsCycle(p', Insert(inner, k, b))
  {
    var order := Insert(inner, k, b);
    forall t | 0 <= t < |order|
      ensures 0 <= order[t] < |p'| && p'[order[t]] == order[if t == |order| - 1 then 0 else t + 1]
    {
      InsertedLink(p, p', inner, k, b, t);
    }
    InsertedDistinct(inner, k, b);
  }

  lemma InsertedDistinct(s: seq<int>, k: nat, b: int)
    requires k <= |s| && Distinct(s) && b !in s
    ensures Distinct(Insert(s, k, b))
  {
  }

  lemma InsertedLink(p: seq<int>, p': seq<int>, inner: seq<int>, k: nat, b: nat, t: nat)
    requires IsCycle(p, inner) && k < |inner| && ThenExchanged(p, p', inner[k], b)
    requires b < |p| && p[b] == b && b !in inner && t <= |inner|
    ensures var order := Insert(inner, k, b);
            0 <= order[t] < |p'| && p'[order[t]] == order[if t == |inner| then 0 else t + 1]
  {
    if t != k {
      var u := if t < k then t else t - 1;
      var v := if u == |inner| - 1 then 0 else u + 1;
      assert p[inner[u]] == inner[v] && inner[v] in inner;
      if v != k { assert inner[v] != inner[k]; }
    }
  }

  /** With three pages or more no page but the first keeps its slot. */
  lemma NoPageStays(n: nat, draw: nat -> nat, x: nat)
    requires n >= 3 && 1 <= x < n
    ensures Shuffled(Identity(n), n - 2, draw)[x] != x
    ensures Shuffled(Identity(n), n - 2, draw)[0] == 0
  {
    var order := ShuffleIsOneCycle(n, n - 2, draw);
    var y := if x == 1 then 2 else 1;
    assert x in order && y in order;
    var t :| 0 <= t < |order| && order[t] == x;
    var u :| 0 <= u < |order| && order[u] == y;
    assert order[if t == |order| - 1 then 0 else t + 1] != order[t];
  }

  // ----- the builder

  /** The chain of tlb_initialize: page i is entered at word i of the word table. */
  ghost function TlbOrder(pages: seq<int>, lines: seq<int>): seq<int>
    requires |lines| > 0
  {
    seq(|pages|, i requires 0 <= i < |pages| => pages[i] + lines[i % |lines|])
  }

  /** The shuffle and the chain of tlb_initialize, on the pages valloc returned. */
  method TlbThread(mem: array<int>, pages: array<int>, lines: array<int>, pagesize: nat, ptr: nat, draw: nat -> nat)
    requires mem != pages && mem != lines && pages != lines
    requires pages.Length > 0 && ptr > 0 && lines.Length == pagesize / ptr > 0
    requires lines[..] == WordOrder(lines.Length, ptr)
    requires Apart(pages[..], pagesize) && Within(pages[..], 0, mem.Length - pagesize)
    modifies mem, pages
    ensures pages[..] == Shuffled(old(pages[..]), if pages.Length < 2 then 0 else pages.Length - 2, draw)
    ensures pages[0] == old(pages[0]) && Rearranged(old(pages[..]), pages[..])
    ensures lines.Length > 0 && IsCycle(mem[..], TlbOrder(pages[..], lines[..]))
  {
    Shuffle(pages, pagesize, mem.Length - pagesize, draw);
    Thread(mem, pages, lines, pagesize, ptr);
  }

  method Shuffle(pages: array<int>, ghost pagesize: nat, ghost top: int, draw: nat -> nat)
    requires pages.Length > 0
    requires Apart(pages[..], pagesize) && Within(pages[..], 0, top)
    modifies pages
    ensures pages[..] == Shuffled(old(pages[..]), if pages.Length < 2 then 0 else pages.Length - 2, draw)
    ensures pages[0] == old(pages[0]) && Rearranged(old(pages[..]), pages[..])
    ensures Apart(pages[..], pagesize) && Within(pages[..], 0, top)
  {
    var i := pages.Length - 2;
    ghost var last := if i < 0 then 0 else i;
    ShuffledRearranged(pages[..], last, draw);
    while i > 0
      invariant i < 0 ==> pages.Length == 1
      invariant i <= last && pages[0] == old(pages[0])
      invariant Shuffled(pages[..], if i < 0 then 0 else i, draw) == Shuffled(old(pages[..]), last, draw)
      invariant Apart(pages[..], pagesize) && Within(pages[..], 0, top)
    {
      SwappedApart(pages[..], Pick(draw, i), i + 1, pagesize, 0, top);
      Swap(pages, Pick(draw, i), i + 1);
      i := i - 1;
    }
  }

  method Thread(mem: array<int>, pages: array<int>, lines: array<int>, ghost pagesize: nat, ghost ptr: nat)
    requires mem != pages && mem != lines
    requires pages.Length > 0 && ptr > 0 && lines.Length == pagesize / ptr > 0
    requires lines[..] == WordOrder(lines.Length, ptr)
    requires Apart(pages[..], pagesize) && Within(pages[..], 0, mem.Length - pagesize)
    modifies mem
    ensures IsCycle(mem[..], TlbOrder(pages[..], lines[..]))
  {
    var npages, nlines := pages.Length, lines.Length;
    ghost var order := TlbOrder(pages[..], lines[..]);
    OrderSeparate(pages[..], lines[..], pagesize, ptr, mem.Length);
    for i := 0 to npages - 1
      invariant TlbOrder(pages[..], lines[..]) == order
      invariant forall k :: 0 <= k < i ==> mem[order[k]] == order[k + 1]
    {
      assert pages[i] + lines[i % nlines] == order[i];
      assert pages[i + 1] + lines[(i + 1) % nlines] == order[i + 1];
      mem[pages[i] + lines[i % nlines]] := pages[i + 1] + lines[(i + 1) % nlines];
    }
    assert pages[npages - 1] + lines[(npages - 1) % nlines] == order[npages - 1];
    assert order[0] == pages[0] + lines[0];
    mem[pages[npages - 1] + lines[(npages - 1) % nlines]] := pages[0] + lines[0];
  }

  lemma OrderSeparate(pages: seq<int>, lines: seq<int>, pagesize: nat, ptr: nat, size: nat)
    requires ptr > 0 && |lines| == pagesize / ptr > 0 && lines == WordOrder(|lines|, ptr)
    requires Apart(pages, pagesize) && Within(pages, 0, size - pagesize)
    ensures forall k :: 0 <= k < |pages| ==> 0 <= TlbOrder(pages, lines)[k] < size
    ensures Distinct(TlbOrder(pages, lines))
  {
    WordOrderBelow(|lines|, ptr);
    Digits(pagesize, ptr);
    forall k | 0 <= k < |pages|
      ensures pages[k] <= TlbOrder(pages, lines)[k] <= pages[k] + pagesize - ptr
    {
      Digits(k, |lines|);
    }
  }
}
