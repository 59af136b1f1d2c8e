/** pagesort of cache.c: pages and latencies are sorted together. */
module PageSorting {
  import opened Swaps

  /** Pages and their latencies side by side; latency m belongs to the page in slot base + m. */
  ghost function Pairs(pages: seq<int>, base: nat, lat: seq<real>, lo: nat, hi: nat): (s: seq<(int, real)>)
    requires lo <= hi <= |lat| && base + hi <= |pages|
    ensures |s| == hi - lo
  {
    seq(hi - lo, m requires 0 <= m < hi - lo => (pages[base + lo + m], lat[lo + m]))
  }

  ghost predicate Increasing(lat: seq<real>, lo: nat, hi: nat) {
    hi <= |lat| && forall a, b :: lo <= a < b < hi ==> lat[a] <= lat[b]
  }

  /** Entry a is no greater than the entries from a + 1 to below b. */
  ghost predicate LeastOf(lat: seq<real>, a: nat, b: nat) {
    a < |lat| && b <= |lat| && forall x :: a < x < b ==> lat[a] <= lat[x]
  }

  /** The entries below a are in order and not greater than any later one. */
  ghost predicate Settled(lat: seq<real>, lo: nat, a: nat, hi: nat) {
    hi <= |lat| && forall x, y :: lo <= x < a && x < y < hi ==> lat[x] <= lat[y]
  }

  /** Only slots lo .. hi change, and every page keeps its latency. */
  ghost predicate SortKeeps(p: seq<int>, l: seq<real>, p': seq<int>, l': seq<real>, base: nat, lo: nat, hi: nat)
    requires |l| == |l'| && |p| == |p'| && lo <= hi <= |l| && base + hi <= |p|
  {
    && l'[..lo] == l[..lo] && l'[hi..] == l[hi..]
    && p'[..base + lo] == p[..base + lo] && p'[base + hi..] == p[base + hi..]
    && Rearranged(p, p')
    && Rearranged(Pairs(p, base, l, lo, hi), Pairs(p', base, l', lo, hi))
  }

  /** SWAP(pages[base + a], pages[base + b]) together with latencies a and b. */
  method SwapPair(pages: array<int>, base: nat, latencies: array<real>, a: nat, b: nat, ghost lo: nat, ghost hi: nat)
    requires lo <= a < hi && lo <= b < hi && hi <= latencies.Length && base + hi <= pages.Length
    modifies pages, latencies
    ensures latencies[..] == Swapped(old(latencies[..]), a, b)
    ensures SortKeeps(old(pages[..]), old(latencies[..]), pages[..], latencies[..], base, lo, hi)
  {
    ghost var before := Pairs(pages[..], base, latencies[..], lo, hi);
    Swap(latencies, a, b);
    Swap(pages, base + a, base + b);
    assert Pairs(pages[..], base, latencies[..], lo, hi) == Swapped(before, a - lo, b - lo);
    SwappedRearranged(before, a - lo, b - lo);
  }

  /** pagesort, on n pages from slot base + lo on and n latencies from lo on. For n = 0 the unsigned
      bound n - 1 wraps around and the loop body is empty. */
  method PageSort(n: nat, pages: array<int>, base: nat, latencies: array<real>, lo: nat)
    requires base + lo + n <= pages.Length && lo + n <= latencies.Length
    modifies pages, latencies
    ensures Increasing(latencies[..], lo, lo + n)
    ensures SortKeeps(old(pages[..]), old(latencies[..]), pages[..], latencies[..], base, lo, lo + n)
  {
    var bound: nat := if n == 0 then 0xFFFF_FFFF else n - 1;
    for i := 0 to bound
      invariant n > 0 ==> Settled(latencies[..], lo, lo + i, lo + n)
      invariant SortKeeps(old(pages[..]), old(latencies[..]), pages[..], latencies[..], base, lo, lo + n)
    {
      if n > 0 { PlaceLeast(n, pages, base, latencies, lo, i); }
    }
  }

  /** The inner loop, empty when n = 0. */
  method PlaceLeast(n: nat, pages: array<int>, base: nat, latencies: array<real>, lo: nat, i: nat)
    requires base + lo + n <= pages.Length && lo + n <= latencies.Length && i + 1 < n
    requires Settled(latencies[..], lo, lo + i, lo + n)
    modifies pages, latencies
    ensures Settled(latencies[..], lo, lo + i + 1, lo + n)
    ensures SortKeeps(old(pages[..]), old(latencies[..]), pages[..], latencies[..], base, lo, lo + n)
  {
    ghost var p, l := pages[..], latencies[..];
    var a, hi := lo + i, lo + n;
    for j := i + 1 to n
      invariant LeastOf(latencies[..], a, lo + j) && Settled(latencies[..], lo, a, hi)
      invariant SortKeeps(p, l, pages[..], latencies[..], base, lo, hi)
    {
      OrderPair(pages, base, latencies, lo, a, lo + j, hi, p, l);
    }
  }

  method OrderPair(pages: array<int>, base: nat, latencies: array<real>, ghost lo: nat, a: nat, b: nat, ghost hi: nat,
                   ghost p: seq<int>, ghost l: seq<real>)
    requires lo <= a < b < hi <= latencies.Length && base + hi <= pages.Length
    requires LeastOf(latencies[..], a, b) && Settled(latencies[..], lo, a, hi)
    requires |p| == pages.Length && |l| == latencies.Length
    requires SortKeeps(p, l, pages[..], latencies[..], base, lo, hi)
    modifies pages, latencies
    ensures LeastOf(latencies[..], a, b + 1) && Settled(latencies[..], lo, a, hi)
    ensures SortKeeps(p, l, pages[..], latencies[..], base, lo, hi)
  {
    if latencies[a] > latencies[b] {
      ghost var p', l' := pages[..], latencies[..];
      SwapPair(pages, base, latencies, a, b, lo, hi);
      SwapKeepsOrder(l', lo, a, b, hi);
      SortKeepsTwice(p, l, p', l', pages[..], latencies[..], base, lo, hi);
    }
  }

  lemma SortKeepsTwice(p: seq<int>, l: seq<real>, p': seq<int>, l': seq<real>, p'': seq<int>, l'': seq<real>,
                       base: nat, lo: nat, hi: nat)
    requires |l| == |l'| == |l''| && |p| == |p'| == |p''| && lo <= hi <= |l| && base + hi <= |p|
    requires SortKeeps(p, l, p', l', base, lo, hi) && SortKeeps(p', l', p'', l'', base, lo, hi)
    ensures SortKeeps(p, l, p'', l'', base, lo, hi)
  {
  }

  lemma SwapKeepsOrder(lat: seq<real>, lo: nat, a: nat, b: nat, hi: nat)
    requires lo <= a < b < hi <= |lat| && lat[a] > lat[b]
    requires Settled(lat, lo, a, hi) && LeastOf(lat, a, b)
    ensures Settled(Swapped(lat, a, b), lo, a, hi) && LeastOf(Swapped(lat, a, b), a, b + 1)
    ensures Swapped(lat, a, b)[..lo] == lat[..lo] && Swapped(lat, a, b)[hi..] == lat[hi..]
  {
  }
}
