/** Pointer chains in memory. A cell is named by its byte offset from the base of
    the buffer, and mem[o] is the offset stored in the cell at o. */
module Chains {
  import opened Arith

  /** n dereferences `p = *(char **)p`. */
  ghost function Follow(mem: seq<int>, p: int, n: nat): int
    decreases n
  {
    if n == 0 then p
    else if 0 <= p < |mem| then Follow(mem, mem[p], n - 1)
    else p
  }

  ghost predicate Distinct<T>(s: seq<T>) {
    forall a, b :: 0 <= a < b < |s| ==> s[a] != s[b]
  }

  /** The cells of `order` are different and each one holds the next, the last
      one the first. */
  ghost predicate IsCycle(mem: seq<int>, order: seq<int>) {
    && |order| > 0
    && (forall t :: 0 <= t < |order| ==> 0 <= order[t] < |mem|)
    && (forall t :: 0 <= t < |order| - 1 ==> mem[order[t]] == order[t + 1])
    && mem[order[|order| - 1]] == order[0]
    && Distinct(order)
  }

  lemma {:induction false} FollowFrom(mem: seq<int>, order: seq<int>, t: nat, n: nat)
    requires IsCycle(mem, order) && t < |order|
    ensures Follow(mem, order[t], n) == order[(t + n) % |order|]
    decreases n
  {
    if n == 0 {
      ModStep(t, |order|);
    } else if t + 1 < |order| {
      FollowFrom(mem, order, t + 1, n - 1);
    } else {
      FollowFrom(mem, order, 0, n - 1);
      ModStep(n - 1, |order|);
    }
  }

  /** What a cycle means for the benchmark loop: following pointers from its first
      cell visits the cells in order, each once per lap, and is back at the start
      after exactly |order| steps and not before. */
  lemma CycleLap(mem: seq<int>, order: seq<int>, n: nat)
    requires IsCycle(mem, order)
    ensures Follow(mem, order[0], n) == order[n % |order|]
    ensures Follow(mem, order[0], n) == order[0] <==> n % |order| == 0
  {
    FollowFrom(mem, order, 0, n);
  }

  lemma CycleReaches(mem: seq<int>, order: seq<int>, k: nat)
    requires IsCycle(mem, order) && k < |order|
    ensures Follow(mem, order[0], k) == order[k]
  {
    CycleLap(mem, order, k);
    ModStep(k, |order|);
  }

  lemma CycleStays(mem: seq<int>, order: seq<int>, n: nat)
    requires IsCycle(mem, order)
    ensures Follow(mem, order[0], n) in order
  {
    CycleLap(mem, order, n);
  }
}
