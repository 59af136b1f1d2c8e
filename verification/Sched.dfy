/** Processor placement of lib_sched.c: which processor each benchmark process is pinned to. */
module Scheduling {
  import opened Arith
  import opened BitReversal

  // ----- reverse_bits

  /** The width that reverse_bits computes for n processors. */
  function Width(n: nat): nat
    requires n > 0
  {
    1 + Log2(n - 1)
  }

  /** reverse_bits, for n processors. */
  method ReverseBits(cpu: nat, n: nat) returns (reversed: nat)
    requires n > 0
    ensures reversed == Rev(cpu, Width(n))
  {
    var i, nbits := (n - 1) / 2, 1;
    while i > 0
      invariant i >= 0 && nbits > 0
      invariant i > 0 ==> nbits + Log2(i) + 1 == Width(n)
      invariant i == 0 ==> nbits == Width(n)
    {
      i, nbits := i / 2, nbits + 1;
    }
    reversed := ReverseLoop(cpu, nbits);
  }

  lemma {:induction false} Pow2Strict(a: nat, b: nat)
    requires a < b
    ensures 2 * Pow2(a) <= Pow2(b)
    decreases b
  {
    if a < b - 1 { Pow2Strict(a, b - 1); }
  }

  /** n processors need Width(n) bits and no fewer. */
  lemma WidthBounds(n: nat)
    requires n > 1
    ensures Pow2(Width(n) - 1) < n <= Pow2(Width(n))
  {
    Log2Bounds(n - 1);
  }

  lemma PowerIsTop(n: nat)
    requires n > 1
    ensures IsPow2(n) <==> n == Pow2(Width(n))
    ensures IsPow2(n + 1) <==> n + 1 == Pow2(Width(n))
  {
    var b := Width(n);
    WidthBounds(n);
    Log2Pow2(b);
    if IsPow2(n) { TopPower(n, b); }
    NextOfPower(b);
    if IsPow2(n + 1) { TopPower(n + 1, b); }
  }

  lemma NextOfPower(b: nat)
    requires b > 0
    ensures !IsPow2(Pow2(b) + 1)
  {
    var k := Log2(Pow2(b) + 1);
    assert Pow2(b) == 2 * Pow2(b - 1);
    if k > 0 { assert Pow2(k) == 2 * Pow2(k - 1); }
  }

  lemma TopPower(n: nat, b: nat)
    requires b > 0 && Pow2(b - 1) < n <= Pow2(b) && IsPow2(n)
    ensures n == Pow2(b)
  {
    var k := Log2(n);
    if k < b - 1 { Pow2Strict(k, b - 1); }
    if k > b { Pow2Strict(b, k); }
  }

  lemma {:induction false} RevAllOnes(bits: nat)
    ensures Rev(Pow2(bits) - 1, bits) == Pow2(bits) - 1
  {
    if bits > 0 {
      assert (Pow2(bits) - 1) / 2 == Pow2(bits - 1) - 1 && (Pow2(bits) - 1) % 2 == 1;
      RevAllOnes(bits - 1);
    }
  }

  ghost predicate SpreadsApart(n: nat)
    requires n > 0
  {
    forall i, i' :: 0 <= i < i' < n ==> Rev(i, Width(n)) % n != Rev(i', Width(n)) % n
  }

  /** Reversing the bits places n consecutive processes on n different processors exactly if n is a
      power of two or one less. */
  lemma SpreadExact(n: nat)
    requires n > 0
    ensures SpreadsApart(n) <==> IsPow2(n) || IsPow2(n + 1)
  {
    if n > 1 {
      var b := Width(n);
      WidthBounds(n);
      PowerIsTop(n);
      if n == Pow2(b) || n + 1 == Pow2(b) {
        SpreadFull(n, b);
      } else if n % 2 == 0 {
        RevEven(n, b);
        RevInvolution(n, b);
        RevZero(b);
        Clash(n, b, 0, Rev(n, b));
      } else {
        RevEven(n + 1, b);
        RevInvolution(n + 1, b);
        RevZero(b - 1);
        RevInvolution(1, b);
        Clash(n, b, Rev(1, b), Rev(n + 1, b));
      }
    }
  }

  lemma RevEven(v: nat, b: nat)
    requires b > 0 && v % 2 == 0
    ensures Rev(v, b) < Pow2(b - 1)
  {
  }

  lemma Clash(n: nat, b: nat, i: nat, i': nat)
    requires n > 0 && b == Width(n) && i < n && i' < n && i != i'
    requires Rev(i', b) == Rev(i, b) + n && Rev(i, b) < n
    ensures !SpreadsApart(n)
  {
    Quotient(1, Rev(i, b), n);
    Quotient(0, Rev(i, b), n);
    assert Rev(i, b) % n == Rev(i', b) % n;
  }

  lemma SpreadFull(n: nat, b: nat)
    requires n > 1 && b == Width(n) && (n == Pow2(b) || n + 1 == Pow2(b))
    ensures SpreadsApart(n)
    ensures forall i :: 0 <= i < n ==> Rev(i, b) < n
  {
    RevAllOnes(b);
    forall i | 0 <= i < n
      ensures Rev(i, b) < n && Rev(i, b) % n == Rev(i, b)
    {
      RevInvolution(i, b);
      if Rev(i, b) < n { Quotient(0, Rev(i, b), n); }
    }
    forall i, i' | 0 <= i < i' < n
      ensures Rev(i, b) % n != Rev(i', b) % n
    {
      if Rev(i, b) == Rev(i', b) { RevInjective(i, i', b); }
    }
  }

  // ----- handle_scheduler

  /** The values of LMBENCH_SCHED; the lists are the numbers that follow CUSTOM. */
  datatype Policy =
    | Default
    | Single
    | Balanced
    | BalancedSpread
    | Unique
    | UniqueSpread
    | Custom(values: seq<nat>)
    | CustomSpread(values: seq<nat>)

  /** The processor a custom list gives, starting over at its end. */
  function CustomCpu(values: seq<nat>, cpu: nat): nat {
    if values == [] then 0 else values[cpu % |values|]
  }

  /** The running number of process `benchproc` of child `childno`, which has nbenchprocs more. */
  function Index(childno: nat, benchproc: nat, nbenchprocs: nat): nat {
    childno * (nbenchprocs + 1) + benchproc
  }

  /** cpu % sched_ncpus(), the processor asked for, with n processors. */
  function Cpu(policy: Policy, childno: nat, benchproc: nat, nbenchprocs: nat, n: nat): nat
    requires n > 0 && !policy.Default?
  {
    var cpu := match policy
      case Single => 0
      case Balanced => childno
      case BalancedSpread => Rev(childno, Width(n))
      case Unique => Index(childno, benchproc, nbenchprocs)
      case UniqueSpread => Rev(Index(childno, benchproc, nbenchprocs), Width(n))
      case Custom(values) => CustomCpu(values, childno)
      case CustomSpread(values) => CustomCpu(values, Index(childno, benchproc, nbenchprocs));
    cpu % n
  }

  // ----- sched_pin

  /** 8 * sizeof(unsigned long) */
  const WORD: nat := 32

  /** Processor i is in the affinity mask. */
  predicate Allowed(words: seq<nat>, i: nat) {
    i < WORD * |words| && Bit(words[i / WORD], i % WORD)
  }

  /** Processors below i in the mask. */
  function Count(words: seq<nat>, i: nat): nat {
    if i == 0 then 0 else Count(words, i - 1) + if Allowed(words, i - 1) then 1 else 0
  }

  /** The mask with processor `at` only. */
  function OneBit(n: nat, at: nat): seq<nat> {
    seq(n, (w: nat) => if w == at / WORD then Pow2(at % WORD) else 0)
  }

  /** `at` is the allowed processor that stands at position `rank` among the allowed ones. */
  ghost predicate Chosen(words: seq<nat>, rank: nat, at: nat) {
    Allowed(words, at) && Count(words, at) == rank
  }

  lemma ChosenApart(words: seq<nat>, rank: nat, at: nat, rank': nat, at': nat)
    requires Chosen(words, rank, at) && Chosen(words, rank', at') && rank != rank'
    ensures at != at' && OneBit(|words|, at) != OneBit(|words|, at')
  {
    OneBitApart(|words|, at, at');
  }

  lemma OneBitApart(n: nat, at: nat, at': nat)
    requires at != at' && at < WORD * n && at' < WORD * n
    ensures OneBit(n, at) != OneBit(n, at')
  {
    var w := at / WORD;
    assert OneBit(n, at)[w] == Pow2(at % WORD) > 0;
    if w == at' / WORD {
      var r, r' := at % WORD, at' % WORD;
      if r < r' { Pow2Strict(r, r'); } else { Pow2Strict(r', r); }
      assert OneBit(n, at')[w] == Pow2(at' % WORD);
    } else {
      assert OneBit(n, at')[w] == 0;
    }
  }

  lemma SetInZero(j: nat)
    ensures SetBit(0, j) == Pow2(j)
  {
    Quotient(0, 0, Pow2(j));
  }

  /** The static variables of sched_pin, and the number of processors sched_ncpus() reports. */
  class Scheduler {
    const online: nat
    const cpumask: array<nat>
    const mask: array<nat>
    var ncpus: nat

    ghost predicate Valid()
      reads this, cpumask
    {
      && online > 0 && mask != cpumask && mask.Length == cpumask.Length
      && ncpus == Count(cpumask[..], WORD * cpumask.Length) > 0
    }

    /** The first call: the processors in the mask are counted. A process is always allowed some. */
    constructor (online: nat, cpumask: array<nat>)
      requires online > 0 && Count(cpumask[..], WORD * cpumask.Length) > 0
      ensures Valid() && fresh(mask) && this.online == online && this.cpumask == cpumask
    {
      this.online, this.cpumask := online, cpumask;
      mask := new nat[cpumask.Length];
      var count := 0;
      for i := 0 to WORD * cpumask.Length
        invariant count == Count(cpumask[..], i)
      {
        if Bit(cpumask[i / WORD], i % WORD) { count := count + 1; }
      }
      ncpus := count;
    }

    /** sched_pin: the mask handed to sched_setaffinity has exactly one bit, the one of
        the allowed processor number cpu % ncpus. */
    method Pin(cpu: nat) returns (ghost at: nat)
      requires Valid()
      modifies mask
      ensures Valid() && Chosen(cpumask[..], cpu % ncpus, at) && mask[..] == OneBit(mask.Length, at)
    {
      var rank := cpu % ncpus;
      for w := 0 to mask.Length
        invariant forall k :: 0 <= k < w ==> mask[k] == 0
        invariant cpumask[..] == old(cpumask[..])
      {
        mask[w] := 0;
      }
      var i, j := 0, 0;
      while i < WORD * cpumask.Length
        invariant i <= WORD * cpumask.Length && j == Count(cpumask[..], i) <= rank
        invariant cpumask[..] == old(cpumask[..]) && forall k :: 0 <= k < mask.Length ==> mask[k] == 0
      {
        if Bit(cpumask[i / WORD], i % WORD) {
          if j >= rank {
            SetInZero(i % WORD);
            mask[i / WORD] := SetBit(mask[i / WORD], i % WORD);
            at := i;
            return;
          }
          j := j + 1;
        }
        i := i + 1;
      }
      assert false;
    }

    /** handle_scheduler: pins the process as its policy asks, or does nothing. */
    method Handle(policy: Policy, childno: nat, benchproc: nat, nbenchprocs: nat) returns (ghost at: nat)
      requires Valid()
      modifies mask
      ensures Valid()
      ensures if policy.Default? then mask[..] == old(mask[..])
              else Chosen(cpumask[..], Cpu(policy, childno, benchproc, nbenchprocs, online) % ncpus, at)
                   && mask[..] == OneBit(mask.Length, at)
    {
      var cpu := 0;
      match policy {
        case Default => at := 0; return;
        case Single => cpu := 0;
        case Balanced => cpu := childno;
        case BalancedSpread => cpu := ReverseBits(childno, online);
        case Unique => cpu := Index(childno, benchproc, nbenchprocs);
        case UniqueSpread => cpu := ReverseBits(Index(childno, benchproc, nbenchprocs), online);
        case Custom(values) => cpu := CustomCpu(values, childno);
        case CustomSpread(values) => cpu := CustomCpu(values, Index(childno, benchproc, nbenchprocs));
      }
      at := Pin(cpu % online);
    }
  }

  // ----- no two processes on one processor

  /** With the UNIQUE policies, on n processors that are all allowed, two processes whose running
      numbers are below n are pinned by different masks: always for UNIQUE, for UNIQUE_SPREAD when n
      is a power of two or one less. */
  lemma UniqueApart(policy: Policy, n: nat, words: seq<nat>, nbenchprocs: nat,
                    childno: nat, benchproc: nat, at: nat, childno': nat, benchproc': nat, at': nat)
    requires policy.Unique? || (policy.UniqueSpread? && (IsPow2(n) || IsPow2(n + 1)))
    requires n > 0 && n <= Count(words, WORD * |words|)
    requires benchproc <= nbenchprocs && benchproc' <= nbenchprocs
    requires Index(childno, benchproc, nbenchprocs) < n && Index(childno', benchproc', nbenchprocs) < n
    requires (childno, benchproc) != (childno', benchproc')
    requires var ncpus := Count(words, WORD * |words|);
             && Chosen(words, Cpu(policy, childno, benchproc, nbenchprocs, n) % ncpus, at)
             && Chosen(words, Cpu(policy, childno', benchproc', nbenchprocs, n) % ncpus, at')
    ensures OneBit(|words|, at) != OneBit(|words|, at')
  {
    var i, i' := Index(childno, benchproc, nbenchprocs), Index(childno', benchproc', nbenchprocs);
    if i == i' { SameDigits(childno, benchproc, childno', benchproc', nbenchprocs + 1); }
    SpreadExact(n);
    var cpu, cpu' := Cpu(policy, childno, benchproc, nbenchprocs, n), Cpu(policy, childno', benchproc', nbenchprocs, n);
    Quotient(0, i, n);
    Quotient(0, i', n);
    assert cpu != cpu';
    var ncpus := Count(words, WORD * |words|);
    Quotient(0, cpu, ncpus);
    Quotient(0, cpu', ncpus);
    ChosenApart(words, cpu, at, cpu', at');
  }

  /** ... and not otherwise: with any other number of processors UNIQUE_SPREAD puts some two of the
      first n processes on the same one. */
  lemma UniqueSpreadClash(n: nat) returns (childno: nat, childno': nat)
    requires n > 0 && !IsPow2(n) && !IsPow2(n + 1)
    ensures childno < childno' < n && Cpu(UniqueSpread, childno, 0, 0, n) == Cpu(UniqueSpread, childno', 0, 0, n)
  {
    SpreadExact(n);
    childno, childno' := SpreadClash(n);
    assert Index(childno, 0, 0) == childno && Index(childno', 0, 0) == childno';
  }

  lemma SpreadClash(n: nat) returns (i: nat, i': nat)
    requires n > 0 && !SpreadsApart(n)
    ensures i < i' < n && Rev(i, Width(n)) % n == Rev(i', Width(n)) % n
  {
    i, i' :| 0 <= i < i' < n && Rev(i, Width(n)) % n == Rev(i', Width(n)) % n;
  }
}
