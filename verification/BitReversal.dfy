/** Bit reversal over a fixed number of bits: the order in which lmbench visits
    words, lines and processors (words_initialize, reverse_bits). */
module BitReversal {
  import opened Arith

  function Pow2(n: nat): (r: nat)
    ensures r > 0
  {
    if n == 0 then 1 else 2 * Pow2(n - 1)
  }

  /** The number of times n can be halved before it reaches 0, not counting the
      last halving: the value `nbits` of words_initialize. */
  function Log2(n: nat): nat {
    if n <= 1 then 0 else 1 + Log2(n / 2)
  }

  ghost predicate IsPow2(n: nat) {
    n > 0 && n == Pow2(Log2(n))
  }

  predicate Bit(i: nat, j: nat) {
    i / Pow2(j) % 2 == 1
  }

  /** w |= 1 << j */
  function SetBit(w: nat, j: nat): nat {
    if Bit(w, j) then w else w + Pow2(j)
  }

  /** The low `bits` bits of i in opposite order. */
  function Rev(i: nat, bits: nat): (r: nat)
    ensures r < Pow2(bits)
    decreases bits
  {
    if bits == 0 then 0
    else (if i % 2 == 1 then Pow2(bits - 1) else 0) + Rev(i / 2, bits - 1)
  }

  // ----- powers of two

  lemma {:induction false} Log2Bounds(n: nat)
    requires n > 0
    ensures Pow2(Log2(n)) <= n < 2 * Pow2(Log2(n))
  {
    if n > 1 { Log2Bounds(n / 2); }
  }

  lemma {:induction false} Log2Pow2(n: nat)
    ensures Log2(Pow2(n)) == n && IsPow2(Pow2(n))
  {
    if n > 0 { Log2Pow2(n - 1); }
  }

  lemma {:induction false} Pow2Add(a: nat, b: nat)
    ensures Pow2(a + b) == Pow2(a) * Pow2(b)
  {
    if a > 0 { Pow2Add(a - 1, b); }
  }

  // ----- reversal is an involution

  /** A new most significant input bit becomes the least significant output bit. */
  lemma {:induction false} RevTopBit(top: nat, low: nat, bits: nat)
    requires top < 2 && low < Pow2(bits)
    ensures Rev(top * Pow2(bits) + low, bits + 1) == 2 * Rev(low, bits) + top
  {
    if bits > 0 {
      var p := Pow2(bits - 1);
      var i := top * Pow2(bits) + low;
      assert i == if top == 0 then low else 2 * p + low;
      assert i / 2 == top * p + low / 2 && i % 2 == low % 2;
      RevTopBit(top, low / 2, bits - 1);
    }
  }

  lemma {:induction false} RevInvolution(i: nat, bits: nat)
    requires i < Pow2(bits)
    ensures Rev(Rev(i, bits), bits) == i
  {
    if bits > 0 {
      RevTopBit(i % 2, Rev(i / 2, bits - 1), bits - 1);
      RevInvolution(i / 2, bits - 1);
    }
  }

  lemma RevInjective(i: nat, i': nat, bits: nat)
    requires i < Pow2(bits) && i' < Pow2(bits) && Rev(i, bits) == Rev(i', bits)
    ensures i == i'
  {
    RevInvolution(i, bits);
    RevInvolution(i', bits);
  }

  /** The first 2^few numbers, reversed over few + more bits, are the multiples of 2^more. */
  lemma {:induction false} RevPrefix(i: nat, few: nat, more: nat)
    requires i < Pow2(few)
    ensures Rev(i, few + more) == Pow2(more) * Rev(i, few)
  {
    if few == 0 {
      RevZero(more);
    } else {
      RevPrefix(i / 2, few - 1, more);
      Pow2Add(more, few - 1);
      MulSum(Pow2(more), if i % 2 == 1 then Pow2(few - 1) else 0, Rev(i / 2, few - 1));
    }
  }

  lemma {:induction false} RevZero(bits: nat)
    ensures Rev(0, bits) == 0
  {
    if bits > 0 { RevZero(bits - 1); }
  }

  // ----- the bit loop of words_initialize and reverse_bits

  /** The value after the loop has looked at bits 0 .. j-1 of i. */
  ghost function RevSteps(i: nat, bits: nat, j: nat): nat
    requires j <= bits
  {
    if j == 0 then 0
    else RevSteps(i, bits, j - 1) + if Bit(i, j - 1) then Pow2(bits - j) else 0
  }

  lemma {:induction false} RevStepsShift(i: nat, bits: nat, j: nat)
    requires 0 < j <= bits
    ensures RevSteps(i, bits, j) == (if i % 2 == 1 then Pow2(bits - 1) else 0) + RevSteps(i / 2, bits - 1, j - 1)
  {
    if j > 1 {
      RevStepsShift(i, bits, j - 1);
      HalveTwice(i, Pow2(j - 2));
      assert Bit(i, j - 1) == Bit(i / 2, j - 2);
    } else {
      assert RevSteps(i, bits, 0) == 0;
    }
  }

  lemma {:induction false} RevStepsIsRev(i: nat, bits: nat)
    ensures RevSteps(i, bits, bits) == Rev(i, bits)
  {
    if bits > 0 {
      RevStepsShift(i, bits, bits);
      RevStepsIsRev(i / 2, bits - 1);
    }
  }

  /** Before step j only bits above bits - j - 1 have been set, so the or adds. */
  lemma {:induction false} RevStepsMultiple(i: nat, bits: nat, j: nat) returns (q: nat)
    requires j <= bits
    ensures RevSteps(i, bits, j) == q * Pow2(bits - j)
  {
    if j == 0 {
      q := 0;
    } else {
      var q' := RevStepsMultiple(i, bits, j - 1);
      var bit := if Bit(i, j - 1) then 1 else 0;
      q := 2 * q' + bit;
      Distribute(q', bit, Pow2(bits - j));
    }
  }

  lemma RevStepsNextBitClear(i: nat, bits: nat, j: nat)
    requires j < bits
    ensures !Bit(RevSteps(i, bits, j), bits - j - 1)
  {
    var q := RevStepsMultiple(i, bits, j);
    var p := Pow2(bits - j - 1);
    assert q * Pow2(bits - j) == (2 * q) * p + 0;
    Quotient(2 * q, 0, p);
  }

  /** The loop shared by words_initialize and reverse_bits. */
  method ReverseLoop(i: nat, bits: nat) returns (w: nat)
    ensures w == Rev(i, bits)
  {
    w := 0;
    for j := 0 to bits
      invariant w == RevSteps(i, bits, j)
    {
      if Bit(i, j) {
        RevStepsNextBitClear(i, bits, j);
        w := SetBit(w, bits - j - 1);
      }
    }
    RevStepsIsRev(i, bits);
  }

  // ----- the order itself

  /** Contents of the array words_initialize(max, scale) returns. */
  function WordOrder(max: nat, scale: nat): (s: seq<int>)
    ensures |s| == max
  {
    seq(max, (i: nat) => scale * Rev(i, Log2(max)))
  }

  /** For a power of two every multiple of scale below scale * max occurs. */
  lemma WordOrderCovers(max: nat, scale: nat, i: nat)
    requires IsPow2(max) && i < max
    ensures Rev(i, Log2(max)) < max && WordOrder(max, scale)[Rev(i, Log2(max))] == scale * i
  {
    RevInvolution(i, Log2(max));
  }

  /** words_initialize yields different offsets exactly when max is a power of two. */
  lemma WordOrderDistinct(max: nat, scale: nat)
    requires max > 0 && scale > 0
    ensures IsPow2(max) <==>
            forall i, i' :: 0 <= i < i' < max ==> WordOrder(max, scale)[i] != WordOrder(max, scale)[i']
  {
    var s := WordOrder(max, scale);
    var b := Log2(max);
    Log2Bounds(max);
    if IsPow2(max) {
      forall i, i' | 0 <= i < i' < max
        ensures s[i] != s[i']
      {
        if s[i] == s[i'] {
          MulCancel(scale, Rev(i, b), Rev(i', b));
          RevInjective(i, i', b);
        }
      }
    } else {
      RevZero(b);
      RevPastEnd(b);
      assert s[0] == s[Pow2(b)];
    }
  }

  lemma {:induction false} RevPastEnd(bits: nat)
    ensures Rev(Pow2(bits), bits) == 0
  {
    if bits > 0 { RevPastEnd(bits - 1); }
  }

  /** Only the low bits count. */
  lemma {:induction false} RevPeriod(i: nat, bits: nat)
    ensures Rev(i + Pow2(bits), bits) == Rev(i, bits)
  {
    if bits > 0 {
      assert (i + Pow2(bits)) / 2 == i / 2 + Pow2(bits - 1) && (i + Pow2(bits)) % 2 == i % 2;
      RevPeriod(i / 2, bits - 1);
    }
  }

  /** Entries less than a period apart differ. */
  lemma NearApart(max: nat, scale: nat, k: nat, i: nat)
    requires scale > 0 && k < i < max && i < k + Pow2(Log2(max))
    ensures WordOrder(max, scale)[k] != WordOrder(max, scale)[i]
  {
    var b := Log2(max);
    var p := Pow2(b);
    Log2Bounds(max);
    if i >= p { RevPeriod(i - p, b); }
    if k >= p { RevPeriod(k - p, b); }
    var i', k' := if i >= p then i - p else i, if k >= p then k - p else k;
    if Rev(i', b) == Rev(k', b) { RevInjective(i', k', b); }
    if scale * Rev(k, b) == scale * Rev(i, b) { MulCancel(scale, Rev(k, b), Rev(i, b)); }
  }

  lemma OrderRepeats(max: nat, scale: nat, i: nat)
    requires i + Pow2(Log2(max)) < max
    ensures WordOrder(max, scale)[i + Pow2(Log2(max))] == WordOrder(max, scale)[i]
  {
    RevPeriod(i, Log2(max));
  }
}
