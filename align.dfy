/**
 * Address arithmetic used by the arena allocator (arena.h): the bitwise
 * power-of-two test that `arena_alloc` applies to its alignment argument,
 * and `align_up`, the padding that brings an address to a multiple of the
 * alignment. Addresses and sizes are unbounded naturals; the `size_t`
 * width of the C code is not modelled.
 */
module Align {

  /** Bitwise AND of two naturals, one binary digit at a time. */
  function BitAnd(x: nat, y: nat): (r: nat)
    ensures r <= x && r <= y
    decreases x
  {
    if x == 0 || y == 0 then 0
    else 2 * BitAnd(x / 2, y / 2) + (if x % 2 == 1 && y % 2 == 1 then 1 else 0)
  }

  /** n is 2^k for some k >= 0. */
  predicate IsPowerOfTwo(n: nat)
    decreases n
  {
    n == 1 || (n > 1 && n % 2 == 0 && IsPowerOfTwo(n / 2))
  }


  predicate Aligned(address: nat, alignment: nat)
    requires alignment > 0
  {
    address % alignment == 0
  }

  lemma {:induction false} BitAndSelf(m: nat)
    ensures BitAnd(m, m) == m
    decreases m
  {
    if m > 0 {
      BitAndSelf(m / 2);
    }
  }

  /** The bit trick of arena_alloc agrees with the arithmetic notion of a power of two. */
  lemma {:induction false} PowerOfTwoTestCorrect(a: nat)
    requires a > 0
    ensures BitAnd(a, a - 1) == 0 <==> IsPowerOfTwo(a)
    decreases a
  {
    if a == 1 {
    } else if a % 2 == 0 {
      var b := a / 2;
      assert (a - 1) / 2 == b - 1 && (a - 1) % 2 == 1;
      assert BitAnd(a, a - 1) == 2 * BitAnd(b, b - 1);
      PowerOfTwoTestCorrect(b);
    } else {
      var m := a / 2;
      assert (a - 1) / 2 == m && (a - 1) % 2 == 0;
      assert BitAnd(a, a - 1) == 2 * BitAnd(m, m);
      BitAndSelf(m);
    }
  }

  /** The test `alignment & (alignment - 1)` of arena_alloc: zero exactly for powers of two. */
  predicate PassesPowerOfTwoTest(alignment: nat): (b: bool)
    requires alignment > 0
    ensures b <==> IsPowerOfTwo(alignment)
  {
    PowerOfTwoTestCorrect(alignment);
    BitAnd(alignment, alignment - 1) == 0
  }

  lemma {:induction false} MulSign(a: nat, d: int)
    ensures d >= 1 ==> a * d >= a
    ensures d <= -1 ==> a * d <= -(a as int)
    decreases if d < 0 then -d else d
  {
    if d > 1 {
      MulSign(a, d - 1);
      assert a * d == a * (d - 1) + a;
    } else if d < -1 {
      MulSign(a, d + 1);
      assert a * d == a * (d + 1) - a;
    }
  }

  lemma ModOfMultiplePlus(a: nat, k: nat, t: nat)
    requires 0 <= t < a
    ensures (a * k + t) % a == t
  {
    var x := a * k + t;
    var q := x / a;
    assert x == a * q + x % a;
    assert a * (k - q) == a * k - a * q;
    MulSign(a, k - q);
  }

  /** The facts about the padding expression of align_up that AlignUp and AlignUpLeast state. */
  lemma PaddingFacts(ptr: nat, alignment: nat)
    requires alignment > 0
    ensures var padding := (alignment - ptr % alignment) % alignment;
      && 0 <= padding < alignment
      && Aligned(ptr + padding, alignment)
      && (forall x :: ptr <= x < ptr + padding ==> !Aligned(x, alignment))
  {
    var r := ptr % alignment;
    var k := ptr / alignment;
    assert ptr == alignment * k + r;
    if r == 0 {
      assert alignment % alignment == 0;
    } else {
      assert (alignment - r) % alignment == alignment - r;
      assert ptr + (alignment - r) == alignment * (k + 1) + 0;
      ModOfMultiplePlus(alignment, k + 1, 0);
      forall x | ptr <= x < ptr + (alignment - r)
        ensures !Aligned(x, alignment)
      {
        ModOfMultiplePlus(alignment, k, x - alignment * k);
      }
    }
  }

  /**
   * align_up: the padding that makes `ptr + padding` a multiple of
   * `alignment`. It is zero when `ptr` is already aligned and always smaller
   * than `alignment`; AlignUpLeast shows it is the least such padding.
   */
  function AlignUp(ptr: nat, alignment: nat): (padding: nat)
    requires alignment > 0
    ensures padding < alignment
    ensures Aligned(ptr + padding, alignment)
    ensures Aligned(ptr, alignment) ==> padding == 0
  {
    PaddingFacts(ptr, alignment);
    (alignment - ptr % alignment) % alignment
  }

  /** No address between `ptr` and `ptr + AlignUp(ptr, alignment)` is aligned. */
  lemma AlignUpLeast(ptr: nat, alignment: nat)
    requires alignment > 0
    ensures forall x :: ptr <= x < ptr + AlignUp(ptr, alignment) ==> !Aligned(x, alignment)
  {
    PaddingFacts(ptr, alignment);
  }
}
