/**
 * The growable pointer array of arrayd.h: `struct Arrayd` is a class over a
 * buffer of `void *` slots (`data`), its capacity (`length`) and its element
 * count (`index`). The elements are `data[0..index]`, read out as the
 * sequence `Elements()`, and every operation is proved against it.
 *
 * A slot is seen through `intptr_t`, as the integer macros of arrayd.h see
 * it: a 64-bit two's-complement integer (an LP64 platform), NULL being 0.
 * The asserts of arrayd.h are preconditions; a failed malloc or realloc
 * (which the asserts turn into an abort) is not modelled.
 */
module PointerArray {

  /** A `void *` slot as an `intptr_t`. */
  type Word = x: int | -0x8000_0000_0000_0000 <= x < 0x8000_0000_0000_0000

  const NULL: Word := 0

  /** struct Arrayd. */
  class Arrayd {
    var data: array<Word>
    var length: nat
    var index: nat

    /** `length` is the size of the buffer, which is never empty, and holds the `index` elements. */
    ghost predicate Valid()
      reads this
    {
      0 < length == data.Length && index <= length
    }

    /** The stored elements, in order. */
    function Elements(): seq<Word>
      reads this, data
      requires Valid()
    {
      data[..index]
    }

    /** arrayd_new: an empty array with room for `initialLength` elements. */
    constructor (initialLength: int)
      requires initialLength > 0
      ensures Valid() && fresh(data)
      ensures Elements() == [] && length == initialLength
    {
      data := new Word[initialLength];
      length := initialLength;
      index := 0;
    }

    /**
     * arrayd_append: doubles the buffer when it is full (realloc keeps the
     * slots already there), then stores `d` after the last element.
     */
    method Append(d: Word)
      requires Valid()
      modifies this, data
      ensures Valid()
      ensures Elements() == old(Elements()) + [d]
      ensures length == if old(length) <= old(index) then 2 * old(length) else old(length)
      ensures if old(length) <= old(index) then fresh(data) else data == old(data)
    {
      if length <= index {
        var newLength := length * 2;
        var buffer := data;
        var grown := new Word[newLength](i requires 0 <= i reads buffer => if i < buffer.Length then buffer[i] else NULL);
        length := newLength;
        data := grown;
      }
      data[index] := d;
      index := index + 1;
    }

    /** arrayd_put_at: overwrites slot i and returns 0. */
    method PutAt(i: nat, d: Word) returns (r: int)
      requires Valid() && i < index
      modifies data
      ensures Valid() && r == 0
      ensures Elements() == old(Elements())[i := d]
    {
      data[i] := d;
      r := 0;
    }

    /** arrayd_remove_at: the memmove that shifts the elements after i one slot left, then one fewer element. */
    method RemoveAt(i: nat)
      requires Valid() && i < index
      modifies this, data
      ensures Valid() && data == old(data) && length == old(length)
      ensures Elements() == old(Elements())[..i] + old(Elements())[i + 1..]
    {
      var buffer, last := data, index - 1;
      var k := i;
      while k < last
        modifies buffer
        invariant i <= k <= last
        invariant forall j :: 0 <= j < i ==> buffer[j] == old(buffer[j])
        invariant forall j :: i <= j < k ==> buffer[j] == old(buffer[j + 1])
        invariant forall j :: k <= j < buffer.Length ==> buffer[j] == old(buffer[j])
      {
        buffer[k] := buffer[k + 1];
        k := k + 1;
      }
      index := last;
    }

    /** arrayd_get: the i-th element. */
    method Get(i: nat) returns (d: Word)
      requires Valid() && i < index
      ensures d == Elements()[i]
    {
      d := data[i];
    }

    /** arrayd_count: the number of stored elements. */
    method Count() returns (n: nat)
      requires Valid()
      ensures n == |Elements()|
    {
      n := index;
    }
  }

  // ---------------------------------------------------------------------------
  // The integer-typed macros
  // ---------------------------------------------------------------------------

  /**
   * The C type named by an integer macro. `char` is taken to be signed, as
   * on x86 with GCC or Clang; `long` and `long long` have 64 bits (LP64).
   * The `_int` macros cast only to `intptr_t`, so they never narrow to 32
   * bits.
   */
  datatype IntKind = Char | Short | Int | Long | LongLong

  /** 2^bits for the C type a kind converts through. */
  function Modulus(k: IntKind): (m: nat)
  {
    match k
    case Char => 0x100
    case Short => 0x1_0000
    case _ => 0x1_0000_0000_0000_0000
  }

  predicate InRange(k: IntKind, v: int)
  {
    -(Modulus(k) / 2) <= v < Modulus(k) / 2
  }

  /**
   * Conversion of an integer to the signed type of kind k: the value itself
   * when it fits, otherwise the value congruent to it modulo 2^bits that fits
   * (the wrap-around GCC and Clang define for this implementation-defined
   * conversion).
   */
  function Convert(k: IntKind, v: int): (r: int)
    ensures InRange(k, r)
    ensures (v - r) % Modulus(k) == 0
    ensures InRange(k, v) ==> r == v
  {
    var half := Modulus(k) / 2;
    var r := (v + half) % Modulus(k) - half;
    assert v - r == Modulus(k) * ((v + half) / Modulus(k));
    r
  }

  /** What the append and put_at macros of kind k store for v: `(void *)(intptr_t)(type)v`. */
  function Encode(k: IntKind, v: Word): (w: Word)
    ensures InRange(k, w)
  {
    Convert(k, v)
  }

  /**
   * A value stored through a macro of kind k reads back through the get
   * macro of the same kind, `(type)(intptr_t)slot`, as the value converted
   * to that type, which is the value itself whenever it fits.
   */
  lemma {:induction false} StoredValueReadsBack(k: IntKind, v: Word)
    ensures Convert(k, Encode(k, v)) == Convert(k, v)
    ensures InRange(k, v) ==> Convert(k, Encode(k, v)) == v
  {
  }

  /** arrayd_append_char/short/int/long/long_long. */
  method AppendTyped(a: Arrayd, k: IntKind, v: Word)
    requires a.Valid()
    modifies a, a.data
    ensures a.Valid()
    ensures a.Elements() == old(a.Elements()) + [Encode(k, v)]
    ensures a.length == if old(a.length) <= old(a.index) then 2 * old(a.length) else old(a.length)
    ensures if old(a.length) <= old(a.index) then fresh(a.data) else a.data == old(a.data)
  {
    a.Append(Encode(k, v));
  }

  /** arrayd_put_at_char/short/int/long/long_long. */
  method PutTyped(a: Arrayd, k: IntKind, i: nat, v: Word) returns (r: int)
    requires a.Valid() && i < a.index
    modifies a.data
    ensures a.Valid() && r == 0
    ensures a.Elements() == old(a.Elements())[i := Encode(k, v)]
  {
    r := a.PutAt(i, Encode(k, v));
  }

  /** arrayd_get_char/short/int/long/long_long. */
  method GetTyped(a: Arrayd, k: IntKind, i: nat) returns (v: int)
    requires a.Valid() && i < a.index
    ensures v == Convert(k, a.Elements()[i])
    ensures InRange(k, v)
  {
    var w := a.Get(i);
    v := Convert(k, w);
  }
}
