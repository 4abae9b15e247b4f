/**
 * Runs of the pointer array modelled on the uses in test_arrayd.c, each on
 * an array of its own, plus CharNarrowing, a run no test makes. Stored
 * pointers are arbitrary words; the integer macros store and read back the
 * values themselves when they fit the type, and CharNarrowing shows chars
 * that do not.
 */
module PointerArrayScenarios {
  import opened PointerArray

  /**
   * Every value cast to the type of kind k: the words the append macros of
   * kind k store for `values`, and the values the get macros of kind k read
   * from the words `values`.
   */
  function CastAll(k: IntKind, values: seq<Word>): (ws: seq<Word>)
    ensures |ws| == |values| && forall i :: 0 <= i < |values| ==> ws[i] == Encode(k, values[i])
  {
    seq(|values|, i requires 0 <= i < |values| => Encode(k, values[i]))
  }

  /** arrayd_new followed by one arrayd_append per value, in order. */
  method FromSeq(initialLength: int, values: seq<Word>) returns (a: Arrayd)
    requires initialLength > 0
    ensures fresh(a) && fresh(a.data) && a.Valid()
    ensures a.Elements() == values
  {
    a := new Arrayd(initialLength);
    for n := 0 to |values|
      invariant fresh(a) && fresh(a.data) && a.Valid()
      invariant a.Elements() == values[..n]
    {
      a.Append(values[n]);
    }
  }

  /** arrayd_new followed by one typed append macro of kind k per value. */
  method FromSeqTyped(initialLength: int, k: IntKind, values: seq<Word>) returns (a: Arrayd)
    requires initialLength > 0
    ensures fresh(a) && fresh(a.data) && a.Valid()
    ensures a.Elements() == CastAll(k, values)
  {
    a := new Arrayd(initialLength);
    for n := 0 to |values|
      invariant fresh(a) && fresh(a.data) && a.Valid()
      invariant a.Elements() == CastAll(k, values[..n])
    {
      AppendTyped(a, k, values[n]);
    }
  }

  /** The typed get macro of kind k on every index, in order. */
  method ReadAllTyped(a: Arrayd, k: IntKind) returns (values: seq<int>)
    requires a.Valid()
    ensures values == CastAll(k, a.Elements())
  {
    values := [];
    var count := a.Count();
    for n := 0 to count
      invariant values == CastAll(k, a.Elements()[..n])
    {
      var v := GetTyped(a, k, n);
      values := values + [v];
    }
  }

  /**
   * Values appended through the macros of one kind read back through the
   * get macro of that kind converted to that type: unchanged when every
   * one of them fits.
   */
  method TypedRoundTrip(k: IntKind, values: seq<Word>) returns (read: seq<int>)
    ensures |read| == |values| && forall i :: 0 <= i < |values| ==> read[i] == Convert(k, values[i])
    ensures (forall i :: 0 <= i < |values| ==> InRange(k, values[i])) ==> read == values
  {
    var a := FromSeqTyped(10, k, values);
    read := ReadAllTyped(a, k);
    forall i | 0 <= i < |values|
      ensures read[i] == Convert(k, values[i])
    {
      StoredValueReadsBack(k, values[i]);
    }
  }

  /**
   * An array created with room for 2 takes 8 appends, doubling its buffer
   * to 4 and then 8, and keeps every element in order.
   */
  method AppendWithResize() returns (count: nat, capacity: nat, elements: seq<Word>)
    ensures count == 8 && capacity == 8
    ensures elements == [1, 2, 3, 4, 5, 6, 7, 8]
  {
    var a := new Arrayd(2);
    var v := 1;
    while v <= 8
      invariant 1 <= v <= 9 && a.Valid() && fresh(a) && fresh(a.data)
      invariant a.Elements() == seq(v - 1, i requires 0 <= i => i + 1)
      invariant a.length == if v <= 3 then 2 else if v <= 5 then 4 else 8
    {
      a.Append(v);
      v := v + 1;
    }
    count := a.Count();
    capacity := a.length;
    elements := a.Elements();
  }

  /** NULL is an ordinary element: it is stored, counted and read back. */
  method AppendNull() returns (countBefore: nat, countAfter: nat, first: Word)
    ensures countAfter == countBefore + 1 && first == NULL
  {
    var a := new Arrayd(10);
    countBefore := a.Count();
    a.Append(NULL);
    countAfter := a.Count();
    first := a.Get(0);
  }

  /** put_at overwrites one slot, returns 0 and leaves the others alone. */
  method PutAtMiddle(p1: Word, p2: Word, p3: Word, q: Word) returns (r: int, elements: seq<Word>)
    ensures r == 0 && elements == [p1, q, p3]
  {
    var a := new Arrayd(10);
    a.Append(p1);
    a.Append(p2);
    a.Append(p3);
    r := a.PutAt(1, q);
    elements := a.Elements();
  }

  /** Removing the middle element shifts the later ones down. */
  method RemoveMiddle() returns (count: nat, elements: seq<Word>)
    ensures count == 4 && elements == [1, 2, 4, 5]
  {
    var a := FromSeq(10, [1, 2, 3, 4, 5]);
    a.RemoveAt(2);
    count := a.Count();
    elements := a.Elements();
  }

  /** Removing the first element. */
  method RemoveFirst() returns (elements: seq<Word>)
    ensures elements == [2, 3]
  {
    var a := FromSeq(10, [1, 2, 3]);
    a.RemoveAt(0);
    elements := a.Elements();
  }

  /** Removing the last element moves nothing. */
  method RemoveLast() returns (elements: seq<Word>)
    ensures elements == [1, 2]
  {
    var a := FromSeq(10, [1, 2, 3]);
    a.RemoveAt(2);
    elements := a.Elements();
  }

  /** The int macros, including INT_MAX. */
  method IntMacros() returns (values: seq<int>)
    ensures values == [42, -100, 0, 2147483647]
  {
    values := TypedRoundTrip(Int, [42, -100, 0, 2147483647]);
  }

  /** The char macros keep character codes. */
  method CharMacros() returns (values: seq<int>)
    ensures values == ['A' as int, 'Z' as int, '0' as int, '\n' as int]
  {
    values := TypedRoundTrip(Char, ['A' as int, 'Z' as int, '0' as int, '\n' as int]);
  }

  /**
   * A value outside the range of a (signed) char is narrowed before it is
   * stored: 300 reads back as 44 and 200 as -56.
   */
  method CharNarrowing() returns (values: seq<int>)
    ensures values == [44, -56]
  {
    values := TypedRoundTrip(Char, [300, 200]);
    assert Convert(Char, 300) == 44 && Convert(Char, 200) == -56;
  }

  /** The short macros: both ends of the range read back unchanged. */
  method ShortMacros() returns (values: seq<int>)
    ensures values == [100, -200, 32767, -32768]
  {
    values := TypedRoundTrip(Short, [100, -200, 32767, -32768]);
  }

  /** The long macros. */
  method LongMacros() returns (values: seq<int>)
    ensures values == [1000000, -5000000, 0]
  {
    values := TypedRoundTrip(Long, [1000000, -5000000, 0]);
  }

  /** The long long macros at the top of the 64-bit range. */
  method LongLongMacros() returns (values: seq<int>)
    ensures values == [0x7FFF_FFFF_FFFF_FFFF, -0x7FFF_FFFF_FFFF_FFFF, 0]
  {
    values := TypedRoundTrip(LongLong, [0x7FFF_FFFF_FFFF_FFFF, -0x7FFF_FFFF_FFFF_FFFF, 0]);
  }

  /** put_at_int replaces one element; the others read back unchanged. */
  method PutAtIntMacro() returns (values: seq<int>)
    ensures values == [10, 99, 30]
  {
    var a := FromSeqTyped(5, Int, [10, 20, 30]);
    var r := PutTyped(a, Int, 1, 99);
    assert a.Elements() == [10, 99, 30];
    values := ReadAllTyped(a, Int);
  }
}
