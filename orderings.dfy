/** Three-way comparison results, the orderings of identifiers and of `usize`
    tags, and what it means for a comparison function to be a total order. */
module Orderings {

  datatype Ordering = Less | Equal | Greater {

    /** `Ordering::reverse`: the result of comparing the operands the other way round. */
    function Reverse(): Ordering {
      match this
      case Less => Greater
      case Equal => Equal
      case Greater => Less
    }

    /** `Ordering::then_with`: a decided result stands, a tie defers to `next`. */
    function ThenWith(next: Ordering): Ordering {
      if this == Equal then next else this
    }
  }

  /** The laws of a total order, stated on a three-way comparison: every value
      equals itself, swapping the operands reverses the result, and both `Less`
      and `Equal` chain. */
  ghost predicate IsTotalOrder<T(!new)>(cmp: (T, T) -> Ordering) {
    && (forall a :: cmp(a, a) == Equal)
    && (forall a, b :: cmp(b, a) == cmp(a, b).Reverse())
    && (forall a, b, c :: cmp(a, b) == Less && cmp(b, c) == Less ==> cmp(a, c) == Less)
    && (forall a, b, c :: cmp(a, b) == Equal && cmp(b, c) == Equal ==> cmp(a, c) == Equal)
  }

  /** Ordering of `usize` values. */
  function CompareNat(a: nat, b: nat): (o: Ordering)
    ensures o == Less <==> a < b
    ensures o == Equal <==> a == b
    ensures o == Greater <==> a > b
  {
    if a < b then Less else if a == b then Equal else Greater
  }

  /** Ordering of identifiers: lexicographic on their characters (for `str`,
      byte-wise order of the UTF-8 encoding, which agrees with code-point order). */
  function CompareStr(a: string, b: string): Ordering
  {
    if a == [] then (if b == [] then Equal else Less)
    else if b == [] then Greater
    else if a[0] < b[0] then Less
    else if a[0] > b[0] then Greater
    else CompareStr(a[1..], b[1..])
  }

  lemma {:induction false} CompareStrEqual(a: string, b: string)
    ensures CompareStr(a, b) == Equal <==> a == b
  {
    if a != [] && b != [] && a[0] == b[0] {
      CompareStrEqual(a[1..], b[1..]);
      assert a == [a[0]] + a[1..] && b == [b[0]] + b[1..];
    }
  }

  lemma {:induction false} CompareStrReverse(a: string, b: string)
    ensures CompareStr(b, a) == CompareStr(a, b).Reverse()
  {
    if a != [] && b != [] && a[0] == b[0] {
      CompareStrReverse(a[1..], b[1..]);
    }
  }

  lemma {:induction false} CompareStrLessTransitive(a: string, b: string, c: string)
    requires CompareStr(a, b) == Less && CompareStr(b, c) == Less
    ensures CompareStr(a, c) == Less
  {
    if a != [] && b != [] && c != [] && a[0] == b[0] == c[0] {
      CompareStrLessTransitive(a[1..], b[1..], c[1..]);
    }
  }

  /** Identifier ordering is a total order. */
  lemma CompareStrIsTotalOrder()
    ensures IsTotalOrder(CompareStr)
  {
    forall a: string ensures CompareStr(a, a) == Equal {
      CompareStrEqual(a, a);
    }
    forall a: string, b: string ensures CompareStr(b, a) == CompareStr(a, b).Reverse() {
      CompareStrReverse(a, b);
    }
    forall a: string, b: string, c: string | CompareStr(a, b) == Less && CompareStr(b, c) == Less
      ensures CompareStr(a, c) == Less
    {
      CompareStrLessTransitive(a, b, c);
    }
    forall a: string, b: string, c: string | CompareStr(a, b) == Equal && CompareStr(b, c) == Equal
      ensures CompareStr(a, c) == Equal
    {
      CompareStrEqual(a, b);
      CompareStrEqual(b, c);
      CompareStrEqual(a, c);
    }
  }
}
