/** Comparators in Java's sense: a function `cmp(a, b)` whose sign says
    whether `a` comes before (negative), together with (zero) or after
    (positive) `b`, and the two comparators a merge run is built from,
    `Comparator.naturalOrder()` and `Comparator.reverseOrder()`. */
module Comparators {

  function Sign(x: int): int {
    if x < 0 then -1 else if x == 0 then 0 else 1
  }

  /** The contract of `Comparable.compareTo`: the sign is antisymmetric and
      "comes no later than" (`cmp(a, b) <= 0`) is transitive. Together they
      make `cmp(a, b) <= 0` a total preorder, which is what a priority queue
      needs of its key. */
  ghost predicate IsTotalPreorder<E(!new)>(cmp: (E, E) -> int) {
    && (forall a, b :: Sign(cmp(b, a)) == -Sign(cmp(a, b)))
    && (forall a, b, c :: cmp(a, b) <= 0 && cmp(b, c) <= 0 ==> cmp(a, c) <= 0)
  }

  /** `Collections.reverseOrder()`: compares its arguments the other way round. */
  function ReverseOrder<E>(compareTo: (E, E) -> int): (E, E) -> int {
    (a: E, b: E) => compareTo(b, a)
  }

  /** The comparator a run uses: the natural order for an ascending run,
      its reverse for a descending one. */
  function RunComparator<E>(compareTo: (E, E) -> int, ascending: bool): (E, E) -> int {
    if ascending then compareTo else ReverseOrder(compareTo)
  }

  /** Reversing a comparator gives exactly the inverse order: the sign of
      every comparison flips, and the result is again a total preorder. */
  lemma ReverseOrderInverts<E(!new)>(compareTo: (E, E) -> int)
    requires IsTotalPreorder(compareTo)
    ensures forall a, b :: Sign(ReverseOrder(compareTo)(a, b)) == -Sign(compareTo(a, b))
    ensures IsTotalPreorder(ReverseOrder(compareTo))
  {
    var r := ReverseOrder(compareTo);
    forall a, b, c | r(a, b) <= 0 && r(b, c) <= 0
      ensures r(a, c) <= 0
    {
      assert compareTo(c, b) <= 0 && compareTo(b, a) <= 0;
    }
  }

  /** Both comparators a run can use are total preorders. */
  lemma RunComparatorIsTotalPreorder<E(!new)>(compareTo: (E, E) -> int, ascending: bool)
    requires IsTotalPreorder(compareTo)
    ensures IsTotalPreorder(RunComparator(compareTo, ascending))
  {
    if !ascending {
      ReverseOrderInverts(compareTo);
    }
  }
}
