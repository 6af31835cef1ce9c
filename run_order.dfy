/** The comparators a run uses (`Comparator.naturalOrder()` for `-a`,
    `Comparator.reverseOrder()` for `-d`) and what it means, in plain
    terms, for a sequence of values to follow them. */
module RunOrder {
  import opened Comparators
  import opened Int32Text
  import opened MergeSpec
  import IntegerFileLine
  import StringFileLine

  // ---------------------------------------------------------------------
  // Integers

  /** The comparator of an integer run. */
  function IntegerOrder(ascending: bool): Comparator<int32> {
    RunComparator(IntegerFileLine.CompareTo, ascending)
  }

  /** Values in the run's direction: non-decreasing for an ascending run,
      non-increasing for a descending one. */
  predicate InRunOrder(ascending: bool, vs: seq<int32>) {
    forall i :: 0 < i < |vs| ==> if ascending then vs[i - 1] <= vs[i] else vs[i - 1] >= vs[i]
  }

  lemma IntegerOrderIsTotalPreorder(ascending: bool)
    ensures IsTotalPreorder(IntegerOrder(ascending))
  {
    IntegerFileLine.CompareToIsTotalPreorder();
    RunComparatorIsTotalPreorder(IntegerFileLine.CompareTo, ascending);
  }

  /** One comparison of the run comparator, in terms of the values. */
  lemma IntegerOrderAt(ascending: bool, a: IntegerFileLine.IntegerFileLine, b: IntegerFileLine.IntegerFileLine)
    ensures IntegerOrder(ascending)(a, b) >= 0 <==> if ascending then b.value <= a.value else b.value >= a.value
  {
    if ascending {
      assert IntegerOrder(ascending)(a, b) == IntegerFileLine.CompareTo(a, b);
    } else {
      assert IntegerOrder(ascending)(a, b) == IntegerFileLine.CompareTo(b, a);
    }
  }

  /** Following the run comparator is following the run's direction on the
      values, in both directions of the implication. */
  lemma IntegerMonotone(ascending: bool, s: seq<IntegerFileLine.IntegerFileLine>)
    ensures Monotone(IntegerOrder(ascending), s) <==> InRunOrder(ascending, Values(s))
  {
    var cmp, vs := IntegerOrder(ascending), Values(s);
    forall i | 0 < i < |s|
      ensures cmp(s[i], s[i - 1]) >= 0 <==> if ascending then vs[i - 1] <= vs[i] else vs[i - 1] >= vs[i]
    {
      ValuesAt(s, i);
      ValuesAt(s, i - 1);
      IntegerOrderAt(ascending, s[i], s[i - 1]);
    }
  }

  // ---------------------------------------------------------------------
  // Strings

  function StringOrder(ascending: bool): Comparator<string> {
    RunComparator(StringFileLine.CompareTo, ascending)
  }

  /** Texts in the run's direction under the lexicographic order. */
  ghost predicate StringsInRunOrder(ascending: bool, vs: seq<string>) {
    forall i :: 0 < i < |vs| ==>
      if ascending then StringFileLine.LexLeq(vs[i - 1], vs[i]) else StringFileLine.LexLeq(vs[i], vs[i - 1])
  }

  lemma StringOrderIsTotalPreorder(ascending: bool)
    ensures IsTotalPreorder(StringOrder(ascending))
  {
    StringFileLine.CompareToIsTotalPreorder();
    RunComparatorIsTotalPreorder(StringFileLine.CompareTo, ascending);
  }

  lemma StringOrderAt(ascending: bool, a: StringFileLine.StringFileLine, b: StringFileLine.StringFileLine)
    ensures StringOrder(ascending)(a, b) >= 0 <==>
            if ascending then StringFileLine.LexLeq(b.value, a.value) else StringFileLine.LexLeq(a.value, b.value)
  {
    StringFileLine.CompareStringsAntisymmetric(a.value, b.value);
    StringFileLine.CompareIsLexicographic(a.value, b.value);
    StringFileLine.CompareIsLexicographic(b.value, a.value);
    if ascending {
      assert StringOrder(ascending)(a, b) == StringFileLine.CompareTo(a, b);
    } else {
      assert StringOrder(ascending)(a, b) == StringFileLine.CompareTo(b, a);
    }
  }

  lemma StringMonotone(ascending: bool, s: seq<StringFileLine.StringFileLine>)
    ensures Monotone(StringOrder(ascending), s) <==> StringsInRunOrder(ascending, Values(s))
  {
    var cmp, vs := StringOrder(ascending), Values(s);
    forall i | 0 < i < |s|
      ensures cmp(s[i], s[i - 1]) >= 0 <==>
              if ascending then StringFileLine.LexLeq(vs[i - 1], vs[i]) else StringFileLine.LexLeq(vs[i], vs[i - 1])
    {
      ValuesAt(s, i);
      ValuesAt(s, i - 1);
      StringOrderAt(ascending, s[i], s[i - 1]);
    }
  }
}
