/** `StringFileLine`: one line of input stream `fileNumber`, ordered by
    `String.compareTo` on the text alone. */
module StringFileLine {
  import opened FileLines
  import opened Comparators

  type StringFileLine = FileLine<string>

  /** `new StringFileLine(arrayNumber, value)`. */
  function New(arrayNumber: nat, value: string): (line: StringFileLine)
    ensures line.fileNumber == arrayNumber
  {
    FileLine(arrayNumber, value)
  }

  /** `getValue()`. */
  function GetValue(line: StringFileLine): string {
    line.value
  }

  /** `String.compareTo`: at the first position where the strings differ,
      the difference of the two characters; if one string is a prefix of
      the other, the difference of the lengths. */
  function CompareStrings(a: string, b: string): int {
    if |a| == 0 || |b| == 0 then |a| - |b|
    else if a[0] != b[0] then a[0] as int - b[0] as int
    else CompareStrings(a[1..], b[1..])
  }

  /** `compareTo(o)`: `value.compareTo(o.value)`. */
  function CompareTo(line: StringFileLine, o: StringFileLine): int {
    CompareStrings(line.value, o.value)
  }

  /** The getter returns exactly what the constructor was given. */
  lemma GetValueOfNew(arrayNumber: nat, value: string)
    ensures GetValue(New(arrayNumber, value)) == value
  {
  }

  /** At the first differing position the string with the smaller
      character is less: the result is the difference of the characters. */
  lemma {:induction false} CompareAtFirstDifference(a: string, b: string, k: nat)
    requires k < |a| && k < |b| && a[..k] == b[..k] && a[k] != b[k]
    ensures CompareStrings(a, b) == a[k] as int - b[k] as int
  {
    if k > 0 {
      assert a[0] == a[..k][0] && b[0] == b[..k][0];
      assert a[1..][..k - 1] == a[..k][1..] && b[1..][..k - 1] == b[..k][1..];
      CompareAtFirstDifference(a[1..], b[1..], k - 1);
    }
  }

  /** A prefix compares below a longer string by the difference in length. */
  lemma {:induction false} ComparePrefix(a: string, b: string)
    requires |a| <= |b| && a == b[..|a|]
    ensures CompareStrings(a, b) == |a| - |b|
    ensures CompareStrings(b, a) == |b| - |a|
  {
    if |a| > 0 {
      assert a[0] == b[0];
      assert a[1..] == b[1..][..|a| - 1];
      ComparePrefix(a[1..], b[1..]);
    }
  }

  /** Only equal strings compare 0. */
  lemma {:induction false} CompareZeroIffEqual(a: string, b: string)
    ensures CompareStrings(a, b) == 0 <==> a == b
  {
    if |a| > 0 && |b| > 0 && a[0] == b[0] {
      CompareZeroIffEqual(a[1..], b[1..]);
      assert a == [a[0]] + a[1..] && b == [b[0]] + b[1..];
    }
  }

  /** Swapping the arguments negates the result exactly. */
  lemma {:induction false} CompareStringsAntisymmetric(a: string, b: string)
    ensures CompareStrings(b, a) == -CompareStrings(a, b)
  {
    if |a| > 0 && |b| > 0 && a[0] == b[0] {
      CompareStringsAntisymmetric(a[1..], b[1..]);
    }
  }

  /** "Comes no later than" is transitive. */
  lemma {:induction false} CompareStringsTransitive(a: string, b: string, c: string)
    requires CompareStrings(a, b) <= 0 && CompareStrings(b, c) <= 0
    ensures CompareStrings(a, c) <= 0
  {
    if |a| > 0 && |b| > 0 && |c| > 0 && a[0] == b[0] && b[0] == c[0] {
      CompareStringsTransitive(a[1..], b[1..], c[1..]);
    }
  }

  /** Lexicographic "comes no later than", defined directly: `a` is a
      prefix of `b`, or at the first position where they differ `a` has the
      smaller character. */
  ghost predicate LexLeq(a: string, b: string) {
    || (|a| <= |b| && a == b[..|a|])
    || exists k :: 0 <= k < |a| && k < |b| && a[..k] == b[..k] && a[k] < b[k]
  }

  /** With equal first characters, the order is decided by the tails. */
  lemma LexLeqTail(a: string, b: string)
    requires |a| > 0 && |b| > 0 && a[0] == b[0]
    ensures LexLeq(a, b) <==> LexLeq(a[1..], b[1..])
  {
    var a', b' := a[1..], b[1..];
    if |a| <= |b| && a == b[..|a|] {
      assert a' == b'[..|a'|];
    }
    if |a'| <= |b'| && a' == b'[..|a'|] {
      assert a == [a[0]] + a' && b[..|a|] == [b[0]] + b'[..|a'|];
    }
    if k :| 0 <= k < |a| && k < |b| && a[..k] == b[..k] && a[k] < b[k] {
      assert k > 0;
      assert a'[..k - 1] == a[..k][1..] && b'[..k - 1] == b[..k][1..];
      assert a'[k - 1] == a[k] && b'[k - 1] == b[k];
    }
    if k :| 0 <= k < |a'| && k < |b'| && a'[..k] == b'[..k] && a'[k] < b'[k] {
      assert a[..k + 1] == [a[0]] + a'[..k] && b[..k + 1] == [b[0]] + b'[..k];
      assert a[k + 1] == a'[k] && b[k + 1] == b'[k];
    }
  }

  /** `String.compareTo` is the lexicographic order: `compareTo(a, b) <= 0`
      exactly when `a` comes no later than `b`. */
  lemma {:induction false} CompareIsLexicographic(a: string, b: string)
    ensures CompareStrings(a, b) <= 0 <==> LexLeq(a, b)
  {
    if |a| == 0 {
      assert a == b[..0];
    } else if |b| == 0 {
    } else if a[0] != b[0] {
      if a[0] < b[0] {
        assert a[..0] == b[..0];
      }
    } else {
      CompareIsLexicographic(a[1..], b[1..]);
      LexLeqTail(a, b);
    }
  }

  /** `compareTo` looks at the texts only. */
  lemma CompareToIgnoresFileNumber(a: StringFileLine, b: StringFileLine, a': StringFileLine, b': StringFileLine)
    requires a.value == a'.value && b.value == b'.value
    ensures CompareTo(a, b) == CompareTo(a', b')
  {
  }

  /** `compareTo` is antisymmetric in sign and transitive: a total preorder
      usable as a priority-queue key. */
  lemma CompareToIsTotalPreorder()
    ensures IsTotalPreorder(CompareTo)
  {
    forall a: StringFileLine, b: StringFileLine
      ensures Sign(CompareTo(b, a)) == -Sign(CompareTo(a, b))
    {
      CompareStringsAntisymmetric(a.value, b.value);
    }
    forall a: StringFileLine, b: StringFileLine, c: StringFileLine | CompareTo(a, b) <= 0 && CompareTo(b, c) <= 0
      ensures CompareTo(a, c) <= 0
    {
      CompareStringsTransitive(a.value, b.value, c.value);
    }
  }
}
