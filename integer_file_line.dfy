/** `IntegerFileLine`: an `int` read from one line of input stream
    `fileNumber`, ordered by `Integer.compare` on the value alone. */
module IntegerFileLine {
  import opened FileLines
  import opened Comparators
  import opened Int32Text

  type IntegerFileLine = FileLine<int32>

  /** `new IntegerFileLine(arrayNumber, value)`. */
  function New(arrayNumber: nat, value: int32): (line: IntegerFileLine)
    ensures line.fileNumber == arrayNumber
  {
    FileLine(arrayNumber, value)
  }

  /** `getValue()`. */
  function GetValue(line: IntegerFileLine): int32 {
    line.value
  }

  /** `Integer.compare(x, y)`. */
  function IntegerCompare(x: int32, y: int32): int {
    if x < y then -1 else if x == y then 0 else 1
  }

  /** `compareTo(o)`: `Integer.compare(value, o.value)`. */
  function CompareTo(line: IntegerFileLine, o: IntegerFileLine): int {
    IntegerCompare(line.value, o.value)
  }

  /** The getter returns exactly what the constructor was given. */
  lemma GetValueOfNew(arrayNumber: nat, value: int32)
    ensures GetValue(New(arrayNumber, value)) == value
  {
  }

  /** `compareTo` is negative, zero or positive exactly when the value is
      less than, equal to or greater than the other's. */
  lemma CompareToIsNumeric(a: IntegerFileLine, b: IntegerFileLine)
    ensures CompareTo(a, b) < 0 <==> a.value < b.value
    ensures CompareTo(a, b) == 0 <==> a.value == b.value
    ensures CompareTo(a, b) > 0 <==> a.value > b.value
  {
  }

  /** `compareTo` looks at the values only: lines of different files with
      equal values compare equal. */
  lemma CompareToIgnoresFileNumber(a: IntegerFileLine, b: IntegerFileLine, a': IntegerFileLine, b': IntegerFileLine)
    requires a.value == a'.value && b.value == b'.value
    ensures CompareTo(a, b) == CompareTo(a', b')
  {
  }

  /** `compareTo` is antisymmetric in sign and transitive: a total preorder
      usable as a priority-queue key. */
  lemma CompareToIsTotalPreorder()
    ensures IsTotalPreorder(CompareTo)
  {
  }
}
