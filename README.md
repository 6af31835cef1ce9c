# MergeSort: a k-way merge of sorted files, modelled in Dafny

`MergeSort` merges several input files into one output file, in ascending
(`-a`, the default) or descending (`-d`) order. The command line is
`[-a|-d] mode output input...`. The mode argument is always consumed: `-i`
reads integers, and any other mode (`-s` or anything else) reads strings. So
`-a out.txt in.txt` takes `out.txt` as the mode and `in.txt` as the output
file.

The merge keeps a `PriorityQueue` holding at most one pending line per input
file. It polls the head, which is the smallest element for an ascending run
and the largest for a descending one. The head is written only if it does not
regress the last written value; this is the monotonicity filter. Then the
merge refills the heap from the file the head came from.

In integer mode, a line that `Integer.parseInt` rejects is skipped, both while
the heap is primed and while it is refilled. In string mode every line is an
element. Elements are `IntegerFileLine` / `StringFileLine` values. Each holds
the number of its input file and its value, and is ordered by the value alone.

The model has these parts:

- `FileLines`: the element type `FileLine<V>`.
- `IntegerFileLine` and `StringFileLine`:
  - constructor and getter;
  - `compareTo`, that is `Integer.compare`, and `String.compareTo` as character
    differences.
- `Comparators`:
  - the `Comparable` contract as a total preorder;
  - `Comparator.naturalOrder()` / `reverseOrder()`.
- `Int32Text`:
  - Java's 32-bit `int`;
  - `Integer.parseInt`, with its negative accumulation and both overflow
    checks;
  - `Integer.toString`.
- `MergeSpec`: the generic account of a merge, over any element type and
  any line parser. It covers:
  - which elements a stream contributes;
  - the filter, written as `Emitted`;
  - the heap as a multiset equal to the bag of the streams' pending slots;
  - read positions;
  - the invariant `Consistent`: every stream's elements are popped, pending or
    unread, in that order.
- `MergeRun`: one invariant per phase of a run, and the step lemmas between
  them. The phases are priming, between polls, and after a poll.
- `RunOrder`: the two run comparators, and what following them means for
  plain values:
  - `<=` / `>=` on integers;
  - the lexicographic order `LexLeq` on strings.
- `MergeSort`:
  - the class with its setters, and `setup` as an imperative method;
  - `isInteger`;
  - `sortForIntegers` and `sortForStrings` as methods with the source's
    loops. That means the priming loop with the `arrayNumber--` retry, the
    `while (!heap.isEmpty())` merge loop, and the refill's skip loop.

An input file is its sequence of lines (`seq<string>`). The scanner of file `j`
is a read position `pos[j]` into that sequence. The `PrintWriter` is the
returned sequence of written values.

A ghost out-parameter `pops` records the order in which the heap handed out its
elements. The postconditions speak of `pops` because the queue may return any
of several equal heads.

The refill at src/MergeSort.java:131-138 (and 162-163) is written as a method
of its own, `RefillIntegers` / `RefillStrings`, called once per iteration of
the merge loop. The skip loop of the refill, which `break`s at the first line
that parses, becomes the loop of `NextIntegerLine`: its guard stops at the
first line that parses, and `RefillIntegers` pushes that line.

The javadoc of `setup` says it throws `IndexOutOfBoundsException` when the
parameters are invalid. The code cannot do so:
- it only goes on once there are at least three arguments;
- the largest index it reads outside the bounded loop is 2.

`Setup` therefore fails exactly when there are fewer than three arguments.

Merging zero input files would be expected to give an empty output with no
error. The code does not do that: both sort methods create the queue with
`new PriorityQueue<>(inputScannerList.size(), comparator)`, and a capacity of
0 throws `IllegalArgumentException`, which `main` prints. `SortForIntegers` and
`SortForStrings` follow the code and fail exactly when there are no streams;
`MergeIntegers` and `MergeStrings` are the merge itself, which gives the empty
output on zero streams (see "## Findings").

## Model

| member | source | states |
|---|---|---|
| IntegerFileLine.New | src/IntegerFileLine.java:5-8 | the new line carries the given file number |
| IntegerFileLine.GetValue | src/IntegerFileLine.java:15-17 | the getter; `GetValueOfNew` states what it returns |
| IntegerFileLine.CompareTo | src/IntegerFileLine.java:11-13 | `compareTo` as `Integer.compare` on the values; `CompareToIsNumeric`, `CompareToIgnoresFileNumber` and `CompareToIsTotalPreorder` state its meaning |
| IntegerFileLine.GetValueOfNew | src/IntegerFileLine.java:5-17 | `getValue()` of a new line is exactly the constructor's value |
| IntegerFileLine.CompareToIsNumeric | src/IntegerFileLine.java:11-13 | `compareTo` is negative / zero / positive exactly when the value is less than / equal to / greater than the other's |
| IntegerFileLine.CompareToIgnoresFileNumber | src/IntegerFileLine.java:5-13 | lines with the same values compare the same, whatever their file numbers |
| IntegerFileLine.CompareToIsTotalPreorder | src/IntegerFileLine.java:11-13 | `compareTo` is antisymmetric in sign and transitive |
| StringFileLine.New | src/StringFileLine.java:5-8 | the new line carries the given file number |
| StringFileLine.GetValue | src/StringFileLine.java:15-17 | the getter; `GetValueOfNew` states what it returns |
| StringFileLine.CompareStrings | src/StringFileLine.java:12 | `String.compareTo` on two texts; the lemmas below state its meaning, against the independent `LexLeq` |
| StringFileLine.CompareTo | src/StringFileLine.java:11-13 | `compareTo` as `String.compareTo` on the texts; `CompareToIgnoresFileNumber` and `CompareToIsTotalPreorder` state its meaning |
| StringFileLine.GetValueOfNew | src/StringFileLine.java:5-17 | `getValue()` of a new line is exactly the constructor's text |
| StringFileLine.CompareAtFirstDifference | src/StringFileLine.java:11-13 | at the first differing position, the result is the difference of the two characters |
| StringFileLine.ComparePrefix | src/StringFileLine.java:11-13 | a proper prefix compares below the longer string, by the difference in length, and the longer one above it |
| StringFileLine.CompareZeroIffEqual | src/StringFileLine.java:11-13 | the comparison is zero exactly for equal texts |
| StringFileLine.CompareStringsAntisymmetric | src/StringFileLine.java:11-13 | swapping the arguments flips the sign |
| StringFileLine.CompareStringsTransitive | src/StringFileLine.java:11-13 | "no later than" is transitive |
| StringFileLine.CompareIsLexicographic | src/StringFileLine.java:11-13 | `compareTo(a, b) <= 0` exactly when `a` is lexicographically no later than `b` (an independent definition) |
| StringFileLine.CompareToIgnoresFileNumber | src/StringFileLine.java:5-13 | lines with the same texts compare the same, whatever their file numbers |
| StringFileLine.CompareToIsTotalPreorder | src/StringFileLine.java:11-13 | `compareTo` is antisymmetric in sign and transitive |
| Comparators.ReverseOrder | src/MergeSort.java:107 | `Comparator.reverseOrder()`; `ReverseOrderInverts` states its meaning |
| Comparators.RunComparator | src/MergeSort.java:107 | `ascendingSort ? naturalOrder() : reverseOrder()`; `RunComparatorIsTotalPreorder` states its meaning |
| Comparators.ReverseOrderInverts | src/MergeSort.java:107 | `reverseOrder()` flips the sign of every comparison and is again a total preorder |
| Comparators.RunComparatorIsTotalPreorder | src/MergeSort.java:107 | the comparator chosen from `ascendingSort` is a total preorder |
| RunOrder.IntegerOrderIsTotalPreorder | src/MergeSort.java:107 | an integer run's comparator is a total preorder |
| RunOrder.IntegerOrderAt | src/MergeSort.java:126 | `compare(a, b) >= 0` means `b.value <= a.value` ascending and `b.value >= a.value` descending |
| RunOrder.IntegerMonotone | src/MergeSort.java:121-129 | a sequence follows the integer comparator exactly when its values are non-decreasing (ascending) or non-increasing (descending) |
| RunOrder.StringOrderIsTotalPreorder | src/MergeSort.java:146 | a string run's comparator is a total preorder |
| RunOrder.StringOrderAt | src/MergeSort.java:158 | `compare(a, b) >= 0` means `b` is lexicographically no later than `a` ascending, and `a` no later than `b` descending |
| RunOrder.StringMonotone | src/MergeSort.java:154-161 | a sequence follows the string comparator exactly when its texts are in the run's lexicographic direction |
| Int32Text.Accumulate | src/MergeSort.java:173 | the digit loop of `parseInt` never leaves the range between the limit and zero |
| Int32Text.AccumulateValue | src/MergeSort.java:173 | the digit loop yields minus the digits' value when all are digits and the value is within the limit, and fails otherwise |
| Int32Text.ParseInt | src/MergeSort.java:173 | `Integer.parseInt` in radix 10, `None` for `NumberFormatException`; `ParseIntIsDecimal` states its meaning |
| Int32Text.ToString | src/MergeSort.java:128 | the text `println(int)` writes; `ParseToString` states its meaning |
| Int32Text.ParseIntIsDecimal | src/MergeSort.java:171-178 | `parseInt` succeeds exactly on an optional sign followed by digits with a value in [-2^31, 2^31-1], and returns that value |
| Int32Text.ParseToString | src/MergeSort.java:128 | reading back the text `println(int)` writes gives the same number |
| MergeSort.IsInteger | src/MergeSort.java:171-178 | `isInteger(s)` holds exactly for an optional sign, a non-empty run of digits and a value in the `int` range |
| MergeSort.MergeSort.constructor | src/MergeSort.java:24-26 | a new object has both flags false, no output file and no input files |
| MergeSort.MergeSort.SetHasStrings | src/MergeSort.java:180-182 | sets the mode and leaves every other field alone |
| MergeSort.MergeSort.SetAscendingSort | src/MergeSort.java:184-186 | sets the direction and leaves every other field alone |
| MergeSort.MergeSort.SetOutputFileName | src/MergeSort.java:188-190 | sets the output file name and leaves every other field alone |
| MergeSort.MergeSort.AddInputFileName | src/MergeSort.java:192-194 | appends one name to the input files and leaves every other field alone |
| MergeSort.Setup | src/MergeSort.java:35-60 | fails with the `IllegalArgumentException` message exactly when there are fewer than 3 arguments; otherwise the run is descending exactly for a leading `-d`, is in integer mode exactly when the argument at the mode index is `-i` (that argument is consumed whatever it is), the next argument is the output file, and all later ones are the input files in order |
| MergeSort.CommandLineRoundTrip | src/MergeSort.java:35-60 | on `[flag, flag, output] + inputs`, setup reads back exactly that direction, mode, output file and inputs |
| MergeSort.ModeFlagSwallowed | src/MergeSort.java:48-55 | after `-a` with no mode flag, the intended output name is taken as the mode, the first input becomes the output, and only the remaining inputs are read |
| MergeSort.SkipExample | src/MergeSort.java:110-119 | the stream `["3", "x", "5"]` contributes 3 and then 5 |
| MergeSort.DropExample | src/MergeSort.java:106-140 | `sortForIntegers` ascending on the streams `["1", "2", "3"]` and `["5", "1", "9"]` succeeds and writes 1, 2, 3, 5, 9: the late 1 is dropped |
| MergeSort.DropPops | src/MergeSort.java:110-138 | on those two streams, the heap hands out exactly 1, 2, 3 from the first file, then 5, 1, 9 from the second |
| MergeSort.DropWritten | src/MergeSort.java:121-129 | the filter applied to the pops 1, 2, 3, 5, 1, 9 writes 1, 2, 3, 5, 9 |
| MergeSort.IntegerStreamsOrdered | src/MergeSort.java:106-140 | integer streams whose parseable values are in the run's direction satisfy the generic ordered-merge premise |
| MergeSort.SortForIntegers | src/MergeSort.java:106-140 | fails with the queue's capacity error exactly when there are no streams (`new PriorityQueue<>(0, …)` at line 108); otherwise as `MergeIntegers` |
| MergeSort.MergeIntegers | src/MergeSort.java:106-140 | every pop was, when polled, no later in the run order than the next unpopped element of every stream; every stream hands out exactly its parseable lines, in line order; the popped values are exactly all parseable values; the output is the filter applied to the pops, is non-decreasing (`-a`) or non-increasing (`-d`), and holds only values that were read; when every stream is already in the run's direction, the output is every pop and, as a multiset, all parseable values; with no streams the output is empty; the loop terminates, with unread lines plus heap size decreasing |
| MergeSort.IntegerMergeEnd | src/MergeSort.java:122-139 | once the heap is empty, the between-polls invariant of an integer run gives the whole contract of `MergeIntegers` |
| MergeSort.NextIntegerLine | src/MergeSort.java:131-133 | the refill's scan stops at the first line from the read position on that parses, or at the end; no line it passes over parses |
| MergeSort.RefillIntegers | src/MergeSort.java:131-138 | from the state after a poll, lines that do not parse are consumed and dropped; the first that parses fills the polled stream's slot and joins the heap, and the position is just past it; if none parses, the stream is read to its end and the slot stays empty; the other streams' positions and slots are unchanged; the between-polls invariant holds again and unread lines plus heap size do not grow |
| MergeSort.EveryLine | src/MergeSort.java:150-151 | string mode reads every line as an element; `EveryLineParsed` and `EveryLineAll` state what that gives |
| MergeSort.EveryLineParsed | src/MergeSort.java:150-151 | in string mode a stream's elements are all of its lines, in order |
| MergeSort.EveryLineAll | src/MergeSort.java:148-152 | in string mode the parseable values of all streams are all of their lines |
| MergeSort.StringStreamsOrdered | src/MergeSort.java:145-165 | string streams in the run's lexicographic direction satisfy the generic ordered-merge premise |
| MergeSort.SortForStrings | src/MergeSort.java:145-165 | fails with the queue's capacity error exactly when there are no streams (`new PriorityQueue<>(0, …)` at line 147); otherwise as `MergeStrings` |
| MergeSort.MergeStrings | src/MergeSort.java:145-165 | every pop was, when polled, no later in the run order than the next unpopped line of every stream; every stream hands out all its lines in order; the popped values are all lines; the output is the filter applied to the pops, is in the run's lexicographic direction, and holds only lines that were read; when every stream is already in that direction, the output is every pop and, as a multiset, all lines; with no streams the output is empty; the loop terminates |
| MergeSort.StringMergeEnd | src/MergeSort.java:155-164 | once the heap is empty, the between-polls invariant of a string run gives the whole contract of `MergeStrings` |
| MergeSort.ParsedTexts | src/MergeSort.java:128 | reading back the lines `println(int)` writes for a sequence of values gives those values |
| MergeSort.IntegerSingle | src/MergeSort.java:106-140 | an integer run on one input file whose parseable values are already in the run's direction writes exactly those values |
| MergeSort.IntegerIdempotent | src/MergeSort.java:121-139 | merging an integer run's output, as the only input file, in the same direction writes the same output again |
| MergeSort.StringSingle | src/MergeSort.java:145-165 | a string run on one input file already in the run's direction writes exactly its lines |
| MergeSort.StringIdempotent | src/MergeSort.java:154-164 | merging a string run's output, as the only input file, in the same direction writes the same output again |
| MergeSort.NoStreamsExample | src/MergeSort.java:106-165 | with no input stream, both sort methods fail with the capacity error, while both merges write nothing |
| MergeSort.RefillStrings | src/MergeSort.java:162-163 | from the state after a poll, the polled stream's next line, if any, is consumed, fills its slot and joins the heap; a stream read to its end keeps an empty slot and its position; the other streams are unchanged; the between-polls invariant holds again and unread lines plus heap size do not grow |
| MergeSpec.Elements | src/MergeSort.java:131-138 | a stream contributes at most one element per line, each tagged with the stream's number |
| MergeSpec.ElementsValues | src/MergeSort.java:131-138 | the values a stream contributes are its parseable lines' values, in line order |
| MergeSpec.ElementsAt | src/MergeSort.java:132-137 | reading one line moves its element, if it parses, out of the unread part, and drops it otherwise |
| MergeSpec.Emitted | src/MergeSort.java:121-129 | the written elements for a pop sequence; `EmittedAppend`, `EmittedMonotone`, `EmittedOfMonotone` and `EmittedIncluded` state its meaning |
| MergeSpec.EmittedAppend | src/MergeSort.java:126-129 | a popped element is written, and becomes the last written one, exactly when nothing was written yet or `compare(e, prev) >= 0`; otherwise nothing changes |
| MergeSpec.EmittedMonotone | src/MergeSort.java:121-129 | whatever the pops, the written sequence follows the run comparator |
| MergeSpec.EmittedOfMonotone | src/MergeSort.java:120-139 | pops already in the run order are written in full |
| MergeSpec.EmittedIncluded | src/MergeSort.java:126-129 | every written value was popped, in multiset terms |
| MergeSpec.ExtremeExists | src/MergeSort.java:123 | a non-empty heap under a total preorder has a head that no element precedes |
| MergeSpec.Initial | src/MergeSort.java:108-110 | before anything is read, with empty slots and heap, the bookkeeping invariant holds |
| MergeSpec.PopHeap | src/MergeSort.java:123 | the polled head is its stream's pending element; the heap without it is the bag of the remaining slots |
| MergeSpec.PopPreserves | src/MergeSort.java:123 | polling keeps the bookkeeping invariant with the head moved from its slot to the pops, and keeps every other stream settled |
| MergeSpec.SkipPreserves | src/MergeSort.java:131-134 | consuming a line that does not parse keeps the invariant and leaves one line fewer unread |
| MergeSpec.PushPreserves | src/MergeSort.java:134-136 | consuming a line that parses into an empty slot keeps the invariant, with that element pending |
| MergeSpec.OnePerStream | src/MergeSort.java:110-138 | the heap holds at most one element per stream, each once and tagged with its stream, so its size never exceeds the number of streams |
| MergeSpec.UnreadAdvance | src/MergeSort.java:132 | reading one line leaves exactly one line fewer unread |
| MergeSpec.PopOrdered | src/MergeSort.java:122-123 | for ordered streams, polling a head keeps the pops monotone with nothing in the heap before the last pop |
| MergeSpec.RefillOrdered | src/MergeSort.java:131-138 | in an ordered stream, the refilling element does not come before the element just polled from that stream |
| MergeSpec.OneStream | src/MergeSort.java:110-138 | with one input file, the heap hands out exactly that file's elements, in order |
| MergeSpec.HeadPolledFirst | src/MergeSort.java:123 | a head that no heap element precedes is no later in the run order than the next unpopped element of any stream |
| MergeSpec.GreedyAppend | src/MergeSort.java:123 | a poll that comes first among the next elements keeps every pop first when it was polled |
| MergeSpec.GreedyNext | src/MergeSort.java:122-123 | in a finished merge, each pop is the next unpopped element of its own stream, and comes first among all streams' next elements |
| MergeSpec.GreedyUnique | src/MergeSort.java:123 | when one stream's next element strictly precedes every other stream's, the next pop is that element |
| MergeSpec.GreedyMore | src/MergeSort.java:122 | while some stream still has an unpopped element, a finished merge pops again |
| MergeSpec.GreedyLength | src/MergeSort.java:122 | once every stream has handed out all its elements, a finished merge pops nothing more |
| MergeSpec.Drained | src/MergeSort.java:122 | once the heap is empty and every stream is settled, each stream has handed all its elements to the pops |
| MergeSpec.PopsCoverStreams | src/MergeSort.java:120-139 | if every stream handed all its elements to the pops, the pops' values are all parseable values of all streams |
| MergeRun.PrimeStart | src/MergeSort.java:108-110 | all positions zero and all slots empty is the start of priming |
| MergeRun.PrimePush | src/MergeSort.java:114 | a line that parses fills the stream's slot, and priming moves to the next stream |
| MergeRun.PrimeSkip | src/MergeSort.java:115-118 | a line that does not parse is consumed, and the same stream is tried again |
| MergeRun.PrimeExhausted | src/MergeSort.java:112 | a stream with no more lines adds nothing, and priming moves on |
| MergeRun.PrimeDone | src/MergeSort.java:119-121 | after priming, with no pops and nothing written, the between-polls invariant holds |
| MergeRun.PopStep | src/MergeSort.java:123-129 | polling a head leads to the after-poll state, with the head written and made `prev` exactly when the filter accepts it |
| MergeRun.PopGreedy | src/MergeSort.java:123 | polling a head keeps every pop first among the streams' next elements at its poll |
| MergeRun.RefillSkips | src/MergeSort.java:131-133 | consuming a run of lines that do not parse keeps the refill state, one line fewer unread per line |
| MergeRun.RefillFound | src/MergeSort.java:131-136 | after skipping to the first parseable line, that line's element fills the slot and joins the heap, the position is just past it, nothing else changes, and the between-polls invariant holds |
| MergeRun.RefillNone | src/MergeSort.java:131-133 | when no remaining line parses, the stream is read to its end, the slot stays empty, nothing else changes, and the between-polls invariant holds |
| MergeRun.RefillPush | src/MergeSort.java:134-136 | the first parseable line refills the polled stream, restores the between-polls invariant and consumes one line |
| MergeRun.RefillSkip | src/MergeSort.java:131-134 | a line that does not parse is consumed during a refill |
| MergeRun.RefillExhausted | src/MergeSort.java:131 | a polled stream read to its end restores the between-polls invariant without a refill |
| MergeRun.MergeEnd | src/MergeSort.java:122-139 | with the heap empty: every pop came first among the streams' next elements, each stream handed out exactly its parseable elements, the pops are all parseable values, the output is monotone and drawn from them, and ordered streams lose nothing |

## Findings

| source | as written | input that shows it | evidently intended | confidence | as-written member | corrected member |
|---|---|---|---|---|---|---|
| src/MergeSort.java:108 | `new PriorityQueue<>(inputScannerList.size(), comparator)` throws `IllegalArgumentException` for capacity 0 | integer mode with no readable input file, e.g. `-a -i out.txt` with no inputs | zero streams give an empty output with no error | not executed | MergeSort.SortForIntegers | MergeSort.MergeIntegers |
| src/MergeSort.java:147 | `new PriorityQueue<>(inputScannerList.size(), comparator)` throws `IllegalArgumentException` for capacity 0 | string mode with no readable input file, e.g. `-a -s out.txt` with no inputs | zero streams give an empty output with no error | not executed | MergeSort.SortForStrings | MergeSort.MergeStrings |

## Left out

- `main` and `sort` (src/MergeSort.java:62-101) are left out. They open files, create the `PrintWriter`, print the `FileNotFoundException` messages and close the scanners, all of which is I/O. Input files are given as sequences of lines, and the output is the returned sequence of values.
- The dispatch on `hasStrings` in `sort` is not modelled. `SortForIntegers` and `SortForStrings` take the direction as a parameter instead of reading the `ascendingSort` field.
- `java.util.Scanner` line splitting is not modelled: each stream is already split into lines.
- `PriorityQueue` internals are not modelled. A poll may return any element that no other element of the heap precedes, so no particular interleaving of equal values from different files is claimed.
- `SortForIntegers`, `SortForStrings`: do not name the file order in which equal values are written, because the queue's tie-breaking is unspecified.
- The `FileLine` base class is not part of this model. The file number is a plain field of `FileLine<V>`.
- `Integer.parseInt` also accepts non-ASCII Unicode decimal digits through `Character.digit`. The model accepts only ASCII `0`-`9`.
- `String.compareTo` works on UTF-16 code units. The model compares Dafny `char`s.
- `println` formatting is modelled for integers only, by `ToString` and `ParseToString`. Written values are otherwise modelled as values, not as text.
- The `IndexOutOfBoundsException` the `setup` javadoc mentions cannot occur, so it has no error case in `Setup`.
- There is no concurrency or floating point in the source.
