/** `MergeSort`: the command-line set-up and the two k-way merges.

    An input file is a sequence of lines, and the output file is the
    sequence of values written to it, one per line. The priority queue is
    a multiset; a poll may return any element that no other element of the
    heap precedes, since `PriorityQueue` does not say which of several
    equal heads it returns. */
module MergeSort {
  import opened Wrappers
  import opened FileLines
  import opened Comparators
  import opened Int32Text
  import opened MergeSpec
  import opened MergeRun
  import opened RunOrder
  import IntegerFileLine
  import StringFileLine

  // ---------------------------------------------------------------------
  // Set-up from the command line

  /** The message of the `IllegalArgumentException` `setup` throws. */
  const InvalidParameters := "Cannot execute, invalid input parameters"

  datatype SetupError = IllegalArgument(message: string)

  /** A configured run: the mode, the direction and the files. The output
      file name is `None` until it is set, as the Java field is `null`. */
  class MergeSort {
    var hasStrings: bool
    var ascendingSort: bool
    var outputFileName: Option<string>
    var inputFileNames: seq<string>

    constructor ()
      ensures !hasStrings && !ascendingSort && outputFileName == None && inputFileNames == []
    {
      hasStrings := false;
      ascendingSort := false;
      outputFileName := None;
      inputFileNames := [];
    }

    method SetHasStrings(hasStrings: bool)
      modifies this
      ensures this.hasStrings == hasStrings
      ensures ascendingSort == old(ascendingSort) && outputFileName == old(outputFileName)
      ensures inputFileNames == old(inputFileNames)
    {
      this.hasStrings := hasStrings;
    }

    method SetAscendingSort(ascendingSort: bool)
      modifies this
      ensures this.ascendingSort == ascendingSort
      ensures hasStrings == old(hasStrings) && outputFileName == old(outputFileName)
      ensures inputFileNames == old(inputFileNames)
    {
      this.ascendingSort := ascendingSort;
    }

    method SetOutputFileName(outputFileName: string)
      modifies this
      ensures this.outputFileName == Some(outputFileName)
      ensures hasStrings == old(hasStrings) && ascendingSort == old(ascendingSort)
      ensures inputFileNames == old(inputFileNames)
    {
      this.outputFileName := Some(outputFileName);
    }

    method AddInputFileName(inputFileName: string)
      modifies this
      ensures inputFileNames == old(inputFileNames) + [inputFileName]
      ensures hasStrings == old(hasStrings) && ascendingSort == old(ascendingSort)
      ensures outputFileName == old(outputFileName)
    {
      inputFileNames := inputFileNames + [inputFileName];
    }
  }

  /** Where the mode flag is read: after a leading `-a` or `-d`, else at the
      very start. */
  function ModeIndex(args: seq<string>): nat
    requires |args| > 0
  {
    if args[0] == "-a" || args[0] == "-d" then 1 else 0
  }

  /** `setup(args)`. With fewer than three arguments it fails with
      `IllegalArgumentException`. Otherwise the run is descending exactly
      when the first argument is `-d`; the mode is integers exactly when
      the argument at the mode index is `-i`, and that argument is taken as
      the mode flag whatever it is; the next argument names the output
      file, and all the rest, in order, the input files. No index runs past
      the end: the largest one read before the loop is 2. */
  method Setup(args: seq<string>) returns (r: Result<MergeSort, SetupError>)
    ensures r.Failure? <==> |args| < 3
    ensures r.Failure? ==> r.error == IllegalArgument(InvalidParameters)
    ensures r.Success? ==>
              var m, k := r.value, ModeIndex(args);
              && fresh(m)
              && m.ascendingSort == (args[0] != "-d")
              && m.hasStrings == (args[k] != "-i")
              && m.outputFileName == Some(args[k + 1])
              && m.inputFileNames == args[k + 2..]
  {
    if |args| < 3 {
      return Failure(IllegalArgument(InvalidParameters));
    }
    var mergeSort := new MergeSort();
    var currentIndex := 0;
    if args[currentIndex] == "-a" {
      mergeSort.SetAscendingSort(true);
      currentIndex := currentIndex + 1;
    } else if args[currentIndex] == "-d" {
      mergeSort.SetAscendingSort(false);
      currentIndex := currentIndex + 1;
    } else {
      mergeSort.SetAscendingSort(true);
    }
    if args[currentIndex] == "-i" {
      mergeSort.SetHasStrings(false);
    } else if args[currentIndex] == "-s" {
      mergeSort.SetHasStrings(true);
    } else {
      mergeSort.SetHasStrings(true);
    }
    currentIndex := currentIndex + 1;
    mergeSort.SetOutputFileName(args[currentIndex]);
    currentIndex := currentIndex + 1;
    assert currentIndex == ModeIndex(args) + 2;
    while currentIndex < |args|
      invariant ModeIndex(args) + 2 <= currentIndex <= |args|
      invariant mergeSort.inputFileNames == args[ModeIndex(args) + 2..currentIndex]
      invariant mergeSort.ascendingSort == (args[0] != "-d")
      invariant mergeSort.hasStrings == (args[ModeIndex(args)] != "-i")
      invariant mergeSort.outputFileName == Some(args[ModeIndex(args) + 1])
    {
      mergeSort.AddInputFileName(args[currentIndex]);
      currentIndex := currentIndex + 1;
    }
    assert args[ModeIndex(args) + 2..currentIndex] == args[ModeIndex(args) + 2..];
    return Success(mergeSort);
  }

  /** The command line that asks for a given run. */
  function CommandLine(hasStrings: bool, ascendingSort: bool, outputFileName: string, inputFileNames: seq<string>)
    : seq<string>
  {
    [if ascendingSort then "-a" else "-d", if hasStrings then "-s" else "-i", outputFileName] + inputFileNames
  }

  /** On the command line that asks for a run, `setup` reads back exactly
      that run: both flags are recognised, and the names stay in place. */
  lemma CommandLineRoundTrip(hasStrings: bool, ascendingSort: bool, outputFileName: string, inputFileNames: seq<string>)
    ensures var args := CommandLine(hasStrings, ascendingSort, outputFileName, inputFileNames);
            && |args| >= 3 && ModeIndex(args) == 1
            && (args[0] != "-d") == ascendingSort
            && (args[1] != "-i") == hasStrings
            && args[2] == outputFileName
            && args[3..] == inputFileNames
  {
    var args := CommandLine(hasStrings, ascendingSort, outputFileName, inputFileNames);
    assert args[3..] == inputFileNames;
  }

  /** A missing mode flag shifts the names: after `-a` the intended output
      file name is taken as the mode flag (meaning strings), the first
      input file becomes the output file, and only the rest are read. */
  lemma ModeFlagSwallowed(outputFileName: string, inputFileNames: seq<string>)
    requires outputFileName != "-i" && |inputFileNames| >= 1
    ensures var args := ["-a", outputFileName] + inputFileNames;
            var k := ModeIndex(args);
            && |args| >= 3 && args[k] != "-i"
            && args[k + 1] == inputFileNames[0]
            && args[k + 2..] == inputFileNames[1..]
  {
    var args := ["-a", outputFileName] + inputFileNames;
    assert args[3..] == inputFileNames[1..];
  }

  /** `isInteger(s)`: `Integer.parseInt(s)` does not throw. */
  predicate IsInteger(s: string)
    ensures IsInteger(s) <==> IsDecimalInt32(s)
  {
    ParseIntIsDecimal(s);
    ParseInt(s).Some?
  }

  /** A stream `["3", "x", "5"]` contributes 3 and then 5: the line that is
      not an integer is dropped. */
  lemma SkipExample()
    ensures Parsed(ParseInt, ["3", "x", "5"]) == [3, 5]
  {
    var lines := ["3", "x", "5"];
    assert Accumulate("3", 1, -3, -MAX_VALUE) == Some(-3);
    assert Accumulate("5", 1, -5, -MAX_VALUE) == Some(-5);
    assert ParseInt("3") == Some(3);
    assert ParseInt("x") == None;
    assert ParseInt("5") == Some(5);
    assert lines[1..] == ["x", "5"] && lines[1..][1..] == ["5"] && lines[1..][1..][1..] == [];
  }

  /** Every stream, read with skips, is in the run's direction. */
  predicate IntegerStreamsInRunOrder(ascending: bool, streams: seq<seq<string>>) {
    forall j :: 0 <= j < |streams| ==> InRunOrder(ascending, Parsed(ParseInt, streams[j]))
  }

  /** The integer streams being in order is the generic precondition of an
      ordered merge. */
  lemma IntegerStreamsOrdered(ascending: bool, streams: seq<seq<string>>)
    requires IntegerStreamsInRunOrder(ascending, streams)
    ensures StreamsOrdered(IntegerOrder(ascending), ParseInt, streams)
  {
    forall j | 0 <= j < |streams|
      ensures Monotone(IntegerOrder(ascending), Elements(ParseInt, j, streams[j]))
    {
      ElementsValues(ParseInt, j, streams[j]);
      IntegerMonotone(ascending, Elements(ParseInt, j, streams[j]));
    }
  }

  /** How a merge ends when there is no input stream: the priority queue
      is created with the number of streams as its initial capacity, and
      `PriorityQueue` throws `IllegalArgumentException`, without a
      message, for a capacity below 1. */
  datatype MergeError = IllegalInitialCapacity

  /** What a merge of integer streams writes. `pops` is the order in which
      the heap handed out its elements. Every stream hands out exactly its
      parseable lines, in line order, and nothing else is popped; each pop
      came first among the next elements of the streams; the output is the
      pops with the monotonicity filter applied, so it is in the run's
      direction and holds no value that was not read; and when every
      stream is already in that direction, nothing is dropped. */
  ghost predicate IntegerMerge(streams: seq<seq<string>>, ascending: bool, out: seq<int32>,
                               pops: seq<IntegerFileLine.IntegerFileLine>)
  {
    && Covers(ParseInt, streams, pops)
    && GreedyPops(IntegerOrder(ascending), ParseInt, streams, pops)
    && multiset(Values(pops)) == AllParsed(ParseInt, streams)
    && out == Values(Emitted(IntegerOrder(ascending), pops))
    && InRunOrder(ascending, out)
    && multiset(out) <= AllParsed(ParseInt, streams)
    && (IntegerStreamsInRunOrder(ascending, streams) ==>
          out == Values(pops) && multiset(out) == AllParsed(ParseInt, streams))
  }

  /** `sortForIntegers` as written: without an input stream the priority
      queue cannot be created, and nothing is read or written; otherwise
      the merge. */
  method SortForIntegers(streams: seq<seq<string>>, ascendingSort: bool)
    returns (r: Result<seq<int32>, MergeError>, ghost pops: seq<IntegerFileLine.IntegerFileLine>)
    ensures r.Failure? <==> |streams| == 0
    ensures r.Failure? ==> r.error == IllegalInitialCapacity
    ensures r.Success? ==> IntegerMerge(streams, ascendingSort, r.value, pops)
  {
    if |streams| == 0 {
      return Failure(IllegalInitialCapacity), [];
    }
    var out;
    out, pops := MergeIntegers(streams, ascendingSort);
    r := Success(out);
  }

  /** The priming, merge and refill loops of `sortForIntegers`. They need
      no stream to be present: without one, nothing is written. */
  method MergeIntegers(streams: seq<seq<string>>, ascendingSort: bool)
    returns (out: seq<int32>, ghost pops: seq<IntegerFileLine.IntegerFileLine>)
    ensures IntegerMerge(streams, ascendingSort, out, pops)
    ensures |streams| == 0 ==> out == []
  {
    var comparator := IntegerOrder(ascendingSort);
    IntegerOrderIsTotalPreorder(ascendingSort);
    ghost var ordered := IntegerStreamsInRunOrder(ascendingSort, streams);
    if ordered {
      IntegerStreamsOrdered(ascendingSort, streams);
    }
    var heap: multiset<IntegerFileLine.IntegerFileLine> := multiset{};
    var pos: seq<nat> := seq(|streams|, _ => 0);
    ghost var pending: seq<Option<IntegerFileLine.IntegerFileLine>> := seq(|streams|, _ => None);
    PrimeStart(ParseInt, streams, pos, pending);

    // Priming: the first parseable line of every stream.
    var arrayNumber := 0;
    while arrayNumber < |streams|
      invariant Priming(ParseInt, streams, pos, pending, heap, arrayNumber)
      decreases |streams| - arrayNumber, if arrayNumber < |streams| then |streams[arrayNumber]| - pos[arrayNumber] else 0
    {
      if pos[arrayNumber] < |streams[arrayNumber]| {
        var line := streams[arrayNumber][pos[arrayNumber]];
        match ParseInt(line)
        case Some(v) =>
          PrimePush(ParseInt, streams, pos, pending, heap, arrayNumber, v);
          heap := heap + multiset{IntegerFileLine.New(arrayNumber, v)};
          pending := pending[arrayNumber := Some(IntegerFileLine.New(arrayNumber, v))];
          pos := pos[arrayNumber := pos[arrayNumber] + 1];
        case None =>
          // The same stream is tried again.
          PrimeSkip(ParseInt, streams, pos, pending, heap, arrayNumber);
          pos := pos[arrayNumber := pos[arrayNumber] + 1];
          arrayNumber := arrayNumber - 1;
      } else {
        PrimeExhausted(ParseInt, streams, pos, pending, heap, arrayNumber);
      }
      arrayNumber := arrayNumber + 1;
    }

    // The merge.
    var prev: Option<IntegerFileLine.IntegerFileLine> := None;
    out, pops := [], [];
    PrimeDone(comparator, ParseInt, streams, pos, pending, heap, ordered);
    while heap != multiset{}
      invariant Merging(comparator, ParseInt, streams, pos, pending, heap, pops, prev, out, ordered)
      decreases |heap| + Unread(streams, pos)
    {
      ExtremeExists(comparator, heap);
      var e :| e in heap && IsExtreme(comparator, e, heap);
      var f := e.fileNumber;
      PopStep(comparator, ParseInt, streams, pos, pending, heap, pops, prev, out, ordered, e);
      if prev.None? || comparator(e, prev.value) >= 0 {
        prev := Some(e);
        out := out + [IntegerFileLine.GetValue(e)];
      }
      heap := heap - multiset{e};
      pending := pending[f := None];
      pops := pops + [e];

      pos, heap, pending := RefillIntegers(comparator, streams, pos, heap, pending, pops, prev, out, ordered, f);
    }

    IntegerMergeEnd(streams, ascendingSort, pos, pending, pops, prev, out, ordered);
  }

  /** The end of an integer merge, once the heap is empty. */
  lemma IntegerMergeEnd(streams: seq<seq<string>>, ascending: bool, pos: seq<nat>,
                        pending: seq<Option<IntegerFileLine.IntegerFileLine>>, pops: seq<IntegerFileLine.IntegerFileLine>,
                        prev: Option<IntegerFileLine.IntegerFileLine>, out: seq<int32>, ordered: bool)
    requires Merging(IntegerOrder(ascending), ParseInt, streams, pos, pending, multiset{}, pops, prev, out, ordered)
    requires ordered == IntegerStreamsInRunOrder(ascending, streams)
    ensures IntegerMerge(streams, ascending, out, pops)
    ensures |streams| == 0 ==> out == []
  {
    MergeEnd(IntegerOrder(ascending), ParseInt, streams, pos, pending, pops, prev, out, ordered);
    IntegerMonotone(ascending, Emitted(IntegerOrder(ascending), pops));
  }

  /** The reading in the refill loop of `sortForIntegers`: from line `p`
      on, lines are read until one is an integer. `q` is the index of that
      line, or the end of the stream when no line is. */
  method NextIntegerLine(lines: seq<string>, p: nat) returns (q: nat)
    requires p <= |lines|
    ensures p <= q <= |lines|
    ensures forall k :: p <= k < q ==> !IsInteger(lines[k])
    ensures q < |lines| ==> IsInteger(lines[q])
  {
    q := p;
    while q < |lines| && !IsInteger(lines[q])
      invariant p <= q <= |lines|
      invariant forall k :: p <= k < q ==> !IsInteger(lines[k])
    {
      q := q + 1;
    }
  }

  /** The refill after a poll from stream `f`: lines that do not parse are
      dropped, and the first one that does fills the stream's slot; when
      none does, the stream is read to its end and its slot stays empty.
      No other stream is touched. */
  method RefillIntegers(ghost comparator: Comparator<int32>, streams: seq<seq<string>>, pos: seq<nat>,
                        heap: multiset<IntegerFileLine.IntegerFileLine>,
                        ghost pending: seq<Option<IntegerFileLine.IntegerFileLine>>,
                        ghost pops: seq<IntegerFileLine.IntegerFileLine>, ghost prev: Option<IntegerFileLine.IntegerFileLine>,
                        ghost out: seq<int32>, ghost ordered: bool, f: nat)
    returns (pos': seq<nat>, heap': multiset<IntegerFileLine.IntegerFileLine>,
             ghost pending': seq<Option<IntegerFileLine.IntegerFileLine>>)
    requires Refilling(comparator, ParseInt, streams, pos, pending, heap, pops, prev, out, ordered, f)
    ensures Merging(comparator, ParseInt, streams, pos', pending', heap', pops, prev, out, ordered)
    ensures |heap'| + Unread(streams, pos') <= |heap| + Unread(streams, pos)
    ensures Refilled(ParseInt, streams, pos, pending, heap, f, pos', pending', heap')
  {
    var q := NextIntegerLine(streams[f], pos[f]);
    if q < |streams[f]| {
      var v := ParseInt(streams[f][q]).value;
      RefillFound(comparator, ParseInt, streams, pos, pending, heap, pops, prev, out, ordered, f, q, v);
      var line := IntegerFileLine.New(f, v);
      heap' := heap + multiset{line};
      pending' := pending[f := Some(line)];
      pos' := pos[f := q + 1];
    } else {
      RefillNone(comparator, ParseInt, streams, pos, pending, heap, pops, prev, out, ordered, f);
      pos', heap', pending' := pos[f := |streams[f]|], heap, pending;
    }
  }

  // ---------------------------------------------------------------------
  // An ascending integer run on two streams

  const DropStreams: seq<seq<string>> := [["1", "2", "3"], ["5", "1", "9"]]

  /** The order in which the heap hands out the elements of `DropStreams`. */
  const DropPolls: seq<IntegerFileLine.IntegerFileLine> :=
    [FileLine(0, 1), FileLine(0, 2), FileLine(0, 3), FileLine(1, 5), FileLine(1, 1), FileLine(1, 9)]

  /** `sortForIntegers` on `[1, 2, 3]` and `[5, 1, 9]`, ascending: the late
      1 is dropped, so 1, 2, 3, 5, 9 is written. */
  method DropExample() returns (r: Result<seq<int32>, MergeError>)
    ensures r == Success([1, 2, 3, 5, 9])
  {
    ghost var pops;
    r, pops := SortForIntegers(DropStreams, true);
    DropPops(pops);
    DropWritten();
  }

  lemma DropElements()
    ensures Elements(ParseInt, 0, DropStreams[0]) == DropPolls[..3]
    ensures Elements(ParseInt, 1, DropStreams[1]) == DropPolls[3..]
  {
    assert Accumulate("1", 1, -1, -MAX_VALUE) == Some(-1);
    assert Accumulate("2", 1, -2, -MAX_VALUE) == Some(-2);
    assert Accumulate("3", 1, -3, -MAX_VALUE) == Some(-3);
    assert Accumulate("5", 1, -5, -MAX_VALUE) == Some(-5);
    assert Accumulate("9", 1, -9, -MAX_VALUE) == Some(-9);
    assert ParseInt("1") == Some(1) && ParseInt("2") == Some(2) && ParseInt("3") == Some(3);
    assert ParseInt("5") == Some(5) && ParseInt("9") == Some(9);
    var a, b := DropStreams[0], DropStreams[1];
    assert a[1..] == ["2", "3"] && a[1..][1..] == ["3"] && a[1..][1..][1..] == [];
    assert b[1..] == ["1", "9"] && b[1..][1..] == ["9"] && b[1..][1..][1..] == [];
  }

  /** What the first `i` polls took from each stream. */
  lemma {:induction false} DropPrefix(i: nat)
    requires i <= 6
    ensures FromStream(DropPolls[..i], 0) == DropPolls[..if i < 3 then i else 3]
    ensures FromStream(DropPolls[..i], 1) == DropPolls[3..if i < 3 then 3 else i]
  {
    if i > 0 {
      DropPrefix(i - 1);
      assert DropPolls[..i][..i - 1] == DropPolls[..i - 1];
      if i <= 3 {
        assert DropPolls[..i - 1] + [DropPolls[i - 1]] == DropPolls[..i];
      } else {
        assert DropPolls[3..i - 1] + [DropPolls[i - 1]] == DropPolls[3..i];
      }
    }
  }

  /** Poll `i` is determined by the ones before it: the two streams' next
      elements never tie. */
  lemma DropStep(pops: seq<IntegerFileLine.IntegerFileLine>, i: nat)
    requires Covers(ParseInt, DropStreams, pops) && GreedyPops(IntegerOrder(true), ParseInt, DropStreams, pops)
    requires i < 6 && i <= |pops| && pops[..i] == DropPolls[..i]
    ensures i < |pops| && pops[..i + 1] == DropPolls[..i + 1]
  {
    DropElements();
    DropPrefix(i);
    if i < 3 {
      DropFirst(pops, i);
    } else {
      DropSecond(pops, i);
    }
    TakeOneMore(pops, i);
    TakeOneMore(DropPolls, i);
  }

  /** While the first stream lasts, its next element comes before 5. */
  lemma DropFirst(pops: seq<IntegerFileLine.IntegerFileLine>, i: nat)
    requires Covers(ParseInt, DropStreams, pops) && GreedyPops(IntegerOrder(true), ParseInt, DropStreams, pops)
    requires i < 3 && i <= |pops|
    requires Elements(ParseInt, 0, DropStreams[0]) == DropPolls[..3]
    requires Elements(ParseInt, 1, DropStreams[1]) == DropPolls[3..]
    requires FromStream(pops[..i], 0) == DropPolls[..i] && FromStream(pops[..i], 1) == []
    ensures i < |pops| && pops[i] == DropPolls[i]
  {
    GreedyMore(ParseInt, DropStreams, pops, i, 0);
    assert IntegerOrder(true)(DropPolls[3], DropPolls[i]) > 0;
    GreedyUnique(IntegerOrder(true), ParseInt, DropStreams, pops, i, 0);
  }

  /** Then the second stream hands out the rest. */
  lemma DropSecond(pops: seq<IntegerFileLine.IntegerFileLine>, i: nat)
    requires Covers(ParseInt, DropStreams, pops) && GreedyPops(IntegerOrder(true), ParseInt, DropStreams, pops)
    requires 3 <= i < 6 && i <= |pops|
    requires Elements(ParseInt, 0, DropStreams[0]) == DropPolls[..3]
    requires Elements(ParseInt, 1, DropStreams[1]) == DropPolls[3..]
    requires FromStream(pops[..i], 0) == DropPolls[..3] && FromStream(pops[..i], 1) == DropPolls[3..i]
    ensures i < |pops| && pops[i] == DropPolls[i]
  {
    var done := pops[..i];
    assert |FromStream(done, 0)| == |Elements(ParseInt, 0, DropStreams[0])|;
    assert |FromStream(done, 1)| == i - 3;
    GreedyMore(ParseInt, DropStreams, pops, i, 1);
    GreedyUnique(IntegerOrder(true), ParseInt, DropStreams, pops, i, 1);
    assert DropPolls[3..][i - 3] == DropPolls[i];
  }

  lemma TakeOneMore<T>(s: seq<T>, i: nat)
    requires i < |s|
    ensures s[..i + 1] == s[..i] + [s[i]]
  {
  }

  lemma {:induction false} DropSteps(pops: seq<IntegerFileLine.IntegerFileLine>, n: nat)
    requires Covers(ParseInt, DropStreams, pops) && GreedyPops(IntegerOrder(true), ParseInt, DropStreams, pops)
    requires n <= 6
    ensures n <= |pops| && pops[..n] == DropPolls[..n]
  {
    if n > 0 {
      DropSteps(pops, n - 1);
      DropStep(pops, n - 1);
    }
  }

  /** The polls of a merge of `DropStreams` are `DropPolls`. */
  lemma DropPops(pops: seq<IntegerFileLine.IntegerFileLine>)
    requires Covers(ParseInt, DropStreams, pops) && GreedyPops(IntegerOrder(true), ParseInt, DropStreams, pops)
    ensures pops == DropPolls
  {
    DropSteps(pops, 6);
    DropElements();
    DropPrefix(6);
    GreedyLength(IntegerOrder(true), ParseInt, DropStreams, pops, 6);
    assert pops == pops[..6];
  }

  /** The filter drops the late 1 of `DropPolls`. */
  lemma DropWritten()
    ensures Values(Emitted(IntegerOrder(true), DropPolls)) == [1, 2, 3, 5, 9]
  {
    var cmp := IntegerOrder(true);
    var pops := DropPolls;
    var written: seq<IntegerFileLine.IntegerFileLine> := [FileLine(0, 1), FileLine(0, 2), FileLine(0, 3), FileLine(1, 5)];
    var last: IntegerFileLine.IntegerFileLine := FileLine(1, 9);
    assert Emitted(cmp, pops[..1]) == written[..1] by {
      assert pops[..1][..0] == [];
    }
    assert Emitted(cmp, pops[..2]) == written[..2] by {
      assert pops[..2][..1] == pops[..1];
    }
    assert Emitted(cmp, pops[..3]) == written[..3] by {
      assert pops[..3][..2] == pops[..2];
    }
    assert Emitted(cmp, pops[..4]) == written by {
      assert pops[..4][..3] == pops[..3];
    }
    assert Emitted(cmp, pops[..5]) == written by {
      assert pops[..5][..4] == pops[..4];
    }
    assert Emitted(cmp, pops) == written + [last] by {
      assert pops[..5] == pops[..|pops| - 1];
    }
    ValuesAppend(written, [last]);
    assert Values([last]) == [9];
    assert Values(written) == [1, 2, 3, 5] by {
      ValuesAppend(written[..3], [FileLine(1, 5)]);
      ValuesAppend(written[..2], [FileLine(0, 3)]);
      ValuesAppend(written[..1], [FileLine(0, 2)]);
      assert Values(written[..1]) == [1];
      assert written[..3] + [FileLine(1, 5)] == written;
      assert written[..2] + [FileLine(0, 3)] == written[..3];
      assert written[..1] + [FileLine(0, 2)] == written[..2];
    }
  }

  // ---------------------------------------------------------------------
  // Strings

  /** In string mode every line is an element. */
  function EveryLine(s: string): Option<string> {
    Some(s)
  }

  /** Every line of every stream. */
  ghost function AllLines(streams: seq<seq<string>>): multiset<string> {
    if streams == [] then multiset{}
    else AllLines(streams[..|streams| - 1]) + multiset(streams[|streams| - 1])
  }

  lemma {:induction false} EveryLineParsed(lines: seq<string>)
    ensures Parsed(EveryLine, lines) == lines
  {
    if lines != [] {
      EveryLineParsed(lines[1..]);
    }
  }

  /** In string mode the parseable values are all the lines. */
  lemma {:induction false} EveryLineAll(streams: seq<seq<string>>)
    ensures AllParsed(EveryLine, streams) == AllLines(streams)
  {
    if streams != [] {
      EveryLineAll(streams[..|streams| - 1]);
      EveryLineParsed(streams[|streams| - 1]);
    }
  }

  /** Every stream is in the run's lexicographic direction. */
  ghost predicate StringStreamsInRunOrder(ascending: bool, streams: seq<seq<string>>) {
    forall j :: 0 <= j < |streams| ==> StringsInRunOrder(ascending, streams[j])
  }

  lemma StringStreamsOrdered(ascending: bool, streams: seq<seq<string>>)
    requires StringStreamsInRunOrder(ascending, streams)
    ensures StreamsOrdered(StringOrder(ascending), EveryLine, streams)
  {
    forall j | 0 <= j < |streams|
      ensures Monotone(StringOrder(ascending), Elements(EveryLine, j, streams[j]))
    {
      ElementsValues(EveryLine, j, streams[j]);
      EveryLineParsed(streams[j]);
      StringMonotone(ascending, Elements(EveryLine, j, streams[j]));
    }
  }

  /** What a merge of string streams writes, with `pops` as for integers.
      Every stream hands out all its lines, in line order, and nothing else
      is popped; each pop came first among the next elements of the
      streams; the output is the pops with the monotonicity filter applied,
      so it is in the run's lexicographic direction and holds only lines
      that were read; and when every stream is already in that direction,
      the output is all the lines. */
  ghost predicate StringMerge(streams: seq<seq<string>>, ascending: bool, out: seq<string>,
                              pops: seq<StringFileLine.StringFileLine>)
  {
    && Covers(EveryLine, streams, pops)
    && (forall j :: 0 <= j < |streams| ==> Values(FromStream(pops, j)) == streams[j])
    && GreedyPops(StringOrder(ascending), EveryLine, streams, pops)
    && multiset(Values(pops)) == AllLines(streams)
    && out == Values(Emitted(StringOrder(ascending), pops))
    && StringsInRunOrder(ascending, out)
    && multiset(out) <= AllLines(streams)
    && (StringStreamsInRunOrder(ascending, streams) ==>
          out == Values(pops) && multiset(out) == AllLines(streams))
  }

  /** `sortForStrings` as written: the priority queue is created as for
      integers, so without an input stream it fails the same way. */
  method SortForStrings(streams: seq<seq<string>>, ascendingSort: bool)
    returns (r: Result<seq<string>, MergeError>, ghost pops: seq<StringFileLine.StringFileLine>)
    ensures r.Failure? <==> |streams| == 0
    ensures r.Failure? ==> r.error == IllegalInitialCapacity
    ensures r.Success? ==> StringMerge(streams, ascendingSort, r.value, pops)
  {
    if |streams| == 0 {
      return Failure(IllegalInitialCapacity), [];
    }
    var out;
    out, pops := MergeStrings(streams, ascendingSort);
    r := Success(out);
  }

  /** The priming, merge and refill loops of `sortForStrings`; without a
      stream, nothing is written. */
  method MergeStrings(streams: seq<seq<string>>, ascendingSort: bool)
    returns (out: seq<string>, ghost pops: seq<StringFileLine.StringFileLine>)
    ensures StringMerge(streams, ascendingSort, out, pops)
    ensures |streams| == 0 ==> out == []
  {
    var comparator := StringOrder(ascendingSort);
    StringOrderIsTotalPreorder(ascendingSort);
    ghost var ordered := StringStreamsInRunOrder(ascendingSort, streams);
    if ordered {
      StringStreamsOrdered(ascendingSort, streams);
    }
    var heap: multiset<StringFileLine.StringFileLine> := multiset{};
    var pos: seq<nat> := seq(|streams|, _ => 0);
    ghost var pending: seq<Option<StringFileLine.StringFileLine>> := seq(|streams|, _ => None);
    PrimeStart(EveryLine, streams, pos, pending);

    var arrayNumber := 0;
    while arrayNumber < |streams|
      invariant Priming(EveryLine, streams, pos, pending, heap, arrayNumber)
    {
      if pos[arrayNumber] < |streams[arrayNumber]| {
        var line := streams[arrayNumber][pos[arrayNumber]];
        PrimePush(EveryLine, streams, pos, pending, heap, arrayNumber, line);
        heap := heap + multiset{StringFileLine.New(arrayNumber, line)};
        pending := pending[arrayNumber := Some(StringFileLine.New(arrayNumber, line))];
        pos := pos[arrayNumber := pos[arrayNumber] + 1];
      } else {
        PrimeExhausted(EveryLine, streams, pos, pending, heap, arrayNumber);
      }
      arrayNumber := arrayNumber + 1;
    }

    var prev: Option<StringFileLine.StringFileLine> := None;
    out, pops := [], [];
    PrimeDone(comparator, EveryLine, streams, pos, pending, heap, ordered);
    while heap != multiset{}
      invariant Merging(comparator, EveryLine, streams, pos, pending, heap, pops, prev, out, ordered)
      decreases |heap| + Unread(streams, pos)
    {
      ExtremeExists(comparator, heap);
      var e :| e in heap && IsExtreme(comparator, e, heap);
      var f := e.fileNumber;
      PopStep(comparator, EveryLine, streams, pos, pending, heap, pops, prev, out, ordered, e);
      if prev.None? || comparator(e, prev.value) >= 0 {
        prev := Some(e);
        out := out + [StringFileLine.GetValue(e)];
      }
      heap := heap - multiset{e};
      pending := pending[f := None];
      pops := pops + [e];
      pos, heap, pending := RefillStrings(comparator, streams, pos, heap, pending, pops, prev, out, ordered, f);
    }

    StringMergeEnd(streams, ascendingSort, pos, pending, pops, prev, out, ordered);
  }

  /** The end of a string merge, once the heap is empty. */
  lemma StringMergeEnd(streams: seq<seq<string>>, ascending: bool, pos: seq<nat>,
                       pending: seq<Option<StringFileLine.StringFileLine>>, pops: seq<StringFileLine.StringFileLine>,
                       prev: Option<StringFileLine.StringFileLine>, out: seq<string>, ordered: bool)
    requires Merging(StringOrder(ascending), EveryLine, streams, pos, pending, multiset{}, pops, prev, out, ordered)
    requires ordered == StringStreamsInRunOrder(ascending, streams)
    ensures StringMerge(streams, ascending, out, pops)
    ensures |streams| == 0 ==> out == []
  {
    MergeEnd(StringOrder(ascending), EveryLine, streams, pos, pending, pops, prev, out, ordered);
    StringMonotone(ascending, Emitted(StringOrder(ascending), pops));
    EveryLineAll(streams);
    forall j | 0 <= j < |streams|
      ensures Values(FromStream(pops, j)) == streams[j]
    {
      ElementsValues(EveryLine, j, streams[j]);
      EveryLineParsed(streams[j]);
    }
  }

  /** The refill after a poll from stream `f`: its next line, if any,
      fills the stream's slot. No other stream is touched. */
  method RefillStrings(ghost comparator: Comparator<string>, streams: seq<seq<string>>, pos: seq<nat>,
                       heap: multiset<StringFileLine.StringFileLine>,
                       ghost pending: seq<Option<StringFileLine.StringFileLine>>,
                       ghost pops: seq<StringFileLine.StringFileLine>, ghost prev: Option<StringFileLine.StringFileLine>,
                       ghost out: seq<string>, ghost ordered: bool, f: nat)
    returns (pos': seq<nat>, heap': multiset<StringFileLine.StringFileLine>,
             ghost pending': seq<Option<StringFileLine.StringFileLine>>)
    requires Refilling(comparator, EveryLine, streams, pos, pending, heap, pops, prev, out, ordered, f)
    ensures Merging(comparator, EveryLine, streams, pos', pending', heap', pops, prev, out, ordered)
    ensures |heap'| + Unread(streams, pos') <= |heap| + Unread(streams, pos)
    ensures |pos'| == |streams|
    ensures pending'[f].None? ==> pos'[f] == pos[f] == |streams[f]|
    ensures pending'[f].Some? ==>
              pos[f] < |streams[f]| && pos'[f] == pos[f] + 1 && pending'[f] == Some(StringFileLine.New(f, streams[f][pos[f]]))
    ensures forall j :: 0 <= j < |streams| && j != f ==> pos'[j] == pos[j] && pending'[j] == pending[j]
    ensures heap' == heap + multiset(Opt(pending'[f]))
  {
    if pos[f] < |streams[f]| {
      var line := streams[f][pos[f]];
      RefillPush(comparator, EveryLine, streams, pos, pending, heap, pops, prev, out, ordered, f, line);
      heap' := heap + multiset{StringFileLine.New(f, line)};
      pending' := pending[f := Some(StringFileLine.New(f, line))];
      pos' := pos[f := pos[f] + 1];
    } else {
      RefillExhausted(comparator, EveryLine, streams, pos, pending, heap, pops, prev, out, ordered, f);
      pos', heap', pending' := pos, heap, pending;
    }
  }

  // ---------------------------------------------------------------------
  // Merging a run's own output again

  /** The lines `println(int)` writes for `out`, one value per line. */
  function Texts(out: seq<int32>): (lines: seq<string>)
    ensures |lines| == |out|
  {
    if out == [] then [] else [ToString(out[0])] + Texts(out[1..])
  }

  /** Reading the written lines back gives the written values. */
  lemma {:induction false} ParsedTexts(out: seq<int32>)
    ensures Parsed(ParseInt, Texts(out)) == out
  {
    if out != [] {
      ParseToString(out[0]);
      ParsedTexts(out[1..]);
      assert Texts(out)[1..] == Texts(out[1..]);
    }
  }

  /** A single integer stream already in the run's direction is written
      back in full. */
  lemma IntegerSingle(lines: seq<string>, ascending: bool, out: seq<int32>,
                      pops: seq<IntegerFileLine.IntegerFileLine>)
    requires IntegerMerge([lines], ascending, out, pops)
    requires InRunOrder(ascending, Parsed(ParseInt, lines))
    ensures out == Parsed(ParseInt, lines)
  {
    OneStream(ParseInt, lines, pops);
    ElementsValues(ParseInt, 0, lines);
    assert IntegerStreamsInRunOrder(ascending, [lines]);
  }

  /** Merging the output of an integer run, as the only input file, in the
      same direction writes that output again. */
  lemma IntegerIdempotent(streams: seq<seq<string>>, ascending: bool, out: seq<int32>,
                          pops: seq<IntegerFileLine.IntegerFileLine>,
                          out2: seq<int32>, pops2: seq<IntegerFileLine.IntegerFileLine>)
    requires IntegerMerge(streams, ascending, out, pops)
    requires IntegerMerge([Texts(out)], ascending, out2, pops2)
    ensures out2 == out
  {
    ParsedTexts(out);
    IntegerSingle(Texts(out), ascending, out2, pops2);
  }

  /** A single string stream already in the run's direction is written
      back in full. */
  lemma StringSingle(lines: seq<string>, ascending: bool, out: seq<string>,
                     pops: seq<StringFileLine.StringFileLine>)
    requires StringMerge([lines], ascending, out, pops)
    requires StringsInRunOrder(ascending, lines)
    ensures out == lines
  {
    OneStream(EveryLine, lines, pops);
    ElementsValues(EveryLine, 0, lines);
    EveryLineParsed(lines);
    assert StringStreamsInRunOrder(ascending, [lines]);
  }

  /** Merging the output of a string run, as the only input file, in the
      same direction writes that output again. */
  lemma StringIdempotent(streams: seq<seq<string>>, ascending: bool, out: seq<string>,
                         pops: seq<StringFileLine.StringFileLine>,
                         out2: seq<string>, pops2: seq<StringFileLine.StringFileLine>)
    requires StringMerge(streams, ascending, out, pops)
    requires StringMerge([out], ascending, out2, pops2)
    ensures out2 == out
  {
    StringSingle(out, ascending, out2, pops2);
  }

  // ---------------------------------------------------------------------
  // No input stream

  /** With no input stream, both sort methods fail when they create the
      queue, while the merge they wrap writes nothing and fails on nothing. */
  method NoStreamsExample()
    returns (ints: Result<seq<int32>, MergeError>, texts: Result<seq<string>, MergeError>,
             mergedInts: seq<int32>, mergedTexts: seq<string>)
    ensures ints == Failure(IllegalInitialCapacity) && texts == Failure(IllegalInitialCapacity)
    ensures mergedInts == [] && mergedTexts == []
  {
    ghost var pops;
    ghost var stringPops;
    ints, pops := SortForIntegers([], true);
    texts, stringPops := SortForStrings([], true);
    mergedInts, pops := MergeIntegers([], true);
    mergedTexts, stringPops := MergeStrings([], true);
  }
}
