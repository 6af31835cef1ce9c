/** The specification side of the k-way merge, for either element type.

    A run reads `streams` (one sequence of lines per input file) and keeps,
    for each stream, a read position and at most one pending element in the
    heap. `pops` is the sequence of elements the heap has handed out so
    far; what is written is `Emitted(cmp, pops)`, the monotonicity filter
    applied to it. `parse` says which lines become elements (for strings,
    every line does). */
module MergeSpec {
  import opened Wrappers
  import opened FileLines
  import opened Comparators

  type Comparator<!V> = (FileLine<V>, FileLine<V>) -> int

  // ---------------------------------------------------------------------
  // What a stream contributes

  /** The elements stream `j` contributes, in line order: every line that
      `parse` accepts, tagged with `j`. */
  function Elements<V>(parse: string -> Option<V>, j: nat, lines: seq<string>): (es: seq<FileLine<V>>)
    ensures |es| <= |lines|
    ensures forall i :: 0 <= i < |es| ==> es[i].fileNumber == j
  {
    if lines == [] then []
    else
      var rest := Elements(parse, j, lines[1..]);
      match parse(lines[0])
      case Some(v) => [FileLine(j, v)] + rest
      case None => rest
  }

  /** The values of the lines that `parse` accepts, in line order. */
  function Parsed<V>(parse: string -> Option<V>, lines: seq<string>): seq<V> {
    if lines == [] then []
    else
      match parse(lines[0])
      case Some(v) => [v] + Parsed(parse, lines[1..])
      case None => Parsed(parse, lines[1..])
  }

  /** The values of all parseable lines of all streams. */
  ghost function AllParsed<V>(parse: string -> Option<V>, streams: seq<seq<string>>): multiset<V> {
    if streams == [] then multiset{}
    else AllParsed(parse, streams[..|streams| - 1]) + multiset(Parsed(parse, streams[|streams| - 1]))
  }

  /** The values of a sequence of elements, in order. */
  function Values<V>(s: seq<FileLine<V>>): (vs: seq<V>)
    ensures |vs| == |s|
  {
    if s == [] then [] else Values(s[..|s| - 1]) + [s[|s| - 1].value]
  }

  /** The elements of `s` that came from stream `j`, in order. */
  function FromStream<V>(s: seq<FileLine<V>>, j: nat): seq<FileLine<V>> {
    if s == [] then []
    else FromStream(s[..|s| - 1], j) + (if s[|s| - 1].fileNumber == j then [s[|s| - 1]] else [])
  }

  function LastOf<T>(s: seq<T>): Option<T> {
    if s == [] then None else Some(s[|s| - 1])
  }

  function Opt<T>(o: Option<T>): seq<T> {
    if o.Some? then [o.value] else []
  }

  lemma {:induction false} ElementsValues<V>(parse: string -> Option<V>, j: nat, lines: seq<string>)
    ensures Values(Elements(parse, j, lines)) == Parsed(parse, lines)
  {
    if lines != [] {
      ElementsValues(parse, j, lines[1..]);
      var rest := Elements(parse, j, lines[1..]);
      match parse(lines[0])
      case Some(v) =>
        ValuesCons(FileLine(j, v), rest);
      case None =>
    }
  }

  /** Reading line `p` moves its element, if it parses, out of the unread part. */
  lemma ElementsAt<V>(parse: string -> Option<V>, j: nat, lines: seq<string>, p: nat)
    requires p < |lines|
    ensures Elements(parse, j, lines[p..])
         == (match parse(lines[p]) case Some(v) => [FileLine(j, v)] case None => [])
            + Elements(parse, j, lines[p + 1..])
  {
    assert lines[p..][1..] == lines[p + 1..];
  }

  lemma {:induction false} ValuesAt<V>(s: seq<FileLine<V>>, i: nat)
    requires i < |s|
    ensures Values(s)[i] == s[i].value
  {
    if i < |s| - 1 {
      ValuesAt(s[..|s| - 1], i);
    }
  }

  lemma {:induction false} ValuesAppend<V>(a: seq<FileLine<V>>, b: seq<FileLine<V>>)
    ensures Values(a + b) == Values(a) + Values(b)
  {
    if b != [] {
      var b' := b[..|b| - 1];
      assert (a + b)[..|a + b| - 1] == a + b';
      ValuesAppend(a, b');
    } else {
      assert a + b == a;
    }
  }

  lemma FromStreamAppend<V>(s: seq<FileLine<V>>, x: FileLine<V>, j: nat)
    ensures FromStream(s + [x], j) == FromStream(s, j) + (if x.fileNumber == j then [x] else [])
  {
    assert (s + [x])[..|s|] == s;
  }

  /** A sequence whose elements all came from stream `j` is its own
      part from `j`. */
  lemma {:induction false} FromStreamAll<V>(s: seq<FileLine<V>>, j: nat)
    requires forall i :: 0 <= i < |s| ==> s[i].fileNumber == j
    ensures FromStream(s, j) == s
  {
    if s != [] {
      FromStreamAll(s[..|s| - 1], j);
    }
  }

  lemma ValuesCons<V>(x: FileLine<V>, s: seq<FileLine<V>>)
    ensures Values([x] + s) == [x.value] + Values(s)
  {
    ValuesAppend([x], s);
    assert Values([x]) == [x.value];
  }

  /** Appending one element adds its value to the bag of values. */
  lemma ValuesBagAppend<V>(s: seq<FileLine<V>>, x: FileLine<V>)
    ensures multiset(Values(s + [x])) == multiset(Values(s)) + multiset{x.value}
  {
    ValuesAppend(s, [x]);
    assert Values([x]) == [x.value];
  }

  // ---------------------------------------------------------------------
  // The monotonicity filter

  /** A popped element is written when nothing has been written yet or it
      does not regress the last written element: `compare(e, prev) >= 0`. */
  predicate Accepts<V>(cmp: Comparator<V>, prev: Option<FileLine<V>>, e: FileLine<V>) {
    prev.None? || cmp(e, prev.value) >= 0
  }

  /** The elements written for the popped sequence `pops`. */
  function Emitted<V>(cmp: Comparator<V>, pops: seq<FileLine<V>>): seq<FileLine<V>> {
    if pops == [] then []
    else
      var written := Emitted(cmp, pops[..|pops| - 1]);
      var e := pops[|pops| - 1];
      if Accepts(cmp, LastOf(written), e) then written + [e] else written
  }

  /** Each element follows its predecessor in the run order. */
  ghost predicate Monotone<V>(cmp: Comparator<V>, s: seq<FileLine<V>>) {
    forall i :: 0 < i < |s| ==> cmp(s[i], s[i - 1]) >= 0
  }

  /** Popping `e` writes it, and makes it the last written element, exactly
      when it is accepted; otherwise nothing changes. */
  lemma EmittedAppend<V>(cmp: Comparator<V>, pops: seq<FileLine<V>>, e: FileLine<V>)
    ensures Emitted(cmp, pops + [e])
         == if Accepts(cmp, LastOf(Emitted(cmp, pops)), e) then Emitted(cmp, pops) + [e] else Emitted(cmp, pops)
  {
    assert (pops + [e])[..|pops|] == pops;
  }

  /** Whatever is popped, what is written is monotone. */
  lemma {:induction false} EmittedMonotone<V>(cmp: Comparator<V>, pops: seq<FileLine<V>>)
    ensures Monotone(cmp, Emitted(cmp, pops))
  {
    if pops != [] {
      EmittedMonotone(cmp, pops[..|pops| - 1]);
    }
  }

  /** A monotone pop sequence is written in full: the filter drops nothing. */
  lemma {:induction false} EmittedOfMonotone<V>(cmp: Comparator<V>, pops: seq<FileLine<V>>)
    requires Monotone(cmp, pops)
    ensures Emitted(cmp, pops) == pops
  {
    if pops != [] {
      var init := pops[..|pops| - 1];
      assert Monotone(cmp, init);
      EmittedOfMonotone(cmp, init);
      assert pops == init + [pops[|pops| - 1]];
    }
  }

  /** The filter only drops: every written value was popped. */
  lemma {:induction false} EmittedIncluded<V>(cmp: Comparator<V>, pops: seq<FileLine<V>>)
    ensures multiset(Values(Emitted(cmp, pops))) <= multiset(Values(pops))
  {
    if pops != [] {
      var init, e := pops[..|pops| - 1], pops[|pops| - 1];
      var written := Emitted(cmp, init);
      EmittedIncluded(cmp, init);
      assert multiset(Values(pops)) == multiset(Values(init)) + multiset{e.value};
      if Accepts(cmp, LastOf(written), e) {
        ValuesBagAppend(written, e);
      }
    }
  }

  // ---------------------------------------------------------------------
  // The heap

  /** `e` is a head the priority queue may return for `heap`: no element
      of the heap comes before it. */
  predicate IsExtreme<V(==)>(cmp: Comparator<V>, e: FileLine<V>, heap: multiset<FileLine<V>>) {
    forall x | x in heap :: cmp(e, x) <= 0
  }

  /** A non-empty heap has a head under a total preorder. */
  lemma {:induction false} ExtremeExists<V(!new)>(cmp: Comparator<V>, heap: multiset<FileLine<V>>)
    requires IsTotalPreorder(cmp) && heap != multiset{}
    ensures exists e :: e in heap && IsExtreme(cmp, e, heap)
    decreases |heap|
  {
    var x :| x in heap;
    var rest := heap - multiset{x};
    assert heap == rest + multiset{x};
    assert Sign(cmp(x, x)) == -Sign(cmp(x, x));
    if rest == multiset{} {
      assert IsExtreme(cmp, x, heap);
    } else {
      ExtremeExists(cmp, rest);
      var y :| y in rest && IsExtreme(cmp, y, rest);
      if cmp(x, y) <= 0 {
        forall z | z in heap
          ensures cmp(x, z) <= 0
        {
          if z != x {
            assert z in rest && cmp(y, z) <= 0;
          }
        }
        assert IsExtreme(cmp, x, heap);
      } else {
        assert Sign(cmp(y, x)) == -Sign(cmp(x, y));
        forall z | z in heap
          ensures cmp(y, z) <= 0
        {
          if z != x {
            assert z in rest;
          }
        }
        assert IsExtreme(cmp, y, heap);
      }
    }
  }

  /** The heap holds exactly the pending elements of the streams. */
  ghost function PendingBag<V>(pending: seq<Option<FileLine<V>>>): multiset<FileLine<V>> {
    if pending == [] then multiset{}
    else PendingBag(pending[..|pending| - 1]) + multiset(Opt(pending[|pending| - 1]))
  }

  /** Stream `j`'s pending element, if any, is tagged `j`. */
  ghost predicate Tagged<V>(pending: seq<Option<FileLine<V>>>) {
    forall j :: 0 <= j < |pending| && pending[j].Some? ==> pending[j].value.fileNumber == j
  }

  lemma {:induction false} PendingBagNone<V>(n: nat)
    ensures PendingBag<V>(seq(n, _ => None)) == multiset{}
  {
    if n > 0 {
      var p: seq<Option<FileLine<V>>> := seq(n, _ => None);
      assert p[..n - 1] == seq(n - 1, _ => None);
      PendingBagNone<V>(n - 1);
    }
  }

  lemma {:induction false} PendingBagContains<V>(pending: seq<Option<FileLine<V>>>, j: nat)
    requires j < |pending|
    ensures multiset(Opt(pending[j])) <= PendingBag(pending)
  {
    if j < |pending| - 1 {
      PendingBagContains(pending[..|pending| - 1], j);
    }
  }

  /** Two pending sequences that differ at most at `j` differ in the heap
      by exactly those two entries. */
  lemma {:induction false} PendingBagReplace<V>(p: seq<Option<FileLine<V>>>, q: seq<Option<FileLine<V>>>, j: nat)
    requires |p| == |q| && j < |p|
    requires forall i :: 0 <= i < |p| && i != j ==> p[i] == q[i]
    ensures PendingBag(q) + multiset(Opt(p[j])) == PendingBag(p) + multiset(Opt(q[j]))
  {
    var n := |p|;
    var pi, qi := p[..n - 1], q[..n - 1];
    if j == n - 1 {
      assert pi == qi;
    } else {
      PendingBagReplace(pi, qi, j);
      MultisetShift(PendingBag(qi), PendingBag(pi), multiset(Opt(p[j])), multiset(Opt(q[j])), multiset(Opt(p[n - 1])));
    }
  }

  /** Replacing one stream's pending element replaces it in the heap. */
  lemma PendingBagUpdate<V>(pending: seq<Option<FileLine<V>>>, j: nat, o: Option<FileLine<V>>)
    requires j < |pending|
    ensures PendingBag(pending[j := o]) + multiset(Opt(pending[j])) == PendingBag(pending) + multiset(Opt(o))
  {
    PendingBagReplace(pending, pending[j := o], j);
  }

  lemma MultisetShift<T>(x: multiset<T>, y: multiset<T>, a: multiset<T>, b: multiset<T>, c: multiset<T>)
    requires x + a == y + b
    ensures x + c + a == y + c + b
  {
    calc {
      x + c + a;
      x + a + c;
      y + b + c;
      y + c + b;
    }
  }

  /** At most one pending element per stream: the heap never holds more
      elements than there are streams. */
  lemma {:induction false} PendingBagSize<V>(pending: seq<Option<FileLine<V>>>)
    ensures |PendingBag(pending)| <= |pending|
  {
    if pending != [] {
      PendingBagSize(pending[..|pending| - 1]);
    }
  }

  /** An element of the heap is the pending element of the stream it is
      tagged with, so a poll can be traced back to its stream. */
  lemma {:induction false} PendingBagMember<V>(pending: seq<Option<FileLine<V>>>, x: FileLine<V>)
    requires Tagged(pending) && x in PendingBag(pending)
    ensures x.fileNumber < |pending| && pending[x.fileNumber] == Some(x)
  {
    var n := |pending|;
    if x !in multiset(Opt(pending[n - 1])) {
      PendingBagMember(pending[..n - 1], x);
    }
  }

  /** No element is in the heap twice: each stream has one slot. */
  lemma {:induction false} PendingBagSimple<V>(pending: seq<Option<FileLine<V>>>, x: FileLine<V>)
    requires Tagged(pending)
    ensures PendingBag(pending)[x] <= 1
  {
    if pending != [] {
      var n := |pending|;
      var init := pending[..n - 1];
      assert Tagged(init);
      PendingBagSimple(init, x);
      if x in multiset(Opt(pending[n - 1])) && x in PendingBag(init) {
        PendingBagMember(init, x);
        assert false;
      }
    }
  }

  lemma {:induction false} PendingBagEmpty<V>(pending: seq<Option<FileLine<V>>>)
    requires PendingBag(pending) == multiset{}
    ensures forall j :: 0 <= j < |pending| ==> pending[j] == None
  {
    if pending != [] {
      PendingBagEmpty(pending[..|pending| - 1]);
    }
  }

  // ---------------------------------------------------------------------
  // Read positions

  ghost predicate Positions(streams: seq<seq<string>>, pos: seq<nat>) {
    |pos| == |streams| && forall j :: 0 <= j < |streams| ==> pos[j] <= |streams[j]|
  }

  /** The number of lines not yet read. */
  ghost function Unread(streams: seq<seq<string>>, pos: seq<nat>): nat
    requires Positions(streams, pos)
  {
    if streams == [] then 0
    else
      var n := |streams| - 1;
      Unread(streams[..n], pos[..n]) + (|streams[n]| - pos[n])
  }

  /** Reading one line leaves one line fewer unread. */
  lemma {:induction false} UnreadAdvance(streams: seq<seq<string>>, pos: seq<nat>, f: nat)
    requires Positions(streams, pos) && f < |streams| && pos[f] < |streams[f]|
    ensures Positions(streams, pos[f := pos[f] + 1])
    ensures Unread(streams, pos[f := pos[f] + 1]) == Unread(streams, pos) - 1
  {
    var n := |streams| - 1;
    var pos' := pos[f := pos[f] + 1];
    if f == n {
      assert pos'[..n] == pos[..n];
    } else {
      assert pos'[..n] == pos[..n][f := pos[f] + 1];
      UnreadAdvance(streams[..n], pos[..n], f);
    }
  }

  // ---------------------------------------------------------------------
  // The state of a run

  /** Every element of stream `j` has been popped, is pending, or is still
      unread, and in that order. */
  ghost predicate Accounted<V>(parse: string -> Option<V>, streams: seq<seq<string>>, pos: seq<nat>,
                               pending: seq<Option<FileLine<V>>>, pops: seq<FileLine<V>>, j: int)
  {
    && 0 <= j < |streams| && |pos| == |streams| && |pending| == |streams| && pos[j] <= |streams[j]|
    && FromStream(pops, j) + Opt(pending[j]) + Elements(parse, j, streams[j][pos[j]..]) == Elements(parse, j, streams[j])
  }

  /** A stream without a pending element has nothing more to contribute. */
  ghost predicate Settled<V>(parse: string -> Option<V>, streams: seq<seq<string>>, pos: seq<nat>,
                             pending: seq<Option<FileLine<V>>>, j: int)
  {
    && 0 <= j < |streams| && |pos| == |streams| && |pending| == |streams| && pos[j] <= |streams[j]|
    && (pending[j].None? ==> Elements(parse, j, streams[j][pos[j]..]) == [])
  }

  /** The bookkeeping every state of a run keeps. */
  ghost predicate Consistent<V>(parse: string -> Option<V>, streams: seq<seq<string>>, pos: seq<nat>,
                                pending: seq<Option<FileLine<V>>>, heap: multiset<FileLine<V>>, pops: seq<FileLine<V>>)
  {
    && Positions(streams, pos) && |pending| == |streams| && Tagged(pending)
    && heap == PendingBag(pending)
    && (forall j :: 0 <= j < |streams| ==> Accounted(parse, streams, pos, pending, pops, j))
    && (forall i :: 0 <= i < |pops| ==> pops[i].fileNumber < |streams|)
  }

  /** Every input stream is already in the run order. */
  ghost predicate StreamsOrdered<V>(cmp: Comparator<V>, parse: string -> Option<V>, streams: seq<seq<string>>) {
    forall j :: 0 <= j < |streams| ==> Monotone(cmp, Elements(parse, j, streams[j]))
  }

  /** What a k-way merge of ordered streams keeps: the pops so far are
      monotone, and nothing in the heap comes before the last pop. */
  ghost predicate MergeOrdered<V>(cmp: Comparator<V>, heap: multiset<FileLine<V>>, pops: seq<FileLine<V>>) {
    && Monotone(cmp, pops)
    && (|pops| > 0 ==> forall x :: x in heap ==> cmp(pops[|pops| - 1], x) <= 0)
  }

  /** The state before anything is read. */
  lemma Initial<V>(parse: string -> Option<V>, streams: seq<seq<string>>)
    ensures Consistent<V>(parse, streams, seq(|streams|, _ => 0), seq(|streams|, _ => None), multiset{}, [])
  {
    PendingBagNone<V>(|streams|);
    var pos: seq<nat> := seq(|streams|, _ => 0);
    var pending: seq<Option<FileLine<V>>> := seq(|streams|, _ => None);
    forall j | 0 <= j < |streams|
      ensures Accounted(parse, streams, pos, pending, [], j)
    {
      assert streams[j][pos[j]..] == streams[j];
    }
  }

  /** Polling `e` takes it out of the heap and out of its stream's slot. */
  lemma PopHeap<V>(pending: seq<Option<FileLine<V>>>, heap: multiset<FileLine<V>>, e: FileLine<V>)
    requires Tagged(pending) && heap == PendingBag(pending) && e in heap
    ensures e.fileNumber < |pending| && pending[e.fileNumber] == Some(e)
    ensures Tagged(pending[e.fileNumber := None])
    ensures PendingBag(pending[e.fileNumber := None]) == heap - multiset{e}
  {
    var f := e.fileNumber;
    PendingBagMember(pending, e);
    PendingBagUpdate(pending, f, None);
    assert multiset(Opt(pending[f])) == multiset{e} && multiset(Opt<FileLine<V>>(None)) == multiset{};
    assert PendingBag(pending[f := None]) + multiset{e} == heap;
  }

  /** Moving `e` from its slot to the pops keeps each stream accounted for. */
  lemma PopAccounted<V>(parse: string -> Option<V>, streams: seq<seq<string>>, pos: seq<nat>,
                        pending: seq<Option<FileLine<V>>>, pops: seq<FileLine<V>>, e: FileLine<V>, j: int)
    requires Accounted(parse, streams, pos, pending, pops, j)
    requires e.fileNumber < |pending| && pending[e.fileNumber] == Some(e)
    ensures Accounted(parse, streams, pos, pending[e.fileNumber := None], pops + [e], j)
  {
    FromStreamAppend(pops, e, j);
  }

  /** Polling `e` from the heap: it was its stream's pending element, and
      is now the last pop. */
  lemma PopPreserves<V>(parse: string -> Option<V>, streams: seq<seq<string>>, pos: seq<nat>,
                        pending: seq<Option<FileLine<V>>>, heap: multiset<FileLine<V>>, pops: seq<FileLine<V>>,
                        e: FileLine<V>)
    requires Consistent(parse, streams, pos, pending, heap, pops) && e in heap
    ensures e.fileNumber < |streams| && pending[e.fileNumber] == Some(e)
    ensures Consistent(parse, streams, pos, pending[e.fileNumber := None], heap - multiset{e}, pops + [e])
    ensures forall j :: 0 <= j < |streams| && j != e.fileNumber && Settled(parse, streams, pos, pending, j)
                        ==> Settled(parse, streams, pos, pending[e.fileNumber := None], j)
  {
    PopHeap(pending, heap, e);
    var pending', pops' := pending[e.fileNumber := None], pops + [e];
    forall j | 0 <= j < |streams|
      ensures Accounted(parse, streams, pos, pending', pops', j)
    {
      PopAccounted(parse, streams, pos, pending, pops, e, j);
    }
    TagsAppend(pops, e, |streams|);
    PopSettled(parse, streams, pos, pending, e.fileNumber);
  }

  /** Every pop stays tagged with a stream index. */
  lemma TagsAppend<V>(pops: seq<FileLine<V>>, e: FileLine<V>, n: nat)
    requires (forall i :: 0 <= i < |pops| ==> pops[i].fileNumber < n) && e.fileNumber < n
    ensures forall i :: 0 <= i < |pops + [e]| ==> (pops + [e])[i].fileNumber < n
  {
  }

  /** Emptying one slot leaves the other streams' settlement as it was. */
  lemma PopSettled<V>(parse: string -> Option<V>, streams: seq<seq<string>>, pos: seq<nat>,
                      pending: seq<Option<FileLine<V>>>, f: nat)
    requires f < |pending|
    ensures forall j :: 0 <= j < |streams| && j != f && Settled(parse, streams, pos, pending, j)
                        ==> Settled(parse, streams, pos, pending[f := None], j)
  {
  }

  /** Reading a line that does not parse: it is dropped. */
  lemma SkipPreserves<V>(parse: string -> Option<V>, streams: seq<seq<string>>, pos: seq<nat>,
                         pending: seq<Option<FileLine<V>>>, heap: multiset<FileLine<V>>, pops: seq<FileLine<V>>,
                         f: nat)
    requires Consistent(parse, streams, pos, pending, heap, pops)
    requires f < |streams| && pending[f] == None && pos[f] < |streams[f]|
    requires parse(streams[f][pos[f]]).None?
    ensures Consistent(parse, streams, pos[f := pos[f] + 1], pending, heap, pops)
    ensures Unread(streams, pos[f := pos[f] + 1]) == Unread(streams, pos) - 1
    ensures forall j :: 0 <= j < |streams| && j != f && Settled(parse, streams, pos, pending, j)
                        ==> Settled(parse, streams, pos[f := pos[f] + 1], pending, j)
  {
    UnreadAdvance(streams, pos, f);
    ElementsAt(parse, f, streams[f], pos[f]);
    var pos' := pos[f := pos[f] + 1];
    forall j | 0 <= j < |streams|
      ensures Accounted(parse, streams, pos', pending, pops, j)
    {
      assert Accounted(parse, streams, pos, pending, pops, j);
    }
  }

  /** The element line `p` of a stream contributes, if it parses. */
  function ReadAt<V>(parse: string -> Option<V>, f: nat, line: string): Option<FileLine<V>> {
    match parse(line)
    case Some(v) => Some(FileLine(f, v))
    case None => None
  }

  /** Reading line `pos[f]` of stream `f`, with nothing pending there:
      the line's element, if it parses, becomes the pending one. */
  lemma ReadAccounted<V>(parse: string -> Option<V>, streams: seq<seq<string>>, pos: seq<nat>,
                         pending: seq<Option<FileLine<V>>>, pops: seq<FileLine<V>>, f: nat, j: int)
    requires Positions(streams, pos) && Accounted(parse, streams, pos, pending, pops, j)
    requires f < |streams| && pending[f] == None && pos[f] < |streams[f]|
    ensures Accounted(parse, streams, pos[f := pos[f] + 1], pending[f := ReadAt(parse, f, streams[f][pos[f]])], pops, j)
  {
    if j == f {
      ReadOwn(parse, streams[f], pos[f], FromStream(pops, f), f);
    }
  }

  lemma ReadOwn<V>(parse: string -> Option<V>, lines: seq<string>, p: nat, done: seq<FileLine<V>>, f: nat)
    requires p < |lines| && done + Elements(parse, f, lines[p..]) == Elements(parse, f, lines)
    ensures done + Opt(ReadAt(parse, f, lines[p])) + Elements(parse, f, lines[p + 1..]) == Elements(parse, f, lines)
  {
    ElementsAt(parse, f, lines, p);
  }

  /** Reading a line that parses: its element becomes the stream's pending
      element and joins the heap. */
  lemma PushPreserves<V>(parse: string -> Option<V>, streams: seq<seq<string>>, pos: seq<nat>,
                         pending: seq<Option<FileLine<V>>>, heap: multiset<FileLine<V>>, pops: seq<FileLine<V>>,
                         f: nat, v: V)
    requires Consistent(parse, streams, pos, pending, heap, pops)
    requires f < |streams| && pending[f] == None && pos[f] < |streams[f]|
    requires parse(streams[f][pos[f]]) == Some(v)
    ensures Consistent(parse, streams, pos[f := pos[f] + 1], pending[f := Some(FileLine(f, v))],
                       heap + multiset{FileLine(f, v)}, pops)
    ensures Unread(streams, pos[f := pos[f] + 1]) == Unread(streams, pos) - 1
    ensures forall j :: 0 <= j < |streams| && Settled(parse, streams, pos, pending, j)
                        ==> Settled(parse, streams, pos[f := pos[f] + 1], pending[f := Some(FileLine(f, v))], j)
  {
    UnreadAdvance(streams, pos, f);
    PushHeap(pending, heap, f, v);
    var pos', pending' := pos[f := pos[f] + 1], pending[f := Some(FileLine(f, v))];
    forall j | 0 <= j < |streams|
      ensures Accounted(parse, streams, pos', pending', pops, j)
    {
      ReadAccounted(parse, streams, pos, pending, pops, f, j);
    }
  }

  /** Filling an empty slot adds its element to the heap. */
  lemma PushHeap<V>(pending: seq<Option<FileLine<V>>>, heap: multiset<FileLine<V>>, f: nat, v: V)
    requires Tagged(pending) && heap == PendingBag(pending) && f < |pending| && pending[f] == None
    ensures Tagged(pending[f := Some(FileLine(f, v))])
    ensures PendingBag(pending[f := Some(FileLine(f, v))]) == heap + multiset{FileLine(f, v)}
  {
    PendingBagUpdate(pending, f, Some(FileLine(f, v)));
    assert multiset(Opt(pending[f])) == multiset{};
  }

  /** The heap holds at most one element per stream, each once. */
  lemma OnePerStream<V>(parse: string -> Option<V>, streams: seq<seq<string>>, pos: seq<nat>,
                        pending: seq<Option<FileLine<V>>>, heap: multiset<FileLine<V>>, pops: seq<FileLine<V>>)
    requires Consistent(parse, streams, pos, pending, heap, pops)
    ensures |heap| <= |streams|
    ensures forall x :: x in heap ==> x.fileNumber < |streams| && heap[x] == 1
    ensures forall x, y :: x in heap && y in heap && x.fileNumber == y.fileNumber ==> x == y
  {
    PendingBagSize(pending);
    forall x | x in heap
      ensures x.fileNumber < |streams| && heap[x] == 1
    {
      PendingBagMember(pending, x);
      PendingBagSimple(pending, x);
    }
    forall x, y | x in heap && y in heap && x.fileNumber == y.fileNumber
      ensures x == y
    {
      PendingBagMember(pending, x);
      PendingBagMember(pending, y);
    }
  }

  /** A stream read to its end is settled. */
  lemma ExhaustedSettled<V>(parse: string -> Option<V>, streams: seq<seq<string>>, pos: seq<nat>,
                            pending: seq<Option<FileLine<V>>>, f: nat)
    requires Positions(streams, pos) && |pending| == |streams| && f < |streams| && pos[f] == |streams[f]|
    ensures Settled(parse, streams, pos, pending, f)
  {
    assert streams[f][pos[f]..] == [];
  }

  /** Polling a head keeps a merge of ordered streams ordered. */
  lemma PopOrdered<V(!new)>(cmp: Comparator<V>, heap: multiset<FileLine<V>>, pops: seq<FileLine<V>>, e: FileLine<V>)
    requires IsTotalPreorder(cmp) && MergeOrdered(cmp, heap, pops)
    requires e in heap && IsExtreme(cmp, e, heap)
    ensures MergeOrdered(cmp, heap - multiset{e}, pops + [e])
  {
    if |pops| > 0 {
      assert Sign(cmp(e, pops[|pops| - 1])) == -Sign(cmp(pops[|pops| - 1], e));
    }
  }

  /** In an ordered stream, the element that refills the heap does not come
      before the one just polled from the same stream. */
  lemma RefillOrdered<V(!new)>(cmp: Comparator<V>, parse: string -> Option<V>, streams: seq<seq<string>>,
                               pos: seq<nat>, pending: seq<Option<FileLine<V>>>, heap: multiset<FileLine<V>>,
                               pops: seq<FileLine<V>>, f: nat, v: V)
    requires IsTotalPreorder(cmp) && StreamsOrdered(cmp, parse, streams)
    requires Consistent(parse, streams, pos, pending, heap, pops) && MergeOrdered(cmp, heap, pops)
    requires f < |streams| && pending[f] == None && pos[f] < |streams[f]|
    requires |pops| > 0 && pops[|pops| - 1].fileNumber == f
    requires parse(streams[f][pos[f]]) == Some(v)
    ensures MergeOrdered(cmp, heap + multiset{FileLine(f, v)}, pops)
  {
    var last := pops[|pops| - 1];
    var done := FromStream(pops, f);
    assert pops == pops[..|pops| - 1] + [last];
    FromStreamAppend(pops[..|pops| - 1], last, f);
    assert done[|done| - 1] == last;
    ElementsAt(parse, f, streams[f], pos[f]);
    assert Accounted(parse, streams, pos, pending, pops, f);
    var all := Elements(parse, f, streams[f]);
    assert all[|done|] == FileLine(f, v) && all[|done| - 1] == last;
    assert cmp(FileLine(f, v), last) >= 0;
    assert Sign(cmp(last, FileLine(f, v))) == -Sign(cmp(FileLine(f, v), last));
  }

  // ---------------------------------------------------------------------
  // The end of a run

  /** Once the heap is empty, every stream has handed all its elements to
      the pops. */
  lemma Drained<V>(parse: string -> Option<V>, streams: seq<seq<string>>, pos: seq<nat>,
                   pending: seq<Option<FileLine<V>>>, pops: seq<FileLine<V>>)
    requires Consistent(parse, streams, pos, pending, multiset{}, pops)
    requires forall j :: 0 <= j < |streams| ==> Settled(parse, streams, pos, pending, j)
    ensures forall j :: 0 <= j < |streams| ==> FromStream(pops, j) == Elements(parse, j, streams[j])
  {
    PendingBagEmpty(pending);
    forall j | 0 <= j < |streams|
      ensures FromStream(pops, j) == Elements(parse, j, streams[j])
    {
      assert Accounted(parse, streams, pos, pending, pops, j) && Settled(parse, streams, pos, pending, j);
    }
  }

  // ---------------------------------------------------------------------
  // Which element is polled

  /** `e`, polled once `done` has been popped, comes first among the next
      elements of the streams: no stream that still has an element to hand
      out would hand out one that comes before `e`. */
  ghost predicate PolledFirst<V>(cmp: Comparator<V>, parse: string -> Option<V>, streams: seq<seq<string>>,
                                 done: seq<FileLine<V>>, e: FileLine<V>)
  {
    forall j :: 0 <= j < |streams| && |FromStream(done, j)| < |Elements(parse, j, streams[j])| ==>
      cmp(e, Elements(parse, j, streams[j])[|FromStream(done, j)|]) <= 0
  }

  /** Every pop came first, in the sense above, when it was polled. */
  ghost predicate GreedyPops<V>(cmp: Comparator<V>, parse: string -> Option<V>, streams: seq<seq<string>>,
                                pops: seq<FileLine<V>>)
  {
    forall i :: 0 <= i < |pops| ==> PolledFirst(cmp, parse, streams, pops[..i], pops[i])
  }

  /** A run that is over: every stream has handed out exactly its
      elements, and nothing was popped that no stream handed out. */
  ghost predicate Covers<V>(parse: string -> Option<V>, streams: seq<seq<string>>, pops: seq<FileLine<V>>) {
    && (forall j :: 0 <= j < |streams| ==> FromStream(pops, j) == Elements(parse, j, streams[j]))
    && (forall i :: 0 <= i < |pops| ==> pops[i].fileNumber < |streams|)
  }

  /** With a single stream, the pops are exactly that stream's elements. */
  lemma OneStream<V>(parse: string -> Option<V>, lines: seq<string>, pops: seq<FileLine<V>>)
    requires Covers(parse, [lines], pops)
    ensures pops == Elements(parse, 0, lines)
  {
    FromStreamAll(pops, 0);
  }

  /** A head of the heap comes first among the streams' next elements: the
      heap holds the next element of every stream that has one left. */
  lemma HeadPolledFirst<V>(cmp: Comparator<V>, parse: string -> Option<V>, streams: seq<seq<string>>,
                           pos: seq<nat>, pending: seq<Option<FileLine<V>>>, heap: multiset<FileLine<V>>,
                           pops: seq<FileLine<V>>, e: FileLine<V>)
    requires Consistent(parse, streams, pos, pending, heap, pops)
    requires forall j :: 0 <= j < |streams| ==> Settled(parse, streams, pos, pending, j)
    requires IsExtreme(cmp, e, heap)
    ensures PolledFirst(cmp, parse, streams, pops, e)
  {
    forall j | 0 <= j < |streams| && |FromStream(pops, j)| < |Elements(parse, j, streams[j])|
      ensures cmp(e, Elements(parse, j, streams[j])[|FromStream(pops, j)|]) <= 0
    {
      assert Accounted(parse, streams, pos, pending, pops, j) && Settled(parse, streams, pos, pending, j);
      if pending[j].Some? {
        PendingBagContains(pending, j);
        assert pending[j].value in heap;
        assert Elements(parse, j, streams[j])[|FromStream(pops, j)|] == pending[j].value;
      }
    }
  }

  lemma GreedyAppend<V>(cmp: Comparator<V>, parse: string -> Option<V>, streams: seq<seq<string>>,
                        pops: seq<FileLine<V>>, e: FileLine<V>)
    requires GreedyPops(cmp, parse, streams, pops) && PolledFirst(cmp, parse, streams, pops, e)
    ensures GreedyPops(cmp, parse, streams, pops + [e])
  {
    var pops' := pops + [e];
    forall i | 0 <= i < |pops'|
      ensures PolledFirst(cmp, parse, streams, pops'[..i], pops'[i])
    {
      if i < |pops| {
        assert pops'[..i] == pops[..i];
      } else {
        assert pops'[..i] == pops;
      }
    }
  }

  /** What a prefix of `s` took from stream `j` is a prefix of what `s`
      took from it. */
  lemma {:induction false} FromStreamPrefix<V>(s: seq<FileLine<V>>, k: nat, j: nat)
    requires k <= |s|
    ensures FromStream(s[..k], j) <= FromStream(s, j)
  {
    if k < |s| {
      FromStreamPrefix(s[..|s| - 1], k, j);
      assert s[..|s| - 1][..k] == s[..k];
    } else {
      assert s[..k] == s;
    }
  }

  /** In a run that is over, the `i`th pop is the next element of its own
      stream at that point, and came first. */
  lemma GreedyNext<V>(cmp: Comparator<V>, parse: string -> Option<V>, streams: seq<seq<string>>,
                      pops: seq<FileLine<V>>, i: nat)
    requires Covers(parse, streams, pops) && GreedyPops(cmp, parse, streams, pops) && i < |pops|
    ensures pops[i].fileNumber < |streams|
    ensures |FromStream(pops[..i], pops[i].fileNumber)| < |Elements(parse, pops[i].fileNumber, streams[pops[i].fileNumber])|
    ensures Elements(parse, pops[i].fileNumber, streams[pops[i].fileNumber])[|FromStream(pops[..i], pops[i].fileNumber)|] == pops[i]
    ensures PolledFirst(cmp, parse, streams, pops[..i], pops[i])
  {
    var j := pops[i].fileNumber;
    FromStreamPrefix(pops, i + 1, j);
    assert pops[..i + 1][..i] == pops[..i];
    assert FromStream(pops[..i + 1], j) == FromStream(pops[..i], j) + [pops[i]];
  }

  /** The poll is determined when one stream's next element comes strictly
      before every other stream's: the `i`th pop is that element. */
  lemma GreedyUnique<V>(cmp: Comparator<V>, parse: string -> Option<V>, streams: seq<seq<string>>,
                        pops: seq<FileLine<V>>, i: nat, j: nat)
    requires Covers(parse, streams, pops) && GreedyPops(cmp, parse, streams, pops) && i < |pops|
    requires j < |streams| && |FromStream(pops[..i], j)| < |Elements(parse, j, streams[j])|
    requires forall l :: 0 <= l < |streams| && l != j && |FromStream(pops[..i], l)| < |Elements(parse, l, streams[l])| ==>
               cmp(Elements(parse, l, streams[l])[|FromStream(pops[..i], l)|],
                   Elements(parse, j, streams[j])[|FromStream(pops[..i], j)|]) > 0
    ensures pops[i] == Elements(parse, j, streams[j])[|FromStream(pops[..i], j)|]
  {
    GreedyNext(cmp, parse, streams, pops, i);
  }

  /** A run that is over pops again while a stream has an element left... */
  lemma GreedyMore<V>(parse: string -> Option<V>, streams: seq<seq<string>>, pops: seq<FileLine<V>>, i: nat, j: nat)
    requires Covers(parse, streams, pops) && i <= |pops| && j < |streams|
    requires |FromStream(pops[..i], j)| < |Elements(parse, j, streams[j])|
    ensures i < |pops|
  {
    assert pops[..|pops|] == pops;
  }

  /** ... and stops once every stream has handed out all its elements. */
  lemma GreedyLength<V>(cmp: Comparator<V>, parse: string -> Option<V>, streams: seq<seq<string>>,
                        pops: seq<FileLine<V>>, i: nat)
    requires Covers(parse, streams, pops) && GreedyPops(cmp, parse, streams, pops) && i <= |pops|
    requires forall j :: 0 <= j < |streams| ==> |FromStream(pops[..i], j)| == |Elements(parse, j, streams[j])|
    ensures |pops| == i
  {
    if i < |pops| {
      GreedyNext(cmp, parse, streams, pops, i);
    }
  }

  /** The values that stream `j` contributed to `s`, as a bag. */
  ghost function StreamBag<V>(s: seq<FileLine<V>>, j: nat): multiset<V> {
    multiset(Values(FromStream(s, j)))
  }

  lemma FromStreamValuesAppend<V>(s: seq<FileLine<V>>, x: FileLine<V>, j: nat)
    ensures StreamBag(s + [x], j) == StreamBag(s, j) + if x.fileNumber == j then multiset{x.value} else multiset{}
  {
    FromStreamAppend(s, x, j);
    var prefix := FromStream(s, j);
    if x.fileNumber == j {
      ValuesAppend(prefix, [x]);
      assert Values([x]) == [x.value];
    } else {
      assert prefix + [] == prefix;
    }
  }

  /** The union of `bag(0) .. bag(k-1)`. */
  ghost function SumOf<V>(bag: nat -> multiset<V>, k: nat): multiset<V> {
    if k == 0 then multiset{} else SumOf(bag, k - 1) + bag(k - 1)
  }

  /** Adding `extra` to one member `f` of a family of bags adds it to every
      union that includes `f`. */
  lemma {:induction false} SumOfShift<V>(a: nat -> multiset<V>, b: nat -> multiset<V>, extra: multiset<V>, f: nat, k: nat)
    requires forall j: nat :: j < k ==> b(j) == a(j) + if j == f then extra else multiset{}
    ensures SumOf(b, k) == SumOf(a, k) + if f < k then extra else multiset{}
  {
    if k > 0 {
      SumOfShift(a, b, extra, f, k - 1);
      if f < k - 1 {
        assert SumOf(b, k) == (SumOf(a, k - 1) + extra) + a(k - 1);
      } else if f == k - 1 {
        assert SumOf(b, k) == SumOf(a, k - 1) + (a(k - 1) + extra);
      }
    }
  }

  /** The bags of every stream, as a family indexed by stream number. */
  ghost function Bags<V>(s: seq<FileLine<V>>): nat -> multiset<V> {
    (j: nat) => StreamBag(s, j)
  }

  /** The values contributed by streams `0 .. k-1`, stream by stream. */
  ghost function StreamSum<V>(s: seq<FileLine<V>>, k: nat): multiset<V> {
    SumOf(Bags(s), k)
  }

  lemma StreamSumAppend<V>(s: seq<FileLine<V>>, x: FileLine<V>, k: nat)
    ensures StreamSum(s + [x], k) == StreamSum(s, k) + if x.fileNumber < k then multiset{x.value} else multiset{}
  {
    forall j: nat | j < k
      ensures Bags(s + [x])(j) == Bags(s)(j) + if j == x.fileNumber then multiset{x.value} else multiset{}
    {
      FromStreamValuesAppend(s, x, j);
    }
    SumOfShift(Bags(s), Bags(s + [x]), multiset{x.value}, x.fileNumber, k);
  }

  /** Counting stream by stream counts every element once. */
  lemma {:induction false} StreamSumAll<V>(s: seq<FileLine<V>>, k: nat)
    requires forall i :: 0 <= i < |s| ==> s[i].fileNumber < k
    ensures StreamSum(s, k) == multiset(Values(s))
  {
    if s == [] {
      if k > 0 {
        StreamSumAll(s, k - 1);
      }
    } else {
      var init, x := s[..|s| - 1], s[|s| - 1];
      assert s == init + [x];
      StreamSumAll(init, k);
      StreamSumAppend(init, x, k);
      ValuesAppend(init, [x]);
    }
  }

  lemma {:induction false} StreamSumParsed<V>(parse: string -> Option<V>, streams: seq<seq<string>>, pops: seq<FileLine<V>>, k: nat)
    requires k <= |streams|
    requires forall j :: 0 <= j < |streams| ==> FromStream(pops, j) == Elements(parse, j, streams[j])
    ensures StreamSum(pops, k) == AllParsed(parse, streams[..k])
  {
    if k > 0 {
      StreamSumParsed(parse, streams, pops, k - 1);
      assert streams[..k][..k - 1] == streams[..k - 1];
      ElementsValues(parse, k - 1, streams[k - 1]);
    }
  }

  /** If every stream handed all its elements to the pops, the pops hold
      every parseable value of every stream. */
  lemma PopsCoverStreams<V>(parse: string -> Option<V>, streams: seq<seq<string>>, pops: seq<FileLine<V>>)
    requires forall i :: 0 <= i < |pops| ==> pops[i].fileNumber < |streams|
    requires forall j :: 0 <= j < |streams| ==> FromStream(pops, j) == Elements(parse, j, streams[j])
    ensures multiset(Values(pops)) == AllParsed(parse, streams)
  {
    StreamSumAll(pops, |streams|);
    StreamSumParsed(parse, streams, pops, |streams|);
    assert streams[..|streams|] == streams;
  }
}
