/** The three phases of a run, each as one invariant, and the steps
    between them: priming fills one slot per stream, a poll leaves its
    stream's slot empty, and a refill fills it again or finds the stream
    read to its end. The merge methods keep these invariants and nothing
    else; every fact about a run follows from them. */
module MergeRun {
  import opened Wrappers
  import opened FileLines
  import opened Comparators
  import opened MergeSpec

  /** Priming has dealt with streams `0 .. a-1` and has not touched the
      slots of the others. */
  ghost predicate Priming<V>(parse: string -> Option<V>, streams: seq<seq<string>>, pos: seq<nat>,
                             pending: seq<Option<FileLine<V>>>, heap: multiset<FileLine<V>>, a: int)
  {
    && 0 <= a <= |streams|
    && Consistent(parse, streams, pos, pending, heap, [])
    && (forall j :: 0 <= j < a ==> Settled(parse, streams, pos, pending, j))
    && (forall j :: a <= j < |streams| ==> pending[j] == None)
  }

  /** Between two polls: every stream is settled, `prev` and `out` are the
      last written element and the written values, and every pop came
      first among the streams' next elements when it was polled. */
  ghost predicate Merging<V(!new)>(cmp: Comparator<V>, parse: string -> Option<V>, streams: seq<seq<string>>,
                                   pos: seq<nat>, pending: seq<Option<FileLine<V>>>, heap: multiset<FileLine<V>>,
                                   pops: seq<FileLine<V>>, prev: Option<FileLine<V>>, out: seq<V>, ordered: bool)
  {
    && IsTotalPreorder(cmp)
    && Consistent(parse, streams, pos, pending, heap, pops)
    && (forall j :: 0 <= j < |streams| ==> Settled(parse, streams, pos, pending, j))
    && prev == LastOf(Emitted(cmp, pops)) && out == Values(Emitted(cmp, pops))
    && GreedyPops(cmp, parse, streams, pops)
    && (ordered ==> StreamsOrdered(cmp, parse, streams) && MergeOrdered(cmp, heap, pops))
  }

  /** After polling an element of stream `f` and before its slot is filled
      again. */
  ghost predicate Refilling<V(!new)>(cmp: Comparator<V>, parse: string -> Option<V>, streams: seq<seq<string>>,
                                     pos: seq<nat>, pending: seq<Option<FileLine<V>>>, heap: multiset<FileLine<V>>,
                                     pops: seq<FileLine<V>>, prev: Option<FileLine<V>>, out: seq<V>, ordered: bool,
                                     f: nat)
  {
    && IsTotalPreorder(cmp)
    && Consistent(parse, streams, pos, pending, heap, pops)
    && f < |streams| && pending[f] == None
    && (forall j :: 0 <= j < |streams| && j != f ==> Settled(parse, streams, pos, pending, j))
    && prev == LastOf(Emitted(cmp, pops)) && out == Values(Emitted(cmp, pops))
    && |pops| > 0 && pops[|pops| - 1].fileNumber == f
    && GreedyPops(cmp, parse, streams, pops)
    && (ordered ==> StreamsOrdered(cmp, parse, streams) && MergeOrdered(cmp, heap, pops))
  }

  // ---------------------------------------------------------------------
  // Priming

  lemma PrimeStart<V>(parse: string -> Option<V>, streams: seq<seq<string>>, pos: seq<nat>,
                      pending: seq<Option<FileLine<V>>>)
    requires |pos| == |streams| && forall j :: 0 <= j < |pos| ==> pos[j] == 0
    requires |pending| == |streams| && forall j :: 0 <= j < |pending| ==> pending[j] == None
    ensures Priming(parse, streams, pos, pending, multiset{}, 0)
  {
    assert pos == seq(|streams|, _ => 0);
    assert pending == seq(|streams|, _ => None);
    Initial(parse, streams);
  }

  /** The stream's next line parses: it fills the slot, and priming moves
      on to the next stream. */
  lemma PrimePush<V>(parse: string -> Option<V>, streams: seq<seq<string>>, pos: seq<nat>,
                     pending: seq<Option<FileLine<V>>>, heap: multiset<FileLine<V>>, a: nat, v: V)
    requires Priming(parse, streams, pos, pending, heap, a)
    requires a < |streams| && pos[a] < |streams[a]| && parse(streams[a][pos[a]]) == Some(v)
    ensures Priming(parse, streams, pos[a := pos[a] + 1], pending[a := Some(FileLine(a, v))],
                    heap + multiset{FileLine(a, v)}, a + 1)
  {
    PushPreserves(parse, streams, pos, pending, heap, [], a, v);
    var pos', pending' := pos[a := pos[a] + 1], pending[a := Some(FileLine(a, v))];
    forall j | 0 <= j < a + 1
      ensures Settled(parse, streams, pos', pending', j)
    {
      if j < a {
        assert Settled(parse, streams, pos, pending, j);
      }
    }
  }

  /** The stream's next line does not parse: it is dropped, and the same
      stream is tried again. */
  lemma PrimeSkip<V>(parse: string -> Option<V>, streams: seq<seq<string>>, pos: seq<nat>,
                     pending: seq<Option<FileLine<V>>>, heap: multiset<FileLine<V>>, a: nat)
    requires Priming(parse, streams, pos, pending, heap, a)
    requires a < |streams| && pos[a] < |streams[a]| && parse(streams[a][pos[a]]).None?
    ensures Priming(parse, streams, pos[a := pos[a] + 1], pending, heap, a)
  {
    SkipPreserves(parse, streams, pos, pending, heap, [], a);
    var pos' := pos[a := pos[a] + 1];
    forall j | 0 <= j < a
      ensures Settled(parse, streams, pos', pending, j)
    {
      assert Settled(parse, streams, pos, pending, j);
    }
  }

  /** The stream has no more lines: it contributes nothing to the heap. */
  lemma PrimeExhausted<V>(parse: string -> Option<V>, streams: seq<seq<string>>, pos: seq<nat>,
                          pending: seq<Option<FileLine<V>>>, heap: multiset<FileLine<V>>, a: nat)
    requires Priming(parse, streams, pos, pending, heap, a)
    requires a < |streams| && pos[a] == |streams[a]|
    ensures Priming(parse, streams, pos, pending, heap, a + 1)
  {
    ExhaustedSettled(parse, streams, pos, pending, a);
  }

  lemma PrimeDone<V(!new)>(cmp: Comparator<V>, parse: string -> Option<V>, streams: seq<seq<string>>, pos: seq<nat>,
                           pending: seq<Option<FileLine<V>>>, heap: multiset<FileLine<V>>, ordered: bool)
    requires Priming(parse, streams, pos, pending, heap, |streams|)
    requires IsTotalPreorder(cmp) && (ordered ==> StreamsOrdered(cmp, parse, streams))
    ensures Merging(cmp, parse, streams, pos, pending, heap, [], None, [], ordered)
  {
  }

  // ---------------------------------------------------------------------
  // Polling and refilling

  /** Polling a head `e`: it leaves the heap and its slot, joins the pops,
      and is written exactly when the filter accepts it. */
  lemma PopStep<V(!new)>(cmp: Comparator<V>, parse: string -> Option<V>, streams: seq<seq<string>>,
                         pos: seq<nat>, pending: seq<Option<FileLine<V>>>, heap: multiset<FileLine<V>>,
                         pops: seq<FileLine<V>>, prev: Option<FileLine<V>>, out: seq<V>, ordered: bool,
                         e: FileLine<V>)
    requires Merging(cmp, parse, streams, pos, pending, heap, pops, prev, out, ordered)
    requires e in heap && IsExtreme(cmp, e, heap)
    ensures e.fileNumber < |streams| == |pos| && pos[e.fileNumber] <= |streams[e.fileNumber]|
    ensures Accepts(cmp, prev, e) ==>
              Refilling(cmp, parse, streams, pos, pending[e.fileNumber := None], heap - multiset{e}, pops + [e],
                        Some(e), out + [e.value], ordered, e.fileNumber)
    ensures !Accepts(cmp, prev, e) ==>
              Refilling(cmp, parse, streams, pos, pending[e.fileNumber := None], heap - multiset{e}, pops + [e],
                        prev, out, ordered, e.fileNumber)
  {
    var f := e.fileNumber;
    PopPreserves(parse, streams, pos, pending, heap, pops, e);
    PopGreedy(cmp, parse, streams, pos, pending, heap, pops, prev, out, ordered, e);
    var pending', heap', pops' := pending[f := None], heap - multiset{e}, pops + [e];
    forall j | 0 <= j < |streams| && j != f
      ensures Settled(parse, streams, pos, pending', j)
    {
      assert Settled(parse, streams, pos, pending, j);
    }
    if ordered {
      PopOrdered(cmp, heap, pops, e);
    }
    EmittedStep(cmp, pops, prev, out, e);
  }

  /** Polling a head: the new pop, too, came first among the streams'
      next elements. */
  lemma PopGreedy<V(!new)>(cmp: Comparator<V>, parse: string -> Option<V>, streams: seq<seq<string>>,
                           pos: seq<nat>, pending: seq<Option<FileLine<V>>>, heap: multiset<FileLine<V>>,
                           pops: seq<FileLine<V>>, prev: Option<FileLine<V>>, out: seq<V>, ordered: bool,
                           e: FileLine<V>)
    requires Merging(cmp, parse, streams, pos, pending, heap, pops, prev, out, ordered)
    requires IsExtreme(cmp, e, heap)
    ensures GreedyPops(cmp, parse, streams, pops + [e])
  {
    HeadPolledFirst(cmp, parse, streams, pos, pending, heap, pops, e);
    GreedyAppend(cmp, parse, streams, pops, e);
  }

  /** The filter's step: `prev` and `out` follow the written elements. */
  lemma EmittedStep<V>(cmp: Comparator<V>, pops: seq<FileLine<V>>, prev: Option<FileLine<V>>, out: seq<V>, e: FileLine<V>)
    requires prev == LastOf(Emitted(cmp, pops)) && out == Values(Emitted(cmp, pops))
    ensures (if Accepts(cmp, prev, e) then Some(e) else prev) == LastOf(Emitted(cmp, pops + [e]))
    ensures (if Accepts(cmp, prev, e) then out + [e.value] else out) == Values(Emitted(cmp, pops + [e]))
  {
    EmittedAppend(cmp, pops, e);
    if Accepts(cmp, prev, e) {
      ValuesAppend(Emitted(cmp, pops), [e]);
      assert Values([e]) == [e.value];
    }
  }

  /** The stream's next line parses: it fills the empty slot. */
  lemma RefillPush<V(!new)>(cmp: Comparator<V>, parse: string -> Option<V>, streams: seq<seq<string>>,
                            pos: seq<nat>, pending: seq<Option<FileLine<V>>>, heap: multiset<FileLine<V>>,
                            pops: seq<FileLine<V>>, prev: Option<FileLine<V>>, out: seq<V>, ordered: bool,
                            f: nat, v: V)
    requires Refilling(cmp, parse, streams, pos, pending, heap, pops, prev, out, ordered, f)
    requires pos[f] < |streams[f]| && parse(streams[f][pos[f]]) == Some(v)
    ensures Merging(cmp, parse, streams, pos[f := pos[f] + 1], pending[f := Some(FileLine(f, v))],
                    heap + multiset{FileLine(f, v)}, pops, prev, out, ordered)
    ensures Unread(streams, pos[f := pos[f] + 1]) == Unread(streams, pos) - 1
  {
    if ordered {
      RefillOrdered(cmp, parse, streams, pos, pending, heap, pops, f, v);
    }
    PushPreserves(parse, streams, pos, pending, heap, pops, f, v);
    var pos', pending' := pos[f := pos[f] + 1], pending[f := Some(FileLine(f, v))];
    forall j | 0 <= j < |streams|
      ensures Settled(parse, streams, pos', pending', j)
    {
      if j != f {
        assert Settled(parse, streams, pos, pending, j);
      }
    }
  }

  /** The stream's next line does not parse: it is dropped. */
  lemma RefillSkip<V(!new)>(cmp: Comparator<V>, parse: string -> Option<V>, streams: seq<seq<string>>,
                            pos: seq<nat>, pending: seq<Option<FileLine<V>>>, heap: multiset<FileLine<V>>,
                            pops: seq<FileLine<V>>, prev: Option<FileLine<V>>, out: seq<V>, ordered: bool,
                            f: nat)
    requires Refilling(cmp, parse, streams, pos, pending, heap, pops, prev, out, ordered, f)
    requires pos[f] < |streams[f]| && parse(streams[f][pos[f]]).None?
    ensures Refilling(cmp, parse, streams, pos[f := pos[f] + 1], pending, heap, pops, prev, out, ordered, f)
    ensures Unread(streams, pos[f := pos[f] + 1]) == Unread(streams, pos) - 1
  {
    SkipPreserves(parse, streams, pos, pending, heap, pops, f);
    var pos' := pos[f := pos[f] + 1];
    forall j | 0 <= j < |streams| && j != f
      ensures Settled(parse, streams, pos', pending, j)
    {
      assert Settled(parse, streams, pos, pending, j);
    }
  }

  /** Several lines in a row do not parse: they are all dropped. */
  lemma RefillSkips<V(!new)>(cmp: Comparator<V>, parse: string -> Option<V>, streams: seq<seq<string>>,
                             pos: seq<nat>, pending: seq<Option<FileLine<V>>>, heap: multiset<FileLine<V>>,
                             pops: seq<FileLine<V>>, prev: Option<FileLine<V>>, out: seq<V>, ordered: bool,
                             f: nat, q: nat)
    requires Refilling(cmp, parse, streams, pos, pending, heap, pops, prev, out, ordered, f)
    requires pos[f] <= q <= |streams[f]| && forall k :: pos[f] <= k < q ==> parse(streams[f][k]).None?
    ensures Refilling(cmp, parse, streams, pos[f := q], pending, heap, pops, prev, out, ordered, f)
    ensures Unread(streams, pos[f := q]) + q == Unread(streams, pos) + pos[f]
    decreases q - pos[f]
  {
    if pos[f] < q {
      RefillSkip(cmp, parse, streams, pos, pending, heap, pops, prev, out, ordered, f);
      var pos' := pos[f := pos[f] + 1];
      RefillSkips(cmp, parse, streams, pos', pending, heap, pops, prev, out, ordered, f, q);
      assert pos'[f := q] == pos[f := q];
    } else {
      assert pos[f := q] == pos;
    }
  }

  /** The stream is read to its end: its slot stays empty for good. */
  lemma RefillExhausted<V(!new)>(cmp: Comparator<V>, parse: string -> Option<V>, streams: seq<seq<string>>,
                                 pos: seq<nat>, pending: seq<Option<FileLine<V>>>, heap: multiset<FileLine<V>>,
                                 pops: seq<FileLine<V>>, prev: Option<FileLine<V>>, out: seq<V>, ordered: bool,
                                 f: nat)
    requires Refilling(cmp, parse, streams, pos, pending, heap, pops, prev, out, ordered, f)
    requires pos[f] == |streams[f]|
    ensures Merging(cmp, parse, streams, pos, pending, heap, pops, prev, out, ordered)
  {
    ExhaustedSettled(parse, streams, pos, pending, f);
  }

  /** What a refill of stream `f` did, taking the read position from
      `pos` to `pos'`: every line it read did not parse, except the last
      one when that filled the slot; the slot is filled exactly with the
      element of that line, and stays empty only when the stream was read
      to its end; the heap gains the new element, and no other stream's
      position or slot changes. */
  ghost predicate Refilled<V>(parse: string -> Option<V>, streams: seq<seq<string>>,
                              pos: seq<nat>, pending: seq<Option<FileLine<V>>>, heap: multiset<FileLine<V>>, f: nat,
                              pos': seq<nat>, pending': seq<Option<FileLine<V>>>, heap': multiset<FileLine<V>>)
  {
    && f < |streams| && |pos| == |streams| && |pos'| == |streams| && |pending| == |streams| && |pending'| == |streams|
    && pos[f] <= pos'[f] <= |streams[f]|
    && (forall k :: pos[f] <= k < pos'[f] - 1 ==> parse(streams[f][k]).None?)
    && (pending'[f].None? ==> pos'[f] == |streams[f]| && (pos[f] < pos'[f] ==> parse(streams[f][pos'[f] - 1]).None?))
    && (pending'[f].Some? ==> pos[f] < pos'[f] && pending'[f] == ReadAt(parse, f, streams[f][pos'[f] - 1]))
    && (forall j :: 0 <= j < |streams| && j != f ==> pos'[j] == pos[j] && pending'[j] == pending[j])
    && heap' == heap + multiset(Opt(pending'[f]))
  }

  /** The refill read lines `pos[f] .. q - 1`, none of which parses, and
      line `q` parses to `v`: its element fills the slot. */
  lemma RefillFound<V(!new)>(cmp: Comparator<V>, parse: string -> Option<V>, streams: seq<seq<string>>,
                             pos: seq<nat>, pending: seq<Option<FileLine<V>>>, heap: multiset<FileLine<V>>,
                             pops: seq<FileLine<V>>, prev: Option<FileLine<V>>, out: seq<V>, ordered: bool,
                             f: nat, q: nat, v: V)
    requires Refilling(cmp, parse, streams, pos, pending, heap, pops, prev, out, ordered, f)
    requires pos[f] <= q < |streams[f]| && forall k :: pos[f] <= k < q ==> parse(streams[f][k]).None?
    requires parse(streams[f][q]) == Some(v)
    ensures Merging(cmp, parse, streams, pos[f := q + 1], pending[f := Some(FileLine(f, v))],
                    heap + multiset{FileLine(f, v)}, pops, prev, out, ordered)
    ensures |heap + multiset{FileLine(f, v)}| + Unread(streams, pos[f := q + 1]) <= |heap| + Unread(streams, pos)
    ensures Refilled(parse, streams, pos, pending, heap, f,
                     pos[f := q + 1], pending[f := Some(FileLine(f, v))], heap + multiset{FileLine(f, v)})
  {
    RefillSkips(cmp, parse, streams, pos, pending, heap, pops, prev, out, ordered, f, q);
    RefillPush(cmp, parse, streams, pos[f := q], pending, heap, pops, prev, out, ordered, f, v);
    assert pos[f := q][f := pos[f := q][f] + 1] == pos[f := q + 1];
    FoundRefilled(parse, streams, pos, pending, heap, f, q, v);
  }

  lemma FoundRefilled<V>(parse: string -> Option<V>, streams: seq<seq<string>>, pos: seq<nat>,
                         pending: seq<Option<FileLine<V>>>, heap: multiset<FileLine<V>>, f: nat, q: nat, v: V)
    requires f < |streams| && |pos| == |streams| && |pending| == |streams|
    requires pos[f] <= q < |streams[f]| && forall k :: pos[f] <= k < q ==> parse(streams[f][k]).None?
    requires parse(streams[f][q]) == Some(v)
    ensures Refilled(parse, streams, pos, pending, heap, f,
                     pos[f := q + 1], pending[f := Some(FileLine(f, v))], heap + multiset{FileLine(f, v)})
  {
  }

  /** No line from `pos[f]` on parses: the stream is read to its end and
      its slot stays empty. */
  lemma RefillNone<V(!new)>(cmp: Comparator<V>, parse: string -> Option<V>, streams: seq<seq<string>>,
                            pos: seq<nat>, pending: seq<Option<FileLine<V>>>, heap: multiset<FileLine<V>>,
                            pops: seq<FileLine<V>>, prev: Option<FileLine<V>>, out: seq<V>, ordered: bool,
                            f: nat)
    requires Refilling(cmp, parse, streams, pos, pending, heap, pops, prev, out, ordered, f)
    requires forall k :: pos[f] <= k < |streams[f]| ==> parse(streams[f][k]).None?
    ensures Merging(cmp, parse, streams, pos[f := |streams[f]|], pending, heap, pops, prev, out, ordered)
    ensures Unread(streams, pos[f := |streams[f]|]) <= Unread(streams, pos)
    ensures Refilled(parse, streams, pos, pending, heap, f, pos[f := |streams[f]|], pending, heap)
  {
    RefillSkips(cmp, parse, streams, pos, pending, heap, pops, prev, out, ordered, f, |streams[f]|);
    RefillExhausted(cmp, parse, streams, pos[f := |streams[f]|], pending, heap, pops, prev, out, ordered, f);
    NoneRefilled(parse, streams, pos, pending, heap, f);
  }

  lemma NoneRefilled<V>(parse: string -> Option<V>, streams: seq<seq<string>>, pos: seq<nat>,
                        pending: seq<Option<FileLine<V>>>, heap: multiset<FileLine<V>>, f: nat)
    requires f < |streams| && |pos| == |streams| && |pending| == |streams| && pos[f] <= |streams[f]|
    requires pending[f].None? && forall k :: pos[f] <= k < |streams[f]| ==> parse(streams[f][k]).None?
    ensures Refilled(parse, streams, pos, pending, heap, f, pos[f := |streams[f]|], pending, heap)
  {
  }

  // ---------------------------------------------------------------------
  // The end of a run

  /** When the heap is empty: every stream has handed out exactly its
      parseable lines, in line order; the pops hold all of their values;
      what was written is monotone, was all popped, and is everything
      popped when the streams were ordered. */
  lemma MergeEnd<V(!new)>(cmp: Comparator<V>, parse: string -> Option<V>, streams: seq<seq<string>>,
                          pos: seq<nat>, pending: seq<Option<FileLine<V>>>,
                          pops: seq<FileLine<V>>, prev: Option<FileLine<V>>, out: seq<V>, ordered: bool)
    requires Merging(cmp, parse, streams, pos, pending, multiset{}, pops, prev, out, ordered)
    ensures Covers(parse, streams, pops) && GreedyPops(cmp, parse, streams, pops)
    ensures multiset(Values(pops)) == AllParsed(parse, streams)
    ensures out == Values(Emitted(cmp, pops)) && Monotone(cmp, Emitted(cmp, pops))
    ensures multiset(out) <= AllParsed(parse, streams)
    ensures ordered ==> Emitted(cmp, pops) == pops
  {
    Drained(parse, streams, pos, pending, pops);
    PopsCoverStreams(parse, streams, pops);
    EmittedMonotone(cmp, pops);
    EmittedIncluded(cmp, pops);
    if ordered {
      EmittedOfMonotone(cmp, pops);
    }
  }
}
