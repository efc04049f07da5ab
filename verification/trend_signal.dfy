/**
 The trend indicator (Ichimoku at autotrader.cc:131-182) and its state, the four
 process-wide circular buffers with their sums, indices and counts
 (autotrader.cc:54-73), gathered here into one record owned by the trader.
 */
module TrendSignal {
  import opened CircularBuffer
  import Quoting

  /** Window lengths the computation actually uses (autotrader.cc:54-56). */
  const ConversionLineSize: nat := 9
  const BaselineSize: nat := 26
  const LeadingSpanBWindow: nat := 52

  datatype Signal = Buy | Sell | Neutral

  /** The four buffers and the three accumulators. The lagging-span buffer has no
      accumulator of its own: its pushes go into `leadingSpanBSum`. */
  datatype Indicators = Indicators(
    conversionLine: Ring, conversionLineSum: int,
    baseline: Ring, baselineSum: int,
    leadingSpanB: Ring, leadingSpanBSum: int,
    laggingSpan: Ring)

  /** A signal together with the indicator state after the four pushes. */
  datatype Reading = Reading(signal: Signal, indicators: Indicators)

  /** Buffer lengths as declared and cursors in range: what the pushes need. */
  predicate Shaped(ind: Indicators)
  {
    && |ind.conversionLine.slots| == ConversionLineSize
    && |ind.baseline.slots| == BaselineSize
    && |ind.leadingSpanB.slots| == LeadingSpanBWindow
    && |ind.laggingSpan.slots| == BaselineSize
    && ind.conversionLine.index < ConversionLineSize
    && ind.baseline.index < BaselineSize
    && ind.leadingSpanB.index < LeadingSpanBWindow
    && ind.laggingSpan.index < BaselineSize
  }

  predicate NonNegative(s: seq<int>)
  {
    forall i :: 0 <= i < |s| ==> s[i] >= 0
  }

  /** A well-formed ring of non-negative samples whose accumulator is its total
      plus what other rings add to the same accumulator. */
  predicate Accumulates(r: Ring, sum: int, extra: int)
  {
    Valid(r) && NonNegative(r.slots) && sum == Total(r.slots) + extra
  }

  /** Every ring is well formed with non-negative samples, and each accumulator is
      the total of the rings that push into it; the leading-span-B accumulator
      carries the lagging-span samples as well. */
  predicate Consistent(ind: Indicators)
  {
    && Shaped(ind)
    && Accumulates(ind.conversionLine, ind.conversionLineSum, 0)
    && Accumulates(ind.baseline, ind.baselineSum, 0)
    && Accumulates(ind.laggingSpan, Total(ind.laggingSpan.slots), 0)
    && Accumulates(ind.leadingSpanB, ind.leadingSpanBSum, Total(ind.laggingSpan.slots))
  }

  /** The zero-initialised globals (autotrader.cc:59-73). */
  function InitialIndicators(): (ind: Indicators)
    ensures Shaped(ind)
    ensures ind.conversionLine.count == 0 && ind.baseline.count == 0
    ensures ind.leadingSpanB.count == 0 && ind.laggingSpan.count == 0
  {
    Indicators(Empty(ConversionLineSize), 0, Empty(BaselineSize), 0,
               Empty(LeadingSpanBWindow), 0, Empty(BaselineSize))
  }

  /** The zero-initialised state is consistent: empty rings, zero accumulators. */
  lemma InitialIndicatorsConsistent()
    ensures Consistent(InitialIndicators())
  {
  }

  /** The slot the lagging comparison reads: `(index - baseline_size + size) % size`,
      where the int difference is converted to `unsigned long` before `size` is
      added. Because the buffer length is `baseline_size`, this is the cursor itself. */
  function LaggingReferenceIndex(index: int, size: nat): (slot: int)
    requires size > 0
    ensures 0 <= slot < size
    ensures size == BaselineSize && 0 <= index < size ==> slot == index
  {
    (((index - BaselineSize) % Quoting.U64 + size) % Quoting.U64) % size
  }

  /** The decision rule (autotrader.cc:158-178); SELL is decided last and wins. */
  function Classify(price: int, conversionLine: int, baseline: int, spanA: int, spanB: int,
                    lagging: int, reference: int): (s: Signal)
    ensures s == Buy <==> lagging > reference && (price > Min(spanA, spanB) || (price > conversionLine && price > baseline))
    ensures s == Sell <==> lagging < reference && (price < Max(spanA, spanB) || (price < conversionLine && price < baseline))
    ensures lagging == reference ==> s == Neutral
  {
    var aboveCloud := price > Min(spanA, spanB);
    var belowCloud := price < Max(spanA, spanB);
    var aboveLines := price > conversionLine && price > baseline;
    var belowLines := price < conversionLine && price < baseline;
    var laggingAbove := lagging > reference;
    var laggingBelow := lagging < reference;
    if (belowCloud || belowLines) && laggingBelow then Sell
    else if (aboveCloud || aboveLines) && laggingAbove then Buy
    else Neutral
  }

  function Max(a: int, b: int): int
  {
    if a >= b then a else b
  }

  /** The four pushes of one indicator update, in the order Ichimoku performs them:
      the midpoint feeds the conversion line, whose mean feeds the baseline and the
      leading span B, and the midpoint also feeds the lagging span through the
      leading-span-B accumulator. */
  datatype Stages = Stages(price: int, conversion: Pushed, baseline: Pushed, spanB: Pushed, lagging: Pushed)

  function Advance(ind: Indicators, bestAsk: nat, bestBid: nat): (st: Stages)
    requires Shaped(ind)
    ensures st.conversion.ring.count >= 1 && st.baseline.ring.count >= 1
    ensures Shaped(Collect(st))
  {
    var price := (bestBid + bestAsk) / 2;
    var c := Push(ind.conversionLine, ind.conversionLineSum, price);
    var b := Push(ind.baseline, ind.baselineSum, Mean(c));
    var s := Push(ind.leadingSpanB, ind.leadingSpanBSum, Mean(c));
    var g := Push(ind.laggingSpan, s.sum, price);
    Stages(price, c, b, s, g)
  }

  /** The indicator state an update leaves behind. */
  function Collect(st: Stages): Indicators
  {
    Indicators(st.conversion.ring, st.conversion.sum, st.baseline.ring, st.baseline.sum,
               st.spanB.ring, st.lagging.sum, st.lagging.ring)
  }

  /** One indicator update from the best prices (Ichimoku). Whatever the inputs and
      the state, the lagging span is compared with itself, so the signal is always
      NEUTRAL. */
  function Ichimoku(ind: Indicators, bestAsk: nat, bestBid: nat): (r: Reading)
    requires Shaped(ind)
    ensures Shaped(r.indicators)
    ensures r.indicators.conversionLine.count >= 1 && r.indicators.baseline.count >= 1
    ensures r.signal == Neutral
  {
    var st := Advance(ind, bestAsk, bestBid);
    var conversionLine := Mean(st.conversion);
    var baseline := Mean(st.baseline);
    var spanA := (conversionLine + baseline) / 2;
    var spanB := (st.spanB.sum + baseline) / 2;
    var lagging := st.lagging.ring.slots[st.lagging.ring.index];
    var reference := st.lagging.ring.slots[LaggingReferenceIndex(st.lagging.ring.index, |st.lagging.ring.slots|)];
    Reading(Classify(st.price, conversionLine, baseline, spanA, spanB, lagging, reference), Collect(st))
  }

  /** Ichimoku keeps the indicator state consistent: each accumulator still equals
      the total of the rings that push into it, and every sample stays non-negative. */
  lemma IchimokuKeepsConsistent(ind: Indicators, bestAsk: nat, bestBid: nat)
    requires Consistent(ind)
    ensures Consistent(Ichimoku(ind, bestAsk, bestBid).indicators)
  {
    AdvanceKeepsConsistent(ind, bestAsk, bestBid);
  }

  /** The four pushes keep the state consistent; in between, after the leading
      span B push, its accumulator holds that ring's total plus the not yet updated
      lagging ring's total. */
  lemma AdvanceKeepsConsistent(ind: Indicators, bestAsk: nat, bestBid: nat)
    requires Consistent(ind)
    ensures Consistent(Collect(Advance(ind, bestAsk, bestBid)))
    ensures var st := Advance(ind, bestAsk, bestBid);
      st.spanB.sum == Total(st.spanB.ring.slots) + Total(ind.laggingSpan.slots)
  {
    var st := Advance(ind, bestAsk, bestBid);
    var price := (bestBid + bestAsk) / 2;
    PushAccumulates(ind.conversionLine, ind.conversionLineSum, 0, price);
    var mean := Mean(st.conversion);
    TotalNonNegative(ind.laggingSpan.slots);
    PushAccumulates(ind.baseline, ind.baselineSum, 0, mean);
    PushAccumulates(ind.leadingSpanB, ind.leadingSpanBSum, Total(ind.laggingSpan.slots), mean);
    TotalNonNegative(st.spanB.ring.slots);
    PushAccumulates(ind.laggingSpan, st.spanB.sum, Total(st.spanB.ring.slots), price);
  }

  /** Pushing a non-negative sample keeps a ring accumulating, and a non-negative
      accumulator non-negative. */
  lemma PushAccumulates(r: Ring, sum: int, extra: int, v: int)
    requires r.index < |r.slots|
    requires Accumulates(r, sum, extra) && extra >= 0 && v >= 0
    ensures Accumulates(Push(r, sum, v).ring, Push(r, sum, v).sum, extra)
    ensures Push(r, sum, v).sum >= 0
  {
    TotalNonNegative(Push(r, sum, v).ring.slots);
  }

  /** The history guard `leadingSpanBBuffer.size() >= 52` (autotrader.cc:277). */
  function HistoryReady(ind: Indicators): (ready: bool)
    ensures Shaped(ind) ==> ready
  {
    |ind.leadingSpanB.slots| >= LeadingSpanBWindow
  }

  lemma {:induction false} TotalAtLeastElement(s: seq<int>, i: nat)
    requires NonNegative(s) && i < |s|
    ensures Total(s) >= s[i]
    decreases |s|
  {
    if i < |s| - 1 {
      TotalAtLeastElement(s[..|s| - 1], i);
    } else {
      TotalNonNegative(s[..|s| - 1]);
    }
  }

  lemma {:induction false} TotalNonNegative(s: seq<int>)
    requires NonNegative(s)
    ensures Total(s) >= 0
    decreases |s|
  {
    if |s| > 0 {
      TotalNonNegative(s[..|s| - 1]);
    }
  }

  /** On a consistent state none of the four unsigned `sum -= buffer[index]` of the
      next update goes below zero. The first three subtract from the accumulators
      as they are; the lagging push subtracts from the leading-span-B accumulator
      after the leading span B push has already changed it. */
  lemma NoUnsignedUnderflow(ind: Indicators, bestAsk: nat, bestBid: nat)
    requires Consistent(ind)
    ensures ind.conversionLineSum >= ind.conversionLine.slots[ind.conversionLine.index]
    ensures ind.baselineSum >= ind.baseline.slots[ind.baseline.index]
    ensures ind.leadingSpanBSum >= ind.leadingSpanB.slots[ind.leadingSpanB.index]
    ensures Advance(ind, bestAsk, bestBid).spanB.sum >= ind.laggingSpan.slots[ind.laggingSpan.index]
  {
    TotalAtLeastElement(ind.conversionLine.slots, ind.conversionLine.index);
    TotalAtLeastElement(ind.baseline.slots, ind.baseline.index);
    TotalAtLeastElement(ind.leadingSpanB.slots, ind.leadingSpanB.index);
    TotalNonNegative(ind.laggingSpan.slots);
    var st := Advance(ind, bestAsk, bestBid);
    AdvanceKeepsConsistent(ind, bestAsk, bestBid);
    TotalNonNegative(st.spanB.ring.slots);
    TotalAtLeastElement(ind.laggingSpan.slots, ind.laggingSpan.index);
  }
}
