/**
 Quoting vocabulary of the trader: the constants of autotrader.cc:36-43, the
 commands it sends, the per-side quote record, the target prices and volumes an
 order book yields (autotrader.cc:232-239), and the cancel-then-insert re-quote
 pass that every branch of OrderBookMessageHandler repeats (autotrader.cc:243-274).
 */
module Quoting {

  const LotSize: int := 200
  const Unload: int := 25
  /** BASELINE_SIZE (autotrader.cc:38): declared, never read; the indicator uses 26. */
  const DeclaredBaselineSize: int := 9
  const PositionLimit: int := 100
  /** CONVERSION_LINE_SIZE (autotrader.cc:40): declared, never read; the indicator uses 9. */
  const DeclaredConversionLineSize: int := 10
  const TickSize: int := 100

  /** 2^64: the modulus of `unsigned long` arithmetic. */
  const U64: int := 0x1_0000_0000_0000_0000

  datatype Side = Buy | Sell

  /** What the trader sends to the exchange. Every insert is good-for-day. */
  datatype Command =
    | Insert(id: nat, side: Side, price: nat, volume: nat)
    | Cancel(id: nat)
    | Hedge(id: nat, side: Side, price: nat, volume: nat)

  /** MINIMUM_BID and MAXIMUM_ASK, defined by the exchange's own header. */
  datatype VenueLimits = VenueLimits(minimumBid: nat, maximumAsk: nat)

  /** MIN_BID_NEAREST_TICK: the first tick strictly above the minimum bid. */
  function MinBidNearestTick(v: VenueLimits): (p: nat)
    ensures p % TickSize == 0
    ensures v.minimumBid < p <= v.minimumBid + TickSize
  {
    (v.minimumBid + TickSize) / TickSize * TickSize
  }

  /** MAX_ASK_NEAREST_TICK: the last tick at or below the maximum ask. */
  function MaxAskNearestTick(v: VenueLimits): (p: nat)
    ensures p % TickSize == 0
    ensures p <= v.maximumAsk < p + TickSize
  {
    v.maximumAsk / TickSize * TickSize
  }

  /** One side of the book as the trader tracks it: the id of its resting order
      (0 for none), the price last quoted, whether a cancel is in flight, and the
      set of live order ids on that side (`mAsks` or `mBids`). */
  datatype Quote = Quote(id: nat, price: nat, pendingCancel: bool, live: set<nat>)

  /** A side with no order (autotrader.h:211-223). */
  const NoQuote := Quote(0, 0, false, {})

  /** The per-side tracking invariant: a pending cancel concerns a real order, the
      live set is empty or holds just the tracked id, 0 is never live, the tracked
      id has been issued, and the quoted price is on a tick. */
  predicate Tracked(q: Quote, nextId: nat)
  {
    && (q.pendingCancel ==> q.id != 0)
    && q.live <= {q.id}
    && 0 !in q.live
    && q.id < nextId
    && q.price % TickSize == 0
  }

  /** C++ integer division of `long` by a positive `int`: truncates toward zero. */
  function TruncDiv(a: int, b: int): int
    requires b > 0
  {
    if a >= 0 then a / b else -((-a) / b)
  }

  /** `-(mPosition / LOT_SIZE) * TICK_SIZE_IN_CENTS` (autotrader.cc:232): a skew of
      whole ticks against the position, which is 0 inside the position limit. */
  function PriceAdjustment(position: int): (adj: int)
    ensures adj % TickSize == 0
    ensures position >= 0 ==> adj <= 0
    ensures position <= 0 ==> adj >= 0
    ensures -PositionLimit <= position <= PositionLimit ==> adj == 0
  {
    -TruncDiv(position, LotSize) * TickSize
  }

  /** `(p / TICK_SIZE_IN_CENTS) * TICK_SIZE_IN_CENTS` on an unsigned price. */
  function RoundToTick(x: nat): (p: nat)
    ensures p % TickSize == 0
    ensures p <= x < p + TickSize
  {
    x / TickSize * TickSize
  }

  /** The conversion of a non-negative target to `unsigned long`; a negative one is
      undefined behaviour in C++ and is taken as 0 (no quote). */
  function Truncate(x: int): nat
  {
    if x < 0 then 0 else x
  }

  /** Ask target (autotrader.cc:234, 236): best ask plus skew plus spread, rounded
      down to a tick; 0 (no quote) when the book has no ask. */
  function AskTarget(bestAsk: nat, adjustment: int, spread: nat): (p: nat)
    ensures p % TickSize == 0
    ensures bestAsk == 0 ==> p == 0
    ensures bestAsk != 0 && bestAsk + adjustment + spread >= 0 ==>
      p <= bestAsk + adjustment + spread < p + TickSize
  {
    RoundToTick(if bestAsk != 0 then Truncate(bestAsk + adjustment + spread) else 0)
  }

  /** Bid target (autotrader.cc:235, 237): best bid plus skew minus spread, rounded
      down to a tick; 0 (no quote) when the book has no bid. */
  function BidTarget(bestBid: nat, adjustment: int, spread: nat): (p: nat)
    ensures p % TickSize == 0
    ensures bestBid == 0 ==> p == 0
    ensures bestBid != 0 && bestBid + adjustment - spread >= 0 ==>
      p <= bestBid + adjustment - spread < p + TickSize
    ensures bestBid + adjustment >= 0 ==> p <= bestBid + adjustment
  {
    RoundToTick(if bestBid != 0 then Truncate(bestBid + adjustment - spread) else 0)
  }

  /** `static_cast<unsigned long>` of a signed value. */
  function ToUnsigned(x: int): (u: nat)
    ensures u < U64
    ensures 0 <= x < U64 ==> u == x
  {
    x % U64
  }

  /** Ask volume (autotrader.cc:238): at most a lot, and inside the position limit
      exactly the room left before the short limit. */
  function AskVolume(position: int): (v: nat)
    ensures v <= LotSize
    ensures -PositionLimit <= position <= PositionLimit ==> v == PositionLimit + position
  {
    var room := ToUnsigned(PositionLimit + position);
    if LotSize <= room then LotSize else room
  }

  /** Bid volume (autotrader.cc:239): at most a lot, and inside the position limit
      exactly the room left before the long limit. */
  function BidVolume(position: int): (v: nat)
    ensures v <= LotSize
    ensures -PositionLimit <= position <= PositionLimit ==> v == PositionLimit - position
  {
    var room := ToUnsigned(PositionLimit - position);
    if LotSize <= room then LotSize else room
  }

  /** Ids of the orders a command sequence creates (inserts and hedges), in order. */
  function IssuedIds(cmds: seq<Command>): seq<nat>
  {
    if |cmds| == 0 then []
    else
      var last := cmds[|cmds| - 1];
      IssuedIds(cmds[..|cmds| - 1]) + (if last.Cancel? then [] else [last.id])
  }

  /** The consecutive ids lo, lo + 1, ..., hi - 1. */
  function Range(lo: nat, hi: nat): (ids: seq<nat>)
    ensures lo <= hi ==> |ids| == hi - lo
    ensures forall i :: 0 <= i < |ids| ==> ids[i] == lo + i
    decreases hi - lo
  {
    if lo >= hi then [] else [lo] + Range(lo + 1, hi)
  }

  /** A quote after one re-quote pass, with the next free id and what was sent. */
  datatype Requoted = Requoted(quote: Quote, nextId: nat, commands: seq<Command>)

  /** One re-quote pass on one side (autotrader.cc:243-258 for the ask, 259-274 for
      the bid): if the target is a new non-zero price, cancel the resting order if
      there is one, otherwise (no cancel in flight) insert a fresh order under the
      next id; the quoted price moves to the target either way. */
  function Requote(q: Quote, side: Side, target: nat, volume: nat, nextId: nat): (r: Requoted)
    // Nothing happens unless the target is a new, non-zero price.
    ensures target == 0 || target == q.price ==> r == Requoted(q, nextId, [])
    ensures target != 0 ==> r.quote.price == target
    // At most one command, and only the protocol's two.
    ensures |r.commands| <= 1
    ensures forall c :: c in r.commands && c.Cancel? ==> c.id == q.id && q.id != 0 && r.quote.pendingCancel && r.quote.id == q.id
    ensures forall c :: c in r.commands && !c.Cancel? ==>
      && c == Insert(nextId, side, target, volume)
      && q.id == 0 && !q.pendingCancel && volume > 0
      && r.quote.id == nextId && nextId in r.quote.live
    ensures forall c :: c in r.commands ==> !c.Hedge?
    // A command is sent exactly when the target moved and a cancel or an insert is allowed.
    ensures r.commands != [] <==> target != 0 && target != q.price && (q.id != 0 || (!q.pendingCancel && volume > 0))
    // Ids: only an insert consumes one.
    ensures IssuedIds(r.commands) == Range(nextId, r.nextId)
    ensures r.nextId >= nextId
    // What is kept: an order leaves the live set only on its terminal status, so a
    // cancelled order stays live; a pass that sends nothing only moves the price.
    ensures q.live <= r.quote.live <= q.live + {nextId}
    ensures r.commands == [] ==> r.nextId == nextId && r.quote == (if target != 0 then q.(price := target) else q)
    ensures r.commands == [Cancel(q.id)] ==> r.nextId == nextId && r.quote == q.(price := target, pendingCancel := true)
    ensures r.commands == [Insert(nextId, side, target, volume)] ==>
      r.nextId == nextId + 1 && r.quote == Quote(nextId, target, false, q.live + {nextId})
    ensures Tracked(q, nextId) && target % TickSize == 0 ==> Tracked(r.quote, r.nextId)
  {
    if target != 0 && target != q.price then
      var cancels := if q.id != 0 then [Cancel(q.id)] else [];
      var pending := q.pendingCancel || q.id != 0;
      if !pending && volume > 0 then
        Requoted(Quote(nextId, target, pending, q.live + {nextId}), nextId + 1,
                 cancels + [Insert(nextId, side, target, volume)])
      else
        Requoted(q.(price := target, pendingCancel := pending), nextId, cancels)
    else
      Requoted(q, nextId, [])
  }

  lemma {:induction false} IssuedIdsAppend(a: seq<Command>, b: seq<Command>)
    ensures IssuedIds(a + b) == IssuedIds(a) + IssuedIds(b)
    decreases |b|
  {
    if |b| == 0 {
      assert a + b == a;
    } else {
      assert (a + b)[..|a + b| - 1] == a + b[..|b| - 1];
      IssuedIdsAppend(a, b[..|b| - 1]);
    }
  }

  lemma RangeAppend(lo: nat, mid: nat, hi: nat)
    requires lo <= mid <= hi
    ensures Range(lo, mid) + Range(mid, hi) == Range(lo, hi)
  {
    assert |Range(lo, mid) + Range(mid, hi)| == |Range(lo, hi)|;
  }
}
