/**
 The AutoTrader state (autotrader.h:210-223, plus the indicator globals of
 autotrader.cc:54-73) and one step function per event handler of autotrader.cc.
 Every step returns the new state and the commands sent while handling the event.
 */
module AutoTrader {
  import opened Quoting
  import TrendSignal

  datatype Instrument = Future | Etf

  /** An order-book snapshot as the decisions read it: the best ask and bid prices
      (0 for an empty side) and the weighted average spread, taken as a whole
      number of cents (the lower levels and the volumes only feed that spread). */
  datatype Book = Book(instrument: Instrument, bestAsk: nat, bestBid: nat, spread: nat)

  /** The trader: next order id, the two quoted sides (each with its live id set),
      position and hedge count in lots, the two cost-basis ledgers and the lot-size
      ledger keyed by order id, and the trend-indicator state. */
  datatype Trader = Trader(
    nextId: nat,
    ask: Quote,
    bid: Quote,
    position: int,
    hedges: int,
    longInventory: map<nat, nat>,
    shortInventory: map<nat, nat>,
    lotSize: map<nat, nat>,
    indicators: TrendSignal.Indicators)

  /** The state after an event and the commands sent while handling it. */
  datatype Step = Step(trader: Trader, commands: seq<Command>)

  /** The freshly constructed trader (autotrader.h:210-223, autotrader.cc:59-73). */
  function Initial(): (t: Trader)
    ensures TrendSignal.Shaped(t.indicators)
    ensures t.nextId == 1 && t.ask == NoQuote && t.bid == NoQuote
  {
    Trader(1, NoQuote, NoQuote, 0, 0, map[], map[], map[], TrendSignal.InitialIndicators())
  }

  /** What the trader keeps true between events: the per-side tracking invariant on
      both sides, distinct tracked ids, a position inside the limit, no hedges
      recorded, and indicator buffers of the declared lengths. The consistency of
      the indicator sums is a separate invariant (TrendSignal.Consistent). */
  predicate Inv(t: Trader)
  {
    && t.nextId >= 1
    && Tracked(t.ask, t.nextId)
    && Tracked(t.bid, t.nextId)
    && (t.ask.id != 0 ==> t.ask.id != t.bid.id)
    && -PositionLimit <= t.position <= PositionLimit
    && t.hedges == 0
    && TrendSignal.Shaped(t.indicators)
  }

  /** Nothing but the quotes and the id counter differs. */
  predicate SameBooks(a: Trader, b: Trader)
  {
    && a.position == b.position
    && a.hedges == b.hedges
    && a.longInventory == b.longInventory
    && a.shortInventory == b.shortInventory
    && a.lotSize == b.lotSize
    && a.indicators == b.indicators
  }

  /** The quote of one side: Sell is the ask side, Buy the bid side. */
  function SideQuote(t: Trader, side: Side): Quote
  {
    if side == Sell then t.ask else t.bid
  }

  /** Prices and volumes an order book asks for (autotrader.cc:232-239). */
  datatype Targets = Targets(askPrice: nat, bidPrice: nat, askVolume: nat, bidVolume: nat, midPrice: nat)

  function TargetsFor(position: int, book: Book): (g: Targets)
    ensures g.askPrice % TickSize == 0 && g.bidPrice % TickSize == 0
    ensures -PositionLimit <= position <= PositionLimit ==>
      && g.askPrice == AskTarget(book.bestAsk, 0, book.spread)
      && g.bidPrice == BidTarget(book.bestBid, 0, book.spread)
      && g.askVolume == PositionLimit + position
      && g.bidVolume == PositionLimit - position
  {
    var adjustment := PriceAdjustment(position);
    Targets(AskTarget(book.bestAsk, adjustment, book.spread),
            BidTarget(book.bestBid, adjustment, book.spread),
            AskVolume(position), BidVolume(position),
            (book.bestBid + book.bestAsk) / 2)
  }

  /** One re-quote pass on the ask (Sell) or bid (Buy) side of the trader, appending
      what it sends to the commands already sent. */
  function RequoteSide(acc: Step, side: Side, target: nat, volume: nat): (r: Step)
    ensures SameBooks(acc.trader, r.trader)
    ensures r.trader.nextId >= acc.trader.nextId
    ensures side == Sell ==> r.trader.bid == acc.trader.bid
    ensures side == Buy ==> r.trader.ask == acc.trader.ask
    ensures |r.commands| >= |acc.commands| && r.commands[..|acc.commands|] == acc.commands
    ensures target != 0 ==> SideQuote(r.trader, side).price == target
    ensures target == 0 || target == SideQuote(acc.trader, side).price ==> r == acc
  {
    var t := acc.trader;
    if side == Sell then
      var rq := Requote(t.ask, Sell, target, volume, t.nextId);
      Step(t.(ask := rq.quote, nextId := rq.nextId), acc.commands + rq.commands)
    else
      var rq := Requote(t.bid, Buy, target, volume, t.nextId);
      Step(t.(bid := rq.quote, nextId := rq.nextId), acc.commands + rq.commands)
  }

  /** The same pass run `times` times, as a ledger sweep runs it once per entry. */
  function RequoteRepeat(acc: Step, side: Side, target: nat, volume: nat, times: nat): (r: Step)
    ensures SameBooks(acc.trader, r.trader)
    ensures r.trader.nextId >= acc.trader.nextId
    ensures side == Sell ==> r.trader.bid == acc.trader.bid
    ensures side == Buy ==> r.trader.ask == acc.trader.ask
    ensures |r.commands| >= |acc.commands| && r.commands[..|acc.commands|] == acc.commands
    ensures times > 0 && target != 0 ==> SideQuote(r.trader, side).price == target
    decreases times
  {
    if times == 0 then acc
    else RequoteRepeat(RequoteSide(acc, side, target, volume), side, target, volume, times - 1)
  }

  /** The first re-quote of both sides (autotrader.cc:243-274): afterwards each side
      with a target quotes it, and a trader already quoting both targets is left as
      it was, with nothing sent. */
  function BaselinePass(t: Trader, g: Targets): (r: Step)
    ensures SameBooks(t, r.trader)
    ensures r.trader.nextId >= t.nextId
    ensures g.askPrice != 0 ==> r.trader.ask.price == g.askPrice
    ensures g.bidPrice != 0 ==> r.trader.bid.price == g.bidPrice
    ensures (g.askPrice == 0 || t.ask.price == g.askPrice) && (g.bidPrice == 0 || t.bid.price == g.bidPrice) ==>
      r == Step(t, [])
  {
    RequoteSide(RequoteSide(Step(t, []), Sell, g.askPrice, g.askVolume), Buy, g.bidPrice, g.bidVolume)
  }

  /** The signal-driven second re-quote (autotrader.cc:276-314): a BUY with enough
      history re-quotes the bid, a SELL re-quotes the ask. */
  function SignalPass(acc: Step, signal: TrendSignal.Signal, g: Targets): (r: Step)
    ensures SameBooks(acc.trader, r.trader)
    ensures r.trader.nextId >= acc.trader.nextId
    ensures |r.commands| >= |acc.commands| && r.commands[..|acc.commands|] == acc.commands
    ensures signal == TrendSignal.Neutral ==> r == acc
    ensures signal == TrendSignal.Buy && !TrendSignal.HistoryReady(acc.trader.indicators) ==> r == acc
    ensures signal == TrendSignal.Buy ==> r.trader.ask == acc.trader.ask
    ensures signal == TrendSignal.Buy && TrendSignal.HistoryReady(acc.trader.indicators) && g.bidPrice != 0 ==>
      r.trader.bid.price == g.bidPrice
    ensures signal == TrendSignal.Sell ==> r.trader.bid == acc.trader.bid
    ensures signal == TrendSignal.Sell && g.askPrice != 0 ==> r.trader.ask.price == g.askPrice
  {
    if TrendSignal.HistoryReady(acc.trader.indicators) && signal == TrendSignal.Buy then
      RequoteSide(acc, Buy, g.bidPrice, g.bidVolume)
    else if signal == TrendSignal.Sell then
      RequoteSide(acc, Sell, g.askPrice, g.askVolume)
    else
      acc
  }

  /** Long-ledger entries bought below the mid price. */
  function LongsInProfit(t: Trader, mid: nat): set<nat>
  {
    set id | id in t.longInventory && t.longInventory[id] < mid
  }

  /** Short-ledger entries sold above the mid price. */
  function ShortsInProfit(t: Trader, mid: nat): set<nat>
  {
    set id | id in t.shortInventory && t.shortInventory[id] > mid
  }

  /** The profit-taking sweep (autotrader.cc:316-370): outside the unload band, one
      ask re-quote per long entry in profit, then one bid re-quote per short entry
      in profit. The passes do not depend on which entry triggers them, so the
      unordered iteration order does not matter. */
  function ProfitTaking(acc: Step, t: Trader, g: Targets): (r: Step)
    ensures SameBooks(acc.trader, r.trader)
    ensures r.trader.nextId >= acc.trader.nextId
    ensures |r.commands| >= |acc.commands| && r.commands[..|acc.commands|] == acc.commands
    ensures -Unload < t.position < Unload ==> r == acc
    ensures LongsInProfit(t, g.midPrice) == {} ==> r.trader.ask == acc.trader.ask
    ensures ShortsInProfit(t, g.midPrice) == {} ==> r.trader.bid == acc.trader.bid
    ensures (t.position >= Unload || t.position <= -Unload) && LongsInProfit(t, g.midPrice) != {} && g.askPrice != 0 ==>
      r.trader.ask.price == g.askPrice
    ensures (t.position >= Unload || t.position <= -Unload) && ShortsInProfit(t, g.midPrice) != {} && g.bidPrice != 0 ==>
      r.trader.bid.price == g.bidPrice
  {
    if t.position >= Unload || t.position <= -Unload then
      var afterLongs := RequoteRepeat(acc, Sell, g.askPrice, g.askVolume, |LongsInProfit(t, g.midPrice)|);
      RequoteRepeat(afterLongs, Buy, g.bidPrice, g.bidVolume, |ShortsInProfit(t, g.midPrice)|)
    else
      acc
  }

  /** OrderBookMessageHandler (autotrader.cc:217-372). Only the FUTURE book does
      anything: re-quote both sides, update the indicator, then run the signal pass
      and the profit-taking sweep. */
  function OnOrderBook(t: Trader, book: Book): (r: Step)
    requires TrendSignal.Shaped(t.indicators)
    ensures TrendSignal.Shaped(r.trader.indicators)
    ensures r.trader.position == t.position && r.trader.hedges == t.hedges
    ensures r.trader.longInventory == t.longInventory && r.trader.shortInventory == t.shortInventory
    ensures r.trader.lotSize == t.lotSize
    ensures r.trader.nextId >= t.nextId
    ensures book.instrument != Future ==> r == Step(t, [])
  {
    if book.instrument != Future then Step(t, [])
    else
      var g := TargetsFor(t.position, book);
      var base := BaselinePass(t, g);
      var reading := TrendSignal.Ichimoku(t.indicators, book.bestAsk, book.bestBid);
      var acc := Step(base.trader.(indicators := reading.indicators), base.commands);
      ProfitTaking(SignalPass(acc, reading.signal, g), t, g)
  }

  /** `map.emplace(k, v)`: inserts only when the key is absent. */
  function Emplace(m: map<nat, nat>, k: nat, v: nat): (r: map<nat, nat>)
    ensures k in r && r.Keys == m.Keys + {k}
    ensures k in m ==> r == m
    ensures k !in m ==> r[k] == v
    ensures forall j :: j in m && j != k ==> r[j] == m[j]
  {
    if k in m then m else m[k := v]
  }

  function Abs(x: int): nat
  {
    if x < 0 then -x else x
  }

  /** OrderFilledMessageHandler (autotrader.cc:376-401). A fill of the tracked ask
      (bid) side moves the position down (up) only if the limit still holds, always
      hedges the same volume on the other side at the extreme tick, and records the
      fill price in the short (long) ledger; every fill records its volume in the
      lot-size ledger. Ledger entries are never overwritten. */
  function OnOrderFilled(t: Trader, venue: VenueLimits, id: nat, price: nat, volume: nat): (r: Step)
    ensures r.trader.position == t.position || Abs(r.trader.position) <= PositionLimit
    ensures r.trader.hedges == t.hedges && r.trader.indicators == t.indicators
    ensures r.trader.ask == t.ask && r.trader.bid == t.bid
    ensures r.trader.lotSize == Emplace(t.lotSize, id, volume)
  {
    var lots := Emplace(t.lotSize, id, volume);
    if id in t.ask.live then
      var newPosition := t.position - volume;
      var position := if Abs(newPosition + t.hedges) <= PositionLimit && Abs(newPosition) <= PositionLimit
                      then newPosition else t.position;
      var hedge := Hedge(t.nextId, Buy, MaxAskNearestTick(venue), volume);
      Step(t.(position := position, nextId := t.nextId + 1,
              shortInventory := Emplace(t.shortInventory, id, price), lotSize := lots), [hedge])
    else if id in t.bid.live then
      var newPosition := t.position + volume;
      var position := if Abs(newPosition - t.hedges) <= PositionLimit && Abs(newPosition) <= PositionLimit
                      then newPosition else t.position;
      var hedge := Hedge(t.nextId, Sell, MinBidNearestTick(venue), volume);
      Step(t.(position := position, nextId := t.nextId + 1,
              longInventory := Emplace(t.longInventory, id, price), lotSize := lots), [hedge])
    else
      Step(t.(lotSize := lots), [])
  }

  /** `ledger[k] += delta` on an `unsigned long` map: a missing entry starts at 0 and
      the sum wraps modulo 2^64. */
  function AddToEntry(m: map<nat, nat>, k: nat, delta: int): (r: map<nat, nat>)
    ensures r.Keys == m.Keys + {k}
    ensures forall j :: j in m && j != k ==> r[j] == m[j]
    ensures r[k] < U64
    ensures (r[k] - (if k in m then m[k] else 0) - delta) % U64 == 0
  {
    m[k := ToUnsigned((if k in m then m[k] else 0) + delta)]
  }

  /** OrderStatusMessageHandler (autotrader.cc:405-439). A status with nothing
      remaining ends the order: the side tracking it (the ask side first) is freed and
      the id leaves both live sets. Otherwise the fees shift both cost-basis ledgers
      and the remaining volume overwrites the lot-size entry. */
  function OnOrderStatus(t: Trader, id: nat, fillVolume: nat, remainingVolume: nat, fees: int): (r: Step)
    ensures r.commands == []
    ensures r.trader.nextId == t.nextId && r.trader.position == t.position
    ensures r.trader.hedges == t.hedges && r.trader.indicators == t.indicators
  {
    if remainingVolume == 0 then
      var ask := if id == t.ask.id then t.ask.(id := 0, pendingCancel := false) else t.ask;
      var bid := if id != t.ask.id && id == t.bid.id then t.bid.(id := 0, pendingCancel := false) else t.bid;
      Step(t.(ask := ask.(live := ask.live - {id}), bid := bid.(live := bid.live - {id})), [])
    else
      Step(t.(longInventory := AddToEntry(t.longInventory, id, fees),
              shortInventory := AddToEntry(t.shortInventory, id, -fees),
              lotSize := t.lotSize[id := remainingVolume]), [])
  }

  /** ErrorMessageHandler (autotrader.cc:89-99): an error about a live order is
      handled as a status with nothing filled and nothing remaining; any other error
      (in particular one with order id 0) changes nothing. */
  function OnError(t: Trader, id: nat, message: string): (r: Step)
    ensures r.commands == []
    ensures id == 0 || (id !in t.ask.live && id !in t.bid.live) ==> r.trader == t
    ensures Inv(t) && id != 0 && id in t.ask.live ==>
      r.trader.ask.id == 0 && !r.trader.ask.pendingCancel && r.trader.ask.live == {} && r.trader.bid == t.bid
    ensures Inv(t) && id != 0 && id in t.bid.live ==>
      r.trader.bid.id == 0 && !r.trader.bid.pendingCancel && r.trader.bid.live == {} && r.trader.ask == t.ask
  {
    if id != 0 && (id in t.ask.live || id in t.bid.live) then
      OnOrderStatus(t, id, 0, 0, 0)
    else
      Step(t, [])
  }

  /** The events the trader reacts to. Disconnects, hedge fills and trade ticks only
      log and are not events of this model. */
  datatype Event =
    | OrderBook(book: Book)
    | OrderFilled(filledId: nat, price: nat, volume: nat)
    | OrderStatus(statusId: nat, fillVolume: nat, remainingVolume: nat, fees: int)
    | Error(errorId: nat, message: string)

  /** The handler each event is dispatched to. Only an order book moves the
      indicators; statuses and errors never send anything; a fill sends at most the
      one hedge. */
  function Apply(t: Trader, venue: VenueLimits, e: Event): (r: Step)
    requires TrendSignal.Shaped(t.indicators)
    ensures TrendSignal.Shaped(r.trader.indicators)
    ensures r.trader.nextId >= t.nextId
    ensures !e.OrderBook? ==> r.trader.indicators == t.indicators
    ensures e.OrderStatus? || e.Error? ==> r.commands == []
    ensures e.OrderFilled? ==> |r.commands| <= 1 && r.trader.nextId <= t.nextId + 1
  {
    match e
    case OrderBook(book) => OnOrderBook(t, book)
    case OrderFilled(id, price, volume) => OnOrderFilled(t, venue, id, price, volume)
    case OrderStatus(id, fill, remaining, fees) => OnOrderStatus(t, id, fill, remaining, fees)
    case Error(id, message) => OnError(t, id, message)
  }

  /** Events delivered one at a time, in order; all commands sent, in order. */
  function Run(t: Trader, venue: VenueLimits, events: seq<Event>): (r: Step)
    requires TrendSignal.Shaped(t.indicators)
    ensures TrendSignal.Shaped(r.trader.indicators)
    ensures r.trader.nextId >= t.nextId
    ensures (forall i :: 0 <= i < |events| ==> !events[i].OrderBook?) ==> r.trader.indicators == t.indicators
    ensures (forall i :: 0 <= i < |events| ==> events[i].OrderStatus? || events[i].Error?) ==> r.commands == []
    decreases |events|
  {
    if |events| == 0 then Step(t, [])
    else
      var before := Run(t, venue, events[..|events| - 1]);
      var last := Apply(before.trader, venue, events[|events| - 1]);
      Step(last.trader, before.commands + last.commands)
  }
}
