/**
 Properties of the trader's step functions: the invariant every handler keeps,
 what each handler sends, why only the first re-quote pass of an order book can
 send anything, and how order ids are issued over a whole run of events.
 */
module TraderProperties {
  import opened Quoting
  import TrendSignal
  import opened AutoTrader

  // ---------------------------------------------------------------- initial state

  /** A new trader has no live order on either side and satisfies the invariant. */
  lemma InitialSatisfiesInvariant()
    ensures Inv(Initial())
    ensures Initial().ask.live == {} && Initial().bid.live == {}
    ensures !Initial().ask.pendingCancel && !Initial().bid.pendingCancel
  {
  }

  // ---------------------------------------------------------------- order book

  /** Both sides quote their targets, or have no target at all. */
  predicate Settled(t: Trader, g: Targets)
  {
    && (g.askPrice == 0 || t.ask.price == g.askPrice)
    && (g.bidPrice == 0 || t.bid.price == g.bidPrice)
  }

  /** Re-quoting a side that already quotes its target changes nothing, however
      many times it is repeated. */
  lemma {:induction false} RepeatOnSettledSide(acc: Step, side: Side, target: nat, volume: nat, times: nat)
    requires target == 0 || SideQuote(acc.trader, side).price == target
    ensures RequoteRepeat(acc, side, target, volume, times) == acc
    decreases times
  {
    if times > 0 {
      assert RequoteSide(acc, side, target, volume) == acc;
      RepeatOnSettledSide(acc, side, target, volume, times - 1);
    }
  }

  /** Once both sides are settled, the signal pass does nothing, whatever the signal. */
  lemma SignalPassOnSettled(acc: Step, signal: TrendSignal.Signal, g: Targets)
    requires Settled(acc.trader, g)
    ensures SignalPass(acc, signal, g) == acc
  {
  }

  /** Once both sides are settled, the profit-taking sweep does nothing. */
  lemma ProfitTakingOnSettled(acc: Step, t: Trader, g: Targets)
    requires Settled(acc.trader, g)
    ensures ProfitTaking(acc, t, g) == acc
  {
    if t.position >= Unload || t.position <= -Unload {
      RepeatOnSettledSide(acc, Sell, g.askPrice, g.askVolume, |LongsInProfit(t, g.midPrice)|);
      RepeatOnSettledSide(acc, Buy, g.bidPrice, g.bidVolume, |ShortsInProfit(t, g.midPrice)|);
    }
  }

  /** The FUTURE order book handler is its first re-quote pass plus the indicator
      update: the signal pass and the profit-taking sweep never send or change
      anything, because the first pass already moved both quoted prices to the
      targets they would re-quote to. */
  lemma OnlyBaselinePassSends(t: Trader, book: Book)
    requires TrendSignal.Shaped(t.indicators) && book.instrument == Future
    ensures var g := TargetsFor(t.position, book);
      var base := BaselinePass(t, g);
      var reading := TrendSignal.Ichimoku(t.indicators, book.bestAsk, book.bestBid);
      OnOrderBook(t, book) == Step(base.trader.(indicators := reading.indicators), base.commands)
  {
    var g := TargetsFor(t.position, book);
    var base := BaselinePass(t, g);
    var reading := TrendSignal.Ichimoku(t.indicators, book.bestAsk, book.bestBid);
    var acc := Step(base.trader.(indicators := reading.indicators), base.commands);
    SignalPassOnSettled(acc, reading.signal, g);
    ProfitTakingOnSettled(acc, t, g);
  }

  /** Handling the same order book twice in a row sends nothing the second time. */
  lemma ReplayedBookSendsNothing(t: Trader, book: Book)
    requires TrendSignal.Shaped(t.indicators)
    ensures OnOrderBook(OnOrderBook(t, book).trader, book).commands == []
  {
    if book.instrument == Future {
      var t1 := OnOrderBook(t, book).trader;
      var g := TargetsFor(t.position, book);
      OnlyBaselinePassSends(t, book);
      OnlyBaselinePassSends(t1, book);
    }
  }

  /** What one re-quote pass on a side sends, stated against the state before it. */
  predicate SentBySide(c: Command, q: Quote, side: Side, target: nat, volume: nat)
  {
    match c
    case Cancel(id) => id == q.id && id != 0
    case Insert(_, s, price, v) =>
      s == side && price == target && v == volume && q.id == 0 && !q.pendingCancel && v > 0
    case Hedge(_, _, _, _) => false
  }

  /** Everything one re-quote pass sends is allowed by the protocol. */
  lemma RequoteSendsOnlyProtocol(q: Quote, side: Side, target: nat, volume: nat, nextId: nat)
    ensures forall c :: c in Requote(q, side, target, volume, nextId).commands ==>
      SentBySide(c, q, side, target, volume)
  {
  }

  /** The commands of the first pass: the ask side's, then the bid side's. */
  lemma BaselineCommands(t: Trader, g: Targets)
    ensures var ra := Requote(t.ask, Sell, g.askPrice, g.askVolume, t.nextId);
      var rb := Requote(t.bid, Buy, g.bidPrice, g.bidVolume, ra.nextId);
      BaselinePass(t, g).commands == ra.commands + rb.commands
  {
  }

  /** What an order book may send, stated against the state before it. */
  predicate BookCommand(c: Command, t: Trader)
  {
    && !c.Hedge?
    && (c.Cancel? ==> c.id != 0 && (c.id == t.ask.id || c.id == t.bid.id))
    && (c.Insert? ==> c.price != 0 && c.price % TickSize == 0 && c.volume >= 1)
    && (c.Insert? && c.side == Sell ==>
          t.ask.id == 0 && !t.ask.pendingCancel && c.volume <= PositionLimit + t.position)
    && (c.Insert? && c.side == Buy ==>
          t.bid.id == 0 && !t.bid.pendingCancel && c.volume <= PositionLimit - t.position)
  }

  /** The order book commands: at most two; a cancel only for the order a side
      currently tracks, an insert only on a side with no order and no cancel in
      flight, at a non-zero tick price, for a volume that keeps the position inside
      the limit. */
  lemma BookCommands(t: Trader, book: Book)
    requires Inv(t)
    ensures var r := OnOrderBook(t, book);
      && |r.commands| <= 2
      && forall c :: c in r.commands ==> BookCommand(c, t)
  {
    if book.instrument == Future {
      var g := TargetsFor(t.position, book);
      OnlyBaselinePassSends(t, book);
      BaselineCommands(t, g);
      var ra := Requote(t.ask, Sell, g.askPrice, g.askVolume, t.nextId);
      var rb := Requote(t.bid, Buy, g.bidPrice, g.bidVolume, ra.nextId);
      var cmds := OnOrderBook(t, book).commands;
      assert cmds == ra.commands + rb.commands;
      RequoteSendsOnlyProtocol(t.ask, Sell, g.askPrice, g.askVolume, t.nextId);
      RequoteSendsOnlyProtocol(t.bid, Buy, g.bidPrice, g.bidVolume, ra.nextId);
      assert g.askVolume == PositionLimit + t.position && g.bidVolume == PositionLimit - t.position;
      forall c | c in cmds
        ensures BookCommand(c, t)
      {
        if c in ra.commands {
          assert SentBySide(c, t.ask, Sell, g.askPrice, g.askVolume);
        } else {
          assert SentBySide(c, t.bid, Buy, g.bidPrice, g.bidVolume);
        }
      }
    }
  }

  /** Where the FUTURE order book leaves the quotes and the id counter: exactly where
      the first pass on the ask side, then on the bid side, puts them. */
  lemma BookQuotes(t: Trader, book: Book)
    requires TrendSignal.Shaped(t.indicators) && book.instrument == Future
    ensures var g := TargetsFor(t.position, book);
      var ra := Requote(t.ask, Sell, g.askPrice, g.askVolume, t.nextId);
      var rb := Requote(t.bid, Buy, g.bidPrice, g.bidVolume, ra.nextId);
      var r := OnOrderBook(t, book).trader;
      r.ask == ra.quote && r.bid == rb.quote && r.nextId == rb.nextId
  {
    OnlyBaselinePassSends(t, book);
  }

  /** The order book handler keeps the invariant. */
  lemma BookKeepsInvariant(t: Trader, book: Book)
    requires Inv(t)
    ensures Inv(OnOrderBook(t, book).trader)
  {
    if book.instrument == Future {
      var g := TargetsFor(t.position, book);
      BookQuotes(t, book);
      var ra := Requote(t.ask, Sell, g.askPrice, g.askVolume, t.nextId);
      assert Tracked(t.bid, ra.nextId);
    }
  }

  /** An order book never takes an order out of a live set: an order it cancels stays
      live, with its cancel pending, until the order's terminal status. */
  lemma BookKeepsLiveOrders(t: Trader, book: Book)
    requires TrendSignal.Shaped(t.indicators)
    ensures t.ask.live <= OnOrderBook(t, book).trader.ask.live
    ensures t.bid.live <= OnOrderBook(t, book).trader.bid.live
  {
    if book.instrument == Future {
      BookQuotes(t, book);
    }
  }

  /** A fill of the resting ask order is hedged even after a book has sent its
      cancel: the fill handler looks at the live set, not at the tracked id. */
  lemma AskHedgedAfterBook(t: Trader, venue: VenueLimits, book: Book, price: nat, volume: nat)
    requires Inv(t) && t.ask.id in t.ask.live
    ensures var t1 := OnOrderBook(t, book).trader;
      OnOrderFilled(t1, venue, t.ask.id, price, volume).commands == [Hedge(t1.nextId, Buy, MaxAskNearestTick(venue), volume)]
  {
    var t1 := OnOrderBook(t, book).trader;
    BookKeepsLiveOrders(t, book);
    BookKeepsInvariant(t, book);
    AskFill(t1, venue, t.ask.id, price, volume);
  }

  /** The mirror image for the resting bid order. */
  lemma BidHedgedAfterBook(t: Trader, venue: VenueLimits, book: Book, price: nat, volume: nat)
    requires Inv(t) && t.bid.id in t.bid.live
    ensures var t1 := OnOrderBook(t, book).trader;
      OnOrderFilled(t1, venue, t.bid.id, price, volume).commands == [Hedge(t1.nextId, Sell, MinBidNearestTick(venue), volume)]
  {
    var t1 := OnOrderBook(t, book).trader;
    BookKeepsLiveOrders(t, book);
    BookKeepsInvariant(t, book);
    BidFill(t1, venue, t.bid.id, price, volume);
  }

  /** Cancel and replace never replaces: a book that moves the ask target while an ask
      order rests only cancels it, yet records the new price as quoted. Once the
      cancel completes the side is empty, and the same book sends nothing more, so
      the side stays empty until the target moves again. */
  lemma CancelLeavesSideEmpty(t: Trader, book: Book)
    requires Inv(t) && book.instrument == Future && t.ask.id != 0
    requires var g := TargetsFor(t.position, book); g.askPrice != 0 && g.askPrice != t.ask.price
    ensures var first := OnOrderBook(t, book);
      var freed := OnOrderStatus(first.trader, t.ask.id, 0, 0, 0).trader;
      && |first.commands| >= 1 && first.commands[0] == Cancel(t.ask.id)
      && freed.ask.id == 0 && freed.ask.price == TargetsFor(t.position, book).askPrice
      && OnOrderBook(freed, book).commands == []
  {
    var g := TargetsFor(t.position, book);
    var first := OnOrderBook(t, book);
    BookQuotes(t, book);
    BaselineCommands(t, g);
    var ra := Requote(t.ask, Sell, g.askPrice, g.askVolume, t.nextId);
    assert ra.commands == [Cancel(t.ask.id)];
    var freed := OnOrderStatus(first.trader, t.ask.id, 0, 0, 0).trader;
    OnlyBaselinePassSends(freed, book);
  }

  /** The ids an order book handler issues are next, next + 1, ... in order. */
  lemma BookIssuesConsecutiveIds(t: Trader, book: Book)
    requires TrendSignal.Shaped(t.indicators)
    ensures var r := OnOrderBook(t, book);
      IssuedIds(r.commands) == Range(t.nextId, r.trader.nextId)
  {
    if book.instrument == Future {
      var g := TargetsFor(t.position, book);
      OnlyBaselinePassSends(t, book);
      var ra := Requote(t.ask, Sell, g.askPrice, g.askVolume, t.nextId);
      var t1 := t.(ask := ra.quote, nextId := ra.nextId);
      var rb := Requote(t1.bid, Buy, g.bidPrice, g.bidVolume, t1.nextId);
      assert BaselinePass(t, g).commands == [] + ra.commands + rb.commands;
      IssuedIdsAppend([] + ra.commands, rb.commands);
      RangeAppend(t.nextId, ra.nextId, rb.nextId);
    }
  }

  // ---------------------------------------------------------------- fills

  /** A fill of the tracked ask order hedges the same volume by buying at the top
      tick, even when the position guard rejects the update; the position moves down
      by the volume exactly when that stays inside the limit; the short ledger keeps
      an existing entry. */
  lemma AskFill(t: Trader, venue: VenueLimits, id: nat, price: nat, volume: nat)
    requires Inv(t) && id in t.ask.live
    ensures var r := OnOrderFilled(t, venue, id, price, volume);
      && r.commands == [Hedge(t.nextId, Buy, MaxAskNearestTick(venue), volume)]
      && r.trader.nextId == t.nextId + 1
      && (Abs(t.position - volume) <= PositionLimit ==> r.trader.position == t.position - volume)
      && (Abs(t.position - volume) > PositionLimit ==> r.trader.position == t.position)
      && r.trader.longInventory == t.longInventory
      && id in r.trader.shortInventory
      && (id in t.shortInventory ==> r.trader.shortInventory == t.shortInventory)
      && (id !in t.shortInventory ==> r.trader.shortInventory[id] == price)
  {
  }

  /** The mirror image for the tracked bid order: hedge by selling at the bottom
      tick, position up by the volume when that stays inside the limit. */
  lemma BidFill(t: Trader, venue: VenueLimits, id: nat, price: nat, volume: nat)
    requires Inv(t) && id in t.bid.live
    ensures var r := OnOrderFilled(t, venue, id, price, volume);
      && r.commands == [Hedge(t.nextId, Sell, MinBidNearestTick(venue), volume)]
      && r.trader.nextId == t.nextId + 1
      && (Abs(t.position + volume) <= PositionLimit ==> r.trader.position == t.position + volume)
      && (Abs(t.position + volume) > PositionLimit ==> r.trader.position == t.position)
      && r.trader.shortInventory == t.shortInventory
      && id in r.trader.longInventory
      && (id in t.longInventory ==> r.trader.longInventory == t.longInventory)
      && (id !in t.longInventory ==> r.trader.longInventory[id] == price)
  {
    assert id !in t.ask.live;
  }

  /** A fill for an order no side tracks sends nothing and changes only the
      lot-size ledger, and that only when the id had no entry yet. */
  lemma UntrackedFill(t: Trader, venue: VenueLimits, id: nat, price: nat, volume: nat)
    requires id !in t.ask.live && id !in t.bid.live
    ensures var r := OnOrderFilled(t, venue, id, price, volume);
      && r.commands == []
      && r.trader.(lotSize := t.lotSize) == t
      && (id in t.lotSize ==> r.trader == t)
  {
  }

  /** Fills keep the invariant; in particular the position never leaves the limit. */
  lemma FillKeepsInvariant(t: Trader, venue: VenueLimits, id: nat, price: nat, volume: nat)
    requires Inv(t)
    ensures Inv(OnOrderFilled(t, venue, id, price, volume).trader)
  {
  }

  // ---------------------------------------------------------------- statuses and errors

  /** A side with no order and no cancel in flight: free for a new insert. */
  predicate Free(q: Quote)
  {
    q.id == 0 && !q.pendingCancel
  }

  /** A status with nothing remaining frees the side whose id matches (the ask side
      is matched first), removes the id from both live sets, keeps both quoted
      prices and leaves every ledger as it was. */
  lemma TerminalStatus(t: Trader, id: nat, fillVolume: nat, fees: int)
    ensures var r := OnOrderStatus(t, id, fillVolume, 0, fees).trader;
      && r.ask.live == t.ask.live - {id} && r.bid.live == t.bid.live - {id}
      && r.ask.price == t.ask.price && r.bid.price == t.bid.price
      && (id == t.ask.id ==> Free(r.ask) && r.bid.id == t.bid.id && r.bid.pendingCancel == t.bid.pendingCancel)
      && (id != t.ask.id && id == t.bid.id ==> Free(r.bid) && r.ask.id == t.ask.id && r.ask.pendingCancel == t.ask.pendingCancel)
      && (id != t.ask.id && id != t.bid.id ==>
            r.ask.id == t.ask.id && r.ask.pendingCancel == t.ask.pendingCancel
            && r.bid.id == t.bid.id && r.bid.pendingCancel == t.bid.pendingCancel)
      && r.longInventory == t.longInventory && r.shortInventory == t.shortInventory
      && r.lotSize == t.lotSize
  {
  }

  /** A status with volume remaining leaves the quotes alone, shifts the order's
      long-ledger entry up and its short-ledger entry down by the fees (modulo 2^64,
      from 0 when absent), overwrites its lot size, and touches no other entry. */
  lemma NonTerminalStatus(t: Trader, id: nat, fillVolume: nat, remainingVolume: nat, fees: int)
    requires remainingVolume > 0
    ensures var r := OnOrderStatus(t, id, fillVolume, remainingVolume, fees).trader;
      && r.ask == t.ask && r.bid == t.bid
      && id in r.longInventory && id in r.shortInventory
      && (r.longInventory[id] - (if id in t.longInventory then t.longInventory[id] else 0) - fees) % U64 == 0
      && (r.shortInventory[id] - (if id in t.shortInventory then t.shortInventory[id] else 0) + fees) % U64 == 0
      && (forall j :: j in t.longInventory && j != id ==> j in r.longInventory && r.longInventory[j] == t.longInventory[j])
      && (forall j :: j in t.shortInventory && j != id ==> j in r.shortInventory && r.shortInventory[j] == t.shortInventory[j])
      && id in r.lotSize && r.lotSize[id] == remainingVolume
      && (forall j :: j in t.lotSize && j != id ==> j in r.lotSize && r.lotSize[j] == t.lotSize[j])
  {
  }

  lemma StatusKeepsInvariant(t: Trader, id: nat, fillVolume: nat, remainingVolume: nat, fees: int)
    requires Inv(t)
    ensures Inv(OnOrderStatus(t, id, fillVolume, remainingVolume, fees).trader)
  {
  }

  /** An error about a live order is the terminal status of that order. */
  lemma ErrorIsTerminalStatus(t: Trader, id: nat, message: string)
    requires id != 0 && (id in t.ask.live || id in t.bid.live)
    ensures OnError(t, id, message) == OnOrderStatus(t, id, 0, 0, 0)
  {
  }

  lemma ErrorKeepsInvariant(t: Trader, id: nat, message: string)
    requires Inv(t)
    ensures Inv(OnError(t, id, message).trader)
  {
    if id != 0 && (id in t.ask.live || id in t.bid.live) {
      StatusKeepsInvariant(t, id, 0, 0, 0);
    }
  }

  // ---------------------------------------------------------------- any event

  lemma StepKeepsInvariant(t: Trader, venue: VenueLimits, e: Event)
    requires Inv(t)
    ensures Inv(Apply(t, venue, e).trader)
  {
    match e
    case OrderBook(book) => BookKeepsInvariant(t, book);
    case OrderFilled(id, price, volume) => FillKeepsInvariant(t, venue, id, price, volume);
    case OrderStatus(id, fill, remaining, fees) => StatusKeepsInvariant(t, id, fill, remaining, fees);
    case Error(id, message) => ErrorKeepsInvariant(t, id, message);
  }

  /** Only a status with nothing remaining for the tracked order (or an error about
      it) frees a side; every other event leaves an occupied side occupied. */
  lemma OnlyTerminalStatusFreesSide(t: Trader, venue: VenueLimits, e: Event)
    requires Inv(t)
    ensures var r := Apply(t, venue, e).trader;
      && (t.ask.id != 0 && r.ask.id != t.ask.id ==>
            (e.OrderStatus? && e.statusId == t.ask.id && e.remainingVolume == 0) || (e.Error? && e.errorId == t.ask.id))
      && (t.bid.id != 0 && r.bid.id != t.bid.id ==>
            (e.OrderStatus? && e.statusId == t.bid.id && e.remainingVolume == 0) || (e.Error? && e.errorId == t.bid.id))
  {
    if e.OrderBook? && e.book.instrument == Future {
      BookQuotes(t, e.book);
    }
  }

  /** Each event issues the ids next, next + 1, ... in order, and nothing else. */
  lemma StepIssuesConsecutiveIds(t: Trader, venue: VenueLimits, e: Event)
    requires TrendSignal.Shaped(t.indicators)
    ensures var r := Apply(t, venue, e);
      IssuedIds(r.commands) == Range(t.nextId, r.trader.nextId)
  {
    match e
    case OrderBook(book) => BookIssuesConsecutiveIds(t, book);
    case OrderFilled(id, price, volume) =>
      var r := OnOrderFilled(t, venue, id, price, volume);
      if id in t.ask.live || id in t.bid.live {
        assert r.commands == [r.commands[0]] && r.commands[0].Hedge?;
        assert r.commands[0].id == t.nextId && r.trader.nextId == t.nextId + 1;
        assert r.commands[..0] == [];
        assert IssuedIds(r.commands) == [t.nextId];
      }
    case OrderStatus(id, fill, remaining, fees) =>
    case Error(id, message) =>
  }

  /** Every price a step sends is on a tick, and every insert price is non-zero. */
  predicate PricedOnTicks(cmds: seq<Command>)
  {
    forall c :: c in cmds && !c.Cancel? ==> c.price % TickSize == 0 && (c.Insert? ==> c.price != 0)
  }

  lemma StepPricesOnTicks(t: Trader, venue: VenueLimits, e: Event)
    requires Inv(t)
    ensures PricedOnTicks(Apply(t, venue, e).commands)
  {
    if e.OrderBook? {
      BookCommands(t, e.book);
    }
  }

  // ---------------------------------------------------------------- runs of events

  /** Over any run of events from a state satisfying the invariant: the invariant
      holds at the end (so the position is still inside the limit and no side tracks
      more than one order), every price sent is on a tick, and the ids sent are
      exactly next, next + 1, ... in order, hence distinct and non-zero. */
  lemma {:induction false} RunKeepsInvariant(t: Trader, venue: VenueLimits, events: seq<Event>)
    requires Inv(t)
    ensures var r := Run(t, venue, events);
      && Inv(r.trader)
      && PricedOnTicks(r.commands)
      && IssuedIds(r.commands) == Range(t.nextId, r.trader.nextId)
    decreases |events|
  {
    if |events| > 0 {
      var before := Run(t, venue, events[..|events| - 1]);
      RunKeepsInvariant(t, venue, events[..|events| - 1]);
      var e := events[|events| - 1];
      var last := Apply(before.trader, venue, e);
      StepKeepsInvariant(before.trader, venue, e);
      StepPricesOnTicks(before.trader, venue, e);
      StepIssuesConsecutiveIds(before.trader, venue, e);
      IssuedIdsAppend(before.commands, last.commands);
      RangeAppend(t.nextId, before.trader.nextId, last.trader.nextId);
    }
  }

  // ---------------------------------------------------------------- indicator sums

  /** Every event keeps the indicator state consistent: only the FUTURE order book
      touches it, through one Ichimoku update. */
  lemma StepKeepsIndicatorsConsistent(t: Trader, venue: VenueLimits, e: Event)
    requires TrendSignal.Consistent(t.indicators)
    ensures TrendSignal.Consistent(Apply(t, venue, e).trader.indicators)
  {
    if e.OrderBook? && e.book.instrument == Future {
      OnlyBaselinePassSends(t, e.book);
      TrendSignal.IchimokuKeepsConsistent(t.indicators, e.book.bestAsk, e.book.bestBid);
    }
  }

  lemma {:induction false} RunKeepsIndicatorsConsistent(t: Trader, venue: VenueLimits, events: seq<Event>)
    requires TrendSignal.Consistent(t.indicators)
    ensures TrendSignal.Consistent(Run(t, venue, events).trader.indicators)
    decreases |events|
  {
    if |events| > 0 {
      RunKeepsIndicatorsConsistent(t, venue, events[..|events| - 1]);
      var before := Run(t, venue, events[..|events| - 1]);
      StepKeepsIndicatorsConsistent(before.trader, venue, events[|events| - 1]);
    }
  }

  /** Over any run from a consistent indicator state (the initial one is, by
      TrendSignal.InitialIndicatorsConsistent), no unsigned `sum -= buffer[index]`
      of the next indicator update, for whatever book comes next, can go below
      zero: every accumulator is at least the sample its ring's cursor is about to
      evict, and the lagging push's subtraction is taken from the leading-span-B
      accumulator as the leading span B push left it. */
  lemma SumsNeverUnderflow(t: Trader, venue: VenueLimits, events: seq<Event>, bestAsk: nat, bestBid: nat)
    requires TrendSignal.Consistent(t.indicators)
    ensures var ind := Run(t, venue, events).trader.indicators;
      && ind.conversionLineSum >= ind.conversionLine.slots[ind.conversionLine.index]
      && ind.baselineSum >= ind.baseline.slots[ind.baseline.index]
      && ind.leadingSpanBSum >= ind.leadingSpanB.slots[ind.leadingSpanB.index]
      && TrendSignal.Advance(ind, bestAsk, bestBid).spanB.sum >= ind.laggingSpan.slots[ind.laggingSpan.index]
  {
    RunKeepsIndicatorsConsistent(t, venue, events);
    TrendSignal.NoUnsignedUnderflow(Run(t, venue, events).trader.indicators, bestAsk, bestBid);
  }

  /** From the initial state, the ids of all orders and hedges ever sent are
      distinct, and none is 0, so 0 can stand for "no order". */
  lemma IssuedIdsAreDistinct(venue: VenueLimits, events: seq<Event>)
    ensures var ids := IssuedIds(Run(Initial(), venue, events).commands);
      && (forall i :: 0 <= i < |ids| ==> ids[i] != 0)
      && (forall i, j :: 0 <= i < j < |ids| ==> ids[i] < ids[j])
  {
    var t := Initial();
    InitialSatisfiesInvariant();
    RunKeepsInvariant(t, venue, events);
    var r := Run(t, venue, events);
    assert IssuedIds(r.commands) == Range(1, r.trader.nextId);
  }
}
