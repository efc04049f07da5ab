# AutoTrader decision core, modelled in Dafny

A model of the decision core of the `AutoTrader` market maker (a Ready Trader Go
competitor written in C++). FUTURE order books drive the quoting: from each one the
trader derives an ask and a bid target, rounded down to a tick, and re-quotes a
side when its target is non-zero and differs from the price it last recorded for
that side. A re-quote cancels the side's resting order if there is one, and
otherwise, when no cancel is pending and the limit leaves room, inserts a new
order. Fills of orders still in the trader's live sets are hedged. The
trader keeps cost-basis and lot-size ledgers per order id, and runs an
Ichimoku-style trend indicator over four circular buffers.

The model is functional: one immutable `Trader` record holds everything the
class and the process-wide indicator globals hold (`AutoTrader.Trader`), and each
message handler is a pure step function returning the new record and the
commands sent (`Insert`, `Cancel`, `Hedge`).

Files:

- `circular_buffer.dfy` — module `CircularBuffer`: the fixed-capacity buffer with
  its cursor and fill count, the push of `updateCircularBufferWithNewValue`, and
  the proof that the running sum over the count is the floor mean of the last
  `min(n, capacity)` pushed values.
- `trend_signal.dfy` — module `TrendSignal`: the four indicator buffers and three
  accumulators, `Ichimoku`, the lagging reference index, and the consistency of
  the accumulators.
- `quoting.dfy` — module `Quoting`: the constants, the command type, the per-side
  quote record, target prices and volumes, and the cancel-then-insert re-quote
  pass every branch of the order book handler repeats.
- `auto_trader.dfy` — module `AutoTrader`: the trader record, its initial value,
  the four handlers, and runs of events.
- `properties.dfy` — module `TraderProperties`: the invariant, what each handler
  sends, why only the first re-quote pass of an order book can send anything, and
  how ids are issued over a run.

Behaviour modelled exactly as the code has it, although it looks unintended:

- The conversion-line window is `conversion_line_size = 9`, the baseline window
  `baseline_size = 26`; the constants `CONVERSION_LINE_SIZE = 10` and
  `BASELINE_SIZE = 9` are never read (`Quoting.DeclaredConversionLineSize`,
  `Quoting.DeclaredBaselineSize`).
- The lagging-span push subtracts from and adds to `leadingSpanBSum`, the
  leading-span-B accumulator; the lagging buffer has no sum of its own.
- Leading span B is `(leadingSpanBSum + baseline) / 2`: a sum, not a mean.
- The lagging reference slot `(index - baseline_size + size) % size` is the
  cursor itself, since the buffer length is `baseline_size`; both lagging
  comparisons compare a value with itself, so `Ichimoku` always yields NEUTRAL.
- The history guard `leadingSpanBBuffer.size() >= 52` is always true, since the
  vector is built with 52 elements.
- Inside the position limit the price skew `-(mPosition / LOT_SIZE) * TICK` is 0.
- `emplace` never overwrites a ledger entry; `operator[]` creates a zero entry.
- Cancel and replace never replaces. A re-quote of a side with a resting order
  only cancels it, yet records the new target as the side's price. Once the cancel
  completes, the same target sends nothing, so the side stays empty until its
  target moves again (`TraderProperties.CancelLeavesSideEmpty`).
- A cancelled order stays in the live set until its terminal status, so a fill
  that overtakes the cancel is still hedged (`TraderProperties.AskHedgedAfterBook`).

## Model

| member | source | states |
|---|---|---|
| CircularBuffer.Push | autotrader.cc:112-127 | a push writes the value under the cursor and leaves every other slot alone, keeps the cursor in range, makes the count `min(count + 1, capacity)` (so at least 1, and the divisions after it are safe), keeps the ring well formed, and keeps the accumulator minus the slot total unchanged |
| CircularBuffer.PushKeepsLastValues | autotrader.cc:112-127 | one push extends the history by one value and keeps "the ring holds the last min(n, capacity) values by age, and the accumulator is their sum" |
| CircularBuffer.PushAllKeepsLastValues | autotrader.cc:112-127 | after any history of pushes into a zeroed ring, the slots hold exactly the last min(n, capacity) values, each at its age's slot, and the accumulator is their sum |
| CircularBuffer.MeanOfLastValues | autotrader.cc:139-144 | after a non-empty history, `sum / count` is the floor mean of the last min(n, capacity) pushed values |
| CircularBuffer.Empty | autotrader.cc:59-62 | a zero-initialised buffer is well formed, has count 0 and total 0 |
| TrendSignal.InitialIndicators | autotrader.cc:54-73 | the globals start with buffers of lengths 9, 26, 52 and 26, cursors in range and counts 0 |
| TrendSignal.InitialIndicatorsConsistent | autotrader.cc:59-73 | the zeroed globals are consistent: every accumulator is the total of the buffers pushing into it |
| TrendSignal.LaggingReferenceIndex | autotrader.cc:162-163 | the reference slot is always in range, and equals the lagging cursor whenever the buffer length is `baseline_size` |
| TrendSignal.Classify | autotrader.cc:158-178 | BUY exactly when the lagging span is above its reference and the price is above the cloud or above both lines; SELL exactly in the mirrored case; equal lagging values give NEUTRAL |
| TrendSignal.Ichimoku | autotrader.cc:131-182 | the update keeps the buffer shapes, leaves counts of at least 1, and the signal is NEUTRAL for every state and every pair of best prices |
| TrendSignal.IchimokuKeepsConsistent | autotrader.cc:136-154 | an update keeps every sample non-negative and every accumulator equal to the total of its buffers, the leading-span-B one including the lagging samples |
| TrendSignal.NoUnsignedUnderflow | autotrader.cc:122 | on a consistent state the unsigned `sum -= buffer[index]` of each of the four pushes cannot go below zero, the lagging one taken from the leading-span-B accumulator after the leading span B push has changed it |
| TrendSignal.AdvanceKeepsConsistent | autotrader.cc:136-154 | the four pushes keep the state consistent, and just before the lagging push the leading-span-B accumulator is the leading-span-B total plus the old lagging total |
| TrendSignal.HistoryReady | autotrader.cc:277 | the history guard holds for every well-shaped indicator state |
| Quoting.MinBidNearestTick | autotrader.cc:42 | the first tick strictly above the minimum bid, at most one tick above it |
| Quoting.MaxAskNearestTick | autotrader.cc:43 | the last tick at or below the maximum ask |
| Quoting.PriceAdjustment | autotrader.cc:232 | the skew is a whole number of ticks against the position's sign, and 0 whenever the position is inside the limit |
| Quoting.AskTarget | autotrader.cc:234-236 | on a tick; 0 when the book has no ask; otherwise the ask plus skew plus spread rounded down to a tick |
| Quoting.BidTarget | autotrader.cc:235-237 | on a tick; 0 when the book has no bid; otherwise the bid plus skew minus spread rounded down to a tick, never above bid plus skew |
| Quoting.AskVolume | autotrader.cc:238 | at most a lot, and inside the limit exactly the room before the short limit |
| Quoting.BidVolume | autotrader.cc:239 | at most a lot, and inside the limit exactly the room before the long limit |
| Quoting.Requote | autotrader.cc:243-274 | nothing happens unless the target is a new non-zero price; then the quoted price moves to it; a cancel is sent only for the tracked non-zero id and marks it pending; an insert only when the side has no id and no pending cancel and the volume is positive, under the next id; ids issued are consecutive; the per-side invariant is kept; the live set only grows, by the inserted id; a pass that sends nothing only moves the price, a cancel only moves the price and marks the cancel pending, and an insert gives the quote the new id, the target, no pending cancel and the old live set plus the new id |
| AutoTrader.Initial | autotrader.h:210-223 | ids start at 1 and neither side holds an order or a quoted price |
| AutoTrader.OnOrderBook | autotrader.cc:217-372 | a book changes neither the position, the hedges nor any ledger, never lowers the next id, and a non-FUTURE book changes nothing and sends nothing |
| AutoTrader.RequoteSide | autotrader.cc:243-274 | one pass on a side leaves the other side, the ledgers and the indicators alone, only appends commands, and puts the side's quoted price on the target; it is a no-op when the target is 0 or already quoted |
| AutoTrader.TargetsFor | autotrader.cc:232-239 | both target prices are on a tick; inside the limit they carry no skew, and the volumes are the room left before each limit |
| AutoTrader.RequoteRepeat | autotrader.cc:316-370 | repeating a pass on a side keeps the ledgers and indicators and the other side, only appends commands, never lowers the next id, and leaves the side on a non-zero target if it ran at all |
| AutoTrader.BaselinePass | autotrader.cc:243-274 | the first pass keeps the ledgers and indicators, puts each side with a non-zero target on it, and changes nothing and sends nothing when both sides already quote their targets |
| AutoTrader.SignalPass | autotrader.cc:276-314 | NEUTRAL, or BUY without enough history, changes nothing; BUY re-quotes only the bid and SELL only the ask, to the target; commands are only appended |
| AutoTrader.ProfitTaking | autotrader.cc:316-370 | inside the unload band nothing changes; outside it a long entry in profit puts the ask on its target and a short entry in profit the bid; with no such entry that side is untouched; commands are only appended |
| AutoTrader.Apply | autotrader.cc:89-439 | only an order book moves the indicators; statuses and errors send nothing; a fill sends at most one command and uses at most one id |
| AutoTrader.Run | autotrader.cc:89-439 | a run without order books leaves the indicators as they were, and a run of statuses and errors sends nothing |
| AutoTrader.Emplace | autotrader.cc:388-400 | `emplace` adds the key with the value when absent and leaves the map unchanged when present |
| AutoTrader.AddToEntry | autotrader.cc:435-436 | `ledger[id] += delta` creates a missing entry from 0, changes no other key, and the new value is congruent to old plus delta modulo 2^64 |
| AutoTrader.OnOrderFilled | autotrader.cc:376-401 | a fill keeps the quotes, the hedges and the indicators, records the volume in the lot-size ledger without overwriting, and moves the position only to a value inside the limit |
| AutoTrader.OnOrderStatus | autotrader.cc:405-439 | a status sends nothing and changes neither the next id, the position, the hedges nor the indicators |
| AutoTrader.OnError | autotrader.cc:89-99 | an error sends nothing; one with id 0 or an untracked id changes nothing; one about a live order frees that side and leaves the other alone |
| TraderProperties.InitialSatisfiesInvariant | autotrader.h:210-223 | the initial trader has no live order and no pending cancel on either side and satisfies the invariant |
| TraderProperties.RepeatOnSettledSide | autotrader.cc:316-370 | re-quoting a settled side any number of times changes nothing |
| TraderProperties.SignalPassOnSettled | autotrader.cc:276-314 | on settled sides the signal pass changes nothing, whatever the signal |
| TraderProperties.ProfitTakingOnSettled | autotrader.cc:316-370 | on settled sides the profit-taking sweep changes nothing, whatever the ledgers hold |
| TraderProperties.OnlyBaselinePassSends | autotrader.cc:241-370 | the FUTURE book handler equals its first pass plus the indicator update: the signal pass and the sweep never send anything |
| TraderProperties.ReplayedBookSendsNothing | autotrader.cc:241-370 | handling the same book twice in a row sends nothing the second time |
| TraderProperties.RequoteSendsOnlyProtocol | autotrader.cc:243-274 | a pass sends only a cancel of the tracked id or an insert on a free side at the target and volume |
| TraderProperties.BaselineCommands | autotrader.cc:243-274 | the first pass sends the ask side's commands, then the bid side's |
| TraderProperties.BookCommands | autotrader.cc:236-274 | a book sends at most two commands, no hedge; cancels only of a tracked non-zero id; inserts only on a free side, at a non-zero tick price, for a volume between 1 and the room left in the limit |
| TraderProperties.BookQuotes | autotrader.cc:243-274 | the FUTURE book leaves the quotes and the id counter exactly where the ask pass then the bid pass put them |
| TraderProperties.BookKeepsInvariant | autotrader.cc:243-274 | the book handler keeps the invariant |
| TraderProperties.BookKeepsLiveOrders | autotrader.cc:243-274 | a book never removes an order from either live set; only a terminal status, or an error standing for one, does |
| TraderProperties.AskHedgedAfterBook | autotrader.cc:380-388 | a fill of the resting ask order is hedged by a buy at the top tick even after a book has cancelled that order |
| TraderProperties.BidHedgedAfterBook | autotrader.cc:390-398 | the mirror image: a fill of the resting bid order is hedged by a sell at the bottom tick even after a book has cancelled it |
| TraderProperties.CancelLeavesSideEmpty | autotrader.cc:243-257 | a book that moves the ask target while an ask rests only cancels it; after the cancel completes the ask side is empty with the target recorded as its price, and the same book sends nothing |
| TraderProperties.BookIssuesConsecutiveIds | autotrader.cc:253-269 | the ids a book issues are next, next + 1, ... in order |
| TraderProperties.AskFill | autotrader.cc:380-389 | a fill of the tracked ask hedges the same volume by buying at the top tick, even when the guard rejects the position update; the position drops by the volume exactly when that stays inside the limit; the short ledger keeps an existing entry |
| TraderProperties.BidFill | autotrader.cc:390-399 | the mirror image for the tracked bid: hedge by selling at the bottom tick, position up by the volume when that stays inside the limit |
| TraderProperties.UntrackedFill | autotrader.cc:380-400 | a fill for an id no side tracks sends nothing and changes only the lot-size ledger, and that only when the id had no entry |
| TraderProperties.FillKeepsInvariant | autotrader.cc:380-400 | fills keep the invariant; the position never leaves the limit |
| TraderProperties.TerminalStatus | autotrader.cc:410-432 | a status with nothing remaining frees only the side whose id matches (ask first), removes the id from both live sets, and leaves prices and ledgers untouched |
| TraderProperties.NonTerminalStatus | autotrader.cc:433-438 | a status with volume remaining leaves both quotes alone, shifts the two ledger entries by plus and minus the fees modulo 2^64, overwrites the lot size, and touches no other entry |
| TraderProperties.StatusKeepsInvariant | autotrader.cc:405-439 | statuses keep the invariant |
| TraderProperties.ErrorIsTerminalStatus | autotrader.cc:94-98 | an error about a live non-zero id is the terminal status of that id with no fill and no fees |
| TraderProperties.ErrorKeepsInvariant | autotrader.cc:89-99 | errors keep the invariant |
| TraderProperties.StepKeepsInvariant | autotrader.cc:89-439 | every event keeps the invariant |
| TraderProperties.OnlyTerminalStatusFreesSide | autotrader.h:156-161 | a side holding an order is freed only by a terminal status or an error about that very order |
| TraderProperties.StepIssuesConsecutiveIds | autotrader.cc:253-397 | every event issues the ids next, next + 1, ... in order and nothing else |
| TraderProperties.StepPricesOnTicks | autotrader.cc:236-397 | every price an event sends is on a tick, and every insert price is non-zero |
| TraderProperties.RunKeepsInvariant | autotrader.h:210-223 | over any run of events the invariant holds at the end, every price sent is on a tick, and the ids sent are exactly next, next + 1, ... |
| TraderProperties.StepKeepsIndicatorsConsistent | autotrader.cc:241-276 | every event keeps the indicator accumulators consistent with their buffers |
| TraderProperties.RunKeepsIndicatorsConsistent | autotrader.cc:59-73 | over any run the indicator accumulators stay consistent |
| TraderProperties.SumsNeverUnderflow | autotrader.cc:136-154 | over any run from a consistent indicator state, whatever book comes next, no accumulator is smaller than the sample its push evicts at the moment of that push |
| TraderProperties.IssuedIdsAreDistinct | autotrader.h:210-212 | from the initial state, every id ever sent is non-zero and the ids are strictly increasing, so 0 is a safe "no order" value |

## Left out

- Logging, the asio event loop and the exchange transport: the send calls become
  command values in the returned step.
- The disconnect, hedge-filled and trade-ticks handlers: they only log.
- `WeightedAverageSpread` works in `double`; the model takes the spread as a
  non-negative whole number in the book (`AutoTrader.Book`), and the lower book
  levels and all volumes, which only feed that spread, are not modelled. With a
  fractional spread C++ would truncate the sum, which for the bid amounts to
  subtracting the spread rounded up; a whole-number spread makes both readings
  agree. Tick alignment of the targets holds whatever the spread.
- The fill handler's `static_cast<long>(volume)` (autotrader.cc:382 and 392) wraps
  for volumes of 2^63 and above, to `volume - 2^64`; the model takes the volume as
  an unbounded natural number. In C++ such a volume moves the position the wrong
  way by `2^64 - volume` lots, which the limit guard accepts when that is small;
  the model's guard rejects every volume above 200 lots, whatever the position.
  Exchange fill volumes stay far below 2^63.
- The `double` to `unsigned long` conversion of a negative raw target is undefined
  behaviour in C++; the model takes it as 0 (no quote) in `Quoting.Truncate`.
- `unsigned long` wrap-around is written out only where it can matter: the
  quantity casts, the `+= fees` ledger updates, and the int-to-unsigned conversion
  of the lagging index. Midpoints, targets and indicator sums are unbounded
  integers: for exchange prices these do not overflow.
- `mNextMessageId` is an `unsigned long` (autotrader.h:210) and wraps to 0 after
  2^64 ids; the model's id counter is unbounded, so
  `TraderProperties.IssuedIdsAreDistinct` does not cover a run that long.
- `MINIMUM_BID` and `MAXIMUM_ASK` come from the exchange's own header, which is
  not part of this model; they are the `Quoting.VenueLimits` parameter.
- The sequence number of a book is unused by the handler and not modelled; every
  insert is good-for-day, so the lifespan is not a command field.
- The profit-taking sweep iterates an `unordered_map`; since every qualifying
  entry runs the same re-quote pass, the model runs that pass once per qualifying
  entry, and the iteration order is irrelevant.
- AutoTrader.OnOrderBook: its own contract states only what a book leaves
  untouched; what it sends and where it leaves the quotes is stated by the
  `TraderProperties` lemmas about it.
- AutoTrader.Inv requires only the declared buffer lengths of the indicator
  state; the consistency of the accumulators is the separate invariant
  `TrendSignal.Consistent`, kept by `TraderProperties.RunKeepsIndicatorsConsistent`.
