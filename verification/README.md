# exchange_core, verified

A model in Dafny of the matching core of `exchange_core` and of everything that has to
stay in step with it, with proofs about every run:

- **Order book.** `OrderBooks.OrderBook` keeps two price-level lists, an id index and an
  execution counter, and updates them in place in the program's own nested loops. Every
  method refines a flat price-time specification (`PriceTime`): one queue per side, best
  price first, then first come first served.
- **Account risk.** `AccountRiskManagers.AccountRiskManager` keeps reservations per order
  and totals per (account, instrument), and learns about the book from its events only.
- **Engine.** `MatchingEngines.MatchingEngine` ties the two together and refines the state
  machine `Engine.Step`; the theorems over whole runs are about that machine.
- **Market data.** `MarketDataPublishers.MarketDataPublisher` rebuilds orders and price
  levels from the event stream, singly or in batches.
- **Gateway.** `OrderGateways.OrderGateway` sequences client sessions and applies the
  reference-price band.
- **Codecs.** `Journal`, `JournalLaws`, `JournalTexts` and `JournalTears` for the line
  journal, `Snapshot`, `SnapshotLaws`, `Checksum` and `ChecksumVectors` for the snapshot file with its
  64-bit FNV-1a checksum.

How it fits together: a batch of events is *legal* if each event is possible given the
orders live before it (`Live.Legal`). The book emits only legal batches, and replaying a
batch gives exactly the book's live orders (`BookReplay.PlaceReplays`, `CancelReplays`).
The risk manager (`RiskBatches`, `RiskFollows`) and the publisher (`MarketDepth`) each
follow *any* legal stream. Composing the three gives the invariants of every reachable
engine and exchange state (`EngineLaws`, `EngineTheorems`, `MarketTheorems`,
`Conservation`).

What a request gets is also stated without the specification functions it is computed by:
`Placements` says in the terms of the request what trades, at what price, and what rests,
`Refusals` which check turns it away, `ReservationHistory` what margin it holds, and
`GatewaySessions` which requests reach the engine, told by the requests before them.

64-bit unsigned arithmetic, saturation and casts are written out (`Api.WrapAdd`,
`Api.WrapSub`, `Api.ToInt64`, `Margin.SaturatedMultiply`). Signed sums, whose overflow is
undefined in the program, are mathematical integers. A run is *clean* (`PositionRange.Clean`)
if no signed sum of an account check has overflowed in it, so that the program's behaviour
is defined. `PositionRange` bounds every value a position update stores in a clean run, and
`SignedRange` says under which limits every run is clean.

## Where the code is not what its documentation suggests

- Published level quantities are not always book depth. An order that trades on arrival
  and rests with the remainder is published at its full quantity
  (`PublishedDepth.PartialFillOverstatesDepth`). `AggregatesAreDepthPlusSurplus` gives the
  exact difference, `SurplusGrowsExactlyUnderGuard` the guard under which an order adds to
  it, and `PublishedDepthIsTrueIff` the exact condition.
- A partially written journal record is not always detected: cut inside the digits of its
  last field it reads back without an error and with a shorter reason code
  (`JournalLaws.TornReasonSlipsThrough`); `TornJournal` says for every cut what is read.
  Appending after an interrupted append glues the next record to the torn line, where its
  fields override the torn ones: the torn record disappears without an error, even if only
  its newline was missing, unless the cut fell inside its version. Then the merged line is
  malformed, and no later record is read (`JournalTears.AppendAfterTear`).
- A fill-or-kill order of quantity zero is refused by the book although nothing would be
  left to fill (`Priority.EmptyFokIsRefused`); the engine never sends one.
- Under the default, unlimited configuration the signed sums of the account check can
  overflow (`SignedRange.DefaultLimitsOverflow`).
- Credit, open-quantity and position limits hold per account and instrument, not per
  account; the theorems claim no more.
- `EngineConfig::is_valid` is not called by any constructor. The band theorems assume its
  bound on the deviation limit, 10000 basis points; the engine theorems do not.

## Model

| member | source | states |
|---|---|---|
| OrderBooks.OrderBook.PlaceOrder | src/domain/order_book.cpp:23-171 | the in-place book and its event batch are those of the flat specification for every order type and every refusal; the index and both level maps stay consistent with it |
| OrderBooks.OrderBook.Execute | src/domain/order_book.cpp:47-171 | matching and resting an order that was not refused gives the flat book after the match and exactly its trades |
| OrderBooks.OrderBook.MatchAgainst | src/domain/order_book.cpp:54-143 | the nested loops trade exactly what walking the flattened opposite side trades, leave exactly what it leaves, and drop exactly the filled orders from the index |
| OrderBooks.OrderBook.SweepLevel | src/domain/order_book.cpp:65-96 | the inner loop over one level's queue is as many single rounds of the walk as it emits trades, and stops only when the order or the level is exhausted |
| OrderBooks.OrderBook.CanFullyMatch | src/domain/order_book.cpp:173-219 | the read-only preflight over levels and queues decides the flat predicate `CanFill` |
| OrderBooks.OrderBook.Refuse | src/domain/order_book.cpp:25-45 | the checks before any mutation give the flat refusal: duplicate id, unfillable fill-or-kill, crossing post-only, in that order |
| OrderBooks.OrderBook.Rest | src/domain/order_book.cpp:152-168 | the remainder joins behind every order at the same or a better price, and is indexed with its side, price and account |
| OrderBooks.OrderBook.CancelOrder | src/domain/order_book.cpp:221-300 | cancel by the owner removes exactly that order; unknown id and wrong account are refused with the event the program builds and change nothing |
| OrderBooks.OrderBook.RemoveOrderFromLevel | src/domain/order_book.cpp:326-365 | erases one order from its level, and the level with it if it was the last |
| OrderBooks.OrderBook.RemoveEmptyLevel | src/domain/order_book.cpp:307-324 | only an empty level at the given price is removed |
| OrderBooks.OrderBook.ContainsOrder | src/domain/order_book.cpp:302-305 | the index answers for the resting orders |
| BookProgress.RoundsFollowWalk | src/domain/order_book.cpp:66-95 | after any number of loop rounds, finishing the walk from the current state finishes the walk from the start, and the index has lost exactly the orders that left the queue |
| BookIndex.LocateAfterMatch | src/domain/order_book.cpp:90-94 | after a match the index is the old one less the filled orders plus the resting remainder: exactly the orders of the new book, each at its side, price and account |
| BookLaws.PlaceKeepsInv | src/domain/order_book.cpp:23-171 | placing any order keeps the book sorted, uncrossed, with distinct ids, positive quantities and only limit or post-only orders resting |
| BookLaws.CancelKeepsInv | src/domain/order_book.cpp:221-300 | so does any cancel |
| Priority.WalkPaysShare | src/domain/order_book.cpp:54-143 | the k-th resting order trades exactly what the orders ahead of it leave over of the incoming quantity; the event and the trade inside it both name the two orders, the resting order's price and that quantity, the trade also both accounts and the k-th execution id; an order owed nothing does not trade |
| Priority.WalkConsumesPrefix | src/domain/order_book.cpp:54-143 | what rests afterwards is the queue with the served prefix removed, the last order served perhaps only in part |
| Priority.PriceTimePriority | src/domain/order_book.cpp:54-143 | if a placement trades with some resting order, every order ahead of it (better price, or same price and earlier) has traded away completely and left the book |
| Priority.FokPreflightIsExact | src/domain/order_book.cpp:30-33 | the preflight holds if and only if the matching loops would fill the whole quantity (a zero quantity also needs something to cross) |
| Priority.CanFillIsAvailability | src/domain/order_book.cpp:173-219 | the preflight holds if and only if the quantity is at most the total resting at crossing prices, found without regard to order |
| BookReplay.FokAllOrNothing | src/domain/order_book.cpp:30-33 | an accepted fill-or-kill order trades exactly its quantity; a refused one leaves the book as it was |
| BookReplay.WalkReplays | src/domain/order_book.cpp:71-95 | each trade names two live orders of opposite sides with their accounts and the resting price, and the trades replay to what the match leaves live |
| BookReplay.PlaceReplays | src/domain/order_book.cpp:47-171 | the events of a placement are legal and replay, once what may not rest has lapsed, to exactly the live orders of the new book |
| BookReplay.CancelReplays | src/domain/order_book.cpp:287-299 | so do the events of a cancel |
| BookReplay.PlaceConserves | src/domain/order_book.cpp:47-171 | accepted quantity plus what rested equals twice the traded quantity plus what rests plus what lapsed |
| BookReplay.CancelRemovesOnlyTheOrder | src/domain/order_book.cpp:221-300 | a cancel succeeds if and only if the order is live and the account is its owner; every other order keeps its place in its queue |
| BookReplay.PlaceThenCancel | src/domain/order_book.cpp:152-168 | a resting order that did not trade, cancelled by its account, leaves both queues and the execution counter as they were |
| Placements.TradedAmount | src/engine/matching_engine.cpp:143-155 | in every reachable state a request that reaches its book trades what rests within its own price up to its quantity; if fill-or-kill, all of its quantity when that much rests and otherwise nothing; if post-only, nothing; a request that does not reach it trades nothing |
| Placements.TradesFollowQueue | src/domain/order_book.cpp:54-96 | the k-th trade of an accepted request is with the k-th order of the opposite queue, for what those ahead of it leave over, at its price, under consecutive execution ids, with every field of event and trade given; there are no others |
| Placements.NeverWorseThanAsked | src/domain/order_book.cpp:54-62 | no trade of a request that names a price is at a worse one, and a post-only request has none |
| Placements.AcceptanceRepeatsRequest | src/engine/matching_engine.cpp:143-152 | an acceptance comes first in its batch and carries the side, price, quantity, type and account of the request |
| Placements.RemainderRests | src/domain/order_book.cpp:144-168 | after an accepted request its order is live if and only if it is limit or post-only and did not trade away, and then with the side, price, type and account of the request and the quantity not traded |
| Placements.RemainderJoinsBehind | src/domain/order_book.cpp:152-168 | it rests behind every order at the same or a better price and ahead of all others, which keep their order |
| Placements.PlacementIsLegal | src/engine/matching_engine.cpp:143-155 | every event of a request sent to a book is possible given the orders live before it -- trades at the live resting price, repeated by the event -- and the batch replays to the orders live afterwards |
| Levels.FlattenInjective | src/domain/order_book.hpp:41-50 | well-formed level lists with the same flat queue are the same lists, queues included |
| OrderBooks.OrderBook.SameContentsSameFields | src/domain/order_book.hpp:49-52 | the flat book determines both level maps, the index and the counter, so whatever restores it restores the fields |
| Margin.SaturatedMultiplyIsClamped | src/risk/account_risk_manager.cpp:13-21 | the test by division saturates exactly when the true product exceeds 64 bits |
| Margin.ReleaseIsAtMostShare | src/risk/account_risk_manager.cpp:23-30 | a proportional release is at most floor(reserved * released / remaining), with equality unless the remainder product saturates, and never more than is reserved |
| Margin.ReleaseIsExact | src/risk/account_risk_manager.cpp:23-30 | the release to the unit, with its one product capped at 2^64 - 1 |
| MarginHistory.HeldMarginCoversRemainder | src/risk/account_risk_manager.cpp:125-148 | after any sequence of fills the held margin is at least the exact pro-rata share of the original |
| MarginHistory.HeldMarginExcessIsBelowFills | src/risk/account_risk_manager.cpp:125-148 | without saturation the excess over the exact share is below one unit per fill |
| MarginHistory.ReleasedPlusHeld | src/risk/account_risk_manager.cpp:136-148 | released and held margin always add up to the margin reserved, and nothing is held once nothing remains |
| Config.NotionalIsExact | src/risk/risk_manager.cpp:12-26 | the check by division is exactly the bound price * quantity <= maximum notional, so the first product of the margin never saturates |
| Config.MarginIsExact | src/risk/account_risk_manager.cpp:89-96 | a request that passes the pre-trade check is charged floor(min(notional * bps, 2^64 - 1) / 10000), where notional is price * quantity, or the maximum notional for a market order |
| Config.MarketMarginDominates | src/risk/account_risk_manager.cpp:89-96 | a market order reserves at least the margin of any priced order that passes the checks |
| Config.ChargedAtLeastRate | src/risk/account_risk_manager.cpp:89-96 | every priced order that passes the limits on a single order is charged at least a fixed rate per unit, saturation included |
| MarginRate.ApplyKeepsPay | src/risk/account_risk_manager.cpp:117-217 | whatever events are applied, every remaining reservation stays charged at that rate |
| MarginRate.CreditBoundsOpen | src/risk/account_risk_manager.cpp:78-84 | so a credit that cannot carry 2^63 units at that rate keeps open quantity within the signed range |
| AccountRiskManagers.AccountRiskManager.Reserve | src/risk/account_risk_manager.cpp:98-115 | the in-place update is the specified one: reservation stored, the totals of its (account, instrument) raised |
| AccountRiskManagers.AccountRiskManager.Release | src/risk/account_risk_manager.cpp:117-149 | the in-place release is the specified one, erasing the reservation when nothing remains |
| AccountRiskManagers.AccountRiskManager.UpdatePosition | src/risk/account_risk_manager.cpp:151-165 | only the position of the named account and instrument moves; the value stored is reported, and `PositionRange.PositionUpdatesStayInRange` bounds it |
| AccountRiskManagers.AccountRiskManager.Apply | src/risk/account_risk_manager.cpp:167-217 | the loop over events folds the specified step over the batch, storing exactly the specified positions in order, and then releases what an immediate order did not use |
| RiskLaws.ReleaseNeverWraps | src/risk/account_risk_manager.cpp:125-148 | when totals are the sums over reservations, no unsigned subtraction of a release wraps |
| RiskLaws.ReserveKeepsTotals | src/risk/account_risk_manager.cpp:98-115 | an admitted reservation keeps every total equal to the sum over reservations |
| RiskLaws.ReleaseKeepsTotals | src/risk/account_risk_manager.cpp:117-149 | so does any release |
| RiskLaws.OpenIsBuyPlusSell | src/risk/account_risk_manager.cpp:98-149 | open quantity is buy reserved plus sell reserved |
| RiskFollows.FillKeepsInv | src/risk/account_risk_manager.cpp:187-194 | releasing a filled quantity and moving the position by it keeps totals, limits and position bounds |
| RiskBatches.TradesKeepRisk | src/risk/account_risk_manager.cpp:173-208 | any legal stream of trades keeps the risk invariant, keeps reservations equal to the replayed live orders, and leaves the sum of positions unchanged |
| MatchingEngines.MatchingEngine.PlaceOrder | src/engine/matching_engine.cpp:35-158 | the object's books and risk state after the call, and the batch returned, are those of the engine state machine |
| MatchingEngines.MatchingEngine.Admit | src/engine/matching_engine.cpp:37-136 | the checks before anything is reserved, with the rejection each of them builds |
| MatchingEngines.MatchingEngine.CancelOrder | src/engine/matching_engine.cpp:160-192 | likewise for a cancel, unknown instruments included |
| MatchingEngines.MatchingEngine.RegisterInstrument | src/engine/matching_engine.cpp:194-204 | a first registration of a registrable instrument adds an empty book, every other call changes nothing |
| EngineLaws.PlaceKeepsEngineInv | src/engine/matching_engine.cpp:107-158 | one placement keeps every book well formed and coupled to the reservations, the risk invariant and zero-sum positions |
| EngineLaws.RunKeepsEngineInv | src/engine/matching_engine.cpp:35-204 | so does every run of commands, from any state that satisfies it |
| EngineLaws.DuplicateChangesNothing | src/engine/matching_engine.cpp:107-155 | a request that repeats a live id skips the account checks and changes neither books nor risk |
| EngineTheorems.RegisteredInstruments | src/domain/instrument_registry.cpp:5-14 | an instrument has a book in a reachable state if and only if the run registered it with a non-zero id, a symbol, positive tick and lot size, and active |
| EngineTheorems.ReservationsAreLiveOrders | src/engine/matching_engine.cpp:107-192 | in every reachable state the reservations are exactly the live orders of the books, with the same account, side and remaining quantity |
| EngineTheorems.BooksStayWellFormed | src/domain/order_book.cpp:23-365 | in every reachable state every book is sorted, uncrossed and free of empty or unrestable orders |
| EngineTheorems.TotalsAreSums | src/risk/account_risk_manager.cpp:98-149 | in every reachable state the four totals of every (account, instrument) are the sums over its reservations, and open is buy plus sell |
| EngineTheorems.CreditAndOpenLimitsHold | src/risk/account_risk_manager.cpp:45-87 | in every reachable state reserved margin is within the credit limit and open quantity within its limit, under every configuration |
| ReservationHistory.ReservationsAreHeld | src/risk/account_risk_manager.cpp:98-149 | in every reachable state each reservation belongs to a request of the run, and holds what a sequence of fills has left of the margin that request owed at 10000 basis points to the whole |
| ReservationHistory.ReservationsAreCovered | src/risk/account_risk_manager.cpp:125-148 | so it holds at least the share of that margin that its open quantity is of the quantity requested |
| ReservationHistory.FreshReservation | src/risk/account_risk_manager.cpp:98-115 | an accepted order that rests untraded has reserved exactly the margin it owes, and the total of its account has grown by that |
| PositionRange.PositionLimitHolds | src/risk/account_risk_manager.cpp:55-76 | under every configuration, after every clean run, position + buy reserved <= limit and position - sell reserved >= -limit, so the position is within the limit however fills and cancels interleave |
| PositionRange.StreamWrites | src/risk/account_risk_manager.cpp:173-195 | over any legal stream of trades, every position stored -- after the incoming half of a trade, after the resting half, and between trades -- is within the limit, and every quantity cast is exact |
| PositionRange.PositionUpdatesStayInRange | src/risk/account_risk_manager.cpp:151-195 | in every clean run, every position update stores a value within the limit, hence within 64 bits, and its cast of the executed quantity is exact; so only a sum of the account check can be the first to overflow |
| PositionRange.RefusedExactlyWhenUnaffordable | src/engine/matching_engine.cpp:107-136 | after every clean run, a fresh request within the stateless limits whose own check does not overflow is turned away if and only if the account could not afford it |
| PositionRange.SafeLimitsKeepRunsClean | src/risk/account_risk_manager.cpp:61-76 | under safe limits every run is clean, so the three results above hold of every reachable state |
| RiskFollows.FittingSumsCastExactly | src/risk/account_risk_manager.cpp:66-71 | while positions are bounded, a reserved quantity too large for its cast makes the next signed sum overflow, so in a clean run every cast is exact |
| EngineTheorems.PositionsSumToZero | src/risk/account_risk_manager.cpp:151-195 | for each instrument the positions of all accounts sum to zero |
| EngineTheorems.PositionsFollowTrades | src/risk/account_risk_manager.cpp:175-195 | in every run a position is exactly the signed sum of the trades that name the account, incoming on the order's side and resting on the opposite one |
| EngineTheorems.RejectedPlaceChangesNothing | src/risk/account_risk_manager.cpp:201-216 | whatever turns a placement away, the books, the reservations and all totals are as before the reservation |
| Refusals.RefusedForFirstFailure | src/engine/matching_engine.cpp:37-155 | after every clean run a request is accepted if and only if it passes eleven checks, each an inequality over exact integers, and is otherwise turned away, in one rejection that repeats it, with the reason of the first that fails in the order of the program |
| Refusals.CancelAnswer | src/engine/matching_engine.cpp:160-192 | in every reachable state a cancel answers with the side, price and type of the live order it withdraws, or with the refusal for an unknown instrument, an unknown order or another owner, and leaves live exactly the other orders |
| EngineTheorems.PlaceThenCancelRestores | src/engine/matching_engine.cpp:138-191 | placing an order that rests untraded and cancelling it restores books, reservations and totals |
| Conservation.QuantityIsConserved | src/domain/order_book.cpp:47-171 | over every run, per instrument: accepted = 2 * traded + resting + cancelled + lapsed |
| Conservation.ExecutionIdsAreGapless | src/domain/order_book.cpp:71-79 | over every run the k-th execution id of an instrument is k, up to the counter of its book |
| SignedRange.SignedSumsNeverOverflow | src/risk/account_risk_manager.cpp:61-73 | with safe limits every cast is exact and every signed sum of the account check stays within 64 bits, in every run |
| SignedRange.NeverOverflowsIsClean | src/risk/account_risk_manager.cpp:61-73 | no reachable account check overflows if and only if every run is clean |
| OverflowRuns.ReachPosition | src/risk/account_risk_manager.cpp:151-165 | any position up to the limit is reached by some run if one unit can trade |
| OverflowRuns.ReachStack | src/risk/account_risk_manager.cpp:98-115 | if the credit carries it and no limit forbids it, some run leaves an account short by the whole limit with 2^63 units of resting bids |
| SignedRange.UnsafeLimitsOverflow | src/risk/account_risk_manager.cpp:66-71 | if one unit can trade and a full position plus the largest admissible quantity does not fit, some run reaches an account check whose buy projection exceeds 64 bits |
| SignedRange.UnsafeCastsOverflow | src/risk/account_risk_manager.cpp:66-69 | if the limits allow 2^63 open units and the credit carries a stack of them, in whole orders of some admissible size and one for the rest, some run reaches an account check whose cast of the reserved quantity is inexact and whose sum with the position leaves 64 bits |
| SignedRange.OverflowCondition | src/risk/account_risk_manager.cpp:61-73 | no run overflows if and only if casts and sums are both safe, or the limits let nothing trade |
| SignedRange.UndecidedIsNarrow | src/risk/account_risk_manager.cpp:89-96 | the configurations that condition leaves open are those whose largest order has a saturated margin and whose credit lies in a band no wider than the margin of the units left over when 2^63 is divided into largest orders |
| SignedRange.DefaultLimitsOverflow | include/exchange_core/engine/engine_config.hpp:11-18 | under the default configuration three commands lead to a state in which a request for one more unit overflows |
| MarketDataPublishers.MarketDataPublisher.OnEvents | src/market_data/market_data_publisher.cpp:30-39 | the batched loop is the specified batch: apply every event, then flush |
| MarketDataPublishers.MarketDataPublisher.OnEvent | src/market_data/market_data_publisher.cpp:8-28 | one event updates orders, levels and updates as specified |
| MarketDataPublishers.MarketDataPublisher.ApplyTrade | src/market_data/market_data_publisher.cpp:61-96 | a trade lowers the incoming order's level only when it completes that order, and the resting order's level always |
| MarketDataPublishers.MarketDataPublisher.FlushPendingLevels | src/market_data/market_data_publisher.cpp:133-141 | pending levels are sent once each in level order and the set is cleared |
| MarketData.LeastExists | include/exchange_core/market_data/market_data_publisher.hpp:80-91 | the level order has a least element in every non-empty set, so a flush is determined |
| MarketDataLaws.SendAllSendsEachOnce | src/market_data/market_data_publisher.cpp:133-141 | a flush sends one update per pending level, by instrument, then bids before asks, then by strictly rising price, with the aggregates and consecutive sequence numbers |
| MarketDataLaws.BatchSendsEachTouchedLevelOnce | src/market_data/market_data_publisher.cpp:30-39 | a batch sends one update per touched level, every level whose aggregate changed among them, each with its final aggregate, in that order |
| MarketDataLaws.SingleSendsAtOnce | src/market_data/market_data_publisher.cpp:116-131 | delivered singly, an event sends exactly one update for each level it touches, at once, under the next sequence numbers, the last with the new aggregate |
| MarketDataLaws.BatchingLosesNothing | src/market_data/market_data_publisher.cpp:116-141 | after any mixture of single and batched calls a subscriber keeping the last update per level holds the publisher's level map, the same map single delivery gives; sequence numbers are 1, 2, ... |
| MarketDepth.StreamFollows | src/market_data/market_data_publisher.cpp:41-114 | over any legal stream the tracked orders are the replayed live orders that may rest, and each aggregate counts their quantity plus the surplus |
| MarketTheorems.TrackedOrdersAreLiveOrders | src/market_data/market_data_publisher.cpp:41-114 | in every reachable state the tracked orders are exactly the live orders of the books, with side, price and remaining quantity |
| MarketTheorems.AggregatesAreDepthPlusSurplus | src/market_data/market_data_publisher.cpp:66-79 | each aggregate is, as a 64-bit counter, true depth plus the quantity of past incoming trades that did not complete their order |
| PublishedDepth.SurplusGrowsExactlyUnderGuard | src/market_data/market_data_publisher.cpp:61-79 | in every reachable state a command adds to the surplus of a level if and only if it places an order there that may rest, is not turned away, and meets a best opposite order smaller than itself; nothing else changes a surplus |
| PublishedDepth.WalkSurplus | src/market_data/market_data_publisher.cpp:66-79 | what a matching order adds to the surplus of its level is the quantity of its trades that do not complete it |
| PublishedDepth.SurplusIsAdded | src/market_data/market_data_publisher.cpp:66-79 | after every run the surplus of a level is exactly the sum of what its commands added there under that guard; it is zero if and only if none met the guard |
| PublishedDepth.PublishedDepthIsTrueIff | src/market_data/market_data_publisher.cpp:41-114 | after every run published depth is, as a 64-bit counter, true depth plus what the commands of the run added; it is the true depth if and only if that depth fits 64 bits and the addition is a multiple of 2^64 |
| PublishedDepth.PublishedDepthIsTrueIffNeverRaised | src/market_data/market_data_publisher.cpp:41-114 | where no command met the guard, published depth is true depth modulo 2^64; where one did, it exceeds true depth as long as the sum fits 64 bits |
| PublishedDepth.PartialFillOverstatesDepth | src/market_data/market_data_publisher.cpp:66-79 | under the default configuration three commands leave a level published at the full quantity of a limit order that took a smaller one, singly or batched |
| MarketTheorems.SubscriberHoldsLevels | src/market_data/market_data_publisher.cpp:116-131 | in every run of engine and publisher the subscriber's view is the publisher's level map |
| FatFinger.DeviationIsExact | src/risk/fat_finger_validator.cpp:9-17 | with at most 10000 basis points nothing overflows and the deviation is floor(reference * bps / 10000), at most the reference |
| FatFinger.BandIsExact | src/risk/fat_finger_validator.cpp:20-44 | with a deviation limit of at most 10000 basis points, a priced order passes if and only if its distance from the reference, times 10000, is at most reference * bps |
| OrderGateways.OrderGateway.PlaceOrder | src/gateway/order_gateway.cpp:78-111 | the object's sessions, engine and answer after a placement are those of the gateway state machine |
| OrderGateways.OrderGateway.CancelOrder | src/gateway/order_gateway.cpp:113-131 | likewise for a cancel |
| OrderGateways.OrderGateway.RegisterClient | src/gateway/order_gateway.cpp:5-13 | a new session starts at sequence 1; zero ids and registered clients are refused |
| GatewayLaws.SessionsForwardInOrder | src/gateway/order_gateway.cpp:90-110 | over every run, each session of each client forwards 1, 2, 3, ... exactly once each, in order |
| GatewayLaws.ForwardedOrdersAreInBand | src/gateway/order_gateway.cpp:94-108 | over every run with a deviation limit of at most 10000 basis points, each positive-priced non-market order forwarded was within the band of the reference at that time |
| GatewayLaws.GatewayRunIsEngineRun | src/gateway/order_gateway.cpp:109-130 | the engine behind a gateway has run exactly the forwarded commands |
| GatewaySessions.RequestsAreDecided | src/gateway/order_gateway.cpp:78-131 | after any requests the next is forwarded, under its session and number, if and only if the earlier requests opened a session of its client for the account it names, its number is one more than that session has had forwarded, and a positively priced non-market order is within the band of the last reference price; otherwise one rejection gives the first of these that fails and repeats the request |
| GatewaySessions.SessionsActForTheirAccount | src/gateway/order_gateway.cpp:5-13 | over every run each forwarded command names the account of the very registration that opened the session it came through |
| Decimal.ParsePrinted | src/journal/file_journal.cpp:36-58 | every 64-bit unsigned number reads back from its decimal text |
| Decimal.NumbersAreRead | src/journal/file_journal.cpp:36-58 | spaces, an optional sign and digits are read as the number the digits say, negated modulo 2^64 after a minus sign, unless the digits exceed 64 bits |
| Decimal.OnlyNumbersAreRead | src/journal/file_journal.cpp:36-58 | nothing else is read |
| Decimal.DigitsCountInTens | src/journal/file_journal.cpp:36-58 | one more digit multiplies what the digits before it say by ten and adds its own value |
| Decimal.NoLeadingZero | src/journal/journal_record.cpp:25-43 | numbers are printed without leading zeros |
| Decimal.ParsePrintedPrice | src/journal/file_journal.cpp:60-69 | every signed 64-bit price reads back, the negative ones through the negation of `stoull` (section 7.22.1.4 of ISO C11) and the cast |
| Journal.ScanFields | src/journal/file_journal.cpp:149-160 | the token loop: split on spaces, lower-case the key, later tokens win, a token without '=' spoils the line |
| Journal.ReadFields | src/journal/file_journal.cpp:167-256 | the field loop and its fourteen flags give a record if and only if all fourteen fields are there and readable and the version is 1, whatever the order of the keys and whatever else is there |
| Journal.ParseRecordLine | src/journal/file_journal.cpp:128-258 | the whole line parser |
| Journal.FileJournal.ReadAll | src/journal/file_journal.cpp:307-325 | the line loop: blank lines skipped, the records before the first malformed line kept |
| Journal.FileJournal.AppendRecords | src/journal/file_journal.cpp:270-294 | appending a list extends the file by its image |
| JournalLaws.LineRoundTrip | src/journal/journal_record.cpp:25-43 | the printed line of any record parses back to that record if and only if its version is 1 |
| JournalTexts.LineIsSpaced | src/journal/journal_record.cpp:25-43 | the printed line is the fourteen words "version=...", "kind=...", ..., "reason=..." in this order, separated by single spaces, with the texts of kinds and sides |
| JournalTexts.LineMeansRecord | src/journal/file_journal.cpp:149-256 | any line of words with an '=' is read as a record if and only if that record has version 1 and for each of the fourteen keys the last word with that key, in whatever case, says its field |
| JournalTexts.KindsInAnyCase | src/journal/file_journal.cpp:97-126 | a text is read as a kind if and only if it is the text of that kind but for capitals |
| JournalTexts.SidesInAnyCase | src/journal/file_journal.cpp:81-95 | likewise for sides |
| JournalTexts.BlankLinesBetweenRecords | src/journal/file_journal.cpp:313-319 | blank lines between the records of a journal change nothing |
| JournalLaws.JournalRoundTrip | src/journal/file_journal.cpp:307-325 | the image of any appended list reads back as the records before the first of another version, with an error if there is one; a list of version-1 records reads back whole |
| JournalLaws.TornJournal | src/journal/file_journal.cpp:313-325 | the last append cut anywhere: before the first digit of the reason exactly the earlier records and an error, after it all records and no error, the last with the digits that were written |
| JournalLaws.TornReasonSlipsThrough | src/journal/file_journal.cpp:221-226 | a record with a reason of two digits or more that lost its last byte reads back without an error |
| JournalTears.AppendAfterTear | src/journal/file_journal.cpp:270-294 | records appended behind a torn one: cut after "version=1 ", the torn record is lost, the next and all later ones are read and no error is reported; cut before, reading stops there with an error; for lists of any length and any later records |
| JournalTears.TornBehindVersion | src/journal/file_journal.cpp:149-160 | a line torn behind its version with another record glued to it parses as that other record |
| Checksum.ChecksumForPayload | src/snapshot/snapshot_store.cpp:138-150 | the loop computes the fold that `KnownChecksums` identifies as FNV-1a (section 2 of draft-eastlake-fnv) |
| ChecksumVectors.KnownChecksums | src/snapshot/snapshot_store.cpp:138-150 | the checksum gives the published 64-bit FNV-1a hashes of "", "a" and "foobar" |
| ChecksumVectors.XorIsBitwise | src/snapshot/snapshot_store.cpp:144-147 | a bit of the low byte is set after the exclusive-or exactly if that bit of the hash and of the character differ, and the rest of the hash stays |
| Checksum.TimesInverse | src/snapshot/snapshot_store.cpp:141-148 | multiplying by the inverse of the prime undoes a multiplication step |
| Checksum.MixInjective | src/snapshot/snapshot_store.cpp:144-149 | one hash step is injective in the state and in the byte |
| Checksum.ChangedByteChangesChecksum | src/snapshot/snapshot_store.cpp:138-150 | payloads of equal length that differ in exactly one byte have different checksums |
| Snapshot.ParseSnapshotRecord | src/snapshot/snapshot_store.cpp:165-256 | the parser that advances a position through the text gives the record or the error of the specified parser |
| Snapshot.ParseDocument | src/snapshot/snapshot_store.cpp:165-256 | a well-formed header in front of any bytes is read back number by number; only the length and checksum tests decide |
| Snapshot.SnapshotText | src/snapshot/snapshot_store.cpp:152-163 | a snapshot is printed as the lines "version=", "sequence=", "payload_length=", "checksum=" with their numbers, and the payload |
| Snapshot.SnapshotRoundTrip | src/snapshot/snapshot_store.cpp:152-163 | every snapshot reads back with its payload, whatever bytes that holds, and with the recomputed checksum |
| Snapshot.AcceptedSnapshotIsStable | src/snapshot/snapshot_store.cpp:236-255 | whatever is accepted carries its payload's own checksum, so writing and reading it again gives the same record |
| Snapshot.CorruptedByteIsDetected | src/snapshot/snapshot_store.cpp:244-252 | one changed payload byte is refused by the checksum |
| Snapshot.TruncatedPayloadIsDetected | src/snapshot/snapshot_store.cpp:232-242 | a payload cut short anywhere is refused for its length |
| SnapshotLaws.HeaderErrors | src/snapshot/snapshot_store.cpp:190-228 | four lines in front of any bytes are refused for an empty line, then for a line with only blanks behind its first '=', then for a value that is no number, each exactly then |
| SnapshotLaws.TooFewLines | src/snapshot/snapshot_store.cpp:171-197 | a text of a single line is refused for its missing header |
| SnapshotLaws.TrailingBytesAreIgnored | src/snapshot/snapshot_store.cpp:230-243 | bytes behind the payload change nothing |
| Priority.EmptyFokIsRefused | src/domain/order_book.cpp:173-219 | the zero-quantity exception is real |
| Priority.PostOnlyRefusalIsExact | src/domain/order_book.cpp:35-45 | a fresh post-only order is refused if and only if it would have traded |
| RiskFollows.AdmissionIsExact | src/risk/account_risk_manager.cpp:45-87 | with positions bounded and the casts exact, the account checks admit a request if and only if, reserved as well, it leaves open quantity, margin and the worst-case position within the limits |
| RiskBatches.TradeIsTwoFills | src/risk/account_risk_manager.cpp:175-195 | a legal trade fills the incoming and the resting reservation on opposite sides; the resting account found through the reservation is the one the trade names |
| RiskBatches.ReserveThenRelease | src/risk/account_risk_manager.cpp:98-149 | releasing the whole of a fresh reservation restores every reservation and every total |
| SignedRange.DefaultLimitsAllowStack | include/exchange_core/engine/engine_config.hpp:11-18 | the default limits and credit allow 2^63 open single units |
| SignedRange.ModerateLimitsAreSafe | src/risk/account_risk_manager.cpp:62-65 | position and open-order limits of at most 2^61 are safe |
| GatewayLaws.RefusalChangesNothing | src/gateway/order_gateway.cpp:78-131 | a request is either forwarded, advancing its session by one, or refused with one rejection and no change |

## Left out

- SignedRange.OverflowCondition: leaves undecided a band of credits no wider than the margin of the units left over when 2^63 is divided into largest orders (`UndecidedIsNarrow`). There the least margin that holds 2^63 units open depends on how saturated releases round over the partial fills of the orders.
- PositionRange.PositionLimitHolds: about clean runs, under every configuration; after a first overflow the program's behaviour is undefined. `SafeLimitsKeepRunsClean` and `SignedRange.OverflowCondition` say when every run is clean.
- PositionRange.PositionUpdatesStayInRange: likewise.
- PositionRange.RefusedExactlyWhenUnaffordable: likewise, and the request's own check must not overflow.
- PublishedDepth.PublishedDepthIsTrueIffNeverRaised: does not compare the two where a command met the guard and the sum passes 64 bits, as several accounts at one level can make it; `PublishedDepthIsTrueIff` covers every case.
- JournalTears.AppendAfterTear: the torn record and the one glued to it have version 1, the default of `JournalRecord`.
- GatewayLaws.ForwardedOrdersAreInBand: assumes a deviation limit of at most 10000 basis points, as a valid configuration has; the gateway does not check it, and a wider one can wrap.
- GatewaySessions.RequestsAreDecided: likewise; `SessionsActForTheirAccount` does not need it.
- Refusals.RefusedForFirstFailure: about clean runs, as above.
- The size of a snapshot file is assumed to fit 64 bits, as any size the program can hold does.
- OrderBooks.OrderBook.CancelOrder: reads side and price before it erases the index entry; the program reads them through the erased iterator (src/domain/order_book.cpp:288-293).
- Price-level maps are sorted lists of non-empty levels, searched by price by a function; the two mirrored loops for buy and sell are one loop with the side as a parameter.
- Account states are one map keyed by the pair (account, instrument) instead of two nested maps.
- Execution ids, update sequences and request sequences are unbounded, and identifiers are natural numbers; their 64-bit wrap-around is not modelled.
- Hash functions and iteration order of unordered maps: maps are mathematical.
- The event sink and its re-entrancy: `MatchingEngine.publish` is the engine returning its batch, delivered to the publisher singly or as a batch.
- The instrument registry beyond which instruments can be registered, and its snapshot.
- Totals over all instruments of an account (`open_order_quantity`, `reserved_margin`).
- The gateway's `authorize`, which nothing calls.
- Files, their errors, flushing, atomic rename: a journal and a snapshot are strings.
- Command line, benchmark harness, metrics.
