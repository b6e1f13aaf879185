# Verified model of the trading app's arithmetic and state machines

The prediction-market app keeps its hardest promises in a layer without I/O: a backtester that must not look ahead,
order books rebuilt from a lossy stream, set arbitrage whose edge must be real after fees, report cards that must not
flatter, a rate limiter shared by many callers, and money shown without ever passing through a float. This project
states those promises about a model of that code and proves them, for every input, every run or every interleaving.

`dafny verify dfyconfig.toml` checks everything.

| files | what they model |
|---|---|
| `Replay*.dfy` | the backtest replay: the step machine, freedom from look-ahead, the cash identity, what the trader is owed, which orders are let through, the YES/NO mirror, and the loop with its mutable book |
| `OrderBook.dfy`, `Streams.dfy`, `Candles.dfy` | a book from snapshots and clamped deltas, the stream processor that owns books, and the candle builder |
| `Fees.dfy`, `Greedy.dfy`, `SetArbitrage.dfy`, `SetReach.dfy`, `SetPricing.dfy`, `Scanning.dfy` | fee rounding, the book walk, what the bids themselves allow, the priced set and its guarantee, which events a capped scan may price, and folding of repeated findings |
| `Attribution.dfy`, `AttributionRows.dfy`, `Statistics.dfy`, `ReportStats.dfy`, `Brier.dfy`, `Wilson.dfy`, `Longshot.dfy`, `Coverage.dfy` | the report card: whose cent it was, drawdown, bootstrap and verdict, forecast scores, the calibration screen, and the refusal of thin data |
| `RateLimit.dfy` | the token bucket with its additive-increase, multiplicative-decrease rate |
| `Digits.dfy`, `Decimals.dfy`, `MoneyText.dfy` | the digit-string money of the front end |
| `WhaleFlow.dfy` | splitting a tape into runs, and the sweep that is reported |
| `Prelude.dfy`, `Sorting.dfy` | sums, order on tickers, a stable sort and its monotonicity |

Conventions: `Decimal` and `float` are exact reals; instants and durations are whole microseconds, except in the rate
limiter where they are reals; exceptions are `Err` values; a square root is any function returning non-negative roots;
resample draws are arbitrary index sequences. A strategy is a function of the whole history of states it was shown, a
filler a function of the intent and the observation. No proof rests on automatic induction: every lemma to which Dafny
would apply it switches it off. Where the code and its comments differ the model follows the code:
the net edge of a set is the total over its contracts although the field is commented as per set
(`backend/app/detectors/set_arbitrage.py:111`), and it is divided by the size only in the runner.

Six promises turned out to hold only under a condition, which is proved exactly:

- A level of a book is snapshot plus deltas if and only if no running total went negative
  (`OrderBooks.PlainSumExactly`); the clamp otherwise leaves it strictly higher.
- A window consumes no more than a full bucket plus the configured rate, in every run, if and only if that rate is at
  least the floor of one half (`RateLimit.ThroughputExactly`). Below it the first penalty of a bucket raises the rate to
  one half, and no other penalty of any bucket ever raises it (`RateLimit.PenaltyRaisesExactly`).
- Supplying a gap for a market can never forgive a refusal if and only if it is at least the gap it replaces
  (`Coverage.ForgivesExactlyWhenSmaller`); a measured gap always is, a gap attached to a single snapshot need not be.
- The front end's rule that a non-zero amount never renders as zero holds in `asCentsAmount` and `asDollars` for every
  plainly written text. A text that takes the `Number` fallback, such as an exponent, reads as zero if and only if its
  amount is under half of 1e-8 (`MoneyText.NeverReadsAsZeroExactly`, with "1E-9" as the witness). `asUsd`, which takes
  dollars, prints as zero what is under half a cent, and no other plain text (`MoneyText.UsdLosesExactly`).
- The order in which fills are read leaves the attributed events unchanged if and only if the fills of each proposal of
  a detector share a route (`Attribution.OrderIsFreeExactly`).
- The three-part Brier identity holds whatever the outcomes if and only if no two different predictions share a bucket
  (`Brier.ThreePartsForAllOutcomes`).

## Model

| member | source | states |
|---|---|---|
| `ReplayLookAhead.LookAheadFree` | backend/app/backtest/replay.py:761-846 | Two replays with the same strategy and filler that agree on the first k observations and on every outcome settled by a horizon no earlier than them are in the same state after k observations, book, trades, fills, settled set, curve and views, or stopped by the same refusal; later observations and outcomes are arbitrary |
| `ReplayLookAhead.ReportsShareThePast` | backend/app/backtest/replay.py:840-882 | Two runs that both finish share the equity points and strategy views of their common past |
| `ReplayLookAhead.DuePrefixDetermined` | backend/app/backtest/replay.py:642-668 | The part of the settlement schedule due by an instant is fixed by the outcomes known by that instant alone |
| `ReplayLookAhead.RunKeepsPast` | backend/app/backtest/replay.py:747-749 | A longer run only appends: trades, fills, curve and views of the prefix are prefixes, and settled markets stay settled |
| `ReplayLookAhead.OnePointPerObservation` | backend/app/backtest/replay.py:811-846 | One equity point and one strategy view per observation, each stamped with its time, the view showing the observation |
| `ReplayLookAhead.SettledIsExactlyTheKnown` | backend/app/backtest/replay.py:776-783 | After any run the settled markets are exactly those whose outcome is known at the last observation: none early, none late |
| `Replay.RunPrefix` | backend/app/backtest/replay.py:765-773 | A refusal is final, and a run that finishes finished on every prefix |
| `ReplayCash.CashConserved` | backend/app/backtest/replay.py:776-846 | After every run: realised cents equal 100 times (fill cash plus payouts plus cost of what is still open), and equal the sum over recorded trades; fees are the sum of the fill fees; open positions are non-zero, average strictly inside (0, 1) and are not settled |
| `ReplayCash.EquityPointIsCash` | backend/app/backtest/replay.py:840-846 | Every equity point is the starting balance plus the cash account of the fills and settlements so far, minus the fees so far |
| `ReplayCash.FlatRunEarnsItsCash` | backend/app/backtest/replay.py:866-876 | A run that ends flat reports the starting balance plus exactly the cash its fills and settlements moved, minus fees |
| `ReplayCash.FillCashLaw` | backend/app/backtest/replay.py:408-443 | One fill, in all five cases of the signed-position rule: what it realises is its cash plus the change in the cost of the position |
| `ReplayCash.FillKeepsAverage` | backend/app/backtest/replay.py:408-443 | A fill priced inside (0, 1) leaves an average strictly inside (0, 1), also through a flip |
| `ReplayCash.SettlementCashLaw` | backend/app/backtest/replay.py:446-461 | A settlement realises the payout of the position minus what it cost |
| `ReplayTrader.TraderIsPaid` | backend/app/backtest/replay.py:388-461 | In the trader's own terms, for every run: realised cents are a hundred times (dollars received less dollars paid at the quoted prices, a dollar for each contract held on the winning side of what settled, a dollar for each YES and NO pair held of what did not) plus the cost of what is open; and every open net is contracts bought less sold, YES less NO |
| `ReplayTrader.SettledRunPaysWinners` | backend/app/backtest/replay.py:446-461 | Once every market traded has settled nothing is open and the gain is the cash and a dollar for each winning contract, nothing else |
| `ReplayOrders.FillRuleExactly` | backend/app/backtest/replay.py:408-443 | The rule of a signed fill and the only one: cash balances, nothing is realised until something closes, a lot that shrinks keeps its average, and one that flips starts at the price of the fill |
| `ReplayOrders.TradeOfFill` | backend/app/backtest/replay.py:884-934 | A fill records a trade exactly when it is against the position: what it closes, from the average to the price of the fill, and what that made |
| `ReplayOrders.TradeOfSettlement` | backend/app/backtest/replay.py:785-807 | A settlement records one exactly when something is held: all of it, from the average to a dollar or to nothing |
| `ReplayOrders.RunCountsSettlements` | backend/app/backtest/replay.py:785-807 | After every run the settlement count is the number of trades recorded by settlements |
| `ReplayOrders.FillRefused` | backend/app/backtest/replay.py:533-640 | An intent is filled exactly when it is of the market in view and not settled, its limit a price and its size positive, and all its fills match it, trade inside (0, 1), are positive, no worse than the limit, and together no more than asked; a refusal names something that is so |
| `ReplayOrders.StepRefusedExactly` | backend/app/backtest/replay.py:761-838 | An observation is refused exactly for a missing ticker, a time before the last, or a dishonest intent of the strategy asked at that instant |
| `ReplayOrders.RunRecordsItsOrders` | backend/app/backtest/replay.py:809-838 | A run records exactly the fills given for the intents of the strategy, in order and stamped, and counts the intents and the filled ones; all of them were honest |
| `ReplayOrders.ViewShowsHoldings` | backend/app/backtest/replay.py:809-816 | A strategy is shown every open market at the net of its own fills so far, averages inside (0, 1), and nothing that has settled by then |
| `ReplayMirror.RunMirrors` | backend/app/backtest/replay.py:388-461 | Flipping every side and every outcome mirrors the whole run: same P&L, fees, equity, trades and refusals, positions negated and averages complemented |
| `ReplayMirror.SideIsOnlyNotation` | backend/app/backtest/replay.py:388-405 | Rewriting any fills of a batch on the other side at the complementary price, from states with the same book, changes no ledger and no trade |
| `ReplayMirror.NotationChangesNoRun` | backend/app/backtest/replay.py:388-405 | Over a whole run: a strategy that writes any of its intents on the other side, with a filler that ignores the notation, ends with the same book, trades, curve, settled markets and views, or with the same refusal |
| `ReplayMirror.CostBasisMirrors` | backend/app/backtest/replay.py:848-861 | The reported cost basis is positive and is the same for a position and its mirror |
| `ReplayLoop.SettlementSchedule` | backend/app/backtest/replay.py:642-674 | Refused exactly when a key disagrees with its outcome; otherwise every outcome once, ordered by time and then ticker |
| `ReplayLoop.Book.Apply` | backend/app/backtest/replay.py:884-934 | The book after one fill, and the closed trade recorded exactly when the fill reduced a position |
| `ReplayLoop.Settle` | backend/app/backtest/replay.py:776-807 | The settlement loop reaches the state in which everything due is settled |
| `ReplayLoop.CheckedFills` | backend/app/backtest/replay.py:823-831 | A batch of fills is refused for its first bad fill, or for exceeding the intent, before any of it is applied |
| `ReplayLoop.FillAll` | backend/app/backtest/replay.py:817-838 | Every intent of one instant is checked, filled and applied in order; the first refusal stops the run |
| `ReplayLoop.Observe` | backend/app/backtest/replay.py:761-846 | One pass of the loop is one step of the replay machine |
| `ReplayLoop.Unsettled` | backend/app/backtest/replay.py:848-864 | Exactly the open non-zero positions, by ticker, each with the cash paid for it |
| `ReplayLoop.ReplayAll` | backend/app/backtest/replay.py:693-882 | The whole replay reports the final state of the step machine, or its refusal; every report conserves cash and pays the trader what is owed, with nothing assumed of outcomes, strategy or filler |
| `ReplayLoop.ReportConservesCash` | backend/app/backtest/replay.py:848-882 | Read off the report alone: realised cents equal 100 times (fill cash plus payouts of the settlements reached plus the cost of the listed open positions), the sum over the trades, and the account in contracts bought and sold with the listed cost bases; every equity point is the cash account of the run so far |
| `OrderBooks.BookRefines` | backend/app/kalshi/orderbook.py:84-156 | After any message sequence a fresh book holds only positive sizes, and each level is the closed form max(start + all deltas, the largest sum of a final stretch of deltas) over the deltas accepted since the last snapshot; the start is the last positive quote of the fixed-point levels of that side, or of its plain levels when there are none |
| `OrderBooks.SnapshotShows` | backend/app/kalshi/orderbook.py:84-90 | After a snapshot the YES side is what the YES payload quotes and the NO side what the NO payload quotes |
| `OrderBooks.CursorIsNewest` | backend/app/kalshi/orderbook.py:92-112 | What is trusted starts at the last snapshot and its cursor is the highest number since |
| `OrderBooks.AppliedExactly` | backend/app/kalshi/orderbook.py:92-112 | A delta is applied exactly when its side is known and its number, if it has one, is higher than any since the last snapshot |
| `OrderBooks.GapsAreLosses` | backend/app/kalshi/orderbook.py:139-144 | The gap counter is the number of times a fresh book was lost |
| `OrderBooks.ClampStep` | backend/app/kalshi/orderbook.py:113-137 | One clamped delta keeps that closed form |
| `OrderBooks.PlainSumExactly` | backend/app/kalshi/orderbook.py:92-137 | A level is plain snapshot-plus-sum if and only if no running total went negative |
| `OrderBooks.ClampNeverBites` | backend/app/kalshi/orderbook.py:113-137 | With no negative running total the clamp never bites |
| `OrderBooks.ClampBites` | backend/app/kalshi/orderbook.py:113-137 | A running total below zero leaves the level strictly above snapshot-plus-sum |
| `OrderBooks.OverdrawnKeepsTheRest` | backend/app/kalshi/orderbook.py:127-137 | The witness: a level of a, then minus more than a, then plus c, ends at exactly c, above the plain sum |
| `OrderBooks.ReplaysAreInert` | backend/app/kalshi/orderbook.py:92-112 | Deltas at or below the current sequence number change nothing, however often delivered |
| `OrderBooks.BestListingUnique` | backend/app/kalshi/orderbook.py:167-189 | There is one best-first listing of a side |
| `OrderBooks.OrderBook.ApplySnapshot` | backend/app/kalshi/orderbook.py:84-90 | A snapshot replaces each side by the last positive quotes of its own payload and clears staleness |
| `OrderBooks.OrderBook.ApplyDelta` | backend/app/kalshi/orderbook.py:92-137 | The book after a delta, and whether it was applied; one that is refused leaves the book unchanged or stale |
| `OrderBooks.OrderBook.MarkStale` | backend/app/kalshi/orderbook.py:139-144 | Staleness, and the gap count, after an invalidation |
| `OrderBooks.OrderBook.TopN` | backend/app/kalshi/orderbook.py:242-252 | The n best levels of each side, best first |
| `OrderBooks.OrderBook.ExecutableYesCost` | backend/app/kalshi/orderbook.py:212-240 | Refused exactly on a stale book; otherwise the cheapest way to buy that many YES contracts at one less each NO bid |
| `OrderBooks.WalkCost` | backend/app/kalshi/orderbook.py:212-240 | The walk fills what it can at the least cost of any allocation over the same levels, and reports the average |
| `Streams.StaleBooksAwaitResync` | backend/app/ingest/streams.py:163-232 | At every point of every run each stale held book is listed for resync |
| `Streams.RowsAreThrottled` | backend/app/ingest/streams.py:234-254 | Each persisted row is at least the throttle after the row of its market before it, and with a throttle that is not negative after every earlier one |
| `Streams.RowsShowFreshBooks` | backend/app/ingest/streams.py:234-254 | The step that appended each persisted row found the book held and not stale, and the row is its top ten |
| `Streams.DueRowsAreWritten` | backend/app/ingest/streams.py:234-254 | Nothing due is missed: each snapshot, and each delta a book takes, appends exactly one row of that market at that time unless its newest row is younger than the throttle, so with a positive throttle such a row always exists |
| `Streams.OnlyFreshBooksAreWritten` | backend/app/ingest/streams.py:205-254 | No other event writes a row |
| `Streams.AwaitsExactly` | backend/app/ingest/streams.py:163-232 | A market is listed for resync exactly when a resync of its book or a delta not taken came after its last snapshot |
| `Streams.BookIsItsOwnMessages` | backend/app/ingest/streams.py:141-232 | A market has a book exactly when it had a snapshot, and the book depends on the messages of that market alone |
| `Streams.HeldBooksRefine` | backend/app/ingest/streams.py:205-232 | So every held book refines snapshot-plus-deltas of its own messages |
| `Streams.StreamProcessor.OnResync` | backend/app/ingest/streams.py:163-170 | Every held book is stale and listed afterwards |
| `Streams.StreamProcessor.OnSnapshot` | backend/app/ingest/streams.py:205-213 | The processor after a snapshot, aliasing between books excluded |
| `Streams.StreamProcessor.OnDelta` | backend/app/ingest/streams.py:215-232 | The processor after a delta, including the unknown market and the refused delta |
| `Streams.StreamProcessor.MaybeRecordBook` | backend/app/ingest/streams.py:234-254 | A row is written exactly when the book is fresh and the throttle has elapsed |
| `Candles.OpenIsFold` | backend/app/ingest/streams.py:71-95 | An open candle exists exactly for buckets with pending trades, and is their first, max, min, last, sum and count |
| `Candles.EmittedIsFold` | backend/app/ingest/streams.py:97-111 | So is every candle taken away |
| `Candles.NothingLost` | backend/app/ingest/streams.py:71-111 | Volume and trade counts added equal those emitted plus those still open, under any interleaving |
| `Candles.EmittedOnceAndWhole` | backend/app/ingest/streams.py:97-111 | If no trade arrives for a bucket after it was emitted, it is emitted at most once and summarises all its trades |
| `Candles.BucketCovers` | backend/app/ingest/streams.py:65-69 | A bucket starts on a multiple of the period and covers the second of its trade |
| `Candles.BucketIncludes` | backend/app/ingest/streams.py:65-69 | In microseconds: the bucket is the one multiple of the period whose seconds include the instant, rounding toward zero before the epoch |
| `Candles.TradeBelongs` | backend/app/ingest/streams.py:71-95 | A trade goes to a bucket exactly when it is of its market and in its seconds |
| `Candles.TakenWhenOver` | backend/app/ingest/streams.py:97-105 | A flush takes a bucket exactly when the last of its seconds is over |
| `Candles.InOrderTapeEmitsWhole` | backend/app/ingest/streams.py:71-111 | With trades and flushes in order of time, every candle comes once and is of all the trades its bucket ever had |
| `Candles.CandleBuilder.AddTrade` | backend/app/ingest/streams.py:71-95 | The open candles after a trade |
| `Candles.CandleBuilder.TakeClosedBefore` | backend/app/ingest/streams.py:97-105 | Removes and returns exactly the buckets before the current one |
| `Candles.CandleBuilder.TakeEverything` | backend/app/ingest/streams.py:107-111 | Removes and returns every open bucket |
| `RateLimit.Throughput` | backend/app/kalshi/ratelimit.py:108-161 | For every configured rate, and any interleaving of tries, penalties and successes at non-decreasing times, tokens consumed in a window are at most capacity plus the larger of the rate and one half times its length |
| `RateLimit.ThroughputExactly` | backend/app/kalshi/ratelimit.py:77-161 | The bound is exact: a rate bounds every window of every run if and only if it is at least the larger of the configured rate and one half; so the configured rate itself does if and only if it is at least one half |
| `RateLimit.PenaltyNeedsTheFloor` | backend/app/kalshi/ratelimit.py:140-146 | The failing runs: below one half, a penalty and then two full draws consume more than any slower rate allows |
| `RateLimit.ConsumedFits` | backend/app/kalshi/ratelimit.py:108-161 | Tokens consumed never exceed the balance plus what accrued |
| `RateLimit.LazyIsContinuous` | backend/app/kalshi/ratelimit.py:108-113 | Refilling at any intermediate instants ends where one refill does |
| `RateLimit.FailedTryIsOnlyARefill` | backend/app/kalshi/ratelimit.py:127-138 | A try that has to wait leaves no trace beyond the refill |
| `RateLimit.RateStaysInBand` | backend/app/kalshi/ratelimit.py:140-161 | The rate stays between its floor and its ceiling when the ceiling is at least one half |
| `RateLimit.PenaltyRaisesExactly` | backend/app/kalshi/ratelimit.py:140-146 | Over every reachable bucket, a penalty raises the rate if and only if the configured rate is below the floor of one half and the penalty is the first |
| `RateLimit.PenaltyRaisesExactlyBelowMin` | backend/app/kalshi/ratelimit.py:140-146 | For any state, a penalty raises the rate if and only if the rate stands below its minimum |
| `RateLimit.PenaltyHalves` | backend/app/kalshi/ratelimit.py:140-146 | A 429 leaves the larger of the floor and half the rate |
| `RateLimit.PenaltiesHalve` | backend/app/kalshi/ratelimit.py:140-146 | n of them in a row, at any times, leave the larger of the floor and the rate halved n times |
| `RateLimit.EnoughPenalties` | backend/app/kalshi/ratelimit.py:140-146 | Enough of them bring any bucket to its floor |
| `RateLimit.SuccessesCreep` | backend/app/kalshi/ratelimit.py:148-161 | Each twenty successes in a row give back exactly a twentieth of the configured rate, up to all of it |
| `RateLimit.HalveThenCreep` | backend/app/kalshi/ratelimit.py:65-161 | The cycle in numbers: from a new bucket n 429s leave the larger of a fiftieth of its rate, one half, and the rate halved n times, and m successes then add a twentieth for each twenty, up to the full rate |
| `RateLimit.FreshServes` | backend/app/kalshi/ratelimit.py:77-84 | A new bucket serves at once exactly what fits its capacity or a tenth of a second's worth |
| `RateLimit.BlackoutEndsExactly` | backend/app/kalshi/ratelimit.py:140-146 | The blackout is no longer than asked: a bucket not deeper in debt is exactly empty when it ends |
| `RateLimit.PenaltyBlackout` | backend/app/kalshi/ratelimit.py:140-146 | After a penalty of s seconds nothing is consumed for s seconds unless the rate is raised meanwhile |
| `RateLimit.FourHundredRestore` | backend/app/kalshi/ratelimit.py:148-161 | 400 consecutive successes or more restore the full rate, however far it was cut; a rate above it stays as it is |
| `RateLimit.DelayIsExact` | backend/app/kalshi/ratelimit.py:134-138 | The computed delay is positive and is exactly when the try succeeds, leaving the bucket empty |
| `RateLimit.WaitIsLeast` | backend/app/kalshi/ratelimit.py:115-138 | The wait is the least one: a later try succeeds and an earlier one does not |
| `RateLimit.Bucket.TryAcquire` | backend/app/kalshi/ratelimit.py:115-135 | One pass under the lock: refused exactly above capacity, else taken, or the exact delay to wait |
| `RateLimit.Bucket.AcquireAlone` | backend/app/kalshi/ratelimit.py:115-138 | With no competition the loop waits once and succeeds at the end of the wait |
| `RateLimit.Bucket.PenalizeFor` | backend/app/kalshi/ratelimit.py:140-146 | The bucket after a 429 |
| `RateLimit.Bucket.RecordSuccess` | backend/app/kalshi/ratelimit.py:148-161 | The bucket after a success |
| `Fees.RoundUpIsLeast` | backend/app/core/fees.py:138-141 | The rounded fee is the least whole number of centicents that covers the exact one |
| `Fees.TakerFeeIsLeast` | backend/app/core/fees.py:325-351 | The taker fee is the least multiple of 0.01 cents at or above rate * C * P * (1 - P) |
| `Fees.FeesRefusedExactly` | backend/app/core/fees.py:240-261 | Every refusal of either fee: a price outside (0, 1), else a negative size, else an unlisted series whose default could understate that side |
| `Fees.TakerFeeExactly` | backend/app/core/fees.py:325-351 | Every taker fee: nothing for no contracts, else the least multiple of 0.01 cents covering base * multiplier * C * P * (1 - P), with the series' own taker multiplier or the default |
| `Fees.MakerFeeExactly` | backend/app/core/fees.py:354-375 | Every maker fee likewise, at the maker rate |
| `Fees.NetEdgeExactly` | backend/app/core/fees.py:404-444 | Over the whole size the edge is the gross edge less the fee of the side traded less slippage; nothing for no contracts; refused as that fee is |
| `Fees.FeeSymmetric` | backend/app/core/fees.py:325-351 | The fee at P is the fee at 1 - P |
| `Fees.RoundingPieces` | backend/app/core/fees.py:138-141 | Rounding n pieces costs between nothing and n - 1 centicents more than rounding their sum |
| `Fees.SplittingBounded` | backend/app/core/fees.py:325-351 | Splitting one price into n fills costs between the single fee and that plus n - 1 centicents |
| `Fees.BlendCarriesSpread` | backend/app/core/fees.py:325-351 | P * (1 - P) is concave: a walk carries at most the exact fee of its blended price |
| `Fees.WalkFeeBounded` | backend/app/core/fees.py:325-351 | A walk over n levels costs at most the fee at the blended price plus n - 1 centicents |
| `Fees.SafeDefaultDominates` | backend/app/core/fees.py:202-261 | When an unlisted series is priced at all, no listed series is charged more |
| `Fees.UnlistedRefusedExactlyWhenUnsafe` | backend/app/core/fees.py:240-261 | An unlisted series is refused if and only if some listed one has a higher multiplier on the side needed |
| `Fees.MultiplesKeepTheEdge` | backend/app/core/fees.py:404-444 | The net edge per contract at a whole multiple of a size is at least that of the size, and is refused exactly when it is |
| `Fees.DefaultIsSafe` | backend/app/core/fees.py:202-236 | Whether the default covers every listed multiplier of the side needed |
| `Fees.TakerFeeCents` | backend/app/core/fees.py:325-351 | The computed fee, with its refusals |
| `SetArbitrage.SortBestSorts` | backend/app/detectors/set_arbitrage.py:84-94 | The ladder is sorted best first and is a permutation of the levels |
| `SetArbitrage.UsableIsALadder` | backend/app/detectors/set_arbitrage.py:143-178 | What remains at effective prices strictly inside (0, 1) is still a best-first ladder of positive sizes |
| `SetArbitrage.LevelsFromEntries` | backend/app/detectors/set_arbitrage.py:69-80 | Entry by entry: long enough and of a positive size gives its level, any other gives none |
| `SetArbitrage.WalkExactAndOptimal` | backend/app/detectors/set_arbitrage.py:143-178 | The walk gives nothing exactly when usable depth is short; otherwise it consumes exactly the size asked, and no other allocation over the same levels earns more or costs less |
| `SetArbitrage.ConsumedLevels` | backend/app/detectors/set_arbitrage.py:143-178 | One fill for each level touched, of what is taken from it, and none from any other |
| `SetArbitrage.WalkLoop` | backend/app/detectors/set_arbitrage.py:143-178 | The loop over the ladder, skipping prices that cannot trade |
| `SetArbitrage.Walk` | backend/app/detectors/set_arbitrage.py:143-178 | The loop computes that walk |
| `Greedy.BuyWalkOptimal` | backend/app/detectors/set_arbitrage.py:143-178 | Taking the cheapest levels first costs no more than any allocation of the same total |
| `Greedy.SellWalkOptimal` | backend/app/detectors/set_arbitrage.py:143-178 | Taking the dearest levels first earns no less than any allocation of the same total |
| `Greedy.TakeFills` | backend/app/detectors/set_arbitrage.py:143-178 | The greedy allocation is feasible and takes the lesser of the size asked and the depth |
| `SetReach.WalkIsBestFill` | backend/app/detectors/set_arbitrage.py:84-178 | The walk over the sorted, inverted and slipped ladder does as well as any way of filling from the bids themselves at what they net |
| `SetPricing.PricedExactlyUpToThinnest` | backend/app/detectors/set_arbitrage.py:257-269 | With every effective price inside (0, 1) and every series priced, a set is priced if and only if 0 < size <= the depth of the thinnest leg |
| `SetPricing.LegFromBids` | backend/app/detectors/set_arbitrage.py:84-228 | A quoted sold leg earns the most its YES bids less slippage allow over net prices inside (0, 1); a bought one costs the least that one less its NO bids plus slippage allow |
| `SetPricing.LegCovered` | backend/app/detectors/set_arbitrage.py:207-228 | A leg goes unfilled exactly when those bids are short of the size, and is refused exactly when they cover it and its series has no fee |
| `SetPricing.PricedExactly` | backend/app/detectors/set_arbitrage.py:181-254 | A set is priced exactly when there are legs, the size is positive, and every leg is covered and has a fee; refused exactly when the first leg that cannot be priced lacks only a fee |
| `SetPricing.CapIsThinnestBids` | backend/app/detectors/set_arbitrage.py:257-269 | A size is within the cap exactly when the YES bids of every leg cover it when selling, the NO bids when buying |
| `SetPricing.EdgeLaw` | backend/app/detectors/set_arbitrage.py:241-254 | Settlement P&L is the reported edge plus or minus one dollar per set for each leg beyond or short of one winner |
| `SetPricing.PricedSetIsPriced` | backend/app/detectors/set_arbitrage.py:207-254 | Whatever is priced has one leg per book, all of the same size and each at the best its bids allow, with the edge computed from them |
| `SetPricing.EdgeIsGuaranteed` | backend/app/detectors/set_arbitrage.py:207-254 | Over every outcome with at most one winning leg: a sold set pays at least its edge, exactly it when one leg wins; a bought set pays exactly it when one leg wins and loses its cost and fees when none does |
| `SetPricing.LegFeeBounded` | backend/app/detectors/set_arbitrage.py:222-228 | A leg pays at most the fee at its average price plus a centicent per further level |
| `SetPricing.PriceSet` | backend/app/detectors/set_arbitrage.py:181-254 | The loop over the legs, stopping at the first that cannot fill |
| `SetPricing.MaxLossCovers` | backend/app/detectors/base.py:294-303 | The proposed maximum loss covers the loss of every exclusive outcome, both directions |
| `SetPricing.MaxLossAttained` | backend/app/detectors/base.py:302-303 | The worst exclusive outcome loses all of it less what the set is sure to make; so it is attained if and only if a sold set collects no more than a dollar, and a bought one not less than nothing |
| `SetPricing.Search` | backend/app/detectors/runner.py:200-215 | The kept candidate is the first of the best total edges among sizes within the cap; refused exactly when pricing some such size is, with the first of those refusals |
| `SetPricing.BestOfFive` | backend/app/detectors/runner.py:61-215 | The kept candidate is available at one of 5, 20, 50, 100 or 200; no available one of those is better in total, and of equals it is the largest |
| `SetPricing.NoneOfFive` | backend/app/detectors/runner.py:61-215 | Nothing is kept only when none of the five is available |
| `SetPricing.BestFor` | backend/app/detectors/runner.py:184-222 | Nothing without depth or below the minimum edge per set; otherwise that candidate; refused exactly as the search is |
| `SetPricing.ReportedSellPaysTheFloor` | backend/app/detectors/runner.py:196-222 | A reported sell pays at least the configured minimum per set in every exclusive outcome |
| `Watchlist.OfferedSetsAreWhole` | backend/app/detectors/runner.py:285-321 | An event kept by a capped scan has its complete leg set; the events given up are exactly those reaching the cut or beyond it |
| `Watchlist.WatchedExclusiveEvents` | backend/app/detectors/runner.py:257-321 | Kept: events with more than one leg, all watched, other than the last one of a capped result; their legs sorted |
| `Signals.SeenCountsAddUp` | backend/app/detectors/base.py:119-188 | The counters add up to the number of findings recorded, folded or not |
| `Signals.EveryFindingIsKept` | backend/app/detectors/base.py:119-188 | Every finding ever recorded has a row for the same subject whose edge is not materially different |
| `Signals.NewRowOnlyForNews` | backend/app/detectors/base.py:100-188 | No new row when every row of the subject seen within the window is nearer in edge than the threshold; one, counted once and seen now, when none is or the window is off |
| `Signals.RecordedIsSeenNow` | backend/app/detectors/base.py:161-170 | Either way a row that stands for the finding is seen now |
| `Signals.Recorder.Record` | backend/app/detectors/base.py:119-188 | Folds into a most recently seen match whose edge has not moved, otherwise appends |
| `Attribution.AttributionConserves` | backend/app/backtest/report.py:378-492 | Total event P&L equals realised minus fees over detector-linked fills plus settlements touched by exactly one detector |
| `AttributionRows.LinksRead` | backend/app/backtest/report.py:358-359 | The lookups give, for an order id, the proposal and route of its last row, a blank route being the simulator |
| `AttributionRows.EventsAreRows` | backend/app/backtest/report.py:358-478 | From the rows alone: an event exists exactly when some fill or settlement counts for it, and its net, fees and legs are the sums over those; a fill counts for its proposal if a detector made it, a settlement for the only proposal that built its position, or for itself, if one named detector alone claims it |
| `AttributionRows.EventsAreTheirDetectors` | backend/app/backtest/report.py:417-478 | An event of a proposal is its detector's; one of a settlement is its only claimant's, on its own route |
| `AttributionRows.EventsAreDated` | backend/app/backtest/report.py:417-478 | An event is dated by the latest of its rows |
| `AttributionRows.ContestedExactly` | backend/app/backtest/report.py:452-456 | A settlement is contested exactly when two named detectors claim it, and then counts for no event |
| `AttributionRows.ContestedAreCounted` | backend/app/backtest/report.py:452-455 | The count reported for a detector on a route is the number of settlements it contests there |
| `Attribution.EntryIsItsRows` | backend/app/backtest/report.py:417-437 | Each event is the sum of its rows: P&L, fees, number of legs and latest time |
| `Attribution.SharesAgree` | backend/app/backtest/report.py:417-478 | Rows of one event agree on the detector, and on the route when the fills of a detector-sourced proposal share one |
| `Attribution.EventOwnsItsRows` | backend/app/backtest/report.py:417-478 | Each row belongs to one event, of its own detector, and of its own route under the same condition |
| `Attribution.OrderDoesNotMatter` | backend/app/backtest/report.py:387-478 | When they do, any permutation of the fills gives the same events |
| `Attribution.OrderIsFreeExactly` | backend/app/backtest/report.py:387-478 | Every permutation of the fills gives the same events if and only if the fills of each detector-sourced proposal share a route |
| `Attribution.SortEvents` | backend/app/backtest/report.py:480-492 | Every entry once, oldest first |
| `Attribution.SettleOne` | backend/app/backtest/report.py:441-478 | One settlement goes to its only claimant, merged into its only proposal, or is counted as contested |
| `Attribution.AttributeEvents` | backend/app/backtest/report.py:358-493 | The two passes build exactly those events and contested counts |
| `Drawdown.MaxDrawdown` | backend/app/backtest/stats.py:486-521 | Non-negative, at least every earlier-minus-later difference, and attained |
| `Drawdown.DrawdownIsTheWorstRunOfTrades` | backend/app/backtest/report.py:635-659 | On the curve opening at zero it is the largest total lost over any run of consecutive trades |
| `Drawdown.OpeningPointMatters` | backend/app/backtest/report.py:638-642 | Without the opening zero the figure is never larger, falls short by at most the loss of the first trade, and differs only when the worst run starts with it |
| `Drawdown.EquityCurve` | backend/app/backtest/report.py:643-647 | The curve of running totals, opening at zero |
| `Statistics.PercentileStaysInside` | backend/app/core/statistics.py:76-105 | A quantile lies within the sample, never falls as q grows, and reads the extremes at 0 and 1 |
| `Statistics.PercentileHitsTheRanks` | backend/app/core/statistics.py:95-105 | At k / (n - 1) it is the k-th value itself |
| `Statistics.PercentileIsLinear` | backend/app/core/statistics.py:95-105 | Between two ranks it moves in proportion |
| `Statistics.RoundHalfEvenIsNearest` | backend/app/backtest/stats.py:161-163 | Quantising goes to a nearest centicent, ties to even |
| `Statistics.QuantizedIsNearest` | backend/app/backtest/stats.py:161-163 | Quantising gives a nearest whole number of ten-thousandths, of two equally near the even one |
| `Statistics.QuantizeMonotone` | backend/app/backtest/stats.py:161-163 | Quantising keeps order |
| `Statistics.QuantizedSign` | backend/app/backtest/stats.py:161-163 | A quantised figure is positive only past half a centicent, negative only below minus that |
| `Sorting.SortMonotone` | backend/app/backtest/stats.py:242-246 | Raising every value raises every rank of the sorted sample |
| `Bootstrap.IntervalRespectsSupport` | backend/app/backtest/stats.py:236-251 | For every possible choice of draws, quantised smallest trade <= low <= high <= quantised largest trade |
| `Bootstrap.IntervalOfMeans` | backend/app/backtest/stats.py:236-251 | The interval is two quantiles of the means of the draws, with half of what the confidence leaves at each end |
| `Bootstrap.TailRises` | backend/app/backtest/stats.py:236-251 | On the same draws, trades that are no worse give bounds that are no lower |
| `Verdicts.GateIsExact` | backend/app/backtest/stats.py:537-578 | Insufficient exactly below the floor or with one trade; an edge exactly when the low tail clears half a centicent; losing exactly when the high tail falls below minus that |
| `Verdicts.NoWinnerNoEdge` | backend/app/backtest/stats.py:537-578 | No draws give an edge to trades none of which won, nor a losing verdict to trades none of which lost |
| `Verdicts.BetterTradesNoWorseVerdict` | backend/app/backtest/stats.py:537-578 | Raising trades keeps a shown edge and never creates a losing verdict |
| `Verdicts.StricterGateClaimsLess` | backend/app/backtest/stats.py:254-578 | A higher confidence or a higher floor only withdraws claims |
| `Verdicts.BuildReport` | backend/app/backtest/report.py:622-665 | The card: total, mean, interval at 95%, verdict, fees and the drawdown of the curve opening at zero; refused exactly on a bad floor or no resamples |
| `Brier.ScoreIsPartsAndResidual` | backend/app/backtest/stats.py:398-478 | For any forecasts and bucket count: score = reliability - resolution + uncertainty + within-bucket variance - 2 * within-bucket covariance |
| `Brier.ThreePartsExactly` | backend/app/backtest/stats.py:429-438 | For given forecasts the three-part identity holds if and only if that variance is twice that covariance; one value per bucket makes both zero |
| `Brier.ThreePartsForAllOutcomes` | backend/app/backtest/stats.py:429-438 | From the predictions alone: the three-part identity holds for every list of outcomes if and only if no two different predictions share a bucket |
| `Brier.ResidualShrinks` | backend/app/backtest/stats.py:429-438 | With k buckets of width w = 1/k the residual is at most w * w + 2 * w |
| `Brier.ResolutionWithinUncertainty` | backend/app/backtest/stats.py:343-366 | Reliability is non-negative and resolution is between 0 and the uncertainty |
| `Brier.BucketsPartition` | backend/app/backtest/stats.py:452-462 | Bucketing counts each forecast exactly once |
| `Brier.ValidateForecasts` | backend/app/backtest/stats.py:371-395 | Refused exactly for unequal lengths, no forecasts, or a value outside [0, 1], naming the first |
| `Brier.BrierScore` | backend/app/backtest/stats.py:398-411 | The mean squared distance of each prediction from one if it happened and from zero if not |
| `Brier.Decompose` | backend/app/backtest/stats.py:446-478 | The two loops over the bucket arrays compute the three parts |
| `Brier.BrierDecomposition` | backend/app/backtest/stats.py:414-478 | The parts, with the refusals |
| `Wilson.WilsonInvertsScoreTest` | backend/app/core/statistics.py:29-53 | For z not negative a rate lies in the interval if and only if n * (k/n - rate)^2 <= z^2 * rate * (1 - rate), and the interval is within [0, 1] and holds k/n; for negative z it is turned around and holds no rate |
| `Wilson.InvertsExactly` | backend/app/core/statistics.py:29-53 | So the interval inverts the score test if and only if z is not negative |
| `Wilson.ClampsNeverBind` | backend/app/core/statistics.py:50-53 | In exact arithmetic the clamps never change a bound, at any z |
| `Wilson.ExtremesAreExact` | backend/app/core/statistics.py:36-40 | At 0 of n the lower bound is exactly 0, and at n of n the upper is exactly 1, if and only if z is not negative |
| `Wilson.RefusedExactly` | backend/app/core/statistics.py:43-44 | No interval exactly for counts that cannot be interpreted |
| `Wilson.WiderWithConfidence` | backend/app/core/statistics.py:29-53 | A larger z only widens the interval |
| `Longshot.MispricedIsRejection` | backend/app/detectors/longshot_calibration.py:104-112 | A bucket is mispriced if and only if the score test rejects its own price |
| `Longshot.CalibrateCounts` | backend/app/detectors/longshot_calibration.py:161-197 | One stat for each countable bucket and no other, ascending by price |
| `Longshot.StatsCount` | backend/app/detectors/longshot_calibration.py:139-197 | A price from 1 to 99 cents has a stat exactly when it was seen, and the stat counts its own observations and those of them that settled YES |
| `Longshot.Calibrate` | backend/app/detectors/longshot_calibration.py:139-158 | The same from the counts of the observations |
| `Longshot.ActedOnExactly` | backend/app/detectors/longshot_calibration.py:200-209 | The buckets a caller may act on are exactly the prices from 1 to 99 cents seen often enough whose price the score test rejects at 1.96 |
| `Coverage.ImpliedGapIsOptimistic` | backend/app/backtest/coverage.py:725-743 | The gap implied from counts, rounded to a microsecond, never exceeds the largest gap of the timestamps behind it |
| `Coverage.MedianMonotone` | backend/app/backtest/coverage.py:745-745 | The median never falls when every gap stays or grows, rounding included |
| `Coverage.MedianIsMiddle` | backend/app/backtest/coverage.py:745-745 | The median is the middle of the gaps in order, or the rounded half-way point of the two in the middle |
| `Coverage.RefusalsSay` | backend/app/backtest/coverage.py:755-850 | What each refusal says of the sample: too few markets, no two observations far enough apart, too few settled, or all settled |
| `Coverage.DefaultsRefuse` | backend/app/backtest/coverage.py:118-195 | With the default limits: under 200 markets, under 100 settled, under 30 days, one series, or a median gap over 20 intervals or five minutes |
| `Coverage.DefaultsWarn` | backend/app/backtest/coverage.py:177-190 | And its warnings: more than four fifths of the markets in one of several series, less than three quarters of the window covered |
| `Coverage.SameSeriesExactly` | backend/app/backtest/coverage.py:398-400 | Two markets are of one series exactly when they name the same, or neither names any |
| `Coverage.CountsAreWhere` | backend/app/backtest/coverage.py:708-743 | The settled, single-snapshot and series counts are those of the markets concerned |
| `Coverage.MeasuringNeverForgives` | backend/app/backtest/coverage.py:858-878 | Replacing implied gaps by measured ones for any of the markets keeps every refusal and changes no other kind |
| `Coverage.MeasuringNeverUnblocks` | backend/app/backtest/coverage.py:596-604 | So it can stop a backtest but never start one |
| `Coverage.ForgivesExactlyWhenSmaller` | backend/app/backtest/coverage.py:735-743 | A supplied gap lifts the refusal in no sample, at no tolerance, if and only if it is at least the gap it replaces |
| `Coverage.SingleSnapshotGapForgives` | backend/app/backtest/coverage.py:735-743 | The witness: a gap of nothing attached to a single snapshot lifts the refusal |
| `Coverage.Checked` | backend/app/backtest/coverage.py:369-387 | What construction refuses |
| `Coverage.GatherGaps` | backend/app/backtest/coverage.py:735-743 | The gap of each market, whether any was measured, and how many had one snapshot |
| `Coverage.CountSeries` | backend/app/backtest/coverage.py:711-712 | How many markets each series holds |
| `Coverage.Audit` | backend/app/backtest/coverage.py:623-948 | Refused exactly on bad arguments; otherwise each refusal and each warning is listed, in order, exactly when its condition holds, and the worst gap and whether any was measured are those of the sample |
| `Digits.BumpAddsOne` | frontend/src/api.ts:870-883 | The bumped digits denote one more |
| `Digits.BumpLeads` | frontend/src/api.ts:870-883 | They grow by a digit exactly when all were 9, and then lead with 1 |
| `Digits.BumpDigits` | frontend/src/api.ts:870-883 | The carry loop on the digit array computes them |
| `Decimals.ShiftDivides` | frontend/src/api.ts:856-868 | Moving the point left by k divides by 10^k and keeps the sign and the form |
| `Decimals.ShiftMultiplies` | frontend/src/api.ts:856-868 | Moving it right by k multiplies by 10^k |
| `Decimals.RoundIsHalfUp` | frontend/src/api.ts:885-894 | Rounding is half-up on the magnitude, to exactly dp fraction digits |
| `Decimals.ZeroWhenUnderHalf` | frontend/src/api.ts:917-920 | An amount reads as zero at dp digits exactly when it is under half a unit of that precision |
| `MoneyText.ParseIsExact` | frontend/src/api.ts:821-834 | A text is read if and only if it is spaces, an optional sign, digits with at most one point and a digit somewhere; it is read as exactly those digits without leading zeros |
| `MoneyText.RenderReadsBack` | frontend/src/api.ts:900-906 | The printed text parses to exactly the rounded amount, a zero without its sign |
| `MoneyText.RenderedAmount` | frontend/src/api.ts:900-906 | What is printed is the amount to the nearest unit of the last place, with its sign unless it reads as zero |
| `MoneyText.RenderSignificant` | frontend/src/api.ts:908-915 | The loop over precisions |
| `MoneyText.SignificantShows` | frontend/src/api.ts:908-915 | It prints at the first precision that does not read as zero |
| `MoneyText.FallbackReads` | frontend/src/api.ts:836-850 | A text that is not plain is read as its number half-up to eight places with its sign; as nothing exactly from 1e21 up; as zero exactly under half of 1e-8 |
| `MoneyText.NeverReadsAsZeroExactly` | frontend/src/api.ts:792-803 | The rule that no real amount renders as zero, from the text that arrives: a plain text reads as zero in `asCentsAmount` and `asDollars` if and only if it is zero; one that takes the fallback if and only if it is under half of 1e-8 |
| `MoneyText.ExponentReadsAsZero` | frontend/src/api.ts:844-850 | The witness: "1E-9" is real, prints as zero in both, and has sign 0 |
| `MoneyText.CentsNeverReadAsZero` | frontend/src/api.ts:941-957 | An amount in cents, once read and not zero, prints as "<0.0001" under half a centicent, and otherwise as a figure that reads back non-zero with its sign |
| `MoneyText.GroupsOfThree` | frontend/src/api.ts:896-899 | Every fourth character from the right is a comma and no other is |
| `MoneyText.UsdIsDecorated` | frontend/src/api.ts:986-990 | Dollars are the two-decimal figure with its symbol and commas |
| `MoneyText.DollarsUseTheUnitThatFits` | frontend/src/api.ts:992-1010 | Of an amount once read and not zero: under a dollar the figure stays in cents; from a dollar up it reads back as the hundredth, to two places, never zero |
| `MoneyText.UsdReadsAsZeroExactly` | frontend/src/api.ts:1012-1018 | Once read, `asUsd` prints an amount as zero if and only if it is under half a cent |
| `MoneyText.UsdHidesASmallAmount` | frontend/src/api.ts:800-803 | So the rule that no real amount renders as zero fails for `asUsd`: "0.004" does |
| `MoneyText.UsdLosesExactly` | frontend/src/api.ts:1012-1018 | From the text: `asUsd` reads as zero if and only if the amount is under half a cent, or, through the fallback, under half a cent less half of 1e-8 |
| `MoneyText.MoneySignIsTheSign` | frontend/src/api.ts:1047-1059 | The sign of the amount once read, 0 for zero |
| `MoneyText.MoneySignExactly` | frontend/src/api.ts:1047-1059 | From the text: the sign of the amount, or 0 exactly when it is zero, when the fallback loses it (under half of 1e-8), or when the fallback cannot print it (1e21 and up) |
| `MoneyText.NothingShows` | frontend/src/api.ts:941-1059 | What is missing, blank or past reading is shown as a dash and has no sign |
| `WhaleFlow.Runs` | backend/app/detectors/whale_flow.py:221-241 | The left-to-right loop gives the runs of the tape |
| `WhaleFlow.RunsKeepEveryPrint` | backend/app/detectors/whale_flow.py:221-241 | Laid end to end the runs are the usable prints with a readable side, in order |
| `WhaleFlow.RunsAreMaximalBlocks` | backend/app/detectors/whale_flow.py:202-241 | Each run is a stretch of the tape on one side, in window, never stepping back, that cannot be made longer |
| `WhaleFlow.BlocksAreRuns` | backend/app/detectors/whale_flow.py:202-241 | And every such stretch is a run |
| `WhaleFlow.ReadablePrintsRun` | backend/app/detectors/whale_flow.py:150-241 | A print is in some run exactly when its price is inside (0, 1), its count positive and its side readable |
| `WhaleFlow.LevelsAreStrictSteps` | backend/app/detectors/whale_flow.py:244-259 | Distinct prices of a run are one more than its strict price steps |
| `WhaleFlow.DetectSweep` | backend/app/detectors/whale_flow.py:262-291 | The last qualifying run, or none; none for bad arguments |
| `WhaleFlow.SweepsWalkTheBook` | backend/app/detectors/whale_flow.py:262-291 | A reported sweep is a maximal stretch that ends strictly above its first price when buying and strictly below when selling |
| `WhaleFlow.NoSweepIsMissed` | backend/app/detectors/whale_flow.py:262-291 | When none is reported no maximal stretch of the tape walks enough prices |
| `WhaleFlow.OutlierWorth` | backend/app/detectors/whale_flow.py:294-328 | An outlier is worth a half and a tenth for each unit over the threshold, all from five over |
| `WhaleFlow.SweepWorth` | backend/app/detectors/whale_flow.py:294-328 | A sweep is worth six tenths and a tenth for each level over the least, all from four over |
| `WhaleFlow.TogetherWorth` | backend/app/detectors/whale_flow.py:294-328 | The better of the two, and fifteen hundredths more when both are there, up to all of it |
| `WhaleFlow.Confidence` | backend/app/detectors/whale_flow.py:294-328 | Between 0 and the clamped base |
| `WhaleFlow.MoreEvidenceNeverHurts` | backend/app/detectors/whale_flow.py:294-328 | More evidence is never worth less, and never lifts the ceiling |

## Left out

- SQL, Redis, HTTP, WebSocket, FastAPI, the React components, settings and logging: I/O around the parts modelled here.
- Rounding of floats and of 28-digit decimals: reals are exact.
- Type checks on money and timestamps, naive timestamps, parsing of malformed numbers, and the conversion of side and action spellings (including the taker side of a print): inputs are already typed.
- `normal_interval`, the standard error of an expectancy, `z_for_confidence` beyond its range check, size z-scores and `analyse`: closed forms or single-branch assembly; only the bootstrap interval gates a verdict.
- Text of messages, headlines, rationales, evidence and findings: a finding is its code.
- Order counts of the report funnel, which are plain counters.
- Order of events with equal timestamps and of candles within one flush: the model lists them in some order.
- Event keys are a datatype, so a proposal and a settlement can never share one; the program keeps them apart by a string prefix.
- Key fallbacks of `LegBook.from_payload`, normalisation of series tickers, loading of the YAML fee schedule, `round_trip_cost_cents` and the separate multiplier properties.
- `executable_cost` for the NO side: it walks NO bids, which is not the cost of buying NO.
- Ticker updates, which the program collapses; tape and ticker batches, flush retries and counters of the stream processor.
- Streams.StreamProcessor.OnResync: marks every book stale before it lists them for resync, where the program does both book by book; nothing can observe the difference.
- RateLimit.Bucket.AcquireAlone: the retry loop without competitors; competing callers are the interleavings of atomic tries in `RateLimit.Throughput`, and fairness between them is not modelled.
- Watchlist.WatchedExclusiveEvents: rows of one event stand together and tickers are distinct, as the ordered query over a primary key returns them.
- `toDec` takes the numeric value of its `Number` fallback as a parameter (its rounding to eight places is modelled); `asCents`, `asCount`, `asSignedCents` and `absCents` are further arrangements of the formatters modelled.
- Rate limiter tiers, `describe`, and the split into read and write buckets.
- `trading/`, `weather/`, `btc/`, `stale_quote.py`, `resolution_sniper.py` and `undervalued_screener.py` are not part of this model.
