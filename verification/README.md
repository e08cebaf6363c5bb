# Verified model of the triangular-arbitrage trader

A Dafny 4.11 model of the trader's stateful core and of its capture tools, with
machine-checked proofs of what each part promises. `dafny verify dfyconfig.toml`
checks everything.

| file | models | main results |
|---|---|---|
| `Basics.dfy` | types shared by all files | |
| `Trading.dfy` | values shared by executor and gateways; rounding to a step; the double-entry effect of a cumulative report | booking is exact exactly when no fee is dropped; chains of reports telescope |
| `Execution.dfy` | `ArbitrageExecutor::Impl`: preflight, sizing and every handler as a function of the fields | |
| `ExecutorInvariant.dfy` | what holds of those fields between handlers | every handler keeps it, whatever the gateway reports |
| `ExecutorContract.dfy` | what every handler does, in terms of grids, filters, statuses and counters, without the functions that compute it | the handlers' functions do exactly that |
| `Executor.dfy` | the executor as an object updated in place | each handler keeps the invariant and does what its contract spells out, with counters that move once per cycle and at most one order sent |
| `ExecutionRuns.dfy` | all runs of the executor with any gateway: candidates, posted begins, timers, `stop`, throwing submits, answers, late and repeated deliveries, in any order | one request at a time, cycle accounting, double entry, finality of a halt, unique client ids |
| `PaperGateway.dfy` | the simulated exchange | solvency, idempotence, no level sold twice, all or nothing |
| `BinanceRequest.dfy` | one signed POST: the stages of `request`, any of which may throw, the exchange's own state, `checked` | what the stages come to; every response is covered |
| `BinanceGateway.dfy` | the live gateway: report decoding, the wallet ledger, the FIFO worker | no order that the exchange took is ever reported Rejected; report i answers request i |
| `EndToEnd.dfy` | executor and gateways side by side | both gateways keep the contract the runs rely on; an order sized after a passed preflight is covered by its book |
| `PaperSystem.dfy` | the executor run on the simulated exchange | in every run ids are fresh, answers are accounted and the books agree outside Halted; first orders fill |
| `WholeCycle.dfy` | a cycle of three legs while the books stand still | every order it sends fills completely |
| `LiveSystem.dfy` | the executor run on the live gateway's worker | in every run the books differ by the missed answer only, and which answers can be missed |
| `PaperTrader.dfy` | the program on the simulated exchange as its objects | they go through exactly the runs of `PaperSystem.dfy` |
| `Decimals.dfy` | fixed-width decimals | the number a text stands for, exactness, and the exact conditions of every overflow |
| `Triangles.dfy` | `validate_arbitrage` | accepted exactly for three-asset USDT loops; two opposite round trips |
| `OrderBooks.dfy` | the book slots and `scan_edge` | an edge is three trades at the quoted prices that end with more than they began; sound, maximal, complete; never both directions |
| `MarketFeed.dfy` | from a depth message's number texts to a cycle: `decode_partial_depth`, `ingest`, the callback of `main` | a book shows the numbers of its texts; a cycle begins exactly if there is an edge and the executor is free |
| `ReceiverRing.dfy` | the lock-free receive ring, with stale index views and 64-bit wrap-around | refines a bounded FIFO, exact counters, drained by `stop` |
| `AsyncLog.dfy` | the asynchronous logger | exact accounting, file order, complete shutdown |
| `Ordering.dfy` | stable sort, filter and bisection, as the Python tools use them | |
| `CaptureCoverage.dfy` | `coverage` and the sequence index | the bisected lookup gives the full scan's answer; completion frame is least |
| `CleanSamples.dfy` | `clean_samples` | indexes agree with the quadratic specification; sample keys are unique |
| `RequiredAsset.dfy` | `build_graph`, `find_triangles` | each clique once; every USDT row is accepted by `validate_arbitrage` |
| `Frames.dfy` | WebSocket frames (sections 5.2 and 5.3 of RFC 6455): printer, socket reader, raw parser | round trip through both parsers, which agree on every buffer |

## How the model relates to the code

- Objects that the code updates in place are classes with the same fields. Their
  methods are proved against specification functions on values, and the
  properties over whole runs are lemmas about those functions. Threads are
  modelled as sequences of atomic steps (one critical section, atomic access or
  file operation each), so "for every sequence" means "for every interleaving".
- The 50-digit `Decimal` and `long double` are Dafny `real`, so the code's
  `isfinite` tests have no counterpart. `int64_t`, `int8_t` and `uint64_t` bounds
  are exact in `Decimals.dfy` and `ReceiverRing.dfy`; statistics counters are
  unbounded.
- What a method or specification function comes to is stated apart from the
  function that computes it, in terms of grids, filters, statuses, texts, bytes
  and counters, and proved of it: `ExecutorContract.dfy` for the executor, `Serves`
  for the simulated exchange, `Carries` for a decoded answer, `PaysOff` for an edge,
  `Shows` for a book, `Certifies` for a capture proof, `Sampled` for the delay
  samples, `Triangulated` for the listed triangles, `Begins` for a frame.
- A missing key of a balance dictionary and a zero balance are the same thing, as
  `operator[]` makes them, except where the code asks `contains("USDT")`.
- A client id is the triple (wall time, cycle number, order number) of which the
  code prints a text.
- Clocks, book snapshots, failing stages, the exchange's decisions, stale index
  views and iteration orders are inputs, universally quantified.
- A posted handler of the simulated exchange fills and calls back in one go; here
  the two are separate events, so the runs include those in which something comes
  between them.
- What the exchange may do with an order (`MaySay`) is what its documentation
  says of its answers: a refusal or a REJECTED order was not taken, an order in a
  success response was, and -1006, -1007, 5XX and unreadable successes leave it
  open. As in the code, any other status that is not a success is a refusal.
- The stop after the first leg (src/execution/execution.cpp:563-567) is the
  constant `firstLegStop` of `Setup`. In the code it is on; then no cycle ever
  completes, which is part of `CycleAccounting`, and tests/execution_tests.cpp
  cases that expect three fills do not describe this code. Everything is proved
  for both values, except that `CyclesFillWhole` is about cycles without the stop.

Where a wished-for property is false of the code, the exact condition is proved:

- A report books exactly the difference of two cumulative effects if and only if
  it still lists every fee the previous one charged
  (`BookingIsExactIffFeesKept`). Over any stream of reports the balances miss
  exactly the fees that were dropped on the way (`DroppedFees` in
  `BookingTelescopes`, `WalletTelescopes`, `HoldingsTelescope`).
- Stopping counts a cycle a second time if and only if it had timed out with its
  request still out (`StopCountsTwiceIff`; the input is
  `TimeoutThenStopCountsTwice`). The counter equation carries exactly that surplus.
- The executor's books and the wallet differ by the one answer that was delivered
  and not accounted, in every state, halted ones included (`LedgerBalances`). So
  they agree if and only if that answer is worth nothing on every asset
  (`LedgerAgrees`), and the delivery of an unaccounted answer ends agreement
  exactly when it is worth something (`UnaccountedDeliveryIff`). On the simulated
  exchange no answer is missed outside Halted (`PaperTrading`). On the live one
  failures are worth nothing; only an answer that decoded can part the books
  (`OnlyDecodedAnswersPartTheBooks`), and a fill under a status the gateway does
  not know does (`UnknownStatusPartsTheBooks`).
- An observer that throws inside `send` after the gateway took the order makes the
  executor forget the request and go idle with it out, whenever that happens
  (`ThrowingObserverLosesTheRequest`); the runs are those without it.
- The dry run of preflight is an upper bound for a sale if and only if the bid is
  a whole number of ticks (`SaleWithinDryRunIff`, `OddBidOverruns`), so whole
  cycles are promised to fill for such bids (`CyclesFillWhole`).
- An empty record is never proved, it counts as missing bytes
  (`ProofIffCaptured`).
- Only cliques are listed if and only if no wanted asset has a market against
  itself (`OnlyCliquesUnlessSelfMarket`).

The lookup of a capture index answers, for every target, as a scan of the whole
direction in the order of the index; in the order of capture, too, where the
packets that overlap the target have frame numbers of their own, as in a capture
file (`Prove`; `SharedFrameNumbersDisagree` shows why it matters).

## Model

| member | source | states |
|---|---|---|
| Trading.BookReport | src/execution/execution.cpp:513-520 | the in-place accounting of one report, fee keys visited in any order, changes every balance by the traded deltas and the fee deltas |
| Trading.BookingIsExactIffFeesKept | src/execution/binance_gateway.cpp:332-344 | one booking moves every asset by the difference of the two cumulative effects if and only if the new report keeps every charged fee |
| Trading.BookingTelescopes | src/execution/execution.cpp:513-520 | any chain of cumulative reports moves the balances by the effect of the last one, less the fees the chain dropped |
| Trading.DownBounds | src/execution/execution.cpp:222-224 | rounding down gives the last whole number of steps not above the value |
| Trading.NearestBounds | src/execution/execution.cpp:246 | rounding to the tick gives a whole number of ticks at most half a tick away, the upper of two |
| Trading.RoundedOnce | src/execution/execution.cpp:243-250 | each way of rounding has one result, so the bounds decide it |
| Trading.RoundingIsIdle | src/execution/execution.cpp:243-250 | what is on the grid already is left alone by every way of rounding |
| Trading.FiltersMean | src/execution/execution.cpp:182-203 | no filter fails exactly for an order within all bounds, and otherwise the code names the first bound it breaks |
| ExecutorContract.FastIsCalledFor | src/execution/execution.cpp:243-250 | the fast path finds an order exactly when there is one at the scanned price on the tick grid, of the largest size its asset pays for, within the filters |
| ExecutorContract.NextLegAdvances | src/execution/execution.cpp:398-407 | after the third leg the cycle completes; before, the one order the leg calls for is sent, and without one, or when the gateway throws, the cycle fails |
| ExecutorContract.PreflightTells | src/execution/execution.cpp:205-283 | the dry run names the first leg with no book, a stale one, a broken filter, more than the level holds or a price worse than the scanned one on the grid, legs feeding each other less the commission |
| ExecutorContract.CallbackDecides | src/execution/execution.cpp:481-570 | for every sound state and every report, status by status: Canceled, Expired, Rejected or a partial Filled end the cycle as failed with nothing sent, Open and PartiallyFilled leave the order pending and every counter alone, a whole known fill goes on; what is booked is the trade and fees since the last report |
| ExecutorContract.StartStarts | src/execution/execution.cpp:580-606 | a candidate is taken if and only if the executor is idle, not stopping and below the cap, the input is positive and at most the limit, and the path is one of its group; it becomes the budget, and each refusal moves its own counter only |
| ExecutorObject.Executor.Preflight | src/execution/execution.cpp:252-283 | the three-leg dry run on scratch balances: which leg is refused first and why, in terms of grids, filters, level and price, or none |
| ExecutorObject.Executor.OnBegin | src/execution/execution.cpp:383-396 | keeps the invariant; stale begins change nothing, unfunded or refused cycles finish as failed, and otherwise the order the first leg calls for is sent |
| ExecutorObject.Executor.AdvanceLeg | src/execution/execution.cpp:398-407 | sends the order the leg calls for, priced within half a tick of the scanned price, or ends the cycle as failed or, after three legs, as completed |
| ExecutorObject.Executor.SendOrder | src/execution/execution.cpp:433-479 | a taken order is pending, busy and counted once per cycle; a throwing submit ends the cycle as failed |
| ExecutorObject.Executor.OnReport | src/execution/execution.cpp:481-570 | stale, foreign and halted reports change nothing; unknown and non-cumulative ones fail the cycle; every other is booked and then decides by its status |
| ExecutorObject.Executor.OnCallback | src/execution/execution.cpp:409-417 | keeps the invariant with at most one order following; only an answer for the pending order frees the gateway, and what it does is spelled out for each status |
| ExecutorObject.Executor.OnTimeout | src/execution/execution.cpp:170-176 | keeps the invariant, sends nothing, counts the cycle as failed unless it was before, and keeps the slot exactly while a request is out |
| ExecutorObject.Executor.RequestStop | src/execution/execution.cpp:608-611 | keeps the invariant, sends nothing, leaves the executor idle or halted, and counts a running cycle as a failure |
| ExecutorObject.Executor.TryStart | src/execution/execution.cpp:580-606 | keeps the invariant; taken exactly when idle, not stopping, below the cap, within the limit and on a path of its group; then a fresh cycle with the input as budget, else only the refusal counter of its reason moves |
| ExecutorObject.Executor.FinishCycle | src/execution/execution.cpp:572-578 | a failed cycle counts as failure, a three-leg one as completed, and the executor is idle |
| ExecutorInvariant.CallbackKeepsSound | src/execution/execution.cpp:409-570 | for every state and every report, the fields' invariant (one pending order of the current leg, counters balanced, orders from known paths) survives the callback |
| ExecutorInvariant.NextLegEffect | src/execution/execution.cpp:398-407 | after the step to the next leg either exactly one new order is in flight or the cycle is over |
| ExecutorInvariant.ReportEffect | src/execution/execution.cpp:481-570 | a first-heard report keeps the executor's invariant and either closes the cycle, sends one order or leaves the order pending |
| ExecutionRuns.StepKeepsInv | src/execution/execution.cpp:166-176 | every event keeps the invariant on state, counters, outstanding requests and ledger |
| ExecutionRuns.OneRequestAtATime | src/execution/execution.cpp:456-478 | in every run at most one gateway request is unanswered, `gateway_busy` says whether there is one, and Idle implies there is none and nothing is pending |
| ExecutionRuns.CycleAccounting | src/execution/execution.cpp:572-585 | in every run accepted = completed + failures + open cycles, up to the exact surplus of a halt after a timeout; the cap on submitted cycles holds; with the first-leg stop nothing completes |
| ExecutionRuns.StopCountsTwiceIff | src/execution/execution.cpp:166-176 | stopping a running cycle counts one failure, and that one too many exactly if the cycle had timed out with its request out |
| ExecutionRuns.TimeoutThenStopCountsTwice | src/execution/execution.cpp:166-176 | from any state with a request out, a timeout and then a stop count two failures for one cycle |
| ExecutionRuns.ThrowingObserverLosesTheRequest | src/execution/execution.cpp:456-478 | if an observer throws after submit took the order, the executor is idle and not busy with that request unanswered |
| ExecutionRuns.LedgerBalances | src/execution/execution.cpp:513-520 | in every run and state once a cycle trades, the executor's books are the wallet's less the undelivered answer and less the delivered one it did not account |
| ExecutionRuns.LedgerAgrees | src/execution/execution.cpp:491-520 | the two books agree exactly when nothing missed is worth anything, and always while a leg is pending |
| ExecutionRuns.UnaccountedDeliveryIff | src/execution/execution.cpp:491-511 | the delivery of a refused answer, or of one that finds the executor halted, keeps the books together exactly when that answer is worth nothing on every asset |
| ExecutionRuns.HaltedIsFinal | src/execution/execution.cpp:166-168 | once halted, always halted; nothing is submitted and no failure or completion is counted any more |
| ExecutionRuns.LateAnswerReleases | src/execution/execution.cpp:536-541 | the late answer to a timed-out cycle makes the executor idle, moves no counter and sends no further leg |
| ExecutionRuns.RedeliveryIsNoOp | src/execution/execution.cpp:481-483 | delivering an old answer again, at any time, changes nothing at all |
| ExecutionRuns.OrdersAreJustified | src/execution/execution.cpp:549-570 | every order sent is either the first of a funded cycle that passed preflight, or follows a complete, fully accounted, timely fill of the previous leg |
| ExecutionRuns.ClientIdsNeverRepeat | src/execution/execution.cpp:433-434 | client ids never repeat over a run; with the first-leg stop each cycle sends one order |
| ExecutionRuns.HoldingsTelescope | src/execution/execution.cpp:481-520 | over any stream of reports about one order, stale, repeated, refused and foreign ones included, the holdings move by the effect of the last report accounted, less the fees dropped on the way |
| PaperExchange.PaperGateway.FillOrder | src/execution/paper_gateway.cpp:21-57 | a repeated id gets its old report; a malformed order is rejected, one out of reach or short of the level expires, one the wallet cannot pay is rejected; otherwise the whole steps that fit change hands at the quoted price, less the fee on what is received |
| PaperExchange.FillServes | src/execution/paper_gateway.cpp:21-57 | which of those outcomes an order meets, and what it moves, for every desk, order and book |
| PaperExchange.FillKeepsSound | src/execution/paper_gateway.cpp:46-52 | no balance and no usage ever becomes negative, whatever the order and the book |
| PaperExchange.FillBooksItsReport | src/execution/paper_gateway.cpp:44-54 | the wallet changes on every asset by exactly what the report says, and by nothing for a repeated id |
| PaperExchange.FillOutcome | src/execution/paper_gateway.cpp:28-54 | a non-clearing order fills all or nothing; no fill exceeds the order, the level's remainder or the limit price; Filled means the whole quantity |
| PaperExchange.FillsWhenCovered | src/execution/paper_gateway.cpp:40-54 | a well-formed, marketable order that the wallet covers is filled completely |
| PaperExchange.RunKeepsSound | src/execution/paper_gateway.cpp:21-57 | solvency over every sequence of requests |
| PaperExchange.ResubmissionChangesNothing | src/execution/paper_gateway.cpp:22-23 | after any other requests, resubmitting an id returns the same report and changes nothing |
| PaperExchange.LevelNeverOverfilled | src/execution/paper_gateway.cpp:37-52 | while an update id stands, the fills of a side never add up to more than the displayed quantity |
| BinanceExchange.ParseFills | src/execution/binance_gateway.cpp:363-369 | the fill loop sums the quantity and the fees by asset |
| BinanceExchange.BinanceGateway.ApplyOne | src/execution/binance_gateway.cpp:332-344 | a report that falls behind the last one changes nothing; any other is remembered and books the trade and fees since then |
| BinanceExchange.ParseOrder | src/execution/binance_gateway.cpp:346-374 | the report carries the response: FILLED, PARTIALLY_FILLED, NEW, CANCELED, EXPIRED, REJECTED and their variants each as its own status, any other text as Unknown; the executed amounts; the sum of each asset's fees; complete exactly if the fills add up to the executed quantity |
| BinanceExchange.ReportCarries | src/execution/binance_gateway.cpp:62-70 | each report status comes from exactly the exchange texts that mean it, and each amount and fee is the response's |
| BinanceExchange.SumsAdd | src/execution/binance_gateway.cpp:363-369 | one more fill, wherever in the list, adds its quantity and its fee to its asset and to no other |
| BinanceExchange.GrowingFillsKeepFees | src/execution/binance_gateway.cpp:363-369 | responses whose fill list only grows never drop a fee, so they always book exactly |
| BinanceExchange.WalletTelescopes | src/execution/binance_gateway.cpp:332-344 | after any stream of reports of one order the wallet has moved by the effect of the last one applied, less the fees dropped on the way |
| BinanceRequest.FlagIsHonest | src/execution/binance_gateway.cpp:166-275 | along any sequence of stages, whichever throws, the exchange has not a byte while `write_started` is unset |
| BinanceRequest.StagesMean | src/execution/binance_gateway.cpp:162-275 | a POST fails certainly exactly when a stage before the write throws, and uncertainly exactly when the write began and some later stage, or the answer, is missing |
| BinanceRequest.EveryResponseIsAReply | src/execution/binance_gateway.cpp:283-305 | every status and body is one of the replies the exchange is given |
| BinanceExchange.RejectedIsUntaken | src/execution/binance_gateway.cpp:246-307 | whatever the stages and the exchange do, a report of Rejected means that the exchange has not a byte of the order, or has answered in full that it did not take it |
| BinanceExchange.RejectedIffImpossible | src/execution/binance_gateway.cpp:246-307 | a failure is Rejected exactly when no behaviour of stages and exchange that looks the same to the client has the order taken, and otherwise Unknown |
| BinanceExchange.TakenIsNeverRejected | src/execution/binance_gateway.cpp:417-475 | over all interleavings of producers, worker, shutdown, failing stages and exchange, no order that the exchange took is delivered as Rejected |
| BinanceExchange.DecodedIsLive | src/execution/binance_gateway.cpp:346-374 | behind an answer that decoded stands an exchange that got the whole request, took the order unless it says REJECTED, and whose own status, amounts and fees the delivered report carries |
| BinanceExchange.SubmitBooksItsReport | src/execution/binance_gateway.cpp:456-460 | the first submission of an id moves the wallet by the effect of the delivered report |
| BinanceExchange.SubmitRevision | src/execution/binance_gateway.cpp:309-312 | each report carries a revision higher than any before for its order and leaves other orders' revisions alone |
| BinanceExchange.OneReportPerRequestInOrder | src/execution/binance_gateway.cpp:503-527 | over all interleavings each accepted request is answered once, in order, by the report its own POST and the earlier ones determine; revisions grow, and an exited worker owes none |
| BinanceExchange.BinanceGateway.Complete | src/execution/binance_gateway.cpp:417-475 | the queued closure delivers the specified report and updates wallet and revisions as specified |
| BinanceExchange.BinanceGateway.Take | src/execution/binance_gateway.cpp:512-527 | one turn of the worker pops the oldest request, or returns when stopping and empty |
| EndToEnd.PaperAnswersLegally | src/execution/paper_gateway.cpp:44-57 | the simulated exchange keeps the gateway contract the runs rely on |
| EndToEnd.BinanceAnswersLegally | src/execution/binance_gateway.cpp:417-475 | so does the live gateway, for every transport outcome |
| EndToEnd.PassedLeg | src/execution/execution.cpp:205-241 | what a passed preflight leg guarantees of its book, price, size and liquidity |
| EndToEnd.SizedOrderIsCovered | src/execution/execution.cpp:243-250 | an order sized for any leg with no more than the dry run had there costs at most that amount, is marketable, fits the best level and passes the filters |
| EndToEnd.FirstLegFillsWhole | src/execution/execution.cpp:383-407 | whenever `begin` sends a first order, the simulated exchange on that unconsumed book with the budget in USDT fills it completely, with a report the executor accounts |
| PaperSystem.PaperTrading | src/execution/paper_gateway.cpp:21-65 | in every run of executor and simulated exchange each request is new to the desk, each answer is one the executor accounts unless halted, the wallet is never negative, and outside Halted the books agree |
| PaperSystem.KnownPathsSpendUsdt | src/orderbook.cpp:171-206 | in a validated configuration every candidate taken spends USDT first |
| PaperSystem.FirstOrdersFill | src/execution/execution.cpp:383-407 | in every run of a validated configuration a first order sent is covered by its book, and filled whole on it if the exchange meets it unconsumed |
| WholeCycle.SaleWithinDryRunIff | src/execution/execution.cpp:268-280 | a sale brings no more than the dry run counted exactly when the bid is a whole number of ticks |
| WholeCycle.CyclesFillWhole | src/execution/execution.cpp:252-283 | in every run of a validated configuration without the first-leg stop, on standing books with whole-tick bids, every order of the cycle fills completely and the cycle completes, or fails where an order would not pass the filters |
| LiveSystem.LiveTrading | src/execution/binance_gateway.cpp:417-475 | in every run of executor and live worker both see the same requests, answers and wallet, each request is new to the ledger, and the books differ by undelivered and missed answers only |
| LiveSystem.FilledAnswerGoesOn | src/execution/binance_gateway.cpp:346-374 | in every reachable state of executor and worker: if the exchange answers the order the executor waits for with FILLED, the whole quantity and fills that add up to it, the delivered report is booked with that answer's amounts and fees, and the cycle goes on to the next leg |
| LiveSystem.OnlyDecodedAnswersPartTheBooks | src/execution/binance_gateway.cpp:309-374 | where the books differ, the worker delivered an answer that decoded as an order and the executor did not account; failures never part them |
| LiveSystem.UnknownStatusPartsTheBooks | src/execution/binance_gateway.cpp:346-374 | a fill under an unknown status is booked by the wallet and refused by the executor |
| PaperProgram.PaperTrader.Handle | src/main.cpp:102-105 | one handler of the io_context, on the executor and gateway objects, keeps the system invariant and is the specified step |
| PaperProgram.PaperTrader.RunAll | src/main.cpp:102-105 | the objects go through exactly the run that the theorems about executor and simulated exchange speak of |
| Decimals.Parse | src/orderbook.cpp:17-32 | parsing returns the text's exact digits and scale, or the first fault met |
| Decimals.AcceptedTexts | src/orderbook.cpp:22-29 | accepted are exactly the well-formed texts whose digits fit int64 with at most 127 decimals |
| Decimals.WellFormedShape | src/orderbook.cpp:24-25 | the character tests accept exactly digits, or digits, one dot and digits |
| Decimals.PlaceValue | src/orderbook.cpp:17-32 | every digit of a numeral is worth its power of ten |
| Decimals.ValueAroundTheDot | src/orderbook.cpp:17-32 | a text denotes its whole part plus its fraction over a power of ten |
| Decimals.ScaleFactors | src/orderbook.cpp:38-46 | the table holds 10^0 to 10^18 with the largest mantissa each can multiply |
| Decimals.RescaleExact | src/orderbook.cpp:47-54 | rescaling up is refused if and only if the true product does not fit int64, and is exact otherwise |
| Decimals.ParsePair | src/orderbook.cpp:55-62 | the exact condition under which a bid/ask pair is accepted, and the shared exponent in int8 range |
| Decimals.AlignedIsExact | src/orderbook.cpp:55-62 | after alignment neither value has changed and the order of mantissas is the order of values |
| MarketFeed.PowersAgree | src/orderbook.cpp:309-312 | for every n the scanner's power of ten is the parser's, and its negative power the inverse |
| MarketFeed.AlignedTexts | src/orderbook.cpp:55-62 | mantissas times the shared power of ten are the numbers of the two texts |
| MarketFeed.DecodeDepth | src/orderbook.cpp:220-257 | a message is accepted exactly when its update id fits, both sides have 1 to 20 levels of decimals and the best ones align; the book's four prices and quantities are the numbers of the best levels' texts |
| MarketFeed.EdgesAreTaken | src/main.cpp:72-75 | any edge the scanner reports is taken if and only if the executor is idle, not stopping and below its cap |
| MarketFeed.Ingest | src/receiver.cpp:162-219 | a bad message changes no book and no executor; a good one replaces its symbol's book, and a cycle begins exactly if some path through that symbol then has an edge and the executor is free |
| Triangles.ClosedLoop | src/orderbook.cpp:162-169 | the degree check accepts exactly the closed loops of three assets |
| Triangles.DegreesForceTriangle | src/orderbook.cpp:168-169 | three assets of degree two force a triangle |
| Triangles.Walk | src/orderbook.cpp:180-202 | the greedy walk always finds its next market, closes at USDT and builds the one path that starts with its market |
| Triangles.TwoOrNone | src/orderbook.cpp:174-206 | a closed loop has two paths if it contains USDT and none otherwise |
| Triangles.PathsAreOpposite | src/orderbook.cpp:174-206 | both paths are USDT round trips using each market once, and one is the other reversed with every side flipped |
| Triangles.BuildGroup | src/orderbook.cpp:160-206 | a triple is accepted exactly when it loops through USDT, which error it gets otherwise, and the path of the earlier USDT market comes first |
| Triangles.ReadMarkets | src/orderbook.cpp:144-159 | metadata is accepted exactly when every configured entry is tradable on the spot market with two named, different assets and every symbol is listed; a symbol gets the assets of its first entry; otherwise the error names the first entry or symbol at fault |
| Triangles.Validate | src/orderbook.cpp:144-210 | accepted exactly when the metadata is in order and every triple loops through USDT; otherwise the first fault, of the metadata or else of a triple; the two "cannot happen" errors are never returned |
| OrderBooks.EvaluatePath | src/orderbook.cpp:299-330 | one path: found exactly when it qualifies, with the largest fitting input and the fee-reduced product of rates |
| OrderBooks.QualifiesMeans | src/orderbook.cpp:299-327 | a path qualifies exactly when every leg is quoted and trading any amount through, at ask or bid and less the fee each time, gains more than the threshold |
| OrderBooks.SoundPaysOff | src/orderbook.cpp:299-330 | a reported edge trades its input through the quoted levels to the reported output, fits every level, and is stopped by a level or the cap from being larger |
| OrderBooks.OrderBookManager.ScanEdge | src/orderbook.cpp:289-339 | an edge is reported exactly when some path through the symbol is quoted, in reach and gains; it pays off, is maximal, and first in scan order among equals |
| OrderBooks.OrderBookManager.Update | src/orderbook.cpp:282-288 | the slot is replaced, counters follow, an unknown slot throws and changes nothing |
| OrderBooks.OppositePathsMultiplyToAtMostOne | src/orderbook.cpp:299-325 | with uncrossed books a round trip times its reverse is at most one |
| OrderBooks.NeverBothDirections | src/orderbook.cpp:299-327 | so never do both directions exceed a non-negative threshold |
| OrderBooks.NeverBothPathsOfAGroup | src/orderbook.cpp:171-206 | the two paths of a built group never qualify together |
| ReceiverRing.StepKeepsInv | src/receiver.cpp:340-363 | every atomic step of either side keeps the ring invariant, stale index views and wrap-around included |
| ReceiverRing.NeverTouchesLiveSlots | src/receiver.cpp:345-359 | in every interleaving the producer writes only outside [read, write) |
| ReceiverRing.ConsumedInOrder | src/receiver.cpp:376-417 | consumed messages are a prefix of the published ones, an ordered duplicate-free part of the received ones, and the counters add up at rest |
| ReceiverRing.RefinesBoundedFifo | src/receiver.cpp:340-417 | every step is an enqueue, a dequeue or nothing on a queue of at most 1024 |
| ReceiverRing.DropsOnlyWhenFull | src/receiver.cpp:343-347 | a message is dropped for lack of room exactly when it fits a slot and, by the newest index the producer has loaded, all slots are taken |
| ReceiverRing.HandlerOutcomes | src/receiver.cpp:340-363 | the steps of the read handler add up to one of its three outcomes and keep the ring invariant |
| ReceiverRing.SpscQueue.OnMessage | src/receiver.cpp:329-368 | a message over 16384 bytes counts as oversized, one that finds 1024 unread as queue_full, any other goes into the next slot and is published; indices, counters and high water exactly |
| ReceiverRing.SpscQueue.TakeOne | src/receiver.cpp:378-415 | one message consumed in order |
| ReceiverRing.SpscQueue.Process | src/receiver.cpp:376-417 | for any monotone stale loads of the write index: hands over the oldest messages in order, at most the batch limit, stopping early only where the loaded index says empty, and advances the read index by as many |
| ReceiverRing.SpscQueue.Stop | src/receiver.cpp:418-430 | after stop everything published has been consumed and received = consumed + queue_full + oversized |
| AsyncLog.StepKeepsInv | src/logger.cpp:82-157 | every critical section and write keeps counters and layout |
| AsyncLog.ExactAccounting | src/logger.cpp:30-51 | in every interleaving submitted = accepted + dropped and accepted = written + in flight + pending + lost |
| AsyncLog.FileIsPrefixOfAccepted | src/logger.cpp:102-121 | the data rows on file are always a prefix of the accepted records, numbered from one, covering all confirmed ones |
| AsyncLog.StopDrainsEverything | src/logger.cpp:59-66 | a writer that has returned without failure has written the whole accepted sequence |
| AsyncLog.ClosedForGood | src/logger.cpp:37-40 | after stop or failure nothing is accepted any more |
| AsyncLog.AsyncLogger.LogRecord | src/logger.cpp:30-51 | a record is accepted exactly when not stopping, not failed and not full |
| AsyncLog.AsyncLogger.TakeBatch | src/logger.cpp:88-98 | the swap hands the pending records over and decides on shutdown |
| AsyncLog.AsyncLogger.RecordFailure | src/logger.cpp:145-153 | a failure counts everything unconfirmed as lost, so that accepted = written + lost |
| AsyncLog.AsyncLogger.Turn | src/logger.cpp:82-157 | for every way it can break: when the turn fails, which rows are on file, what counts as written and as lost, and whether the writer waits or has left |
| AsyncLog.AsyncLogger.Shutdown | src/logger.cpp:59-66 | stop without a fault ends with the file equal to everything ever accepted |
| Ordering.SortSorts | tools/capture_boundaries.py:97 | the sort orders and permutes |
| Ordering.SortIsStable | tools/observation_overhead.py:64-65 | equally ranked elements keep their order |
| Ordering.SortedIsUnique | tools/capture_boundaries.py:174 | where equally ranked elements are equal there is one sorted arrangement |
| Ordering.BisectRight | tools/capture_boundaries.py:171 | the first position whose value exceeds the key |
| Ordering.BisectLeft | tools/capture_boundaries.py:172 | the first position whose value is at least the key |
| CaptureCoverage.Coverage | tools/capture_boundaries.py:21-51 | the answer in full: the first fault of an overlapping packet, its timestamp before its bytes before its truncation; else missing bytes; else the record's range and size, the stretches that each show a byte none before showed, in order, and the packet that completes it |
| CaptureCoverage.VerdictCertifies | tools/capture_boundaries.py:27-51 | that answer is what the scan gives, for every list of packets and every target |
| CaptureCoverage.ScanFindsFirstFault | tools/capture_boundaries.py:33-40 | the scan stops at the first faulty packet and for no other reason |
| CaptureCoverage.ScannedIffClean | tools/capture_boundaries.py:33-40 | no error of contradiction is raised exactly when overlapping packets agree, are whole and have monotone timestamps |
| CaptureCoverage.ProofIffCaptured | tools/capture_boundaries.py:41-51 | a proof exists exactly for a clean, non-empty, wholly captured record; missing bytes are reported exactly when that alone is wrong |
| CaptureCoverage.CompletionIsLeast | tools/capture_boundaries.py:45-51 | the completion frame is the least frame by which every byte has been captured, with its packet's timestamp |
| CaptureCoverage.ProvedBytesWereCaptured | tools/capture_boundaries.py:37-38 | each byte of a proved record is a byte of a packet captured by the completion frame |
| CaptureCoverage.ContributionsTile | tools/capture_boundaries.py:41-44 | the contributing frames show exactly what was captured, each one a byte none before it showed |
| CaptureCoverage.BuildIndex | tools/capture_boundaries.py:96-103 | the same packets by sequence number, then frame, with the running maximum of their ends |
| Ordering.FilterSort | tools/capture_boundaries.py:173-175 | sorting and then selecting is selecting and then sorting |
| CaptureCoverage.OverlapsDecide | tools/capture_boundaries.py:171-175 | two lists with the same overlapping packets give the same proof or error |
| CaptureCoverage.CaptureOrderDoesNotMatter | tools/capture_boundaries.py:171-175 | with frame numbers of their own for the overlapping packets, index order and capture order give the same proof or error |
| CaptureCoverage.BoundaryIndex.constructor | tools/capture_boundaries.py:54-103 | every direction is indexed |
| CaptureCoverage.BoundaryIndex.Prove | tools/capture_boundaries.py:166-175 | for every target and frame the bisected lookup gives the full answer for the direction's packets up to that frame in frame order; that of a full scan in index order, and in capture order where the overlapping packets have frame numbers of their own |
| CleanSamples.CleanSamples | tools/observation_overhead.py:41-100 | the indexed algorithm returns the quadratic specification's samples, in its order: one for each segment that can be measured and is confirmed, from it to its first confirmation |
| CleanSamples.Consider | tools/observation_overhead.py:77-99 | the bisections for one segment find the specified sample or none |
| CleanSamples.GroupByDirection | tools/observation_overhead.py:42-44 | packets by direction, directions in order of first appearance |
| CleanSamples.Duplicates | tools/observation_overhead.py:49-52 | exactly the keys that occur more than once |
| CleanSamples.Collect | tools/observation_overhead.py:56-63 | pure acknowledgements by number and data frames, in capture order |
| CleanSamples.BisectedIsEarliest | tools/observation_overhead.py:86-91 | bisecting the sorted acknowledgements finds the earliest later one, first captured among equals |
| CleanSamples.SampledIff | tools/observation_overhead.py:78-99 | a segment is sampled exactly when clean, unique and cleanly acknowledged, and by the earliest such acknowledgement |
| CleanSamples.SampleMeans | tools/observation_overhead.py:73-99 | a packet is sampled exactly if its ports are known, it carries payload, is flagged in no way, its segment occurs once in its direction, and a pure ACK for the byte behind it follows before any payload of the other side; the sample is the delay to the first such |
| CleanSamples.SamplesAreTheCleanSegments | tools/observation_overhead.py:73-99 | the samples are those of exactly such segments between known ports |
| CleanSamples.KeysAreUnique | tools/observation_overhead.py:96-105 | no two samples share a key, so indexing them by key loses none |
| RequiredAsset.BuildGraph | src/required_asset.py:142-157 | both adjacency maps hold exactly the traded pairs, both ways, the last listing of a pair winning |
| RequiredAsset.FindTriangles | src/required_asset.py:160-190 | for every iteration order, one row for each set of assets that is met and asked for, and none else; a row holds the three markets in dictionary order |
| RequiredAsset.FoundIffClique | src/required_asset.py:168-175 | of three assets, exactly the cliques are found |
| RequiredAsset.OnlyCliquesUnlessSelfMarket | src/required_asset.py:168-178 | only cliques are listed, exactly unless a wanted market trades an asset against itself |
| RequiredAsset.RowIsUnique | src/required_asset.py:180-188 | a triangle's row is sorted and does not depend on the search order |
| RequiredAsset.ListedRowLoops | src/required_asset.py:177-188 | every row listed for USDT is a loop that `validate_arbitrage` accepts with two paths |
| Frames.Socket.Exact | tools/replay_benchmark.py:9-15 | the next bytes however they are chunked, or the end of the stream |
| Frames.Socket.ReadFrame | tools/replay_benchmark.py:26-33 | if a frame begins what is left, exactly that frame, FIN, opcode, length and unmasked payload byte by byte, with the rest untouched; otherwise the end |
| Frames.XorBits | tools/replay_benchmark.py:33 | the exclusive or has exactly the bits in which its arguments differ |
| Frames.BeginsIff | tools/replay_benchmark.py:26-33 | a buffer begins with a frame, header bits, network-order length, key and payload written out, exactly where the readers take one, and with that one |
| Frames.PackedDigits | tools/replay_benchmark.py:20 | extended lengths are in network byte order |
| Frames.PrintedIsRead | tools/replay_benchmark.py:17-33 | a printed frame, of any payload and mask, has the shortest length form and is read back whole |
| Frames.CutIsNotWhole | tools/replay_benchmark.py:26-33 | a cut-off frame is never taken for a frame |
| Frames.RoundTrip | tools/replay_benchmark.py:17-33 | any concatenation of printed frames with a cut-off tail is read back as exactly those frames |
| Frames.Unmask | tools/match_capture.py:62-65 | the in-place exclusive or unmasks the payload |
| Frames.FrameAt | tools/match_capture.py:44-61 | one turn of the raw parser's header arithmetic |
| Frames.RawPayloads | tools/match_capture.py:42-78 | on every buffer: what the frames at its front yield, one after the other, up to where none of a known opcode begins; so of any frames printed with known opcodes and a cut-off tail, exactly their messages |

## Left out

- Startup cleanup (`clear_initial_position`, `start_initial_cleanup`): never invoked by the program; only its order flag is kept in the simulated exchange.
- `ArbitrageExecutor::on_report`, order queries and cancels, and the trades branch of `parse_order`: not used by the program.
- Text forms: JSON, HTTP, order prices printed as text and read back, client ids as text, log row fields and latency metadata; wire numbers arrive decoded.
- Network, TLS, key files, tshark, XML, inflation and the text-scanning first phase of `_json_payloads`: foreign code; its JSON test and inflation are abstract functions in `Frames.RawPayloads`.
- Rounding of 50-digit and floating-point arithmetic, and the `isfinite` guards that belong to it.
- Runs that go on after an observer has thrown inside `send` with the order taken; what such an event does at once is `ThrowingObserverLosesTheRequest`.
- Liveness that depends on the scheduler, and any hardware memory behaviour beyond stale but monotone views of the other side's index.
- A log line cut in the middle by a failing write: a broken write leaves whole rows only.
- The stages of `BoundaryIndex` that decode packets and records (tools/capture_boundaries.py:65-94, 105-165) and `verify`: they prepare the target and stream that `CaptureCoverage` starts from.
- Configuration loading and exchange-filter loading: their guarantees are the validity predicates `ValidSetup`, `ValidMarket` and `LoadedTriples`.
- Percentiles, reports, benchmark orchestration: easy claims.
- MarketFeed.DecodeDepth: does not keep the levels behind the best ones, which nothing computes with; they are checked.
- MarketFeed.Ingest: does not look the symbol up by the stream's name; it takes the index found, or none.
- WholeCycle.CyclesFillWhole: whole-tick bids are sufficient; a sale at an odd bid can still fit the next level by luck.
- Frames.RawPayloads: does not model that Python integers and buffers are bounded by memory.
