# MT5 connector model

A Dafny model of the MetaTrader 5 connector service of Providencex
(`services/mt5-connector/src`). The service is an HTTP bridge between the
trading engine and a MetaTrader 5 terminal. It resolves broker symbol
names, normalises order volumes and stop levels to the symbol's limits,
and sends orders. Sending walks the filling modes the symbol allows and
retries without stops. The service also modifies and closes positions,
accumulates ticks into order-flow metrics, validates the request bodies,
maps client errors to HTTP statuses, and posts order events to a webhook
with exponential backoff.

The `MetaTrader5` library is replaced by oracles:

- A `Terminal.TerminalState` snapshot holds the symbol listing (exists,
  visible, selectable), the symbol information, the last ticks, the open
  positions, the login state and the last error code.
- A `Terminal.Broker` function answers the k-th `order_send` request of an
  operation.
- An `Emitter.Webhook` function answers the k-th post of one event.
- The current time is a parameter. Sleeping is recorded as the list of
  delays slept.

Every operation that sends orders is modelled twice:

- A specification function returns the response and the requests sent.
- An imperative method runs the loops of the source and is proved equal to
  that function.

The properties the source promises are then proved as lemmas about the
function.

Modules, one per file:

- `wrappers`: Option and Result.
- `text`: ASCII case mapping and substring tests.
- `terminal`: the oracle types and the library's constants.
- `normalizer`: `_normalize_volume`.
- `stops`: `_adjust_stop_loss_take_profit`.
- `filling`: `_get_filling_modes` and the fallback list.
- `symbols`: `validate_symbol`.
- `connection`: the `MT5Client` flags.
- `submit`: the send loops of `open_trade`.
- `opentrade`: `open_trade`.
- `positions`: modify, close, partial close and the list of positions.
- `orderflow`: the `OrderFlowAccumulator` class.
- `models`: the request and response models.
- `handlers`: the decisions of the HTTP handlers in `main.py`.
- `emitter`: `OrderEventEmitter`.

Where the documentation and the code disagree, the model follows the code:

- **Other retcodes on a market order.** The documentation says any other
  rejection of a market order fails at once. In the code, any retcode
  other than DONE, INVALID_VOLUME, AUTOTRADING_DISABLED, INVALID_FILL and
  INVALID_STOPS ends the pass over the filling modes. The outer loop then
  makes its second attempt without stops (`mt5_client.py:628-640`,
  `910-935`). `Submit.ClassifyPolicy` and `Submit.SendCounts` state this
  behaviour.
- **XAUUSD aliases.** A comment says GOLD is tried first for XAUUSD. In
  the code, the upper-cased symbol always comes first, and the alias list
  repeats it (`mt5_client.py:171`, `180-184`).
  `Symbols.OriginalBeforeAlias` proves that a tradable XAUUSD resolves to
  itself.
- **Ticket override.** The close and cancel handlers let a given
  `mt5_ticket` override `ticket` whenever the two differ
  (`main.py:353-355`, `883-884`). The model validator only uses
  `mt5_ticket` when `ticket` is 0. Both rules are modelled:
  `Handlers.HandlerTicket` and `Models.ResolveTicket`.
- **Filling-mode constants.** The values 1/2/4 for RETURN/IOC/FOK, 10009
  for DONE and 1 for `RES_S_OK` are the library's constants. They are
  taken as the code's own name table uses them
  (`mt5_client.py:653-657`).

## Model

| member | source | states |
|---|---|---|
| Text.Upper | services/mt5-connector/src/mt5_client.py:180 | `str.upper` restricted to ASCII: the length is kept and each of a–z becomes its capital, every other character is unchanged; idempotence is `Models.UpperIdempotent` |
| Text.Lower | services/mt5-connector/src/models.py:37-39 | `str.lower` restricted to ASCII: the length is kept and each of A–Z becomes its small letter, every other character is unchanged |
| Terminal.PositionOf | services/mt5-connector/src/mt5_client.py:1006-1017 | `positions_get(ticket=…)[0]`: the first open position with that ticket, none when there is no such position |
| Normalizer.RoundHalfEven | services/mt5-connector/src/mt5_client.py:1540 | Python's `round`: within one half of its argument, and even on a tie |
| Normalizer.RoundIsNearest | services/mt5-connector/src/mt5_client.py:1540 | when one integer lies strictly within a half, `round` returns it |
| Normalizer.RoundOfInteger | services/mt5-connector/src/mt5_client.py:1540 | `round` of an integer is that integer |
| Normalizer.RoundBelowIntegerBound | services/mt5-connector/src/mt5_client.py:1540 | rounding never crosses an integer upper bound |
| Normalizer.VolumeStep | services/mt5-connector/src/mt5_client.py:1516-1518 | the effective step (missing or zero gives 0.01) is never zero |
| Normalizer.Snap | services/mt5-connector/src/mt5_client.py:1539-1541 | `round(v / step) * step` is a whole number of steps within half a step of `v`, and on a tie (exactly half a step away) the even multiple, as Python's `round` |
| Normalizer.SnapOnGrid | services/mt5-connector/src/mt5_client.py:1539-1541 | a volume already on the step grid snaps to itself |
| Normalizer.SnapBelow | services/mt5-connector/src/mt5_client.py:1539-1541 | snapping to a positive step never crosses a bound that is on the grid |
| Normalizer.NormalizeVolume | services/mt5-connector/src/mt5_client.py:1501-1549 | rejects exactly the requests below the minimum, exactly those above 110% of the maximum, and exactly the remaining ones whose snapped (clamped) volume falls below the minimum, so every other request succeeds; a volume within 10% above the maximum is clamped to it; a success is on the step grid, within half a step of the clamped request, the even multiple on a tie, and not below the minimum |
| Normalizer.NormalizedWithinMaximum | services/mt5-connector/src/mt5_client.py:1526-1541 | when the maximum is a whole number of positive steps, no normalised volume exceeds it |
| Normalizer.NormalizeIdempotent | services/mt5-connector/src/mt5_client.py:1501-1549 | a normalised volume not above the maximum normalises to itself |
| Stops.AdjustLevel | services/mt5-connector/src/mt5_client.py:1416-1497 | a missing, non-positive or wrong-side level is dropped; a kept level is on its side of the entry and at least the minimum distance away; a level already far enough is kept as it is, and a closer one is moved to exactly the minimum distance |
| Stops.AdjustStops | services/mt5-connector/src/mt5_client.py:1395-1499 | the stop loss lies below a buy entry (above a sell entry) and the take profit on the other side, each at least `stops_level * point` away; each level is dropped, kept or moved by the rules of `Stops.AdjustLevel` for its side |
| Stops.AdjustIdempotent | services/mt5-connector/src/mt5_client.py:1425-1497 | adjusting an adjusted, positive level again leaves it unchanged |
| Filling.Advertised | services/mt5-connector/src/mt5_client.py:1561-1577 | exactly the modes whose bit is set in the mask, in the order RETURN, IOC, FOK |
| Filling.FillingModes | services/mt5-connector/src/mt5_client.py:1551-1585 | one to three distinct modes in preference order; all three without symbol information or when no recognised bit is set, else exactly the advertised ones |
| Filling.Untried | services/mt5-connector/src/mt5_client.py:855-860 | the fallback list is exactly the modes not yet tried, in preference order, without duplicates |
| Filling.UntriedExhausted | services/mt5-connector/src/mt5_client.py:855-866 | once the fallback list is tried, no mode is left to fall back to |
| Symbols.Variants | services/mt5-connector/src/mt5_client.py:180-184 | the upper-cased symbol is the first name tried, before its aliases |
| Symbols.Suffixed | services/mt5-connector/src/mt5_client.py:200-202 | the suffixed names are the symbol followed by `.0`, `.1`, `.conv`, `.raw`, `.pro`, in that order |
| Symbols.FirstTradable | services/mt5-connector/src/mt5_client.py:187-197 | the index of the first name that exists and is visible or selectable; every earlier name is not |
| Symbols.SearchTradable | services/mt5-connector/src/mt5_client.py:187-197 | the search loop stops at exactly `FirstTradable` |
| Symbols.FirstTradableAppend | services/mt5-connector/src/mt5_client.py:187-210 | searching the variants then the suffixed names is searching their concatenation |
| Symbols.Resolve | services/mt5-connector/src/mt5_client.py:158-227 | resolves exactly when some candidate is tradable; the name is a tradable candidate, reached through a suffix exactly when no variant is tradable; on failure the original (not upper-cased) symbol is returned, with the hint of `Symbols.HintFor` |
| Symbols.ResolvedNoLaterThan | services/mt5-connector/src/mt5_client.py:187-210 | a tradable k-th candidate makes the resolution one of the first k+1 candidates |
| Symbols.OriginalBeforeAlias | services/mt5-connector/src/mt5_client.py:180-197 | a tradable upper-cased symbol resolves to itself, not to an alias, even for XAUUSD |
| Symbols.UnknownIsUnresolved | services/mt5-connector/src/mt5_client.py:212-227 | a symbol none of whose candidates is listed is not resolved |
| Symbols.HintFor | services/mt5-connector/src/mt5_client.py:212-227 | "not logged in" exactly when there is no account; when logged in, suggestions exactly when some listed name starts with or contains the symbol; the suggestions are 1 to 5 listed names containing the symbol, namely the first five of the prefix-first list |
| Symbols.WithPrefixSound | services/mt5-connector/src/mt5_client.py:221-224 | the names sorted first are listed and start with the symbol |
| Symbols.ContainingNotPrefixSound | services/mt5-connector/src/mt5_client.py:221-224 | the names sorted last are listed and contain the symbol without starting with it |
| Symbols.PrefixFirstIsPermutation | services/mt5-connector/src/mt5_client.py:221-224 | sorting on the prefix key is a permutation of the comprehension's list |
| Symbols.PrefixFirstIsSorted | services/mt5-connector/src/mt5_client.py:224 | after the sort, no name starting with the symbol follows one that does not |
| Symbols.SimilarSymbols | services/mt5-connector/src/mt5_client.py:218-224 | the loop yields the similar names, prefix matches first, each group in listing order |
| Symbols.ValidateSymbol | services/mt5-connector/src/mt5_client.py:158-229 | the method returns exactly `Resolve` with its hint |
| Symbols.PrefixFirstEmpty | services/mt5-connector/src/mt5_client.py:218-222 | the prefix-first list is empty exactly when no listed name starts with or contains the symbol |
| Symbols.Take | services/mt5-connector/src/mt5_client.py:225 | `similar[:5]` is the first five names, or all of them when there are fewer |
| Connection.InitFailureHint | services/mt5-connector/src/mt5_client.py:49-62 | a hint is given exactly for the codes -10003, -10002 and -10001, each its own |
| Connection.CallFor | services/mt5-connector/src/mt5_client.py:32-44 | `initialize` is called with the path exactly when one is configured and exists |
| Connection.MT5Client.constructor | services/mt5-connector/src/mt5_client.py:14-17 | a new client is neither initialised nor connected |
| Connection.MT5Client.Shutdown | services/mt5-connector/src/mt5_client.py:137-146 | both flags are false afterwards; an uninitialised client keeps its connected flag |
| Connection.MT5Client.Initialize | services/mt5-connector/src/mt5_client.py:19-109 | an existing session is shut down first; success exactly when initialisation and login (if credentials are given) succeed; success sets both flags, any failure clears both; a failed login is reported as such |
| Connection.MT5Client.EnsureInitialized | services/mt5-connector/src/mt5_client.py:111-135 | a connected client whose probe finds an account is kept as it is; anything else reinitialises; the result is true exactly when the client ends connected |
| Connection.MT5Client.IsConnected | services/mt5-connector/src/mt5_client.py:148-156 | connected exactly when both flags hold and the account probe answers |
| Submit.RetryOutcome | services/mt5-connector/src/mt5_client.py:741-808 | the resend without stops succeeds exactly on DONE, with the reply's order ticket |
| Submit.ClassifyPolicy | services/mt5-connector/src/mt5_client.py:690-935 | the retcode policy: DONE, INVALID_VOLUME and AUTOTRADING_DISABLED end the operation; a market order walks on past no result and INVALID_FILL, resends at once after INVALID_STOPS, and ends the pass on any other code; a pending order ends the pass on no result and on INVALID_STOPS the first time, and is decided by every other code |
| Submit.Fallback | services/mt5-connector/src/mt5_client.py:855-866 | the fallback modes are added at most once, only after the advertised modes are used up, and are never modes already tried |
| Submit.SendOrder | services/mt5-connector/src/mt5_client.py:616-969 | the two nested loops, with their flags and the fallback extension, return exactly the outcome and the requests, replies and tried modes of `Send` |
| Submit.SendUnrolled | services/mt5-connector/src/mt5_client.py:626-640 | `Send` is at most two passes over the modes, the second without stops and only after a first that ended open |
| Submit.WalkGrows | services/mt5-connector/src/mt5_client.py:643-698 | a pass only appends to the requests, replies and tried modes, one reply per request |
| Submit.WalkConforms | services/mt5-connector/src/mt5_client.py:663-684 | every request of a pass carries the order's fields, the pass's stops (or none after refused stops) and a walkable filling mode |
| Submit.WalkOpen | services/mt5-connector/src/mt5_client.py:690-935 | a pass ends open only when none of its replies ended the operation |
| Submit.WalkDecided | services/mt5-connector/src/mt5_client.py:700-935 | a pass that ends with an outcome got it from its last reply or from the resend without stops |
| Submit.WalkWalked | services/mt5-connector/src/mt5_client.py:690-868 | a market order's pass that runs out of modes was answered by no result or INVALID_FILL each time |
| Submit.WalkCounts | services/mt5-connector/src/mt5_client.py:643-866 | a market order's pass sends at most the modes plus the fallback plus one resend; a pending order's pass sends one request |
| Submit.WalkTried | services/mt5-connector/src/mt5_client.py:652-659 | the tried list records the filling mode of each market request, in order |
| Submit.SendAnswered | services/mt5-connector/src/mt5_client.py:663-688 | the broker answers every request in order; the first request carries the order's stops and its first filling mode |
| Submit.SendConforms | services/mt5-connector/src/mt5_client.py:629-640 | every request conforms to the order; once a request goes without stops, every later one does too |
| Submit.SendEndsAtFirstVerdict | services/mt5-connector/src/mt5_client.py:700-908 | no reply before the last has retcode DONE, INVALID_VOLUME or AUTOTRADING_DISABLED |
| Submit.SendOutcome | services/mt5-connector/src/mt5_client.py:700-787 | success exactly when the last reply is DONE, with that reply's order ticket |
| Submit.SendRejected | services/mt5-connector/src/mt5_client.py:829-848 | invalid volume and disabled AutoTrading are reported exactly when the last reply carries that retcode, unless it answered the resend without stops |
| Submit.SendExhausted | services/mt5-connector/src/mt5_client.py:937-969 | a market order ends with "no filling mode worked" exactly when no reply ended it and none refused its stops, and reports the modes of its requests in order; a pending order not placed got no ending reply |
| Submit.SendRetry | services/mt5-connector/src/mt5_client.py:727-808 | a market order's refused stops are followed at once by the same request without stops, which decides the operation; a failed stops retry comes only from such a resend |
| Submit.SendCounts | services/mt5-connector/src/mt5_client.py:626-866 | a pending order is sent at most twice, a market order at most `2 * |modes| + 4` times |
| OpenTrade.Prepare | services/mt5-connector/src/mt5_client.py:386-523 | the symbol error exactly when the symbol does not resolve; once quoted, the unknown kind, missing entry price and wrong-side entry errors exactly on their conditions; a missing quote reports a non-zero code; nothing is sent or normalised before; a success has the resolved symbol and its information, an order type matching the direction, a deal exactly for a market order, and a price on the right side of the quote |
| OpenTrade.Checked | services/mt5-connector/src/mt5_client.py:444-523 | an unknown kind, a missing entry price for limit and stop, and a limit or stop price on the wrong side of the quote are refused exactly; a market order is entered at the ask for a buy and the bid for a sell |
| OpenTrade.StopsPlaced | services/mt5-connector/src/mt5_client.py:557-602 | each sent stop is 0 (none) or on its side at least the minimum distance away; a requested stop already there is sent unchanged |
| OpenTrade.Build | services/mt5-connector/src/mt5_client.py:543-614 | fails exactly when the volume is rejected, with that error; otherwise the order is sendable: normalised volume, placed stops, market orders walk the symbol's filling modes and pending orders RETURN only |
| OpenTrade.PlanOrder | services/mt5-connector/src/mt5_client.py:386-614 | a failed check is reported as it is; a volume rejection is reported with the normaliser's error; a plan is sendable for the request |
| OpenTrade.Submitted | services/mt5-connector/src/mt5_client.py:616-969 | every request sent conforms to the plan; a success is a DONE reply to the last request and reports its ticket with the order's symbol, volume and price |
| OpenTrade.OpenOutcome | services/mt5-connector/src/mt5_client.py:386-969 | a request failing a check is refused with that error and sends nothing; every request sent conforms to the plan; a success reports the resolved symbol, the normalised volume and the entry price |
| OpenTrade.OpenTradeAsWritten | services/mt5-connector/src/mt5_client.py:543-545 | as written, the call with a missing argument raises for every request passing the checks: nothing succeeds |
| OpenTrade.OpenAsWrittenNeverSends | services/mt5-connector/src/mt5_client.py:545 | every request the intended code sends is, as written, an exception with nothing sent |
| OpenTrade.OpenAsWrittenWitness | services/mt5-connector/src/mt5_client.py:545 | a market buy of the minimum volume reaches `order_send` as intended and raises as written |
| OpenTrade.OpenTrade | services/mt5-connector/src/mt5_client.py:367-983 | without a connection the call fails before sending anything; once connected it is `OpenOutcome` |
| Positions.ModifyOutcome | services/mt5-connector/src/mt5_client.py:1006-1087 | not found exactly when there is no such position, then nothing is sent; at most one SLTP request for that ticket and symbol; success only on DONE; a refusal reports the broker's retcode |
| Positions.ModifyDroppedStop | services/mt5-connector/src/mt5_client.py:1031-1070 | a stop that adjustment drops is sent as the position's current stop and reported as none |
| Positions.ModifyPlacesStop | services/mt5-connector/src/mt5_client.py:1031-1070 | a right-side stop is sent and reported unchanged when far enough, or at exactly the minimum distance |
| Positions.ModifyWithoutStops | services/mt5-connector/src/mt5_client.py:1017-1047 | without new stops, the current stops are resent and reported |
| Positions.ModifyTrade | services/mt5-connector/src/mt5_client.py:984-1087 | without a connection it fails with nothing sent; once connected it is `ModifyOutcome` |
| Positions.CloseWalk | services/mt5-connector/src/mt5_client.py:1320-1385 | a failure is either running out of modes, no result or a refusal |
| Positions.SendClose | services/mt5-connector/src/mt5_client.py:1320-1385 | the filling-mode loop returns exactly `CloseWalk` from no requests |
| Positions.CloseWalkRequests | services/mt5-connector/src/mt5_client.py:1320-1370 | request k closes the given volume with mode k; every reply before the last was INVALID_FILL |
| Positions.CloseWalkOutcome | services/mt5-connector/src/mt5_client.py:1339-1385 | success exactly on a DONE last reply; out of modes exactly when every mode was answered INVALID_FILL; otherwise the last reply's failure |
| Positions.CloseSendsOpposite | services/mt5-connector/src/mt5_client.py:1279-1385 | not found sends nothing; each request is a deal of the whole volume in the opposite direction at the bid for a buy and the ask for a sell; success exactly on a DONE last reply |
| Positions.ClosePosition | services/mt5-connector/src/mt5_client.py:1259-1393 | without a connection it fails with nothing sent; once connected it is `CloseOutcome` |
| Positions.CloseShareOf | services/mt5-connector/src/mt5_client.py:1149-1249 | after normalisation no percentage error can arise |
| Positions.PartialCloseRejectsPercent | services/mt5-connector/src/mt5_client.py:1109-1115 | a percentage error exactly outside (0, 100), before anything is sent |
| Positions.PartialCloseRedirects | services/mt5-connector/src/mt5_client.py:1149-1152 | a normalised share reaching the position's volume closes the whole position instead: same requests, same success |
| Positions.PartialCloseReportsRemaining | services/mt5-connector/src/mt5_client.py:1130-1229 | a partial success closed a normalised volume at least the minimum and below the position's, reports the rest as remaining, and every request was an opposite deal of that volume tagged with the percentage |
| Positions.PartialCloseAsWritten | services/mt5-connector/src/mt5_client.py:1109-1147 | as written, every call past the symbol information raises: no partial close succeeds |
| Positions.PartialCloseAsWrittenNeverCloses | services/mt5-connector/src/mt5_client.py:1142 | every partial close the intended code performs or attempts is an exception as written |
| Positions.PartialCloseAsWrittenWitness | services/mt5-connector/src/mt5_client.py:1142 | half of a 1.0-lot position is sent as intended and raises as written |
| Positions.PartialClose | services/mt5-connector/src/mt5_client.py:1089-1257 | without a connection it fails with nothing sent; once connected it is `PartialCloseOutcome` |
| Positions.Summary | services/mt5-connector/src/mt5_client.py:1626-1647 | a stop or target is reported exactly when positive, with its value |
| Positions.ListPositions | services/mt5-connector/src/mt5_client.py:1603-1651 | a failed `positions_get` is an empty success exactly for error 0 or `RES_S_OK`, else a failure with the code; otherwise one summary per position, in order |
| Positions.GetOpenPositions | services/mt5-connector/src/mt5_client.py:1587-1660 | fails for the connection exactly when the client ends disconnected; once connected, the listing of `Positions.ListPositions`: an empty success exactly for error 0 or `RES_S_OK` when `positions_get` fails, otherwise that error, and one summary per position in order |
| OrderFlow.Evict | services/mt5-connector/src/orderflow_accumulator.py:48-51 | no longer than the old buffer, and its first tick, if any, is not older than the cutoff (that only old ticks are dropped is `EvictDropsOnlyOld`) |
| OrderFlow.EvictDropsOnlyOld | services/mt5-connector/src/orderflow_accumulator.py:48-51 | eviction removes only a prefix of ticks older than the cutoff |
| OrderFlow.EvictLeavesRecent | services/mt5-connector/src/orderflow_accumulator.py:48-51 | in a chronological buffer, every tick left is at or after the cutoff |
| OrderFlow.EvictKeepsLast | services/mt5-connector/src/orderflow_accumulator.py:45-51 | a newly appended tick not older than the cutoff survives as the last tick |
| OrderFlow.AddKeepsChronological | services/mt5-connector/src/orderflow_accumulator.py:42-51 | appending a tick no older than the others and evicting keeps the buffer chronological |
| OrderFlow.AddTickTouchesOnlyItsSymbol | services/mt5-connector/src/orderflow_accumulator.py:37-51 | adding a tick changes only its own symbol's buffer, which then ends with it |
| OrderFlow.Recent | services/mt5-connector/src/orderflow_accumulator.py:76 | the window is no longer than the buffer |
| OrderFlow.RecentMembers | services/mt5-connector/src/orderflow_accumulator.py:76 | the window holds exactly the buffer's ticks at or after the cutoff |
| OrderFlow.RecentTicks | services/mt5-connector/src/orderflow_accumulator.py:76 | the comprehension's loop yields exactly `Recent` |
| OrderFlow.AttributedTotal | services/mt5-connector/src/orderflow_accumulator.py:90-109 | the bid and ask volumes add up to the effective volume (`volume or 1`) of every tick but the first |
| OrderFlow.AttributedNonNegative | services/mt5-connector/src/orderflow_accumulator.py:90-109 | with non-negative tick volumes neither attributed volume is negative |
| OrderFlow.NothingAttributedIffSingleTick | services/mt5-connector/src/orderflow_accumulator.py:84-117 | both volumes stay zero exactly when the window holds a single tick, the case the 50/50 fallback serves |
| OrderFlow.AttributeVolumes | services/mt5-connector/src/orderflow_accumulator.py:84-109 | the pair loop yields the attributed bid and ask volumes |
| OrderFlow.SumVolumes | services/mt5-connector/src/orderflow_accumulator.py:115 | the loop sums the effective volumes of the window |
| OrderFlow.Volumes | services/mt5-connector/src/orderflow_accumulator.py:112-117 | both zero falls back to half the average effective volume each; otherwise unchanged |
| OrderFlow.SignOf | services/mt5-connector/src/orderflow_accumulator.py:127-133 | buying pressure exactly when ask exceeds bid, selling exactly when below, else neutral |
| OrderFlow.Imbalance | services/mt5-connector/src/orderflow_accumulator.py:123-125 | the buy and sell shares add to 100 for a positive total and are 50/50 otherwise |
| OrderFlow.LargeOrderOf | services/mt5-connector/src/orderflow_accumulator.py:144-149 | a buy when the ask exceeds the bid, priced at the ask, else a sell at the bid |
| OrderFlow.LargeOrders | services/mt5-connector/src/orderflow_accumulator.py:139-149 | no more large orders than ticks |
| OrderFlow.LargeOrdersMembers | services/mt5-connector/src/orderflow_accumulator.py:139-149 | every tick with a non-zero volume at or above the threshold is reported, and every report comes from such a tick |
| OrderFlow.CollectLargeOrders | services/mt5-connector/src/orderflow_accumulator.py:139-149 | the loop yields exactly `LargeOrders` |
| OrderFlow.Assemble | services/mt5-connector/src/orderflow_accumulator.py:119-162 | delta is ask minus bid volume, its sign matches, the shares are consistent and the tick count is the window's |
| OrderFlow.MetricsOf | services/mt5-connector/src/orderflow_accumulator.py:84-162 | the metrics of a non-empty window: delta is ask minus bid volume, the sign follows it, the shares add to 100 for a positive total, and the tick count is the window's |
| OrderFlow.MetricsLargeOrders | services/mt5-connector/src/orderflow_accumulator.py:135-149 | the large orders are those of the window's ticks at or above the multiplier times the average volume |
| OrderFlow.ComputeMetrics | services/mt5-connector/src/orderflow_accumulator.py:84-162 | the loops compute exactly `MetricsOf` |
| OrderFlow.OrderFlowOf | services/mt5-connector/src/orderflow_accumulator.py:53-162 | metrics only for a buffered symbol with at least 5 ticks, for that symbol, counting exactly the ticks of the window `now - (window or lookback)` |
| OrderFlow.OrderFlowNone | services/mt5-connector/src/orderflow_accumulator.py:64-78 | no metrics exactly when the symbol has no buffer, fewer than 5 buffered ticks, or none in the window |
| OrderFlow.OrderFlowAccumulator.constructor | services/mt5-connector/src/orderflow_accumulator.py:26-35 | no buffers, the given lookback and a multiplier of 20 |
| OrderFlow.OrderFlowAccumulator.AddTick | services/mt5-connector/src/orderflow_accumulator.py:37-51 | the symbol's buffer (created when missing) gets the tick and is evicted to `time - lookback`; no other buffer changes |
| OrderFlow.OrderFlowAccumulator.ComputeOrderFlow | services/mt5-connector/src/orderflow_accumulator.py:53-162 | returns exactly `OrderFlowOf` at time `now`; the buffers are only read |
| OrderFlow.OrderFlowAccumulator.ClearSymbol | services/mt5-connector/src/orderflow_accumulator.py:164-167 | that symbol's buffer is gone, every other is unchanged |
| OrderFlow.OrderFlowAccumulator.ClearAll | services/mt5-connector/src/orderflow_accumulator.py:169-171 | no buffer is left |
| Models.StrategyOf | services/mt5-connector/src/models.py:81-85 | never empty: the given strategy, else a non-empty `strategy_id`, else "low" |
| Models.Fallback | services/mt5-connector/src/models.py:70-76 | an explicit stop is kept; only a missing one is taken from the alternative field |
| Models.ValidateOpen | services/mt5-connector/src/models.py:30-87 | fails exactly for a non-positive lot size or a limit or stop order without a positive entry price, with that error; a success has the upper-cased symbol, lower-cased direction, fallback stops and the strategy of `Models.StrategyOf`; every other field, the entry price among them, passes through unchanged |
| Models.UpperIdempotent | services/mt5-connector/src/models.py:32-33 | upper-casing twice is upper-casing once |
| Models.LowerIdempotent | services/mt5-connector/src/models.py:37-39 | lower-casing twice is lower-casing once |
| Models.ValidateOpenIdempotent | services/mt5-connector/src/models.py:30-87 | a validated open request validates again to itself |
| Models.OpenTradeRequest.constructor | services/mt5-connector/src/models.py:30-39 | the field validators upper-case the symbol and lower-case the direction, nothing else |
| Models.OpenTradeRequest.ValidateFields | services/mt5-connector/src/models.py:48-87 | raises without changing anything exactly for a limit or stop without a positive entry price; otherwise fills in the stops and the strategy |
| Models.ParseOpenTradeRequest | services/mt5-connector/src/models.py:41-87 | building and validating the object yields exactly `ValidateOpen` |
| Models.ResolveTicket | services/mt5-connector/src/models.py:99-107 | accepted exactly when the ticket is positive, or zero with a positive `mt5_ticket`; an accepted ticket is positive |
| Models.ResolveTicketStable | services/mt5-connector/src/models.py:99-107 | an accepted ticket is accepted again as it is |
| Models.CloseTradeRequest.constructor | services/mt5-connector/src/models.py:90-97 | the fields as given |
| Models.CloseTradeRequest.ValidateTicket | services/mt5-connector/src/models.py:99-107 | replaces a zero ticket by a given `mt5_ticket`, then succeeds exactly when `ResolveTicket` accepts |
| Models.CancelOrderRequest.constructor | services/mt5-connector/src/models.py:173-176 | the fields as given |
| Models.CancelOrderRequest.ValidateTicket | services/mt5-connector/src/models.py:178-185 | the same rule as for a close request |
| Models.MirroredTicket | services/mt5-connector/src/models.py:119-123 | a given `mt5_ticket` is kept, else it mirrors a given ticket; one is given afterwards exactly when either was |
| Models.TradeResponse.constructor | services/mt5-connector/src/models.py:119-123 | the response's `mt5_ticket` is `MirroredTicket` |
| Models.PercentRangesAgree | services/mt5-connector/src/models.py:207-210 | the request model accepts exactly the percentages the client does not refuse |
| Handlers.OpenErrorMessage | services/mt5-connector/src/main.py:324 | a non-empty `error`, else `error_message`, else "Unknown error" |
| Handlers.OpenFailureStatus | services/mt5-connector/src/main.py:326-330 | 500 exactly when the lower-cased message mentions "connection" or "initialize", 400 otherwise |
| Handlers.MentionsConnection | services/mt5-connector/src/main.py:327 | any message containing "connection" is a 500 |
| Handlers.ConnectionFailureIsServerError | services/mt5-connector/src/mt5_client.py:383 | the client's connection failure message is a 500 |
| Handlers.OpenReply | services/mt5-connector/src/main.py:256-335 | a missing or non-positive stop loss is a 400; then a success carries the ticket and a failure the message with status 500 or 400 as above |
| Handlers.GuardPrecedesClient | services/mt5-connector/src/main.py:256-262 | without an accepted stop loss the reply does not depend on the client |
| Handlers.CloseFailureStatus | services/mt5-connector/src/main.py:369-377 | 404 exactly when the message says "not found"; else 500 exactly when it says "connection"; else 400 |
| Handlers.MentionsNotFound | services/mt5-connector/src/main.py:372-373 | any message containing "not found" is a 404 |
| Handlers.MissingPositionIsNotFound | services/mt5-connector/src/mt5_client.py:1282 | the client's missing-position message is a 404 |
| Handlers.HandlerTicket | services/mt5-connector/src/main.py:353-355 | a given non-zero `mt5_ticket` is the ticket acted on, else `ticket` |
| Handlers.ModifyEventType | services/mt5-connector/src/main.py:421-427 | "sl_modified" exactly for a stop loss alone, "tp_modified" for a take profit alone, "position_modified" otherwise |
| Handlers.FlowOf | services/mt5-connector/src/main.py:629-646 | neutral exactly when the accumulator has no metrics; the figures always agree with each other |
| Handlers.OrderFlowEndpoint | services/mt5-connector/src/main.py:598-661 | neutral without an accumulator; otherwise a fresh tick is added first (volume and time defaulted) and the default window's metrics or the neutral answer returned |
| Handlers.CandlesPerDay | services/mt5-connector/src/main.py:1074-1081 | one of 1440, 288, 96, 24, 6; 1440 for an unlisted timeframe |
| Handlers.LegacyCount | services/mt5-connector/src/main.py:1082-1087 | the days' worth of bars clamped to [100, 50000] |
| Handlers.LegacyCountMonotone | services/mt5-connector/src/main.py:1082-1087 | more days never ask for fewer bars |
| Handlers.Insert | services/mt5-connector/src/main.py:1132 | inserting into a chronological list keeps it chronological and adds exactly that bar |
| Handlers.SortByTime | services/mt5-connector/src/main.py:1132 | the sorted bars are chronological and a permutation of the input (the order among bars with equal times is not stated) |
| Handlers.SortKeepsBars | services/mt5-connector/src/main.py:1132 | sorting neither adds nor loses a bar |
| Handlers.Between | services/mt5-connector/src/main.py:1154-1160 | exactly the bars with `start <= time <= end` |
| Handlers.NotBefore | services/mt5-connector/src/main.py:1142-1145 | exactly the bars at or after the cutoff |
| Handlers.BetweenChronological | services/mt5-connector/src/main.py:1154-1160 | the range filter keeps a chronological list chronological |
| Handlers.NotBeforeChronological | services/mt5-connector/src/main.py:1142-1145 | the cutoff filter keeps a chronological list chronological |
| Handlers.Latest | services/mt5-connector/src/main.py:1138 | the newest time, held by some bar and not exceeded by any |
| Handlers.NewestIsLatest | services/mt5-connector/src/main.py:1138 | the last sorted bar is the newest |
| Handlers.FilterRange | services/mt5-connector/src/main.py:1154-1160 | the filter loop yields exactly `Between` |
| Handlers.RangeHistoryProperties | services/mt5-connector/src/main.py:1131-1160 | in date-range mode the answer is chronological and holds only bars the terminal gave within the range |
| Handlers.LegacyHistoryProperties | services/mt5-connector/src/main.py:1131-1153 | in legacy mode the answer is chronological and holds only bars the terminal gave within `days` of the newest |
| Handlers.History | services/mt5-connector/src/main.py:1100-1165 | nothing without bars; otherwise the bars sorted and filtered as the mode says |
| Emitter.Pow2 | services/mt5-connector/src/order_event_emitter.py:67 | `2 ** attempt` is at least 1 |
| Emitter.Backoff | services/mt5-connector/src/order_event_emitter.py:65-67 | one delay per failed attempt, 2^k seconds after attempt k |
| Emitter.AttemptsSpec | services/mt5-connector/src/order_event_emitter.py:53-82 | delivered exactly when some allowed attempt is answered 200; posts stop at the first such attempt; at most `retry_count` posts; 2^k seconds slept after each failed attempt but the last |
| Emitter.PostWithRetry | services/mt5-connector/src/order_event_emitter.py:53-82 | the retry loop yields exactly `Attempts` (a non-positive count makes no post) |
| Emitter.RetryBounds | services/mt5-connector/src/order_event_emitter.py:53-58 | at most `retry_count` posts, delivery exactly when some attempt answers 200, all attempts used on failure |
| Emitter.DefaultScheduleWhenAllFail | services/mt5-connector/src/order_event_emitter.py:34-82 | with the default three attempts all failing: three posts, sleeping 1 s then 2 s |
| Emitter.OrderEventEmitter.constructor | services/mt5-connector/src/order_event_emitter.py:16-25 | enabled exactly when the webhook URL is present and not blank; no session |
| Emitter.OrderEventEmitter.GetSession | services/mt5-connector/src/order_event_emitter.py:27-32 | a session is open afterwards |
| Emitter.OrderEventEmitter.EmitEvent | services/mt5-connector/src/order_event_emitter.py:34-82 | a disabled emitter posts nothing and returns false; an enabled one opens the session and runs the retry loop |
| Emitter.OrderEventEmitter.Close | services/mt5-connector/src/order_event_emitter.py:227-231 | an open session is closed and dropped; otherwise nothing changes |
| Emitter.ReasonOf | services/mt5-connector/src/order_event_emitter.py:161-168 | "tp" exactly for deal reason 3, "sl" for 4, "manual" for an exit deal otherwise, else "unknown" |
| Emitter.DirectionOf | services/mt5-connector/src/order_event_emitter.py:177 | none exactly without a type; "buy" exactly for type 0, "sell" for any other type |
| Emitter.OrElse | services/mt5-connector/src/order_event_emitter.py:174 | `a or b`: `a` when it is truthy, else `b` |
| Emitter.PositionClosedEvent | services/mt5-connector/src/order_event_emitter.py:141-196 | source "mt5-connector", type "position_closed", the classified reason and direction, the position's ticket or the deal's |
| Emitter.OrderSentEvent | services/mt5-connector/src/order_event_emitter.py:84-96 | source "mt5-connector", type "order_sent", the ticket and the lower-cased direction |
| Emitter.PositionModifiedEvent | services/mt5-connector/src/order_event_emitter.py:198-211 | source "mt5-connector", the given event type or "position_modified", the ticket and the lower-cased direction |

## Left out

- The `MetaTrader5` library. It is a foreign native API. Its answers are the `TerminalState` snapshot and the `Broker` oracle. A second `symbol_info` fetch inside one operation (`mt5_client.py:525-536`, `1317`) is answered from the same snapshot.
- A native call that raises. The oracles always answer, so the `except Exception` handlers are left out. They turn a raising `MetaTrader5` call into an error result: a raising `order_send`, `symbol_info`, `positions_get` or `account_info` in `initialize` and `login` (`mt5_client.py:84-87`, `106-109`), `shutdown` (`145-146`), `is_connected` (`155-156`), `validate_symbol` (`228-229`), `get_price` (`360-365`), `open_trade` (`972-982`), `modify_trade` (`1081-1087`), `partial_close_trade` (`1251-1257`), `close_trade` (`1387-1393`) and `get_open_positions` (`1656-1663`). Only two raising paths are modelled: the connection probe of `ensure_initialized` (`mt5_client.py:131-133`, `Connection.ProbeRaised`) and the two `_normalize_volume` calls listed under Findings.
- `config.py`. The configuration enters only as the connection `Environment` (path configured, path exists, credentials given).
- Logging (`utils.py` and every logger call) and all human-readable message text. Errors are datatype constructors; only the messages the handlers inspect are kept as strings.
- `get_price`, `list_symbols`, `health_check`, `get_account_summary` and `get_pending_orders`. These are I/O pass-throughs outside the modelled core.
- `cancel_order` on the client. The handler calls it, but `mt5_client.py` does not define it. Only the cancel request's validator and the handler's ticket and status decisions are modelled.
- The FastAPI wiring (lifespan, CORS, uvicorn, response objects) and `asyncio.create_task`. The handlers are modelled as pure decisions and small methods over the client's results.
- The aiohttp session's networking and timeout, and real `asyncio.sleep` timing. A post is a `PostOutcome` and sleeping is a recorded delay.
- `emit_order_rejected`, `emit_position_opened` and `emit_partial_close`. They only copy fields into a dictionary; the envelope rule they share is stated by `Emitter.OrderSentEvent`.
- Timestamps, `datetime.now()` and timezone handling. The current time is a parameter and times are whole seconds. History bars are sorted by their integer time. The source sorts strings built by `datetime.fromtimestamp`, which are local wall-clock times with a "Z" appended; across a daylight-saving fall-back their order differs from the integer order, and the model does not follow it there.
- Handlers.SortByTime: does not state that `list.sort` is stable; bars with equal times may end up in any order relative to each other.
- Parsing the history dates and the `copy_rates_from_pos`/`copy_rates_range` fallback. The bars returned are a parameter.
- `round(x, 2)` and `round(x, 1)` on the order-flow metrics, and payload fields the decisions do not read (comments, magic number, timestamps, raw deal data).
- `get_accumulator`, the module-level singleton. The endpoint takes the accumulator, possibly null, as a parameter.
- The `entry_type` branch of `validate_fields` (`models.py:52-64`). `order_kind` is a required literal, so this branch never runs.
- The exception handler of `compute_order_flow`'s caller (`main.py:648-661`). The modelled computation cannot raise.
- The connection re-check after the partial-close redirect. `close_trade`'s own connection check is subsumed by the one already passed in the same snapshot.
- Floating point. Prices and volumes are exact `real`s, so representation error in `volume / step` and in the 110% bound is not modelled.
- Text.Upper, Text.Lower, Text.IsSpace: only ASCII is modelled. Python's `str.upper` and `str.lower` also map non-ASCII letters (`'é'` to `'É'`) and can change the length (`'ß'.upper()` is `'SS'`), and `str.strip()` removes Unicode whitespace as well; symbol names and enum fields are taken to be ASCII.
- Normalizer.NormalizeVolume: does not promise that a success is at most the maximum. Snapping can round above a maximum that is not a multiple of the step; `Normalizer.NormalizedWithinMaximum` proves the bound when the maximum is on the grid.

## Findings

| source | as written | input that shows it | evidently intended | confidence | as-written member | corrected member |
|---|---|---|---|---|---|---|
| services/mt5-connector/src/mt5_client.py:545 | `open_trade` calls `_normalize_volume`, which takes three parameters, with two arguments and does not unpack the result. Every request that passes the checks raises `TypeError`, which is reported with code -10011. | A market buy of 0.01 lot of a visible symbol "A" quoted 1.0/1.1, with default volume limits | normalise the lot size, report a volume error, and send the normalised volume | not executed | OpenTrade.OpenAsWrittenWitness | OpenTrade.OpenOutcome |
| services/mt5-connector/src/mt5_client.py:1142 | `partial_close_trade` calls `_normalize_volume` with two arguments. Every call that gets past the symbol information raises `TypeError`, caught at line 1251, so no partial close is ever sent. | Closing 50% of a 1.0-lot buy position with default volume limits | close the normalised share, or the whole position when the share reaches it | not executed | Positions.PartialCloseAsWrittenWitness | Positions.PartialCloseReportsRemaining |
