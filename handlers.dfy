/**
 * The decisions the HTTP handlers make around the client: the stop-loss
 * guard and the error-to-status mapping of the trade endpoints, the ticket
 * override of close and cancel, the event type of a modification, the
 * neutral answer of the order-flow endpoint, and the candle count, sorting
 * and filtering of the history endpoint.
 */
module Handlers {
  import opened Wrappers
  import opened Text
  import OrderFlow

  /*** Error messages and status codes ***/

  lemma LowerAppend(a: string, b: string)
    ensures Lower(a + b) == Lower(a) + Lower(b)
  {
    assert forall i :: 0 <= i < |a + b| ==> Lower(a + b)[i] == (Lower(a) + Lower(b))[i];
  }

  /** A word placed anywhere in a message is contained in it. */
  lemma {:induction false} ContainsInfix(p: string, w: string, q: string)
    ensures Contains(p + w + q, w)
    decreases |p|
  {
    if p == [] {
      assert p + w + q == w + q;
      assert (w + q)[..|w|] == w;
    } else {
      assert (p + w + q)[1..] == p[1..] + w + q;
      ContainsInfix(p[1..], w, q);
    }
  }

  /** A lower-case word anywhere in a message is found by the case-insensitive test. */
  lemma LowerContainsWord(p: string, w: string, q: string)
    requires Lower(w) == w
    ensures Contains(Lower(p + w + q), w)
  {
    LowerAppend(p + w, q);
    LowerAppend(p, w);
    ContainsInfix(Lower(p), w, Lower(q));
  }

  /** `result.get('error') or result.get('error_message', 'Unknown error')`. */
  function OpenErrorMessage(error: Option<string>, errorMessage: Option<string>): (m: string)
    ensures error.Some? && error.value != [] ==> m == error.value
    ensures (error.None? || error.value == []) && errorMessage.Some? ==> m == errorMessage.value
    ensures (error.None? || error.value == []) && errorMessage.None? ==> m == "Unknown error"
  {
    if error.Some? && error.value != [] then error.value
    else if errorMessage.Some? then errorMessage.value
    else "Unknown error"
  }

  /** The status of a failed open: 500 when the message mentions the connection or initialisation, else 400. */
  function OpenFailureStatus(message: string): (status: int)
    ensures status == 500 <==> Contains(Lower(message), "connection") || Contains(Lower(message), "initialize")
    ensures status == 400 <==> !(Contains(Lower(message), "connection") || Contains(Lower(message), "initialize"))
  {
    var m := Lower(message);
    if Contains(m, "connection") || Contains(m, "initialize") then 500 else 400
  }

  /** A failure message that mentions the connection anywhere is a server error. */
  lemma MentionsConnection(p: string, q: string)
    ensures OpenFailureStatus(p + "connection" + q) == 500
  {
    LowerFixed("connection");
    LowerContainsWord(p, "connection", q);
  }

  /** The client's connection failure message is a server error. */
  lemma ConnectionFailureIsServerError(initMessage: string)
    ensures OpenFailureStatus("MT5 connection failed: " + initMessage) == 500
  {
    assert "MT5 connection failed: " + initMessage == "MT5 " + "connection" + (" failed: " + initMessage);
    MentionsConnection("MT5 ", " failed: " + initMessage);
  }

  /**
   * The status of a failed close or cancel: "not found" is checked first
   * (404), then "connection" (500), else 400.
   */
  function CloseFailureStatus(message: string): (status: int)
    ensures status == 404 <==> Contains(Lower(message), "not found")
    ensures status == 500 <==> !Contains(Lower(message), "not found") && Contains(Lower(message), "connection")
    ensures status == 400 <==> !Contains(Lower(message), "not found") && !Contains(Lower(message), "connection")
  {
    var m := Lower(message);
    if Contains(m, "not found") then 404
    else if Contains(m, "connection") then 500
    else 400
  }

  /** A failure message that says "not found" anywhere is a 404. */
  lemma MentionsNotFound(p: string, q: string)
    ensures CloseFailureStatus(p + "not found" + q) == 404
  {
    LowerFixed("not found");
    LowerContainsWord(p, "not found", q);
  }

  /** The client's missing-position message is a 404, whatever the ticket's text. */
  lemma MissingPositionIsNotFound(ticketText: string)
    ensures CloseFailureStatus("Position with ticket " + ticketText + " not found") == 404
  {
    assert "Position with ticket " + ticketText + " not found" == ("Position with ticket " + ticketText + " ") + "not found" + "";
    MentionsNotFound("Position with ticket " + ticketText + " ", "");
  }

  /** A modification failure is always a client error. */
  const ModifyFailureStatus: int := 400

  /** What the trade endpoints answer. */
  datatype HttpReply = Ok(ticket: Option<int>) | HttpError(status: int, detail: string)

  /** What `open_trade` returned to the handler. */
  datatype ClientResult =
    | Succeeded(ticket: Option<int>)
    | Failed(error: Option<string>, errorMessage: Option<string>)

  /** The stop-loss guard of the open endpoint: a missing or non-positive stop loss is refused. */
  predicate StopLossAccepted(stopLoss: Option<real>) {
    stopLoss.Some? && stopLoss.value > 0.0
  }

  /**
   * The open endpoint: the stop-loss guard, then the client's result.  The
   * client's result is only consulted once the guard passes.
   */
  function OpenReply(stopLoss: Option<real>, result: ClientResult): (r: HttpReply)
    ensures !StopLossAccepted(stopLoss) ==> r.HttpError? && r.status == 400
    ensures StopLossAccepted(stopLoss) && result.Succeeded? ==> r == Ok(result.ticket)
    ensures StopLossAccepted(stopLoss) && result.Failed? ==>
      r.HttpError? && r.detail == OpenErrorMessage(result.error, result.errorMessage)
      && (r.status == 500 <==> Contains(Lower(r.detail), "connection") || Contains(Lower(r.detail), "initialize"))
      && (r.status == 400 || r.status == 500)
  {
    if !StopLossAccepted(stopLoss) then
      HttpError(400, "Stop Loss is required but was not provided or invalid")
    else if result.Succeeded? then Ok(result.ticket)
    else
      var message := OpenErrorMessage(result.error, result.errorMessage);
      HttpError(OpenFailureStatus(message), message)
  }

  /** Without an accepted stop loss the reply does not depend on the client at all. */
  lemma GuardPrecedesClient(stopLoss: Option<real>, a: ClientResult, b: ClientResult)
    requires !StopLossAccepted(stopLoss)
    ensures OpenReply(stopLoss, a) == OpenReply(stopLoss, b)
  {
  }

  /*** Tickets ***/

  /** The ticket close and cancel act on: a given `mt5_ticket` that differs from `ticket` overrides it. */
  function HandlerTicket(ticket: int, mt5Ticket: Option<int>): (t: int)
    ensures mt5Ticket.Some? && mt5Ticket.value != 0 ==> t == mt5Ticket.value
    ensures (mt5Ticket.None? || mt5Ticket.value == 0) ==> t == ticket
  {
    if mt5Ticket.Some? && mt5Ticket.value != 0 && ticket != mt5Ticket.value then mt5Ticket.value else ticket
  }

  /*** Modification events ***/

  datatype ModifyEvent = SlModified | TpModified | PositionModified

  /** The event type of a successful modification, from which stops the request carried. */
  function ModifyEventType(stopLoss: Option<real>, takeProfit: Option<real>): (e: ModifyEvent)
    ensures e == SlModified <==> stopLoss.Some? && takeProfit.None?
    ensures e == TpModified <==> takeProfit.Some? && stopLoss.None?
    ensures e == PositionModified <==> stopLoss.Some? == takeProfit.Some?
  {
    if stopLoss.Some? && takeProfit.None? then SlModified
    else if takeProfit.Some? && stopLoss.None? then TpModified
    else PositionModified
  }

  /*** Order flow ***/

  /** The order-flow endpoint's answer: computed metrics or the neutral shape. */
  datatype FlowReply = Neutral(symbol: string) | Flow(metrics: OrderFlow.Metrics)

  /** (bid volume, ask volume, delta, sign, buy %, sell %) of an answer. */
  function Figures(r: FlowReply): (real, real, real, OrderFlow.DeltaSign, real, real) {
    match r
    case Neutral(_) => (0.0, 0.0, 0.0, OrderFlow.Neutral, 50.0, 50.0)
    case Flow(m) => (m.bidVolume, m.askVolume, m.delta, m.deltaSign, m.imbalanceBuyPct, m.imbalanceSellPct)
  }

  /** The figures of an answer hang together, whether computed or neutral. */
  predicate Consistent(r: FlowReply) {
    var (bid, ask, delta, sign, buy, sell) := Figures(r);
    && delta == ask - bid
    && (sign == OrderFlow.BuyingPressure <==> delta > 0.0)
    && (sign == OrderFlow.SellingPressure <==> delta < 0.0)
    && (bid + ask > 0.0 ==> buy + sell == 100.0)
    && (bid + ask <= 0.0 ==> buy == 50.0 && sell == 50.0)
  }

  /** A tick fetched for the endpoint: `volume or 1`, and `time or now`. */
  function FreshTick(symbol: string, bid: real, ask: real, volume: int, time: int, now: int): OrderFlow.TickData {
    OrderFlow.TickData(symbol, bid, ask, if volume == 0 then 1 else volume, if time == 0 then now else time)
  }

  /** The metrics of the accumulator's buffers, or the neutral shape when there are none. */
  function FlowOf(buffers: map<string, seq<OrderFlow.TickData>>, lookback: int, multiplier: int,
                  symbol: string, now: int): (r: FlowReply)
    ensures r.Neutral? <==> OrderFlow.OrderFlowOf(buffers, lookback, multiplier, symbol, None, now).None?
    ensures Consistent(r)
  {
    match OrderFlow.OrderFlowOf(buffers, lookback, multiplier, symbol, None, now)
    case None => Neutral(symbol)
    case Some(m) => Flow(m)
  }

  /**
   * The order-flow endpoint once the symbol is resolved: without an
   * accumulator the neutral shape; otherwise a fresh tick (when the terminal
   * has one) is added first, then the default window's metrics are returned,
   * or the neutral shape when there are too few ticks.
   */
  method OrderFlowEndpoint(acc: OrderFlow.OrderFlowAccumulator?, symbol: string,
                           tick: Option<(real, real, int, int)>, now: int) returns (r: FlowReply)
    modifies acc
    ensures acc == null ==> r == Neutral(symbol)
    ensures acc != null && tick.None? ==> acc.buffers == old(acc.buffers)
    ensures acc != null && tick.Some? ==>
      acc.buffers == OrderFlow.WithTick(old(acc.buffers),
                                        FreshTick(symbol, tick.value.0, tick.value.1, tick.value.2, tick.value.3, now),
                                        acc.lookbackSeconds)
    ensures acc != null ==> r == FlowOf(acc.buffers, acc.lookbackSeconds, acc.largeOrderMultiplier, symbol, now)
  {
    if acc == null {
      return Neutral(symbol);
    }
    if tick.Some? {
      var (bid, ask, volume, time) := tick.value;
      acc.AddTick(symbol, bid, ask, if volume == 0 then 1 else volume, if time == 0 then now else time);
    }
    var flow := acc.ComputeOrderFlow(symbol, None, now);
    if flow.None? {
      return Neutral(symbol);
    }
    r := Flow(flow.value);
  }

  /*** History ***/

  /** A bar, with its time in whole seconds. */
  datatype Candle = Candle(time: int, open: real, high: real, low: real, close: real, volume: int)

  /** Bars per day of a timeframe, 1440 for one the table does not list. */
  function CandlesPerDay(timeframe: string): (n: nat)
    ensures n in {1440, 288, 96, 24, 6}
  {
    var tf := Upper(timeframe);
    if tf == "M1" then 1440
    else if tf == "M5" then 288
    else if tf == "M15" then 96
    else if tf == "H1" then 24
    else if tf == "H4" then 6
    else 1440
  }

  /** How many bars the legacy mode asks for: the days' worth, clamped to [100, 50000]. */
  function LegacyCount(days: int, timeframe: string): (count: int)
    ensures 100 <= count <= 50000
    ensures 100 <= days * CandlesPerDay(timeframe) <= 50000 ==> count == days * CandlesPerDay(timeframe)
    ensures days * CandlesPerDay(timeframe) < 100 ==> count == 100
    ensures days * CandlesPerDay(timeframe) > 50000 ==> count == 50000
  {
    var requested := days * CandlesPerDay(timeframe);
    var atLeast := if requested > 100 then requested else 100;
    if atLeast < 50000 then atLeast else 50000
  }

  /** Asking for more days never yields fewer bars. */
  lemma LegacyCountMonotone(d1: int, d2: int, timeframe: string)
    requires d1 <= d2
    ensures LegacyCount(d1, timeframe) <= LegacyCount(d2, timeframe)
  {
    var n := CandlesPerDay(timeframe);
    assert d1 * n <= d2 * n;
  }

  predicate Chronological(s: seq<Candle>) {
    forall i, j :: 0 <= i < j < |s| ==> s[i].time <= s[j].time
  }

  /** `c` placed after every bar not later than it, in a chronological list. */
  function Insert(c: Candle, s: seq<Candle>): (r: seq<Candle>)
    requires Chronological(s)
    ensures Chronological(r)
    ensures multiset(r) == multiset(s) + multiset{c}
  {
    if s == [] then [c]
    else if c.time < s[0].time then [c] + s
    else
      var rest := Insert(c, s[1..]);
      assert s == [s[0]] + s[1..];
      HeadBeforeRest(s[0], c, s[1..], rest);
      [s[0]] + rest
  }

  /** A bar not later than `c` and than every bar of `s` goes before any arrangement of them. */
  lemma HeadBeforeRest(h: Candle, c: Candle, s: seq<Candle>, rest: seq<Candle>)
    requires Chronological(rest) && multiset(rest) == multiset(s) + multiset{c}
    requires h.time <= c.time && forall x :: x in s ==> h.time <= x.time
    ensures Chronological([h] + rest)
  {
    forall x | x in rest
      ensures h.time <= x.time
    {
      assert x in multiset(rest);
      assert x in multiset(s) || x == c;
    }
    var r := [h] + rest;
    forall i, j | 0 <= i < j < |r|
      ensures r[i].time <= r[j].time
    {
      if i == 0 {
        assert r[j] in rest;
      } else {
        assert r[i] == rest[i - 1] && r[j] == rest[j - 1];
      }
    }
  }

  /** `candles.sort(key=time)`: the bars in chronological order, a permutation of the input. */
  function SortByTime(s: seq<Candle>): (r: seq<Candle>)
    ensures Chronological(r)
    ensures multiset(r) == multiset(s)
  {
    if s == [] then []
    else
      assert s == s[..|s| - 1] + [s[|s| - 1]];
      Insert(s[|s| - 1], SortByTime(s[..|s| - 1]))
  }

  /** The bars with `start <= time <= end`, in order. */
  function Between(s: seq<Candle>, start: int, end: int): (r: seq<Candle>)
    ensures forall c :: c in r <==> c in s && start <= c.time <= end
  {
    if s == [] then []
    else
      var front := s[..|s| - 1];
      var last := s[|s| - 1];
      assert forall c :: c in s <==> c in front || c == last;
      Between(front, start, end) + (if start <= last.time <= end then [last] else [])
  }

  /** The bars with `time >= cutoff`, in order. */
  function NotBefore(s: seq<Candle>, cutoff: int): (r: seq<Candle>)
    ensures forall c :: c in r <==> c in s && c.time >= cutoff
  {
    if s == [] then []
    else
      var front := s[..|s| - 1];
      var last := s[|s| - 1];
      assert forall c :: c in s <==> c in front || c == last;
      NotBefore(front, cutoff) + (if last.time >= cutoff then [last] else [])
  }

  /** Filtering a chronological list keeps it chronological. */
  lemma {:induction false} BetweenChronological(s: seq<Candle>, start: int, end: int)
    requires Chronological(s)
    ensures Chronological(Between(s, start, end))
    decreases |s|
  {
    if s != [] {
      var front := s[..|s| - 1];
      BetweenChronological(front, start, end);
      var r := Between(front, start, end);
      forall c | c in r
        ensures c.time <= s[|s| - 1].time
      {
        var k :| 0 <= k < |front| && front[k] == c;
      }
    }
  }

  lemma {:induction false} NotBeforeChronological(s: seq<Candle>, cutoff: int)
    requires Chronological(s)
    ensures Chronological(NotBefore(s, cutoff))
    decreases |s|
  {
    if s != [] {
      var front := s[..|s| - 1];
      NotBeforeChronological(front, cutoff);
      var r := NotBefore(front, cutoff);
      forall c | c in r
        ensures c.time <= s[|s| - 1].time
      {
        var k :| 0 <= k < |front| && front[k] == c;
      }
    }
  }

  datatype HistoryMode = DateRange(start: int, end: int) | LastDays(days: int)

  const SecondsPerDay: int := 86400

  /**
   * The bars the history endpoint returns from what the terminal gave:
   * nothing when it gave nothing, otherwise sorted by time and filtered to
   * the date range, or (legacy mode) to the days before the newest bar.
   */
  function HistoryOf(rates: Option<seq<Candle>>, mode: HistoryMode): seq<Candle> {
    if rates.None? || rates.value == [] then []
    else
      var sorted := SortByTime(rates.value);
      match mode
      case DateRange(start, end) => Between(sorted, start, end)
      case LastDays(days) => NotBefore(sorted, sorted[|sorted| - 1].time - days * SecondsPerDay)
  }

  /** Sorting neither adds nor loses a bar. */
  lemma SortKeepsBars(s: seq<Candle>)
    ensures forall c :: c in SortByTime(s) <==> c in s
  {
    var sorted := SortByTime(s);
    forall c
      ensures c in sorted <==> c in s
    {
      assert c in sorted <==> c in multiset(sorted);
      assert c in s <==> c in multiset(s);
    }
  }

  /**
   * In date-range mode the answer is chronological, holds only bars the
   * terminal gave, and each lies within the range.
   */
  lemma RangeHistoryProperties(rates: Option<seq<Candle>>, start: int, end: int)
    ensures Chronological(HistoryOf(rates, DateRange(start, end)))
    ensures forall c :: c in HistoryOf(rates, DateRange(start, end)) ==>
      rates.Some? && c in rates.value && start <= c.time <= end
  {
    if rates.Some? && rates.value != [] {
      SortKeepsBars(rates.value);
      BetweenChronological(SortByTime(rates.value), start, end);
    }
  }

  /**
   * In legacy mode the answer is chronological, holds only bars the
   * terminal gave, and none is more than `days` older than the newest bar.
   */
  lemma LegacyHistoryProperties(rates: Option<seq<Candle>>, days: int)
    ensures Chronological(HistoryOf(rates, LastDays(days)))
    ensures forall c :: c in HistoryOf(rates, LastDays(days)) ==>
      rates.Some? && rates.value != [] && c in rates.value
      && c.time >= Latest(rates.value) - days * SecondsPerDay
  {
    if rates.Some? && rates.value != [] {
      var sorted := SortByTime(rates.value);
      NewestIsLatest(sorted, rates.value);
      var cutoff := Latest(rates.value) - days * SecondsPerDay;
      assert HistoryOf(rates, LastDays(days)) == NotBefore(sorted, cutoff);
      SortKeepsBars(rates.value);
      NotBeforeChronological(sorted, cutoff);
    }
  }

  /** The latest time among the bars. */
  function Latest(s: seq<Candle>): (t: int)
    requires s != []
    ensures forall c :: c in s ==> c.time <= t
    ensures exists c :: c in s && c.time == t
  {
    if |s| == 1 then s[0].time
    else
      var rest := Latest(s[1..]);
      assert forall c :: c in s ==> c == s[0] || c in s[1..];
      if s[0].time > rest then s[0].time else rest
  }

  /** The last bar of the sorted list is the newest one. */
  lemma NewestIsLatest(sorted: seq<Candle>, s: seq<Candle>)
    requires s != [] && Chronological(sorted) && multiset(sorted) == multiset(s)
    ensures sorted != [] && sorted[|sorted| - 1].time == Latest(s)
  {
    assert forall c :: c in sorted <==> c in s by {
      forall c ensures c in sorted <==> c in s {
        assert c in sorted <==> c in multiset(sorted);
        assert c in s <==> c in multiset(s);
      }
    }
    var c :| c in s && c.time == Latest(s);
    assert c in sorted;
    assert sorted[|sorted| - 1] in s;
  }

  /** The explicit-range filter loop of the history endpoint. */
  method FilterRange(candles: seq<Candle>, start: int, end: int) returns (filtered: seq<Candle>)
    ensures filtered == Between(candles, start, end)
  {
    filtered := [];
    for i := 0 to |candles|
      invariant filtered == Between(candles[..i], start, end)
    {
      assert candles[..i + 1][..i] == candles[..i];
      if start <= candles[i].time <= end {
        filtered := filtered + [candles[i]];
      }
    }
    assert candles[..|candles|] == candles;
  }

  /** The history endpoint once the terminal's bars are fetched. */
  method History(rates: Option<seq<Candle>>, mode: HistoryMode) returns (candles: seq<Candle>)
    ensures candles == HistoryOf(rates, mode)
  {
    if rates.None? || |rates.value| == 0 {
      return [];
    }
    candles := SortByTime(rates.value);
    match mode
    case DateRange(start, end) =>
      candles := FilterRange(candles, start, end);
    case LastDays(days) =>
      candles := NotBefore(candles, candles[|candles| - 1].time - days * SecondsPerDay);
  }
}
