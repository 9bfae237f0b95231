/**
 * The operations on open positions: `modify_trade`, `close_trade`,
 * `partial_close_trade` and `get_open_positions`.  Each takes the terminal
 * snapshot and, where it sends orders, the broker; the connection check that
 * opens each of them is the client's `EnsureInitialized`.
 */
module Positions {
  import opened Wrappers
  import opened Terminal
  import opened Normalizer
  import opened Stops
  import opened Filling
  import Connection

  datatype TradeFailure =
    | ConnectionFailed
    | PercentOutOfRange
    | NotFound
    | NoSymbolInfo(code: int)
    | VolumeRejected(error: VolumeError)
    | NoTick(code: int)
    | SendNoResult(code: int)            // `order_send` returned None; `last_error()` code
    | Refused(retcode: int)
    | NoFillingModeWorked
    | Exception                          // an exception caught by the operation's handler
    | PositionsUnavailable(code: int)

  /*** modify_trade ***/

  /** The success response of `modify_trade`; `None` is reported for a stop dropped by adjustment. */
  datatype Modified = Modified(ticket: int, newSl: Option<real>, newTp: Option<real>)

  /** Python truthiness of an optional price: present and non-zero. */
  predicate Truthy(x: Option<real>) {
    x.Some? && x.value != 0.0
  }

  /** The stops `modify_trade` reports: the adjusted ones when either was given, else the current ones. */
  function ReportedStops(p: Position, info: SymbolInfo, sl: Option<real>, tp: Option<real>): (Option<real>, Option<real>) {
    var newSl := if sl.Some? then sl.value else p.sl;
    var newTp := if tp.Some? then tp.value else p.tp;
    if sl.Some? || tp.Some? then AdjustStops(info, p.priceOpen, Some(newSl), Some(newTp), p.direction)
    else (Some(p.sl), Some(p.tp))
  }

  /** The `TRADE_ACTION_SLTP` request: a reported stop that is falsy is replaced by the current one. */
  function ModifyRequestFor(p: Position, ticket: int, reported: (Option<real>, Option<real>)): TradeRequest {
    ModifyRequest(p.symbol, ticket,
                  if Truthy(reported.0) then reported.0.value else p.sl,
                  if Truthy(reported.1) then reported.1.value else p.tp)
  }

  /**
   * `modify_trade` once connected: the response and the requests sent
   * (`order_send` is called at most once).
   */
  function ModifyOutcome(t: TerminalState, broker: Broker, ticket: int, sl: Option<real>, tp: Option<real>)
    : (r: (Result<Modified, TradeFailure>, seq<TradeRequest>))
    ensures |r.1| <= 1
    ensures r.0 == Failure(NotFound) <==> PositionOf(t, ticket).None?
    ensures r.0 == Failure(NotFound) ==> r.1 == []
    ensures |r.1| == 1 ==>
      && PositionOf(t, ticket).Some?
      && r.1[0].ModifyRequest? && r.1[0].ticket == ticket && r.1[0].symbol == PositionOf(t, ticket).value.symbol
    ensures r.0.Success? ==> |r.1| == 1 && IsDone(broker(0, r.1[0])) && r.0.value.ticket == ticket
    ensures r.0.Failure? && r.0.error.Refused? ==>
      |r.1| == 1 && broker(0, r.1[0]).Result? && broker(0, r.1[0]).retcode == r.0.error.retcode
      && r.0.error.retcode != RETCODE_DONE
  {
    match PositionOf(t, ticket)
    case None => (Failure(NotFound), [])
    case Some(p) =>
      match InfoOf(t, p.symbol)
      case None => (Failure(NoSymbolInfo(t.lastError)), [])
      case Some(info) =>
        var reported := ReportedStops(p, info, sl, tp);
        var request := ModifyRequestFor(p, ticket, reported);
        match broker(0, request)
        case NoResult(code) => (Failure(SendNoResult(code)), [request])
        case Result(code, _) =>
          if code == RETCODE_DONE then (Success(Modified(ticket, reported.0, reported.1)), [request])
          else (Failure(Refused(code)), [request])
  }

  /**
   * A stop given to `modify_trade` that adjustment drops (non-positive or on
   * the wrong side of the open price) is sent as the position's current stop,
   * yet a success reports it as `None`.
   */
  lemma ModifyDroppedStop(t: TerminalState, broker: Broker, ticket: int, sl: Option<real>, tp: Option<real>)
    requires PositionOf(t, ticket).Some? && InfoOf(t, PositionOf(t, ticket).value.symbol).Some?
    requires var p := PositionOf(t, ticket).value;
      sl.Some? && (sl.value <= 0.0 || !OnSide(StopLossSide(p.direction), p.priceOpen, sl.value))
    ensures var (r, sent) := ModifyOutcome(t, broker, ticket, sl, tp);
      && |sent| == 1 && sent[0].sl == PositionOf(t, ticket).value.sl
      && (r.Success? ==> r.value.newSl.None?)
  {
  }

  /**
   * A stop given to `modify_trade` on the right side of the open price and
   * far enough from it is sent and reported unchanged; one too close is moved
   * out to the minimum distance.
   */
  lemma ModifyPlacesStop(t: TerminalState, broker: Broker, ticket: int, sl: Option<real>, tp: Option<real>)
    requires PositionOf(t, ticket).Some? && InfoOf(t, PositionOf(t, ticket).value.symbol).Some?
    requires var p := PositionOf(t, ticket).value;
      sl.Some? && sl.value > 0.0 && OnSide(StopLossSide(p.direction), p.priceOpen, sl.value)
    ensures var p := PositionOf(t, ticket).value;
      var info := InfoOf(t, p.symbol).value;
      var (r, sent) := ModifyOutcome(t, broker, ticket, sl, tp);
      var expected := if FarEnough(StopLossSide(p.direction), p.priceOpen, MinStopDistance(info), sl.value) then sl.value
                      else Boundary(StopLossSide(p.direction), p.priceOpen, MinStopDistance(info));
      && |sent| == 1
      && (expected != 0.0 ==> sent[0].sl == expected)
      && (r.Success? ==> r.value.newSl == Some(expected))
  {
  }

  /** Without new stops, `modify_trade` resends and reports the position's current stops. */
  lemma ModifyWithoutStops(t: TerminalState, broker: Broker, ticket: int)
    requires PositionOf(t, ticket).Some? && InfoOf(t, PositionOf(t, ticket).value.symbol).Some?
    ensures var p := PositionOf(t, ticket).value;
      var (r, sent) := ModifyOutcome(t, broker, ticket, None, None);
      && sent == [ModifyRequest(p.symbol, ticket, p.sl, p.tp)]
      && (r.Success? ==> r.value == Modified(ticket, Some(p.sl), Some(p.tp)))
  {
  }

  method ModifyTrade(c: Connection.MT5Client, probe: Connection.Probe, env: Connection.Environment,
                     t: TerminalState, broker: Broker, ticket: int, sl: Option<real>, tp: Option<real>)
    returns (r: Result<Modified, TradeFailure>, sent: seq<TradeRequest>)
    requires c.Valid()
    modifies c
    ensures c.Valid()
    ensures !c.connected ==> r == Failure(ConnectionFailed) && sent == []
    ensures c.connected ==> (r, sent) == ModifyOutcome(t, broker, ticket, sl, tp)
  {
    var ok, _ := c.EnsureInitialized(probe, env);
    if !ok {
      return Failure(ConnectionFailed), [];
    }
    r, sent := ModifyOutcome(t, broker, ticket, sl, tp).0, ModifyOutcome(t, broker, ticket, sl, tp).1;
  }

  /*** close_trade and partial_close_trade ***/

  /** The request closing `volume` of position `p` at `price` with filling mode `mode`. */
  function CloseRequest(p: Position, volume: real, price: real, comment: Comment, mode: int): TradeRequest {
    OrderRequest(Deal, p.symbol, volume, Opposite(p.direction), price, 0.0, 0.0,
                 Some(p.ticket), Some(DEVIATION), Some(mode), comment)
  }

  /** A closing deal sells at the bid and buys at the ask. */
  function ClosePrice(p: Position, tick: Tick): real {
    if p.direction == Buy then tick.bid else tick.ask
  }

  /** A reply after which the close loops try the next filling mode. */
  predicate Skips(r: Reply) {
    (r.NoResult? && r.lastError == RETCODE_INVALID_FILL) || (r.Result? && r.retcode == RETCODE_INVALID_FILL)
  }

  /** The close loop's verdict on a reply that does not skip. */
  function CloseVerdict(reply: Reply): Result<(), TradeFailure> {
    match reply
    case NoResult(code) => Failure(SendNoResult(code))
    case Result(code, _) => if code == RETCODE_DONE then Success(()) else Failure(Refused(code))
  }

  /**
   * The filling-mode loop of `close_trade` and `partial_close_trade`: one
   * request per mode, the n-th request for `modes[n]`, moving on only after
   * an invalid-fill answer.
   */
  function CloseWalk(broker: Broker, p: Position, volume: real, price: real, comment: Comment,
                     modes: seq<int>, sent: seq<TradeRequest>): (r: (Result<(), TradeFailure>, seq<TradeRequest>))
    requires |sent| <= |modes|
    ensures r.0.Failure? ==> r.0.error.NoFillingModeWorked? || r.0.error.SendNoResult? || r.0.error.Refused?
    decreases |modes| - |sent|
  {
    if |sent| == |modes| then (Failure(NoFillingModeWorked), sent)
    else
      var request := CloseRequest(p, volume, price, comment, modes[|sent|]);
      var reply := broker(|sent|, request);
      if Skips(reply) then CloseWalk(broker, p, volume, price, comment, modes, sent + [request])
      else (CloseVerdict(reply), sent + [request])
  }

  method SendClose(broker: Broker, p: Position, volume: real, price: real, comment: Comment, modes: seq<int>)
    returns (r: Result<(), TradeFailure>, sent: seq<TradeRequest>)
    ensures (r, sent) == CloseWalk(broker, p, volume, price, comment, modes, [])
  {
    sent := [];
    var i := 0;
    while i < |modes|
      invariant i == |sent| <= |modes|
      invariant CloseWalk(broker, p, volume, price, comment, modes, sent) == CloseWalk(broker, p, volume, price, comment, modes, [])
    {
      var request := CloseRequest(p, volume, price, comment, modes[i]);
      var reply := broker(i, request);
      sent := sent + [request];
      i := i + 1;
      if !Skips(reply) {
        r := CloseVerdict(reply);
        return;
      }
    }
    r := Failure(NoFillingModeWorked);
  }

  /** The last reply of a close walk. */
  function LastReply(broker: Broker, sent: seq<TradeRequest>): Reply
    requires |sent| > 0
  {
    broker(|sent| - 1, sent[|sent| - 1])
  }

  /** The requests of a close walk: one per mode, in order, and every reply before the last skipped. */
  lemma {:induction false} CloseWalkRequests(broker: Broker, p: Position, volume: real, price: real, comment: Comment,
                                             modes: seq<int>, sent: seq<TradeRequest>)
    requires |sent| <= |modes|
    ensures var (r, s) := CloseWalk(broker, p, volume, price, comment, modes, sent);
      && sent <= s && |s| <= |modes|
      && (|sent| < |modes| ==> |s| > |sent|)
      && (forall k :: |sent| <= k < |s| ==> s[k] == CloseRequest(p, volume, price, comment, modes[k]))
      && (forall k :: |sent| <= k < |s| - 1 ==> Skips(broker(k, s[k])))
    decreases |modes| - |sent|
  {
    if |sent| < |modes| {
      var request := CloseRequest(p, volume, price, comment, modes[|sent|]);
      if Skips(broker(|sent|, request)) {
        CloseWalkRequests(broker, p, volume, price, comment, modes, sent + [request]);
      }
    }
  }

  /**
   * How a close walk ends: success exactly on a DONE reply to its last
   * request; running out of modes exactly when every mode was answered with
   * an invalid fill; any other reply refuses the close.
   */
  lemma {:induction false} CloseWalkOutcome(broker: Broker, p: Position, volume: real, price: real, comment: Comment,
                                            modes: seq<int>, sent: seq<TradeRequest>)
    requires |sent| <= |modes|
    ensures var (r, s) := CloseWalk(broker, p, volume, price, comment, modes, sent);
      && (r.Success? <==> |s| > |sent| && IsDone(LastReply(broker, s)))
      && (r == Failure(NoFillingModeWorked) <==>
            |s| == |modes| && forall k :: |sent| <= k < |s| ==> Skips(broker(k, s[k])))
      && (r.Failure? && !r.error.NoFillingModeWorked? ==>
            |s| > |sent| && !Skips(LastReply(broker, s)) && r == CloseVerdict(LastReply(broker, s)))
    decreases |modes| - |sent|
  {
    CloseWalkRequests(broker, p, volume, price, comment, modes, sent);
    if |sent| < |modes| {
      var request := CloseRequest(p, volume, price, comment, modes[|sent|]);
      if Skips(broker(|sent|, request)) {
        CloseWalkOutcome(broker, p, volume, price, comment, modes, sent + [request]);
        CloseWalkRequests(broker, p, volume, price, comment, modes, sent + [request]);
      }
    }
  }

  /** `close_trade` once connected. */
  function CloseOutcome(t: TerminalState, broker: Broker, ticket: int): (Result<(), TradeFailure>, seq<TradeRequest>) {
    match PositionOf(t, ticket)
    case None => (Failure(NotFound), [])
    case Some(p) =>
      match TickOf(t, p.symbol)
      case None => (Failure(NoTick(t.lastError)), [])
      case Some(tick) =>
        CloseWalk(broker, p, p.volume, ClosePrice(p, tick), CloseTag, FillingModes(InfoOf(t, p.symbol)), [])
  }

  /**
   * `close_trade` sends, for each mode it tries, a deal of the position's
   * whole volume in the opposite direction, at the bid for a buy and the ask
   * for a sell; it reports success exactly when the last reply is DONE.
   */
  lemma CloseSendsOpposite(t: TerminalState, broker: Broker, ticket: int)
    ensures var (r, sent) := CloseOutcome(t, broker, ticket);
      && (PositionOf(t, ticket).None? ==> r == Failure(NotFound) && sent == [])
      && (forall k :: 0 <= k < |sent| ==>
            var p := PositionOf(t, ticket).value;
            && PositionOf(t, ticket).Some? && TickOf(t, p.symbol).Some?
            && k < |FillingModes(InfoOf(t, p.symbol))|
            && sent[k] == CloseRequest(p, p.volume, ClosePrice(p, TickOf(t, p.symbol).value), CloseTag,
                                       FillingModes(InfoOf(t, p.symbol))[k])
            && sent[k].orderType == Opposite(p.direction)
            && sent[k].price == (if p.direction == Buy then TickOf(t, p.symbol).value.bid else TickOf(t, p.symbol).value.ask))
      && (r.Success? <==> |sent| > 0 && IsDone(LastReply(broker, sent)))
  {
    if PositionOf(t, ticket).Some? && TickOf(t, PositionOf(t, ticket).value.symbol).Some? {
      var p := PositionOf(t, ticket).value;
      var tick := TickOf(t, p.symbol).value;
      var modes := FillingModes(InfoOf(t, p.symbol));
      CloseWalkRequests(broker, p, p.volume, ClosePrice(p, tick), CloseTag, modes, []);
      CloseWalkOutcome(broker, p, p.volume, ClosePrice(p, tick), CloseTag, modes, []);
    }
  }

  method ClosePosition(c: Connection.MT5Client, probe: Connection.Probe, env: Connection.Environment,
                       t: TerminalState, broker: Broker, ticket: int)
    returns (r: Result<(), TradeFailure>, sent: seq<TradeRequest>)
    requires c.Valid()
    modifies c
    ensures c.Valid()
    ensures !c.connected ==> r == Failure(ConnectionFailed) && sent == []
    ensures c.connected ==> (r, sent) == CloseOutcome(t, broker, ticket)
  {
    var ok, _ := c.EnsureInitialized(probe, env);
    if !ok {
      return Failure(ConnectionFailed), [];
    }
    var position := PositionOf(t, ticket);
    if position.None? {
      return Failure(NotFound), [];
    }
    var p := position.value;
    var tick := TickOf(t, p.symbol);
    if tick.None? {
      return Failure(NoTick(t.lastError)), [];
    }
    r, sent := SendClose(broker, p, p.volume, ClosePrice(p, tick.value), CloseTag, FillingModes(InfoOf(t, p.symbol)));
  }

  /** The success response of `partial_close_trade`: a partial close, or the full close it redirects to. */
  datatype PartialClosed =
    | Partial(ticket: int, volumeClosed: real, percent: real, remaining: real)
    | Full

  /** The share of the position to close, normalised to the symbol's volume limits. */
  function CloseShare(p: Position, info: SymbolInfo, percent: real): VolumeResult {
    NormalizeVolume(p.volume * percent / 100.0, info)
  }

  /**
   * `partial_close_trade` once connected, with the normalised volume
   * unpacked and its error reported as intended.
   */
  function PartialCloseOutcome(t: TerminalState, broker: Broker, ticket: int, percent: real)
    : (Result<PartialClosed, TradeFailure>, seq<TradeRequest>)
  {
    if percent <= 0.0 || percent >= 100.0 then (Failure(PercentOutOfRange), [])
    else match PositionOf(t, ticket)
    case None => (Failure(NotFound), [])
    case Some(p) =>
      match InfoOf(t, p.symbol)
      case None => (Failure(NoSymbolInfo(t.lastError)), [])
      case Some(info) =>
        match CloseShare(p, info, percent)
        case Rejected(e) => (Failure(VolumeRejected(e)), [])
        case Normalized(volume) => CloseShareOf(t, broker, p, info, percent, volume)
  }

  /** The part of `partial_close_trade` after the volume is normalised. */
  function CloseShareOf(t: TerminalState, broker: Broker, p: Position, info: SymbolInfo, percent: real, volume: real)
    : (r: (Result<PartialClosed, TradeFailure>, seq<TradeRequest>))
    ensures r.0.Failure? ==> !r.0.error.PercentOutOfRange?
  {
    if volume >= p.volume then
      var (closed, sent) := CloseOutcome(t, broker, p.ticket);
      (if closed.Success? then Success(Full) else Failure(closed.error), sent)
    else
      match TickOf(t, p.symbol)
      case None => (Failure(NoTick(t.lastError)), [])
      case Some(tick) =>
        var (walked, sent) := CloseWalk(broker, p, volume, ClosePrice(p, tick), PartialCloseTag(percent),
                                        FillingModes(Some(info)), []);
        (if walked.Success? then Success(Partial(p.ticket, volume, percent, p.volume - volume)) else Failure(walked.error), sent)
  }

  /** A percentage outside (0, 100) is refused before anything else, and nothing is sent. */
  lemma PartialCloseRejectsPercent(t: TerminalState, broker: Broker, ticket: int, percent: real)
    ensures PartialCloseOutcome(t, broker, ticket, percent).0 == Failure(PercentOutOfRange)
        <==> percent <= 0.0 || percent >= 100.0
    ensures percent <= 0.0 || percent >= 100.0 ==> PartialCloseOutcome(t, broker, ticket, percent).1 == []
  {
  }

  /** When the normalised share reaches the position's volume, the whole position is closed instead. */
  lemma PartialCloseRedirects(t: TerminalState, broker: Broker, ticket: int, percent: real)
    requires 0.0 < percent < 100.0 && PositionOf(t, ticket).Some?
    requires InfoOf(t, PositionOf(t, ticket).value.symbol).Some?
    requires var p := PositionOf(t, ticket).value;
      var v := CloseShare(p, InfoOf(t, p.symbol).value, percent);
      v.Normalized? && v.volume >= p.volume
    ensures PartialCloseOutcome(t, broker, ticket, percent).1 == CloseOutcome(t, broker, ticket).1
    ensures PartialCloseOutcome(t, broker, ticket, percent).0.Success?
        <==> CloseOutcome(t, broker, ticket).0.Success?
  {
  }

  /**
   * A partial close that succeeds as such closed a normalised volume smaller
   * than the position's and reports the rest as remaining; every request it
   * sent was an opposite deal of exactly that volume.
   */
  lemma PartialCloseReportsRemaining(t: TerminalState, broker: Broker, ticket: int, percent: real)
    ensures var (r, sent) := PartialCloseOutcome(t, broker, ticket, percent);
      r.Success? && r.value.Partial? ==>
        && PositionOf(t, ticket).Some? && InfoOf(t, PositionOf(t, ticket).value.symbol).Some?
        && var p := PositionOf(t, ticket).value;
           var info := InfoOf(t, p.symbol).value;
           && 0.0 < percent < 100.0
           && r.value.ticket == ticket && r.value.percent == percent
           && CloseShare(p, info, percent) == Normalized(r.value.volumeClosed)
           && MinVolume(info) <= r.value.volumeClosed < p.volume
           && r.value.remaining == p.volume - r.value.volumeClosed > 0.0
           && |sent| > 0 && IsDone(LastReply(broker, sent))
           && forall k :: 0 <= k < |sent| ==>
                && sent[k].OrderRequest? && sent[k].volume == r.value.volumeClosed
                && sent[k].orderType == Opposite(p.direction)
                && sent[k].comment == PartialCloseTag(percent)
  {
    var (r, sent) := PartialCloseOutcome(t, broker, ticket, percent);
    if r.Success? && r.value.Partial? {
      var p := PositionOf(t, ticket).value;
      var info := InfoOf(t, p.symbol).value;
      var volume := CloseShare(p, info, percent).volume;
      var tick := TickOf(t, p.symbol).value;
      CloseWalkRequests(broker, p, volume, ClosePrice(p, tick), PartialCloseTag(percent), FillingModes(Some(info)), []);
      CloseWalkOutcome(broker, p, volume, ClosePrice(p, tick), PartialCloseTag(percent), FillingModes(Some(info)), []);
    }
  }

  /**
   * `partial_close_trade` as written: `_normalize_volume` is called without
   * its `symbol` argument, so every request that gets past the symbol
   * information raises `TypeError`, caught as an exception; nothing is sent.
   */
  function PartialCloseAsWritten(t: TerminalState, ticket: int, percent: real): (r: Result<PartialClosed, TradeFailure>)
    ensures r.Failure?
  {
    if percent <= 0.0 || percent >= 100.0 then Failure(PercentOutOfRange)
    else match PositionOf(t, ticket)
    case None => Failure(NotFound)
    case Some(p) =>
      match InfoOf(t, p.symbol)
      case None => Failure(NoSymbolInfo(t.lastError))
      case Some(_) => Failure(Exception)
  }

  /**
   * Every partial close the intended code performs or even attempts, the code
   * as written turns into an exception.
   */
  lemma PartialCloseAsWrittenNeverCloses(t: TerminalState, broker: Broker, ticket: int, percent: real)
    ensures PartialCloseOutcome(t, broker, ticket, percent).0.Success? ==>
      PartialCloseAsWritten(t, ticket, percent) == Failure(Exception)
    ensures |PartialCloseOutcome(t, broker, ticket, percent).1| > 0 ==>
      PartialCloseAsWritten(t, ticket, percent) == Failure(Exception)
  {
  }

  /** A position of 1.0 lot whose half-close is accepted as intended and raises as written. */
  lemma PartialCloseAsWrittenWitness(broker: Broker)
    ensures
      var p := Position(5, "A", Buy, 1.0, 1.0, 0.0, 0.0, 0);
      var t := TerminalState(map[], true, [], map["A" := SymbolInfo(0.01, 100.0, 0.01, 0.01, 0, 1)],
                             map["A" := Tick(1.0, 1.1)], Some([p]), 0);
      && |PartialCloseOutcome(t, broker, 5, 50.0).1| > 0
      && PartialCloseAsWritten(t, 5, 50.0) == Failure(Exception)
  {
    var p := Position(5, "A", Buy, 1.0, 1.0, 0.0, 0.0, 0);
    var t := TerminalState(map[], true, [], map["A" := SymbolInfo(0.01, 100.0, 0.01, 0.01, 0, 1)],
                           map["A" := Tick(1.0, 1.1)], Some([p]), 0);
    assert PositionOf(t, 5) == Some(p);
    assert 1.0 * 50.0 / 100.0 == 0.5;
    RoundOfInteger(50);
    assert NormalizeVolume(0.5, t.infos["A"]) == Normalized(0.5);
    var modes := FillingModes(Some(t.infos["A"]));
    CloseWalkRequests(broker, p, 0.5, 1.0, PartialCloseTag(50.0), modes, []);
  }

  method PartialClose(c: Connection.MT5Client, probe: Connection.Probe, env: Connection.Environment,
                      t: TerminalState, broker: Broker, ticket: int, percent: real)
    returns (r: Result<PartialClosed, TradeFailure>, sent: seq<TradeRequest>)
    requires c.Valid()
    modifies c
    ensures c.Valid()
    ensures !c.connected ==> r == Failure(ConnectionFailed) && sent == []
    ensures c.connected ==> (r, sent) == PartialCloseOutcome(t, broker, ticket, percent)
  {
    var ok, _ := c.EnsureInitialized(probe, env);
    if !ok {
      return Failure(ConnectionFailed), [];
    }
    if percent <= 0.0 || percent >= 100.0 {
      return Failure(PercentOutOfRange), [];
    }
    var position := PositionOf(t, ticket);
    if position.None? {
      return Failure(NotFound), [];
    }
    var p := position.value;
    var info := InfoOf(t, p.symbol);
    if info.None? {
      return Failure(NoSymbolInfo(t.lastError)), [];
    }
    var normalized := CloseShare(p, info.value, percent);
    if normalized.Rejected? {
      return Failure(VolumeRejected(normalized.error)), [];
    }
    var volume := normalized.volume;
    if volume >= p.volume {
      var closed, closeSent := CloseOutcome(t, broker, p.ticket).0, CloseOutcome(t, broker, p.ticket).1;
      r := if closed.Success? then Success(Full) else Failure(closed.error);
      sent := closeSent;
      return;
    }
    var tick := TickOf(t, p.symbol);
    if tick.None? {
      return Failure(NoTick(t.lastError)), [];
    }
    var walked;
    walked, sent := SendClose(broker, p, volume, ClosePrice(p, tick.value), PartialCloseTag(percent), FillingModes(info));
    r := if walked.Success? then Success(Partial(ticket, volume, percent, p.volume - volume)) else Failure(walked.error);
  }

  /*** get_open_positions ***/

  /**
   * One entry of the `positions` list.  A stop that is not positive is
   * reported as `None`; `openTime` is `None` when the terminal gives no open
   * time (the current time is reported then).
   */
  datatype PositionSummary = PositionSummary(
    symbol: string,
    ticket: int,
    direction: Direction,
    volume: real,
    openPrice: real,
    sl: Option<real>,
    tp: Option<real>,
    openTime: Option<int>)

  function Summary(p: Position): (s: PositionSummary)
    ensures s.sl.Some? <==> p.sl > 0.0
    ensures s.tp.Some? <==> p.tp > 0.0
    ensures s.sl.Some? ==> s.sl.value == p.sl
    ensures s.tp.Some? ==> s.tp.value == p.tp
  {
    PositionSummary(p.symbol, p.ticket, p.direction, p.volume, p.priceOpen,
                    if p.sl > 0.0 then Some(p.sl) else None,
                    if p.tp > 0.0 then Some(p.tp) else None,
                    if p.timeOpen != 0 then Some(p.timeOpen) else None)
  }

  /** `RES_S_OK`, the `last_error()` code meaning no error. */
  const RES_S_OK: int := 1

  /**
   * `get_open_positions` once connected: every position summarised in the
   * terminal's order; a failed `positions_get` whose error code is 0 or
   * `RES_S_OK` counts as no positions.
   */
  method ListPositions(t: TerminalState) returns (r: Result<seq<PositionSummary>, TradeFailure>)
    ensures t.positions.None? ==>
      (r == Success([]) <==> t.lastError == RES_S_OK || t.lastError == 0)
    ensures t.positions.None? && r.Failure? ==> r.error == PositionsUnavailable(t.lastError)
    ensures t.positions.Some? ==> r.Success? && |r.value| == |t.positions.value|
    ensures t.positions.Some? ==>
      forall k :: 0 <= k < |t.positions.value| ==> r.value[k] == Summary(t.positions.value[k])
  {
    if t.positions.None? {
      if t.lastError == RES_S_OK || t.lastError == 0 {
        return Success([]);
      }
      return Failure(PositionsUnavailable(t.lastError));
    }
    var positions := t.positions.value;
    var list: seq<PositionSummary> := [];
    for i := 0 to |positions|
      invariant |list| == i
      invariant forall k :: 0 <= k < i ==> list[k] == Summary(positions[k])
    {
      list := list + [Summary(positions[i])];
    }
    return Success(list);
  }

  method GetOpenPositions(c: Connection.MT5Client, probe: Connection.Probe, env: Connection.Environment,
                          t: TerminalState)
    returns (r: Result<seq<PositionSummary>, TradeFailure>)
    requires c.Valid()
    modifies c
    ensures c.Valid()
    ensures !c.connected <==> r == Failure(ConnectionFailed)
    ensures c.connected && t.positions.None? ==>
      (r == Success([]) <==> t.lastError == RES_S_OK || t.lastError == 0)
    ensures c.connected && t.positions.None? && r.Failure? ==> r.error == PositionsUnavailable(t.lastError)
    ensures c.connected && t.positions.Some? ==> r.Success? && |r.value| == |t.positions.value|
    ensures c.connected && t.positions.Some? ==>
      forall k :: 0 <= k < |t.positions.value| ==> r.value[k] == Summary(t.positions.value[k])
  {
    var ok, _ := c.EnsureInitialized(probe, env);
    if !ok {
      return Failure(ConnectionFailed);
    }
    r := ListPositions(t);
  }
}
