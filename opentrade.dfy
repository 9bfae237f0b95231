/**
 * `open_trade`: the checks made before anything is sent (connection,
 * symbol, quote, order kind, entry side), the volume and stops that go into
 * the order, the filling modes it is walked over, and the response built
 * from the send loop's outcome.
 */
module OpenTrade {
  import opened Wrappers
  import opened Text
  import opened Terminal
  import opened Normalizer
  import opened Stops
  import opened Filling
  import opened Symbols
  import opened Submit
  import Connection

  /**
   * The request dictionary handed to `open_trade`.  `None` stands for a key
   * that is absent; every caller builds the dictionary from literals, so a
   * key holding `None` (on which `.get(key, default).lower()` would raise)
   * does not arise.
   */
  datatype OpenRequest = OpenRequest(
    symbol: string,
    direction: string,
    orderKind: Option<string>,
    lotSize: real,
    entryPrice: Option<real>,
    stopLoss: Option<real>,
    stopLossPrice: Option<real>,
    takeProfit: Option<real>,
    takeProfitPrice: Option<real>,
    strategy: Option<string>)

  datatype OrderKind = Market | Limit | StopOrder | UnknownKind

  /** `request.get('order_kind', 'market').lower()`. */
  function KindName(kind: Option<string>): string {
    if kind.None? then "market" else Lower(kind.value)
  }

  function KindOf(kind: Option<string>): OrderKind {
    var name := KindName(kind);
    if name == "market" then Market
    else if name == "limit" then Limit
    else if name == "stop" then StopOrder
    else UnknownKind
  }

  /** `direction.lower() == "buy"`; every other direction is treated as a sell. */
  function DirectionOf(s: string): Direction {
    if Lower(s) == "buy" then Buy else Sell
  }

  /** `request.get('strategy', 'unknown')`. */
  function StrategyOf(req: OpenRequest): string {
    if req.strategy.None? then "unknown" else req.strategy.value
  }

  /** Python's `a or b` on two optional prices: `a` unless it is missing or zero. */
  function Either(a: Option<real>, b: Option<real>): Option<real> {
    if a.Some? && a.value != 0.0 then a else b
  }

  function RequestedSl(req: OpenRequest): Option<real> {
    Either(req.stopLoss, req.stopLossPrice)
  }

  function RequestedTp(req: OpenRequest): Option<real> {
    Either(req.takeProfit, req.takeProfitPrice)
  }

  datatype OpenError =
    | ConnectionFailed
    | InvalidSymbol(hint: Hint)              // error_code -10002
    | NoTick(code: int)                      // last_error() code, or -10003 when it is 0
    | NoSymbolInfo(code: int)
    | InvalidOrderKind(kind: string)         // error_code -10007
    | EntryPriceRequired
    | EntryOnWrongSide(orderType: OrderType)
    | VolumeRejected(error: VolumeError)
    | SendFailed(failure: SendFailure)
    | Exception                              // error_code -10011

  /** The order type for a known kind and direction. */
  function OrderTypeFor(kind: OrderKind, d: Direction): OrderType
    requires kind != UnknownKind
  {
    match kind
    case Market => if d == Buy then BuyMarket else SellMarket
    case Limit => if d == Buy then BuyLimit else SellLimit
    case StopOrder => if d == Buy then BuyStop else SellStop
  }

  predicate IsBuy(ot: OrderType) {
    ot == BuyMarket || ot == BuyLimit || ot == BuyStop
  }

  /** Where the entry price of each order type lies relative to the current quote. */
  predicate PriceFits(ot: OrderType, price: real, tick: Tick) {
    match ot
    case BuyMarket => price == tick.ask
    case SellMarket => price == tick.bid
    case BuyLimit => 0.0 < price < tick.ask
    case BuyStop => 0.0 < price && tick.ask < price
    case SellLimit => 0.0 < price && tick.bid < price
    case SellStop => 0.0 < price < tick.bid
  }

  /** The symbol resolves and the terminal has both a tick and symbol information for it. */
  predicate Quoted(t: TerminalState, req: OpenRequest) {
    && Resolve(t, req.symbol).Resolved?
    && TickOf(t, Resolve(t, req.symbol).name).Some?
    && InfoOf(t, Resolve(t, req.symbol).name).Some?
  }

  function QuoteOf(t: TerminalState, req: OpenRequest): Tick
    requires Quoted(t, req)
  {
    TickOf(t, Resolve(t, req.symbol).name).value
  }

  /** What the checks before volume normalisation establish. */
  datatype Setup = Setup(
    symbol: string,
    info: SymbolInfo,
    direction: Direction,
    action: Action,
    orderType: OrderType,
    price: real)

  /** The checks of `open_trade` up to the order type and entry price. */
  function Prepare(t: TerminalState, req: OpenRequest): (r: Result<Setup, OpenError>)
    ensures r.Failure? && r.error.InvalidSymbol? <==> Resolve(t, req.symbol).Unresolved?
    ensures r.Failure? && r.error.NoTick? ==>
      r.error.code != 0 && (t.lastError != 0 ==> r.error.code == t.lastError)
    ensures r.Failure? && r.error.InvalidOrderKind? <==>
      Quoted(t, req) && KindOf(req.orderKind) == UnknownKind
    ensures r.Failure? && r.error.EntryPriceRequired? <==>
      && Quoted(t, req) && KindOf(req.orderKind) in {Limit, StopOrder}
      && (req.entryPrice.None? || req.entryPrice.value <= 0.0)
    ensures r.Failure? && r.error.EntryOnWrongSide? <==>
      && Quoted(t, req) && KindOf(req.orderKind) in {Limit, StopOrder}
      && req.entryPrice.Some? && req.entryPrice.value > 0.0
      && !PriceFits(OrderTypeFor(KindOf(req.orderKind), DirectionOf(req.direction)), req.entryPrice.value, QuoteOf(t, req))
    // nothing has been sent, normalised or caught yet
    ensures r.Failure? ==>
      !r.error.ConnectionFailed? && !r.error.VolumeRejected? && !r.error.SendFailed? && !r.error.Exception?
    ensures r.Success? ==>
      && Quoted(t, req)
      && r.value.symbol == Resolve(t, req.symbol).name
      && InfoOf(t, r.value.symbol) == Some(r.value.info)
      && r.value.direction == DirectionOf(req.direction)
      && (IsBuy(r.value.orderType) <==> r.value.direction == Buy)
      && (r.value.action == Deal || r.value.action == Pending)
      && (r.value.action == Deal <==> KindOf(req.orderKind) == Market)
      && (r.value.action == Deal <==> r.value.orderType in {BuyMarket, SellMarket})
      && PriceFits(r.value.orderType, r.value.price, QuoteOf(t, req))
  {
    match Resolve(t, req.symbol)
    case Unresolved(_, hint) => Failure(InvalidSymbol(hint))
    case Resolved(name, _) =>
      if TickOf(t, name).None? then
        Failure(NoTick(if t.lastError != 0 then t.lastError else -10003))
      else if InfoOf(t, name).None? then
        Failure(NoSymbolInfo(t.lastError))
      else
        Checked(req, name, InfoOf(t, name).value, TickOf(t, name).value)
  }

  /** The order kind and entry price checks of `open_trade`, against the quote of the resolved symbol. */
  function Checked(req: OpenRequest, name: string, info: SymbolInfo, tick: Tick): (r: Result<Setup, OpenError>)
    ensures r.Failure? ==>
      r.error.InvalidOrderKind? || r.error.EntryPriceRequired? || r.error.EntryOnWrongSide?
    ensures r.Failure? && r.error.InvalidOrderKind? <==> KindOf(req.orderKind) == UnknownKind
    ensures r.Failure? && r.error.EntryPriceRequired? <==>
      && KindOf(req.orderKind) in {Limit, StopOrder}
      && (req.entryPrice.None? || req.entryPrice.value <= 0.0)
    ensures r.Failure? && r.error.EntryOnWrongSide? <==>
      && KindOf(req.orderKind) in {Limit, StopOrder}
      && req.entryPrice.Some? && req.entryPrice.value > 0.0
      && !PriceFits(OrderTypeFor(KindOf(req.orderKind), DirectionOf(req.direction)), req.entryPrice.value, tick)
    ensures r.Success? ==>
      && r.value.symbol == name && r.value.info == info
      && r.value.direction == DirectionOf(req.direction)
      && (IsBuy(r.value.orderType) <==> r.value.direction == Buy)
      && (r.value.action == Deal || r.value.action == Pending)
      && (r.value.action == Deal <==> KindOf(req.orderKind) == Market)
      && (r.value.action == Deal <==> r.value.orderType in {BuyMarket, SellMarket})
      && PriceFits(r.value.orderType, r.value.price, tick)
  {
    var d := DirectionOf(req.direction);
    var kind := KindOf(req.orderKind);
    if kind == UnknownKind then
      Failure(InvalidOrderKind(KindName(req.orderKind)))
    else if kind == Market then
      Success(Setup(name, info, d, Deal, OrderTypeFor(kind, d), if d == Buy then tick.ask else tick.bid))
    else if req.entryPrice.None? || req.entryPrice.value <= 0.0 then
      Failure(EntryPriceRequired)
    else
      var entry := req.entryPrice.value;
      var ot := OrderTypeFor(kind, d);
      var sideOk :=
        if ot == BuyLimit then entry < tick.ask
        else if ot == BuyStop then entry > tick.ask
        else if ot == SellLimit then entry > tick.bid
        else entry < tick.bid;
      if !sideOk then Failure(EntryOnWrongSide(ot))
      else Success(Setup(name, info, d, Pending, ot, entry))
  }

  /**
   * A protective level as sent: 0.0 for none, otherwise on `side` of the
   * entry and at least the minimum distance from it; a requested level that
   * already was is sent as it is, and a missing, non-positive or wrong-side
   * one is not sent.
   */
  predicate StopPlaced(side: Side, entry: real, dist: real, requested: Option<real>, level: real) {
    && (level == 0.0 || (OnSide(side, entry, level) && FarEnough(side, entry, dist, level)))
    && (requested.Some? && requested.value > 0.0 && OnSide(side, entry, requested.value)
        && FarEnough(side, entry, dist, requested.value)
        ==> level == requested.value)
    && (requested.None? || requested.value <= 0.0 || !OnSide(side, entry, requested.value) ==> level == 0.0)
  }

  /** The order `open_trade` sends and the filling modes it walks. */
  datatype Plan = Plan(setup: Setup, order: Order, modes: seq<int>)

  /** Everything the plan for `req` must satisfy, given the setup it was built on. */
  predicate Sendable(p: Plan, req: OpenRequest) {
    var s := p.setup;
    var o := p.order;
    && o.action == s.action && o.symbol == s.symbol && o.orderType == s.orderType && o.price == s.price
    && o.strategy == StrategyOf(req)
    && MinVolume(s.info) <= o.volume && OnGrid(o.volume, VolumeStep(s.info))
    && Abs(o.volume - Clamped(req.lotSize, s.info)) <= Abs(VolumeStep(s.info)) / 2.0
    && StopPlaced(StopLossSide(s.direction), s.price, MinStopDistance(s.info), RequestedSl(req), o.sl)
    && StopPlaced(TakeProfitSide(s.direction), s.price, MinStopDistance(s.info), RequestedTp(req), o.tp)
    && (o.action == Deal ==> p.modes == FillingModes(Some(s.info)))
    && (o.action == Pending ==> p.modes == [RETURN])
  }

  /** The adjusted stops: a request with neither stop is sent naked. */
  function PlannedStops(s: Setup, req: OpenRequest): (Option<real>, Option<real>) {
    if RequestedSl(req).None? && RequestedTp(req).None? then (None, None)
    else AdjustStops(s.info, s.price, RequestedSl(req), RequestedTp(req), s.direction)
  }

  function OrZero(x: Option<real>): real {
    if x.Some? then x.value else 0.0
  }

  /** Adjusting the requested stops places each of them as `StopPlaced` describes. */
  lemma StopsPlaced(s: Setup, req: OpenRequest)
    ensures StopPlaced(StopLossSide(s.direction), s.price, MinStopDistance(s.info), RequestedSl(req),
                       OrZero(PlannedStops(s, req).0))
    ensures StopPlaced(TakeProfitSide(s.direction), s.price, MinStopDistance(s.info), RequestedTp(req),
                       OrZero(PlannedStops(s, req).1))
  {
    var sl := AdjustLevel(s.info, s.price, RequestedSl(req), StopLossSide(s.direction));
    var tp := AdjustLevel(s.info, s.price, RequestedTp(req), TakeProfitSide(s.direction));
    assert RequestedSl(req).None? && RequestedTp(req).None? ==> sl.None? && tp.None?;
  }

  /** The order built on a setup: normalised volume, adjusted stops and the modes to walk. */
  function Build(s: Setup, req: OpenRequest): (r: Result<Plan, OpenError>)
    ensures r.Failure? <==> NormalizeVolume(req.lotSize, s.info).Rejected?
    ensures r.Failure? ==> r.error == VolumeRejected(NormalizeVolume(req.lotSize, s.info).error)
    ensures r.Success? ==> r.value.setup == s && Sendable(r.value, req)
  {
    match NormalizeVolume(req.lotSize, s.info)
    case Rejected(e) => Failure(VolumeRejected(e))
    case Normalized(volume) =>
      var stops := PlannedStops(s, req);
      StopsPlaced(s, req);
      var modes := if s.action == Deal then FillingModes(Some(s.info)) else [RETURN];
      Success(Plan(s, Order(s.action, s.symbol, volume, s.orderType, s.price,
                            OrZero(stops.0), OrZero(stops.1), StrategyOf(req)), modes))
  }

  /**
   * `open_trade` up to the first `order_send`, with the normalised volume
   * unpacked and its error reported, as `partial_close_trade` does.
   */
  function PlanOrder(t: TerminalState, req: OpenRequest): (r: Result<Plan, OpenError>)
    ensures Prepare(t, req).Failure? ==> r == Failure(Prepare(t, req).error)
    ensures r.Failure? && r.error.VolumeRejected? <==>
      Prepare(t, req).Success? && NormalizeVolume(req.lotSize, Prepare(t, req).value.info).Rejected?
    ensures r.Failure? && r.error.VolumeRejected? ==>
      r.error.error == NormalizeVolume(req.lotSize, Prepare(t, req).value.info).error
    ensures r.Success? ==> Prepare(t, req) == Success(r.value.setup) && Sendable(r.value, req)
  {
    match Prepare(t, req)
    case Failure(e) => Failure(e)
    case Success(s) => Build(s, req)
  }

  /** The success response of `open_trade`. */
  datatype Opened = Opened(ticket: int, symbol: string, volume: real, price: real, direction: string, orderKind: string)

  function Respond(p: Plan, req: OpenRequest, outcome: Result<int, SendFailure>): Result<Opened, OpenError> {
    match outcome
    case Success(ticket) =>
      Success(Opened(ticket, p.order.symbol, p.order.volume, p.order.price, req.direction, KindName(req.orderKind)))
    case Failure(f) => Failure(SendFailed(f))
  }

  /** The send loop run for a plan: the response and every request passed to `order_send`. */
  function Submitted(p: Plan, req: OpenRequest, broker: Broker): (r: (Result<Opened, OpenError>, seq<TradeRequest>))
    requires p.order.action == Deal || p.order.action == Pending
    // every request sent is the planned order, with its own stops or none
    ensures forall k :: 0 <= k < |r.1| ==> Conforms(p.order, p.modes, r.1[k])
    // a success reports the ticket of a DONE reply to the last request, and the order's symbol, volume and price
    ensures r.0.Success? ==>
      && |r.1| > 0 && IsDone(broker(|r.1| - 1, r.1[|r.1| - 1]))
      && r.0.value.ticket == broker(|r.1| - 1, r.1[|r.1| - 1]).order
      && r.0.value.symbol == p.order.symbol
      && r.0.value.volume == p.order.volume
      && r.0.value.price == p.order.price
  {
    SendAnswered(p.order, p.modes, broker);
    SendConforms(p.order, p.modes, broker);
    SendOutcome(p.order, p.modes, broker);
    var (outcome, trace) := Send(p.order, p.modes, broker);
    (Respond(p, req, outcome), trace.sent)
  }

  /**
   * `open_trade` once the connection is up, as intended: the response and
   * every request passed to `order_send`.
   */
  function OpenOutcome(t: TerminalState, broker: Broker, req: OpenRequest): (r: (Result<Opened, OpenError>, seq<TradeRequest>))
    // a request refused by the checks sends nothing
    ensures PlanOrder(t, req).Failure? ==> r == (Failure(PlanOrder(t, req).error), [])
    ensures PlanOrder(t, req).Success? ==>
      forall k :: 0 <= k < |r.1| ==> Conforms(PlanOrder(t, req).value.order, PlanOrder(t, req).value.modes, r.1[k])
    // a success reports the resolved symbol, the normalised volume and the entry price used
    ensures r.0.Success? ==>
      && PlanOrder(t, req).Success?
      && r.0.value.symbol == Resolve(t, req.symbol).name
      && r.0.value.volume == PlanOrder(t, req).value.order.volume
      && r.0.value.price == PlanOrder(t, req).value.setup.price
  {
    match PlanOrder(t, req)
    case Failure(e) => (Failure(e), [])
    case Success(p) => Submitted(p, req, broker)
  }

  /**
   * `open_trade` as written: `_normalize_volume` is called without its
   * `symbol` argument, so every request that passes the checks raises
   * `TypeError` and is answered with error code -10011; nothing is sent.
   */
  function OpenTradeAsWritten(t: TerminalState, req: OpenRequest): (r: Result<Opened, OpenError>)
    ensures r.Failure?
    ensures Prepare(t, req).Failure? ==> r == Failure(Prepare(t, req).error)
  {
    match Prepare(t, req)
    case Failure(e) => Failure(e)
    case Success(_) => Failure(Exception)
  }

  /**
   * Every request the intended `open_trade` accepts reaches `order_send`;
   * as written, the same request raises before anything is sent.
   */
  lemma OpenAsWrittenNeverSends(t: TerminalState, broker: Broker, req: OpenRequest)
    requires PlanOrder(t, req).Success?
    ensures |OpenOutcome(t, broker, req).1| > 0
    ensures OpenTradeAsWritten(t, req) == Failure(Exception)
  {
    var p := PlanOrder(t, req).value;
    SendUnrolled(p.order, p.modes, broker);
    var first := Walk(p.order, p.modes, broker, p.order.sl, p.order.tp, true, p.modes, 0, Trace([], [], [], false));
    WalkGrows(p.order, p.modes, broker, p.order.sl, p.order.tp, true, p.modes, 0, Trace([], [], [], false));
    var second := Walk(p.order, p.modes, broker, 0.0, 0.0, false, p.modes, 0, first.1);
    WalkGrows(p.order, p.modes, broker, 0.0, 0.0, false, p.modes, 0, first.1);
  }

  /** A terminal listing one visible symbol "A", quoted 1.0/1.1, with the default volume limits. */
  const WitnessTerminal: TerminalState :=
    TerminalState(map["A" := Listing(true, true)], true, ["A"],
                  map["A" := SymbolInfo(0.01, 100.0, 0.01, 0.01, 0, 1)],
                  map["A" := Tick(1.0, 1.1)], None, 0)

  /** A market buy of the minimum volume of "A", without stops. */
  const WitnessRequest: OpenRequest := OpenRequest("A", "buy", None, 0.01, None, None, None, None, None, None)

  /** The witness symbol resolves to itself, with no suffix. */
  lemma WitnessResolved()
    ensures Resolve(WitnessTerminal, WitnessRequest.symbol) == Resolved("A", false)
  {
    UpperFixed("A");
    assert Candidates("A")[0] == "A";
    assert Tradable(WitnessTerminal.listing, "A");
  }

  /** The witness request passes the checks before volume normalisation. */
  lemma WitnessPrepared()
    ensures Prepare(WitnessTerminal, WitnessRequest).Success?
  {
    WitnessResolved();
    LowerFixed("buy");
  }

  /** The witness request passes every check of the intended `open_trade`. */
  lemma WitnessPlanned()
    ensures PlanOrder(WitnessTerminal, WitnessRequest).Success?
  {
    WitnessPrepared();
    WitnessNormalized();
  }

  /** The minimum volume of the witness symbol is accepted as it is. */
  lemma WitnessNormalized()
    ensures NormalizeVolume(WitnessRequest.lotSize, WitnessTerminal.infos["A"]).Normalized?
  {
    RoundOfInteger(1);
  }

  /** The witness request reaches `order_send` as intended and raises as written. */
  lemma OpenAsWrittenWitness(broker: Broker)
    ensures |OpenOutcome(WitnessTerminal, broker, WitnessRequest).1| > 0
    ensures OpenTradeAsWritten(WitnessTerminal, WitnessRequest) == Failure(Exception)
  {
    WitnessPlanned();
    OpenAsWrittenNeverSends(WitnessTerminal, broker, WitnessRequest);
  }

  /**
   * `open_trade`: the connection check, then the checks and the send loop.
   * The client's flags change only through `ensure_initialized`.
   */
  method OpenTrade(c: Connection.MT5Client, probe: Connection.Probe, env: Connection.Environment,
                   t: TerminalState, broker: Broker, req: OpenRequest)
    returns (r: Result<Opened, OpenError>, sent: seq<TradeRequest>)
    requires c.Valid()
    modifies c
    ensures c.Valid()
    ensures !c.connected ==> r == Failure(ConnectionFailed) && sent == []
    ensures c.connected ==> (r, sent) == OpenOutcome(t, broker, req)
  {
    var ok, _ := c.EnsureInitialized(probe, env);
    if !ok {
      return Failure(ConnectionFailed), [];
    }
    var resolution := ValidateSymbol(t, req.symbol);
    assert resolution == Resolve(t, req.symbol);
    var plan := PlanOrder(t, req);
    if plan.Failure? {
      return Failure(plan.error), [];
    }
    var p := plan.value;
    var outcome, requests, _, _ := SendOrder(p.order, p.modes, broker);
    r, sent := Respond(p, req, outcome), requests;
    assert (r, sent) == Submitted(p, req, broker);
  }
}
