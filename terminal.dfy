/**
 * The MetaTrader 5 terminal as the connector sees it.  Every call into the
 * native library is replaced by an answer read from a snapshot of the
 * terminal (`TerminalState`) or, for `order_send`, from a `Broker` function
 * that answers the n-th request sent during one operation.
 */
module Terminal {
  import opened Wrappers

  datatype Direction = Buy | Sell

  /** The fields of `symbol_info_tick` the core reads. */
  datatype Tick = Tick(bid: real, ask: real)

  /**
   * The fields of `symbol_info` the core reads.  A volume attribute that is
   * missing, `None` or zero is written 0.0, a missing stops level 0.
   */
  datatype SymbolInfo = SymbolInfo(
    volumeMin: real,
    volumeMax: real,
    volumeStep: real,
    point: real,
    stopsLevel: int,
    fillingMode: int)

  /** What `symbol_info(name).visible` and `symbol_select(name, True)` answer for a listed symbol. */
  datatype Listing = Listing(visible: bool, selectable: bool)

  /** An open position as returned by `positions_get` (`type == ORDER_TYPE_BUY` is `Buy`). */
  datatype Position = Position(
    ticket: int,
    symbol: string,
    direction: Direction,
    volume: real,
    priceOpen: real,
    sl: real,
    tp: real,
    timeOpen: int)

  /**
   * One snapshot of the terminal.  `listing` answers the symbol resolver,
   * `infos` the later `symbol_info` calls of a trade operation; they are
   * separate answers of separate native calls and need not agree.
   * `positions` is what `positions_get()` returns, `None` when the call fails;
   * `lastError` is what `last_error()` reports after a call returned `None`.
   */
  datatype TerminalState = TerminalState(
    listing: map<string, Listing>,
    accountLoggedIn: bool,
    symbolNames: seq<string>,
    infos: map<string, SymbolInfo>,
    ticks: map<string, Tick>,
    positions: Option<seq<Position>>,
    lastError: int)

  function InfoOf(t: TerminalState, name: string): Option<SymbolInfo> {
    if name in t.infos then Some(t.infos[name]) else None
  }

  function TickOf(t: TerminalState, name: string): Option<Tick> {
    if name in t.ticks then Some(t.ticks[name]) else None
  }

  /** `positions_get(ticket=ticket)[0]`: the first open position with that ticket, if any. */
  function PositionOf(t: TerminalState, ticket: int): (r: Option<Position>)
    ensures r.Some? ==> r.value.ticket == ticket && t.positions.Some? && r.value in t.positions.value
    ensures r.None? ==> t.positions.None? || forall p :: p in t.positions.value ==> p.ticket != ticket
  {
    if t.positions.None? then None else FirstWithTicket(t.positions.value, ticket)
  }

  function FirstWithTicket(ps: seq<Position>, ticket: int): (r: Option<Position>)
    ensures r.Some? ==> r.value.ticket == ticket && r.value in ps
    ensures r.None? ==> forall p :: p in ps ==> p.ticket != ticket
  {
    if ps == [] then None
    else if ps[0].ticket == ticket then Some(ps[0])
    else FirstWithTicket(ps[1..], ticket)
  }

  datatype Action = Deal | Pending | Sltp

  datatype OrderType = BuyMarket | SellMarket | BuyLimit | BuyStop | SellLimit | SellStop

  /** The `comment` field of an order request. */
  datatype Comment = StrategyTag(strategy: string) | PartialCloseTag(percent: real) | CloseTag

  /**
   * A request passed to `order_send`.  Every `OrderRequest` also carries
   * `magic = 123456` and `type_time = ORDER_TIME_GTC`; `deviation` and
   * `filling` are absent (`None`) on pending orders.
   */
  datatype TradeRequest =
    | OrderRequest(
        action: Action,
        symbol: string,
        volume: real,
        orderType: OrderType,
        price: real,
        sl: real,
        tp: real,
        position: Option<int>,
        deviation: Option<int>,
        filling: Option<int>,
        comment: Comment)
    | ModifyRequest(symbol: string, ticket: int, sl: real, tp: real)

  /** `order_send` returned `None` (with `last_error()` code) or a result with a retcode. */
  datatype Reply = NoResult(lastError: int) | Result(retcode: int, order: int)

  /** The broker's reply to the n-th request sent during one operation. */
  type Broker = (nat, TradeRequest) -> Reply

  const DEVIATION: int := 20

  const RETCODE_DONE: int := 10009
  const RETCODE_INVALID_VOLUME: int := 10014
  const RETCODE_INVALID_STOPS: int := 10016
  const RETCODE_AUTOTRADING_DISABLED: int := 10027
  const RETCODE_INVALID_FILL: int := 10030

  predicate IsDone(r: Reply) {
    r.Result? && r.retcode == RETCODE_DONE
  }

  function Opposite(d: Direction): OrderType {
    if d == Buy then SellMarket else BuyMarket
  }

  /** The request with both stops cleared (`sl = tp = 0.0`). */
  function WithoutStops(r: TradeRequest): TradeRequest {
    r.(sl := 0.0, tp := 0.0)
  }
}
