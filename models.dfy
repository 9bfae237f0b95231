/**
 * The request and response models of the connector's HTTP interface: the
 * field validators (pure transforms) and the model validators, which update
 * the freshly built request object in place before it reaches a handler.
 */
module Models {
  import opened Wrappers
  import opened Text
  import Terminal
  import Positions

  datatype ValidationError =
    | LotSizeNotPositive
    | EntryPriceRequired(kind: OrderKind)
    | TicketNotPositive

  /** `order_kind`, a required literal of the open request. */
  datatype OrderKind = Market | Limit | Stop

  /** The fields of an open request, as received and as validated. */
  datatype OpenFields = OpenFields(
    symbol: string,
    direction: string,
    orderKind: OrderKind,
    lotSize: real,
    entryPrice: Option<real>,
    stopLoss: Option<real>,
    takeProfit: Option<real>,
    strategy: string,
    strategyId: Option<string>,
    stopLossPrice: Option<real>,
    takeProfitPrice: Option<real>)

  /** A limit or stop request carries a positive entry price. */
  predicate HasEntryPrice(f: OpenFields) {
    f.entryPrice.Some? && f.entryPrice.value > 0.0
  }

  /** The strategy kept by the model validator: the given one, else a non-empty `strategy_id`, else "low". */
  function StrategyOf(strategy: string, strategyId: Option<string>): (s: string)
    ensures s != []
    ensures strategy != [] ==> s == strategy
    ensures strategy == [] && strategyId.Some? && strategyId.value != [] ==> s == strategyId.value
    ensures strategy == [] && (strategyId.None? || strategyId.value == []) ==> s == "low"
  {
    var s := if strategy == [] && strategyId.Some? && strategyId.value != [] then strategyId.value else strategy;
    if s == [] then "low" else s
  }

  /** An explicit stop is kept; only a missing one is taken from the alternative field. */
  function Fallback(explicit: Option<real>, alternative: Option<real>): (r: Option<real>)
    ensures explicit.Some? ==> r == explicit
    ensures explicit.None? ==> r == alternative
  {
    if explicit.None? && alternative.Some? then alternative else explicit
  }

  /**
   * What the open request's validators produce: the field validators
   * (upper-case symbol, lower-case direction, positive lot size), then the
   * model validator (entry price required for limit and stop orders, stop
   * levels from their alternative fields, strategy fallback).
   */
  function ValidateOpen(raw: OpenFields): (r: Result<OpenFields, ValidationError>)
    ensures r.Failure? <==> raw.lotSize <= 0.0 || (raw.orderKind != Market && !HasEntryPrice(raw))
    ensures r.Failure? && raw.lotSize <= 0.0 ==> r.error == LotSizeNotPositive
    ensures r.Failure? && raw.lotSize > 0.0 ==> r.error == EntryPriceRequired(raw.orderKind)
    ensures r.Success? ==>
      && r.value.symbol == Upper(raw.symbol)
      && r.value.direction == Lower(raw.direction)
      && r.value.lotSize == raw.lotSize > 0.0
      && r.value.orderKind == raw.orderKind
      && (r.value.orderKind != Market ==> HasEntryPrice(r.value))
      && (raw.stopLoss.Some? ==> r.value.stopLoss == raw.stopLoss)
      && (raw.stopLoss.None? ==> r.value.stopLoss == raw.stopLossPrice)
      && (raw.takeProfit.Some? ==> r.value.takeProfit == raw.takeProfit)
      && (raw.takeProfit.None? ==> r.value.takeProfit == raw.takeProfitPrice)
      && r.value.strategy != []
      && (raw.strategy != [] ==> r.value.strategy == raw.strategy)
      && r.value.strategy == StrategyOf(raw.strategy, raw.strategyId)
      && r.value.entryPrice == raw.entryPrice
      && r.value.strategyId == raw.strategyId
      && r.value.stopLossPrice == raw.stopLossPrice
      && r.value.takeProfitPrice == raw.takeProfitPrice
  {
    if raw.lotSize <= 0.0 then Failure(LotSizeNotPositive)
    else if raw.orderKind != Market && !HasEntryPrice(raw) then Failure(EntryPriceRequired(raw.orderKind))
    else
      Success(raw.(symbol := Upper(raw.symbol),
                   direction := Lower(raw.direction),
                   stopLoss := Fallback(raw.stopLoss, raw.stopLossPrice),
                   takeProfit := Fallback(raw.takeProfit, raw.takeProfitPrice),
                   strategy := StrategyOf(raw.strategy, raw.strategyId)))
  }

  lemma UpperIdempotent(s: string)
    ensures Upper(Upper(s)) == Upper(s)
  {
    assert forall i :: 0 <= i < |s| ==> UpperChar(UpperChar(s[i])) == UpperChar(s[i]);
  }

  lemma LowerIdempotent(s: string)
    ensures Lower(Lower(s)) == Lower(s)
  {
    assert forall i :: 0 <= i < |s| ==> LowerChar(LowerChar(s[i])) == LowerChar(s[i]);
  }

  /** A validated open request passes validation again unchanged. */
  lemma ValidateOpenIdempotent(raw: OpenFields)
    requires ValidateOpen(raw).Success?
    ensures ValidateOpen(ValidateOpen(raw).value) == ValidateOpen(raw)
  {
    UpperIdempotent(raw.symbol);
    LowerIdempotent(raw.direction);
  }

  /** The open request object; the model validator updates the stops and the strategy in place. */
  class OpenTradeRequest {
    const symbol: string
    const direction: string
    const orderKind: OrderKind
    const lotSize: real
    const entryPrice: Option<real>
    var stopLoss: Option<real>
    var takeProfit: Option<real>
    var strategy: string
    const strategyId: Option<string>
    const stopLossPrice: Option<real>
    const takeProfitPrice: Option<real>

    function Fields(): OpenFields
      reads this
    {
      OpenFields(symbol, direction, orderKind, lotSize, entryPrice, stopLoss, takeProfit,
                 strategy, strategyId, stopLossPrice, takeProfitPrice)
    }

    /** The object as built by the field validators, which only transform `symbol` and `direction`. */
    constructor(raw: OpenFields)
      ensures Fields() == raw.(symbol := Upper(raw.symbol), direction := Lower(raw.direction))
    {
      symbol := Upper(raw.symbol);
      direction := Lower(raw.direction);
      orderKind := raw.orderKind;
      lotSize := raw.lotSize;
      entryPrice := raw.entryPrice;
      stopLoss := raw.stopLoss;
      takeProfit := raw.takeProfit;
      strategy := raw.strategy;
      strategyId := raw.strategyId;
      stopLossPrice := raw.stopLossPrice;
      takeProfitPrice := raw.takeProfitPrice;
    }

    /** `validate_fields`: raises before changing anything, or fills in the stops and the strategy. */
    method ValidateFields() returns (r: Result<(), ValidationError>)
      modifies this
      ensures r.Failure? <==> orderKind != Market && !HasEntryPrice(old(Fields()))
      ensures r.Failure? ==> r.error == EntryPriceRequired(orderKind) && Fields() == old(Fields())
      ensures r.Success? ==>
        Fields() == old(Fields()).(stopLoss := Fallback(old(stopLoss), stopLossPrice),
                                   takeProfit := Fallback(old(takeProfit), takeProfitPrice),
                                   strategy := StrategyOf(old(strategy), strategyId))
    {
      if orderKind != Market && (entryPrice.None? || entryPrice.value <= 0.0) {
        return Failure(EntryPriceRequired(orderKind));
      }
      if stopLoss.None? && stopLossPrice.Some? {
        stopLoss := stopLossPrice;
      }
      if takeProfit.None? && takeProfitPrice.Some? {
        takeProfit := takeProfitPrice;
      }
      if strategy == [] && strategyId.Some? && strategyId.value != [] {
        strategy := strategyId.value;
      }
      if strategy == [] {
        strategy := "low";
      }
      r := Success(());
    }
  }

  /**
   * Building an open request: the lot size is checked first, then the object
   * is built and its model validator run.  The result is the request
   * `ValidateOpen` describes.
   */
  method ParseOpenTradeRequest(raw: OpenFields) returns (r: Result<OpenTradeRequest, ValidationError>)
    ensures r.Success? <==> ValidateOpen(raw).Success?
    ensures r.Success? ==> r.value.Fields() == ValidateOpen(raw).value
    ensures r.Failure? ==> r.error == ValidateOpen(raw).error
  {
    if raw.lotSize <= 0.0 {
      return Failure(LotSizeNotPositive);
    }
    var request := new OpenTradeRequest(raw);
    var checked := request.ValidateFields();
    if checked.Failure? {
      return Failure(checked.error);
    }
    r := Success(request);
  }

  /*** Tickets of close and cancel requests ***/

  /** The ticket once a zero ticket is replaced by a given `mt5_ticket`. */
  function TicketAfter(ticket: int, mt5Ticket: Option<int>): int {
    if ticket == 0 && mt5Ticket.Some? then mt5Ticket.value else ticket
  }

  /** The ticket a close or cancel request is accepted with, or why it is refused. */
  function ResolveTicket(ticket: int, mt5Ticket: Option<int>): (r: Result<int, ValidationError>)
    ensures r.Success? <==> ticket > 0 || (ticket == 0 && mt5Ticket.Some? && mt5Ticket.value > 0)
    ensures r.Success? ==> r.value > 0
    ensures r.Success? && ticket != 0 ==> r.value == ticket
    ensures r.Success? && ticket == 0 ==> r.value == mt5Ticket.value
    ensures r.Failure? ==> r.error == TicketNotPositive
  {
    var t := TicketAfter(ticket, mt5Ticket);
    if t <= 0 then Failure(TicketNotPositive) else Success(t)
  }

  /** An accepted ticket is accepted again as it is, whatever the alternative field says. */
  lemma ResolveTicketStable(ticket: int, mt5Ticket: Option<int>, other: Option<int>)
    requires ResolveTicket(ticket, mt5Ticket).Success?
    ensures ResolveTicket(ResolveTicket(ticket, mt5Ticket).value, other) == ResolveTicket(ticket, mt5Ticket)
  {
  }

  class CloseTradeRequest {
    var ticket: int
    const mt5Ticket: Option<int>
    const reason: Option<string>

    constructor(ticket: int, mt5Ticket: Option<int>, reason: Option<string>)
      ensures this.ticket == ticket && this.mt5Ticket == mt5Ticket && this.reason == reason
    {
      this.ticket := ticket;
      this.mt5Ticket := mt5Ticket;
      this.reason := reason;
    }

    /** `validate_ticket`: the ticket is replaced as `TicketAfter` says, then must be positive. */
    method ValidateTicket() returns (r: Result<(), ValidationError>)
      modifies this
      ensures ticket == TicketAfter(old(ticket), mt5Ticket)
      ensures r.Success? <==> ResolveTicket(old(ticket), mt5Ticket).Success?
      ensures r.Success? ==> ticket == ResolveTicket(old(ticket), mt5Ticket).value
      ensures r.Failure? ==> r.error == TicketNotPositive
    {
      if ticket == 0 && mt5Ticket.Some? {
        ticket := mt5Ticket.value;
      }
      if ticket <= 0 {
        return Failure(TicketNotPositive);
      }
      r := Success(());
    }
  }

  class CancelOrderRequest {
    var ticket: int
    const mt5Ticket: Option<int>

    constructor(ticket: int, mt5Ticket: Option<int>)
      ensures this.ticket == ticket && this.mt5Ticket == mt5Ticket
    {
      this.ticket := ticket;
      this.mt5Ticket := mt5Ticket;
    }

    /** `validate_ticket`, the same rule as for a close request. */
    method ValidateTicket() returns (r: Result<(), ValidationError>)
      modifies this
      ensures ticket == TicketAfter(old(ticket), mt5Ticket)
      ensures r.Success? <==> ResolveTicket(old(ticket), mt5Ticket).Success?
      ensures r.Success? ==> ticket == ResolveTicket(old(ticket), mt5Ticket).value
      ensures r.Failure? ==> r.error == TicketNotPositive
    {
      if ticket == 0 && mt5Ticket.Some? {
        ticket := mt5Ticket.value;
      }
      if ticket <= 0 {
        return Failure(TicketNotPositive);
      }
      r := Success(());
    }
  }

  /*** Responses ***/

  /** Python truthiness of an optional ticket. */
  predicate Given(x: Option<int>) {
    x.Some? && x.value != 0
  }

  /** The `mt5_ticket` a response ends with: a given one is kept, else it mirrors a given `ticket`. */
  function MirroredTicket(ticket: Option<int>, mt5Ticket: Option<int>): (r: Option<int>)
    ensures Given(mt5Ticket) ==> r == mt5Ticket
    ensures !Given(mt5Ticket) && Given(ticket) ==> r == ticket
    ensures !Given(mt5Ticket) && !Given(ticket) ==> r == mt5Ticket
    ensures Given(r) <==> Given(ticket) || Given(mt5Ticket)
  {
    if Given(ticket) && !Given(mt5Ticket) then ticket else mt5Ticket
  }

  class TradeResponse {
    const success: bool
    const ticket: Option<int>
    const error: Option<string>
    var mt5Ticket: Option<int>

    constructor(success: bool, ticket: Option<int>, error: Option<string>, mt5Ticket: Option<int>)
      ensures this.success == success && this.ticket == ticket && this.error == error
      ensures this.mt5Ticket == MirroredTicket(ticket, mt5Ticket)
    {
      this.success := success;
      this.ticket := ticket;
      this.error := error;
      this.mt5Ticket := mt5Ticket;
      new;
      if Given(this.ticket) && !Given(this.mt5Ticket) {
        this.mt5Ticket := this.ticket;
      }
    }
  }

  /*** Partial close ***/

  /** `volume_percent` of a partial-close request lies strictly between 0 and 100. */
  predicate PercentAccepted(percent: real) {
    0.0 < percent < 100.0
  }

  /**
   * The request model and the client refuse the same percentages: a
   * percentage the model accepts never draws the client's range error.
   */
  lemma PercentRangesAgree(t: Terminal.TerminalState, broker: Terminal.Broker, ticket: int, percent: real)
    ensures PercentAccepted(percent)
        <==> Positions.PartialCloseOutcome(t, broker, ticket, percent).0 != Failure(Positions.PercentOutOfRange)
  {
    Positions.PartialCloseRejectsPercent(t, broker, ticket, percent);
  }
}
