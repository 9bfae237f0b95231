/**
 * The send loop of `open_trade`: up to two passes over the filling modes
 * (the second without stops), a fallback to the modes the symbol did not
 * advertise, an immediate resend without stops when a market order's stops
 * are refused, and the retcodes that end the operation.
 */
module Submit {
  import opened Wrappers
  import opened Terminal
  import opened Filling

  /** Everything an order request carries apart from its stops and filling mode. */
  datatype Order = Order(
    action: Action,
    symbol: string,
    volume: real,
    orderType: OrderType,
    price: real,
    sl: real,
    tp: real,
    strategy: string)

  /** The request sent for `o` with the given stops and filling mode. */
  function RequestFor(o: Order, sl: real, tp: real, mode: int): TradeRequest {
    OrderRequest(
      o.action, o.symbol, o.volume, o.orderType, o.price, sl, tp, None,
      if o.action == Deal then Some(DEVIATION) else None,
      if o.action == Deal then Some(mode) else None,
      StrategyTag(o.strategy))
  }

  datatype SendFailure =
    | InvalidVolume                    // retcode 10014
    | AutoTradingDisabled              // retcode 10027
    | StopsRetryFailed(code: int)      // a market order's resend without stops failed
    | InvalidStopsWithoutStops         // a pending order's stops were refused on the second pass
    | PendingRejected(code: int)       // any other retcode refusing a pending order
    | NoFillingModeWorked(tried: seq<int>)
    | PendingNotPlaced

  predicate IsInvalidStops(r: Reply) {
    r.Result? && r.retcode == RETCODE_INVALID_STOPS
  }

  /** A reply after which the walk moves on to the next filling mode. */
  predicate Walks(r: Reply) {
    r.NoResult? || r.retcode == RETCODE_INVALID_FILL
  }

  /** A reply that ends the operation whatever the order. */
  predicate Ends(r: Reply) {
    r.Result? && r.retcode in {RETCODE_DONE, RETCODE_INVALID_VOLUME, RETCODE_AUTOTRADING_DISABLED}
  }

  /** A retcode with no dedicated branch. */
  predicate OtherCode(r: Reply) {
    r.Result? && r.retcode !in
      {RETCODE_DONE, RETCODE_INVALID_STOPS, RETCODE_INVALID_VOLUME, RETCODE_INVALID_FILL, RETCODE_AUTOTRADING_DISABLED}
  }

  /** `r` is a request for `o`: same fields, its own or no stops, a filling mode only for a market order. */
  predicate Conforms(o: Order, advertised: seq<int>, r: TradeRequest) {
    && r.OrderRequest?
    && r.action == o.action && r.symbol == o.symbol && r.volume == o.volume
    && r.orderType == o.orderType && r.price == o.price && r.position.None?
    && r.comment == StrategyTag(o.strategy)
    && ((r.sl == o.sl && r.tp == o.tp) || (r.sl == 0.0 && r.tp == 0.0))
    && (o.action == Deal ==>
          r.deviation == Some(DEVIATION) && r.filling.Some?
          && (r.filling.value in advertised || r.filling.value in AllModes))
    && (o.action != Deal ==> r.deviation.None? && r.filling.None?)
  }

  function FillingOf(r: TradeRequest): Option<int> {
    if r.OrderRequest? then r.filling else None
  }

  /** The last reply carries retcode `code`. */
  predicate LastRetcode(replies: seq<Reply>, code: int) {
    |replies| > 0 && replies[|replies| - 1].Result? && replies[|replies| - 1].retcode == code
  }

  function RetryOutcome(reply: Reply): (r: Result<int, SendFailure>)
    ensures r.Success? <==> IsDone(reply)
  {
    match reply
    case NoResult(code) => Failure(StopsRetryFailed(if code != 0 then code else -10009))
    case Result(code, ticket) =>
      if code == RETCODE_DONE then Success(ticket) else Failure(StopsRetryFailed(code))
  }

  /** The verdict `outcome` follows from `reply`, the last reply of a pass. */
  predicate Decides(action: Action, firstAttempt: bool, reply: Reply, outcome: Result<int, SendFailure>) {
    && (outcome.Success? <==> IsDone(reply))
    && (outcome.Success? ==> outcome.value == reply.order)
    && (outcome == Failure(InvalidVolume) <==> reply.Result? && reply.retcode == RETCODE_INVALID_VOLUME)
    && (outcome == Failure(AutoTradingDisabled) <==> reply.Result? && reply.retcode == RETCODE_AUTOTRADING_DISABLED)
    && (outcome == Failure(InvalidStopsWithoutStops) ==>
          action == Pending && !firstAttempt && IsInvalidStops(reply))
    && (outcome.Failure? && outcome.error.PendingRejected? ==>
          action == Pending && reply.Result? && reply.retcode == outcome.error.code
          && (OtherCode(reply) || outcome.error.code == RETCODE_INVALID_FILL))
    && (outcome.Failure? ==>
          !outcome.error.NoFillingModeWorked? && !outcome.error.PendingNotPlaced?
          && !outcome.error.StopsRetryFailed?)
  }

  /** What the loop does after a reply to a request of a pass. */
  datatype Step = NextMode | EndPass | ResendWithoutStops | Verdict(outcome: Result<int, SendFailure>)

  /** The retcode policy of `open_trade`. */
  function Classify(action: Action, firstAttempt: bool, reply: Reply): Step
    requires action == Deal || action == Pending
  {
    match reply
    case NoResult(_) => if action == Deal then NextMode else EndPass
    case Result(code, order) =>
      if code == RETCODE_DONE then Verdict(Success(order))
      else if code == RETCODE_INVALID_STOPS then
        (if action == Deal then ResendWithoutStops
         else if firstAttempt then EndPass
         else Verdict(Failure(InvalidStopsWithoutStops)))
      else if code == RETCODE_INVALID_VOLUME then Verdict(Failure(InvalidVolume))
      else if code == RETCODE_INVALID_FILL && action == Deal then NextMode
      else if code == RETCODE_INVALID_FILL then Verdict(Failure(PendingRejected(code)))
      else if code == RETCODE_AUTOTRADING_DISABLED then Verdict(Failure(AutoTradingDisabled))
      else if action == Pending then Verdict(Failure(PendingRejected(code)))
      else EndPass
  }

  /**
   * The retcode policy: a market order walks on past no result and a refused
   * filling mode, resends at once after refused stops and ends the pass on
   * any other retcode; a pending order ends the pass on no result and on
   * refused stops the first time, and is decided by every other retcode.
   */
  lemma ClassifyPolicy(action: Action, firstAttempt: bool, reply: Reply)
    requires action == Deal || action == Pending
    ensures var s := Classify(action, firstAttempt, reply);
      && (s == NextMode <==> action == Deal && Walks(reply))
      && (s == ResendWithoutStops <==> action == Deal && IsInvalidStops(reply))
      && (s == EndPass <==>
            (action == Deal && OtherCode(reply))
            || (action == Pending && (reply.NoResult? || (firstAttempt && IsInvalidStops(reply)))))
      && (s.Verdict? ==> Decides(action, firstAttempt, reply, s.outcome))
      && (s.Verdict? <==> Ends(reply) || (action == Pending && !s.EndPass? && reply.Result?))
  {
  }


  /** What `open_trade` has sent and received so far, and the state of its fallback. */
  datatype Trace = Trace(sent: seq<TradeRequest>, replies: seq<Reply>, tried: seq<int>, fallbackAdded: bool)

  /** How one pass over the filling modes ends: open, or with the operation's outcome. */
  datatype PassEnd = Open | Decided(outcome: Result<int, SendFailure>)

  /** The fallback modes appended after a refused advertised mode, if any. */
  function Fallback(advertised: seq<int>, reply: Reply, i: nat, tried: seq<int>, fallbackAdded: bool): (r: seq<int>)
    ensures |r| <= 3
    ensures forall m :: m in r ==> m in AllModes && m !in tried
    ensures r != [] ==> !fallbackAdded && i >= |advertised|
  {
    if reply.Result? && i >= |advertised| && !fallbackAdded then Untried(tried) else []
  }

  /**
   * The inner loop of `open_trade` from index `i` of `modes` on, with stops
   * `sl`/`tp`: each request goes to the broker as request number `|t.sent|`.
   */
  function Walk(o: Order, advertised: seq<int>, broker: Broker, sl: real, tp: real, firstAttempt: bool,
                modes: seq<int>, i: nat, t: Trace): (PassEnd, Trace)
    requires o.action == Deal || o.action == Pending
    requires i <= |modes|
    decreases (if t.fallbackAdded then 0 else 3) + |modes| - i
  {
    if i == |modes| then (Open, t)
    else
      var request := RequestFor(o, sl, tp, modes[i]);
      var reply := broker(|t.sent|, request);
      var t1 := Trace(t.sent + [request], t.replies + [reply],
                      if o.action == Deal then t.tried + [modes[i]] else t.tried, t.fallbackAdded);
      match Classify(o.action, firstAttempt, reply)
      case NextMode =>
        var extra := Fallback(advertised, reply, i + 1, t1.tried, t.fallbackAdded);
        Walk(o, advertised, broker, sl, tp, firstAttempt, modes + extra, i + 1,
             t1.(fallbackAdded := t.fallbackAdded || extra != []))
      case EndPass => (Open, t1)
      case ResendWithoutStops => Resend(broker, request, t1)
      case Verdict(outcome) => (Decided(outcome), t1)
  }

  /** The resend without stops of `request`, whose reply decides the operation. */
  function Resend(broker: Broker, request: TradeRequest, t: Trace): (PassEnd, Trace) {
    var retry := WithoutStops(request);
    var retryReply := broker(|t.sent|, retry);
    (Decided(RetryOutcome(retryReply)), t.(sent := t.sent + [retry], replies := t.replies + [retryReply]))
  }

  /** The outer loop of `open_trade` from attempt `attempt` on (the second attempt goes without stops). */
  function Attempts(o: Order, modes: seq<int>, broker: Broker, attempt: nat, t: Trace): (Result<int, SendFailure>, Trace)
    requires o.action == Deal || o.action == Pending
    requires attempt <= 2
    decreases 2 - attempt
  {
    if attempt == 2 then
      (Failure(if o.action == Deal then NoFillingModeWorked(t.tried) else PendingNotPlaced), t)
    else
      var pass := Walk(o, modes, broker, if attempt == 0 then o.sl else 0.0, if attempt == 0 then o.tp else 0.0,
                       attempt == 0, modes, 0, t);
      if pass.0.Decided? then (pass.0.outcome, pass.1) else Attempts(o, modes, broker, attempt + 1, pass.1)
  }

  /** The outcome of sending `o`, trying filling modes `modes`, and everything sent and received on the way. */
  function Send(o: Order, modes: seq<int>, broker: Broker): (Result<int, SendFailure>, Trace)
    requires o.action == Deal || o.action == Pending
  {
    Attempts(o, modes, broker, 0, Trace([], [], [], false))
  }

  /**
   * The send loops of `open_trade`: up to two attempts, each walking the
   * filling modes `modes` (the fallback modes appended at most once).
   */
  method SendOrder(o: Order, modes: seq<int>, broker: Broker)
    returns (r: Result<int, SendFailure>, sent: seq<TradeRequest>, replies: seq<Reply>, tried: seq<int>)
    requires o.action == Deal || o.action == Pending
    ensures var (r', t) := Send(o, modes, broker); r == r' && sent == t.sent && replies == t.replies && tried == t.tried
  {
    sent, replies, tried := [], [], [];
    var fallbackAdded := false;
    var attempt := 0;
    while attempt < 2
      invariant attempt <= 2
      invariant Attempts(o, modes, broker, attempt, Trace(sent, replies, tried, fallbackAdded)) == Send(o, modes, broker)
    {
      var sl, tp := o.sl, o.tp;
      if attempt > 0 {
        sl, tp := 0.0, 0.0;
      }
      ghost var start := Trace(sent, replies, tried, fallbackAdded);
      var modesList := modes;
      var i := 0;
      while i < |modesList|
        invariant i <= |modesList|
        invariant Walk(o, modes, broker, sl, tp, attempt == 0, modesList, i, Trace(sent, replies, tried, fallbackAdded))
               == Walk(o, modes, broker, sl, tp, attempt == 0, modes, 0, start)
        decreases (if fallbackAdded then 0 else 3) + |modesList| - i
      {
        ghost var modesBefore := modesList;
        var mode := modesList[i];
        i := i + 1;
        if o.action == Deal {
          tried := tried + [mode];
        }
        var request := RequestFor(o, sl, tp, mode);
        var reply := broker(|sent|, request);
        sent, replies := sent + [request], replies + [reply];
        match Classify(o.action, attempt == 0, reply)
        case NextMode =>
          var extra := Fallback(modes, reply, i, tried, fallbackAdded);
          if extra != [] {
            modesList := modesList + extra;
            fallbackAdded := true;
          }
          assert modesList == modesBefore + extra;
        case EndPass =>
          break;
        case ResendWithoutStops =>
          var retry := WithoutStops(request);
          var retryReply := broker(|sent|, retry);
          sent, replies := sent + [retry], replies + [retryReply];
          r := RetryOutcome(retryReply);
          return;
        case Verdict(outcome) =>
          r := outcome;
          return;
      }
      attempt := attempt + 1;
    }
    r := if o.action == Deal then Failure(NoFillingModeWorked(tried)) else Failure(PendingNotPlaced);
  }

  /** Request number `k` went to the broker as its `k`-th request and got the `k`-th reply. */
  predicate Answered(broker: Broker, t: Trace) {
    |t.sent| == |t.replies| && forall k :: 0 <= k < |t.sent| ==> t.replies[k] == broker(k, t.sent[k])
  }

  predicate NoStops(r: TradeRequest) {
    r.sl == 0.0 && r.tp == 0.0
  }

  /** The last request resends the one before it without stops, after that one's stops were refused. */
  predicate RetriedWithoutStops(t: Trace) {
    |t.sent| >= 2 && |t.replies| == |t.sent| && IsInvalidStops(t.replies[|t.sent| - 2])
    && t.sent[|t.sent| - 1] == WithoutStops(t.sent[|t.sent| - 2])
  }

  /** The operation ended on the resend without stops that followed a market order's refused stops. */
  predicate Resent(o: Order, t: Trace, outcome: Result<int, SendFailure>) {
    o.action == Deal && RetriedWithoutStops(t) && outcome == RetryOutcome(t.replies[|t.replies| - 1])
  }

  /** The operation ended on the last reply, by the retcode policy. */
  predicate DecidedOnLast(action: Action, firstAttempt: bool, t: Trace, outcome: Result<int, SendFailure>) {
    |t.replies| > 0 && Decides(action, firstAttempt, t.replies[|t.replies| - 1], outcome)
    && (action == Deal ==> Ends(t.replies[|t.replies| - 1]))
  }

  /** The modes a pass may walk: advertised ones and fallback ones. */
  predicate Walkable(advertised: seq<int>, modes: seq<int>) {
    forall p :: 0 <= p < |modes| ==> modes[p] in advertised || modes[p] in AllModes
  }

  /** From `t` to `t2` requests, replies and tried modes were only appended, one reply per request. */
  predicate Grew(t: Trace, t2: Trace) {
    && t.sent <= t2.sent && t.replies <= t2.replies && t.tried <= t2.tried
    && |t2.replies| - |t.replies| == |t2.sent| - |t.sent|
    && (t.fallbackAdded ==> t2.fallbackAdded)
  }

  lemma GrewTransitive(t: Trace, t1: Trace, t2: Trace)
    requires Grew(t, t1) && Grew(t1, t2)
    ensures Grew(t, t2)
  {
    assert t.sent == t2.sent[..|t.sent|] by { assert t1.sent[..|t.sent|] == t2.sent[..|t.sent|]; }
    assert t.replies == t2.replies[..|t.replies|] by { assert t1.replies[..|t.replies|] == t2.replies[..|t.replies|]; }
    assert t.tried == t2.tried[..|t.tried|] by { assert t1.tried[..|t.tried|] == t2.tried[..|t.tried|]; }
  }

  /** The trace once the request for the mode at index `i` of a pass is answered. */
  function Posted(o: Order, broker: Broker, sl: real, tp: real, modes: seq<int>, i: nat, t: Trace): (t1: Trace)
    requires i < |modes|
    ensures Grew(t, t1) && |t1.sent| == |t.sent| + 1 && t1.fallbackAdded == t.fallbackAdded
  {
    var request := RequestFor(o, sl, tp, modes[i]);
    Trace(t.sent + [request], t.replies + [broker(|t.sent|, request)],
          if o.action == Deal then t.tried + [modes[i]] else t.tried, t.fallbackAdded)
  }

  /** What `WalkGrows` states about a pass from index `i` of `modes` that ended as `w`. */
  predicate GrowsTo(o: Order, broker: Broker, sl: real, tp: real, modes: seq<int>, i: nat, t: Trace,
                    w: (PassEnd, Trace)) {
    var t' := w.1;
    && Grew(t, t')
    && (|t'.sent| > |t.sent| <==> i < |modes|)
    && (i < |modes| ==>
          && t'.sent[|t.sent|] == RequestFor(o, sl, tp, modes[i])
          && t'.replies[|t.replies|] == broker(|t.sent|, RequestFor(o, sl, tp, modes[i])))
    && (Answered(broker, t) ==> Answered(broker, t'))
  }

  /**
   * A pass only appends to the trace, starting with the request for the mode
   * at index `i` and its reply, and the broker answers every request it sends.
   */
  lemma {:induction false} WalkGrows(o: Order, advertised: seq<int>, broker: Broker, sl: real, tp: real,
                                     firstAttempt: bool, modes: seq<int>, i: nat, t: Trace)
    requires o.action == Deal || o.action == Pending
    requires i <= |modes|
    ensures GrowsTo(o, broker, sl, tp, modes, i, t, Walk(o, advertised, broker, sl, tp, firstAttempt, modes, i, t))
    decreases (if t.fallbackAdded then 0 else 3) + |modes| - i, 1
  {
    if i < |modes| {
      if Classify(o.action, firstAttempt, broker(|t.sent|, RequestFor(o, sl, tp, modes[i]))) == NextMode {
        WalkGrowsNext(o, advertised, broker, sl, tp, firstAttempt, modes, i, t);
      } else {
        WalkGrowsStop(o, advertised, broker, sl, tp, firstAttempt, modes, i, t);
      }
    }
  }

  lemma {:induction false} WalkGrowsNext(o: Order, advertised: seq<int>, broker: Broker, sl: real, tp: real,
                                         firstAttempt: bool, modes: seq<int>, i: nat, t: Trace)
    requires o.action == Deal || o.action == Pending
    requires i < |modes|
    requires Classify(o.action, firstAttempt, broker(|t.sent|, RequestFor(o, sl, tp, modes[i]))) == NextMode
    ensures GrowsTo(o, broker, sl, tp, modes, i, t, Walk(o, advertised, broker, sl, tp, firstAttempt, modes, i, t))
    decreases (if t.fallbackAdded then 0 else 3) + |modes| - i, 0
  {
    var request := RequestFor(o, sl, tp, modes[i]);
    var reply := broker(|t.sent|, request);
    var t1 := Posted(o, broker, sl, tp, modes, i, t);
    assert Answered(broker, t) ==> Answered(broker, t1);
    var extra := Fallback(advertised, reply, i + 1, t1.tried, t.fallbackAdded);
    var t2 := t1.(fallbackAdded := t.fallbackAdded || extra != []);
    WalkGrows(o, advertised, broker, sl, tp, firstAttempt, modes + extra, i + 1, t2);
    var (e, t') := Walk(o, advertised, broker, sl, tp, firstAttempt, modes + extra, i + 1, t2);
    assert Walk(o, advertised, broker, sl, tp, firstAttempt, modes, i, t) == (e, t');
    GrewTransitive(t, t2, t');
    assert t'.sent[|t.sent|] == t2.sent[|t.sent|] && t'.replies[|t.replies|] == t2.replies[|t.replies|];
  }

  lemma WalkGrowsStop(o: Order, advertised: seq<int>, broker: Broker, sl: real, tp: real,
                      firstAttempt: bool, modes: seq<int>, i: nat, t: Trace)
    requires o.action == Deal || o.action == Pending
    requires i < |modes|
    requires Classify(o.action, firstAttempt, broker(|t.sent|, RequestFor(o, sl, tp, modes[i]))) != NextMode
    ensures GrowsTo(o, broker, sl, tp, modes, i, t, Walk(o, advertised, broker, sl, tp, firstAttempt, modes, i, t))
  {
    var request := RequestFor(o, sl, tp, modes[i]);
    var t1 := Posted(o, broker, sl, tp, modes, i, t);
    assert Answered(broker, t) ==> Answered(broker, t1);
    assert Answered(broker, t1) ==> Answered(broker, Resend(broker, request, t1).1);
  }

  /**
   * Every request appended from `t` to `t2` conforms to the order and carries
   * the stops `sl`/`tp`, except a last resend, which carries none.
   */
  predicate ConformsAfter(o: Order, advertised: seq<int>, sl: real, tp: real, t: Trace, t2: Trace) {
    forall k :: |t.sent| <= k < |t2.sent| ==>
      && Conforms(o, advertised, t2.sent[k])
      && ((t2.sent[k].sl == sl && t2.sent[k].tp == tp) || (k == |t2.sent| - 1 && k > |t.sent| && NoStops(t2.sent[k])))
  }

  lemma ConformsStep(o: Order, advertised: seq<int>, sl: real, tp: real, t: Trace, t1: Trace, t2: Trace,
                     request: TradeRequest)
    requires t1.sent == t.sent + [request] && Grew(t1, t2)
    requires Conforms(o, advertised, request) && request.sl == sl && request.tp == tp
    requires ConformsAfter(o, advertised, sl, tp, t1, t2)
    ensures ConformsAfter(o, advertised, sl, tp, t, t2)
  {
    assert t2.sent[|t.sent|] == t1.sent[|t.sent|] == request;
  }

  /**
   * Every request a pass sends conforms to the order and carries the pass's
   * stops, except a last resend, which carries none.
   */
  lemma {:induction false} WalkConforms(o: Order, advertised: seq<int>, broker: Broker, sl: real, tp: real,
                                        firstAttempt: bool, modes: seq<int>, i: nat, t: Trace)
    requires o.action == Deal || o.action == Pending
    requires i <= |modes|
    requires (sl == o.sl && tp == o.tp) || (sl == 0.0 && tp == 0.0)
    requires Walkable(advertised, modes)
    ensures var (e, t') := Walk(o, advertised, broker, sl, tp, firstAttempt, modes, i, t);
      ConformsAfter(o, advertised, sl, tp, t, t')
    decreases (if t.fallbackAdded then 0 else 3) + |modes| - i, 1
  {
    if i < |modes| {
      if Classify(o.action, firstAttempt, broker(|t.sent|, RequestFor(o, sl, tp, modes[i]))) == NextMode {
        WalkConformsNext(o, advertised, broker, sl, tp, firstAttempt, modes, i, t);
      } else {
        WalkConformsStop(o, advertised, broker, sl, tp, firstAttempt, modes, i, t);
      }
    }
  }

  lemma {:induction false} WalkConformsNext(o: Order, advertised: seq<int>, broker: Broker, sl: real, tp: real,
                                        firstAttempt: bool, modes: seq<int>, i: nat, t: Trace)
    requires o.action == Deal || o.action == Pending
    requires i < |modes|
    requires (sl == o.sl && tp == o.tp) || (sl == 0.0 && tp == 0.0)
    requires Walkable(advertised, modes)
    requires Classify(o.action, firstAttempt, broker(|t.sent|, RequestFor(o, sl, tp, modes[i]))) == NextMode
    ensures var (e, t') := Walk(o, advertised, broker, sl, tp, firstAttempt, modes, i, t);
      ConformsAfter(o, advertised, sl, tp, t, t')
    decreases (if t.fallbackAdded then 0 else 3) + |modes| - i, 0
  {
    var request := RequestFor(o, sl, tp, modes[i]);
    var reply := broker(|t.sent|, request);
    var t1 := Posted(o, broker, sl, tp, modes, i, t);
    var extra := Fallback(advertised, reply, i + 1, t1.tried, t.fallbackAdded);
    var t2 := t1.(fallbackAdded := t.fallbackAdded || extra != []);
    assert Walkable(advertised, modes + extra);
    WalkConforms(o, advertised, broker, sl, tp, firstAttempt, modes + extra, i + 1, t2);
    WalkGrows(o, advertised, broker, sl, tp, firstAttempt, modes + extra, i + 1, t2);
    var (e, t') := Walk(o, advertised, broker, sl, tp, firstAttempt, modes + extra, i + 1, t2);
    assert Walk(o, advertised, broker, sl, tp, firstAttempt, modes, i, t) == (e, t');
    assert Conforms(o, advertised, request);
    ConformsStep(o, advertised, sl, tp, t, t2, t', request);
  }

  lemma WalkConformsStop(o: Order, advertised: seq<int>, broker: Broker, sl: real, tp: real,
                                        firstAttempt: bool, modes: seq<int>, i: nat, t: Trace)
    requires o.action == Deal || o.action == Pending
    requires i < |modes|
    requires (sl == o.sl && tp == o.tp) || (sl == 0.0 && tp == 0.0)
    requires Walkable(advertised, modes)
    requires Classify(o.action, firstAttempt, broker(|t.sent|, RequestFor(o, sl, tp, modes[i]))) != NextMode
    ensures var (e, t') := Walk(o, advertised, broker, sl, tp, firstAttempt, modes, i, t);
      ConformsAfter(o, advertised, sl, tp, t, t')
  {
    var request := RequestFor(o, sl, tp, modes[i]);
    var reply := broker(|t.sent|, request);
    var t1 := Posted(o, broker, sl, tp, modes, i, t);
    assert Conforms(o, advertised, request);
    assert Conforms(o, advertised, WithoutStops(request));
  }

  /**
   * When a pass ends open, no reply appended from `t` to `t2` ends the
   * operation; for a market order none refused its stops, and a pending order
   * got no result or, on the first attempt, refused stops.
   */
  predicate OpenAfter(o: Order, firstAttempt: bool, t: Trace, e: PassEnd, t2: Trace) {
    e.Open? ==> forall k :: |t.replies| <= k < |t2.replies| ==>
      && !Ends(t2.replies[k])
      && (o.action == Deal ==> !IsInvalidStops(t2.replies[k]))
      && (o.action == Pending ==> t2.replies[k].NoResult? || (firstAttempt && IsInvalidStops(t2.replies[k])))
  }

  /**
   * A pass that ends open saw no retcode that ends the operation; for a
   * market order no refused stops either, and a pending order got no result
   * or, on the first attempt, refused stops.
   */
  lemma {:induction false} WalkOpen(o: Order, advertised: seq<int>, broker: Broker, sl: real, tp: real,
                                    firstAttempt: bool, modes: seq<int>, i: nat, t: Trace)
    requires o.action == Deal || o.action == Pending
    requires i <= |modes|
    ensures var (e, t') := Walk(o, advertised, broker, sl, tp, firstAttempt, modes, i, t);
      OpenAfter(o, firstAttempt, t, e, t')
    decreases (if t.fallbackAdded then 0 else 3) + |modes| - i, 1
  {
    if i < |modes| {
      if Classify(o.action, firstAttempt, broker(|t.sent|, RequestFor(o, sl, tp, modes[i]))) == NextMode {
        WalkOpenNext(o, advertised, broker, sl, tp, firstAttempt, modes, i, t);
      } else {
        WalkOpenStop(o, advertised, broker, sl, tp, firstAttempt, modes, i, t);
      }
    }
  }

  lemma {:induction false} WalkOpenNext(o: Order, advertised: seq<int>, broker: Broker, sl: real, tp: real,
                                    firstAttempt: bool, modes: seq<int>, i: nat, t: Trace)
    requires o.action == Deal || o.action == Pending
    requires i < |modes|
    requires Classify(o.action, firstAttempt, broker(|t.sent|, RequestFor(o, sl, tp, modes[i]))) == NextMode
    ensures var (e, t') := Walk(o, advertised, broker, sl, tp, firstAttempt, modes, i, t);
      OpenAfter(o, firstAttempt, t, e, t')
    decreases (if t.fallbackAdded then 0 else 3) + |modes| - i, 0
  {
    var request := RequestFor(o, sl, tp, modes[i]);
    var reply := broker(|t.sent|, request);
    ClassifyPolicy(o.action, firstAttempt, reply);
    var t1 := Posted(o, broker, sl, tp, modes, i, t);
    var extra := Fallback(advertised, reply, i + 1, t1.tried, t.fallbackAdded);
    var t2 := t1.(fallbackAdded := t.fallbackAdded || extra != []);
    WalkOpen(o, advertised, broker, sl, tp, firstAttempt, modes + extra, i + 1, t2);
    WalkGrows(o, advertised, broker, sl, tp, firstAttempt, modes + extra, i + 1, t2);
    var (e, t') := Walk(o, advertised, broker, sl, tp, firstAttempt, modes + extra, i + 1, t2);
    assert Walk(o, advertised, broker, sl, tp, firstAttempt, modes, i, t) == (e, t');
    assert t'.replies[|t.replies|] == t2.replies[|t.replies|] == reply;
  }

  lemma WalkOpenStop(o: Order, advertised: seq<int>, broker: Broker, sl: real, tp: real,
                                    firstAttempt: bool, modes: seq<int>, i: nat, t: Trace)
    requires o.action == Deal || o.action == Pending
    requires i < |modes|
    requires Classify(o.action, firstAttempt, broker(|t.sent|, RequestFor(o, sl, tp, modes[i]))) != NextMode
    ensures var (e, t') := Walk(o, advertised, broker, sl, tp, firstAttempt, modes, i, t);
      OpenAfter(o, firstAttempt, t, e, t')
  {
    var request := RequestFor(o, sl, tp, modes[i]);
    var reply := broker(|t.sent|, request);
    ClassifyPolicy(o.action, firstAttempt, reply);
    var t1 := Posted(o, broker, sl, tp, modes, i, t);
  }

  /**
   * When a pass decides the operation, it appended a reply after `t` and
   * decided on its last one: the resend without stops after a market order's
   * refused stops, or a reply the retcode policy decides on.
   */
  predicate DecidedAfter(o: Order, firstAttempt: bool, t: Trace, e: PassEnd, t2: Trace) {
    e.Decided? ==>
      && |t2.replies| > |t.replies|
      && ((Resent(o, t2, e.outcome) && |t2.replies| - 2 >= |t.replies|) || DecidedOnLast(o.action, firstAttempt, t2, e.outcome))
  }

  /**
   * A pass that decides the operation does so on its last reply: the resend
   * without stops after a market order's stops were refused, or a reply the
   * retcode policy decides on.
   */
  lemma {:induction false} WalkDecided(o: Order, advertised: seq<int>, broker: Broker, sl: real, tp: real,
                                       firstAttempt: bool, modes: seq<int>, i: nat, t: Trace)
    requires o.action == Deal || o.action == Pending
    requires i <= |modes|
    requires |t.sent| == |t.replies|
    ensures var (e, t') := Walk(o, advertised, broker, sl, tp, firstAttempt, modes, i, t);
      DecidedAfter(o, firstAttempt, t, e, t')
    decreases (if t.fallbackAdded then 0 else 3) + |modes| - i, 1
  {
    if i < |modes| {
      if Classify(o.action, firstAttempt, broker(|t.sent|, RequestFor(o, sl, tp, modes[i]))) == NextMode {
        WalkDecidedNext(o, advertised, broker, sl, tp, firstAttempt, modes, i, t);
      } else {
        WalkDecidedStop(o, advertised, broker, sl, tp, firstAttempt, modes, i, t);
      }
    }
  }

  lemma {:induction false} WalkDecidedNext(o: Order, advertised: seq<int>, broker: Broker, sl: real, tp: real,
                                       firstAttempt: bool, modes: seq<int>, i: nat, t: Trace)
    requires o.action == Deal || o.action == Pending
    requires i < |modes|
    requires |t.sent| == |t.replies|
    requires Classify(o.action, firstAttempt, broker(|t.sent|, RequestFor(o, sl, tp, modes[i]))) == NextMode
    ensures var (e, t') := Walk(o, advertised, broker, sl, tp, firstAttempt, modes, i, t);
      DecidedAfter(o, firstAttempt, t, e, t')
    decreases (if t.fallbackAdded then 0 else 3) + |modes| - i, 0
  {
    var request := RequestFor(o, sl, tp, modes[i]);
    var reply := broker(|t.sent|, request);
    ClassifyPolicy(o.action, firstAttempt, reply);
    var t1 := Posted(o, broker, sl, tp, modes, i, t);
    var extra := Fallback(advertised, reply, i + 1, t1.tried, t.fallbackAdded);
    var t2 := t1.(fallbackAdded := t.fallbackAdded || extra != []);
    WalkDecided(o, advertised, broker, sl, tp, firstAttempt, modes + extra, i + 1, t2);
    WalkGrows(o, advertised, broker, sl, tp, firstAttempt, modes + extra, i + 1, t2);
    var (e, t') := Walk(o, advertised, broker, sl, tp, firstAttempt, modes + extra, i + 1, t2);
    assert Walk(o, advertised, broker, sl, tp, firstAttempt, modes, i, t) == (e, t');
  }

  lemma WalkDecidedStop(o: Order, advertised: seq<int>, broker: Broker, sl: real, tp: real,
                                       firstAttempt: bool, modes: seq<int>, i: nat, t: Trace)
    requires o.action == Deal || o.action == Pending
    requires i < |modes|
    requires |t.sent| == |t.replies|
    requires Classify(o.action, firstAttempt, broker(|t.sent|, RequestFor(o, sl, tp, modes[i]))) != NextMode
    ensures var (e, t') := Walk(o, advertised, broker, sl, tp, firstAttempt, modes, i, t);
      DecidedAfter(o, firstAttempt, t, e, t')
  {
    var request := RequestFor(o, sl, tp, modes[i]);
    var reply := broker(|t.sent|, request);
    ClassifyPolicy(o.action, firstAttempt, reply);
    var t1 := Posted(o, broker, sl, tp, modes, i, t);
    assert Resend(broker, request, t1).1.replies[|t.sent|] == reply;
    assert t1.replies[|t.sent|] == reply;
  }

  /**
   * When a pass decides the operation, every reply appended from `t` to `t2`
   * before the deciding one refused a filling mode, apart from the refused
   * stops a resend answers.
   */
  predicate WalkedAfter(o: Order, t: Trace, e: PassEnd, t2: Trace) {
    e.Decided? ==> forall k :: |t.replies| <= k < |t2.replies| - 1 ==>
      Walks(t2.replies[k]) || (k == |t2.replies| - 2 && Resent(o, t2, e.outcome))
  }

  /**
   * Before the reply that decides it, a deciding pass only walked over
   * refused filling modes, apart from the refused stops a resend answers.
   */
  lemma {:induction false} WalkWalked(o: Order, advertised: seq<int>, broker: Broker, sl: real, tp: real,
                                      firstAttempt: bool, modes: seq<int>, i: nat, t: Trace)
    requires o.action == Deal || o.action == Pending
    requires i <= |modes|
    requires |t.sent| == |t.replies|
    ensures var (e, t') := Walk(o, advertised, broker, sl, tp, firstAttempt, modes, i, t);
      WalkedAfter(o, t, e, t')
    decreases (if t.fallbackAdded then 0 else 3) + |modes| - i, 1
  {
    if i < |modes| {
      if Classify(o.action, firstAttempt, broker(|t.sent|, RequestFor(o, sl, tp, modes[i]))) == NextMode {
        WalkWalkedNext(o, advertised, broker, sl, tp, firstAttempt, modes, i, t);
      } else {
        WalkWalkedStop(o, advertised, broker, sl, tp, firstAttempt, modes, i, t);
      }
    }
  }

  lemma {:induction false} WalkWalkedNext(o: Order, advertised: seq<int>, broker: Broker, sl: real, tp: real,
                                      firstAttempt: bool, modes: seq<int>, i: nat, t: Trace)
    requires o.action == Deal || o.action == Pending
    requires i < |modes|
    requires |t.sent| == |t.replies|
    requires Classify(o.action, firstAttempt, broker(|t.sent|, RequestFor(o, sl, tp, modes[i]))) == NextMode
    ensures var (e, t') := Walk(o, advertised, broker, sl, tp, firstAttempt, modes, i, t);
      WalkedAfter(o, t, e, t')
    decreases (if t.fallbackAdded then 0 else 3) + |modes| - i, 0
  {
    var request := RequestFor(o, sl, tp, modes[i]);
    var reply := broker(|t.sent|, request);
    ClassifyPolicy(o.action, firstAttempt, reply);
    var t1 := Posted(o, broker, sl, tp, modes, i, t);
    var extra := Fallback(advertised, reply, i + 1, t1.tried, t.fallbackAdded);
    var t2 := t1.(fallbackAdded := t.fallbackAdded || extra != []);
    WalkWalked(o, advertised, broker, sl, tp, firstAttempt, modes + extra, i + 1, t2);
    WalkGrows(o, advertised, broker, sl, tp, firstAttempt, modes + extra, i + 1, t2);
    var (e, t') := Walk(o, advertised, broker, sl, tp, firstAttempt, modes + extra, i + 1, t2);
    assert Walk(o, advertised, broker, sl, tp, firstAttempt, modes, i, t) == (e, t');
    assert t'.replies[|t.replies|] == t2.replies[|t.replies|] == reply;
  }

  lemma WalkWalkedStop(o: Order, advertised: seq<int>, broker: Broker, sl: real, tp: real,
                                      firstAttempt: bool, modes: seq<int>, i: nat, t: Trace)
    requires o.action == Deal || o.action == Pending
    requires i < |modes|
    requires |t.sent| == |t.replies|
    requires Classify(o.action, firstAttempt, broker(|t.sent|, RequestFor(o, sl, tp, modes[i]))) != NextMode
    ensures var (e, t') := Walk(o, advertised, broker, sl, tp, firstAttempt, modes, i, t);
      WalkedAfter(o, t, e, t')
  {
    var request := RequestFor(o, sl, tp, modes[i]);
    var reply := broker(|t.sent|, request);
    ClassifyPolicy(o.action, firstAttempt, reply);
    var t1 := Posted(o, broker, sl, tp, modes, i, t);
    assert Resend(broker, request, t1).1.replies[|t.sent|] == reply;
  }

  /**
   * How many requests were appended from `t` to `t2`: a pending order one at
   * most, leaving the tried modes alone; a market order no more than
   * `budget`, three more if the fallback was appended, and one resend.
   */
  predicate CountsAfter(o: Order, t: Trace, e: PassEnd, t2: Trace, budget: int) {
    && (t.fallbackAdded ==> t2.fallbackAdded)
    && (o.action == Pending ==> |t2.sent| <= |t.sent| + 1 && t2.tried == t.tried)
    && (o.action == Deal ==>
          |t2.sent| - |t.sent| <= budget + (if t2.fallbackAdded && !t.fallbackAdded then 3 else 0) + (if e.Decided? then 1 else 0))
  }

  lemma CountsStep(o: Order, t: Trace, t1: Trace, e: PassEnd, t2: Trace, budget: int, added: nat)
    requires o.action == Deal
    requires |t1.sent| == |t.sent| + 1
    requires (added == 0 && t1.fallbackAdded == t.fallbackAdded) || (added <= 3 && !t.fallbackAdded && t1.fallbackAdded)
    requires CountsAfter(o, t1, e, t2, budget - 1 + added)
    ensures CountsAfter(o, t, e, t2, budget)
  {
  }

  /**
   * How many requests a pass sends: a pending order one at most; a market
   * order one per remaining mode, three more if it appends the fallback, and
   * one resend.
   */
  lemma {:induction false} WalkCounts(o: Order, advertised: seq<int>, broker: Broker, sl: real, tp: real,
                                      firstAttempt: bool, modes: seq<int>, i: nat, t: Trace)
    requires o.action == Deal || o.action == Pending
    requires i <= |modes|
    ensures var (e, t') := Walk(o, advertised, broker, sl, tp, firstAttempt, modes, i, t);
      CountsAfter(o, t, e, t', |modes| - i)
    decreases (if t.fallbackAdded then 0 else 3) + |modes| - i, 1
  {
    if i < |modes| {
      if Classify(o.action, firstAttempt, broker(|t.sent|, RequestFor(o, sl, tp, modes[i]))) == NextMode {
        WalkCountsNext(o, advertised, broker, sl, tp, firstAttempt, modes, i, t);
      } else {
        WalkCountsStop(o, advertised, broker, sl, tp, firstAttempt, modes, i, t);
      }
    }
  }

  lemma {:induction false} WalkCountsNext(o: Order, advertised: seq<int>, broker: Broker, sl: real, tp: real,
                                      firstAttempt: bool, modes: seq<int>, i: nat, t: Trace)
    requires o.action == Deal || o.action == Pending
    requires i < |modes|
    requires Classify(o.action, firstAttempt, broker(|t.sent|, RequestFor(o, sl, tp, modes[i]))) == NextMode
    ensures var (e, t') := Walk(o, advertised, broker, sl, tp, firstAttempt, modes, i, t);
      CountsAfter(o, t, e, t', |modes| - i)
    decreases (if t.fallbackAdded then 0 else 3) + |modes| - i, 0
  {
    var request := RequestFor(o, sl, tp, modes[i]);
    var reply := broker(|t.sent|, request);
    ClassifyPolicy(o.action, firstAttempt, reply);
    var t1 := Posted(o, broker, sl, tp, modes, i, t);
    var extra := Fallback(advertised, reply, i + 1, t1.tried, t.fallbackAdded);
    var t2 := t1.(fallbackAdded := t.fallbackAdded || extra != []);
    WalkCounts(o, advertised, broker, sl, tp, firstAttempt, modes + extra, i + 1, t2);
    var (e, t') := Walk(o, advertised, broker, sl, tp, firstAttempt, modes + extra, i + 1, t2);
    assert Walk(o, advertised, broker, sl, tp, firstAttempt, modes, i, t) == (e, t');
    CountsStep(o, t, t2, e, t', |modes| - i, |extra|);
  }

  lemma WalkCountsStop(o: Order, advertised: seq<int>, broker: Broker, sl: real, tp: real,
                                      firstAttempt: bool, modes: seq<int>, i: nat, t: Trace)
    requires o.action == Deal || o.action == Pending
    requires i < |modes|
    requires Classify(o.action, firstAttempt, broker(|t.sent|, RequestFor(o, sl, tp, modes[i]))) != NextMode
    ensures var (e, t') := Walk(o, advertised, broker, sl, tp, firstAttempt, modes, i, t);
      CountsAfter(o, t, e, t', |modes| - i)
  {
    var request := RequestFor(o, sl, tp, modes[i]);
    var reply := broker(|t.sent|, request);
    ClassifyPolicy(o.action, firstAttempt, reply);
    var t1 := Posted(o, broker, sl, tp, modes, i, t);
  }

  /**
   * A pending order's tried modes are left alone; when a market order's
   * pass ends open, each request appended from `t` to `t2` carries the
   * filling mode recorded for it, in order.
   */
  predicate TriedAfter(o: Order, t: Trace, e: PassEnd, t2: Trace) {
    && (o.action == Pending ==> t2.tried == t.tried)
    && (o.action == Deal && e.Open? ==>
          && |t2.tried| == |t.tried| + (|t2.sent| - |t.sent|)
          && forall k :: |t.sent| <= k < |t2.sent| ==> FillingOf(t2.sent[k]) == Some(t2.tried[|t.tried| + (k - |t.sent|)]))
  }

  lemma TriedStep(o: Order, t: Trace, t1: Trace, e: PassEnd, t2: Trace, request: TradeRequest, mode: int)
    requires o.action == Deal
    requires t1.sent == t.sent + [request] && t1.tried == t.tried + [mode] && Grew(t1, t2)
    requires FillingOf(request) == Some(mode)
    requires TriedAfter(o, t1, e, t2)
    ensures TriedAfter(o, t, e, t2)
  {
    var (n0, m0) := (|t.sent|, |t.tried|);
    assert t2.sent[n0] == t1.sent[n0] == request;
    assert t2.tried[m0] == t1.tried[m0] == mode;
    if e.Open? {
      forall k | n0 <= k < |t2.sent|
        ensures FillingOf(t2.sent[k]) == Some(t2.tried[m0 + (k - n0)])
      {
        if k == n0 {
          assert FillingOf(t2.sent[k]) == Some(mode);
        }
      }
    }
  }

  /** An open pass of a market order records the filling mode of each request it sent, in order. */
  lemma {:induction false} WalkTried(o: Order, advertised: seq<int>, broker: Broker, sl: real, tp: real,
                                     firstAttempt: bool, modes: seq<int>, i: nat, t: Trace)
    requires o.action == Deal || o.action == Pending
    requires i <= |modes|
    ensures var (e, t') := Walk(o, advertised, broker, sl, tp, firstAttempt, modes, i, t);
      TriedAfter(o, t, e, t')
    decreases (if t.fallbackAdded then 0 else 3) + |modes| - i, 1
  {
    if i < |modes| {
      if Classify(o.action, firstAttempt, broker(|t.sent|, RequestFor(o, sl, tp, modes[i]))) == NextMode {
        WalkTriedNext(o, advertised, broker, sl, tp, firstAttempt, modes, i, t);
      } else {
        WalkTriedStop(o, advertised, broker, sl, tp, firstAttempt, modes, i, t);
      }
    }
  }

  lemma {:induction false} WalkTriedNext(o: Order, advertised: seq<int>, broker: Broker, sl: real, tp: real,
                                     firstAttempt: bool, modes: seq<int>, i: nat, t: Trace)
    requires o.action == Deal || o.action == Pending
    requires i < |modes|
    requires Classify(o.action, firstAttempt, broker(|t.sent|, RequestFor(o, sl, tp, modes[i]))) == NextMode
    ensures var (e, t') := Walk(o, advertised, broker, sl, tp, firstAttempt, modes, i, t);
      TriedAfter(o, t, e, t')
    decreases (if t.fallbackAdded then 0 else 3) + |modes| - i, 0
  {
    var request := RequestFor(o, sl, tp, modes[i]);
    var reply := broker(|t.sent|, request);
    ClassifyPolicy(o.action, firstAttempt, reply);
    var t1 := Posted(o, broker, sl, tp, modes, i, t);
    var extra := Fallback(advertised, reply, i + 1, t1.tried, t.fallbackAdded);
    var t2 := t1.(fallbackAdded := t.fallbackAdded || extra != []);
    WalkTried(o, advertised, broker, sl, tp, firstAttempt, modes + extra, i + 1, t2);
    WalkGrows(o, advertised, broker, sl, tp, firstAttempt, modes + extra, i + 1, t2);
    var (e, t') := Walk(o, advertised, broker, sl, tp, firstAttempt, modes + extra, i + 1, t2);
    assert Walk(o, advertised, broker, sl, tp, firstAttempt, modes, i, t) == (e, t');
    TriedStep(o, t, t2, e, t', request, modes[i]);
  }

  lemma WalkTriedStop(o: Order, advertised: seq<int>, broker: Broker, sl: real, tp: real,
                                     firstAttempt: bool, modes: seq<int>, i: nat, t: Trace)
    requires o.action == Deal || o.action == Pending
    requires i < |modes|
    requires Classify(o.action, firstAttempt, broker(|t.sent|, RequestFor(o, sl, tp, modes[i]))) != NextMode
    ensures var (e, t') := Walk(o, advertised, broker, sl, tp, firstAttempt, modes, i, t);
      TriedAfter(o, t, e, t')
  {
    var request := RequestFor(o, sl, tp, modes[i]);
    var reply := broker(|t.sent|, request);
    ClassifyPolicy(o.action, firstAttempt, reply);
    var t1 := Posted(o, broker, sl, tp, modes, i, t);
    if o.action == Deal && Classify(o.action, firstAttempt, reply) == EndPass {
      TriedStep(o, t, t1, Open, t1, request, modes[i]);
    }
  }

  /** The two passes `Send` makes at most, unrolled. */
  lemma SendUnrolled(o: Order, modes: seq<int>, broker: Broker)
    requires o.action == Deal || o.action == Pending
    ensures var first := Walk(o, modes, broker, o.sl, o.tp, true, modes, 0, Trace([], [], [], false));
      var second := Walk(o, modes, broker, 0.0, 0.0, false, modes, 0, first.1);
      Send(o, modes, broker)
      == if first.0.Decided? then (first.0.outcome, first.1)
         else if second.0.Decided? then (second.0.outcome, second.1)
         else (Failure(if o.action == Deal then NoFillingModeWorked(second.1.tried) else PendingNotPlaced), second.1)
  {
  }

  /** Everything the lemmas about a pass over all of `modes` state about a pass from `t` ending as `e` with `t2`. */
  predicate PassFacts(o: Order, modes: seq<int>, broker: Broker, sl: real, tp: real, firstAttempt: bool,
                      t: Trace, e: PassEnd, t2: Trace) {
    && GrowsTo(o, broker, sl, tp, modes, 0, t, (e, t2))
    && ConformsAfter(o, modes, sl, tp, t, t2)
    && OpenAfter(o, firstAttempt, t, e, t2)
    && DecidedAfter(o, firstAttempt, t, e, t2)
    && WalkedAfter(o, t, e, t2)
    && CountsAfter(o, t, e, t2, |modes|)
    && TriedAfter(o, t, e, t2)
  }

  lemma PassFactsHold(o: Order, modes: seq<int>, broker: Broker, sl: real, tp: real, firstAttempt: bool, t: Trace)
    requires o.action == Deal || o.action == Pending
    requires (sl == o.sl && tp == o.tp) || (sl == 0.0 && tp == 0.0)
    requires |t.sent| == |t.replies|
    ensures var (e, t2) := Walk(o, modes, broker, sl, tp, firstAttempt, modes, 0, t);
      PassFacts(o, modes, broker, sl, tp, firstAttempt, t, e, t2)
  {
    assert Walkable(modes, modes);
    WalkGrows(o, modes, broker, sl, tp, firstAttempt, modes, 0, t);
    WalkConforms(o, modes, broker, sl, tp, firstAttempt, modes, 0, t);
    WalkOpen(o, modes, broker, sl, tp, firstAttempt, modes, 0, t);
    WalkDecided(o, modes, broker, sl, tp, firstAttempt, modes, 0, t);
    WalkWalked(o, modes, broker, sl, tp, firstAttempt, modes, 0, t);
    WalkCounts(o, modes, broker, sl, tp, firstAttempt, modes, 0, t);
    WalkTried(o, modes, broker, sl, tp, firstAttempt, modes, 0, t);
  }

  /**
   * `r` and `t` are what `open_trade` ends with after a first pass ending as
   * `e1` with `t1` and a second ending as `e2` with `t2`, the facts about
   * both passes holding.
   */
  predicate Passes(o: Order, modes: seq<int>, broker: Broker, e1: PassEnd, t1: Trace, e2: PassEnd, t2: Trace,
                   r: Result<int, SendFailure>, t: Trace) {
    && PassFacts(o, modes, broker, o.sl, o.tp, true, Trace([], [], [], false), e1, t1)
    && PassFacts(o, modes, broker, 0.0, 0.0, false, t1, e2, t2)
    && (if e1.Decided? then r == e1.outcome && t == t1
        else if e2.Decided? then r == e2.outcome && t == t2
        else r == Failure(if o.action == Deal then NoFillingModeWorked(t2.tried) else PendingNotPlaced) && t == t2)
  }

  /** The two passes of `Send`, with the facts about each. */
  lemma SendPasses(o: Order, modes: seq<int>, broker: Broker) returns (e1: PassEnd, t1: Trace, e2: PassEnd, t2: Trace)
    requires o.action == Deal || o.action == Pending
    ensures Passes(o, modes, broker, e1, t1, e2, t2, Send(o, modes, broker).0, Send(o, modes, broker).1)
  {
    var t0 := Trace([], [], [], false);
    e1, t1 := Walk(o, modes, broker, o.sl, o.tp, true, modes, 0, t0).0, Walk(o, modes, broker, o.sl, o.tp, true, modes, 0, t0).1;
    e2, t2 := Walk(o, modes, broker, 0.0, 0.0, false, modes, 0, t1).0, Walk(o, modes, broker, 0.0, 0.0, false, modes, 0, t1).1;
    SendUnrolled(o, modes, broker);
    PassFactsHold(o, modes, broker, o.sl, o.tp, true, t0);
    PassFactsHold(o, modes, broker, 0.0, 0.0, false, t1);
  }

  lemma AnsweredPasses(o: Order, modes: seq<int>, broker: Broker, e1: PassEnd, t1: Trace, e2: PassEnd, t2: Trace,
                       r: Result<int, SendFailure>, t: Trace)
    requires Passes(o, modes, broker, e1, t1, e2, t2, r, t)
    ensures Answered(broker, t)
    ensures |t.sent| > 0 ==> |modes| > 0 && t.sent[0] == RequestFor(o, o.sl, o.tp, modes[0])
  {
    assert Answered(broker, Trace([], [], [], false));
    if |t1.sent| > 0 {
      assert t2.sent[0] == t1.sent[0];
    }
  }

  /**
   * The broker answers every request `open_trade` sends, in order, and the
   * first request carries the order's stops and its first filling mode.
   */
  lemma SendAnswered(o: Order, modes: seq<int>, broker: Broker)
    requires o.action == Deal || o.action == Pending
    ensures var (r, t) := Send(o, modes, broker);
      && Answered(broker, t)
      && (|t.sent| > 0 ==> |modes| > 0 && t.sent[0] == RequestFor(o, o.sl, o.tp, modes[0]))
  {
    var e1, t1, e2, t2 := SendPasses(o, modes, broker);
    AnsweredPasses(o, modes, broker, e1, t1, e2, t2, Send(o, modes, broker).0, Send(o, modes, broker).1);
  }

  lemma ConformsPasses(o: Order, modes: seq<int>, broker: Broker, e1: PassEnd, t1: Trace, e2: PassEnd, t2: Trace,
                       r: Result<int, SendFailure>, t: Trace)
    requires Passes(o, modes, broker, e1, t1, e2, t2, r, t)
    ensures forall k :: 0 <= k < |t.sent| ==> Conforms(o, modes, t.sent[k])
    ensures forall j, k :: 0 <= j < k < |t.sent| && NoStops(t.sent[j]) ==> NoStops(t.sent[k])
  {
    var n1 := |t1.sent|;
    forall k | 0 <= k < |t.sent|
      ensures Conforms(o, modes, t.sent[k])
      ensures k >= n1 ==> NoStops(t.sent[k])
      ensures k < n1 ==> (t.sent[k].sl == o.sl && t.sent[k].tp == o.tp) || (k == n1 - 1 && NoStops(t.sent[k]))
    {
      if k < n1 {
        assert t.sent[k] == t1.sent[k];
      }
    }
  }

  /**
   * Every request conforms to the order, and once a request goes without
   * stops every later one does too.
   */
  lemma SendConforms(o: Order, modes: seq<int>, broker: Broker)
    requires o.action == Deal || o.action == Pending
    ensures var (r, t) := Send(o, modes, broker);
      && (forall k :: 0 <= k < |t.sent| ==> Conforms(o, modes, t.sent[k]))
      && (forall j, k :: 0 <= j < k < |t.sent| && NoStops(t.sent[j]) ==> NoStops(t.sent[k]))
  {
    var e1, t1, e2, t2 := SendPasses(o, modes, broker);
    ConformsPasses(o, modes, broker, e1, t1, e2, t2, Send(o, modes, broker).0, Send(o, modes, broker).1);
  }

  /** Refused stops and a refused filling mode never end the operation. */
  lemma NotEnding(r: Reply)
    ensures Walks(r) || IsInvalidStops(r) ==> !Ends(r)
  {
  }

  lemma EndsPasses(o: Order, modes: seq<int>, broker: Broker, e1: PassEnd, t1: Trace, e2: PassEnd, t2: Trace,
                   r: Result<int, SendFailure>, t: Trace)
    requires Passes(o, modes, broker, e1, t1, e2, t2, r, t)
    ensures forall k :: 0 <= k < |t.replies| - 1 ==> !Ends(t.replies[k])
  {
    forall k | 0 <= k < |t.replies| - 1
      ensures !Ends(t.replies[k])
    {
      NotEnding(t.replies[k]);
      if k < |t1.replies| && t == t2 {
        assert t2.replies[k] == t1.replies[k];
      }
    }
  }

  /** The operation ends at the first reply with retcode DONE, INVALID_VOLUME or AUTOTRADING_DISABLED. */
  lemma SendEndsAtFirstVerdict(o: Order, modes: seq<int>, broker: Broker)
    requires o.action == Deal || o.action == Pending
    ensures var (r, t) := Send(o, modes, broker);
      forall k :: 0 <= k < |t.replies| - 1 ==> !Ends(t.replies[k])
  {
    var e1, t1, e2, t2 := SendPasses(o, modes, broker);
    EndsPasses(o, modes, broker, e1, t1, e2, t2, Send(o, modes, broker).0, Send(o, modes, broker).1);
  }

  /** A pass decided on its last reply succeeds exactly when that reply is DONE. */
  lemma DecidedSuccess(o: Order, firstAttempt: bool, t: Trace, outcome: Result<int, SendFailure>)
    requires Resent(o, t, outcome) || DecidedOnLast(o.action, firstAttempt, t, outcome)
    ensures outcome.Success? <==> LastRetcode(t.replies, RETCODE_DONE)
    ensures outcome.Success? ==> outcome.value == t.replies[|t.replies| - 1].order
  {
  }

  /** When both passes end open, no reply of the operation ends it. */
  lemma OpenPasses(o: Order, modes: seq<int>, broker: Broker, e1: PassEnd, t1: Trace, e2: PassEnd, t2: Trace,
                   r: Result<int, SendFailure>, t: Trace)
    requires Passes(o, modes, broker, e1, t1, e2, t2, r, t)
    requires e1.Open? && e2.Open?
    ensures forall k :: 0 <= k < |t.replies| ==>
      && !Ends(t.replies[k])
      && (o.action == Deal ==> !IsInvalidStops(t.replies[k]))
  {
    forall k | 0 <= k < |t.replies|
      ensures !Ends(t.replies[k]) && (o.action == Deal ==> !IsInvalidStops(t.replies[k]))
    {
      if k < |t1.replies| {
        assert t2.replies[k] == t1.replies[k];
      }
    }
  }

  lemma OutcomePasses(o: Order, modes: seq<int>, broker: Broker, e1: PassEnd, t1: Trace, e2: PassEnd, t2: Trace,
                      r: Result<int, SendFailure>, t: Trace)
    requires Passes(o, modes, broker, e1, t1, e2, t2, r, t)
    ensures r.Success? <==> LastRetcode(t.replies, RETCODE_DONE)
    ensures r.Success? ==> r.value == t.replies[|t.replies| - 1].order
  {
    if e1.Decided? {
      DecidedSuccess(o, true, t1, e1.outcome);
    } else if e2.Decided? {
      DecidedSuccess(o, false, t2, e2.outcome);
    } else {
      OpenPasses(o, modes, broker, e1, t1, e2, t2, r, t);
    }
  }

  /** The operation succeeds exactly when the last reply is DONE, with that reply's order ticket. */
  lemma SendOutcome(o: Order, modes: seq<int>, broker: Broker)
    requires o.action == Deal || o.action == Pending
    ensures var (r, t) := Send(o, modes, broker);
      && (r.Success? <==> LastRetcode(t.replies, RETCODE_DONE))
      && (r.Success? ==> r.value == t.replies[|t.replies| - 1].order)
  {
    var e1, t1, e2, t2 := SendPasses(o, modes, broker);
    OutcomePasses(o, modes, broker, e1, t1, e2, t2, Send(o, modes, broker).0, Send(o, modes, broker).1);
  }

  /** The outcome a pass decides on reports a retcode `code` that ends the operation exactly as the policy says. */
  lemma DecidedRejected(o: Order, firstAttempt: bool, t: Trace, outcome: Result<int, SendFailure>, code: int,
                        failure: SendFailure)
    requires Resent(o, t, outcome) || DecidedOnLast(o.action, firstAttempt, t, outcome)
    requires (code == RETCODE_INVALID_VOLUME && failure == InvalidVolume)
          || (code == RETCODE_AUTOTRADING_DISABLED && failure == AutoTradingDisabled)
    ensures outcome == Failure(failure) ==> LastRetcode(t.replies, code)
    ensures LastRetcode(t.replies, code) ==> outcome == Failure(failure) || outcome == Failure(StopsRetryFailed(code))
  {
  }

  lemma RejectedPasses(o: Order, modes: seq<int>, broker: Broker, e1: PassEnd, t1: Trace, e2: PassEnd, t2: Trace,
                       r: Result<int, SendFailure>, t: Trace, code: int, failure: SendFailure)
    requires Passes(o, modes, broker, e1, t1, e2, t2, r, t)
    requires (code == RETCODE_INVALID_VOLUME && failure == InvalidVolume)
          || (code == RETCODE_AUTOTRADING_DISABLED && failure == AutoTradingDisabled)
    ensures r == Failure(failure) ==> LastRetcode(t.replies, code)
    ensures LastRetcode(t.replies, code) ==> r == Failure(failure) || r == Failure(StopsRetryFailed(code))
  {
    if e1.Decided? {
      DecidedRejected(o, true, t1, e1.outcome, code, failure);
    } else if e2.Decided? {
      DecidedRejected(o, false, t2, e2.outcome, code, failure);
    } else {
      OpenPasses(o, modes, broker, e1, t1, e2, t2, r, t);
    }
  }

  /**
   * An invalid volume or disabled AutoTrading is reported exactly when the
   * last reply carries that retcode (unless it answered the resend without
   * stops, which reports a failed stops retry).
   */
  lemma SendRejected(o: Order, modes: seq<int>, broker: Broker)
    requires o.action == Deal || o.action == Pending
    ensures var (r, t) := Send(o, modes, broker);
      && (r == Failure(InvalidVolume) ==> LastRetcode(t.replies, RETCODE_INVALID_VOLUME))
      && (LastRetcode(t.replies, RETCODE_INVALID_VOLUME) ==>
            r == Failure(InvalidVolume) || r == Failure(StopsRetryFailed(RETCODE_INVALID_VOLUME)))
      && (r == Failure(AutoTradingDisabled) ==> LastRetcode(t.replies, RETCODE_AUTOTRADING_DISABLED))
      && (LastRetcode(t.replies, RETCODE_AUTOTRADING_DISABLED) ==>
            r == Failure(AutoTradingDisabled) || r == Failure(StopsRetryFailed(RETCODE_AUTOTRADING_DISABLED)))
  {
    var e1, t1, e2, t2 := SendPasses(o, modes, broker);
    var (r, t) := Send(o, modes, broker);
    RejectedPasses(o, modes, broker, e1, t1, e2, t2, r, t, RETCODE_INVALID_VOLUME, InvalidVolume);
    RejectedPasses(o, modes, broker, e1, t1, e2, t2, r, t, RETCODE_AUTOTRADING_DISABLED, AutoTradingDisabled);
  }

  /** A market order's pass that saw neither a reply ending the operation nor refused stops ends open. */
  lemma DecidedSawEnd(o: Order, firstAttempt: bool, t: Trace, e: PassEnd, t2: Trace)
    requires o.action == Deal && DecidedAfter(o, firstAttempt, t, e, t2)
    requires forall k :: 0 <= k < |t2.replies| ==> !Ends(t2.replies[k]) && !IsInvalidStops(t2.replies[k])
    ensures e.Open?
  {
  }

  lemma ExhaustedPasses(o: Order, modes: seq<int>, broker: Broker, e1: PassEnd, t1: Trace, e2: PassEnd, t2: Trace,
                        r: Result<int, SendFailure>, t: Trace)
    requires o.action == Deal || o.action == Pending
    requires Passes(o, modes, broker, e1, t1, e2, t2, r, t)
    ensures (r.Failure? && r.error.NoFillingModeWorked?) <==>
      o.action == Deal && forall k :: 0 <= k < |t.replies| ==> !Ends(t.replies[k]) && !IsInvalidStops(t.replies[k])
    ensures r.Failure? && r.error.NoFillingModeWorked? ==>
      && r.error.tried == t.tried && |t.tried| == |t.sent|
      && forall k :: 0 <= k < |t.sent| ==> FillingOf(t.sent[k]) == Some(t.tried[k])
    ensures r == Failure(PendingNotPlaced) ==> o.action == Pending && forall k :: 0 <= k < |t.replies| ==> !Ends(t.replies[k])
  {
    if e1.Open? && e2.Open? {
      OpenPasses(o, modes, broker, e1, t1, e2, t2, r, t);
      if o.action == Deal {
        forall k | 0 <= k < |t2.sent|
          ensures FillingOf(t2.sent[k]) == Some(t2.tried[k])
        {
          if k < |t1.sent| {
            assert t2.sent[k] == t1.sent[k] && t2.tried[k] == t1.tried[k];
          }
        }
      }
    } else {
      assert !(r.Failure? && (r.error.NoFillingModeWorked? || r.error.PendingNotPlaced?));
      if o.action == Deal && forall k :: 0 <= k < |t.replies| ==> !Ends(t.replies[k]) && !IsInvalidStops(t.replies[k]) {
        if e1.Decided? {
          DecidedSawEnd(o, true, Trace([], [], [], false), e1, t1);
        } else {
          DecidedSawEnd(o, false, t1, e2, t2);
        }
      }
    }
  }

  /**
   * A market order ends with "no filling mode worked" exactly when no reply
   * ended the operation and none refused its stops; the modes it reports are
   * then those of its requests, in order. A pending order that is not placed
   * got no reply that ends the operation.
   */
  lemma SendExhausted(o: Order, modes: seq<int>, broker: Broker)
    requires o.action == Deal || o.action == Pending
    ensures var (r, t) := Send(o, modes, broker);
      && ((r.Failure? && r.error.NoFillingModeWorked?) <==>
            o.action == Deal && forall k :: 0 <= k < |t.replies| ==> !Ends(t.replies[k]) && !IsInvalidStops(t.replies[k]))
      && (r.Failure? && r.error.NoFillingModeWorked? ==>
            && r.error.tried == t.tried && |t.tried| == |t.sent|
            && forall k :: 0 <= k < |t.sent| ==> FillingOf(t.sent[k]) == Some(t.tried[k]))
      && (r == Failure(PendingNotPlaced) ==> o.action == Pending && forall k :: 0 <= k < |t.replies| ==> !Ends(t.replies[k]))
  {
    var e1, t1, e2, t2 := SendPasses(o, modes, broker);
    ExhaustedPasses(o, modes, broker, e1, t1, e2, t2, Send(o, modes, broker).0, Send(o, modes, broker).1);
  }

  lemma RetryPasses(o: Order, modes: seq<int>, broker: Broker, e1: PassEnd, t1: Trace, e2: PassEnd, t2: Trace,
                    r: Result<int, SendFailure>, t: Trace)
    requires Passes(o, modes, broker, e1, t1, e2, t2, r, t)
    ensures o.action == Deal ==> forall k :: 0 <= k < |t.replies| - 1 && IsInvalidStops(t.replies[k]) ==>
      k == |t.replies| - 2 && Resent(o, t, r)
    ensures r.Failure? && r.error.StopsRetryFailed? ==> Resent(o, t, r)
  {
    if o.action == Deal {
      if e1.Open? && e2.Open? {
        OpenPasses(o, modes, broker, e1, t1, e2, t2, r, t);
      } else if e1.Open? {
        assert forall k :: 0 <= k < |t1.replies| ==> t2.replies[k] == t1.replies[k];
      }
    }
  }

  /**
   * A market order whose stops are refused is resent once without stops,
   * and that resend decides the operation; a "stops retry failed" outcome
   * comes only from such a resend.
   */
  lemma SendRetry(o: Order, modes: seq<int>, broker: Broker)
    requires o.action == Deal || o.action == Pending
    ensures var (r, t) := Send(o, modes, broker);
      && (o.action == Deal ==> forall k :: 0 <= k < |t.replies| - 1 && IsInvalidStops(t.replies[k]) ==>
            k == |t.replies| - 2 && Resent(o, t, r))
      && (r.Failure? && r.error.StopsRetryFailed? ==> Resent(o, t, r))
  {
    var e1, t1, e2, t2 := SendPasses(o, modes, broker);
    RetryPasses(o, modes, broker, e1, t1, e2, t2, Send(o, modes, broker).0, Send(o, modes, broker).1);
  }

  lemma CountsPasses(o: Order, modes: seq<int>, broker: Broker, e1: PassEnd, t1: Trace, e2: PassEnd, t2: Trace,
                     r: Result<int, SendFailure>, t: Trace)
    requires Passes(o, modes, broker, e1, t1, e2, t2, r, t)
    ensures o.action == Pending ==> |t.sent| <= 2
    ensures o.action == Deal ==> |t.sent| <= 2 * |modes| + 4
  {
  }

  /** A pending order is sent at most twice; a market order at most `2 * |modes| + 4` times. */
  lemma SendCounts(o: Order, modes: seq<int>, broker: Broker)
    requires o.action == Deal || o.action == Pending
    ensures var (r, t) := Send(o, modes, broker);
      && (o.action == Pending ==> |t.sent| <= 2)
      && (o.action == Deal ==> |t.sent| <= 2 * |modes| + 4)
  {
    var e1, t1, e2, t2 := SendPasses(o, modes, broker);
    CountsPasses(o, modes, broker, e1, t1, e2, t2, Send(o, modes, broker).0, Send(o, modes, broker).1);
  }
}
