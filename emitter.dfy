/**
 * The order event emitter: posts lifecycle events to the trading engine's
 * webhook, retrying with exponential backoff.  The network is an oracle
 * answering the k-th post of one emission; sleeping is recorded as the list
 * of delays slept, in seconds.
 */
module Emitter {
  import opened Wrappers
  import opened Text

  /** What one post of an event came to. */
  datatype PostOutcome = Status(code: int) | Timeout | Raised

  /** The webhook's answer to the k-th post of one emission. */
  type Webhook = nat -> PostOutcome

  predicate Delivered(o: PostOutcome) {
    o == Status(200)
  }

  function Pow2(k: nat): (p: nat)
    ensures p >= 1
  {
    if k == 0 then 1 else 2 * Pow2(k - 1)
  }

  /** The delays slept after failed attempts `lo`, `lo + 1`, ... `hi - 1`: 2^k seconds after attempt k. */
  function Backoff(lo: nat, hi: nat): (s: seq<nat>)
    requires lo <= hi
    ensures |s| == hi - lo
    ensures forall i :: 0 <= i < |s| ==> s[i] == Pow2(lo + i)
    decreases hi - lo
  {
    if lo == hi then [] else [Pow2(lo)] + Backoff(lo + 1, hi)
  }

  /**
   * The retry loop from attempt `k` of `n`: (delivered, posts made, delays
   * slept).  A delivered post ends the loop; a failed attempt is followed by
   * a sleep of 2^k seconds unless it was the last one.
   */
  function Attempts(webhook: Webhook, k: nat, n: nat): (r: (bool, nat, seq<nat>))
    requires k <= n
    decreases n - k
  {
    if k == n then (false, 0, [])
    else if Delivered(webhook(k)) then (true, 1, [])
    else
      var (ok, posts, sleeps) := Attempts(webhook, k + 1, n);
      (ok, posts + 1, (if k < n - 1 then [Pow2(k)] else []) + sleeps)
  }

  /**
   * From attempt `k`: delivery happens exactly when some remaining attempt
   * is answered 200, the posts stop at the first such attempt, no more than
   * the remaining attempts are made, and the delays are the backoff after
   * each failed attempt but the last.
   */
  lemma {:induction false} AttemptsSpec(webhook: Webhook, k: nat, n: nat)
    requires k <= n
    ensures var (ok, posts, sleeps) := Attempts(webhook, k, n);
      && (ok <==> exists j :: k <= j < n && Delivered(webhook(j)))
      && k + posts <= n
      && (ok ==> posts >= 1 && Delivered(webhook(k + posts - 1)))
      && (forall j :: k <= j < k + posts - (if ok then 1 else 0) ==> !Delivered(webhook(j)))
      && (!ok ==> posts == n - k)
      && (ok ==> sleeps == Backoff(k, k + posts - 1))
      && (!ok && k < n ==> sleeps == Backoff(k, n - 1))
    decreases n - k
  {
    if k < n && !Delivered(webhook(k)) {
      AttemptsSpec(webhook, k + 1, n);
      var (ok, posts, sleeps) := Attempts(webhook, k + 1, n);
      if ok {
        assert k + 1 + posts - 1 > k;
        if k < n - 1 {
          assert [Pow2(k)] + Backoff(k + 1, k + 1 + posts - 1) == Backoff(k, k + 1 + posts - 1);
        }
      } else if k < n - 1 {
        assert [Pow2(k)] + Backoff(k + 1, n - 1) == Backoff(k, n - 1);
      }
      forall j | k <= j < n && Delivered(webhook(j))
        ensures exists j' :: k + 1 <= j' < n && Delivered(webhook(j'))
      {
        assert j != k;
      }
    }
  }

  /** The attempt loop of `_emit_event` with `retry_count` attempts. */
  method PostWithRetry(webhook: Webhook, retryCount: int) returns (ok: bool, posts: nat, sleeps: seq<nat>)
    ensures (ok, posts, sleeps) == Attempts(webhook, 0, if retryCount > 0 then retryCount else 0)
  {
    var n: nat := if retryCount > 0 then retryCount else 0;
    ok, posts, sleeps := false, 0, [];
    var attempt := 0;
    assert sleeps + Attempts(webhook, 0, n).2 == Attempts(webhook, 0, n).2;
    while attempt < n
      invariant 0 <= attempt <= n && posts == attempt
      invariant Attempts(webhook, 0, n).0 == Attempts(webhook, attempt, n).0
      invariant Attempts(webhook, 0, n).1 == posts + Attempts(webhook, attempt, n).1
      invariant Attempts(webhook, 0, n).2 == sleeps + Attempts(webhook, attempt, n).2
    {
      if Delivered(webhook(attempt)) {
        assert sleeps + Attempts(webhook, attempt, n).2 == sleeps;
        return true, posts + 1, sleeps;
      }
      assert Attempts(webhook, attempt, n).2
          == (if attempt < n - 1 then [Pow2(attempt)] else []) + Attempts(webhook, attempt + 1, n).2;
      if attempt < n - 1 {
        sleeps := sleeps + [Pow2(attempt)];
      }
      posts := posts + 1;
      attempt := attempt + 1;
    }
    assert sleeps + Attempts(webhook, n, n).2 == sleeps;
  }

  /** No more posts than `retry_count`, delivery iff some allowed attempt is answered 200. */
  lemma RetryBounds(webhook: Webhook, retryCount: nat)
    ensures var (ok, posts, _) := Attempts(webhook, 0, retryCount);
      && posts <= retryCount
      && (ok <==> exists j :: 0 <= j < retryCount && Delivered(webhook(j)))
      && (!ok ==> posts == retryCount)
  {
    AttemptsSpec(webhook, 0, retryCount);
  }

  /** The default schedule: three attempts, sleeping 1 s and then 2 s when all fail. */
  lemma DefaultScheduleWhenAllFail(webhook: Webhook)
    requires forall j :: 0 <= j < 3 ==> !Delivered(webhook(j))
    ensures Attempts(webhook, 0, 3) == (false, 3, [1, 2])
  {
    AttemptsSpec(webhook, 0, 3);
    assert Backoff(0, 2) == [1, 2];
  }

  /** What the emitter's session is. */
  datatype Session = NoSession | Open | Closed

  class OrderEventEmitter {
    const webhookUrl: Option<string>
    const enabled: bool
    var session: Session

    /** `enabled` is what the constructor derived from the URL. */
    ghost predicate Valid()
    {
      enabled <==> webhookUrl.Some? && NonBlank(webhookUrl.value)
    }

    /** `enabled` holds exactly when the webhook URL is present and not blank. */
    constructor(webhookUrl: Option<string>)
      ensures this.webhookUrl == webhookUrl
      ensures enabled <==> webhookUrl.Some? && NonBlank(webhookUrl.value)
      ensures Valid()
      ensures session == NoSession
    {
      this.webhookUrl := webhookUrl;
      enabled := webhookUrl.Some? && NonBlank(webhookUrl.value);
      session := NoSession;
    }

    /** `_get_session`: a session is opened unless one is already open. */
    method GetSession()
      modifies this
      ensures session == Open
    {
      if session != Open {
        session := Open;
      }
    }

    /**
     * `_emit_event`: a disabled emitter posts nothing and reports failure;
     * otherwise the session is opened and the retry loop runs.
     */
    method EmitEvent(webhook: Webhook, retryCount: int) returns (ok: bool, posts: nat, sleeps: seq<nat>)
      requires Valid()
      modifies this
      ensures !enabled ==> (ok, posts, sleeps) == (false, 0, []) && session == old(session)
      ensures enabled ==> session == Open
      ensures enabled ==> (ok, posts, sleeps) == Attempts(webhook, 0, if retryCount > 0 then retryCount else 0)
    {
      if !enabled || webhookUrl.None? || webhookUrl.value == [] {
        return false, 0, [];
      }
      GetSession();
      ok, posts, sleeps := PostWithRetry(webhook, retryCount);
    }

    /** `close`: an open session is closed and dropped. */
    method Close()
      modifies this
      ensures old(session) == Open ==> session == NoSession
      ensures old(session) != Open ==> session == old(session)
    {
      if session == Open {
        session := NoSession;
      }
    }
  }

  /*** Events ***/

  const Source: string := "mt5-connector"

  datatype CloseReason = TakeProfit | StopLoss | Manual | UnknownReason

  /** The reason of a close: deal reason 3 is a take-profit, 4 a stop-loss, else an exit deal is manual. */
  function ReasonOf(dealReason: Option<int>, dealEntry: Option<int>): (r: CloseReason)
    ensures r == TakeProfit <==> dealReason == Some(3)
    ensures r == StopLoss <==> dealReason == Some(4)
    ensures r == Manual <==> dealReason != Some(3) && dealReason != Some(4) && dealEntry == Some(1)
    ensures r == UnknownReason <==> dealReason != Some(3) && dealReason != Some(4) && dealEntry != Some(1)
  {
    if dealReason == Some(3) then TakeProfit
    else if dealReason == Some(4) then StopLoss
    else if dealEntry == Some(1) then Manual
    else UnknownReason
  }

  /** The direction of a closed position: type 0 is a buy, any other type a sell, none unknown. */
  function DirectionOf(positionType: Option<int>): (d: Option<string>)
    ensures positionType.None? <==> d.None?
    ensures d == Some("buy") <==> positionType == Some(0)
    ensures d == Some("sell") <==> positionType.Some? && positionType.value != 0
  {
    match positionType
    case None => None
    case Some(t) => Some(if t == 0 then "buy" else "sell")
  }

  /** Python truthiness of an optional number. */
  predicate Given(x: Option<int>) {
    x.Some? && x.value != 0
  }

  /** `a or b` on optional numbers. */
  function OrElse(a: Option<int>, b: Option<int>): (r: Option<int>)
    ensures Given(a) ==> r == a
    ensures !Given(a) ==> r == b
  {
    if Given(a) then a else b
  }

  /** The fields of an event this model keeps. */
  datatype Event = Event(
    source: string,
    eventType: string,
    ticket: Option<int>,
    direction: Option<string>,
    reason: Option<CloseReason>)

  /** The close event: the ticket falls back to the deal's position, the reason and direction as classified. */
  function PositionClosedEvent(positionTicket: Option<int>, positionType: Option<int>,
                               dealPosition: Option<int>, dealReason: Option<int>, dealEntry: Option<int>): (e: Event)
    ensures e.source == Source && e.eventType == "position_closed"
    ensures e.reason == Some(ReasonOf(dealReason, dealEntry))
    ensures e.direction == DirectionOf(positionType)
    ensures Given(positionTicket) ==> e.ticket == positionTicket
    ensures !Given(positionTicket) ==> e.ticket == dealPosition
  {
    Event(Source, "position_closed", OrElse(positionTicket, dealPosition), DirectionOf(positionType),
          Some(ReasonOf(dealReason, dealEntry)))
  }

  /** The order-sent event, direction lower-cased. */
  function OrderSentEvent(ticket: int, direction: string): (e: Event)
    ensures e.source == Source && e.eventType == "order_sent"
    ensures e.ticket == Some(ticket) && e.direction == Some(Lower(direction))
    ensures e.reason.None?
  {
    Event(Source, "order_sent", Some(ticket), Some(Lower(direction)), None)
  }

  /** The modification event: the given event type, "position_modified" when none is given. */
  function PositionModifiedEvent(eventType: Option<string>, ticket: Option<int>, direction: string): (e: Event)
    ensures e.source == Source
    ensures eventType.Some? ==> e.eventType == eventType.value
    ensures eventType.None? ==> e.eventType == "position_modified"
    ensures e.ticket == ticket && e.direction == Some(Lower(direction))
  {
    Event(Source, if eventType.Some? then eventType.value else "position_modified", ticket, Some(Lower(direction)), None)
  }
}
