/**
 * The order-flow accumulator: a rolling per-symbol buffer of ticks, evicted
 * from the front once older than the lookback window, and the metrics
 * computed from the ticks of a window (volume attribution by mid-price
 * movement, delta, imbalance and large orders).  Times are whole seconds and
 * the current time is a parameter.
 */
module OrderFlow {
  import opened Wrappers

  /** A tick as buffered; `volume` is the tick volume, 0 when the terminal gives none. */
  datatype TickData = TickData(symbol: string, bid: real, ask: real, volume: int, time: int)

  /*** Buffers ***/

  /** The ticks are in non-decreasing time order. */
  predicate Chronological(s: seq<TickData>) {
    forall i, j :: 0 <= i < j < |s| ==> s[i].time <= s[j].time
  }

  /**
   * The buffer once every tick at its front older than `cutoff` is dropped:
   * a suffix of `s`, all of whose dropped ticks are older than `cutoff`, and
   * whose first tick (if any) is not.
   */
  function Evict(s: seq<TickData>, cutoff: int): (r: seq<TickData>)
    ensures |r| <= |s|
    ensures r != [] ==> r[0].time >= cutoff
  {
    if s != [] && s[0].time < cutoff then Evict(s[1..], cutoff) else s
  }

  /** Eviction only removes a prefix, and only ticks older than the cutoff. */
  lemma {:induction false} EvictDropsOnlyOld(s: seq<TickData>, cutoff: int)
    ensures var r := Evict(s, cutoff);
      r == s[|s| - |r|..] && forall i :: 0 <= i < |s| - |r| ==> s[i].time < cutoff
    decreases |s|
  {
    if s != [] && s[0].time < cutoff {
      EvictDropsOnlyOld(s[1..], cutoff);
    }
  }

  /** In a chronological buffer, eviction leaves only ticks at or after the cutoff. */
  lemma EvictLeavesRecent(s: seq<TickData>, cutoff: int)
    requires Chronological(s)
    ensures forall x :: x in Evict(s, cutoff) ==> x.time >= cutoff
  {
    var r := Evict(s, cutoff);
    EvictDropsOnlyOld(s, cutoff);
    if r != [] {
      forall x | x in r
        ensures x.time >= cutoff
      {
        var j :| 0 <= j < |r| && r[j] == x;
        assert r[0] == s[|s| - |r|] && x == s[|s| - |r| + j];
      }
    }
  }

  /** A tick not older than the cutoff survives eviction as the buffer's last tick. */
  lemma {:induction false} EvictKeepsLast(s: seq<TickData>, tick: TickData, cutoff: int)
    requires tick.time >= cutoff
    ensures var r := Evict(s + [tick], cutoff); r != [] && r[|r| - 1] == tick
    decreases |s|
  {
    if s != [] && s[0].time < cutoff {
      assert (s + [tick])[1..] == s[1..] + [tick];
      EvictKeepsLast(s[1..], tick, cutoff);
    }
  }

  /** Appending a tick no older than the others and evicting keeps a buffer chronological. */
  lemma AddKeepsChronological(s: seq<TickData>, tick: TickData, cutoff: int)
    requires Chronological(s) && forall x :: x in s ==> x.time <= tick.time
    ensures Chronological(Evict(s + [tick], cutoff))
  {
    var t := s + [tick];
    assert Chronological(t) by {
      forall i, j | 0 <= i < j < |t|
        ensures t[i].time <= t[j].time
      {
        if j == |s| {
          assert t[i] in s;
        }
      }
    }
    EvictDropsOnlyOld(t, cutoff);
    var r := Evict(t, cutoff);
    forall i, j | 0 <= i < j < |r|
      ensures r[i].time <= r[j].time
    {
      assert r[i] == t[|t| - |r| + i] && r[j] == t[|t| - |r| + j];
    }
  }

  /*** Metrics ***/

  /** `tick.volume or 1`. */
  function Effective(t: TickData): int {
    if t.volume == 0 then 1 else t.volume
  }

  function Mid(t: TickData): real {
    (t.bid + t.ask) / 2.0
  }

  /** The ticks of `ticks` at or after `cutoff`, in order. */
  function Recent(ticks: seq<TickData>, cutoff: int): (r: seq<TickData>)
    ensures |r| <= |ticks|
  {
    if ticks == [] then []
    else
      var last := ticks[|ticks| - 1];
      Recent(ticks[..|ticks| - 1], cutoff) + (if last.time >= cutoff then [last] else [])
  }

  /** The window holds exactly the ticks at or after the cutoff. */
  lemma {:induction false} RecentMembers(ticks: seq<TickData>, cutoff: int)
    ensures forall x :: x in Recent(ticks, cutoff) <==> x in ticks && x.time >= cutoff
  {
    if ticks != [] {
      var front := ticks[..|ticks| - 1];
      RecentMembers(front, cutoff);
      assert forall x :: x in ticks <==> x in front || x == ticks[|ticks| - 1];
    }
  }

  /** What the pair (prev, curr) adds to (bid volume, ask volume). */
  function PairShare(prev: TickData, curr: TickData): (real, real) {
    var v := Effective(curr) as real;
    if Mid(curr) > Mid(prev) then (0.0, v)
    else if Mid(curr) < Mid(prev) then (v, 0.0)
    else (v * 0.5, v * 0.5)
  }

  /** The volumes attributed over the consecutive pairs of the first `n` ticks. */
  function Attributed(ticks: seq<TickData>, n: nat): (real, real)
    requires n <= |ticks|
  {
    if n <= 1 then (0.0, 0.0)
    else
      var (b, a) := Attributed(ticks, n - 1);
      var (db, da) := PairShare(ticks[n - 2], ticks[n - 1]);
      (b + db, a + da)
  }

  /** The sum of the effective volumes of the first `n` ticks. */
  function SumEffective(ticks: seq<TickData>, n: nat): int
    requires n <= |ticks|
  {
    if n == 0 then 0 else SumEffective(ticks, n - 1) + Effective(ticks[n - 1])
  }

  /** Attribution loses nothing: the two volumes add up to the effective volume of every tick but the first. */
  lemma {:induction false} AttributedTotal(ticks: seq<TickData>, n: nat)
    requires 1 <= n <= |ticks|
    ensures Attributed(ticks, n).0 + Attributed(ticks, n).1
         == (SumEffective(ticks, n) - Effective(ticks[0])) as real
  {
    if n > 1 {
      AttributedTotal(ticks, n - 1);
    } else {
      assert SumEffective(ticks, 1) == Effective(ticks[0]);
    }
  }

  /** With non-negative tick volumes, neither attributed volume is negative. */
  lemma {:induction false} AttributedNonNegative(ticks: seq<TickData>, n: nat)
    requires n <= |ticks|
    requires forall i :: 0 <= i < |ticks| ==> ticks[i].volume >= 0
    ensures Attributed(ticks, n).0 >= 0.0 && Attributed(ticks, n).1 >= 0.0
  {
    if n > 1 {
      AttributedNonNegative(ticks, n - 1);
    }
  }

  lemma {:induction false} SumEffectiveAtLeast(ticks: seq<TickData>, n: nat)
    requires n <= |ticks|
    requires forall i :: 0 <= i < |ticks| ==> ticks[i].volume >= 0
    ensures SumEffective(ticks, n) >= n
  {
    if n > 0 {
      SumEffectiveAtLeast(ticks, n - 1);
    }
  }

  /**
   * With non-negative tick volumes, both attributed volumes are zero exactly
   * when the window holds a single tick.
   */
  lemma NothingAttributedIffSingleTick(ticks: seq<TickData>)
    requires |ticks| >= 1
    requires forall i :: 0 <= i < |ticks| ==> ticks[i].volume >= 0
    ensures Attributed(ticks, |ticks|) == (0.0, 0.0) <==> |ticks| == 1
  {
    AttributedTotal(ticks, |ticks|);
    AttributedNonNegative(ticks, |ticks|);
    SumEffectiveAtLeast(ticks, |ticks|);
    if |ticks| > 1 {
      assert SumEffective(ticks, |ticks|) - Effective(ticks[0]) >= |ticks| - 1 by {
        SumEffectiveAtLeast(ticks[1..], |ticks| - 1);
        SumEffectiveShift(ticks, |ticks|);
      }
    }
  }

  /** Dropping the first tick removes exactly its effective volume from the sum. */
  lemma {:induction false} SumEffectiveShift(ticks: seq<TickData>, n: nat)
    requires 1 <= n <= |ticks|
    ensures SumEffective(ticks, n) == Effective(ticks[0]) + SumEffective(ticks[1..], n - 1)
  {
    if n > 1 {
      SumEffectiveShift(ticks, n - 1);
    }
  }

  datatype Side = BuySide | SellSide

  datatype LargeOrder = LargeOrder(volume: real, side: Side, price: real)

  /** A tick with a non-zero volume at or above the threshold. */
  predicate IsLarge(t: TickData, threshold: real) {
    t.volume != 0 && t.volume as real >= threshold
  }

  /** A large tick is a buy when its ask is above its bid, priced at the ask for a buy and the bid for a sell. */
  function LargeOrderOf(t: TickData): (o: LargeOrder)
    ensures o.side == BuySide <==> t.ask > t.bid
    ensures o.price == (if t.ask > t.bid then t.ask else t.bid)
    ensures o.volume == t.volume as real
  {
    var side := if t.ask > t.bid then BuySide else SellSide;
    LargeOrder(t.volume as real, side, if side == BuySide then t.ask else t.bid)
  }

  /** The large orders among `ticks`, in order. */
  function LargeOrders(ticks: seq<TickData>, threshold: real): (r: seq<LargeOrder>)
    ensures |r| <= |ticks|
  {
    if ticks == [] then []
    else
      var last := ticks[|ticks| - 1];
      LargeOrders(ticks[..|ticks| - 1], threshold) + (if IsLarge(last, threshold) then [LargeOrderOf(last)] else [])
  }

  /** Every large tick is reported, and every report comes from a large tick. */
  lemma {:induction false} LargeOrdersMembers(ticks: seq<TickData>, threshold: real)
    ensures forall t :: t in ticks && IsLarge(t, threshold) ==> LargeOrderOf(t) in LargeOrders(ticks, threshold)
    ensures forall o :: o in LargeOrders(ticks, threshold) ==>
      exists t :: t in ticks && IsLarge(t, threshold) && o == LargeOrderOf(t)
  {
    if ticks != [] {
      var front := ticks[..|ticks| - 1];
      LargeOrdersMembers(front, threshold);
      assert forall x :: x in ticks <==> x in front || x == ticks[|ticks| - 1];
    }
  }

  datatype DeltaSign = BuyingPressure | SellingPressure | Neutral

  /** The result of `compute_order_flow`, before rounding. */
  datatype Metrics = Metrics(
    symbol: string,
    bidVolume: real,
    askVolume: real,
    delta: real,
    deltaSign: DeltaSign,
    imbalanceBuyPct: real,
    imbalanceSellPct: real,
    largeOrders: seq<LargeOrder>,
    tickCount: nat)

  /** The average effective volume of a non-empty window. */
  function Average(recent: seq<TickData>): real
    requires |recent| > 0
  {
    SumEffective(recent, |recent|) as real / |recent| as real
  }

  /** `bid_volume == 0 and ask_volume == 0` falls back to half the average effective volume each. */
  function Volumes(attributed: (real, real), average: real): (v: (real, real))
    ensures attributed != (0.0, 0.0) ==> v == attributed
    ensures attributed == (0.0, 0.0) ==> v.0 == v.1 == average / 2.0
  {
    if attributed.0 == 0.0 && attributed.1 == 0.0 then (average * 0.5, average * 0.5) else attributed
  }

  /** The sign of `ask - bid`. */
  function SignOf(bid: real, ask: real): (s: DeltaSign)
    ensures s == BuyingPressure <==> ask > bid
    ensures s == SellingPressure <==> ask < bid
    ensures s == Neutral <==> ask == bid
  {
    var delta := ask - bid;
    if delta > 0.0 then BuyingPressure else if delta < 0.0 then SellingPressure else Neutral
  }

  /** (buy %, sell %): the ask and bid shares of the total, or 50/50 when the total is not positive. */
  function Imbalance(bid: real, ask: real): (p: (real, real))
    ensures bid + ask > 0.0 ==> p.0 + p.1 == 100.0
    ensures bid + ask <= 0.0 ==> p == (50.0, 50.0)
  {
    var total := bid + ask;
    if total > 0.0 then (ask / total * 100.0, bid / total * 100.0) else (50.0, 50.0)
  }

  /** The metrics from the window's attributed volumes, average effective volume and large orders. */
  function Assemble(symbol: string, count: nat, attributed: (real, real), average: real,
                    large: seq<LargeOrder>): (m: Metrics)
    ensures m.delta == m.askVolume - m.bidVolume
    ensures m.deltaSign == BuyingPressure <==> m.askVolume > m.bidVolume
    ensures m.deltaSign == SellingPressure <==> m.askVolume < m.bidVolume
    ensures m.bidVolume + m.askVolume > 0.0 ==> m.imbalanceBuyPct + m.imbalanceSellPct == 100.0
    ensures m.bidVolume + m.askVolume <= 0.0 ==> m.imbalanceBuyPct == 50.0 && m.imbalanceSellPct == 50.0
    ensures attributed != (0.0, 0.0) ==> (m.bidVolume, m.askVolume) == attributed
    ensures attributed == (0.0, 0.0) ==> m.bidVolume == m.askVolume == average / 2.0
    ensures m.tickCount == count && m.largeOrders == large && m.symbol == symbol
  {
    var (b, a) := Volumes(attributed, average);
    var (buy, sell) := Imbalance(b, a);
    Metrics(symbol, b, a, a - b, SignOf(b, a), buy, sell, large, count)
  }

  /** The large-order threshold: the multiplier times the average effective volume. */
  function Threshold(average: real, multiplier: int): real {
    average * multiplier as real
  }

  /** The metrics of a non-empty window. */
  function MetricsOf(symbol: string, recent: seq<TickData>, multiplier: int): (m: Metrics)
    requires |recent| > 0
    ensures m.delta == m.askVolume - m.bidVolume
    ensures m.deltaSign == BuyingPressure <==> m.askVolume > m.bidVolume
    ensures m.deltaSign == SellingPressure <==> m.askVolume < m.bidVolume
    ensures m.bidVolume + m.askVolume > 0.0 ==> m.imbalanceBuyPct + m.imbalanceSellPct == 100.0
    ensures m.tickCount == |recent|
    ensures Attributed(recent, |recent|) != (0.0, 0.0) ==>
      (m.bidVolume, m.askVolume) == Attributed(recent, |recent|)
    ensures Attributed(recent, |recent|) == (0.0, 0.0) ==>
      m.bidVolume == m.askVolume == Average(recent) / 2.0
  {
    Assemble(symbol, |recent|, Attributed(recent, |recent|), Average(recent),
             LargeOrders(recent, Threshold(Average(recent), multiplier)))
  }

  /**
   * The large orders reported are those of the window's ticks whose volume
   * exceeds the multiplier times the average volume.
   */
  lemma MetricsLargeOrders(symbol: string, recent: seq<TickData>, multiplier: int)
    requires |recent| > 0
    ensures var m := MetricsOf(symbol, recent, multiplier);
      && (forall t :: t in recent && IsLarge(t, Threshold(Average(recent), multiplier)) ==>
            LargeOrderOf(t) in m.largeOrders)
      && (forall o :: o in m.largeOrders ==>
            exists t :: t in recent && IsLarge(t, Threshold(Average(recent), multiplier)) && o == LargeOrderOf(t))
  {
    LargeOrdersMembers(recent, Threshold(Average(recent), multiplier));
  }

  /** The minimum number of buffered ticks for any metrics. */
  const MinTicks: nat := 5

  /** The window used: `window_seconds or lookback_seconds`. */
  function WindowOf(window: Option<int>, lookback: int): int {
    if window.None? || window.value == 0 then lookback else window.value
  }

  /** The specification of `compute_order_flow` at time `now`. */
  function OrderFlowOf(buffers: map<string, seq<TickData>>, lookback: int, multiplier: int,
                       symbol: string, window: Option<int>, now: int): (r: Option<Metrics>)
    ensures r.Some? ==> r.value.symbol == symbol && symbol in buffers && |buffers[symbol]| >= MinTicks
    ensures r.Some? ==> r.value.tickCount == |Recent(buffers[symbol], now - WindowOf(window, lookback))|
  {
    if symbol !in buffers || |buffers[symbol]| < MinTicks then None
    else
      var recent := Recent(buffers[symbol], now - WindowOf(window, lookback));
      if recent == [] then None else Some(MetricsOf(symbol, recent, multiplier))
  }

  /**
   * There are no metrics exactly when the symbol has no buffer, fewer than
   * `MinTicks` ticks, or none in the window.
   */
  lemma OrderFlowNone(buffers: map<string, seq<TickData>>, lookback: int, multiplier: int,
                      symbol: string, window: Option<int>, now: int)
    ensures OrderFlowOf(buffers, lookback, multiplier, symbol, window, now).None? <==>
      || symbol !in buffers
      || |buffers[symbol]| < MinTicks
      || forall x :: x in buffers[symbol] ==> x.time < now - WindowOf(window, lookback)
  {
    if symbol in buffers && |buffers[symbol]| >= MinTicks {
      var recent := Recent(buffers[symbol], now - WindowOf(window, lookback));
      RecentMembers(buffers[symbol], now - WindowOf(window, lookback));
      if recent != [] {
        assert recent[0] in recent;
      }
    }
  }

  /** The list comprehension selecting the window's ticks. */
  method RecentTicks(ticks: seq<TickData>, cutoff: int) returns (recent: seq<TickData>)
    ensures recent == Recent(ticks, cutoff)
  {
    recent := [];
    for i := 0 to |ticks|
      invariant recent == Recent(ticks[..i], cutoff)
    {
      assert ticks[..i + 1][..i] == ticks[..i];
      if ticks[i].time >= cutoff {
        recent := recent + [ticks[i]];
      }
    }
    assert ticks[..|ticks|] == ticks;
  }

  /** The loop over consecutive pairs attributing each tick's volume by mid-price movement. */
  method AttributeVolumes(recent: seq<TickData>) returns (attributed: (real, real))
    ensures attributed == Attributed(recent, |recent|)
  {
    var bidVolume, askVolume := 0.0, 0.0;
    if |recent| > 1 {
      for i := 1 to |recent|
        invariant (bidVolume, askVolume) == Attributed(recent, i)
      {
        var share := PairShare(recent[i - 1], recent[i]);
        bidVolume, askVolume := bidVolume + share.0, askVolume + share.1;
      }
    }
    attributed := (bidVolume, askVolume);
  }

  /** `sum(t.volume or 1 for t in recent_ticks)`. */
  method SumVolumes(recent: seq<TickData>) returns (sum: int)
    ensures sum == SumEffective(recent, |recent|)
  {
    sum := 0;
    for i := 0 to |recent|
      invariant sum == SumEffective(recent, i)
    {
      sum := sum + Effective(recent[i]);
    }
  }

  /** The loop collecting the large orders of the window. */
  method CollectLargeOrders(recent: seq<TickData>, threshold: real) returns (large: seq<LargeOrder>)
    ensures large == LargeOrders(recent, threshold)
  {
    large := [];
    for i := 0 to |recent|
      invariant large == LargeOrders(recent[..i], threshold)
    {
      assert recent[..i + 1][..i] == recent[..i];
      if IsLarge(recent[i], threshold) {
        large := large + [LargeOrderOf(recent[i])];
      }
    }
    assert recent[..|recent|] == recent;
  }

  /**
   * The buffers once `tick` is added under its own symbol: that symbol's
   * buffer (empty if it had none) with the tick appended, then evicted to
   * `tick.time - lookback`.
   */
  function WithTick(buffers: map<string, seq<TickData>>, tick: TickData, lookback: int)
    : map<string, seq<TickData>>
  {
    var before := if tick.symbol in buffers then buffers[tick.symbol] else [];
    buffers[tick.symbol := Evict(before + [tick], tick.time - lookback)]
  }

  /**
   * Adding a tick creates or replaces only its own symbol's buffer, and with
   * a non-negative lookback the new tick ends that buffer.
   */
  lemma AddTickTouchesOnlyItsSymbol(buffers: map<string, seq<TickData>>, tick: TickData, lookback: int)
    ensures WithTick(buffers, tick, lookback).Keys == buffers.Keys + {tick.symbol}
    ensures forall s :: s in buffers && s != tick.symbol ==> WithTick(buffers, tick, lookback)[s] == buffers[s]
    ensures lookback >= 0 ==>
      var b := WithTick(buffers, tick, lookback)[tick.symbol]; |b| > 0 && b[|b| - 1] == tick
  {
    if lookback >= 0 {
      var before := if tick.symbol in buffers then buffers[tick.symbol] else [];
      EvictKeepsLast(before, tick, tick.time - lookback);
    }
  }

  /** The metrics of the window's ticks `recent`: attribution, average volume and large orders. */
  method ComputeMetrics(symbol: string, recent: seq<TickData>, multiplier: int) returns (m: Metrics)
    requires |recent| > 0
    ensures m == MetricsOf(symbol, recent, multiplier)
  {
    var attributed := AttributeVolumes(recent);
    var sum := SumVolumes(recent);
    var average := sum as real / |recent| as real;
    assert average == Average(recent);
    var large := CollectLargeOrders(recent, Threshold(average, multiplier));
    m := Assemble(symbol, |recent|, attributed, average, large);
  }

  class OrderFlowAccumulator {
    const lookbackSeconds: int
    const largeOrderMultiplier: int
    var buffers: map<string, seq<TickData>>

    constructor(lookbackSeconds: int)
      ensures this.lookbackSeconds == lookbackSeconds
      ensures largeOrderMultiplier == 20
      ensures buffers == map[]
    {
      this.lookbackSeconds := lookbackSeconds;
      largeOrderMultiplier := 20;
      buffers := map[];
    }

    /** The symbol's buffer, empty when it has none yet. */
    function BufferOf(symbol: string): seq<TickData>
      reads this
    {
      if symbol in buffers then buffers[symbol] else []
    }

    /**
     * `add_tick`: appends the tick to the symbol's buffer (created on first
     * use), then drops ticks from its front while they are older than
     * `time - lookbackSeconds`.  No other buffer changes.
     */
    method AddTick(symbol: string, bid: real, ask: real, volume: int, time: int)
      modifies this
      ensures buffers == WithTick(old(buffers), TickData(symbol, bid, ask, volume, time), lookbackSeconds)
    {
      var tick := TickData(symbol, bid, ask, volume, time);
      var buffer := if symbol in buffers then buffers[symbol] else [];
      ghost var spec := WithTick(buffers, tick, lookbackSeconds);
      assert spec == buffers[symbol := Evict(buffer + [tick], time - lookbackSeconds)];
      buffer := buffer + [tick];
      ghost var appended := buffer;
      var cutoff := time - lookbackSeconds;
      while buffer != [] && buffer[0].time < cutoff
        invariant Evict(buffer, cutoff) == Evict(appended, cutoff)
      {
        buffer := buffer[1..];
      }
      assert buffer == Evict(appended, cutoff);
      buffers := buffers[symbol := buffer];
      assert buffers == spec;
    }

    /** `compute_order_flow` at time `now`; the buffers are only read. */
    method ComputeOrderFlow(symbol: string, window: Option<int>, now: int) returns (r: Option<Metrics>)
      ensures r == OrderFlowOf(buffers, lookbackSeconds, largeOrderMultiplier, symbol, window, now)
    {
      if symbol !in buffers {
        return None;
      }
      var ticks := buffers[symbol];
      if |ticks| < MinTicks {
        return None;
      }
      var recent := RecentTicks(ticks, now - WindowOf(window, lookbackSeconds));
      if |recent| == 0 {
        return None;
      }
      var metrics := ComputeMetrics(symbol, recent, largeOrderMultiplier);
      r := Some(metrics);
    }

    /** `clear_symbol`: drops that symbol's buffer and no other. */
    method ClearSymbol(symbol: string)
      modifies this
      ensures buffers == old(buffers) - {symbol}
    {
      if symbol in buffers {
        buffers := buffers - {symbol};
      }
    }

    /** `clear_all`: no buffer is left. */
    method ClearAll()
      modifies this
      ensures buffers == map[]
    {
      buffers := map[];
    }
  }
}
