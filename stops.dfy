/**
 * Stop-loss / take-profit adjustment (`_adjust_stop_loss_take_profit`):
 * a requested level on the wrong side of the entry price is dropped, and
 * one on the right side but closer than the broker's minimum stop distance
 * is pushed out to exactly that distance.
 */
module Stops {
  import opened Wrappers
  import opened Terminal

  /** `trade_stops_level * point`, a missing stops level counting as 0. */
  function MinStopDistance(info: SymbolInfo): real {
    (info.stopsLevel as real) * info.point
  }

  /** Which side of the entry price a protective level must lie on. */
  datatype Side = Below | Above

  function StopLossSide(d: Direction): Side {
    if d == Buy then Below else Above
  }

  function TakeProfitSide(d: Direction): Side {
    if d == Buy then Above else Below
  }

  predicate OnSide(side: Side, entry: real, level: real) {
    if side == Below then level < entry else level > entry
  }

  /** `level` is at least `dist` away from `entry`, on `side`. */
  predicate FarEnough(side: Side, entry: real, dist: real, level: real) {
    if side == Below then level <= entry - dist else level >= entry + dist
  }

  /** The level at exactly the minimum distance from `entry`. */
  function Boundary(side: Side, entry: real, dist: real): real {
    if side == Below then entry - dist else entry + dist
  }

  function AdjustLevel(info: SymbolInfo, entry: real, requested: Option<real>, side: Side): (r: Option<real>)
    ensures r.None? <==>
      requested.None? || requested.value <= 0.0 || !OnSide(side, entry, requested.value)
    ensures r.Some? ==> OnSide(side, entry, r.value)
    ensures r.Some? ==> FarEnough(side, entry, MinStopDistance(info), r.value)
    // a level already far enough is kept; otherwise it moves to the boundary, never toward the entry
    ensures r.Some? && FarEnough(side, entry, MinStopDistance(info), requested.value) ==>
      r.value == requested.value
    ensures r.Some? && !FarEnough(side, entry, MinStopDistance(info), requested.value) ==>
      r.value == Boundary(side, entry, MinStopDistance(info))
  {
    var dist := MinStopDistance(info);
    if requested.None? || requested.value <= 0.0 then None
    else if !OnSide(side, entry, requested.value) then None
    else if side == Below then
      (if requested.value > entry - dist then Some(entry - dist) else requested)
    else
      (if requested.value < entry + dist then Some(entry + dist) else requested)
  }

  /** The pair of adjusted levels sent with an order (`None` meaning no level). */
  function AdjustStops(info: SymbolInfo, entry: real, sl: Option<real>, tp: Option<real>, d: Direction): (r: (Option<real>, Option<real>))
    ensures r.0.Some? ==> OnSide(StopLossSide(d), entry, r.0.value)
    ensures r.1.Some? ==> OnSide(TakeProfitSide(d), entry, r.1.value)
    ensures r.0.Some? ==> FarEnough(StopLossSide(d), entry, MinStopDistance(info), r.0.value)
    ensures r.1.Some? ==> FarEnough(TakeProfitSide(d), entry, MinStopDistance(info), r.1.value)
    // each level follows the drop, keep and move rules of `AdjustLevel` on its own side
    ensures r.0 == AdjustLevel(info, entry, sl, StopLossSide(d))
    ensures r.1 == AdjustLevel(info, entry, tp, TakeProfitSide(d))
  {
    (AdjustLevel(info, entry, sl, StopLossSide(d)), AdjustLevel(info, entry, tp, TakeProfitSide(d)))
  }

  /** Adjusting an adjusted, positive level again leaves it where it is. */
  lemma AdjustIdempotent(info: SymbolInfo, entry: real, requested: Option<real>, side: Side)
    requires AdjustLevel(info, entry, requested, side).Some?
    requires AdjustLevel(info, entry, requested, side).value > 0.0
    ensures AdjustLevel(info, entry, AdjustLevel(info, entry, requested, side), side)
         == AdjustLevel(info, entry, requested, side)
  {
  }
}
