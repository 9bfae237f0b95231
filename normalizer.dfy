/**
 * Volume normalisation against a symbol's broker limits
 * (`_normalize_volume`): reject below the minimum, reject far above the
 * maximum or clamp just above it, snap to the volume step with Python's
 * `round`, and reject a snapped volume below the minimum.
 */
module Normalizer {
  import opened Terminal

  function Abs(x: real): real {
    if x < 0.0 then -x else x
  }

  /**
   * Python's `round(x)` on a number: the nearest integer, ties to the
   * even neighbour.
   */
  function RoundHalfEven(x: real): (k: int)
    ensures Abs(x - k as real) <= 0.5
    ensures Abs(x - k as real) == 0.5 ==> k % 2 == 0
  {
    var f := x.Floor;
    var d := x - f as real;
    if d < 0.5 then f
    else if d > 0.5 then f + 1
    else if f % 2 == 0 then f
    else f + 1
  }

  /** `round` returns the one integer within a half of its argument when there is no tie. */
  lemma RoundIsNearest(x: real, j: int)
    requires Abs(x - j as real) < 0.5
    ensures RoundHalfEven(x) == j
  {
  }

  lemma RoundOfInteger(j: int)
    ensures RoundHalfEven(j as real) == j
  {
    RoundIsNearest(j as real, j);
  }

  /** Rounding never crosses an integer upper bound. */
  lemma RoundBelowIntegerBound(x: real, m: int)
    requires x <= m as real
    ensures RoundHalfEven(x) <= m
  {
  }

  /** Effective limits: a missing or zero attribute falls back to 0.01, 100 and 0.01. */
  function MinVolume(info: SymbolInfo): real {
    if info.volumeMin == 0.0 then 0.01 else info.volumeMin
  }

  function MaxVolume(info: SymbolInfo): real {
    if info.volumeMax == 0.0 then 100.0 else info.volumeMax
  }

  function VolumeStep(info: SymbolInfo): (step: real)
    ensures step != 0.0
  {
    if info.volumeStep == 0.0 then 0.01 else info.volumeStep
  }

  /** `v` is a whole number of steps. */
  predicate OnGrid(v: real, step: real)
    requires step != 0.0
  {
    (v / step).Floor as real == v / step
  }

  /** The volume that is snapped: the request, or the maximum when the request is within 10% above it. */
  function Clamped(requested: real, info: SymbolInfo): real {
    if requested > MaxVolume(info) then MaxVolume(info) else requested
  }

  datatype VolumeError = BelowMinimum | AboveMaximum | SnappedBelowMinimum

  datatype VolumeResult = Normalized(volume: real) | Rejected(error: VolumeError)

  lemma MulDivCancel(a: real, step: real)
    requires step != 0.0
    ensures (a * step) / step == a
  {
  }

  lemma DivMulCancel(v: real, step: real)
    requires step != 0.0
    ensures (v / step) * step == v
  {
  }

  lemma AbsOfProduct(a: real, b: real)
    ensures Abs(a * b) == Abs(a) * Abs(b)
  {
  }

  lemma ScaleBound(a: real, b: real, c: real)
    requires 0.0 <= a <= b && 0.0 <= c
    ensures a * c <= b * c
  {
  }

  lemma FloorOfInteger(k: int)
    ensures (k as real).Floor == k
  {
  }

  lemma MultipleIsOnGrid(k: int, step: real)
    requires step != 0.0
    ensures OnGrid((k as real) * step, step)
  {
    MulDivCancel(k as real, step);
    FloorOfInteger(k);
  }

  lemma NearMultiple(v: real, step: real, k: int)
    requires step != 0.0
    requires Abs(v / step - k as real) <= 0.5
    ensures Abs(v - (k as real) * step) <= Abs(step) / 2.0
  {
    var e := v / step - k as real;
    DivMulCancel(v, step);
    assert v - (k as real) * step == e * step;
    AbsOfProduct(e, step);
    ScaleBound(Abs(e), 0.5, Abs(step));
    assert Abs(v - (k as real) * step) == Abs(e) * Abs(step);
    assert 0.5 * Abs(step) == Abs(step) / 2.0;
    assert Abs(e) * Abs(step) <= 0.5 * Abs(step);
    assert Abs(v - (k as real) * step) <= Abs(step) / 2.0;
  }

  lemma HalfFactor(d: real, a: real, b: real)
    requires b != 0.0 && d == a * b
    ensures d == b / 2.0 ==> a == 0.5
  {
    if d == b / 2.0 {
      assert (a - 0.5) * b == 0.0;
    }
  }

  /** The distance from a multiple of the step is the distance in steps, scaled by the step. */
  lemma DistanceOfMultiple(v: real, step: real, k: int)
    requires step != 0.0
    ensures Abs((k as real) * step - v) == Abs(v / step - k as real) * Abs(step)
  {
    var e := v / step - k as real;
    DivMulCancel(v, step);
    assert v - (k as real) * step == e * step;
    AbsOfProduct(e, step);
  }

  /**
   * `round(volume / step) * step`: the nearest whole number of steps, the
   * even multiple on a tie.
   */
  function Snap(volume: real, step: real): (v: real)
    requires step != 0.0
    ensures OnGrid(v, step)
    ensures Abs(v - volume) <= Abs(step) / 2.0
    ensures Abs(v - volume) == Abs(step) / 2.0 ==> (v / step).Floor % 2 == 0
  {
    var k := RoundHalfEven(volume / step);
    MultipleIsOnGrid(k, step);
    NearMultiple(volume, step, k);
    DistanceOfMultiple(volume, step, k);
    HalfFactor(Abs((k as real) * step - volume), Abs(volume / step - k as real), Abs(step));
    MulDivCancel(k as real, step);
    FloorOfInteger(k);
    assert Abs((k as real) * step - volume) == Abs(step) / 2.0 ==> k % 2 == 0;
    assert ((k as real) * step / step).Floor == k;
    (k as real) * step
  }

  /** A volume already on the grid snaps to itself. */
  lemma SnapOnGrid(v: real, step: real)
    requires step != 0.0 && OnGrid(v, step)
    ensures Snap(v, step) == v
  {
    var k := (v / step).Floor;
    RoundOfInteger(k);
    DivMulCancel(v, step);
  }

  function NormalizeVolume(requested: real, info: SymbolInfo): (r: VolumeResult)
    ensures r == Rejected(BelowMinimum) <==> requested < MinVolume(info)
    ensures r == Rejected(AboveMaximum) <==>
      MinVolume(info) <= requested && requested > MaxVolume(info) && requested > MaxVolume(info) * 1.1
    ensures r == Rejected(SnappedBelowMinimum) <==>
      MinVolume(info) <= requested && !(requested > MaxVolume(info) && requested > MaxVolume(info) * 1.1)
      && Snap(Clamped(requested, info), VolumeStep(info)) < MinVolume(info)
    ensures r.Normalized? ==> MinVolume(info) <= r.volume
    ensures r.Normalized? ==> OnGrid(r.volume, VolumeStep(info))
    ensures r.Normalized? ==>
      Abs(r.volume - Clamped(requested, info)) <= Abs(VolumeStep(info)) / 2.0
    // on a tie, `round` picks the even multiple of the step
    ensures r.Normalized? && Abs(r.volume - Clamped(requested, info)) == Abs(VolumeStep(info)) / 2.0 ==>
      (r.volume / VolumeStep(info)).Floor % 2 == 0
  {
    var minVol := MinVolume(info);
    var maxVol := MaxVolume(info);
    var step := VolumeStep(info);
    if requested < minVol then Rejected(BelowMinimum)
    else if requested > maxVol && requested > maxVol * 1.1 then Rejected(AboveMaximum)
    else
      var snapped := Snap(Clamped(requested, info), step);
      if snapped < minVol then Rejected(SnappedBelowMinimum) else Normalized(snapped)
  }

  /** When the maximum is itself a whole number of (positive) steps, no normalised volume exceeds it. */
  lemma {:induction false} NormalizedWithinMaximum(requested: real, info: SymbolInfo)
    requires VolumeStep(info) > 0.0 && OnGrid(MaxVolume(info), VolumeStep(info))
    ensures NormalizeVolume(requested, info).Normalized? ==>
      NormalizeVolume(requested, info).volume <= MaxVolume(info)
  {
    SnapBelow(Clamped(requested, info), MaxVolume(info), VolumeStep(info));
  }

  /** Snapping to a positive step never crosses a bound that is on the grid. */
  lemma SnapBelow(vol: real, bound: real, step: real)
    requires step > 0.0 && OnGrid(bound, step) && vol <= bound
    ensures Snap(vol, step) <= bound
  {
    var m := (bound / step).Floor;
    DivBound(vol, bound, step);
    RoundBelowIntegerBound(vol / step, m);
    DivMulCancel(bound, step);
    ScaleBoundSigned(RoundHalfEven(vol / step) as real, m as real, step);
  }

  lemma DivBound(a: real, b: real, step: real)
    requires a <= b && step > 0.0
    ensures a / step <= b / step
  {
  }

  lemma ScaleBoundSigned(a: real, b: real, c: real)
    requires a <= b && 0.0 < c
    ensures a * c <= b * c
  {
  }

  /** A normalised volume that does not exceed the maximum normalises to itself. */
  lemma {:induction false} NormalizeIdempotent(requested: real, info: SymbolInfo)
    requires NormalizeVolume(requested, info).Normalized?
    requires NormalizeVolume(requested, info).volume <= MaxVolume(info)
    ensures NormalizeVolume(NormalizeVolume(requested, info).volume, info)
         == NormalizeVolume(requested, info)
  {
    var v := NormalizeVolume(requested, info).volume;
    SnapOnGrid(v, VolumeStep(info));
    assert Clamped(v, info) == v;
  }
}
