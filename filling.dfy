/**
 * Order filling modes (`_get_filling_modes` and the fallback list of
 * `open_trade`): the modes a symbol advertises in its `filling_mode` bit
 * mask, in the preference order RETURN, IOC, FOK.
 */
module Filling {
  import opened Wrappers
  import opened Terminal

  const RETURN: int := 1
  const IOC: int := 2
  const FOK: int := 4

  /** Every filling mode, in preference order. */
  const AllModes: seq<int> := [RETURN, IOC, FOK]

  /** `mask & flag` is non-zero for a single-bit `flag` (floor division agrees with Python's `&` on negative masks). */
  predicate HasFlag(mask: int, flag: int)
    requires flag > 0
  {
    (mask / flag) % 2 == 1
  }

  predicate Distinct(s: seq<int>) {
    forall i, j :: 0 <= i < j < |s| ==> s[i] != s[j]
  }

  /** The elements of `s` are drawn from `AllModes` in its order. */
  predicate InPreferenceOrder(s: seq<int>) {
    forall i, j :: 0 <= i < j < |s| ==> s[i] < s[j]
  }

  predicate Recognised(mask: int) {
    HasFlag(mask, RETURN) || HasFlag(mask, IOC) || HasFlag(mask, FOK)
  }

  function Advertised(mask: int): (r: seq<int>)
    ensures forall m :: m in r <==> m in AllModes && HasFlag(mask, m)
    ensures InPreferenceOrder(r)
  {
    (if HasFlag(mask, RETURN) then [RETURN] else [])
    + (if HasFlag(mask, IOC) then [IOC] else [])
    + (if HasFlag(mask, FOK) then [FOK] else [])
  }

  /**
   * The modes to try for a market order: the advertised ones, or all three
   * when the symbol information is missing or advertises none.
   */
  function FillingModes(info: Option<SymbolInfo>): (r: seq<int>)
    ensures 1 <= |r| <= 3
    ensures InPreferenceOrder(r) && Distinct(r)
    ensures forall m :: m in r ==> m in AllModes
    ensures info.None? ==> r == AllModes
    ensures info.Some? ==> forall m :: m in AllModes ==>
      (m in r <==> HasFlag(info.value.fillingMode, m) || !Recognised(info.value.fillingMode))
  {
    if info.None? then AllModes
    else
      var advertised := Advertised(info.value.fillingMode);
      if advertised == [] then AllModes else advertised
  }

  /** The fallback list: the modes of `AllModes` not yet tried, in preference order. */
  function Untried(tried: seq<int>): (r: seq<int>)
    ensures |r| <= 3
    ensures forall m :: m in r <==> m in AllModes && m !in tried
    ensures InPreferenceOrder(r) && Distinct(r)
  {
    (if RETURN in tried then [] else [RETURN])
    + (if IOC in tried then [] else [IOC])
    + (if FOK in tried then [] else [FOK])
  }

  /** Once the fallback has been tried, every mode has been tried and the fallback list is empty. */
  lemma {:induction false} UntriedExhausted(tried: seq<int>)
    ensures Untried(tried + Untried(tried)) == []
  {
    var u := Untried(tried);
    assert RETURN in tried + u && IOC in tried + u && FOK in tried + u;
  }
}
