/**
 * Symbol resolution (`validate_symbol`): the upper-cased symbol, then its
 * broker aliases, then the upper-cased symbol with a broker suffix; the
 * first candidate the terminal knows and that is visible (or can be made
 * visible) wins.  When none does, the caller receives the original symbol
 * and a hint: not logged in, up to five similar names, or "enable it in
 * Market Watch".
 */
module Symbols {
  import opened Wrappers
  import opened Text
  import opened Terminal

  const Aliases: map<string, seq<string>> := map[
    "XAUUSD" := ["GOLD", "XAUUSD", "XAU/USD"],
    "XAGUSD" := ["SILVER", "XAGUSD", "XAG/USD"],
    "BTCUSD" := ["BTCUSD", "BTC/USD"],
    "US30" := ["US30", "US30Cash", "DOW", "DJI"],
    "SPX500" := ["SPX500", "SP500", "US500"],
    "NAS100" := ["NAS100", "NASDAQ", "US100"]
  ]

  const Suffixes: seq<string> := [".0", ".1", ".conv", ".raw", ".pro"]

  const MaxSuggestions: nat := 5

  /** The names tried before any suffix: the upper-cased symbol, then its aliases. */
  function Variants(u: string): (r: seq<string>)
    ensures |r| >= 1 && r[0] == u
  {
    [u] + (if u in Aliases then Aliases[u] else [])
  }

  function Suffixed(u: string): (r: seq<string>)
    ensures |r| == |Suffixes|
    ensures forall k :: 0 <= k < |Suffixes| ==> r[k] == u + Suffixes[k]
  {
    [u + Suffixes[0], u + Suffixes[1], u + Suffixes[2], u + Suffixes[3], u + Suffixes[4]]
  }

  /** Every name tried, in order. */
  function Candidates(u: string): seq<string> {
    Variants(u) + Suffixed(u)
  }

  /** `symbol_info(name)` exists and the symbol is visible or `symbol_select` succeeds. */
  predicate Tradable(listing: map<string, Listing>, name: string) {
    name in listing && (listing[name].visible || listing[name].selectable)
  }

  /** The index of the first tradable name, `|names|` when there is none. */
  function FirstTradable(listing: map<string, Listing>, names: seq<string>): (i: nat)
    ensures i <= |names|
    ensures forall j :: 0 <= j < i ==> !Tradable(listing, names[j])
    ensures i < |names| ==> Tradable(listing, names[i])
    decreases |names|
  {
    if names == [] then 0
    else if Tradable(listing, names[0]) then 0
    else 1 + FirstTradable(listing, names[1..])
  }

  /** Names starting with `u`, in listing order. */
  function WithPrefix(names: seq<string>, u: string): seq<string>
  {
    if names == [] then []
    else
      (if StartsWith(names[0], u) then [names[0]] else []) + WithPrefix(names[1..], u)
  }

  /** Names containing `u` but not starting with it, in listing order. */
  function ContainingNotPrefix(names: seq<string>, u: string): seq<string>
  {
    if names == [] then []
    else
      (if Contains(names[0], u) && !StartsWith(names[0], u) then [names[0]] else [])
      + ContainingNotPrefix(names[1..], u)
  }

  lemma {:induction false} WithPrefixSound(names: seq<string>, u: string)
    ensures forall n :: n in WithPrefix(names, u) ==> n in names && StartsWith(n, u)
    decreases |names|
  {
    if names != [] {
      WithPrefixSound(names[1..], u);
    }
  }

  lemma {:induction false} ContainingNotPrefixSound(names: seq<string>, u: string)
    ensures forall n :: n in ContainingNotPrefix(names, u) ==>
      n in names && Contains(n, u) && !StartsWith(n, u)
    decreases |names|
  {
    if names != [] {
      ContainingNotPrefixSound(names[1..], u);
    }
  }

  /** The list comprehension: names that start with or contain `u`, in listing order. */
  function Similar(names: seq<string>, u: string): seq<string> {
    if names == [] then []
    else
      (if StartsWith(names[0], u) || Contains(names[0], u) then [names[0]] else [])
      + Similar(names[1..], u)
  }

  /** The similar names sorted by the key "starts with `u`" (a stable sort on a 0/1 key). */
  function SimilarPrefixFirst(names: seq<string>, u: string): seq<string> {
    WithPrefix(names, u) + ContainingNotPrefix(names, u)
  }

  /** Sorting on the 0/1 key only reorders the comprehension's list. */
  lemma {:induction false} PrefixFirstIsPermutation(names: seq<string>, u: string)
    ensures multiset(SimilarPrefixFirst(names, u)) == multiset(Similar(names, u))
    decreases |names|
  {
    if names != [] {
      PrefixFirstIsPermutation(names[1..], u);
    }
  }

  /** Names are ordered by the key: no name with the prefix follows one without it. */
  lemma PrefixFirstIsSorted(names: seq<string>, u: string)
    ensures var r := SimilarPrefixFirst(names, u);
      forall i, j :: 0 <= i < j < |r| && StartsWith(r[j], u) ==> StartsWith(r[i], u)
  {
    var p := WithPrefix(names, u);
    var r := SimilarPrefixFirst(names, u);
    WithPrefixSound(names, u);
    ContainingNotPrefixSound(names, u);
    forall i, j | 0 <= i < j < |r| && StartsWith(r[j], u)
      ensures StartsWith(r[i], u)
    {
      if i < |p| {
        assert r[i] in p;
      }
    }
  }

  datatype Hint = NotLoggedIn | Suggestions(names: seq<string>) | NotInMarketWatch

  datatype Resolution =
    | Resolved(name: string, viaSuffix: bool)
    | Unresolved(original: string, hint: Hint)

  /** `s[:n]`: the first `n` names, or all of them when there are fewer. */
  function Take(s: seq<string>, n: nat): (r: seq<string>)
    ensures |r| == if |s| <= n then |s| else n
    ensures r == s[..|r|]
  {
    if |s| <= n then s else s[..n]
  }

  /** The comprehension keeps a name exactly when it starts with or contains `u`. */
  lemma {:induction false} PrefixFirstEmpty(names: seq<string>, u: string)
    ensures SimilarPrefixFirst(names, u) == [] <==>
      forall n :: n in names ==> !(StartsWith(n, u) || Contains(n, u))
    decreases |names|
  {
    if names != [] {
      PrefixFirstEmpty(names[1..], u);
      assert forall n :: n in names ==> n == names[0] || n in names[1..];
    }
  }

  /** The hint given when no candidate resolves. */
  function HintFor(t: TerminalState, u: string): (h: Hint)
    ensures h == NotLoggedIn <==> !t.accountLoggedIn
    ensures t.accountLoggedIn ==>
      (h.Suggestions? <==> exists n :: n in t.symbolNames && (StartsWith(n, u) || Contains(n, u)))
    ensures h.Suggestions? ==> 1 <= |h.names| <= MaxSuggestions
    ensures h.Suggestions? ==> forall n :: n in h.names ==> n in t.symbolNames && Contains(n, u)
    // the first five similar names, those starting with `u` first
    ensures h.Suggestions? ==> h.names == Take(SimilarPrefixFirst(t.symbolNames, u), MaxSuggestions)
  {
    if !t.accountLoggedIn then NotLoggedIn
    else
      var similar := SimilarPrefixFirst(t.symbolNames, u);
      WithPrefixSound(t.symbolNames, u);
      ContainingNotPrefixSound(t.symbolNames, u);
      PrefixFirstEmpty(t.symbolNames, u);
      if similar == [] then NotInMarketWatch
      else
        var shown := Take(similar, MaxSuggestions);
        assert forall n :: n in shown ==> n in similar;
        Suggestions(shown)
  }

  /** The specification of `validate_symbol`. */
  function Resolve(t: TerminalState, symbol: string): (r: Resolution)
    ensures r.Resolved? <==>
      exists j :: 0 <= j < |Candidates(Upper(symbol))| && Tradable(t.listing, Candidates(Upper(symbol))[j])
    ensures r.Resolved? ==> r.name in Candidates(Upper(symbol)) && Tradable(t.listing, r.name)
    ensures r.Resolved? ==>
      (r.viaSuffix <==> forall v :: v in Variants(Upper(symbol)) ==> !Tradable(t.listing, v))
    ensures r.Unresolved? ==> r.original == symbol
    ensures r.Unresolved? ==> r.hint == HintFor(t, Upper(symbol))
  {
    var u := Upper(symbol);
    var c := Candidates(u);
    var v := Variants(u);
    var i := FirstTradable(t.listing, c);
    assert forall j :: 0 <= j < |v| ==> c[j] == v[j];
    if i < |c| then
      assert Tradable(t.listing, c[i]);
      assert i < |v| ==> c[i] in v;
      assert c == Candidates(Upper(symbol));
      assert exists j :: 0 <= j < |Candidates(Upper(symbol))| && Tradable(t.listing, Candidates(Upper(symbol))[j]);
      Resolved(c[i], i >= |v|)
    else
      Unresolved(symbol, HintFor(t, u))
  }

  /** When the k-th candidate is tradable, the resolution is one of the first k+1 candidates. */
  lemma ResolvedNoLaterThan(t: TerminalState, symbol: string, k: nat)
    requires k < |Candidates(Upper(symbol))| && Tradable(t.listing, Candidates(Upper(symbol))[k])
    ensures Resolve(t, symbol).Resolved?
    ensures Resolve(t, symbol).name in Candidates(Upper(symbol))[..k + 1]
  {
    var c := Candidates(Upper(symbol));
    var i := FirstTradable(t.listing, c);
    assert c[i] == Resolve(t, symbol).name;
    assert c[..k + 1][i] == c[i];
  }

  /**
   * The upper-cased symbol is tried before its aliases: a tradable XAUUSD
   * resolves to itself even when GOLD is tradable too.
   */
  lemma OriginalBeforeAlias(t: TerminalState, symbol: string)
    requires Tradable(t.listing, Upper(symbol))
    ensures Resolve(t, symbol) == Resolved(Upper(symbol), false)
  {
  }

  /** A symbol neither listed under a variant nor under a suffix is never resolved. */
  lemma UnknownIsUnresolved(t: TerminalState, symbol: string)
    requires forall n :: n in Candidates(Upper(symbol)) ==> n !in t.listing
    ensures Resolve(t, symbol).Unresolved?
  {
  }

  /** Searching a concatenation searches the first part, then the second. */
  lemma {:induction false} FirstTradableAppend(listing: map<string, Listing>, a: seq<string>, b: seq<string>)
    ensures FirstTradable(listing, a + b)
         == if FirstTradable(listing, a) < |a| then FirstTradable(listing, a) else |a| + FirstTradable(listing, b)
    decreases |a|
  {
    if a != [] {
      assert (a + b)[1..] == a[1..] + b;
      FirstTradableAppend(listing, a[1..], b);
    } else {
      assert a + b == b;
    }
  }

  /** The loop of `validate_symbol` over one list of names. */
  method SearchTradable(listing: map<string, Listing>, names: seq<string>) returns (i: nat)
    ensures i == FirstTradable(listing, names)
  {
    i := 0;
    while i < |names| && !Tradable(listing, names[i])
      invariant i <= |names|
      invariant forall j :: 0 <= j < i ==> !Tradable(listing, names[j])
    {
      i := i + 1;
    }
    FirstTradableIsFirst(listing, names, i);
  }

  /** `FirstTradable` is the least index of a tradable name (or the length). */
  lemma FirstTradableIsFirst(listing: map<string, Listing>, names: seq<string>, i: nat)
    requires i <= |names|
    requires forall j :: 0 <= j < i ==> !Tradable(listing, names[j])
    requires i < |names| ==> Tradable(listing, names[i])
    ensures FirstTradable(listing, names) == i
  {
  }

  method ValidateSymbol(t: TerminalState, symbol: string) returns (r: Resolution)
    ensures r == Resolve(t, symbol)
  {
    var u := Upper(symbol);
    var variants := Variants(u);
    var suffixed := Suffixed(u);
    FirstTradableAppend(t.listing, variants, suffixed);
    var i := SearchTradable(t.listing, variants);
    if i < |variants| {
      return Resolved(variants[i], false);
    }
    var k := SearchTradable(t.listing, suffixed);
    if k < |suffixed| {
      return Resolved(suffixed[k], true);
    }
    if !t.accountLoggedIn {
      return Unresolved(symbol, NotLoggedIn);
    }
    var similar := SimilarSymbols(t.symbolNames, u);
    if similar == [] {
      return Unresolved(symbol, NotInMarketWatch);
    }
    return Unresolved(symbol, Suggestions(Take(similar, MaxSuggestions)));
  }

  lemma FilterStep(names: seq<string>, i: nat, u: string)
    requires i < |names|
    ensures WithPrefix(names[i..], u)
         == (if StartsWith(names[i], u) then [names[i]] else []) + WithPrefix(names[i + 1..], u)
    ensures ContainingNotPrefix(names[i..], u)
         == (if Contains(names[i], u) && !StartsWith(names[i], u) then [names[i]] else [])
            + ContainingNotPrefix(names[i + 1..], u)
  {
    assert names[i..][1..] == names[i + 1..];
  }

  /** One pass over the terminal's symbols collecting the similar names, prefix matches first. */
  method SimilarSymbols(names: seq<string>, u: string) returns (similar: seq<string>)
    ensures similar == SimilarPrefixFirst(names, u)
  {
    var prefixed: seq<string> := [];
    var others: seq<string> := [];
    var i := 0;
    while i < |names|
      invariant 0 <= i <= |names|
      invariant prefixed + WithPrefix(names[i..], u) == WithPrefix(names, u)
      invariant others + ContainingNotPrefix(names[i..], u) == ContainingNotPrefix(names, u)
    {
      FilterStep(names, i, u);
      if StartsWith(names[i], u) {
        prefixed := prefixed + [names[i]];
      } else if Contains(names[i], u) {
        others := others + [names[i]];
      }
      i := i + 1;
    }
    assert names[i..] == [];
    similar := prefixed + others;
  }
}
