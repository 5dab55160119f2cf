/** The pricing-strategy factory: a fixed registry from names to strategies,
    looked up ignoring case, with the standard strategy as the fallback. */
module PricingStrategyFactory {
  import opened Wrappers
  import opened Seqs
  import opened Pricing

  /** Ordinal case folding as far as ASCII letters go. */
  function FoldCase(c: char): (f: char)
    ensures 'A' <= c <= 'Z' ==> f as int == c as int + 32
    ensures !('A' <= c <= 'Z') ==> f == c
  {
    if 'A' <= c <= 'Z' then (c as int + 32) as char else c
  }

  /** `StringComparer.OrdinalIgnoreCase` equality. */
  predicate EqualsIgnoreCase(a: string, b: string)
  {
    |a| == |b| && forall i :: 0 <= i < |a| ==> FoldCase(a[i]) == FoldCase(b[i])
  }

  /** The registry the constructor builds, in insertion order. */
  const Registry: seq<(string, Strategy)> := [
    ("standard", StandardPricing),
    ("loyalty", LoyaltyPricing),
    ("seasonal", SeasonalPricing),
    ("weekend", WeekendPricing)
  ]

  /** `TryGetValue`: the strategy registered under a name equal to `name`
      ignoring case. */
  function Lookup(name: string): (r: Option<Strategy>)
    ensures r.Some? <==> exists i :: 0 <= i < |Registry| && EqualsIgnoreCase(Registry[i].0, name)
    ensures forall i :: 0 <= i < |Registry| && EqualsIgnoreCase(Registry[i].0, name) ==> r == Some(Registry[i].1)
  {
    match FirstIndex(Registry, (e: (string, Strategy)) => EqualsIgnoreCase(e.0, name))
    case Some(i) =>
      RegistryKeysDistinct();
      Some(Registry[i].1)
    case None => None
  }

  /** `CreateStrategy`: the registered strategy, else the standard one. A
      name selects loyalty, seasonal or weekend pricing exactly when it
      spells that key in any mix of cases. */
  function CreateStrategy(strategyType: string): (s: Strategy)
    ensures s == LoyaltyPricing <==> EqualsIgnoreCase(strategyType, "loyalty")
    ensures s == SeasonalPricing <==> EqualsIgnoreCase(strategyType, "seasonal")
    ensures s == WeekendPricing <==> EqualsIgnoreCase(strategyType, "weekend")
    ensures Lookup(strategyType).None? ==> s == StandardPricing
  {
    NameMatchesAtMostOneKey(strategyType);
    match Lookup(strategyType)
    case Some(strategy) => strategy
    case None => StandardPricing
  }

  /** `GetAvailableStrategies`: the registry's keys, each of which the
      factory resolves to the strategy registered under it. */
  function GetAvailableStrategies(): (names: seq<string>)
    ensures names == ["standard", "loyalty", "seasonal", "weekend"]
    ensures |names| == |Registry|
    ensures forall i :: 0 <= i < |names| ==> CreateStrategy(names[i]) == Registry[i].1
  {
    seq(|Registry|, i requires 0 <= i < |Registry| => Registry[i].0)
  }

  /** No two registered keys are equal ignoring case, so the case-insensitive
      dictionary could be built without a duplicate-key error. */
  lemma RegistryKeysDistinct()
    ensures forall i, j :: 0 <= i < j < |Registry| ==> !EqualsIgnoreCase(Registry[i].0, Registry[j].0)
  {
    assert !EqualsIgnoreCase("standard", "seasonal") by {
      assert FoldCase("standard"[1]) != FoldCase("seasonal"[1]);
    }
    assert !EqualsIgnoreCase("loyalty", "weekend") by {
      assert FoldCase("loyalty"[0]) != FoldCase("weekend"[0]);
    }
  }

  /** No name equals two registered keys ignoring case: the keys of equal
      length differ in a letter at the same position. */
  lemma NameMatchesAtMostOneKey(name: string)
    ensures !(EqualsIgnoreCase("standard", name) && EqualsIgnoreCase("seasonal", name))
    ensures !(EqualsIgnoreCase("loyalty", name) && EqualsIgnoreCase("weekend", name))
  {
    assert EqualsIgnoreCase("standard", name) ==> FoldCase(name[1]) == 't';
    assert EqualsIgnoreCase("seasonal", name) ==> FoldCase(name[1]) == 'e';
    assert EqualsIgnoreCase("loyalty", name) ==> FoldCase(name[0]) == 'l';
    assert EqualsIgnoreCase("weekend", name) ==> FoldCase(name[0]) == 'w';
  }

  /** Lookup ignores case: "LOYALTY" and "Weekend" resolve to their
      strategies. */
  lemma UpperCaseNamesResolve()
    ensures CreateStrategy("LOYALTY") == LoyaltyPricing
    ensures CreateStrategy("Weekend") == WeekendPricing
  {
    assert EqualsIgnoreCase("LOYALTY", "loyalty");
    assert EqualsIgnoreCase("Weekend", "weekend");
  }

  /** Unregistered names, the empty one included, fall back to standard
      pricing; so does a name of any length other than 7 or 8. */
  lemma UnknownNamesFallBack(name: string)
    requires |name| != 7 && |name| != 8
    ensures CreateStrategy(name) == StandardPricing
    ensures CreateStrategy("") == StandardPricing
    ensures CreateStrategy("premium") == StandardPricing
  {
    assert FoldCase("premium"[0]) != FoldCase("loyalty"[0]);
    assert FoldCase("premium"[0]) != FoldCase("weekend"[0]);
  }
}
