/** Company facts (`CompanyFactsResponse`) and the series pickers of
    client/src/features/stock/utils/stock-past-info.ts: unit choice by
    preference, the first-unit fallback, the fixed currency fallback and
    the concept search across taxonomies. */
module Units {
  import opened Common
  import opened Facts
  import opened Normalize

  /** `units`: unit name to fact list, in JSON key order. */
  type UnitMap = seq<(string, seq<Fact>)>

  /** `SecConceptFacts`: only `units` is read. */
  datatype Concept = Concept(units: UnitMap)

  /** `CompanyFactsResponse.facts`: taxonomy to concept to facts, in key
      order; an absent `facts` object is the empty sequence. */
  datatype CompanyFacts = CompanyFacts(facts: seq<(string, seq<(string, Concept)>)>)

  const USGaap := "us-gaap"
  const IfrsFull := "ifrs-full"

  /** `FALLBACK_CURRENCY_UNITS`. */
  function FallbackCurrencyUnits(): seq<string>
  {
    ["USD", "DKK", "EUR", "GBP", "JPY", "KRW", "CHF", "SEK", "NOK", "CAD", "AUD"]
  }

  /** `data.facts?.[taxonomy]?.[concept]?.units`. */
  function UnitsOf(data: CompanyFacts, taxonomy: string, concept: string): Option<UnitMap>
  {
    match Lookup(data.facts, taxonomy)
    case None => None
    case Some(concepts) =>
      match Lookup(concepts, concept)
      case None => None
      case Some(c) => Some(c.units)
  }

  /** The unit list stored under `u`, when it is present and non-empty. */
  predicate HasNonEmpty(units: UnitMap, u: string)
  {
    Lookup(units, u).Some? && |Lookup(units, u).value| > 0
  }

  /** The list of the first preferred unit whose list is non-empty. */
  function FirstPreferred(units: UnitMap, preferred: seq<string>): (r: Option<seq<Fact>>)
    ensures r.Some? ==> |r.value| > 0
    ensures r.Some? ==> exists i :: (0 <= i < |preferred| && HasNonEmpty(units, preferred[i]) &&
      r.value == Lookup(units, preferred[i]).value &&
      forall k :: 0 <= k < i ==> !HasNonEmpty(units, preferred[k]))
    ensures r.None? <==> forall i :: 0 <= i < |preferred| ==> !HasNonEmpty(units, preferred[i])
  {
    if preferred == [] then None
    else if HasNonEmpty(units, preferred[0]) then Some(Lookup(units, preferred[0]).value)
    else
      var r := FirstPreferred(units, preferred[1..]);
      if r.Some? then
        ghost var i :| 0 <= i < |preferred[1..]| && HasNonEmpty(units, preferred[1..][i]) &&
          r.value == Lookup(units, preferred[1..][i]).value &&
          forall k :: 0 <= k < i ==> !HasNonEmpty(units, preferred[1..][k]);
        assert preferred[i + 1] == preferred[1..][i];
        r
      else r
  }

  /** `pickUnitSeries`: the first preferred unit with a non-empty list,
      else the first unit key (`Object.keys(unitsObj)[0]`, whatever unit it
      names; an empty key is falsy), each normalized; [] when the concept is
      absent. */
  function PickUnitSeries(data: CompanyFacts, taxonomy: string, concept: string,
                          preferred: seq<string>): seq<Fact>
  {
    match UnitsOf(data, taxonomy, concept)
    case None => []
    case Some(units) =>
      match FirstPreferred(units, preferred)
      case Some(arr) => Normalized(arr)
      case None =>
        if |units| == 0 || units[0].0 == "" then [] else Normalized(units[0].1)
  }

  /** The first-key fallback taken when no preferred unit has data. */
  function FirstKeySeries(units: UnitMap): seq<Fact>
  {
    if |units| == 0 || units[0].0 == "" then [] else Normalized(units[0].1)
  }

  /** The three cases of `pickUnitSeries`, stated through the first-match
      contract of `FirstPreferred`. */
  lemma PickUnitSeriesCases(data: CompanyFacts, taxonomy: string, concept: string,
                            preferred: seq<string>)
    ensures UnitsOf(data, taxonomy, concept).None? ==>
      PickUnitSeries(data, taxonomy, concept, preferred) == []
    ensures UnitsOf(data, taxonomy, concept).Some? ==>
      var units := UnitsOf(data, taxonomy, concept).value;
      (forall i :: (0 <= i < |preferred| && HasNonEmpty(units, preferred[i]) &&
         (forall k :: 0 <= k < i ==> !HasNonEmpty(units, preferred[k]))) ==>
         PickUnitSeries(data, taxonomy, concept, preferred) ==
           Normalized(Lookup(units, preferred[i]).value)) &&
      ((forall i :: 0 <= i < |preferred| ==> !HasNonEmpty(units, preferred[i])) ==>
         PickUnitSeries(data, taxonomy, concept, preferred) == FirstKeySeries(units))
  {
    if UnitsOf(data, taxonomy, concept).Some? {
      var units := UnitsOf(data, taxonomy, concept).value;
      forall i | 0 <= i < |preferred| && HasNonEmpty(units, preferred[i]) &&
                 (forall k :: 0 <= k < i ==> !HasNonEmpty(units, preferred[k]))
        ensures PickUnitSeries(data, taxonomy, concept, preferred) ==
                Normalized(Lookup(units, preferred[i]).value)
      {
        var r := FirstPreferred(units, preferred);
        var i' :| 0 <= i' < |preferred| && HasNonEmpty(units, preferred[i']) &&
          r.value == Lookup(units, preferred[i']).value &&
          forall k :: 0 <= k < i' ==> !HasNonEmpty(units, preferred[k]);
        assert i' == i;
      }
    }
  }

  /** The normalized list of the first currency in `currencies` that has a
      non-empty list. */
  function FirstCurrencySeries(units: UnitMap, currencies: seq<string>): seq<Fact>
  {
    if currencies == [] then []
    else if HasNonEmpty(units, currencies[0]) then Normalized(Lookup(units, currencies[0]).value)
    else FirstCurrencySeries(units, currencies[1..])
  }

  /** The fallback loop as written: `pickUnitSeries` with the single unit
      `[u]`, for each currency in turn, until one is non-empty. */
  function CurrencyLoop(data: CompanyFacts, taxonomy: string, concept: string,
                        currencies: seq<string>): seq<Fact>
  {
    if currencies == [] then []
    else
      var s2 := PickUnitSeries(data, taxonomy, concept, [currencies[0]]);
      if |s2| > 0 then s2 else CurrencyLoop(data, taxonomy, concept, currencies[1..])
  }

  /** `pickUnitSeriesWithCurrencyFallback`. */
  function PickUnitSeriesWithCurrencyFallback(data: CompanyFacts, taxonomy: string,
                                              concept: string, preferred: seq<string>): seq<Fact>
  {
    var s1 := PickUnitSeries(data, taxonomy, concept, preferred);
    if |s1| > 0 then s1 else CurrencyLoop(data, taxonomy, concept, FallbackCurrencyUnits())
  }

  lemma {:induction false} CurrencyLoopIsFirstCurrency(data: CompanyFacts, taxonomy: string,
                                                       concept: string, currencies: seq<string>)
    requires UnitsOf(data, taxonomy, concept).Some?
    requires FirstKeySeries(UnitsOf(data, taxonomy, concept).value) == []
    ensures CurrencyLoop(data, taxonomy, concept, currencies) ==
            FirstCurrencySeries(UnitsOf(data, taxonomy, concept).value, currencies)
  {
    if currencies != [] {
      var units := UnitsOf(data, taxonomy, concept).value;
      var u := currencies[0];
      if HasNonEmpty(units, u) {
        NormalizedCharacterization(Lookup(units, u).value);
        assert FirstPreferred(units, [u]) == Some(Lookup(units, u).value);
      } else {
        assert FirstPreferred(units, [u]).None?;
      }
      CurrencyLoopIsFirstCurrency(data, taxonomy, concept, currencies[1..]);
    }
  }

  /** The currency list is consulted only when the preferred pick is empty,
      and then the series is that of the first listed currency with data:
      the `[u]` retries cannot revive the first-key fallback, which already
      came out empty. */
  lemma CurrencyFallback(data: CompanyFacts, taxonomy: string, concept: string,
                         preferred: seq<string>)
    ensures |PickUnitSeries(data, taxonomy, concept, preferred)| > 0 ==>
      PickUnitSeriesWithCurrencyFallback(data, taxonomy, concept, preferred) ==
      PickUnitSeries(data, taxonomy, concept, preferred)
    ensures |PickUnitSeries(data, taxonomy, concept, preferred)| == 0 ==>
      PickUnitSeriesWithCurrencyFallback(data, taxonomy, concept, preferred) ==
      (match UnitsOf(data, taxonomy, concept)
       case None => []
       case Some(units) => FirstCurrencySeries(units, FallbackCurrencyUnits()))
  {
    var s1 := PickUnitSeries(data, taxonomy, concept, preferred);
    if |s1| == 0 {
      match UnitsOf(data, taxonomy, concept)
      case None =>
        assert forall cs :: CurrencyLoop(data, taxonomy, concept, cs) == [] by {
          forall cs ensures CurrencyLoop(data, taxonomy, concept, cs) == [] {
            CurrencyLoopAbsent(data, taxonomy, concept, cs);
          }
        }
      case Some(units) =>
        match FirstPreferred(units, preferred)
        case Some(arr) =>
          NormalizedCharacterization(arr);
        case None =>
          CurrencyLoopIsFirstCurrency(data, taxonomy, concept, FallbackCurrencyUnits());
    }
  }

  lemma {:induction false} CurrencyLoopAbsent(data: CompanyFacts, taxonomy: string,
                                              concept: string, currencies: seq<string>)
    requires UnitsOf(data, taxonomy, concept).None?
    ensures CurrencyLoop(data, taxonomy, concept, currencies) == []
  {
    if currencies != [] {
      CurrencyLoopAbsent(data, taxonomy, concept, currencies[1..]);
    }
  }

  /** Result of `pickFirstSeriesCrossTaxonomy`: `{ taxonomy, concept, series }`. */
  datatype Picked = Picked(taxonomy: Option<string>, concept: Option<string>, series: seq<Fact>)

  predicate HasSeries(data: CompanyFacts, taxonomy: string, concept: string, unitPref: seq<string>)
  {
    |PickUnitSeriesWithCurrencyFallback(data, taxonomy, concept, unitPref)| > 0
  }

  /** The first concept of `concepts` with a non-empty series in `taxonomy`. */
  function FirstConcept(data: CompanyFacts, taxonomy: string, concepts: seq<string>,
                        unitPref: seq<string>): (r: Option<string>)
    ensures r.Some? ==> exists i :: (0 <= i < |concepts| && concepts[i] == r.value &&
      HasSeries(data, taxonomy, concepts[i], unitPref) &&
      forall k :: 0 <= k < i ==> !HasSeries(data, taxonomy, concepts[k], unitPref))
    ensures r.None? <==> forall i :: 0 <= i < |concepts| ==> !HasSeries(data, taxonomy, concepts[i], unitPref)
  {
    if concepts == [] then None
    else if HasSeries(data, taxonomy, concepts[0], unitPref) then Some(concepts[0])
    else
      var r := FirstConcept(data, taxonomy, concepts[1..], unitPref);
      if r.Some? then
        ghost var i :| 0 <= i < |concepts[1..]| && concepts[1..][i] == r.value &&
          HasSeries(data, taxonomy, concepts[1..][i], unitPref) &&
          forall k :: 0 <= k < i ==> !HasSeries(data, taxonomy, concepts[1..][k], unitPref);
        assert concepts[i + 1] == concepts[1..][i];
        r
      else r
  }

  /** A concept the company does not report has no series, with or
      without the currency fallback. */
  lemma AbsentConcept(data: CompanyFacts, taxonomy: string, concept: string, unitPref: seq<string>)
    requires UnitsOf(data, taxonomy, concept).None?
    ensures PickUnitSeries(data, taxonomy, concept, unitPref) == []
    ensures !HasSeries(data, taxonomy, concept, unitPref)
  {
    CurrencyFallback(data, taxonomy, concept, unitPref);
  }

  /** Every us-gaap concept is tried before any ifrs-full one. */
  function FirstSeriesCrossTaxonomy(data: CompanyFacts, concepts: seq<string>,
                                    unitPref: seq<string>): Picked
  {
    match FirstConcept(data, USGaap, concepts, unitPref)
    case Some(c) => Picked(Some(USGaap), Some(c),
                           PickUnitSeriesWithCurrencyFallback(data, USGaap, c, unitPref))
    case None =>
      match FirstConcept(data, IfrsFull, concepts, unitPref)
      case Some(c) => Picked(Some(IfrsFull), Some(c),
                             PickUnitSeriesWithCurrencyFallback(data, IfrsFull, c, unitPref))
      case None => Picked(None, None, [])
  }

  /** The search order of `pickFirstSeriesCrossTaxonomy`: the result names a
      us-gaap concept with data if one exists; it names an ifrs-full concept
      only when no listed concept has us-gaap data; otherwise it is empty;
      the named concept is the first with data in its taxonomy. */
  lemma CrossTaxonomyOrder(data: CompanyFacts, concepts: seq<string>, unitPref: seq<string>)
    ensures var p := FirstSeriesCrossTaxonomy(data, concepts, unitPref);
      (p.series == [] <==> p.taxonomy.None?) &&
      (p.taxonomy.None? ==> (p.concept.None? &&
         forall i :: 0 <= i < |concepts| ==>
           !HasSeries(data, USGaap, concepts[i], unitPref) &&
           !HasSeries(data, IfrsFull, concepts[i], unitPref))) &&
      (p.taxonomy == Some(IfrsFull) ==>
         forall i :: 0 <= i < |concepts| ==> !HasSeries(data, USGaap, concepts[i], unitPref)) &&
      (p.taxonomy.Some? ==> (p.concept.Some? &&
         (p.taxonomy.value == USGaap || p.taxonomy.value == IfrsFull) &&
         p.series == PickUnitSeriesWithCurrencyFallback(data, p.taxonomy.value, p.concept.value, unitPref) &&
         exists i :: 0 <= i < |concepts| && concepts[i] == p.concept.value &&
           forall k :: 0 <= k < i ==> !HasSeries(data, p.taxonomy.value, concepts[k], unitPref)))
  {
  }

  /** `pickFirstSeriesCrossTaxonomy` as written: two early-return loops. */
  method PickFirstSeriesCrossTaxonomy(data: CompanyFacts, concepts: seq<string>,
                                      unitPref: seq<string>) returns (r: Picked)
    ensures r == FirstSeriesCrossTaxonomy(data, concepts, unitPref)
  {
    var i := 0;
    while i < |concepts|
      invariant 0 <= i <= |concepts|
      invariant FirstConcept(data, USGaap, concepts, unitPref) ==
                FirstConcept(data, USGaap, concepts[i..], unitPref)
    {
      var s := PickUnitSeriesWithCurrencyFallback(data, USGaap, concepts[i], unitPref);
      if |s| > 0 {
        return Picked(Some(USGaap), Some(concepts[i]), s);
      }
      assert concepts[i..][1..] == concepts[i + 1..];
      i := i + 1;
    }
    i := 0;
    while i < |concepts|
      invariant 0 <= i <= |concepts|
      invariant FirstConcept(data, IfrsFull, concepts, unitPref) ==
                FirstConcept(data, IfrsFull, concepts[i..], unitPref)
    {
      var s := PickUnitSeriesWithCurrencyFallback(data, IfrsFull, concepts[i], unitPref);
      if |s| > 0 {
        return Picked(Some(IfrsFull), Some(concepts[i]), s);
      }
      assert concepts[i..][1..] == concepts[i + 1..];
      i := i + 1;
    }
    return Picked(None, None, []);
  }
}
