/** The short-interest query of the stock page
    (client/src/features/stock/queries/get-short-interest.ts): the exchange
    slug and symbol it asks for, and the fields it keeps from the answer. */
module ShortInterest {
  import opened Common

  /** `mapExcdToExchangeSlug(excd)`. */
  function ExchangeSlug(excd: string): string
  {
    var upper := ToUpper(excd);
    if upper == "NAS" then "nasdaq"
    else if upper == "NYS" then "nyse"
    else if upper == "AMS" then "nyseamerican"
    else ToLower(upper)
  }

  /** The `symbol` sent to the short-interest API. */
  function Symbol(excd: string, symb: string): string
  {
    ExchangeSlug(excd) + "-" + ToLower(symb)
  }

  predicate NoUpper(s: string)
  {
    forall i :: 0 <= i < |s| ==> !('A' <= s[i] <= 'Z')
  }

  lemma LowerUpper(s: string)
    ensures ToLower(ToUpper(s)) == ToLower(s)
  {
  }

  /** The three exchange codes map to their slugs whatever their letter
      case; any other code maps to its lower-cased form. */
  lemma ExchangeSlugFacts(excd: string)
    ensures ToUpper(excd) == "NAS" ==> ExchangeSlug(excd) == "nasdaq"
    ensures ToUpper(excd) == "NYS" ==> ExchangeSlug(excd) == "nyse"
    ensures ToUpper(excd) == "AMS" ==> ExchangeSlug(excd) == "nyseamerican"
    ensures ToUpper(excd) != "NAS" && ToUpper(excd) != "NYS" && ToUpper(excd) != "AMS" ==>
      ExchangeSlug(excd) == ToLower(excd)
  {
    LowerUpper(excd);
  }

  /** A slug has no upper-case letter. */
  lemma SlugNoUpper(excd: string)
    ensures NoUpper(ExchangeSlug(excd))
  {
    var upper := ToUpper(excd);
    var slug := ExchangeSlug(excd);
    if upper == "NAS" {
      assert slug == "nasdaq";
      assert NoUpper("nasdaq");
    } else if upper == "NYS" {
      assert slug == "nyse";
      assert NoUpper("nyse");
    } else if upper == "AMS" {
      assert slug == "nyseamerican";
      assert NoUpper("nyseamerican");
    } else {
      assert slug == ToLower(upper);
      LowerNoUpper(upper);
    }
  }

  /** Lower-casing leaves no upper-case letter. */
  lemma LowerNoUpper(s: string)
    ensures NoUpper(ToLower(s))
  {
    var l := ToLower(s);
    forall i | 0 <= i < |l|
      ensures !('A' <= l[i] <= 'Z')
    {
      assert l[i] == LowerChar(s[i]);
    }
  }

  /** Codes equal up to letter case give the same slug. */
  lemma ExchangeSlugIgnoresCase(a: string, b: string)
    requires ToLower(a) == ToLower(b)
    ensures ExchangeSlug(a) == ExchangeSlug(b)
  {
    var la, lb := ToLower(a), ToLower(b);
    assert |a| == |b|;
    var ua, ub := ToUpper(a), ToUpper(b);
    forall i | 0 <= i < |a|
      ensures ua[i] == ub[i]
    {
      assert la[i] == lb[i];
      SameUpper(a[i], b[i]);
    }
    assert ua == ub;
  }

  /** Letters equal up to case have the same upper-case form. */
  lemma SameUpper(c: char, d: char)
    requires LowerChar(c) == LowerChar(d)
    ensures UpperChar(c) == UpperChar(d)
  {
  }

  /** The symbol is the slug, a dash and the lower-cased ticker, with no
      upper-case letter anywhere. */
  lemma SymbolFacts(excd: string, symb: string)
    ensures var s := Symbol(excd, symb);
      StartsWith(s, ExchangeSlug(excd) + "-") && s[|ExchangeSlug(excd)| + 1..] == ToLower(symb) && NoUpper(s)
  {
    SlugNoUpper(excd);
    var slug := ExchangeSlug(excd);
    var s := Symbol(excd, symb);
    assert s[..|slug| + 1] == slug + "-";
    assert s[|slug| + 1..] == ToLower(symb);
    forall i | 0 <= i < |s|
      ensures !('A' <= s[i] <= 'Z')
    {
      if i < |slug| {
        assert s[i] == slug[i];
      } else if i > |slug| {
        assert s[i] == ToLower(symb)[i - |slug| - 1];
      }
    }
  }

  /** `ShortInterestResponse`; a `null` field is `None`. */
  datatype ShortInterestResponse = ShortInterestResponse(status: string, symbol: string, updated: Option<string>,
                                                         fee2: Option<string>, available: Option<string>,
                                                         rebate3: Option<string>)

  /** `ShortInterestData`: the response without `status` and `symbol`. */
  datatype ShortInterestData = ShortInterestData(updated: Option<string>, fee2: Option<string>,
                                                 available: Option<string>, rebate3: Option<string>)

  /** What `getShortInterest` returns for a successful answer. */
  function DataOf(r: ShortInterestResponse): ShortInterestData
  {
    ShortInterestData(r.updated, r.fee2, r.available, r.rebate3)
  }
}
