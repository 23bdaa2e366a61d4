/** The SEC company-facts query (client/src/features/stock/queries/get-company-facts.ts):
    the base URL, the zero-padded CIK and the request path. */
module CompanyFacts {
  import opened Common
  import Fetcher

  const DefaultSecApiUrl := "https://data.sec.gov/api"

  /** `getSecBaseUrl()`; `env` is `SEC_API_URL`. */
  function SecBaseUrl(env: Option<string>): string
  {
    var raw := if env.Some? then env.value else DefaultSecApiUrl;
    var withProtocol := if StartsWith(raw, "http") then raw else "https://" + raw;
    DropTrailingSlash(withProtocol)
  }

  /** The base URL always names a protocol; a configured value that has one
      is used as it is, less one trailing slash, and one without gets
      `https://` in front. */
  lemma SecBaseUrlFacts(env: Option<string>)
    ensures env.None? ==> SecBaseUrl(env) == DefaultSecApiUrl
    ensures env.Some? && StartsWith(env.value, "http") ==> SecBaseUrl(env) == DropTrailingSlash(env.value)
    ensures env.Some? && !StartsWith(env.value, "http") ==> SecBaseUrl(env) == DropTrailingSlash("https://" + env.value)
    ensures env.Some? && !StartsWith(env.value, "http") && |env.value| > 0 ==> StartsWith(SecBaseUrl(env), "https://")
  {
    if env.Some? && !StartsWith(env.value, "http") && |env.value| > 0 {
      var w := "https://" + env.value;
      assert DropTrailingSlash(w)[..8] == w[..8];
    }
    if env.None? {
      assert DefaultSecApiUrl[|DefaultSecApiUrl| - 1] != '/';
    }
  }

  /** A CIK as given: text or a number. */
  datatype Cik = CikText(text: string) | CikNumber(number: int)

  /** `String(cik)` (integral numbers only). */
  function CikString(cik: Cik): string
  {
    match cik
    case CikText(s) => s
    case CikNumber(n) => IntToString(n)
  }

  /** `s.replace(/[^0-9]/g, '')`. */
  function Digits(s: string): (r: string)
    ensures |r| <= |s|
    ensures forall i :: 0 <= i < |r| ==> IsDigit(r[i])
  {
    if s == [] then [] else Digits(s[..|s| - 1]) + (if IsDigit(s[|s| - 1]) then [s[|s| - 1]] else [])
  }

  /** `Digits` is exactly the filter by `IsDigit`: the digits of `s`, in
      order. */
  lemma {:induction false} DigitsIsFilter(s: string)
    ensures Digits(s) == Filter(s, IsDigit)
  {
    if s != [] {
      var init := s[..|s| - 1];
      DigitsIsFilter(init);
      assert s == init + [s[|s| - 1]];
      FilterAppend(init, [s[|s| - 1]], IsDigit);
    }
  }

  function Zeros(n: nat): (r: string)
    ensures |r| == n && forall i :: 0 <= i < n ==> r[i] == '0'
  {
    if n == 0 then [] else Zeros(n - 1) + ['0']
  }

  /** `s.padStart(width, '0')`. */
  function PadStart(s: string, width: nat): (r: string)
  {
    if |s| >= width then s else Zeros(width - |s|) + s
  }

  /** `normalizeCik(cik)`. */
  function NormalizeCik(cik: Cik): string
  {
    PadStart(Digits(CikString(cik)), 10)
  }

  /** The normalised CIK is the CIK's digits in order, left-padded with
      zeros to ten characters and never truncated. */
  lemma NormalizeCikShape(cik: Cik)
    ensures var d := Digits(CikString(cik));
      var r := NormalizeCik(cik);
      |r| == (if |d| >= 10 then |d| else 10) &&
      r == Zeros(|r| - |d|) + d &&
      forall i :: 0 <= i < |r| ==> IsDigit(r[i])
  {
    var d := Digits(CikString(cik));
    if |d| >= 10 {
      assert Zeros(0) + d == d;
    }
  }

  lemma {:induction false} DigitsOfDigits(s: string)
    requires forall i :: 0 <= i < |s| ==> IsDigit(s[i])
    ensures Digits(s) == s
  {
    if s != [] {
      DigitsOfDigits(s[..|s| - 1]);
    }
  }

  /** Normalising an already normalised CIK changes nothing. */
  lemma NormalizeIdempotent(cik: Cik)
    ensures NormalizeCik(CikText(NormalizeCik(cik))) == NormalizeCik(cik)
  {
    NormalizeCikShape(cik);
    DigitsOfDigits(NormalizeCik(cik));
  }

  lemma {:induction false} ZerosValue(n: nat)
    ensures DecimalValue(Zeros(n)) == 0
  {
    if n > 0 {
      ZerosValue(n - 1);
    }
  }

  lemma {:induction false} LeadingZerosValue(n: nat, d: string)
    requires forall i :: 0 <= i < |d| ==> IsDigit(d[i])
    ensures DecimalValue(Zeros(n) + d) == DecimalValue(d)
  {
    if d == [] {
      assert Zeros(n) + d == Zeros(n);
      ZerosValue(n);
    } else {
      var init := d[..|d| - 1];
      LeadingZerosValue(n, init);
      var s := Zeros(n) + d;
      assert s[..|s| - 1] == Zeros(n) + init;
    }
  }

  /** A numeric CIK reads back as the same number. */
  lemma NormalizeCikValue(n: nat)
    ensures var r := NormalizeCik(CikNumber(n));
      (forall i :: 0 <= i < |r| ==> IsDigit(r[i])) && DecimalValue(r) == n
  {
    var s := NatToString(n);
    assert CikString(CikNumber(n)) == s;
    DigitsOfDigits(s);
    NatToStringValue(n);
    NormalizeCikShape(CikNumber(n));
    if |s| < 10 {
      LeadingZerosValue(10 - |s|, s);
    }
  }

  /** The request path for a CIK. */
  function CompanyFactsPath(cik: Cik): string
  {
    "/xbrl/companyfacts/CIK" + NormalizeCik(cik) + ".json"
  }

  /** The request goes to the base URL followed by the path: the fetcher
      drops one more trailing slash from the base and adds no query. */
  lemma CompanyFactsUrl(env: Option<string>, cik: Cik, search: seq<(string, string)> -> string)
    ensures Fetcher.BuildUrl(SecBaseUrl(env), CompanyFactsPath(cik), None, search) ==
      DropTrailingSlash(SecBaseUrl(env)) + CompanyFactsPath(cik)
  {
    var p := CompanyFactsPath(cik);
    assert p[0] == '/';
    assert !StartsWith(p, "http");
    assert StartsWith(p, "/");
  }
}
