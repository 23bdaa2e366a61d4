/** The overseas price-detail query of the stock list
    (client/src/features/stock/queries/get-search-stock.ts): its query
    parameters and the day's change it derives from the answer. */
module SearchStock {
  import opened Common

  /** `OverseasPriceDetailQuery`. */
  datatype PriceDetailQuery = PriceDetailQuery(auth: string, excd: string, symb: string)

  /** `buildParams(query)`. */
  function BuildParams(q: PriceDetailQuery): seq<(string, string)>
  {
    [("AUTH", q.auth), ("EXCD", q.excd), ("SYMB", q.symb)]
  }

  /** The parameters are exactly `AUTH`, `EXCD` and `SYMB`, in that order,
      each carrying the query's field. */
  lemma BuildParamsFacts(q: PriceDetailQuery)
    ensures Keys(BuildParams(q)) == ["AUTH", "EXCD", "SYMB"]
    ensures Lookup(BuildParams(q), "AUTH") == Some(q.auth)
    ensures Lookup(BuildParams(q), "EXCD") == Some(q.excd)
    ensures Lookup(BuildParams(q), "SYMB") == Some(q.symb)
  {
    var p := BuildParams(q);
    assert "AUTH"[0] != "EXCD"[0] && "AUTH"[0] != "SYMB"[0] && "EXCD"[0] != "SYMB"[0];
    assert p[1..] == [("EXCD", q.excd), ("SYMB", q.symb)];
    assert p[1..][1..] == [("SYMB", q.symb)];
    assert Lookup(p[1..][1..], "SYMB") == Some(q.symb);
    assert Lookup(p[1..], "SYMB") == Some(q.symb);
  }

  /** The fields of `OverseasPriceDetailOutput` the change is computed
      from; `tXrat` may be missing. */
  datatype PriceDetailOutput = PriceDetailOutput(tXrat: Option<string>, last: string, base: string)

  /** The change: `rateText` is `rate.toFixed(2)`. */
  datatype ChangeInfo = ChangeInfo(rate: real, isNegative: bool)

  /** `tryParse(value)`; `number` is JavaScript's `Number(text)`. */
  function TryParse(value: Option<string>, number: string -> JsNumber): Option<real>
  {
    if value.None? || value.value == "" then None
    else match number(value.value)
      case Finite(x) => Some(x)
      case _ => None
  }

  /** The rate: `t_xrat` when it parses to a finite number, else
      `(last - base) / base * 100` when both parse and `base` is not zero. */
  function Rate(o: PriceDetailOutput, number: string -> JsNumber): Option<real>
  {
    var t := TryParse(o.tXrat, number);
    if t.Some? then t
    else match (number(o.last), number(o.base))
      case (Finite(last), Finite(base)) => if base != 0.0 then Some((last - base) / base * 100.0) else None
      case _ => None
  }

  /** `getPriceChangeInfo(output)`; `None` is `null`. */
  function PriceChangeInfo(o: PriceDetailOutput, number: string -> JsNumber): Option<ChangeInfo>
  {
    var r := Rate(o, number);
    if r.None? then None else Some(ChangeInfo(r.value, r.value < 0.0))
  }

  /** The reported rate comes from `t_xrat` whenever it is a non-empty
      finite number; otherwise from `last` and `base` when both are finite
      and `base` is not zero; and there is no result when neither yields a
      number. The sign flag is set exactly when the rate is negative. */
  lemma PriceChangeFacts(o: PriceDetailOutput, number: string -> JsNumber)
    ensures var r := PriceChangeInfo(o, number);
      var fromT := o.tXrat.Some? && o.tXrat.value != "" && number(o.tXrat.value).Finite?;
      var fromLastBase := number(o.last).Finite? && number(o.base).Finite? && number(o.base).value != 0.0;
      (fromT ==> r.Some? && r.value.rate == number(o.tXrat.value).value) &&
      (!fromT && fromLastBase ==>
        r.Some? && r.value.rate == (number(o.last).value - number(o.base).value) / number(o.base).value * 100.0) &&
      (r.None? <==> !fromT && !fromLastBase) &&
      (r.Some? ==> (r.value.isNegative <==> r.value.rate < 0.0))
  {
  }

  /** Computed from prices with a positive base, the change is negative
      exactly when the last price is below the base. */
  lemma FallbackSign(o: PriceDetailOutput, number: string -> JsNumber)
    requires TryParse(o.tXrat, number).None?
    requires number(o.last).Finite? && number(o.base).Finite? && number(o.base).value > 0.0
    ensures PriceChangeInfo(o, number).Some?
    ensures PriceChangeInfo(o, number).value.isNegative <==> number(o.last).value < number(o.base).value
  {
    var last := number(o.last).value;
    var base := number(o.base).value;
    var d := (last - base) / base;
    assert d * base == last - base;
    if last < base {
      assert d < 0.0;
    } else {
      assert d >= 0.0;
    }
  }
}
