/** The ownership breakdown card
    (client/src/features/stock/dto/stock-ownership.ts): insiders,
    institutions net of insiders, and the rest, as fractions of the
    outstanding shares and as share counts. */
module OwnershipDto {
  import opened Common
  import opened Ownership

  /** The parts of Yahoo's quote summary the card reads. The market time
      is its ISO text (`toISOString()`), when it is a date. */
  datatype OwnershipYahoo = OwnershipYahoo(
    sharesOutstanding: Option<JsNumber>,
    insidersPercentHeld: Option<JsNumber>,
    institutionsPercentHeld: Option<JsNumber>,
    mostRecentQuarter: Option<string>,
    regularMarketTimeIso: Option<string>,
    exchangeName: Option<string>,
    exchange: Option<string>,
    priceSymbol: Option<string>,
    quoteTypeSymbol: Option<string>)

  datatype RowKey = Institutions | Insiders | Other

  datatype OwnershipRow = OwnershipRow(key: RowKey, title: string, shares: Option<int>, pct: Option<real>)

  datatype OwnershipBreakdown = OwnershipBreakdown(
    asOf: Option<string>,
    exchange: Option<string>,
    symbol: Option<string>,
    sharesOutstanding: Option<real>,
    rows: seq<OwnershipRow>)

  /** The insiders' fraction. */
  function InsidersPct(y: OwnershipYahoo): Option<real>
  {
    NormalizePctMaybe(AsJs(SafeNum(y.insidersPercentHeld)))
  }

  /** The institutions' fraction as reported (insiders included). */
  function InstPctRaw(y: OwnershipYahoo): Option<real>
  {
    NormalizePctMaybe(AsJs(SafeNum(y.institutionsPercentHeld)))
  }

  /** Institutions net of insiders when both are known, else as reported. */
  function InstPct(insiders: Option<real>, instRaw: Option<real>): (r: Option<real>)
    ensures r.Some? <==> instRaw.Some?
    ensures instRaw.Some? && insiders.Some? ==> r.value == Clamp01(instRaw.value - insiders.value)
    ensures instRaw.Some? && insiders.None? ==> r == instRaw
  {
    if instRaw.Some? && insiders.Some? then Some(Clamp01(instRaw.value - insiders.value)) else instRaw
  }

  /** Everyone but the reported institutions. */
  function OtherPct(instRaw: Option<real>): (r: Option<real>)
    ensures r.Some? <==> instRaw.Some?
    ensures r.Some? ==> r.value == Clamp01(1.0 - instRaw.value)
  {
    if instRaw.Some? then Some(Clamp01(1.0 - instRaw.value)) else None
  }

  /** `roundShares(sharesOut * pct)` when both are known. */
  function SharesFor(sharesOut: Option<real>, pct: Option<real>): (r: Option<int>)
    ensures r.Some? <==> sharesOut.Some? && pct.Some?
    ensures r.Some? ==> r.value == RoundShares(sharesOut.value * pct.value)
  {
    if sharesOut.Some? && pct.Some? then Some(RoundShares(sharesOut.value * pct.value)) else None
  }

  /** `mostRecentQuarter.slice(0, 10)` when it is a string, else the date
      part of the market time. */
  function OwnershipAsOf(y: OwnershipYahoo): (r: Option<string>)
    ensures y.mostRecentQuarter.Some? ==> r == Some(DatePart(y.mostRecentQuarter.value))
    ensures y.mostRecentQuarter.None? && y.regularMarketTimeIso.Some? ==>
      r == Some(DatePart(y.regularMarketTimeIso.value))
    ensures r.None? <==> y.mostRecentQuarter.None? && y.regularMarketTimeIso.None?
  {
    if y.mostRecentQuarter.Some? then Some(DatePart(y.mostRecentQuarter.value))
    else if y.regularMarketTimeIso.Some? then Some(DatePart(y.regularMarketTimeIso.value))
    else None
  }

  /** `buildOwnershipBreakdownDTO`. */
  function BuildOwnershipBreakdown(y: OwnershipYahoo): OwnershipBreakdown
  {
    var sharesOut := SafeNum(y.sharesOutstanding);
    var insidersPct := InsidersPct(y);
    var instRaw := InstPctRaw(y);
    var instPct := InstPct(insidersPct, instRaw);
    var otherPct := OtherPct(instRaw);
    OwnershipBreakdown(
      OwnershipAsOf(y),
      OrElse(y.exchangeName, y.exchange),
      OrElse(y.priceSymbol, y.quoteTypeSymbol),
      sharesOut,
      [OwnershipRow(Institutions, "기관 투자자", SharesFor(sharesOut, instPct), instPct),
       OwnershipRow(Insiders, "개인 내부자", SharesFor(sharesOut, insidersPct), insidersPct),
       OwnershipRow(Other, "정부/공공기관 + 일반(추정)", SharesFor(sharesOut, otherPct), otherPct)])
  }

  /** A row's fraction, when known, is in [0, 1], and its shares are that
      fraction of the outstanding shares, rounded, when both are known. */
  predicate RowConsistent(row: OwnershipRow, sharesOut: Option<real>)
  {
    (row.pct.Some? ==> 0.0 <= row.pct.value <= 1.0) &&
    (row.shares.Some? <==> sharesOut.Some? && row.pct.Some?) &&
    (row.shares.Some? ==> row.shares.value == RoundShares(sharesOut.value * row.pct.value))
  }

  lemma RowOf(key: RowKey, title: string, sharesOut: Option<real>, pct: Option<real>)
    requires pct.Some? ==> 0.0 <= pct.value <= 1.0
    ensures RowConsistent(OwnershipRow(key, title, SharesFor(sharesOut, pct), pct), sharesOut)
  {
  }

  /** Three rows in the order institutions, insiders, other, each
      consistent with the outstanding shares; institutions and other are
      known exactly when the institutions' figure is finite, insiders when
      theirs is. */
  lemma BreakdownRows(y: OwnershipYahoo)
    ensures var b := BuildOwnershipBreakdown(y);
      |b.rows| == 3 && b.rows[0].key == Institutions && b.rows[1].key == Insiders &&
      b.rows[2].key == Other &&
      RowConsistent(b.rows[0], b.sharesOutstanding) &&
      RowConsistent(b.rows[1], b.sharesOutstanding) &&
      RowConsistent(b.rows[2], b.sharesOutstanding) &&
      (b.rows[0].pct.Some? <==> SafeNum(y.institutionsPercentHeld).Some?) &&
      (b.rows[2].pct.Some? <==> SafeNum(y.institutionsPercentHeld).Some?) &&
      (b.rows[1].pct.Some? <==> SafeNum(y.insidersPercentHeld).Some?)
  {
    var sharesOut := SafeNum(y.sharesOutstanding);
    var instRaw := InstPctRaw(y);
    var ins := InsidersPct(y);
    var instPct := InstPct(ins, instRaw);
    var otherPct := OtherPct(instRaw);
    RowOf(Institutions, "기관 투자자", sharesOut, instPct);
    RowOf(Insiders, "개인 내부자", sharesOut, ins);
    RowOf(Other, "정부/공공기관 + 일반(추정)", sharesOut, otherPct);
  }

  /** When both fractions are known and the insiders' does not exceed the
      institutions', the three fractions add up to 1; otherwise the excess
      of insiders over institutions is counted twice. */
  lemma BreakdownSumsToOne(y: OwnershipYahoo)
    requires InsidersPct(y).Some? && InstPctRaw(y).Some?
    ensures var b := BuildOwnershipBreakdown(y);
      var ins := InsidersPct(y).value;
      var inst := InstPctRaw(y).value;
      (ins <= inst ==> b.rows[0].pct.value + b.rows[1].pct.value + b.rows[2].pct.value == 1.0) &&
      (ins > inst ==> b.rows[0].pct.value + b.rows[1].pct.value + b.rows[2].pct.value == 1.0 + ins - inst)
  {
    var ins := InsidersPct(y).value;
    var inst := InstPctRaw(y).value;
    var b := BuildOwnershipBreakdown(y);
    assert b.rows[0].pct.value == Clamp01(inst - ins);
    assert b.rows[1].pct.value == ins;
    assert b.rows[2].pct.value == Clamp01(1.0 - inst);
  }
}
