/** The trade-amount ranking list of the stock page
    (client/src/features/stock/components/stock-list.tsx): the product
    type code of an exchange, the matching of ranking items to stock
    metadata by name, and the page shown. */
module StockList {
  import opened Common

  /** The fields of `TradeAmountRankingItem` the list uses. */
  datatype RankingItem = RankingItem(rsym: string, excd: string, symb: string, name: string, last: string, rate: string)

  /** `StocksMetaInfoResponse`. */
  datatype StockMeta = StockMeta(stockCode: string, name: string, logoImageUrl: string, ticker: string, excd: string)

  /** `StockRankMatch`. */
  datatype RankMatch = RankMatch(rankingItem: RankingItem, meta: StockMeta)

  /** `mapExcdToProductTypeCode(excd)`. */
  function ProductTypeCode(excd: string): string
  {
    if excd == "NAS" then "512"
    else if excd == "NYS" then "513"
    else if excd == "AMS" then "529"
    else ""
  }

  /** The three exchange codes, in upper case only, have a product type;
      everything else gets the empty code. */
  lemma ProductTypeCodeFacts(excd: string)
    ensures ProductTypeCode(excd) != "" <==> excd == "NAS" || excd == "NYS" || excd == "AMS"
    ensures ProductTypeCode("nas") == ""
  {
    assert "nas" != "NAS" by { assert "nas"[0] != "NAS"[0]; }
    assert "nas" != "NYS" by { assert "nas"[0] != "NYS"[0]; }
    assert "nas" != "AMS" by { assert "nas"[0] != "AMS"[0]; }
  }

  // ----- matching -----

  /** The last metadata entry with this name. */
  function LastMeta(metas: seq<StockMeta>, name: string): (r: Option<StockMeta>)
    ensures r.Some? ==> r.value.name == name
    ensures r.Some? ==>
      exists j :: 0 <= j < |metas| && metas[j] == r.value && forall k :: j < k < |metas| ==> metas[k].name != name
    ensures r.None? <==> forall k :: 0 <= k < |metas| ==> metas[k].name != name
  {
    if metas == [] then None
    else if metas[|metas| - 1].name == name then Some(metas[|metas| - 1])
    else
      var r := LastMeta(metas[..|metas| - 1], name);
      assert forall k :: 0 <= k < |metas| - 1 ==> metas[..|metas| - 1][k] == metas[k];
      r
  }

  /** `new Map(stocksMetaInfo.map((m) => [m.name, m]))`: a later entry
      replaces an earlier one with the same name. */
  function NameToMeta(metas: seq<StockMeta>): map<string, StockMeta>
  {
    if metas == [] then map[]
    else NameToMeta(metas[..|metas| - 1])[metas[|metas| - 1].name := metas[|metas| - 1]]
  }

  /** The map holds a name exactly when some entry has it, and then it
      holds the last such entry. */
  lemma {:induction false} NameToMetaLookup(metas: seq<StockMeta>, name: string)
    ensures name in NameToMeta(metas) <==> LastMeta(metas, name).Some?
    ensures name in NameToMeta(metas) ==> NameToMeta(metas)[name] == LastMeta(metas, name).value
  {
    if metas != [] {
      NameToMetaLookup(metas[..|metas| - 1], name);
    }
  }

  /** The matches of `matchRankingByName(output2, stocksMetaInfo)`. */
  function Matches(items: seq<RankingItem>, metas: seq<StockMeta>): (r: seq<RankMatch>)
    ensures |r| <= |items|
  {
    if items == [] then []
    else
      var item := items[|items| - 1];
      var m := LastMeta(metas, item.name);
      Matches(items[..|items| - 1], metas) + (if m.Some? then [RankMatch(item, m.value)] else [])
  }

  /** The loop of `matchRankingByName`. */
  method MatchRankingByName(output2: seq<RankingItem>, stocksMetaInfo: seq<StockMeta>) returns (result: seq<RankMatch>)
    ensures result == Matches(output2, stocksMetaInfo)
  {
    var nameToMeta := NameToMeta(stocksMetaInfo);
    result := [];
    for i := 0 to |output2|
      invariant result == Matches(output2[..i], stocksMetaInfo)
    {
      var item := output2[i];
      assert output2[..i + 1][..i] == output2[..i];
      NameToMetaLookup(stocksMetaInfo, item.name);
      if item.name in nameToMeta {
        result := result + [RankMatch(item, nameToMeta[item.name])];
      }
    }
    assert output2[..|output2|] == output2;
  }

  /** Matching keeps the ranking order: the matches of two runs of items
      are the matches of the first followed by those of the second. */
  lemma {:induction false} MatchesAppend(a: seq<RankingItem>, b: seq<RankingItem>, metas: seq<StockMeta>)
    ensures Matches(a + b, metas) == Matches(a, metas) + Matches(b, metas)
  {
    if b == [] {
      assert a + b == a;
    } else {
      var init := b[..|b| - 1];
      assert (a + b)[..|a + b| - 1] == a + init;
      assert (a + b)[|a + b| - 1] == b[|b| - 1];
      MatchesAppend(a, init, metas);
    }
  }

  /** A single item is kept, paired with the last metadata entry of its
      name, exactly when some entry has that name. */
  lemma MatchesOne(item: RankingItem, metas: seq<StockMeta>)
    ensures (exists k :: 0 <= k < |metas| && metas[k].name == item.name) ==>
      Matches([item], metas) == [RankMatch(item, LastMeta(metas, item.name).value)]
    ensures (forall k :: 0 <= k < |metas| ==> metas[k].name != item.name) ==> Matches([item], metas) == []
  {
    assert [item][..0] == [];
  }

  /** Every match pairs an item with the last metadata entry of the same
      name. */
  lemma {:induction false} MatchesPairLastMeta(items: seq<RankingItem>, metas: seq<StockMeta>)
    ensures forall i :: 0 <= i < |Matches(items, metas)| ==>
      LastMeta(metas, Matches(items, metas)[i].rankingItem.name) == Some(Matches(items, metas)[i].meta) &&
      Matches(items, metas)[i].rankingItem in items
  {
    if items != [] {
      var init := items[..|items| - 1];
      MatchesPairLastMeta(init, metas);
      var r := Matches(items, metas);
      var p := Matches(init, metas);
      forall i | 0 <= i < |r|
        ensures LastMeta(metas, r[i].rankingItem.name) == Some(r[i].meta) && r[i].rankingItem in items
      {
        if i < |p| {
          assert r[i] == p[i];
          assert p[i].rankingItem in init;
        }
      }
    }
  }

  // ----- the page -----

  /** An index argument of `Array.prototype.slice`, resolved against the
      length: negative counts from the end. */
  function SliceIndex(i: int, len: nat): (r: nat)
    ensures r <= len
  {
    if i < 0 then (if len + i < 0 then 0 else len + i) else if i > len then len else i
  }

  /** `s.slice(start, end)`. */
  function Slice<T>(s: seq<T>, start: int, end: int): seq<T>
  {
    var a := SliceIndex(start, |s|);
    var b := SliceIndex(end, |s|);
    if a < b then s[a..b] else []
  }

  /** `allMatches.slice(start, start + size)` with `start = page * size`. */
  function PageOf<T>(all: seq<T>, page: int, size: int): seq<T>
  {
    Slice(all, page * size, page * size + size)
  }

  /** `hasNextPage`. */
  predicate HasNextPage(count: int, page: int, size: int)
  {
    page * size + size < count
  }

  function MinNat(a: nat, b: nat): nat
  {
    if a <= b then a else b
  }

  /** For a non-negative page and size the page is the run of at most
      `size` matches from `page * size` on. */
  lemma PageFacts<T>(all: seq<T>, page: nat, size: nat)
    ensures var start := page * size;
      PageOf(all, page, size) == all[MinNat(start, |all|)..MinNat(start + size, |all|)] &&
      |PageOf(all, page, size)| <= size
  {
  }

  /** When a next page is announced this page is full and, for a
      positive size, the next one is not empty; when it is not announced,
      the next page is empty. With size 0 every page is empty, yet a next
      page is announced whenever there are matches. */
  lemma NextPageFacts<T>(all: seq<T>, page: nat, size: nat)
    ensures HasNextPage(|all|, page, size) ==> |PageOf(all, page, size)| == size
    ensures HasNextPage(|all|, page, size) && size > 0 ==> |PageOf(all, page + 1, size)| > 0
    ensures size == 0 ==> PageOf(all, page, size) == [] && (HasNextPage(|all|, page, size) <==> |all| > 0)
    ensures !HasNextPage(|all|, page, size) ==> PageOf(all, page + 1, size) == []
  {
    assert (page + 1) * size == page * size + size;
  }

  /** The pages in turn cover the matches without gap or overlap. */
  lemma PagesCover<T>(all: seq<T>, page: nat, size: nat)
    ensures all[..MinNat((page + 1) * size, |all|)] == all[..MinNat(page * size, |all|)] + PageOf(all, page, size)
  {
    assert (page + 1) * size == page * size + size;
    PageFacts(all, page, size);
  }

  /** The parsed page number may be negative, and a negative page counts
      from the end of the list: with size 10, page -1 is empty and page -2
      holds the ten matches before the last ten. */
  lemma NegativePages<T>(all: seq<T>)
    requires |all| >= 20
    ensures PageOf(all, -1, 10) == []
    ensures PageOf(all, -2, 10) == all[|all| - 20..|all| - 10]
  {
  }
}
