/**
 * The trending screener: tickers surfaced by the trending-topics source, enriched
 * with fundamentals, classified by value score, and ranked by class and then
 * score; tickers without fundamentals are kept as "no data" rows at the end.
 */
module TrendingScreener {
  import opened Wrappers
  import opened Ranking
  import opened Seqs
  import opened Screening

  /** The value score from which a trending stock reads as undervalued. */
  const UndervaluedThreshold: real := 60.0

  /** The value score from which a trending stock reads as fairly valued. */
  const FairValueThreshold: real := 30.0

  /** The four classifications, in their sort order. */
  datatype Class = Undervalued | FairValue | Overvalued | NoData {
    function Label(): string {
      match this
      case Undervalued => "話題×割安"
      case FairValue => "話題×適正"
      case Overvalued => "話題×割高"
      case NoData => "話題×データ不足"
    }

    /** `_CLASS_ORDER`. */
    function Order(): int {
      match this
      case Undervalued => 0
      case FairValue => 1
      case Overvalued => 2
      case NoData => 3
    }
  }

  /** `TrendingScreener.classify`: the class a value score falls in. */
  function Classify(valueScore: real): (k: Class)
    ensures k == Undervalued <==> valueScore >= UndervaluedThreshold
    ensures k == FairValue <==> FairValueThreshold <= valueScore < UndervaluedThreshold
    ensures k == Overvalued <==> valueScore < FairValueThreshold
  {
    if valueScore >= UndervaluedThreshold then Undervalued
    else if valueScore >= FairValueThreshold then FairValue
    else Overvalued
  }

  /** A higher value score never lands in a later class. */
  lemma ClassifyMonotone(a: real, b: real)
    requires a <= b
    ensures Classify(b).Order() <= Classify(a).Order()
  {
  }

  /** A class that sorts strictly earlier means a strictly higher score. */
  lemma {:induction false} EarlierClassHigherScore(a: real, b: real)
    requires Classify(a).Order() < Classify(b).Order()
    ensures a > b
  {
    if a <= b {
      ClassifyMonotone(a, b);
    }
  }

  /** One result row. */
  datatype TrendingRow = TrendingRow(
    symbol: string, name: string, trendingReason: string,
    price: Option<real>, per: Option<real>, pbr: Option<real>,
    dividendYield: Option<real>, dividendYieldTrailing: Option<real>, roe: Option<real>,
    valueScore: real, classification: Class, sector: Option<string>)

  /** The row for one trending item: enriched when fundamentals exist, a no-data row otherwise. */
  function RowOf(c: Collaborators, item: TrendingItem): (row: TrendingRow)
    ensures row.trendingReason == item.reason
    ensures c.stockInfo(item.ticker).None? ==>
      && row.symbol == item.ticker && row.name == item.name
      && row.classification == NoData && row.valueScore == 0.0
      && row.price.None? && row.per.None? && row.pbr.None? && row.roe.None?
      && row.dividendYield.None? && row.dividendYieldTrailing.None? && row.sector.None?
    ensures c.stockInfo(item.ticker).Some? ==>
      var info := c.stockInfo(item.ticker).value;
      && row.symbol == info.symbol.GetOr(item.ticker)
      && row.name == (if info.name.Some? && info.name.value != "" then info.name.value else item.name)
      && row.valueScore == c.valueScore(info, None)
      && row.classification == Classify(row.valueScore)
      && row.price == info.price && row.per == info.per && row.pbr == info.pbr && row.roe == info.roe
      && row.dividendYield == info.dividendYield
      && row.dividendYieldTrailing == info.dividendYieldTrailing
      && row.sector == info.sector
  {
    match c.stockInfo(item.ticker)
    case None =>
      TrendingRow(item.ticker, item.name, item.reason, None, None, None, None, None, None, 0.0, NoData, None)
    case Some(info) =>
      var score := c.valueScore(info, None);
      TrendingRow(info.symbol.GetOr(item.ticker), OrElse(info.name, Some(item.name)).value, item.reason,
                  info.price, info.per, info.pbr, info.dividendYield, info.dividendYieldTrailing, info.roe,
                  score, Classify(score), info.sector)
  }

  /** `(_CLASS_ORDER[classification], -value_score)`. */
  function ClassKey(row: TrendingRow): SortKey {
    SortKey(row.classification.Order(), row.valueScore)
  }

  function Rows(c: Collaborators, items: seq<TrendingItem>): (r: seq<TrendingRow>)
    ensures |r| == |items|
    ensures forall i :: 0 <= i < |r| ==> r[i] == RowOf(c, items[i])
  {
    seq(|items|, i requires 0 <= i < |items| => RowOf(c, items[i]))
  }

  /** Whether a trending item carries a ticker, as a filter predicate. */
  function HasTicker(item: TrendingItem): bool {
    item.ticker != ""
  }

  /** The row of every item with a ticker, in feed order, before the cut. */
  function Qualified(c: Collaborators, items: seq<TrendingItem>): (r: seq<TrendingRow>)
    ensures var kept := Filter(items, HasTicker);
      |r| == |kept| && forall i :: 0 <= i < |r| ==> kept[i].ticker != "" && r[i] == RowOf(c, kept[i])
  {
    Rows(c, Filter(items, HasTicker))
  }

  /** Rows ordered this way put every data row before every no-data row and sort data rows by score. */
  predicate ClassOrdered(r: seq<TrendingRow>) {
    && (forall i, j :: 0 <= i < j < |r| && r[i].classification == NoData ==> r[j].classification == NoData)
    && (forall i, j :: 0 <= i < j < |r| && r[j].classification != NoData ==> r[i].valueScore >= r[j].valueScore)
  }

  /**
   * Sorting by class and then score is, for rows whose class follows their score,
   * the same as sorting data rows by score with no-data rows last.
   */
  lemma {:induction false} ClassSortedOrdered(r: seq<TrendingRow>)
    requires forall i :: 0 <= i < |r| ==>
      r[i].classification == NoData || r[i].classification == Classify(r[i].valueScore)
    requires Sorted(r, ClassKey)
    ensures ClassOrdered(r)
  {
    forall i, j | 0 <= i < j < |r| && r[j].classification != NoData
      ensures r[i].valueScore >= r[j].valueScore
    {
      assert NotAfter(ClassKey(r[i]), ClassKey(r[j]));
      if r[i].classification.Order() < r[j].classification.Order() {
        EarlierClassHigherScore(r[i].valueScore, r[j].valueScore);
      }
    }
    forall i, j | 0 <= i < j < |r| && r[i].classification == NoData
      ensures r[j].classification == NoData
    {
      assert NotAfter(ClassKey(r[i]), ClassKey(r[j]));
    }
  }

  /** `row` is the row of some trending item with a non-empty ticker. */
  predicate Emitted(c: Collaborators, items: seq<TrendingItem>, row: TrendingRow) {
    exists item :: item in items && item.ticker != "" && row == RowOf(c, item)
  }

  /** Every row drawn from the kept items' rows is what some item with a ticker yields. */
  lemma RowsEmitted(c: Collaborators, items: seq<TrendingItem>, kept: seq<TrendingItem>, out: seq<TrendingRow>)
    requires forall i :: 0 <= i < |kept| ==> kept[i] in items && kept[i].ticker != ""
    requires forall i :: 0 <= i < |out| ==> out[i] in Rows(c, kept)
    ensures forall i :: 0 <= i < |out| ==> Emitted(c, items, out[i])
  {
    var rows := Rows(c, kept);
    forall i | 0 <= i < |out| ensures Emitted(c, items, out[i]) {
      var k :| 0 <= k < |rows| && rows[k] == out[i];
      var item := kept[k];
      assert item in items && item.ticker != "" && out[i] == RowOf(c, item);
    }
  }

  /** Rows holding every kept item's row hold every row of an item with a ticker. */
  lemma RowsComplete(c: Collaborators, items: seq<TrendingItem>, kept: seq<TrendingItem>, out: seq<TrendingRow>)
    requires forall item :: item in items && item.ticker != "" ==> item in kept
    requires forall x :: x in Rows(c, kept) ==> x in out
    ensures forall item :: item in items && item.ticker != "" ==> RowOf(c, item) in out
  {
    var rows := Rows(c, kept);
    forall item | item in items && item.ticker != "" ensures RowOf(c, item) in out {
      var k :| 0 <= k < |kept| && kept[k] == item;
      assert rows[k] in rows;
    }
  }

  /**
   * The `top_n` cut kept the best rows: the row of an item with a ticker that
   * sorts strictly ahead of the last row kept (an earlier class, else a higher
   * value score) was kept.
   */
  predicate KeepsBest(c: Collaborators, items: seq<TrendingItem>, r: seq<TrendingRow>) {
    |r| > 0 ==> forall item ::
      (item in items && item.ticker != "" && Before(ClassKey(RowOf(c, item)), ClassKey(r[|r| - 1])))
      ==> RowOf(c, item) in r
  }

  /** Sorting the rows and cutting them to `top_n` keeps the best of them. */
  lemma RankedKeepsBest(c: Collaborators, items: seq<TrendingItem>, kept: seq<TrendingItem>, topN: int)
    requires forall item :: item in items && item.ticker != "" ==> item in kept
    ensures KeepsBest(c, items, RankTop(Rows(c, kept), ClassKey, topN))
  {
    RowsComplete(c, items, kept, Rows(c, kept));
    RankTopKeepsBest(Rows(c, kept), ClassKey, topN);
  }

  /** The rows the ranking step keeps come from items with a ticker, and none is missing while there is room. */
  lemma RankedRowFacts(c: Collaborators, items: seq<TrendingItem>, topN: int)
    ensures var r := RankTop(Qualified(c, items), ClassKey, topN);
      && (0 <= topN ==> |r| <= topN)
      && (forall i :: 0 <= i < |r| ==> Emitted(c, items, r[i]))
      && (0 <= topN && |r| < topN ==> forall item :: item in items && item.ticker != "" ==> RowOf(c, item) in r)
  {
    var kept := Filter(items, HasTicker);
    var out := RankTop(Rows(c, kept), ClassKey, topN);
    RowsEmitted(c, items, kept, out);
    if 0 <= topN && |out| < topN {
      RowsComplete(c, items, kept, out);
    }
  }

  /** The rows the ranking step keeps are in class order and the best of the items with a ticker. */
  lemma RankedOrderFacts(c: Collaborators, items: seq<TrendingItem>, topN: int)
    ensures var r := RankTop(Qualified(c, items), ClassKey, topN);
      ClassOrdered(r) && KeepsBest(c, items, r)
  {
    var kept := Filter(items, HasTicker);
    RankedKeepsBest(c, items, kept, topN);
    ClassSortedOrdered(RankTop(Rows(c, kept), ClassKey, topN));
  }

  /** The ranking step over the items with a ticker. */
  function RankRows(c: Collaborators, items: seq<TrendingItem>, topN: int): (r: seq<TrendingRow>)
    ensures 0 <= topN ==> |r| <= topN
    ensures forall i :: 0 <= i < |r| ==> Emitted(c, items, r[i])
    ensures 0 <= topN && |r| < topN ==> forall item :: item in items && item.ticker != "" ==> RowOf(c, item) in r
    ensures Sorted(r, ClassKey)
    ensures ClassOrdered(r)
    ensures KeepsBest(c, items, r)
    ensures TopCut(r, Qualified(c, items), ClassKey, topN)
  {
    RankedRowFacts(c, items, topN);
    RankedOrderFacts(c, items, topN);
    RankTop(Qualified(c, items), ClassKey, topN)
  }

  /**
   * `TrendingScreener.screen`: the ranked rows and the source's market commentary,
   * which is passed through unchanged.
   */
  function Screen(c: Collaborators, region: string, theme: Option<string>, topN: int): (r: (seq<TrendingRow>, string))
    ensures var feed := c.searchTrending(region, theme);
      && r.1 == feed.marketContext
      && (|feed.stocks| == 0 ==> r.0 == [])
      && (forall i :: 0 <= i < |r.0| ==> Emitted(c, feed.stocks, r.0[i]))
      && (0 <= topN && |r.0| < topN ==>
            forall item :: item in feed.stocks && item.ticker != "" ==> RowOf(c, item) in r.0)
      && KeepsBest(c, feed.stocks, r.0)
      && TopCut(r.0, Qualified(c, feed.stocks), ClassKey, topN)
    ensures 0 <= topN ==> |r.0| <= topN
    ensures Sorted(r.0, ClassKey)
    ensures ClassOrdered(r.0)
  {
    var feed := c.searchTrending(region, theme);
    if |feed.stocks| == 0 then ([], feed.marketContext)
    else (RankRows(c, feed.stocks, topN), feed.marketContext)
  }
}
