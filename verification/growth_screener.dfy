/**
 * The growth screener: the growth preset's provider query, then a per-symbol
 * detail lookup that keeps only quotes with positive EPS growth, ranked by EPS
 * growth. No value score is computed.
 */
module GrowthScreener {
  import opened Wrappers
  import opened Ranking
  import opened Seqs
  import opened Screening

  /** The preset whose criteria drive the provider query. */
  const Preset: string := "growth"

  /** The fewest quotes requested, however small `top_n` is. */
  const MinFetch: int := 60

  /** `max(top_n * 3, 60)`: candidates fetched for detail enrichment. */
  function FetchSize(topN: int): (n: int)
    ensures n >= 3 * topN && n >= MinFetch
    ensures n == 3 * topN || n == MinFetch
  {
    if topN * 3 > MinFetch then topN * 3 else MinFetch
  }

  function Request(region: string, topN: int, sector: Option<string>, criteria: Criteria): (q: FetchRequest)
    ensures q.query == QuerySpec(criteria, region, None, sector)
    ensures q.size == 250
    ensures q.maxResults == FetchSize(topN)
    ensures q.sortField == "intradaymarketcap" && !q.sortAsc
  {
    FetchRequest(QuerySpec(criteria, region, None, sector), 250, FetchSize(topN), "intradaymarketcap", false)
  }

  /** One result row. */
  datatype GrowthRow = GrowthRow(
    symbol: string, name: Option<string>, sector: Option<string>,
    price: Option<real>, per: Option<real>, forwardPer: Option<real>, pbr: Option<real>,
    roe: Option<real>, epsGrowth: real, revenueGrowth: Option<real>, marketCap: Option<real>)

  /** A quote is kept: it has a symbol, a detail record, and strictly positive EPS growth. */
  predicate GrowthPasses(c: Collaborators, q: Quote) {
    && Sym(q) != ""
    && c.stockDetail(Sym(q)).Some?
    && c.stockDetail(Sym(q)).value.epsGrowth.Some?
    && c.stockDetail(Sym(q)).value.epsGrowth.value > 0.0
  }

  /** The growth check as a predicate on quotes, for use with `Seqs.Filter`. */
  function GrowthKeep(c: Collaborators): Quote -> bool {
    (q: Quote) => GrowthPasses(c, q)
  }

  /** The quotes the filter keeps pass, and every passing quote is kept. */
  lemma GrowthKept(c: Collaborators, quotes: seq<Quote>)
    ensures var kept := Filter(quotes, GrowthKeep(c));
      && (forall i :: 0 <= i < |kept| ==> kept[i] in quotes && GrowthPasses(c, kept[i]))
      && (forall q :: q in quotes && GrowthPasses(c, q) ==> q in kept)
  {
    var kept := Filter(quotes, GrowthKeep(c));
    forall i | 0 <= i < |kept| ensures GrowthPasses(c, kept[i]) {
      assert GrowthKeep(c)(kept[i]);
    }
    forall q | q in quotes && GrowthPasses(c, q) ensures q in kept {
      assert GrowthKeep(c)(q);
    }
  }

  /** Python's `a or b` on optional numbers: `a` unless it is absent or zero. */
  function OrElseNonZero(a: Option<real>, b: Option<real>): (r: Option<real>)
    ensures a.Some? && a.value != 0.0 ==> r == a
    ensures !(a.Some? && a.value != 0.0) ==> r == b
  {
    if a.Some? && a.value != 0.0 then a else b
  }

  /** The row for a kept quote; revenue growth falls back to the detail record's. */
  function RowOf(c: Collaborators, q: Quote): (row: GrowthRow)
    requires GrowthPasses(c, q)
    ensures var d := c.stockDetail(Sym(q)).value;
      && row.symbol == Sym(q) && row.epsGrowth == d.epsGrowth.value && row.epsGrowth > 0.0
      && row.revenueGrowth == OrElseNonZero(q.revenueGrowth, d.revenueGrowth)
    ensures row.name == q.name && row.sector == q.sector && row.price == q.price
    ensures row.per == q.per && row.forwardPer == q.forwardPer && row.pbr == q.pbr
    ensures row.roe == q.roe && row.marketCap == q.marketCap
  {
    var d := c.stockDetail(Sym(q)).value;
    GrowthRow(Sym(q), q.name, q.sector, q.price, q.per, q.forwardPer, q.pbr, q.roe,
              d.epsGrowth.value, OrElseNonZero(q.revenueGrowth, d.revenueGrowth), q.marketCap)
  }

  /** `eps_growth` with `reverse=True`. */
  function EpsKey(row: GrowthRow): SortKey {
    SortKey(0, row.epsGrowth)
  }

  /** Rows sorted by `EpsKey` are in descending EPS growth. */
  lemma EpsOrdered(r: seq<GrowthRow>)
    requires Sorted(r, EpsKey)
    ensures forall i, j :: 0 <= i < j < |r| ==> r[i].epsGrowth >= r[j].epsGrowth
  {
    forall i, j | 0 <= i < j < |r| ensures NotAfter(EpsKey(r[i]), EpsKey(r[j])) {
    }
  }

  function Rows(c: Collaborators, kept: seq<Quote>): (r: seq<GrowthRow>)
    requires forall i :: 0 <= i < |kept| ==> GrowthPasses(c, kept[i])
    ensures |r| == |kept|
    ensures forall i :: 0 <= i < |r| ==> r[i] == RowOf(c, kept[i])
  {
    seq(|kept|, i requires 0 <= i < |kept| => RowOf(c, kept[i]))
  }

  /** The normalised fetched quotes. */
  function Normalized(raw: seq<RawQuote>): (r: seq<Quote>)
    ensures |r| == |raw|
    ensures forall i :: 0 <= i < |r| ==> r[i] == Normalize(raw[i])
  {
    seq(|raw|, i requires 0 <= i < |raw| => Normalize(raw[i]))
  }

  /**
   * The rows of the quotes that pass, in fetch order and as often as the fetch
   * holds them: what the ranking cuts from.
   */
  function Qualified(c: Collaborators, quotes: seq<Quote>): (r: seq<GrowthRow>)
    ensures var kept := Filter(quotes, GrowthKeep(c));
      |r| == |kept| && forall i :: 0 <= i < |r| ==> GrowthPasses(c, kept[i]) && r[i] == RowOf(c, kept[i])
  {
    GrowthKept(c, quotes);
    Rows(c, Filter(quotes, GrowthKeep(c)))
  }

  /** `row` is the row of some kept quote of `quotes`. */
  predicate Emitted(c: Collaborators, quotes: seq<Quote>, row: GrowthRow) {
    exists q :: q in quotes && GrowthPasses(c, q) && row == RowOf(c, q)
  }

  /** Every row drawn from the kept quotes' rows is what some kept quote yields. */
  lemma RowsEmitted(c: Collaborators, quotes: seq<Quote>, kept: seq<Quote>, out: seq<GrowthRow>)
    requires forall i :: 0 <= i < |kept| ==> kept[i] in quotes && GrowthPasses(c, kept[i])
    requires forall i :: 0 <= i < |out| ==> out[i] in Rows(c, kept)
    ensures forall i :: 0 <= i < |out| ==> Emitted(c, quotes, out[i]) && out[i].epsGrowth > 0.0
  {
    var rows := Rows(c, kept);
    forall i | 0 <= i < |out| ensures Emitted(c, quotes, out[i]) && out[i].epsGrowth > 0.0 {
      var k :| 0 <= k < |rows| && rows[k] == out[i];
      var q := kept[k];
      assert q in quotes && GrowthPasses(c, q) && out[i] == RowOf(c, q);
    }
  }

  /** Rows holding every kept quote's row hold every passing quote's row. */
  lemma RowsComplete(c: Collaborators, quotes: seq<Quote>, kept: seq<Quote>, out: seq<GrowthRow>)
    requires forall i :: 0 <= i < |kept| ==> GrowthPasses(c, kept[i])
    requires forall q :: q in quotes && GrowthPasses(c, q) ==> q in kept
    requires forall x :: x in Rows(c, kept) ==> x in out
    ensures forall q :: q in quotes && GrowthPasses(c, q) ==> RowOf(c, q) in out
  {
    var rows := Rows(c, kept);
    forall q | q in quotes && GrowthPasses(c, q) ensures RowOf(c, q) in out {
      var k :| 0 <= k < |kept| && kept[k] == q;
      assert rows[k] in rows;
    }
  }

  /**
   * The `top_n` cut kept the best rows: the row of a kept quote with EPS growth
   * above the last row kept was kept.
   */
  predicate KeepsBest(c: Collaborators, quotes: seq<Quote>, r: seq<GrowthRow>) {
    |r| > 0 ==> forall q ::
      (q in quotes && GrowthPasses(c, q) && RowOf(c, q).epsGrowth > r[|r| - 1].epsGrowth)
      ==> RowOf(c, q) in r
  }

  /** Sorting the kept rows and cutting them to `top_n` keeps the best of them. */
  lemma RankedKeepsBest(c: Collaborators, quotes: seq<Quote>, kept: seq<Quote>, topN: int)
    requires forall i :: 0 <= i < |kept| ==> GrowthPasses(c, kept[i])
    requires forall q :: q in quotes && GrowthPasses(c, q) ==> q in kept
    ensures KeepsBest(c, quotes, RankTop(Rows(c, kept), EpsKey, topN))
  {
    var r := RankTop(Rows(c, kept), EpsKey, topN);
    RowsComplete(c, quotes, kept, Rows(c, kept));
    RankTopKeepsBest(Rows(c, kept), EpsKey, topN);
    if |r| > 0 {
      forall q | q in quotes && GrowthPasses(c, q) && RowOf(c, q).epsGrowth > r[|r| - 1].epsGrowth
        ensures RowOf(c, q) in r
      {
        assert Before(EpsKey(RowOf(c, q)), EpsKey(r[|r| - 1]));
      }
    }
  }

  /** The enrichment and ranking step over the normalised quotes. */
  function RankRows(c: Collaborators, quotes: seq<Quote>, topN: int): (r: seq<GrowthRow>)
    ensures 0 <= topN ==> |r| <= topN
    ensures forall i :: 0 <= i < |r| ==> Emitted(c, quotes, r[i]) && r[i].epsGrowth > 0.0
    ensures 0 <= topN && |r| < topN ==> forall q :: q in quotes && GrowthPasses(c, q) ==> RowOf(c, q) in r
    ensures forall i, j :: 0 <= i < j < |r| ==> r[i].epsGrowth >= r[j].epsGrowth
    ensures KeepsBest(c, quotes, r)
    ensures TopCut(r, Qualified(c, quotes), EpsKey, topN)
  {
    var kept := Filter(quotes, GrowthKeep(c));
    GrowthKept(c, quotes);
    var rows := Rows(c, kept);
    var out := RankTop(rows, EpsKey, topN);
    EpsOrdered(out);
    RankedKeepsBest(c, quotes, kept, topN);
    RowsEmitted(c, quotes, kept, out);
    assert 0 <= topN && |out| < topN ==> forall q :: q in quotes && GrowthPasses(c, q) ==> RowOf(c, q) in out by {
      if 0 <= topN && |out| < topN {
        RowsComplete(c, quotes, kept, out);
      }
    }
    out
  }

  /** The screen once the preset's criteria are loaded. */
  function ScreenWith(c: Collaborators, region: string, topN: int, sector: Option<string>, criteria: Criteria): (r: seq<GrowthRow>)
    ensures var raw := c.screenStocks(Request(region, topN, sector, criteria));
      && (|raw| == 0 ==> r == [])
      && (forall i :: 0 <= i < |r| ==> Emitted(c, Normalized(raw), r[i]))
      && (0 <= topN && |r| < topN ==>
            forall q :: q in Normalized(raw) && GrowthPasses(c, q) ==> RowOf(c, q) in r)
      && KeepsBest(c, Normalized(raw), r)
      && TopCut(r, Qualified(c, Normalized(raw)), EpsKey, topN)
    ensures 0 <= topN ==> |r| <= topN
    ensures forall i :: 0 <= i < |r| ==> r[i].epsGrowth > 0.0
    ensures forall i, j :: 0 <= i < j < |r| ==> r[i].epsGrowth >= r[j].epsGrowth
  {
    var raw := c.screenStocks(Request(region, topN, sector, criteria));
    if |raw| == 0 then [] else RankRows(c, Normalized(raw), topN)
  }

  /** `GrowthScreener.screen`: a preset that cannot be loaded aborts the screen. */
  function Screen(c: Collaborators, region: string, topN: int, sector: Option<string>): (r: Result<seq<GrowthRow>, ScreenError>)
    ensures c.loadPreset(Preset).Failure? ==> r == Failure(PresetError(Preset, c.loadPreset(Preset).error))
    ensures c.loadPreset(Preset).Success? ==> r == Success(ScreenWith(c, region, topN, sector, c.loadPreset(Preset).value))
  {
    var criteria :- LoadPreset(c.loadPreset, Preset);
    Success(ScreenWith(c, region, topN, sector, criteria))
  }
}
