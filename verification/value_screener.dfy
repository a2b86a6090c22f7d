/**
 * The legacy value screener: a symbol list (the market's defaults unless given),
 * one fundamentals lookup per symbol, the criteria filter, a value score under the
 * market's thresholds, and a ranking by that score.
 */
module ValueScreener {
  import opened Wrappers
  import opened Ranking
  import opened Seqs
  import opened Markets
  import opened Screening

  /** One result row. */
  datatype ValueRow = ValueRow(
    symbol: string, name: Option<string>, price: Option<real>,
    per: Option<real>, pbr: Option<real>,
    dividendYield: Option<real>, dividendYieldTrailing: Option<real>, roe: Option<real>,
    valueScore: real)

  /** A requested symbol is kept: fundamentals exist and pass the criteria. */
  predicate ValuePasses(c: Collaborators, criteria: Criteria, symbol: string) {
    c.stockInfo(symbol).Some? && c.applyFilters(c.stockInfo(symbol).value, None, criteria)
  }

  /** The lookup-and-filter check as a predicate on symbols, for use with `Seqs.Filter`. */
  function ValueKeep(c: Collaborators, criteria: Criteria): string -> bool {
    (s: string) => ValuePasses(c, criteria, s)
  }

  /** The symbols the filter keeps pass, and every passing symbol is kept. */
  lemma ValueKept(c: Collaborators, criteria: Criteria, symbols: seq<string>)
    ensures var kept := Filter(symbols, ValueKeep(c, criteria));
      && (forall i :: 0 <= i < |kept| ==> kept[i] in symbols && ValuePasses(c, criteria, kept[i]))
      && (forall s :: s in symbols && ValuePasses(c, criteria, s) ==> s in kept)
  {
    var kept := Filter(symbols, ValueKeep(c, criteria));
    forall i | 0 <= i < |kept| ensures ValuePasses(c, criteria, kept[i]) {
      assert ValueKeep(c, criteria)(kept[i]);
    }
    forall s | s in symbols && ValuePasses(c, criteria, s) ensures s in kept {
      assert ValueKeep(c, criteria)(s);
    }
  }

  /** The row for a kept symbol, scored under the market's thresholds. */
  function RowOf(c: Collaborators, m: Market, symbol: string, info: Quote): (row: ValueRow)
    ensures row.symbol == info.symbol.GetOr(symbol)
    ensures row.valueScore == c.valueScore(info, Some(MarketThresholds(m)))
    ensures row.name == info.name && row.price == info.price && row.per == info.per && row.pbr == info.pbr
    ensures row.dividendYield == info.dividendYield && row.dividendYieldTrailing == info.dividendYieldTrailing
    ensures row.roe == info.roe
  {
    ValueRow(info.symbol.GetOr(symbol), info.name, info.price, info.per, info.pbr,
             info.dividendYield, info.dividendYieldTrailing, info.roe,
             c.valueScore(info, Some(MarketThresholds(m))))
  }

  function RowFor(c: Collaborators, m: Market, criteria: Criteria, symbol: string): ValueRow
    requires ValuePasses(c, criteria, symbol)
  {
    RowOf(c, m, symbol, c.stockInfo(symbol).value)
  }

  /** `value_score` with `reverse=True`. */
  function ScoreKey(row: ValueRow): SortKey {
    SortKey(0, row.valueScore)
  }

  /** Rows sorted by `ScoreKey` are in descending value score. */
  lemma ScoreOrdered(r: seq<ValueRow>)
    requires Sorted(r, ScoreKey)
    ensures forall i, j :: 0 <= i < j < |r| ==> r[i].valueScore >= r[j].valueScore
  {
    forall i, j | 0 <= i < j < |r| ensures NotAfter(ScoreKey(r[i]), ScoreKey(r[j])) {
    }
  }

  function Rows(c: Collaborators, m: Market, criteria: Criteria, kept: seq<string>): (r: seq<ValueRow>)
    requires forall i :: 0 <= i < |kept| ==> ValuePasses(c, criteria, kept[i])
    ensures |r| == |kept|
    ensures forall i :: 0 <= i < |r| ==> r[i] == RowFor(c, m, criteria, kept[i])
  {
    seq(|kept|, i requires 0 <= i < |kept| => RowFor(c, m, criteria, kept[i]))
  }

  /**
   * The rows of the requested symbols that pass, in request order and as often as
   * the request lists them: what the ranking cuts from.
   */
  function Qualified(c: Collaborators, m: Market, criteria: Criteria, symbols: seq<string>): (r: seq<ValueRow>)
    ensures var kept := Filter(symbols, ValueKeep(c, criteria));
      |r| == |kept| && forall i :: 0 <= i < |r| ==> ValuePasses(c, criteria, kept[i]) && r[i] == RowFor(c, m, criteria, kept[i])
  {
    ValueKept(c, criteria, symbols);
    Rows(c, m, criteria, Filter(symbols, ValueKeep(c, criteria)))
  }

  /** `row` is the row of some kept symbol of `symbols`. */
  predicate Emitted(c: Collaborators, m: Market, criteria: Criteria, symbols: seq<string>, row: ValueRow) {
    exists s :: s in symbols && ValuePasses(c, criteria, s) && row == RowFor(c, m, criteria, s)
  }

  /** Every row drawn from the kept symbols' rows is what some kept symbol yields. */
  lemma RowsEmitted(c: Collaborators, m: Market, criteria: Criteria, symbols: seq<string>, kept: seq<string>, out: seq<ValueRow>)
    requires forall i :: 0 <= i < |kept| ==> kept[i] in symbols && ValuePasses(c, criteria, kept[i])
    requires forall i :: 0 <= i < |out| ==> out[i] in Rows(c, m, criteria, kept)
    ensures forall i :: 0 <= i < |out| ==> Emitted(c, m, criteria, symbols, out[i])
  {
    var rows := Rows(c, m, criteria, kept);
    forall i | 0 <= i < |out| ensures Emitted(c, m, criteria, symbols, out[i]) {
      var k :| 0 <= k < |rows| && rows[k] == out[i];
      var s := kept[k];
      assert s in symbols && ValuePasses(c, criteria, s) && out[i] == RowFor(c, m, criteria, s);
    }
  }

  /** Rows holding every kept symbol's row hold every passing symbol's row. */
  lemma RowsComplete(c: Collaborators, m: Market, criteria: Criteria, symbols: seq<string>, kept: seq<string>, out: seq<ValueRow>)
    requires forall i :: 0 <= i < |kept| ==> ValuePasses(c, criteria, kept[i])
    requires forall s :: s in symbols && ValuePasses(c, criteria, s) ==> s in kept
    requires forall x :: x in Rows(c, m, criteria, kept) ==> x in out
    ensures forall s :: s in symbols && ValuePasses(c, criteria, s) ==> RowFor(c, m, criteria, s) in out
  {
    var rows := Rows(c, m, criteria, kept);
    forall s | s in symbols && ValuePasses(c, criteria, s) ensures RowFor(c, m, criteria, s) in out {
      var k :| 0 <= k < |kept| && kept[k] == s;
      assert rows[k] in rows;
    }
  }

  /**
   * The `top_n` cut kept the best rows: the row of a kept symbol with a value
   * score above the last row kept was kept.
   */
  predicate KeepsBest(c: Collaborators, m: Market, criteria: Criteria, symbols: seq<string>, r: seq<ValueRow>) {
    |r| > 0 ==> forall s ::
      (s in symbols && ValuePasses(c, criteria, s) && RowFor(c, m, criteria, s).valueScore > r[|r| - 1].valueScore)
      ==> RowFor(c, m, criteria, s) in r
  }

  /** Sorting the kept rows and cutting them to `top_n` keeps the best of them. */
  lemma RankedKeepsBest(c: Collaborators, m: Market, criteria: Criteria, symbols: seq<string>, kept: seq<string>, topN: int)
    requires forall i :: 0 <= i < |kept| ==> ValuePasses(c, criteria, kept[i])
    requires forall s :: s in symbols && ValuePasses(c, criteria, s) ==> s in kept
    ensures KeepsBest(c, m, criteria, symbols, RankTop(Rows(c, m, criteria, kept), ScoreKey, topN))
  {
    var rows := Rows(c, m, criteria, kept);
    var r := RankTop(rows, ScoreKey, topN);
    RowsComplete(c, m, criteria, symbols, kept, rows);
    RankTopKeepsBest(rows, ScoreKey, topN);
    if |r| > 0 {
      forall s | s in symbols && ValuePasses(c, criteria, s) && RowFor(c, m, criteria, s).valueScore > r[|r| - 1].valueScore
        ensures RowFor(c, m, criteria, s) in r
      {
        assert Before(ScoreKey(RowFor(c, m, criteria, s)), ScoreKey(r[|r| - 1]));
      }
    }
  }

  /** Where the ranked rows come from, and that none is missing while there is room. */
  lemma RankedRowFacts(c: Collaborators, m: Market, criteria: Criteria, symbols: seq<string>, topN: int)
    ensures var r := RankTop(Qualified(c, m, criteria, symbols), ScoreKey, topN);
      && |r| <= |symbols|
      && (forall i :: 0 <= i < |r| ==> Emitted(c, m, criteria, symbols, r[i]))
      && (0 <= topN && |r| < topN ==>
            forall s :: s in symbols && ValuePasses(c, criteria, s) ==> RowFor(c, m, criteria, s) in r)
  {
    var kept := Filter(symbols, ValueKeep(c, criteria));
    ValueKept(c, criteria, symbols);
    var out := RankTop(Rows(c, m, criteria, kept), ScoreKey, topN);
    RowsEmitted(c, m, criteria, symbols, kept, out);
    if 0 <= topN && |out| < topN {
      RowsComplete(c, m, criteria, symbols, kept, out);
    }
  }

  /** The ranked rows are in value-score order and the best of the passing symbols' rows. */
  lemma RankedOrderFacts(c: Collaborators, m: Market, criteria: Criteria, symbols: seq<string>, topN: int)
    ensures var r := RankTop(Qualified(c, m, criteria, symbols), ScoreKey, topN);
      && (forall i, j :: 0 <= i < j < |r| ==> r[i].valueScore >= r[j].valueScore)
      && KeepsBest(c, m, criteria, symbols, r)
  {
    var kept := Filter(symbols, ValueKeep(c, criteria));
    ValueKept(c, criteria, symbols);
    RankedKeepsBest(c, m, criteria, symbols, kept, topN);
    ScoreOrdered(RankTop(Rows(c, m, criteria, kept), ScoreKey, topN));
  }

  /** The screen once the symbol list and the criteria are known. */
  function ScreenWith(c: Collaborators, m: Market, symbols: seq<string>, criteria: Criteria, topN: int): (r: seq<ValueRow>)
    ensures |r| <= |symbols|
    ensures 0 <= topN ==> |r| <= topN
    ensures forall i :: 0 <= i < |r| ==> Emitted(c, m, criteria, symbols, r[i])
    ensures 0 <= topN && |r| < topN ==>
      forall s :: s in symbols && ValuePasses(c, criteria, s) ==> RowFor(c, m, criteria, s) in r
    ensures forall i, j :: 0 <= i < j < |r| ==> r[i].valueScore >= r[j].valueScore
    ensures KeepsBest(c, m, criteria, symbols, r)
    ensures TopCut(r, Qualified(c, m, criteria, symbols), ScoreKey, topN)
  {
    RankedRowFacts(c, m, criteria, symbols, topN);
    RankedOrderFacts(c, m, criteria, symbols, topN);
    RankTop(Qualified(c, m, criteria, symbols), ScoreKey, topN)
  }

  /**
   * `ValueScreener.screen`: the market's default symbols unless a list is given;
   * explicit criteria over a preset over none; a preset that cannot be loaded
   * aborts the screen.
   */
  function Screen(c: Collaborators, m: Market, symbols: Option<seq<string>>, criteria: Option<Criteria>,
                  preset: Option<string>, topN: int): (r: Result<seq<ValueRow>, ScreenError>)
    ensures ResolveCriteria(criteria, preset, c.loadPreset).Failure? ==>
      r == Failure(ResolveCriteria(criteria, preset, c.loadPreset).error)
    ensures ResolveCriteria(criteria, preset, c.loadPreset).Success? ==>
      r == Success(ScreenWith(c, m, symbols.GetOr(DefaultSymbols(m)),
                              ResolveCriteria(criteria, preset, c.loadPreset).value, topN))
    ensures r.Failure? ==> r.error.PresetError?
  {
    var list := symbols.GetOr(DefaultSymbols(m));
    var crit :- ResolveCriteria(criteria, preset, c.loadPreset);
    Success(ScreenWith(c, m, list, crit, topN))
  }
}
