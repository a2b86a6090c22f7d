/**
 * The pullback screener: a fundamental query, then the pullback-in-uptrend filter
 * on every fetched quote, then full matches ahead of partial ones, each group by
 * value score, cut to `top_n`.
 */
module PullbackScreener {
  import opened Wrappers
  import opened Ranking
  import opened Screening
  import opened Seqs

  /** The fundamental criteria used when the caller gives none. */
  const DefaultCriteria: Criteria := map["max_per" := 20.0, "min_roe" := 0.08, "min_revenue_growth" := 0.05]

  /** One result row: the quote's headline figures, its technical fields and its score. */
  datatype PullbackRow = PullbackRow(
    symbol: string, name: Option<string>, price: Option<real>,
    per: Option<real>, pbr: Option<real>,
    dividendYield: Option<real>, dividendYieldTrailing: Option<real>, roe: Option<real>,
    pullbackPct: Option<real>, rsi: Option<real>, volumeRatio: Option<real>,
    sma50: Option<real>, sma200: Option<real>,
    bounceScore: real, matchType: Match, finalScore: real)

  /** The row reported for a scored quote that passed the technical filter. */
  function RowOf(s: Scored, t: TechInfo): PullbackRow {
    var q := s.quote;
    PullbackRow(Sym(q), q.name, q.price, q.per, q.pbr, q.dividendYield, q.dividendYieldTrailing, q.roe,
                t.pullbackPct, t.rsi, t.volumeRatio, t.sma50, t.sma200, t.bounceScore, t.matchType,
                s.valueScore)
  }

  /** `(0 if match_type == "full" else 1, -final_score)`. */
  function FinalKey(row: PullbackRow): SortKey {
    SortKey(row.matchType.SortRank(), row.finalScore)
  }

  function Rows(passed: seq<(Scored, TechInfo)>): (r: seq<PullbackRow>)
    ensures |r| == |passed|
    ensures forall i :: 0 <= i < |r| ==> r[i] == RowOf(passed[i].0, passed[i].1)
  {
    seq(|passed|, i requires 0 <= i < |passed| => RowOf(passed[i].0, passed[i].1))
  }

  /** `row` is what the screener reports for the scored quote `s`. */
  predicate Emits(c: Collaborators, s: Scored, row: PullbackRow) {
    TechPasses(c, Sym(s.quote)) && row == RowOf(s, TechInfoFor(c, Sym(s.quote)))
  }

  /** `row` is what some quote of `scored` emits. */
  predicate Emitted(c: Collaborators, scored: seq<Scored>, row: PullbackRow) {
    exists s :: s in scored && Emits(c, s, row)
  }

  /** The technical stage's output, as `TechnicalStage` guarantees it for `scored`. */
  ghost predicate PassedFrom(c: Collaborators, scored: seq<Scored>, passed: seq<(Scored, TechInfo)>) {
    && StageOutput(c, scored, ScoredSym, passed)
    && (forall i :: 0 <= i < |passed| ==> passed[i].0 in scored)
    && (forall s :: s in scored && TechPasses(c, Sym(s.quote)) ==> (s, TechInfoFor(c, Sym(s.quote))) in passed)
  }

  /**
   * The rows of the scored quotes that pass the technical filter, in fetch order
   * and as often as the fetch holds them: what the ranking cuts from.
   */
  function Qualified(c: Collaborators, scored: seq<Scored>): (r: seq<PullbackRow>)
    ensures var kept := Filter(scored, TechKeep(c, ScoredSym));
      |r| == |kept| && forall i :: 0 <= i < |r| ==> Emits(c, kept[i], r[i])
  {
    var kept := Filter(scored, TechKeep(c, ScoredSym));
    TechKept(c, scored, ScoredSym);
    seq(|kept|, i requires 0 <= i < |kept| => RowOf(kept[i], TechInfoFor(c, Sym(kept[i].quote))))
  }

  /** The technical stage's output, turned into rows, is exactly the qualified rows. */
  lemma RowsQualified(c: Collaborators, scored: seq<Scored>, passed: seq<(Scored, TechInfo)>)
    requires PassedFrom(c, scored, passed)
    ensures Rows(passed) == Qualified(c, scored)
  {
    var kept := Filter(scored, TechKeep(c, ScoredSym));
    assert Firsts(passed) == kept;
    forall i | 0 <= i < |passed| ensures Rows(passed)[i] == Qualified(c, scored)[i] {
      assert passed[i].0 == kept[i];
    }
  }

  /** Every row drawn from `Rows(passed)` is what some scored quote emits. */
  lemma RowsEmitted(c: Collaborators, scored: seq<Scored>, passed: seq<(Scored, TechInfo)>, out: seq<PullbackRow>)
    requires PassedFrom(c, scored, passed)
    requires forall i :: 0 <= i < |out| ==> out[i] in Rows(passed)
    ensures forall i :: 0 <= i < |out| ==> Emitted(c, scored, out[i])
  {
    var rows := Rows(passed);
    forall i | 0 <= i < |out| ensures Emitted(c, scored, out[i]) {
      var k :| 0 <= k < |rows| && rows[k] == out[i];
      var s := passed[k].0;
      assert s in scored && Emits(c, s, out[i]);
    }
  }

  /** Rows holding every row of `Rows(passed)` hold every passing quote's row. */
  lemma RowsComplete(c: Collaborators, scored: seq<Scored>, passed: seq<(Scored, TechInfo)>, out: seq<PullbackRow>)
    requires PassedFrom(c, scored, passed)
    requires forall x :: x in Rows(passed) ==> x in out
    ensures forall s :: s in scored && TechPasses(c, Sym(s.quote)) ==> RowOf(s, TechInfoFor(c, Sym(s.quote))) in out
  {
    var rows := Rows(passed);
    forall s | s in scored && TechPasses(c, Sym(s.quote)) ensures RowOf(s, TechInfoFor(c, Sym(s.quote))) in out {
      var k :| 0 <= k < |passed| && passed[k] == (s, TechInfoFor(c, Sym(s.quote)));
      assert rows[k] in rows;
    }
  }

  /**
   * The `top_n` cut kept the best rows: the row of a passing quote that sorts
   * strictly ahead of the last row kept (full over partial, else a higher final
   * score) was kept.
   */
  predicate KeepsBest(c: Collaborators, scored: seq<Scored>, r: seq<PullbackRow>) {
    |r| > 0 ==> forall s ::
      (&& s in scored && TechPasses(c, Sym(s.quote))
       && Before(FinalKey(RowOf(s, TechInfoFor(c, Sym(s.quote)))), FinalKey(r[|r| - 1])))
      ==> RowOf(s, TechInfoFor(c, Sym(s.quote))) in r
  }

  /** Sorting the passing rows and cutting them to `top_n` keeps the best of them. */
  lemma RankedKeepsBest(c: Collaborators, scored: seq<Scored>, passed: seq<(Scored, TechInfo)>, topN: int)
    requires PassedFrom(c, scored, passed)
    ensures KeepsBest(c, scored, RankTop(Rows(passed), FinalKey, topN))
  {
    RowsComplete(c, scored, passed, Rows(passed));
    RankTopKeepsBest(Rows(passed), FinalKey, topN);
  }

  /** Sorting the passing rows and cutting them to `top_n` cuts the qualified rows. */
  lemma RankedCut(c: Collaborators, scored: seq<Scored>, passed: seq<(Scored, TechInfo)>, topN: int)
    requires PassedFrom(c, scored, passed)
    ensures TopCut(RankTop(Rows(passed), FinalKey, topN), Qualified(c, scored), FinalKey, topN)
  {
    RowsQualified(c, scored, passed);
  }

  /** Everything the ranking step promises, for the sorted and cut rows of `passed`. */
  lemma RankedFacts(c: Collaborators, scored: seq<Scored>, passed: seq<(Scored, TechInfo)>, topN: int)
    requires PassedFrom(c, scored, passed)
    ensures var r := RankTop(Rows(passed), FinalKey, topN);
      && (0 <= topN ==> |r| <= topN)
      && (forall i :: 0 <= i < |r| ==> Emitted(c, scored, r[i]))
      && (0 <= topN && |r| < topN ==>
            forall s :: s in scored && TechPasses(c, Sym(s.quote)) ==> RowOf(s, TechInfoFor(c, Sym(s.quote))) in r)
      && (forall i, j :: 0 <= i < j < |r| && r[j].matchType == Full ==> r[i].matchType == Full)
      && (forall i, j :: 0 <= i < j < |r| && (r[i].matchType == Full) == (r[j].matchType == Full) ==>
            r[i].finalScore >= r[j].finalScore)
      && KeepsBest(c, scored, r)
      && TopCut(r, Qualified(c, scored), FinalKey, topN)
  {
    RankedRowFacts(c, scored, passed, topN);
    RankedOrderFacts(c, scored, passed, topN);
  }

  /** The rows the ranking step keeps come from passing quotes, and none is missing while there is room. */
  lemma RankedRowFacts(c: Collaborators, scored: seq<Scored>, passed: seq<(Scored, TechInfo)>, topN: int)
    requires PassedFrom(c, scored, passed)
    ensures var r := RankTop(Rows(passed), FinalKey, topN);
      && (0 <= topN ==> |r| <= topN)
      && (forall i :: 0 <= i < |r| ==> Emitted(c, scored, r[i]))
      && (0 <= topN && |r| < topN ==>
            forall s :: s in scored && TechPasses(c, Sym(s.quote)) ==> RowOf(s, TechInfoFor(c, Sym(s.quote))) in r)
  {
    var out := RankTop(Rows(passed), FinalKey, topN);
    RowsEmitted(c, scored, passed, out);
    if 0 <= topN && |out| < topN {
      RowsComplete(c, scored, passed, out);
    }
  }

  /** The rows the ranking step keeps are in full-first order, the best, and the cut of the qualified rows. */
  lemma RankedOrderFacts(c: Collaborators, scored: seq<Scored>, passed: seq<(Scored, TechInfo)>, topN: int)
    requires PassedFrom(c, scored, passed)
    ensures var r := RankTop(Rows(passed), FinalKey, topN);
      && (forall i, j :: 0 <= i < j < |r| && r[j].matchType == Full ==> r[i].matchType == Full)
      && (forall i, j :: 0 <= i < j < |r| && (r[i].matchType == Full) == (r[j].matchType == Full) ==>
            r[i].finalScore >= r[j].finalScore)
      && KeepsBest(c, scored, r)
      && TopCut(r, Qualified(c, scored), FinalKey, topN)
  {
    RankedCut(c, scored, passed, topN);
    FinalOrdered(RankTop(Rows(passed), FinalKey, topN));
    RankedKeepsBest(c, scored, passed, topN);
  }

  /**
   * The ranking step: full matches before partial ones, each group by final score,
   * at most `top_n` rows; when fewer than `top_n` come back, none was cut.
   */
  function RankRows(c: Collaborators, scored: seq<Scored>, passed: seq<(Scored, TechInfo)>, topN: int): (r: seq<PullbackRow>)
    requires PassedFrom(c, scored, passed)
    ensures 0 <= topN ==> |r| <= topN
    ensures forall i :: 0 <= i < |r| ==> Emitted(c, scored, r[i])
    ensures 0 <= topN && |r| < topN ==>
      forall s :: s in scored && TechPasses(c, Sym(s.quote)) ==> RowOf(s, TechInfoFor(c, Sym(s.quote))) in r
    ensures forall i, j :: 0 <= i < j < |r| && r[j].matchType == Full ==> r[i].matchType == Full
    ensures forall i, j :: 0 <= i < j < |r| && (r[i].matchType == Full) == (r[j].matchType == Full) ==>
      r[i].finalScore >= r[j].finalScore
    ensures KeepsBest(c, scored, r)
    ensures TopCut(r, Qualified(c, scored), FinalKey, topN)
  {
    RankedFacts(c, scored, passed, topN);
    RankTop(Rows(passed), FinalKey, topN)
  }

  /** Rows sorted by `FinalKey` list full matches first, each group by final score. */
  lemma FinalOrdered(r: seq<PullbackRow>)
    requires Sorted(r, FinalKey)
    ensures forall i, j :: 0 <= i < j < |r| && r[j].matchType == Full ==> r[i].matchType == Full
    ensures forall i, j :: 0 <= i < j < |r| && (r[i].matchType == Full) == (r[j].matchType == Full) ==>
      r[i].finalScore >= r[j].finalScore
  {
    forall i, j | 0 <= i < j < |r| ensures NotAfter(FinalKey(r[i]), FinalKey(r[j])) {
    }
  }

  /** An emitted row has a symbol and graded full or partial. */
  lemma EmittedShape(c: Collaborators, scored: seq<Scored>, row: PullbackRow)
    requires Emitted(c, scored, row)
    ensures row.symbol != "" && row.matchType in {Full, Partial}
  {
    var s :| s in scored && Emits(c, s, row);
  }

  /** Every row of a successful ranking has a symbol and graded full or partial. */
  lemma PassingShape(c: Collaborators, scored: seq<Scored>, topN: int)
    ensures var r := RankPassing(c, scored, topN);
      r.Success? ==> forall i :: 0 <= i < |r.value| ==> r.value[i].symbol != "" && r.value[i].matchType in {Full, Partial}
  {
    var r := RankPassing(c, scored, topN);
    if r.Success? {
      forall i | 0 <= i < |r.value| ensures r.value[i].symbol != "" && r.value[i].matchType in {Full, Partial} {
        EmittedShape(c, scored, r.value[i]);
      }
    }
  }

  /** The technical filter and the ranking over the scored quotes. */
  function RankPassing(c: Collaborators, scored: seq<Scored>, topN: int): (r: Result<seq<PullbackRow>, ScreenError>)
    ensures r.Success? ==> forall i :: 0 <= i < |r.value| ==> Emitted(c, scored, r.value[i])
    ensures r.Success? && 0 <= topN && |r.value| < topN ==>
      forall s :: s in scored && TechPasses(c, Sym(s.quote)) ==> RowOf(s, TechInfoFor(c, Sym(s.quote))) in r.value
    ensures (forall s :: s in scored ==> !TechLookup(c, Sym(s.quote)).Raised?) ==> r.Success?
    ensures r.Success? && 0 <= topN ==> |r.value| <= topN
    ensures r.Success? ==> forall i, j :: 0 <= i < j < |r.value| && r.value[j].matchType == Full ==>
      r.value[i].matchType == Full
    ensures r.Success? ==> forall i, j :: 0 <= i < j < |r.value| && (r.value[i].matchType == Full) == (r.value[j].matchType == Full) ==>
      r.value[i].finalScore >= r.value[j].finalScore
    ensures r.Failure? ==> r.error.HistoryRaised?
    ensures r.Success? ==> KeepsBest(c, scored, r.value)
    ensures r.Success? ==> TopCut(r.value, Qualified(c, scored), FinalKey, topN)
  {
    var passed :- TechnicalStage(c, scored, ScoredSym);
    if |passed| == 0 then Success([])
    else Success(RankRows(c, scored, passed, topN))
  }

  /** The technical filter and ranking over a fetch; an empty fetch gives no rows. */
  function Screened(c: Collaborators, raw: seq<RawQuote>, topN: int): (r: Result<seq<PullbackRow>, ScreenError>)
    ensures |raw| == 0 ==> r == Success([])
    ensures |raw| > 0 ==> r == RankPassing(c, ScoreAll(c, raw), topN)
  {
    if |raw| == 0 then Success([]) else RankPassing(c, ScoreAll(c, raw), topN)
  }

  /** Where the rows of a screened fetch come from, and that none is missing while there is room. */
  lemma ScreenedRows(c: Collaborators, raw: seq<RawQuote>, topN: int)
    ensures var r := Screened(c, raw, topN);
      && (r.Success? ==> forall i :: 0 <= i < |r.value| ==> Emitted(c, ScoreAll(c, raw), r.value[i]))
      && (r.Success? && 0 <= topN && |r.value| < topN ==>
            forall s :: s in ScoreAll(c, raw) && TechPasses(c, Sym(s.quote)) ==>
              RowOf(s, TechInfoFor(c, Sym(s.quote))) in r.value)
      && ((forall s :: s in ScoreAll(c, raw) ==> !TechLookup(c, Sym(s.quote)).Raised?) ==> r.Success?)
      && (r.Success? ==> forall i :: 0 <= i < |r.value| ==>
            r.value[i].symbol != "" && r.value[i].matchType in {Full, Partial})
      && (r.Failure? ==> r.error.HistoryRaised?)
  {
    if |raw| > 0 {
      PassingShape(c, ScoreAll(c, raw), topN);
    }
  }

  /** A screened fetch is the `top_n` cut of its qualified rows, in full-first order. */
  lemma ScreenedOrder(c: Collaborators, raw: seq<RawQuote>, topN: int)
    ensures var r := Screened(c, raw, topN);
      && (r.Success? ==> KeepsBest(c, ScoreAll(c, raw), r.value))
      && (r.Success? ==> TopCut(r.value, Qualified(c, ScoreAll(c, raw)), FinalKey, topN))
      && (r.Success? && 0 <= topN ==> |r.value| <= topN)
      && (r.Success? ==> forall i, j :: 0 <= i < j < |r.value| && r.value[j].matchType == Full ==>
            r.value[i].matchType == Full)
      && (r.Success? ==> forall i, j :: 0 <= i < j < |r.value| && (r.value[i].matchType == Full) == (r.value[j].matchType == Full) ==>
            r.value[i].finalScore >= r.value[j].finalScore)
  {
    if |raw| == 0 {
      EmptyFetch(c, raw);
    }
  }

  /** An empty fetch qualifies no rows. */
  lemma EmptyFetch(c: Collaborators, raw: seq<RawQuote>)
    requires |raw| == 0
    ensures ScoreAll(c, raw) == [] && Qualified(c, ScoreAll(c, raw)) == []
  {
  }

  /**
   * `PullbackScreener.screen`: quotes of the fetched universe that grade full or
   * partial, ranked full-first by value score; an exception from the history fetch
   * or the detector aborts the screen.
   */
  function Screen(c: Collaborators, region: string, topN: int, criteria: Option<Criteria>): (r: Result<seq<PullbackRow>, ScreenError>)
    ensures var raw := c.screenStocks(WideRequest(region, topN, criteria.GetOr(DefaultCriteria)));
      && (|raw| == 0 ==> r == Success([]))
      && (r.Success? ==> forall i :: 0 <= i < |r.value| ==> Emitted(c, ScoreAll(c, raw), r.value[i]))
      && (r.Success? && 0 <= topN && |r.value| < topN ==>
            forall s :: s in ScoreAll(c, raw) && TechPasses(c, Sym(s.quote)) ==>
              RowOf(s, TechInfoFor(c, Sym(s.quote))) in r.value)
      && ((forall s :: s in ScoreAll(c, raw) ==> !TechLookup(c, Sym(s.quote)).Raised?) ==> r.Success?)
      && (r.Success? ==> KeepsBest(c, ScoreAll(c, raw), r.value))
      && (r.Success? ==> TopCut(r.value, Qualified(c, ScoreAll(c, raw)), FinalKey, topN))
    ensures r.Success? && 0 <= topN ==> |r.value| <= topN
    ensures r.Success? ==> forall i :: 0 <= i < |r.value| ==>
      r.value[i].symbol != "" && r.value[i].matchType in {Full, Partial}
    ensures r.Success? ==> forall i, j :: 0 <= i < j < |r.value| && r.value[j].matchType == Full ==>
      r.value[i].matchType == Full
    ensures r.Success? ==> forall i, j :: 0 <= i < j < |r.value| && (r.value[i].matchType == Full) == (r.value[j].matchType == Full) ==>
      r.value[i].finalScore >= r.value[j].finalScore
    ensures r.Failure? ==> r.error.HistoryRaised?
  {
    var crit := criteria.GetOr(DefaultCriteria);
    var raw := c.screenStocks(WideRequest(region, topN, crit));
    ScreenedRows(c, raw, topN);
    ScreenedOrder(c, raw, topN);
    Screened(c, raw, topN)
  }
}
