/**
 * The alpha screener: the value preset's provider query, a change-quality gate
 * that needs a detail record, a pullback grade that only adds a bonus, and a
 * ranking by the sum of value score, change score and bonus.
 */
module AlphaScreener {
  import opened Wrappers
  import opened Ranking
  import opened Seqs
  import opened Screening

  /** The preset whose criteria drive the provider query. */
  const Preset: string := "value"

  /** The score bonus for a full pullback match. */
  const FullBonus: real := 10.0

  /** The score bonus for a partial pullback match. */
  const PartialBonus: real := 5.0

  /** The technical figures copied onto a row when the detector produced an assessment. */
  datatype PullbackInfo = PullbackInfo(pullbackPct: Option<real>, rsi: Option<real>, bounceScore: real)

  /** One result row. */
  datatype AlphaRow = AlphaRow(
    quote: Quote, valueScore: real, change: ChangeResult,
    pullbackMatch: Match, pullback: Option<PullbackInfo>, totalScore: real)

  /** The change-quality gate: a symbol, a detail record, and at least three of four checks passed. */
  predicate QualityPasses(c: Collaborators, s: Scored) {
    && Sym(s.quote) != ""
    && c.stockDetail(Sym(s.quote)).Some?
    && c.changeScore(c.stockDetail(Sym(s.quote)).value).qualityPass
  }

  function ChangeOf(c: Collaborators, s: Scored): ChangeResult
    requires QualityPasses(c, s)
  {
    c.changeScore(c.stockDetail(Sym(s.quote)).value)
  }

  /** The quality gate as a filter predicate. */
  function QualityKeep(c: Collaborators): Scored -> bool {
    (s: Scored) => QualityPasses(c, s)
  }

  /** The quotes the quality gate keeps are exactly the passing quotes of the input. */
  lemma QualityKept(c: Collaborators, scored: seq<Scored>)
    ensures var kept := Filter(scored, QualityKeep(c));
      && (forall i :: 0 <= i < |kept| ==> kept[i] in scored && QualityPasses(c, kept[i]))
      && (forall s :: s in scored && QualityPasses(c, s) ==> s in kept)
  {
    var kept := Filter(scored, QualityKeep(c));
    forall i | 0 <= i < |kept| ensures QualityPasses(c, kept[i]) {
      assert QualityKeep(c)(kept[i]);
    }
    forall s | s in scored && QualityPasses(c, s) ensures s in kept {
      assert QualityKeep(c)(s);
    }
  }

  /** The score bonus a pullback grade earns. */
  function Bonus(m: Match): (b: real)
    ensures b == (if m == Full then FullBonus else if m == Partial then PartialBonus else 0.0)
    ensures b >= 0.0
  {
    match m
    case Full => FullBonus
    case Partial => PartialBonus
    case NoMatch => 0.0
  }

  /** A better pullback grade never earns a smaller bonus. */
  lemma BonusMonotone(a: Match, b: Match)
    requires Grade(a) <= Grade(b)
    ensures Bonus(a) <= Bonus(b)
  {
    match a
    case Full => assert b == Full;
    case Partial => assert b != NoMatch;
    case NoMatch =>
  }

  /**
   * The pullback enrichment: never drops a row. An exception, a missing or empty
   * history or a missing assessment all grade `none` with no technical figures.
   */
  function Enrich(c: Collaborators, symbol: string): (r: (Match, Option<PullbackInfo>))
    ensures r.1.Some? <==> TechLookup(c, symbol).Done? && TechLookup(c, symbol).value.Some?
    ensures r.1.None? ==> r.0 == NoMatch
    ensures r.1.Some? ==>
      var a := TechLookup(c, symbol).value.value;
      r.0 == MatchOf(a) && r.1.value == PullbackInfo(a.pullbackPct, a.rsi, a.Bounce())
  {
    match TechLookup(c, symbol)
    case Raised => (NoMatch, None)
    case Done(None) => (NoMatch, None)
    case Done(Some(a)) => (MatchOf(a), Some(PullbackInfo(a.pullbackPct, a.rsi, a.Bounce())))
  }

  /** The row reported for a quote that passed the quality gate. */
  function RowOf(c: Collaborators, s: Scored): (row: AlphaRow)
    requires QualityPasses(c, s)
    ensures row.quote == s.quote && row.valueScore == s.valueScore && row.change == ChangeOf(c, s)
    ensures (row.pullbackMatch, row.pullback) == Enrich(c, Sym(s.quote))
    ensures row.totalScore == s.valueScore + ChangeOf(c, s).changeScore + Bonus(row.pullbackMatch)
  {
    var change := ChangeOf(c, s);
    var (m, info) := Enrich(c, Sym(s.quote));
    AlphaRow(s.quote, s.valueScore, change, m, info, s.valueScore + change.changeScore + Bonus(m))
  }

  /** Two rows with the same value and change scores rank by pullback grade. */
  lemma {:induction false} GradeRaisesTotal(c: Collaborators, s: Scored, t: Scored)
    requires QualityPasses(c, s) && QualityPasses(c, t)
    requires s.valueScore + ChangeOf(c, s).changeScore == t.valueScore + ChangeOf(c, t).changeScore
    requires Grade(RowOf(c, s).pullbackMatch) <= Grade(RowOf(c, t).pullbackMatch)
    ensures RowOf(c, s).totalScore <= RowOf(c, t).totalScore
  {
    BonusMonotone(RowOf(c, s).pullbackMatch, RowOf(c, t).pullbackMatch);
  }

  /** `total_score` with `reverse=True`. */
  function TotalKey(row: AlphaRow): SortKey {
    SortKey(0, row.totalScore)
  }

  function Rows(c: Collaborators, passed: seq<Scored>): (r: seq<AlphaRow>)
    requires forall i :: 0 <= i < |passed| ==> QualityPasses(c, passed[i])
    ensures |r| == |passed|
    ensures forall i :: 0 <= i < |r| ==> r[i] == RowOf(c, passed[i])
  {
    seq(|passed|, i requires 0 <= i < |passed| => RowOf(c, passed[i]))
  }

  /** The row of every quote that passes the quality gate, in input order, before the cut. */
  function Qualified(c: Collaborators, scored: seq<Scored>): (r: seq<AlphaRow>)
    ensures var kept := Filter(scored, QualityKeep(c));
      |r| == |kept| && forall i :: 0 <= i < |r| ==> QualityPasses(c, kept[i]) && r[i] == RowOf(c, kept[i])
  {
    QualityKept(c, scored);
    Rows(c, Filter(scored, QualityKeep(c)))
  }

  /** Rows sorted by `TotalKey` are in descending total score. */
  lemma TotalOrdered(r: seq<AlphaRow>)
    requires Sorted(r, TotalKey)
    ensures forall i, j :: 0 <= i < j < |r| ==> r[i].totalScore >= r[j].totalScore
  {
    forall i, j | 0 <= i < j < |r| ensures NotAfter(TotalKey(r[i]), TotalKey(r[j])) {
    }
  }

  /** `row` is what some quote of `scored` that passed the quality gate yields. */
  predicate Emitted(c: Collaborators, scored: seq<Scored>, row: AlphaRow) {
    exists s :: s in scored && QualityPasses(c, s) && row == RowOf(c, s)
  }

  lemma RowsEmitted(c: Collaborators, scored: seq<Scored>, passed: seq<Scored>, out: seq<AlphaRow>)
    requires forall i :: 0 <= i < |passed| ==> passed[i] in scored && QualityPasses(c, passed[i])
    requires forall i :: 0 <= i < |out| ==> out[i] in Rows(c, passed)
    ensures forall i :: 0 <= i < |out| ==> Emitted(c, scored, out[i])
  {
    var rows := Rows(c, passed);
    forall i | 0 <= i < |out| ensures Emitted(c, scored, out[i]) {
      var k :| 0 <= k < |rows| && rows[k] == out[i];
      var s := passed[k];
      assert s in scored && QualityPasses(c, s) && out[i] == RowOf(c, s);
    }
  }

  lemma RowsComplete(c: Collaborators, scored: seq<Scored>, passed: seq<Scored>, out: seq<AlphaRow>)
    requires forall i :: 0 <= i < |passed| ==> QualityPasses(c, passed[i])
    requires forall s :: s in scored && QualityPasses(c, s) ==> s in passed
    requires forall x :: x in Rows(c, passed) ==> x in out
    ensures forall s :: s in scored && QualityPasses(c, s) ==> RowOf(c, s) in out
  {
    var rows := Rows(c, passed);
    forall s | s in scored && QualityPasses(c, s) ensures RowOf(c, s) in out {
      var k :| 0 <= k < |passed| && passed[k] == s;
      assert rows[k] in rows;
    }
  }

  /**
   * The `top_n` cut kept the best rows: the row of a quote that passed the quality
   * gate with a total score above the last row kept was kept.
   */
  predicate KeepsBest(c: Collaborators, scored: seq<Scored>, r: seq<AlphaRow>) {
    |r| > 0 ==> forall s ::
      (s in scored && QualityPasses(c, s) && RowOf(c, s).totalScore > r[|r| - 1].totalScore)
      ==> RowOf(c, s) in r
  }

  /** Sorting the passing rows and cutting them to `top_n` keeps the best of them. */
  lemma RankedKeepsBest(c: Collaborators, scored: seq<Scored>, passed: seq<Scored>, topN: int)
    requires forall i :: 0 <= i < |passed| ==> QualityPasses(c, passed[i])
    requires forall s :: s in scored && QualityPasses(c, s) ==> s in passed
    ensures KeepsBest(c, scored, RankTop(Rows(c, passed), TotalKey, topN))
  {
    var r := RankTop(Rows(c, passed), TotalKey, topN);
    RowsComplete(c, scored, passed, Rows(c, passed));
    RankTopKeepsBest(Rows(c, passed), TotalKey, topN);
    if |r| > 0 {
      forall s | s in scored && QualityPasses(c, s) && RowOf(c, s).totalScore > r[|r| - 1].totalScore
        ensures RowOf(c, s) in r
      {
        assert Before(TotalKey(RowOf(c, s)), TotalKey(r[|r| - 1]));
      }
    }
  }

  /** Everything the ranking step promises, about the cut of the passing quotes' rows. */
  lemma RankedFacts(c: Collaborators, scored: seq<Scored>, topN: int)
    ensures var r := RankTop(Qualified(c, scored), TotalKey, topN);
      && (0 <= topN ==> |r| <= topN)
      && (forall i :: 0 <= i < |r| ==> Emitted(c, scored, r[i]))
      && (0 <= topN && |r| < topN ==> forall s :: s in scored && QualityPasses(c, s) ==> RowOf(c, s) in r)
      && (forall i, j :: 0 <= i < j < |r| ==> r[i].totalScore >= r[j].totalScore)
      && KeepsBest(c, scored, r)
      && TopCut(r, Qualified(c, scored), TotalKey, topN)
  {
    var passed := Filter(scored, QualityKeep(c));
    QualityKept(c, scored);
    assert Qualified(c, scored) == Rows(c, passed);
    var out := RankTop(Rows(c, passed), TotalKey, topN);
    TotalOrdered(out);
    RankedKeepsBest(c, scored, passed, topN);
    RowsEmitted(c, scored, passed, out);
    if 0 <= topN && |out| < topN {
      RowsComplete(c, scored, passed, out);
    }
  }

  /** The scoring and ranking step: the passing quotes' rows by total score, cut to `top_n`. */
  function RankRows(c: Collaborators, scored: seq<Scored>, topN: int): (r: seq<AlphaRow>)
    ensures 0 <= topN ==> |r| <= topN
    ensures forall i :: 0 <= i < |r| ==> Emitted(c, scored, r[i])
    ensures 0 <= topN && |r| < topN ==> forall s :: s in scored && QualityPasses(c, s) ==> RowOf(c, s) in r
    ensures forall i, j :: 0 <= i < j < |r| ==> r[i].totalScore >= r[j].totalScore
    ensures KeepsBest(c, scored, r)
    ensures TopCut(r, Qualified(c, scored), TotalKey, topN)
  {
    RankedFacts(c, scored, topN);
    RankTop(Qualified(c, scored), TotalKey, topN)
  }

  /** The screen once the preset's criteria are loaded. */
  function ScreenWith(c: Collaborators, region: string, topN: int, criteria: Criteria): (r: seq<AlphaRow>)
    ensures var raw := c.screenStocks(WideRequest(region, topN, criteria));
      && (|raw| == 0 ==> r == [])
      && (forall i :: 0 <= i < |r| ==> Emitted(c, ScoreAll(c, raw), r[i]))
      && (0 <= topN && |r| < topN ==>
            forall s :: s in ScoreAll(c, raw) && QualityPasses(c, s) ==> RowOf(c, s) in r)
      && KeepsBest(c, ScoreAll(c, raw), r)
      && TopCut(r, Qualified(c, ScoreAll(c, raw)), TotalKey, topN)
    ensures 0 <= topN ==> |r| <= topN
    ensures forall i, j :: 0 <= i < j < |r| ==> r[i].totalScore >= r[j].totalScore
  {
    var raw := c.screenStocks(WideRequest(region, topN, criteria));
    if |raw| == 0 then []
    else
      var scored := ScoreAll(c, raw);
      if |Qualified(c, scored)| == 0 then []
      else RankRows(c, scored, topN)
  }

  /**
   * `AlphaScreener.screen`. A preset that cannot be loaded aborts the screen; after
   * that nothing fails: a quote that raises during the pullback check is kept with
   * grade `none`.
   */
  function Screen(c: Collaborators, region: string, topN: int): (r: Result<seq<AlphaRow>, ScreenError>)
    ensures c.loadPreset(Preset).Failure? ==> r == Failure(PresetError(Preset, c.loadPreset(Preset).error))
    ensures c.loadPreset(Preset).Success? ==> r == Success(ScreenWith(c, region, topN, c.loadPreset(Preset).value))
  {
    var criteria :- LoadPreset(c.loadPreset, Preset);
    Success(ScreenWith(c, region, topN, criteria))
  }
}
