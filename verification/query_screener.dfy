/**
 * The query screener: one provider-side screening query, quote normalisation and
 * value scoring, an optional shareholder-return filter, an optional
 * pullback-in-uptrend filter, then a ranked cut to `top_n`.
 */
module QueryScreener {
  import opened Wrappers
  import opened Ranking
  import opened Screening
  import opened Seqs

  /** The arguments of `QueryScreener.screen`. */
  datatype QueryParams = QueryParams(
    region: string, criteria: Option<Criteria>, preset: Option<string>,
    exchange: Option<string>, sector: Option<string>, topN: int,
    sortField: string, sortAsc: bool, withPullback: bool)

  /** A result row: the scored quote plus whatever the optional stages attached. */
  datatype QueryRow = QueryRow(quote: Quote, valueScore: real, payout: Option<ReturnProfile>, tech: Option<TechInfo>)

  /** The symbol of a row. */
  function RowSym(row: QueryRow): string {
    Sym(row.quote)
  }

  /** The criteria key that switches the shareholder-return stage on. */
  const MinReturnKey: string := "min_total_shareholder_return"

  /** Provider page size for every screening query. */
  const PageSize: int := 250

  /** How many quotes to request: more in pullback mode, where most fail the filter. */
  function MaxResults(topN: int, withPullback: bool): (n: int)
    ensures withPullback ==> n >= 5 * topN && n >= 250 && (n == 5 * topN || n == 250)
    ensures !withPullback ==> n == 5 * topN
  {
    if withPullback then WideFetch(topN) else topN * 5
  }

  function Request(p: QueryParams, criteria: Criteria): FetchRequest {
    FetchRequest(QuerySpec(criteria, p.region, p.exchange, p.sector),
                 PageSize, MaxResults(p.topN, p.withPullback), p.sortField, p.sortAsc)
  }

  // ----- Shareholder-return stage -----

  /** A row keeps its place: it has a symbol, a detail record, and passes the minimum. */
  predicate ReturnPasses(c: Collaborators, row: QueryRow, minReturn: real) {
    && Sym(row.quote) != ""
    && c.stockDetail(Sym(row.quote)).Some?
    && c.applyFilters(row.quote, Some(c.returnProfile(c.stockDetail(Sym(row.quote)).value)),
                      map[MinReturnKey := minReturn])
  }

  function WithReturns(c: Collaborators, row: QueryRow): QueryRow
    requires Sym(row.quote) != "" && c.stockDetail(Sym(row.quote)).Some?
  {
    row.(payout := Some(c.returnProfile(c.stockDetail(Sym(row.quote)).value)))
  }

  /** The return filter as a predicate on rows, for use with `Seqs.Filter`. */
  function ReturnKeep(c: Collaborators, minReturn: real): QueryRow -> bool {
    (x: QueryRow) => ReturnPasses(c, x, minReturn)
  }

  /**
   * `out` is what the return stage yields for `rows`: the rows that pass, in input
   * order and as often as `rows` holds them, each with its profile attached.
   */
  ghost predicate ReturnOutput(c: Collaborators, rows: seq<QueryRow>, minReturn: real, out: seq<QueryRow>) {
    var kept := Filter(rows, ReturnKeep(c, minReturn));
    && |out| == |kept|
    && forall i :: 0 <= i < |out| ==> ReturnPasses(c, kept[i], minReturn) && out[i] == WithReturns(c, kept[i])
  }

  /** A row the return filter drops leaves the output for the rest as it is. */
  lemma ReturnSkipStep(c: Collaborators, rows: seq<QueryRow>, minReturn: real, rest: seq<QueryRow>)
    requires |rows| > 0 && !ReturnPasses(c, rows[0], minReturn)
    requires ReturnOutput(c, rows[1..], minReturn, rest)
    ensures ReturnOutput(c, rows, minReturn, rest)
  {
    assert Filter(rows, ReturnKeep(c, minReturn)) == Filter(rows[1..], ReturnKeep(c, minReturn));
  }

  /** A row the return filter keeps goes, with its profile, in front of the output for the rest. */
  lemma ReturnKeepStep(c: Collaborators, rows: seq<QueryRow>, minReturn: real, rest: seq<QueryRow>)
    requires |rows| > 0 && ReturnPasses(c, rows[0], minReturn)
    requires ReturnOutput(c, rows[1..], minReturn, rest)
    ensures ReturnOutput(c, rows, minReturn, [WithReturns(c, rows[0])] + rest)
  {
    var kept := Filter(rows, ReturnKeep(c, minReturn));
    var keptRest := Filter(rows[1..], ReturnKeep(c, minReturn));
    assert kept == [rows[0]] + keptRest;
    var out := [WithReturns(c, rows[0])] + rest;
    forall i | 0 <= i < |out| ensures ReturnPasses(c, kept[i], minReturn) && out[i] == WithReturns(c, kept[i]) {
      if i > 0 {
        assert kept[i] == keptRest[i - 1] && out[i] == rest[i - 1];
      }
    }
  }

  /**
   * Drops rows without a symbol or a detail record, attaches the shareholder-return
   * profile, and keeps the rows that pass the minimum total shareholder return.
   */
  function ReturnStage(c: Collaborators, rows: seq<QueryRow>, minReturn: real): (r: seq<QueryRow>)
    requires forall x :: x in rows ==> x.payout.None?
    ensures |r| <= |rows|
    ensures forall i :: 0 <= i < |r| ==>
      && r[i].(payout := None) in rows
      && ReturnPasses(c, r[i].(payout := None), minReturn)
      && r[i] == WithReturns(c, r[i].(payout := None))
    ensures forall x :: x in rows && ReturnPasses(c, x, minReturn) ==> WithReturns(c, x) in r
    ensures ReturnOutput(c, rows, minReturn, r)
    decreases |rows|
  {
    if |rows| == 0 then []
    else
      var rest := ReturnStage(c, rows[1..], minReturn);
      assert forall y :: y in rows[1..] ==> y in rows;
      assert forall y :: y in rows ==> y == rows[0] || y in rows[1..];
      if ReturnPasses(c, rows[0], minReturn) then
        var head := WithReturns(c, rows[0]);
        assert head.(payout := None) == rows[0];
        ReturnKeepStep(c, rows, minReturn, rest);
        [head] + rest
      else
        ReturnSkipStep(c, rows, minReturn, rest);
        rest
  }

  // ----- Ranking -----

  predicate IsFull(row: QueryRow) {
    row.tech.Some? && row.tech.value.matchType == Full
  }

  /** `(0 if match_type == "full" else 1, -value_score)`. */
  function PullbackKey(row: QueryRow): SortKey {
    SortKey(if IsFull(row) then 0 else 1, row.valueScore)
  }

  /** `value_score` with `reverse=True`. */
  function ValueKey(row: QueryRow): SortKey {
    SortKey(0, row.valueScore)
  }

  /** The row a scored quote starts as, before any optional stage attaches anything. */
  function BaseRow(s: Scored): QueryRow {
    QueryRow(s.quote, s.valueScore, None, None)
  }

  /** The base rows of scored quotes, in their order. */
  function BaseRows(ss: seq<Scored>): (r: seq<QueryRow>)
    ensures |r| == |ss| && forall i :: 0 <= i < |r| ==> r[i] == BaseRow(ss[i])
  {
    if |ss| == 0 then [] else [BaseRow(ss[0])] + BaseRows(ss[1..])
  }

  /** The rows the normalisation and scoring stage builds from the fetched quotes. */
  function InitialRows(c: Collaborators, raw: seq<RawQuote>): (r: seq<QueryRow>)
    ensures |r| == |raw|
    ensures forall i :: 0 <= i < |r| ==>
      && r[i].quote == ScoreAll(c, raw)[i].quote && r[i].valueScore == ScoreAll(c, raw)[i].valueScore
      && r[i].payout.None? && r[i].tech.None?
    ensures forall i :: 0 <= i < |r| ==> Scored(r[i].quote, r[i].valueScore) in ScoreAll(c, raw)
  {
    BaseRows(ScoreAll(c, raw))
  }

  /** The rows the shareholder-return stage passes on, or all rows when it is off. */
  function AfterReturns(c: Collaborators, rows: seq<QueryRow>, criteria: Criteria): (r: seq<QueryRow>)
    requires forall x :: x in rows ==> x.payout.None? && x.tech.None?
    ensures MinReturnKey !in criteria ==> r == rows
    ensures MinReturnKey in criteria ==> forall i :: 0 <= i < |r| ==>
      && ReturnPasses(c, r[i].(payout := None), criteria[MinReturnKey])
      && r[i] == WithReturns(c, r[i].(payout := None))
    ensures MinReturnKey in criteria ==>
      forall x :: x in rows && ReturnPasses(c, x, criteria[MinReturnKey]) ==> WithReturns(c, x) in r
    ensures MinReturnKey in criteria ==> forall i :: 0 <= i < |r| ==>
      && Sym(r[i].quote) != "" && r[i].payout.Some?
      && c.applyFilters(r[i].quote, r[i].payout, map[MinReturnKey := criteria[MinReturnKey]])
    ensures forall i :: 0 <= i < |r| ==> r[i].(payout := None) in rows && r[i].tech.None?
    ensures MinReturnKey in criteria ==> ReturnOutput(c, rows, criteria[MinReturnKey], r)
  {
    if MinReturnKey in criteria then ReturnStage(c, rows, criteria[MinReturnKey]) else rows
  }

  /** A scored quote passes the shareholder-return stage, or the stage is off. */
  predicate ReturnOk(c: Collaborators, criteria: Criteria, s: Scored) {
    MinReturnKey in criteria ==> ReturnPasses(c, BaseRow(s), criteria[MinReturnKey])
  }

  /** The row a scored quote that passed the shareholder-return stage goes on to ranking with. */
  function CandidateRow(c: Collaborators, criteria: Criteria, s: Scored): (row: QueryRow)
    requires ReturnOk(c, criteria, s)
    ensures row.quote == s.quote && row.valueScore == s.valueScore && row.tech.None?
  {
    if MinReturnKey in criteria then WithReturns(c, BaseRow(s)) else BaseRow(s)
  }

  /** `row` is the candidate row of some fetched quote. */
  predicate IsCandidate(c: Collaborators, raw: seq<RawQuote>, criteria: Criteria, row: QueryRow) {
    exists s :: s in ScoreAll(c, raw) && ReturnOk(c, criteria, s) && row == CandidateRow(c, criteria, s)
  }

  /** The return check as a predicate on scored quotes, for use with `Seqs.Filter`. */
  function ReturnOkFn(c: Collaborators, criteria: Criteria): Scored -> bool {
    (s: Scored) => ReturnOk(c, criteria, s)
  }

  /**
   * The candidate rows of the scored quotes that pass the return check, in their
   * order and as often as `ss` holds them: what the ranking stage starts from.
   */
  function CandidatesOf(c: Collaborators, criteria: Criteria, ss: seq<Scored>): (r: seq<QueryRow>)
    ensures var kept := Filter(ss, ReturnOkFn(c, criteria));
      && |r| == |kept|
      && forall i :: 0 <= i < |r| ==> ReturnOk(c, criteria, kept[i]) && r[i] == CandidateRow(c, criteria, kept[i])
  {
    if |ss| == 0 then []
    else
      var rest := CandidatesOf(c, criteria, ss[1..]);
      if ReturnOk(c, criteria, ss[0]) then
        assert Filter(ss, ReturnOkFn(c, criteria)) == [ss[0]] + Filter(ss[1..], ReturnOkFn(c, criteria));
        [CandidateRow(c, criteria, ss[0])] + rest
      else
        assert Filter(ss, ReturnOkFn(c, criteria)) == Filter(ss[1..], ReturnOkFn(c, criteria));
        rest
  }

  /** The return stage run on the base rows of `ss` yields the candidates of `ss`. */
  lemma {:induction false} ReturnStageBase(c: Collaborators, criteria: Criteria, ss: seq<Scored>)
    requires MinReturnKey in criteria
    ensures ReturnStage(c, BaseRows(ss), criteria[MinReturnKey]) == CandidatesOf(c, criteria, ss)
  {
    if |ss| > 0 {
      ReturnStageBase(c, criteria, ss[1..]);
      assert BaseRows(ss)[1..] == BaseRows(ss[1..]);
    }
  }

  /** With the return stage off, the base rows of `ss` are the candidates of `ss`. */
  lemma {:induction false} NoReturnStageBase(c: Collaborators, criteria: Criteria, ss: seq<Scored>)
    requires MinReturnKey !in criteria
    ensures BaseRows(ss) == CandidatesOf(c, criteria, ss)
  {
    if |ss| > 0 {
      NoReturnStageBase(c, criteria, ss[1..]);
    }
  }

  /** Every row the return stage passes on is the candidate row of a fetched quote. */
  lemma CandidatesSound(c: Collaborators, raw: seq<RawQuote>, criteria: Criteria)
    ensures var r := AfterReturns(c, InitialRows(c, raw), criteria);
      forall i :: 0 <= i < |r| ==> IsCandidate(c, raw, criteria, r[i])
  {
    var scored := ScoreAll(c, raw);
    var initial := InitialRows(c, raw);
    var r := AfterReturns(c, initial, criteria);
    forall i | 0 <= i < |r| ensures IsCandidate(c, raw, criteria, r[i]) {
      var k :| 0 <= k < |initial| && initial[k] == r[i].(payout := None);
      var x := scored[k];
      assert initial[k] == BaseRow(x);
      if MinReturnKey in criteria {
        assert ReturnPasses(c, BaseRow(x), criteria[MinReturnKey]);
        assert r[i] == WithReturns(c, BaseRow(x)) == CandidateRow(c, criteria, x);
      } else {
        assert r[i] == BaseRow(x) == CandidateRow(c, criteria, x);
      }
      assert x in scored;
    }
  }

  /** Every fetched quote that passes the return stage reaches ranking as its candidate row. */
  lemma CandidatesComplete(c: Collaborators, raw: seq<RawQuote>, criteria: Criteria)
    ensures var r := AfterReturns(c, InitialRows(c, raw), criteria);
      forall s :: s in ScoreAll(c, raw) && ReturnOk(c, criteria, s) ==> CandidateRow(c, criteria, s) in r
  {
    var scored := ScoreAll(c, raw);
    var initial := InitialRows(c, raw);
    forall s | s in scored && ReturnOk(c, criteria, s)
      ensures CandidateRow(c, criteria, s) in AfterReturns(c, initial, criteria)
    {
      var k :| 0 <= k < |scored| && scored[k] == s;
      assert initial[k] == BaseRow(s);
      assert initial[k] in initial;
    }
  }

  /** The pipeline's candidates are the reference candidates of the scored quotes. */
  lemma CandidatesExact(c: Collaborators, raw: seq<RawQuote>, criteria: Criteria)
    ensures AfterReturns(c, InitialRows(c, raw), criteria) == CandidatesOf(c, criteria, ScoreAll(c, raw))
  {
    if MinReturnKey in criteria {
      ReturnStageBase(c, criteria, ScoreAll(c, raw));
    } else {
      NoReturnStageBase(c, criteria, ScoreAll(c, raw));
    }
  }

  /** Attaches each surviving row's technical fields. */
  function Tagged(passed: seq<(QueryRow, TechInfo)>): (r: seq<QueryRow>)
    ensures |r| == |passed|
    ensures forall i :: 0 <= i < |r| ==> r[i] == passed[i].0.(tech := Some(passed[i].1))
  {
    seq(|passed|, i requires 0 <= i < |passed| => passed[i].0.(tech := Some(passed[i].1)))
  }

  /** A row that passed the technical filter, with its technical fields attached. */
  function Tag(c: Collaborators, row: QueryRow): QueryRow
    requires TechPasses(c, Sym(row.quote))
  {
    row.(tech := Some(TechInfoFor(c, Sym(row.quote))))
  }

  /** The rows that pass the technical filter, each tagged, in their input order. */
  function TagPassing(c: Collaborators, rows: seq<QueryRow>): (r: seq<QueryRow>)
    ensures var kept := Filter(rows, TechKeep(c, RowSym));
      && |r| == |kept|
      && forall i :: 0 <= i < |r| ==> TechPasses(c, Sym(kept[i].quote)) && r[i] == Tag(c, kept[i])
  {
    if |rows| == 0 then []
    else
      var rest := TagPassing(c, rows[1..]);
      TagStep(c, rows, rest);
      if TechPasses(c, Sym(rows[0].quote)) then [Tag(c, rows[0])] + rest else rest
  }

  /** One step of `TagPassing`: the first row goes in front, tagged, exactly when it passes. */
  lemma TagStep(c: Collaborators, rows: seq<QueryRow>, rest: seq<QueryRow>)
    requires |rows| > 0
    requires var kept := Filter(rows[1..], TechKeep(c, RowSym));
      && |rest| == |kept|
      && forall i :: 0 <= i < |rest| ==> TechPasses(c, Sym(kept[i].quote)) && rest[i] == Tag(c, kept[i])
    ensures var kept := Filter(rows, TechKeep(c, RowSym));
      var r := if TechPasses(c, Sym(rows[0].quote)) then [Tag(c, rows[0])] + rest else rest;
      && |r| == |kept|
      && forall i :: 0 <= i < |r| ==> TechPasses(c, Sym(kept[i].quote)) && r[i] == Tag(c, kept[i])
  {
    TechKeepApply(c, RowSym, rows[0]);
    assert RowSym(rows[0]) == Sym(rows[0].quote);
  }

  /** Tagging the technical stage's output gives the passing rows, tagged, in order. */
  lemma TaggedPassing(c: Collaborators, rows: seq<QueryRow>, passed: seq<(QueryRow, TechInfo)>)
    requires StageOutput(c, rows, RowSym, passed)
    ensures Tagged(passed) == TagPassing(c, rows)
  {
    var kept := Filter(rows, TechKeep(c, RowSym));
    forall i | 0 <= i < |passed| ensures Tagged(passed)[i] == TagPassing(c, rows)[i] {
      assert Firsts(passed)[i] == kept[i];
    }
  }

  /**
   * The pullback branch's cut kept the best rows: the tagged row of a passing input
   * row that sorts strictly ahead of the last row kept (full over partial, else a
   * higher value score) was kept.
   */
  predicate PullbackKeepsBest(c: Collaborators, rows: seq<QueryRow>, r: seq<QueryRow>) {
    |r| > 0 ==> forall x ::
      (x in rows && TechPasses(c, Sym(x.quote)) && Before(PullbackKey(Tag(c, x)), PullbackKey(r[|r| - 1])))
      ==> Tag(c, x) in r
  }

  /** The tagged rows are exactly the passing input rows, each with its technical fields. */
  lemma TaggedExact(c: Collaborators, rows: seq<QueryRow>, passed: seq<(QueryRow, TechInfo)>)
    requires forall i :: 0 <= i < |passed| ==>
      && passed[i].0 in rows && TechPasses(c, Sym(passed[i].0.quote))
      && passed[i].1 == TechInfoFor(c, Sym(passed[i].0.quote))
    requires forall x :: x in rows && TechPasses(c, Sym(x.quote)) ==> (x, TechInfoFor(c, Sym(x.quote))) in passed
    ensures forall i :: 0 <= i < |Tagged(passed)| ==>
      passed[i].0 in rows && TechPasses(c, Sym(passed[i].0.quote)) && Tagged(passed)[i] == Tag(c, passed[i].0)
    ensures forall x :: x in rows && TechPasses(c, Sym(x.quote)) ==> Tag(c, x) in Tagged(passed)
  {
    var tagged := Tagged(passed);
    forall x | x in rows && TechPasses(c, Sym(x.quote)) ensures Tag(c, x) in tagged {
      var k :| 0 <= k < |passed| && passed[k] == (x, TechInfoFor(c, Sym(x.quote)));
      assert tagged[k] == Tag(c, x);
    }
  }

  /**
   * What the pullback branch promises about the rows `r` it returns for `rows`: at
   * most `top_n` rows, each an input row that passed the technical filter with its
   * fields attached; every passing row unless the cut was binding; none left out
   * that sorts ahead of the last row kept; full rows first, each group by value
   * score; and the `top_n` cut (`TopCut`) of the passing rows, tagged, in input order.
   */
  ghost predicate PullbackRanking(c: Collaborators, rows: seq<QueryRow>, topN: int, r: seq<QueryRow>) {
    && (0 <= topN ==> |r| <= topN)
    && (forall i :: 0 <= i < |r| ==>
          && r[i].tech.Some? && r[i].tech.value.matchType in {Full, Partial}
          && r[i].(tech := None) in rows
          && TechPasses(c, Sym(r[i].quote)) && r[i] == Tag(c, r[i].(tech := None)))
    && (0 <= topN && |r| < topN ==> forall x :: x in rows && TechPasses(c, Sym(x.quote)) ==> Tag(c, x) in r)
    && PullbackKeepsBest(c, rows, r)
    && (forall i, j :: 0 <= i < j < |r| && IsFull(r[j]) ==> IsFull(r[i]))
    && (forall i, j :: 0 <= i < j < |r| && IsFull(r[i]) == IsFull(r[j]) ==> r[i].valueScore >= r[j].valueScore)
    && TopCut(r, TagPassing(c, rows), PullbackKey, topN)
  }

  /** The pullback branch: technical filter, then full-first ranking by value score. */
  function PullbackRank(c: Collaborators, rows: seq<QueryRow>, topN: int): (r: Result<seq<QueryRow>, ScreenError>)
    requires forall x :: x in rows ==> x.tech.None?
    ensures r.Success? ==> PullbackRanking(c, rows, topN, r.value)
    ensures (forall x :: x in rows ==> !TechLookup(c, Sym(x.quote)).Raised?) ==> r.Success?
    ensures r.Failure? ==> r.error.HistoryRaised?
  {
    var passed :- TechnicalStage(c, rows, RowSym);
    PullbackStage(c, rows, passed, topN);
    Success(RankTop(Tagged(passed), PullbackKey, topN))
  }

  /** What the pullback branch keeps of the technical stage's output `passed`. */
  lemma PullbackStage(c: Collaborators, rows: seq<QueryRow>, passed: seq<(QueryRow, TechInfo)>, topN: int)
    requires forall x :: x in rows ==> x.tech.None?
    requires StageOutput(c, rows, RowSym, passed)
    requires forall i :: 0 <= i < |passed| ==> passed[i].0 in rows
    requires forall x :: x in rows && TechPasses(c, Sym(x.quote)) ==> (x, TechInfoFor(c, Sym(x.quote))) in passed
    ensures PullbackRanking(c, rows, topN, RankTop(Tagged(passed), PullbackKey, topN))
  {
    TaggedExact(c, rows, passed);
    TaggedPassing(c, rows, passed);
    PullbackRankedRows(c, rows, passed, topN);
    PullbackRankedOrder(c, rows, Tagged(passed), topN);
  }

  /** Each row the pullback cut keeps is a passing input row, tagged. */
  lemma PullbackRankedRows(c: Collaborators, rows: seq<QueryRow>, passed: seq<(QueryRow, TechInfo)>, topN: int)
    requires forall x :: x in rows ==> x.tech.None?
    requires forall i :: 0 <= i < |Tagged(passed)| ==>
      passed[i].0 in rows && TechPasses(c, Sym(passed[i].0.quote)) && Tagged(passed)[i] == Tag(c, passed[i].0)
    ensures var out := RankTop(Tagged(passed), PullbackKey, topN);
      forall i :: 0 <= i < |out| ==>
        && out[i].tech.Some? && out[i].tech.value.matchType in {Full, Partial}
        && out[i].(tech := None) in rows
        && TechPasses(c, Sym(out[i].quote)) && out[i] == Tag(c, out[i].(tech := None))
  {
    var tagged := Tagged(passed);
    var out := RankTop(tagged, PullbackKey, topN);
    forall i | 0 <= i < |out|
      ensures && out[i].tech.Some? && out[i].tech.value.matchType in {Full, Partial}
              && out[i].(tech := None) in rows
              && TechPasses(c, Sym(out[i].quote)) && out[i] == Tag(c, out[i].(tech := None))
    {
      var k :| 0 <= k < |tagged| && tagged[k] == out[i];
      var x := passed[k].0;
      assert out[i].(tech := None) == x;
    }
  }

  /** The pullback cut misses no passing row it had room for, keeps the best, and is in full-first order. */
  lemma PullbackRankedOrder(c: Collaborators, rows: seq<QueryRow>, tagged: seq<QueryRow>, topN: int)
    requires forall x :: x in rows && TechPasses(c, Sym(x.quote)) ==> Tag(c, x) in tagged
    ensures var out := RankTop(tagged, PullbackKey, topN);
      && (0 <= topN && |out| < topN ==> forall x :: x in rows && TechPasses(c, Sym(x.quote)) ==> Tag(c, x) in out)
      && PullbackKeepsBest(c, rows, out)
      && (forall i, j :: 0 <= i < j < |out| && IsFull(out[j]) ==> IsFull(out[i]))
      && (forall i, j :: 0 <= i < j < |out| && IsFull(out[i]) == IsFull(out[j]) ==> out[i].valueScore >= out[j].valueScore)
  {
    var out := RankTop(tagged, PullbackKey, topN);
    RankTopKeepsBest(tagged, PullbackKey, topN);
    forall i, j | 0 <= i < j < |out| ensures NotAfter(PullbackKey(out[i]), PullbackKey(out[j])) {
    }
  }

  /** Everything the plain branch promises, about the cut of the rows by value score. */
  lemma ValueRankFacts(rows: seq<QueryRow>, topN: int)
    ensures var r := RankTop(rows, ValueKey, topN);
      && (|r| > 0 ==> forall x :: x in rows && x.valueScore > r[|r| - 1].valueScore ==> x in r)
      && (forall i, j :: 0 <= i < j < |r| ==> r[i].valueScore >= r[j].valueScore)
  {
    var out := RankTop(rows, ValueKey, topN);
    RankTopKeepsBest(rows, ValueKey, topN);
    if |out| > 0 {
      forall x | x in rows && x.valueScore > out[|out| - 1].valueScore ensures x in out {
        assert Before(ValueKey(x), ValueKey(out[|out| - 1]));
      }
    }
    forall i, j | 0 <= i < j < |out| ensures out[i].valueScore >= out[j].valueScore {
      assert NotAfter(ValueKey(out[i]), ValueKey(out[j]));
    }
  }

  /** The plain branch: rows ordered by value score, highest first. */
  function ValueRank(rows: seq<QueryRow>, topN: int): (r: seq<QueryRow>)
    ensures 0 <= topN ==> |r| == (if topN < |rows| then topN else |rows|)
    ensures forall i :: 0 <= i < |r| ==> r[i] in rows
    ensures topN >= |rows| ==> forall x :: x in rows ==> x in r
    ensures |r| > 0 ==> forall x :: x in rows && x.valueScore > r[|r| - 1].valueScore ==> x in r
    ensures forall i, j :: 0 <= i < j < |r| ==> r[i].valueScore >= r[j].valueScore
    ensures TopCut(r, rows, ValueKey, topN)
  {
    ValueRankFacts(rows, topN);
    RankTop(rows, ValueKey, topN)
  }

  /** The scored rows that go on to ranking: the fetched quotes after the shareholder-return stage. */
  function Candidates(c: Collaborators, raw: seq<RawQuote>, criteria: Criteria): (r: seq<QueryRow>)
    ensures forall i :: 0 <= i < |r| ==> IsCandidate(c, raw, criteria, r[i])
    ensures forall s :: s in ScoreAll(c, raw) && ReturnOk(c, criteria, s) ==> CandidateRow(c, criteria, s) in r
    ensures forall i :: 0 <= i < |r| ==>
      Scored(r[i].quote, r[i].valueScore) in ScoreAll(c, raw) && r[i].tech.None?
    ensures MinReturnKey in criteria ==> forall i :: 0 <= i < |r| ==>
      && Sym(r[i].quote) != "" && r[i].payout.Some?
      && c.applyFilters(r[i].quote, r[i].payout, map[MinReturnKey := criteria[MinReturnKey]])
    ensures MinReturnKey !in criteria ==> r == InitialRows(c, raw)
    ensures r == CandidatesOf(c, criteria, ScoreAll(c, raw))
  {
    var initial := InitialRows(c, raw);
    var rows := AfterReturns(c, initial, criteria);
    CandidatesExact(c, raw, criteria);
    CandidatesSound(c, raw, criteria);
    CandidatesComplete(c, raw, criteria);
    assert forall i :: 0 <= i < |rows| ==> Scored(rows[i].quote, rows[i].valueScore) in ScoreAll(c, raw) by {
      forall i | 0 <= i < |rows| ensures Scored(rows[i].quote, rows[i].valueScore) in ScoreAll(c, raw) {
        assert rows[i].(payout := None) in initial;
      }
    }
    rows
  }

  // ----- The whole screen -----

  /** A scored quote reaches ranking: it passes the return stage, and the technical filter in pullback mode. */
  predicate Eligible(c: Collaborators, criteria: Criteria, withPullback: bool, s: Scored) {
    ReturnOk(c, criteria, s) && (withPullback ==> TechPasses(c, Sym(s.quote)))
  }

  /** The result row of an eligible scored quote. */
  function RowFor(c: Collaborators, criteria: Criteria, withPullback: bool, s: Scored): QueryRow
    requires Eligible(c, criteria, withPullback, s)
  {
    if withPullback then Tag(c, CandidateRow(c, criteria, s)) else CandidateRow(c, criteria, s)
  }

  /** The sort key of the mode: full-first then value score, or value score alone. */
  function ScreenKey(withPullback: bool, row: QueryRow): SortKey {
    if withPullback then PullbackKey(row) else ValueKey(row)
  }

  /** The mode's sort key as a function, for use with `Ranking.RankTop`. */
  function ModeKey(withPullback: bool): QueryRow -> SortKey {
    if withPullback then PullbackKey else ValueKey
  }

  /** Eligibility as a predicate on scored quotes, for use with `Seqs.Filter`. */
  function EligibleFn(c: Collaborators, criteria: Criteria, withPullback: bool): Scored -> bool {
    (s: Scored) => Eligible(c, criteria, withPullback, s)
  }

  /** `r` holds the result row of each eligible quote of `ss`, in order. */
  ghost predicate EligibleOutput(c: Collaborators, criteria: Criteria, withPullback: bool, ss: seq<Scored>, r: seq<QueryRow>) {
    var kept := Filter(ss, EligibleFn(c, criteria, withPullback));
    && |r| == |kept|
    && forall i :: 0 <= i < |r| ==>
         Eligible(c, criteria, withPullback, kept[i]) && r[i] == RowFor(c, criteria, withPullback, kept[i])
  }

  /** An eligible first quote puts its row in front of the rows for the rest. */
  lemma EligibleKeepStep(c: Collaborators, criteria: Criteria, withPullback: bool, ss: seq<Scored>, rest: seq<QueryRow>)
    requires |ss| > 0 && Eligible(c, criteria, withPullback, ss[0])
    requires EligibleOutput(c, criteria, withPullback, ss[1..], rest)
    ensures EligibleOutput(c, criteria, withPullback, ss, [RowFor(c, criteria, withPullback, ss[0])] + rest)
  {
    var kept := Filter(ss, EligibleFn(c, criteria, withPullback));
    var keptRest := Filter(ss[1..], EligibleFn(c, criteria, withPullback));
    assert kept == [ss[0]] + keptRest;
    var out := [RowFor(c, criteria, withPullback, ss[0])] + rest;
    forall i | 0 <= i < |out|
      ensures Eligible(c, criteria, withPullback, kept[i]) && out[i] == RowFor(c, criteria, withPullback, kept[i])
    {
      if i > 0 {
        assert kept[i] == keptRest[i - 1] && out[i] == rest[i - 1];
      }
    }
  }

  /** An ineligible first quote leaves the rows for the rest as they are. */
  lemma EligibleSkipStep(c: Collaborators, criteria: Criteria, withPullback: bool, ss: seq<Scored>, rest: seq<QueryRow>)
    requires |ss| > 0 && !Eligible(c, criteria, withPullback, ss[0])
    requires EligibleOutput(c, criteria, withPullback, ss[1..], rest)
    ensures EligibleOutput(c, criteria, withPullback, ss, rest)
  {
    assert Filter(ss, EligibleFn(c, criteria, withPullback)) == Filter(ss[1..], EligibleFn(c, criteria, withPullback));
  }

  /**
   * The result rows of the eligible quotes among `ss`, in their order and as often
   * as `ss` holds them: what the final cut selects from.
   */
  function EligibleRows(c: Collaborators, criteria: Criteria, withPullback: bool, ss: seq<Scored>): (r: seq<QueryRow>)
    ensures var kept := Filter(ss, EligibleFn(c, criteria, withPullback));
      && |r| == |kept|
      && forall i :: 0 <= i < |r| ==>
           Eligible(c, criteria, withPullback, kept[i]) && r[i] == RowFor(c, criteria, withPullback, kept[i])
  {
    if |ss| == 0 then []
    else
      var rest := EligibleRows(c, criteria, withPullback, ss[1..]);
      if Eligible(c, criteria, withPullback, ss[0]) then
        EligibleKeepStep(c, criteria, withPullback, ss, rest);
        [RowFor(c, criteria, withPullback, ss[0])] + rest
      else
        EligibleSkipStep(c, criteria, withPullback, ss, rest);
        rest
  }

  /** The passing candidates of `ss`, tagged, are the pullback-mode rows of `ss`. */
  lemma {:induction false} TaggedCandidates(c: Collaborators, criteria: Criteria, ss: seq<Scored>)
    ensures TagPassing(c, CandidatesOf(c, criteria, ss)) == EligibleRows(c, criteria, true, ss)
  {
    if |ss| > 0 {
      TaggedCandidates(c, criteria, ss[1..]);
      if ReturnOk(c, criteria, ss[0]) {
        var x := CandidateRow(c, criteria, ss[0]);
        assert CandidatesOf(c, criteria, ss)[1..] == CandidatesOf(c, criteria, ss[1..]);
        assert Sym(x.quote) == Sym(ss[0].quote);
      }
    }
  }

  /** The candidates of `ss` are the plain-mode rows of `ss`. */
  lemma {:induction false} PlainCandidates(c: Collaborators, criteria: Criteria, ss: seq<Scored>)
    ensures CandidatesOf(c, criteria, ss) == EligibleRows(c, criteria, false, ss)
  {
    if |ss| > 0 {
      PlainCandidates(c, criteria, ss[1..]);
    }
  }

  /** `row` is the result row of an eligible fetched quote. */
  predicate Emitted(c: Collaborators, raw: seq<RawQuote>, criteria: Criteria, withPullback: bool, row: QueryRow) {
    exists s :: s in ScoreAll(c, raw) && Eligible(c, criteria, withPullback, s) && row == RowFor(c, criteria, withPullback, s)
  }

  /** Every row of `r` is the result row of an eligible fetched quote. */
  predicate AllEmitted(c: Collaborators, raw: seq<RawQuote>, criteria: Criteria, withPullback: bool, r: seq<QueryRow>) {
    forall i :: 0 <= i < |r| ==> Emitted(c, raw, criteria, withPullback, r[i])
  }

  /** When fewer than `top_n` rows come back, every eligible quote's row is among them. */
  predicate Complete(c: Collaborators, raw: seq<RawQuote>, criteria: Criteria, withPullback: bool, topN: int, r: seq<QueryRow>) {
    0 <= topN && |r| < topN ==>
      forall s :: s in ScoreAll(c, raw) && Eligible(c, criteria, withPullback, s) ==> RowFor(c, criteria, withPullback, s) in r
  }

  /**
   * The `top_n` cut kept the best rows: the row of an eligible quote that sorts
   * strictly ahead of the last row kept was kept.
   */
  predicate KeepsBest(c: Collaborators, raw: seq<RawQuote>, criteria: Criteria, withPullback: bool, r: seq<QueryRow>) {
    |r| > 0 ==> forall s ::
      (&& s in ScoreAll(c, raw) && Eligible(c, criteria, withPullback, s)
       && Before(ScreenKey(withPullback, RowFor(c, criteria, withPullback, s)), ScreenKey(withPullback, r[|r| - 1])))
      ==> RowFor(c, criteria, withPullback, s) in r
  }

  /**
   * The order of the mode: in pullback mode full rows first and each group by value
   * score; otherwise by value score alone, highest first.
   */
  predicate ModeOrdered(withPullback: bool, r: seq<QueryRow>) {
    if withPullback then
      && (forall i, j :: 0 <= i < j < |r| && IsFull(r[j]) ==> IsFull(r[i]))
      && (forall i, j :: 0 <= i < j < |r| && IsFull(r[i]) == IsFull(r[j]) ==> r[i].valueScore >= r[j].valueScore)
    else
      forall i, j :: 0 <= i < j < |r| ==> r[i].valueScore >= r[j].valueScore
  }

  /**
   * Everything a mode promises about the rows it returns; `TopCut` adds the exact
   * length of the cut, that no row is repeated beyond its multiplicity, that every
   * copy of a row sorting ahead of the last kept is kept, and that, among rows
   * sorting alike, the earlier fetched ones were kept.
   */
  ghost predicate Outcome(c: Collaborators, raw: seq<RawQuote>, criteria: Criteria, withPullback: bool, topN: int, r: seq<QueryRow>) {
    && TopCut(r, EligibleRows(c, criteria, withPullback, ScoreAll(c, raw)), ModeKey(withPullback), topN)
    && AllEmitted(c, raw, criteria, withPullback, r)
    && Complete(c, raw, criteria, withPullback, topN, r)
    && KeepsBest(c, raw, criteria, withPullback, r)
    && ModeOrdered(withPullback, r)
    && (0 <= topN ==> |r| <= topN)
  }

  /** A candidate that passes the technical filter, tagged, is the pullback-mode row of its quote. */
  lemma TaggedCandidate(c: Collaborators, raw: seq<RawQuote>, criteria: Criteria, x: QueryRow)
    requires IsCandidate(c, raw, criteria, x) && TechPasses(c, Sym(x.quote))
    ensures Emitted(c, raw, criteria, true, Tag(c, x))
  {
    var s :| s in ScoreAll(c, raw) && ReturnOk(c, criteria, s) && x == CandidateRow(c, criteria, s);
    assert Eligible(c, criteria, true, s) && Tag(c, x) == RowFor(c, criteria, true, s);
  }

  /** Every row of the pullback branch is the pullback-mode row of an eligible quote. */
  lemma PullbackEmitted(c: Collaborators, raw: seq<RawQuote>, criteria: Criteria, topN: int)
    ensures var r := PullbackRank(c, Candidates(c, raw, criteria), topN);
      r.Success? ==> AllEmitted(c, raw, criteria, true, r.value)
  {
    var r := PullbackRank(c, Candidates(c, raw, criteria), topN);
    if r.Success? {
      forall i | 0 <= i < |r.value| ensures Emitted(c, raw, criteria, true, r.value[i]) {
        TaggedCandidate(c, raw, criteria, r.value[i].(tech := None));
      }
    }
  }

  /** An eligible quote's pullback-mode row is the tag of its candidate row. */
  lemma PullbackRowFor(c: Collaborators, raw: seq<RawQuote>, criteria: Criteria, s: Scored)
    requires s in ScoreAll(c, raw) && Eligible(c, criteria, true, s)
    ensures CandidateRow(c, criteria, s) in Candidates(c, raw, criteria)
    ensures TechPasses(c, Sym(CandidateRow(c, criteria, s).quote))
    ensures RowFor(c, criteria, true, s) == Tag(c, CandidateRow(c, criteria, s))
  {
  }

  /** The pullback branch misses no eligible quote's row unless the cut removed it. */
  lemma PullbackComplete(c: Collaborators, raw: seq<RawQuote>, criteria: Criteria, topN: int)
    ensures var r := PullbackRank(c, Candidates(c, raw, criteria), topN);
      r.Success? ==> Complete(c, raw, criteria, true, topN, r.value)
  {
    var r := PullbackRank(c, Candidates(c, raw, criteria), topN);
    if r.Success? && 0 <= topN && |r.value| < topN {
      forall s | s in ScoreAll(c, raw) && Eligible(c, criteria, true, s)
        ensures RowFor(c, criteria, true, s) in r.value
      {
        PullbackRowFor(c, raw, criteria, s);
      }
    }
  }

  /** The pullback branch keeps the best eligible rows. */
  lemma PullbackBest(c: Collaborators, raw: seq<RawQuote>, criteria: Criteria, topN: int)
    ensures var r := PullbackRank(c, Candidates(c, raw, criteria), topN);
      r.Success? ==> KeepsBest(c, raw, criteria, true, r.value)
  {
    var rows := Candidates(c, raw, criteria);
    var r := PullbackRank(c, rows, topN);
    if r.Success? && |r.value| > 0 {
      var last := r.value[|r.value| - 1];
      assert PullbackKeepsBest(c, rows, r.value);
      forall s | && s in ScoreAll(c, raw) && Eligible(c, criteria, true, s)
                 && Before(ScreenKey(true, RowFor(c, criteria, true, s)), ScreenKey(true, last))
        ensures RowFor(c, criteria, true, s) in r.value
      {
        var x := CandidateRow(c, criteria, s);
        PullbackRowFor(c, raw, criteria, s);
        assert x in rows && TechPasses(c, Sym(x.quote)) && Before(PullbackKey(Tag(c, x)), PullbackKey(last));
      }
    }
  }

  /** Without an exception from any candidate's history lookup, the pullback branch succeeds. */
  lemma PullbackNoRaise(c: Collaborators, raw: seq<RawQuote>, criteria: Criteria, topN: int)
    requires forall s :: s in ScoreAll(c, raw) && ReturnOk(c, criteria, s) ==> !TechLookup(c, Sym(s.quote)).Raised?
    ensures PullbackRank(c, Candidates(c, raw, criteria), topN).Success?
  {
    var rows := Candidates(c, raw, criteria);
    forall x | x in rows ensures !TechLookup(c, Sym(x.quote)).Raised? {
      var s :| s in ScoreAll(c, raw) && ReturnOk(c, criteria, s) && x == CandidateRow(c, criteria, s);
    }
  }

  /** Every row of the plain branch is the row of an eligible quote. */
  lemma ValueEmitted(c: Collaborators, raw: seq<RawQuote>, criteria: Criteria, topN: int)
    ensures AllEmitted(c, raw, criteria, false, ValueRank(Candidates(c, raw, criteria), topN))
  {
    var r := ValueRank(Candidates(c, raw, criteria), topN);
    forall i | 0 <= i < |r| ensures Emitted(c, raw, criteria, false, r[i]) {
      var s :| s in ScoreAll(c, raw) && ReturnOk(c, criteria, s) && r[i] == CandidateRow(c, criteria, s);
      assert Eligible(c, criteria, false, s);
    }
  }

  /** The plain branch misses no eligible quote's row unless the cut removed it. */
  lemma ValueComplete(c: Collaborators, raw: seq<RawQuote>, criteria: Criteria, topN: int)
    ensures Complete(c, raw, criteria, false, topN, ValueRank(Candidates(c, raw, criteria), topN))
  {
    var r := ValueRank(Candidates(c, raw, criteria), topN);
    if 0 <= topN && |r| < topN {
      forall s | s in ScoreAll(c, raw) && Eligible(c, criteria, false, s)
        ensures RowFor(c, criteria, false, s) in r
      {
        assert CandidateRow(c, criteria, s) in Candidates(c, raw, criteria);
      }
    }
  }

  /** The plain branch keeps the best eligible rows. */
  lemma ValueBest(c: Collaborators, raw: seq<RawQuote>, criteria: Criteria, topN: int)
    ensures KeepsBest(c, raw, criteria, false, ValueRank(Candidates(c, raw, criteria), topN))
  {
    var rows := Candidates(c, raw, criteria);
    var r := ValueRank(rows, topN);
    if |r| > 0 {
      forall s | && s in ScoreAll(c, raw) && Eligible(c, criteria, false, s)
                 && Before(ScreenKey(false, RowFor(c, criteria, false, s)), ScreenKey(false, r[|r| - 1]))
        ensures RowFor(c, criteria, false, s) in r
      {
        var x := CandidateRow(c, criteria, s);
        assert x in rows && RowFor(c, criteria, false, s) == x;
        assert x.valueScore > r[|r| - 1].valueScore;
      }
    }
  }

  /** The pullback branch cuts from the eligible quotes' rows, in fetch order. */
  lemma PullbackCut(c: Collaborators, raw: seq<RawQuote>, criteria: Criteria, topN: int)
    ensures var r := PullbackRank(c, Candidates(c, raw, criteria), topN);
      r.Success? ==> TopCut(r.value, EligibleRows(c, criteria, true, ScoreAll(c, raw)), ModeKey(true), topN)
  {
    TaggedCandidates(c, criteria, ScoreAll(c, raw));
  }

  /** A successful pullback branch keeps every promise of the pullback mode. */
  lemma PullbackOutcome(c: Collaborators, raw: seq<RawQuote>, criteria: Criteria, topN: int)
    ensures var r := PullbackRank(c, Candidates(c, raw, criteria), topN);
      r.Success? ==> Outcome(c, raw, criteria, true, topN, r.value)
  {
    PullbackEmitted(c, raw, criteria, topN);
    PullbackComplete(c, raw, criteria, topN);
    PullbackBest(c, raw, criteria, topN);
    PullbackCut(c, raw, criteria, topN);
  }

  /** The plain branch keeps every promise of the plain mode. */
  lemma ValueOutcome(c: Collaborators, raw: seq<RawQuote>, criteria: Criteria, topN: int)
    ensures Outcome(c, raw, criteria, false, topN, ValueRank(Candidates(c, raw, criteria), topN))
  {
    ValueEmitted(c, raw, criteria, topN);
    ValueComplete(c, raw, criteria, topN);
    ValueBest(c, raw, criteria, topN);
    PlainCandidates(c, criteria, ScoreAll(c, raw));
  }

  /** The pullback mode over the fetched quotes: the technical filter, then full-first ranking. */
  function PullbackMode(c: Collaborators, raw: seq<RawQuote>, criteria: Criteria, topN: int): (r: Result<seq<QueryRow>, ScreenError>)
    ensures r.Success? ==> Outcome(c, raw, criteria, true, topN, r.value)
    ensures (forall s :: s in ScoreAll(c, raw) && ReturnOk(c, criteria, s) ==> !TechLookup(c, Sym(s.quote)).Raised?) ==> r.Success?
    ensures r.Failure? ==> r.error.HistoryRaised?
  {
    PullbackOutcome(c, raw, criteria, topN);
    assert (forall s :: s in ScoreAll(c, raw) && ReturnOk(c, criteria, s) ==> !TechLookup(c, Sym(s.quote)).Raised?) ==>
      PullbackRank(c, Candidates(c, raw, criteria), topN).Success? by {
      if forall s :: s in ScoreAll(c, raw) && ReturnOk(c, criteria, s) ==> !TechLookup(c, Sym(s.quote)).Raised? {
        PullbackNoRaise(c, raw, criteria, topN);
      }
    }
    PullbackRank(c, Candidates(c, raw, criteria), topN)
  }

  /** The plain mode over the fetched quotes: candidates ranked by value score. */
  function ValueMode(c: Collaborators, raw: seq<RawQuote>, criteria: Criteria, topN: int): (r: seq<QueryRow>)
    ensures Outcome(c, raw, criteria, false, topN, r)
  {
    ValueOutcome(c, raw, criteria, topN);
    ValueRank(Candidates(c, raw, criteria), topN)
  }

  /** An empty fetch keeps every promise of either mode with no rows. */
  lemma EmptyOutcome(c: Collaborators, raw: seq<RawQuote>, criteria: Criteria, withPullback: bool, topN: int)
    requires |raw| == 0
    ensures Outcome(c, raw, criteria, withPullback, topN, [])
    ensures RowsFromFetch(c, raw, criteria, withPullback, [])
  {
    assert ScoreAll(c, raw) == [];
    assert EligibleRows(c, criteria, withPullback, ScoreAll(c, raw)) == [];
  }

  /** Per-row facts every emitted row carries. */
  lemma EmittedFacts(c: Collaborators, raw: seq<RawQuote>, criteria: Criteria, withPullback: bool, row: QueryRow)
    requires Emitted(c, raw, criteria, withPullback, row)
    ensures Scored(row.quote, row.valueScore) in ScoreAll(c, raw)
    ensures MinReturnKey in criteria ==>
      && Sym(row.quote) != "" && row.payout.Some?
      && c.applyFilters(row.quote, row.payout, map[MinReturnKey := criteria[MinReturnKey]])
    ensures withPullback ==> row.tech.Some? && row.tech.value.matchType in {Full, Partial}
    ensures !withPullback ==> row.tech.None?
  {
    var s :| s in ScoreAll(c, raw) && Eligible(c, criteria, withPullback, s) && row == RowFor(c, criteria, withPullback, s);
    assert Scored(row.quote, row.valueScore) == s;
  }

  /**
   * What every row of a screen carries: it is a fetched quote's, scored; with the
   * return stage on, it has a symbol and a shareholder-return profile that passes
   * the minimum; in pullback mode it graded full or partial, otherwise it carries
   * no technical fields.
   */
  predicate RowsFromFetch(c: Collaborators, raw: seq<RawQuote>, criteria: Criteria, withPullback: bool, r: seq<QueryRow>) {
    && (forall i :: 0 <= i < |r| ==> Scored(r[i].quote, r[i].valueScore) in ScoreAll(c, raw))
    && (MinReturnKey in criteria ==> forall i :: 0 <= i < |r| ==>
          && Sym(r[i].quote) != "" && r[i].payout.Some?
          && c.applyFilters(r[i].quote, r[i].payout, map[MinReturnKey := criteria[MinReturnKey]]))
    && (withPullback ==> forall i :: 0 <= i < |r| ==> r[i].tech.Some? && r[i].tech.value.matchType in {Full, Partial})
    && (!withPullback ==> forall i :: 0 <= i < |r| ==> r[i].tech.None?)
  }

  /** The per-row facts of every row of a successful screen. */
  lemma ScreenRowFacts(c: Collaborators, raw: seq<RawQuote>, criteria: Criteria, withPullback: bool, topN: int, r: seq<QueryRow>)
    requires Outcome(c, raw, criteria, withPullback, topN, r)
    ensures RowsFromFetch(c, raw, criteria, withPullback, r)
  {
    forall i | 0 <= i < |r| ensures Scored(r[i].quote, r[i].valueScore) in ScoreAll(c, raw) {
      EmittedFacts(c, raw, criteria, withPullback, r[i]);
    }
  }

  /** What the mode's result promises, for a non-empty fetch. */
  lemma ModeFacts(c: Collaborators, raw: seq<RawQuote>, criteria: Criteria, withPullback: bool, topN: int,
                  r: Result<seq<QueryRow>, ScreenError>)
    requires r == if withPullback then PullbackMode(c, raw, criteria, topN) else Success(ValueMode(c, raw, criteria, topN))
    ensures r.Success? ==> Outcome(c, raw, criteria, withPullback, topN, r.value)
    ensures (forall s :: s in ScoreAll(c, raw) && ReturnOk(c, criteria, s) ==> !TechLookup(c, Sym(s.quote)).Raised?) ==> r.Success?
    ensures r.Success? ==> RowsFromFetch(c, raw, criteria, withPullback, r.value)
    ensures r.Failure? ==> withPullback && r.error.HistoryRaised?
  {
    if r.Success? {
      ScreenRowFacts(c, raw, criteria, withPullback, topN, r.value);
    }
  }

  /**
   * The screen once the criteria are known. The rows are the eligible fetched
   * quotes' rows in the mode's order, cut to the best `top_n`; only the pullback
   * mode can fail, and only on a history exception.
   */
  function ScreenWith(c: Collaborators, p: QueryParams, criteria: Criteria): (r: Result<seq<QueryRow>, ScreenError>)
    ensures var raw := c.screenStocks(Request(p, criteria));
      && (|raw| == 0 ==> r == Success([]))
      && (r.Success? ==> Outcome(c, raw, criteria, p.withPullback, p.topN, r.value))
      && ((forall s :: s in ScoreAll(c, raw) && ReturnOk(c, criteria, s) ==> !TechLookup(c, Sym(s.quote)).Raised?) ==> r.Success?)
      && (r.Success? ==> RowsFromFetch(c, raw, criteria, p.withPullback, r.value))
    ensures r.Failure? ==> p.withPullback && r.error.HistoryRaised?
  {
    var raw := c.screenStocks(Request(p, criteria));
    if |raw| == 0 then
      EmptyOutcome(c, raw, criteria, p.withPullback, p.topN);
      Success([])
    else
      var r := if p.withPullback then PullbackMode(c, raw, criteria, p.topN) else Success(ValueMode(c, raw, criteria, p.topN));
      ModeFacts(c, raw, criteria, p.withPullback, p.topN, r);
      r
  }

  /**
   * `QueryScreener.screen`. Every result row comes from a fetched quote; with the
   * pullback filter on, each row graded full or partial, full rows come first and
   * each group is ordered by value score; without it, rows are ordered by value
   * score; at most `top_n` rows are returned.
   */
  function Screen(c: Collaborators, p: QueryParams): (r: Result<seq<QueryRow>, ScreenError>)
    ensures ResolveCriteria(p.criteria, p.preset, c.loadPreset).Failure? ==>
      r == Failure(ResolveCriteria(p.criteria, p.preset, c.loadPreset).error)
    ensures ResolveCriteria(p.criteria, p.preset, c.loadPreset).Success? ==>
      r == ScreenWith(c, p, ResolveCriteria(p.criteria, p.preset, c.loadPreset).value)
    ensures r.Failure? ==> r.error.PresetError? || (p.withPullback && r.error.HistoryRaised?)
  {
    var criteria :- ResolveCriteria(p.criteria, p.preset, c.loadPreset);
    ScreenWith(c, p, criteria)
  }
}
