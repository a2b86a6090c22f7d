/**
 * The auto-context rules: freshness labels for dated graph records, the skill a
 * stock's graph history recommends, the skill vector-search hits suggest, and how
 * a symbol context and vector hits are merged. Elapsed time, the thresholds and
 * the rendered markdown sections are parameters.
 */
module AutoContext {
  import opened Wrappers
  import opened Seqs

  // ----- Freshness -----

  /** Hours within which a record is fresh, when the environment does not say otherwise. */
  const DefaultFreshHours: int := 24

  /** Hours within which a record is recent, when the environment does not say otherwise. */
  const DefaultRecentHours: int := 168

  /** The hours reported for a date that does not parse. */
  const UnparsedHours: real := 999999.0

  /** The days reported for a date that does not parse. */
  const UnparsedDays: int := 9999

  /** The four freshness labels. */
  datatype Freshness = Fresh | Recent | Stale | NoDate {
    function Label(): string {
      match this
      case Fresh => "FRESH"
      case Recent => "RECENT"
      case Stale => "STALE"
      case NoDate => "NONE"
    }

    /** How old a dated record is, coarsely: fresh 0, recent 1, stale 2. */
    function Age(): int {
      match this
      case Fresh => 0
      case Recent => 1
      case Stale => 2
      case NoDate => 3
    }
  }

  /** `_hours_since`: the elapsed hours, or the sentinel when the date did not parse. */
  function HoursSince(elapsed: Option<real>): (h: real)
    ensures elapsed.None? ==> h == UnparsedHours
    ensures elapsed.Some? ==> h == elapsed.value
  {
    elapsed.GetOr(UnparsedHours)
  }

  /** `_days_since`: the elapsed days, or the sentinel when the date did not parse. */
  function DaysSince(elapsed: Option<int>): (d: int)
    ensures elapsed.None? ==> d == UnparsedDays
    ensures elapsed.Some? ==> d == elapsed.value
  {
    elapsed.GetOr(UnparsedDays)
  }

  /**
   * `freshness_label`: a missing or empty date has no label; otherwise the label is
   * decided by the hours elapsed (`elapsed`, `None` when the date does not parse)
   * against the fresh and recent thresholds.
   */
  function FreshnessLabel(date: Option<string>, elapsed: Option<real>, freshHours: int, recentHours: int): (f: Freshness)
    ensures f == NoDate <==> date.None? || date.value == ""
    ensures f == Fresh <==> date.Some? && date.value != "" && HoursSince(elapsed) <= freshHours as real
    ensures f == Recent <==>
      date.Some? && date.value != "" && freshHours as real < HoursSince(elapsed) <= recentHours as real
    ensures f == Stale <==>
      date.Some? && date.value != "" && HoursSince(elapsed) > freshHours as real && HoursSince(elapsed) > recentHours as real
  {
    if date.None? || date.value == "" then NoDate
    else
      var h := HoursSince(elapsed);
      if h <= freshHours as real then Fresh
      else if h <= recentHours as real then Recent
      else Stale
  }

  /** With the thresholds fixed, more elapsed time never gives a fresher label. */
  lemma FreshnessMonotone(date: string, a: real, b: real, freshHours: int, recentHours: int)
    requires date != "" && a <= b
    ensures FreshnessLabel(Some(date), Some(a), freshHours, recentHours).Age() <= FreshnessLabel(Some(date), Some(b), freshHours, recentHours).Age()
  {
  }

  /** A date that does not parse is stale under the default thresholds. */
  lemma UnparsedIsStale(date: string)
    requires date != ""
    ensures FreshnessLabel(Some(date), None, DefaultFreshHours, DefaultRecentHours) == Stale
  {
  }

  /** `freshness_action`: what to do with context of a given label; unknown labels fetch anew. */
  function FreshnessAction(name: string): (action: string)
    ensures action == "コンテキスト利用" <==> name == Fresh.Label()
    ensures action == "差分モード推奨" <==> name == Recent.Label()
    ensures action == "フル再取得推奨" <==> name == Stale.Label()
    ensures action == "新規取得" <==> name !in {Fresh.Label(), Recent.Label(), Stale.Label()}
  {
    if name == "FRESH" then "コンテキスト利用"
    else if name == "RECENT" then "差分モード推奨"
    else if name == "STALE" then "フル再取得推奨"
    else "新規取得"
  }

  // ----- A stock's graph history -----

  /** A trade; `kind` is its `type` key ("buy", "sell", or anything else). */
  datatype Trade = Trade(kind: Option<string>)

  /** A note; `age` is the days since its date, `None` when the date does not parse. */
  datatype Note = Note(kind: Option<string>, age: Option<int>)

  /** A research record; `age` as for notes. */
  datatype Research = Research(age: Option<int>)

  /** The parts of `get_stock_history` the recommendation rules read. */
  datatype History = History(
    screenCount: nat, reportCount: nat, healthCheckCount: nat,
    trades: seq<Trade>, notes: seq<Note>, researches: seq<Research>)

  /** How many times `x` occurs in `s`. */
  function Occurrences<T(==)>(s: seq<T>, x: T): nat {
    if |s| == 0 then 0
    else Occurrences(s[..|s| - 1], x) + (if s[|s| - 1] == x then 1 else 0)
  }

  /** Occurrences add up over concatenation. */
  lemma {:induction false} OccurrencesConcat<T>(a: seq<T>, b: seq<T>, x: T)
    ensures Occurrences(a + b, x) == Occurrences(a, x) + Occurrences(b, x)
    decreases |b|
  {
    if |b| == 0 {
      assert a + b == a;
    } else {
      assert (a + b)[..|a + b| - 1] == a + b[..|b| - 1];
      OccurrencesConcat(a, b[..|b| - 1], x);
    }
  }

  /** Something that occurs is an element, and an element occurs. */
  lemma {:induction false} OccurrencesPositive<T>(s: seq<T>, x: T)
    ensures Occurrences(s, x) > 0 <==> x in s
  {
    if |s| > 0 {
      OccurrencesPositive(s[..|s| - 1], x);
      assert s == s[..|s| - 1] + [s[|s| - 1]];
    }
  }

  function Kinds(trades: seq<Trade>): (r: seq<Option<string>>)
    ensures |r| == |trades|
    ensures forall i :: 0 <= i < |r| ==> r[i] == trades[i].kind
  {
    seq(|trades|, i requires 0 <= i < |trades| => trades[i].kind)
  }

  function Buys(h: History): nat {
    Occurrences(Kinds(h.trades), Some("buy"))
  }

  function Sells(h: History): nat {
    Occurrences(Kinds(h.trades), Some("sell"))
  }

  /** `_has_bought_not_sold`: some buys, and fewer sells than buys. */
  predicate HasBoughtNotSold(h: History) {
    Buys(h) > 0 && Sells(h) < Buys(h)
  }

  /** A buy on a history whose sells do not outnumber its buys leaves the position held. */
  lemma {:induction false} BuyKeepsHeld(h: History)
    requires Sells(h) <= Buys(h)
    ensures HasBoughtNotSold(h.(trades := h.trades + [Trade(Some("buy"))]))
  {
    var h' := h.(trades := h.trades + [Trade(Some("buy"))]);
    assert Kinds(h'.trades) == Kinds(h.trades) + [Some("buy")];
    OccurrencesConcat(Kinds(h.trades), [Some("buy")], Some("buy"));
    OccurrencesConcat(Kinds(h.trades), [Some("buy")], Some("sell"));
    assert Occurrences([Some("buy")], Some("buy")) == 1 by {
      assert [Some("buy")][..0] == [];
    }
    assert Occurrences([Some("buy")], Some("sell")) == 0 by {
      assert [Some("buy")][..0] == [];
    }
  }

  /** `_has_recent_research(history, 7)`: some research at most a week old. */
  predicate HasRecentResearch(h: History) {
    Any(h.researches, (r: Research) => DaysSince(r.age) <= RecentResearchDays)
  }

  /** `_has_exit_alert`: some health check, and a lesson note at most 30 days old. */
  predicate HasExitAlert(h: History) {
    h.healthCheckCount > 0 && Any(h.notes, (n: Note) => n.kind == Some("lesson") && DaysSince(n.age) <= ExitLessonDays)
  }

  /** `_thesis_needs_review(history, 90)`: some thesis note at least 90 days old. */
  predicate ThesisNeedsReview(h: History) {
    Any(h.notes, (n: Note) => n.kind == Some("thesis") && DaysSince(n.age) >= ThesisReviewDays)
  }

  /** A thesis note whose date does not parse reads as 9999 days old, so it is due for review. */
  lemma UndatedThesisDue(h: History, i: int)
    requires 0 <= i < |h.notes| && h.notes[i] == Note(Some("thesis"), None)
    ensures ThesisNeedsReview(h)
  {
  }

  /** `_has_concern_notes`. */
  predicate HasConcernNotes(h: History) {
    Any(h.notes, (n: Note) => n.kind == Some("concern"))
  }

  /** `history.get("screens") or history.get("reports") or history.get("trades")`. */
  predicate HasPastData(h: History) {
    h.screenCount > 0 || h.reportCount > 0 || |h.trades| > 0
  }

  /** The thesis age, in days, after which a held stock's thesis is due for review. */
  const ThesisReviewDays: int := 90

  /** Research at most this many days old counts as recent. */
  const RecentResearchDays: int := 7

  /** A lesson note at most this many days old stands in for an exit alert. */
  const ExitLessonDays: int := 30

  /** Screen appearances from which a stock is noticed. */
  const NoticedScreens: int := 3

  // ----- Skill recommendation -----

  /** A recommended skill with its reason and the stock's relationship to the user. */
  datatype Recommendation = Recommendation(skill: string, reason: string, relationship: string)

  const HeldNeedsReview: Recommendation := Recommendation("health", "テーゼ3ヶ月経過 → レビュー促し", "保有(要レビュー)")
  const Held: Recommendation := Recommendation("health", "保有銘柄 → ヘルスチェック優先", "保有")
  const ExitAlternative: Recommendation := Recommendation("screen_alternative", "EXIT判定 → 代替候補検索", "EXIT判定")
  const Watched: Recommendation := Recommendation("report", "ウォッチ中 → レポート + 前回差分", "ウォッチ中")
  const Noticed: Recommendation := Recommendation("report", "3回以上スクリーニング出現 → 注目銘柄", "注目")
  const Researched: Recommendation := Recommendation("report_diff", "直近リサーチあり → 差分モード", "リサーチ済")
  const Concerned: Recommendation := Recommendation("report", "懸念メモあり → 再検証", "懸念あり")
  const Known: Recommendation := Recommendation("report", "過去データあり → レポート", "既知")
  const Unknown: Recommendation := Recommendation("report", "未知の銘柄 → ゼロから調査", "未知")

  /**
   * `_recommend_skill`: a held stock (held per the graph, or bought and not sold)
   * always gets a health check; otherwise the first rule that applies wins, in the
   * order exit alert, bookmarked, noticed, recent research, concern, past data.
   */
  function RecommendSkill(h: History, bookmarked: bool, held: bool): (r: Recommendation)
    ensures r.skill == "health" <==> held || HasBoughtNotSold(h)
    ensures var own := held || HasBoughtNotSold(h);
      && (r == HeldNeedsReview <==> own && ThesisNeedsReview(h))
      && (r == Held <==> own && !ThesisNeedsReview(h))
      && (r == ExitAlternative <==> !own && HasExitAlert(h))
      && (r == Watched <==> !own && !HasExitAlert(h) && bookmarked)
      && (r == Noticed <==> !own && !HasExitAlert(h) && !bookmarked && h.screenCount >= NoticedScreens)
      && (r == Researched <==>
            !own && !HasExitAlert(h) && !bookmarked && h.screenCount < NoticedScreens && HasRecentResearch(h))
      && (r == Concerned <==>
            !own && !HasExitAlert(h) && !bookmarked && h.screenCount < NoticedScreens && !HasRecentResearch(h)
            && HasConcernNotes(h))
      && (r == Known <==>
            !own && !HasExitAlert(h) && !bookmarked && h.screenCount < NoticedScreens && !HasRecentResearch(h)
            && !HasConcernNotes(h) && HasPastData(h))
      && (r == Unknown <==>
            !own && !HasExitAlert(h) && !bookmarked && h.screenCount < NoticedScreens && !HasRecentResearch(h)
            && !HasConcernNotes(h) && !HasPastData(h))
  {
    if held || HasBoughtNotSold(h) then
      if ThesisNeedsReview(h) then HeldNeedsReview else Held
    else if HasExitAlert(h) then ExitAlternative
    else if bookmarked then Watched
    else if h.screenCount >= NoticedScreens then Noticed
    else if HasRecentResearch(h) then Researched
    else if HasConcernNotes(h) then Concerned
    else if HasPastData(h) then Known
    else Unknown
  }

  /** Holding a stock overrides every other signal: the same history always gets a health check. */
  lemma HoldingOverrides(h: History, bookmarked: bool)
    ensures RecommendSkill(h, bookmarked, true).skill == "health"
    ensures RecommendSkill(h, bookmarked, true) == RecommendSkill(h, !bookmarked, true)
  {
  }

  // ----- Skill from vector-search hits -----

  /** The first position of `x` in `s`. */
  function FirstIndex<T(==)>(s: seq<T>, x: T): (i: nat)
    requires x in s
    ensures i < |s| && s[i] == x && x !in s[..i]
  {
    if s[0] == x then 0
    else
      var j := FirstIndex(s[1..], x);
      assert s[..j + 1] == [s[0]] + s[1..][..j];
      j + 1
  }

  /** The first position is the one holding `x` with no `x` before it. */
  lemma {:induction false} FirstIndexAt<T>(s: seq<T>, x: T, i: nat)
    requires i < |s| && s[i] == x && x !in s[..i]
    ensures FirstIndex(s, x) == i
  {
    if i > 0 {
      assert s[..i][0] == s[0];
      assert s[1..][..i - 1] == s[1..i];
      assert forall m :: 0 <= m < i - 1 ==> s[1..i][m] == s[..i][m + 1];
      FirstIndexAt(s[1..], x, i - 1);
    }
  }

  /** Appending keeps the first position of anything already present. */
  lemma FirstIndexAppend<T>(p: seq<T>, x: T, y: T)
    requires y in p
    ensures y in p + [x] && FirstIndex(p + [x], y) == FirstIndex(p, y)
  {
    var s := p + [x];
    var i := FirstIndex(p, y);
    assert s[..i] == p[..i];
    FirstIndexAt(s, y, i);
  }

  /**
   * A count dictionary as Python keeps it: (key, count) entries in the order keys
   * were first inserted. `Bump` is `d[x] = d.get(x, 0) + 1`.
   */
  function Bump<T(==)>(t: seq<(T, nat)>, x: T): seq<(T, nat)> {
    if |t| == 0 then [(x, 1)]
    else if t[0].0 == x then [(x, t[0].1 + 1)] + t[1..]
    else [t[0]] + Bump(t[1..], x)
  }

  lemma {:induction false} BumpFound<T>(t: seq<(T, nat)>, x: T, j: nat)
    requires j < |t| && t[j].0 == x
    requires forall k :: 0 <= k < j ==> t[k].0 != x
    ensures Bump(t, x) == t[j := (x, t[j].1 + 1)]
  {
    if j > 0 {
      BumpFound(t[1..], x, j - 1);
    }
  }

  lemma {:induction false} BumpMissing<T>(t: seq<(T, nat)>, x: T)
    requires forall k :: 0 <= k < |t| ==> t[k].0 != x
    ensures Bump(t, x) == t + [(x, 1)]
  {
    if |t| > 0 {
      BumpMissing(t[1..], x);
    }
  }

  /** The loop `for x in s: d[x] = d.get(x, 0) + 1` from an empty dictionary. */
  function Tally<T(==)>(s: seq<T>): seq<(T, nat)> {
    if |s| == 0 then [] else Bump(Tally(s[..|s| - 1]), s[|s| - 1])
  }

  /** Every entry of `t` is an element of `s` with its true count. */
  predicate CountsExact<T(==)>(t: seq<(T, nat)>, s: seq<T>) {
    forall j :: 0 <= j < |t| ==> t[j].0 in s && t[j].1 == Occurrences(s, t[j].0)
  }

  /** Every element of `s` has an entry in `t`. */
  predicate CountsCover<T(==)>(t: seq<(T, nat)>, s: seq<T>) {
    forall x :: x in s ==> exists j :: 0 <= j < |t| && t[j].0 == x
  }

  /** The entries of `t` follow the order in which their keys first appear in `s`. */
  predicate CountsOrdered<T(==)>(t: seq<(T, nat)>, s: seq<T>) {
    forall j, k :: 0 <= j < k < |t| ==>
      t[j].0 in s && t[k].0 in s && FirstIndex(s, t[j].0) < FirstIndex(s, t[k].0)
  }

  /** `t` counts `s`: one entry per element, its true count, keys in first-occurrence order. */
  predicate Counts<T(==)>(t: seq<(T, nat)>, s: seq<T>) {
    CountsExact(t, s) && CountsCover(t, s) && CountsOrdered(t, s)
  }

  /** How appending `x` changes counts and first positions. */
  lemma AppendFacts<T>(p: seq<T>, x: T)
    ensures forall y :: Occurrences(p + [x], y) == Occurrences(p, y) + (if x == y then 1 else 0)
    ensures forall y :: y in p ==> y in p + [x] && FirstIndex(p + [x], y) == FirstIndex(p, y)
  {
    var s := p + [x];
    assert s[..|s| - 1] == p;
    forall y | y in p ensures y in s && FirstIndex(s, y) == FirstIndex(p, y) {
      FirstIndexAppend(p, x, y);
    }
  }

  /** In a count dictionary an element's entry is the only one with its key. */
  lemma EntryUnique<T>(t: seq<(T, nat)>, p: seq<T>, j: nat, k: nat)
    requires Counts(t, p) && j < |t| && k < |t| && k != j
    ensures t[k].0 != t[j].0
  {
    if k < j {
      assert FirstIndex(p, t[k].0) < FirstIndex(p, t[j].0);
    } else {
      assert FirstIndex(p, t[j].0) < FirstIndex(p, t[k].0);
    }
  }

  /** Raising one entry's count keeps every key where it was. */
  lemma RaisedKeepsOrder<T>(t: seq<(T, nat)>, p: seq<T>, x: T, j: nat)
    requires Counts(t, p) && j < |t| && t[j].0 == x
    ensures CountsCover(t[j := (x, t[j].1 + 1)], p + [x])
    ensures CountsOrdered(t[j := (x, t[j].1 + 1)], p + [x])
  {
    var s := p + [x];
    var t' := t[j := (x, t[j].1 + 1)];
    assert forall i :: 0 <= i < |t'| ==> t'[i].0 == t[i].0;
    forall y | y in p ensures y in s && FirstIndex(s, y) == FirstIndex(p, y) {
      FirstIndexAppend(p, x, y);
    }
    forall y | y in s ensures exists i :: 0 <= i < |t'| && t'[i].0 == y {
      assert y in p;
      var i :| 0 <= i < |t| && t[i].0 == y;
      assert t'[i].0 == y;
    }
    forall i, k | 0 <= i < k < |t'|
      ensures t'[i].0 in s && t'[k].0 in s && FirstIndex(s, t'[i].0) < FirstIndex(s, t'[k].0)
    {
      assert FirstIndex(p, t[i].0) < FirstIndex(p, t[k].0);
    }
  }

  /** Raising the entry of `x` makes every count right for `p + [x]`. */
  lemma RaisedExact<T>(t: seq<(T, nat)>, p: seq<T>, x: T, j: nat)
    requires CountsExact(t, p) && j < |t| && t[j].0 == x
    requires forall k :: 0 <= k < |t| && k != j ==> t[k].0 != x
    ensures CountsExact(t[j := (x, t[j].1 + 1)], p + [x])
  {
    var s := p + [x];
    var t' := t[j := (x, t[j].1 + 1)];
    assert s[..|s| - 1] == p;
    forall i | 0 <= i < |t'| ensures t'[i].0 in s && t'[i].1 == Occurrences(s, t'[i].0) {
      assert t[i].0 in p;
      assert Occurrences(s, t'[i].0) == Occurrences(p, t'[i].0) + (if x == t'[i].0 then 1 else 0);
    }
  }

  /** Counting an element already counted raises its entry and moves nothing. */
  lemma TallyStepFound<T>(t: seq<(T, nat)>, p: seq<T>, x: T)
    requires Counts(t, p) && x in p
    ensures Counts(Bump(t, x), p + [x])
  {
    var j :| 0 <= j < |t| && t[j].0 == x;
    forall k | 0 <= k < |t| && k != j ensures t[k].0 != x {
      EntryUnique(t, p, j, k);
    }
    BumpFound(t, x, j);
    RaisedExact(t, p, x, j);
    RaisedKeepsOrder(t, p, x, j);
  }

  /** Counting a new element appends its entry with count one. */
  lemma TallyStepMissing<T>(t: seq<(T, nat)>, p: seq<T>, x: T)
    requires Counts(t, p) && x !in p
    ensures Counts(Bump(t, x), p + [x])
  {
    var s := p + [x];
    AppendFacts(p, x);
    OccurrencesPositive(p, x);
    BumpMissing(t, x);
    var t' := t + [(x, 1)];
    assert FirstIndex(s, x) == |p| by {
      var i := FirstIndex(s, x);
      assert s[|p|] == x;
    }
    assert CountsExact(t', s) by {
      forall i | 0 <= i < |t'| ensures t'[i].0 in s && t'[i].1 == Occurrences(s, t'[i].0) {
        if i < |t| {
          assert t'[i] == t[i];
        }
      }
    }
    assert CountsCover(t', s) by {
      forall y | y in s ensures exists i :: 0 <= i < |t'| && t'[i].0 == y {
        if y == x {
          assert t'[|t|].0 == y;
        } else {
          var i :| 0 <= i < |t| && t[i].0 == y;
          assert t'[i].0 == y;
        }
      }
    }
    assert CountsOrdered(t', s) by {
      forall j, k | 0 <= j < k < |t'|
        ensures t'[j].0 in s && t'[k].0 in s && FirstIndex(s, t'[j].0) < FirstIndex(s, t'[k].0)
      {
        assert t'[j] == t[j];
        if k < |t| {
          assert t'[k] == t[k];
          assert FirstIndex(p, t[j].0) < FirstIndex(p, t[k].0);
        } else {
          assert FirstIndex(s, t'[j].0) == FirstIndex(p, t[j].0) < |p|;
        }
      }
    }
  }

  lemma {:induction false} TallyCounts<T>(s: seq<T>)
    ensures Counts(Tally(s), s)
  {
    if |s| > 0 {
      var p := s[..|s| - 1];
      TallyCounts(p);
      assert p + [s[|s| - 1]] == s;
      if s[|s| - 1] in p {
        TallyStepFound(Tally(p), p, s[|s| - 1]);
      } else {
        TallyStepMissing(Tally(p), p, s[|s| - 1]);
      }
    }
  }

  /** `max(d, key=d.get)`: the first entry whose count is largest. */
  function ArgMax<T>(t: seq<(T, nat)>): (j: nat)
    requires |t| > 0
    ensures j < |t|
    ensures forall k :: 0 <= k < |t| ==> t[k].1 <= t[j].1
    ensures forall k :: 0 <= k < j ==> t[k].1 < t[j].1
  {
    if |t| == 1 then 0
    else
      var j := ArgMax(t[..|t| - 1]);
      assert forall k :: 0 <= k < |t| - 1 ==> t[..|t| - 1][k] == t[k];
      if t[|t| - 1].1 > t[j].1 then |t| - 1 else j
  }

  /** `top` is a most frequent element of `w`, the earliest to appear among equally frequent ones. */
  predicate IsTopLabel<T(==)>(w: seq<T>, top: T) {
    && top in w
    && (forall x :: x in w ==> Occurrences(w, x) <= Occurrences(w, top))
    && (forall x :: x in w && Occurrences(w, x) == Occurrences(w, top) ==> FirstIndex(w, top) <= FirstIndex(w, x))
  }

  /** The top label is unique. */
  lemma TopLabelUnique<T>(w: seq<T>, a: T, b: T)
    requires IsTopLabel(w, a) && IsTopLabel(w, b)
    ensures a == b
  {
    assert FirstIndex(w, a) == FirstIndex(w, b);
  }

  /** The key `max` picks from the count dictionary of `w`. */
  function TopLabel<T(==)>(w: seq<T>): (top: T)
    requires |w| > 0
    ensures IsTopLabel(w, top)
  {
    var t := Tally(w);
    TallyCounts(w);
    assert w[0] in w;
    var j := ArgMax(t);
    var top := t[j].0;
    assert forall x :: x in w ==> Occurrences(w, x) <= Occurrences(w, top) by {
      forall x | x in w ensures Occurrences(w, x) <= Occurrences(w, top) {
        var k :| 0 <= k < |t| && t[k].0 == x;
      }
    }
    assert forall x :: x in w && Occurrences(w, x) == Occurrences(w, top) ==> FirstIndex(w, top) <= FirstIndex(w, x) by {
      forall x | x in w && Occurrences(w, x) == Occurrences(w, top) ensures FirstIndex(w, top) <= FirstIndex(w, x) {
        var k :| 0 <= k < |t| && t[k].0 == x;
        if k > j {
          assert FirstIndex(w, t[j].0) < FirstIndex(w, t[k].0);
        }
      }
    }
    top
  }

  /** A vector-search hit; `node` is the label of the graph node it matched. */
  datatype VectorHit = VectorHit(node: string, summary: Option<string>, score: real, date: Option<string>)

  /** How many hits the skill inference looks at. */
  const InferWindow: int := 5

  /** The node labels of the first five hits. */
  function Window(hits: seq<VectorHit>): (w: seq<string>)
    ensures |w| == (if |hits| < InferWindow then |hits| else InferWindow)
    ensures forall i :: 0 <= i < |w| ==> w[i] == hits[i].node
  {
    var n := if |hits| < InferWindow then |hits| else InferWindow;
    seq(n, i requires 0 <= i < n => hits[i].node)
  }

  /** The skill a node label points to; unmapped labels point to `report`. */
  function SkillForNode(node: string): string {
    match node
    case "Screen" => "screen-stocks"
    case "Report" => "report"
    case "Trade" => "health"
    case "Research" => "market-research"
    case "HealthCheck" => "health"
    case "MarketContext" => "market-research"
    case "Note" => "report"
    case _ => "report"
  }

  /** `_infer_skill_from_vectors`: the skill of the most frequent label among the first five hits. */
  function InferSkill(hits: seq<VectorHit>): (skill: string)
    ensures |hits| == 0 ==> skill == "report"
    ensures |hits| > 0 ==> exists top :: IsTopLabel(Window(hits), top) && skill == SkillForNode(top)
    ensures skill in {"screen-stocks", "report", "health", "market-research"}
  {
    if |hits| == 0 then "report"
    else
      var top := TopLabel(Window(hits));
      SkillForNode(top)
  }

  // ----- Merging -----

  /** The context handed to the prompt. */
  datatype Context = Context(symbol: string, markdown: string, skill: string, reason: string, relationship: string)

  /**
   * `_merge_context`: with no hits the symbol context stands as it is; with hits and
   * no symbol context a vector-only context is built; with both, the rendered hits
   * are appended to the symbol context's markdown and nothing else changes.
   */
  function MergeContext(ctx: Option<Context>, hits: seq<VectorHit>, render: seq<VectorHit> -> string): (r: Option<Context>)
    ensures r.None? <==> ctx.None? && |hits| == 0
    ensures |hits| == 0 ==> r == ctx
    ensures ctx.None? && |hits| > 0 ==>
      r == Some(Context("", render(hits), InferSkill(hits), "ベクトル類似検索", "関連"))
    ensures ctx.Some? && |hits| > 0 ==>
      && r.Some?
      && r.value.(markdown := ctx.value.markdown) == ctx.value
      && r.value.markdown == ctx.value.markdown + "\n\n" + render(hits)
  {
    if ctx.None? && |hits| == 0 then None
    else if |hits| == 0 then ctx
    else if ctx.None? then Some(Context("", render(hits), InferSkill(hits), "ベクトル類似検索", "関連"))
    else Some(ctx.value.(markdown := ctx.value.markdown + "\n\n" + render(hits)))
  }
}
