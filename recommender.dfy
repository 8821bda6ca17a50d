/** The whole submission: profiles, candidates, top three, the selected
    place, the itinerary, the cost and the rows offered for download. */
module Recommender {
  import opened Text
  import opened Profiles
  import opened CandidateFilter
  import opened Ranking
  import opened Itinerary

  /** The form's answers. Travel style and climate are kept as text so that
      the default branches of the lookups stay visible. */
  datatype Preferences = Preferences(
    name: string,
    age: int,
    gender: string,
    budget: int,
    duration: nat,
    groupSize: nat,
    interests: seq<string>,
    style: string,
    climate: string)

  /** The bounds the form puts on its numeric answers. */
  predicate WithinForm(p: Preferences)
  {
    10 <= p.age <= 100 && p.budget >= 1000 &&
    1 <= p.duration <= 15 && 1 <= p.groupSize <= 10
  }

  /** A row of the top-destinations table: `DestinationID`, `Name_x` when
      the table has it, `State`, `Type`. */
  datatype TopRow = TopRow(id: string, name: Option<string>, state: string, kind: string)

  datatype Option<T> = None | Some(value: T)

  /** A row of the download table: a top row echoed with the user's answers. */
  datatype ExportRow = ExportRow(
    top: TopRow,
    userName: string,
    interests: string,
    travelStyle: string,
    durationDays: nat,
    estimatedCost: int)

  datatype Plan = Plan(place: string, days: seq<string>, cost: int, download: seq<ExportRow>)

  datatype Bundle = Bundle(noMatch: bool, top: seq<TopRow>, plan: Option<Plan>)

  function Project(d: Destination, hasNameColumn: bool): TopRow
  {
    TopRow(d.id, if hasNameColumn then Some(d.name) else None, d.state, d.kind)
  }

  /** `filtered_df.iloc[top_indices][columns]`: the chosen candidates in the
      order of the index list, with the `Name_x` column only when present. */
  function TopDestinations(cands: seq<ProfiledRow>, hasNameColumn: bool, top: seq<nat>): (rows: seq<TopRow>)
    requires InRange(top, |cands|)
    ensures |rows| == |top|
    ensures forall k :: 0 <= k < |rows| ==>
      rows[k].id == cands[top[k]].dest.id && rows[k].state == cands[top[k]].dest.state &&
      rows[k].kind == cands[top[k]].dest.kind &&
      (rows[k].name.Some? <==> hasNameColumn) &&
      (hasNameColumn ==> rows[k].name.value == cands[top[k]].dest.name)
  {
    seq(|top|, k requires 0 <= k < |top| => Project(cands[top[k]].dest, hasNameColumn))
  }

  /** The place named in the itinerary heading: the first top row's `Name_x`
      when that column exists, otherwise its first column, the identifier;
      nothing when the top table is empty. */
  function SelectedPlace(rows: seq<TopRow>): (place: Option<string>)
    ensures place.Some? <==> |rows| > 0
    ensures |rows| > 0 && rows[0].name.Some? ==> place.value == rows[0].name.value
    ensures |rows| > 0 && rows[0].name.None? ==> place.value == rows[0].id
  {
    if rows == [] then None
    else if rows[0].name.Some? then rows[0].name
    else Some(rows[0].id)
  }

  /** The download table: every top row, in order, with the user's name,
      interests joined by ", ", style, duration and cost. */
  function Enrich(rows: seq<TopRow>, p: Preferences, cost: int): (out: seq<ExportRow>)
    ensures |out| == |rows|
    ensures forall k :: 0 <= k < |out| ==>
      out[k].top == rows[k] && out[k].userName == p.name &&
      out[k].interests == Join(", ", p.interests) && out[k].travelStyle == p.style &&
      out[k].durationDays == p.duration && out[k].estimatedCost == cost
  {
    seq(|rows|, k requires 0 <= k < |rows| =>
      ExportRow(rows[k], p.name, Join(", ", p.interests), p.style, p.duration, cost))
  }

  /** Steps 1 and 2: the profiled table and its candidates. */
  function CandidatesFor(catalog: Catalog, p: Preferences): Candidates
  {
    var profiled := AddProfiles(catalog.rows, UserProfile(p.interests, p.style, p.climate));
    SelectCandidates(profiled, p.climate, p.budget)
  }

  /** One submission. `scores` stands for the similarity of each candidate
      to the user profile; `picks` stands for the random activity choices. */
  function Recommend(catalog: Catalog, p: Preferences, scores: seq<int>, picks: seq<nat>): (b: Bundle)
    requires |scores| == |CandidatesFor(catalog, p).rows|
    requires ValidPicks(p.style, p.duration, picks)
    ensures b.noMatch == CandidatesFor(catalog, p).noMatch
    ensures |b.top| == Min(3, |CandidatesFor(catalog, p).rows|)
    ensures b.plan.Some? <==> |catalog.rows| > 0
    ensures b.plan.Some? ==>
      |b.plan.value.days| == p.duration &&
      (forall d :: 0 <= d < p.duration ==> b.plan.value.days[d] in ActivitiesFor(p.style)) &&
      b.plan.value.cost == EstimateCost(p.duration, p.style, p.groupSize) &&
      Some(b.plan.value.place) == SelectedPlace(b.top) &&
      |b.plan.value.download| == |b.top|
    ensures InRange(TopThree(scores), |scores|) &&
      b.top == TopDestinations(CandidatesFor(catalog, p).rows, catalog.hasNameColumn, TopThree(scores))
    ensures b.plan.Some? ==> b.plan.value.days == PlanDays(p.style, p.duration, picks)
    ensures b.plan.Some? ==> b.plan.value.download == Enrich(b.top, p, b.plan.value.cost)
    ensures b.plan.Some? && WithinForm(p) ==> 1800 <= b.plan.value.cost <= 450000
  {
    var cands := CandidatesFor(catalog, p);
    var top := TopDestinations(cands.rows, catalog.hasNameColumn, TopThree(scores));
    var place := SelectedPlace(top);
    if place.None? then Bundle(cands.noMatch, top, None)
    else
      var cost := EstimateCost(p.duration, p.style, p.groupSize);
      var days := PlanDays(p.style, p.duration, picks);
      Bundle(cands.noMatch, top, Some(Plan(place.value, days, cost, Enrich(top, p, cost))))
  }

  /** The top row was taken from a table row that passes the filter. */
  predicate FromMatchingRow(catalog: Catalog, row: TopRow, climate: string, budget: int)
  {
    exists i :: 0 <= i < |catalog.rows| && Matches(catalog.rows[i], climate, budget) &&
      row == Project(catalog.rows[i], catalog.hasNameColumn)
  }

  /** Unless the fallback fired, every recommended row is a table row that
      passes the climate and budget filter; when it fired, no row passes. */
  lemma {:induction false} RecommendedRowsMatch(catalog: Catalog, p: Preferences, scores: seq<int>, picks: seq<nat>)
    requires |scores| == |CandidatesFor(catalog, p).rows|
    requires ValidPicks(p.style, p.duration, picks)
    ensures var b := Recommend(catalog, p, scores, picks);
      (b.noMatch <==> forall i :: 0 <= i < |catalog.rows| ==> !Matches(catalog.rows[i], p.climate, p.budget)) &&
      (!b.noMatch ==> forall k :: 0 <= k < |b.top| ==> FromMatchingRow(catalog, b.top[k], p.climate, p.budget))
  {
    var b := Recommend(catalog, p, scores, picks);
    var profiled := AddProfiles(catalog.rows, UserProfile(p.interests, p.style, p.climate));
    var cands := CandidatesFor(catalog, p);
    assert forall i :: 0 <= i < |catalog.rows| ==> profiled[i].dest == catalog.rows[i];
    var top := TopThree(scores);
    if !b.noMatch {
      forall k | 0 <= k < |b.top|
        ensures FromMatchingRow(catalog, b.top[k], p.climate, p.budget)
      {
        var x := cands.rows[top[k]];
        assert x in Filter(profiled, p.climate, p.budget);
        var j :| 0 <= j < |profiled| && profiled[j] == x;
        assert b.top[k] == Project(catalog.rows[j], catalog.hasNameColumn);
      }
    }
  }

  /** A scenario: a warm-climate Explorer with a 5000 budget, three
      days and two people, against a table with at least one matching row.
      No fallback; every recommended row is a matching table row; every day
      is one of the Explorer activities; the cost is 3 * 2000 * 2. */
  lemma {:induction false} WarmExplorerScenario(catalog: Catalog, p: Preferences, scores: seq<int>, picks: seq<nat>)
    requires p.climate == "Warm" && p.budget == 5000 && p.style == "Explorer"
    requires p.duration == 3 && p.groupSize == 2 && p.interests == ["Food", "Nature"]
    requires exists i :: 0 <= i < |catalog.rows| && Matches(catalog.rows[i], "Warm", 5000)
    requires |scores| == |CandidatesFor(catalog, p).rows|
    requires ValidPicks(p.style, p.duration, picks)
    ensures var b := Recommend(catalog, p, scores, picks);
      !b.noMatch && 1 <= |b.top| <= 3 && b.plan.Some? &&
      (forall k :: 0 <= k < |b.top| ==> FromMatchingRow(catalog, b.top[k], "Warm", 5000)) &&
      (forall d :: 0 <= d < 3 ==> b.plan.value.days[d] in ["Trekking", "Nature Walk", "Local Adventure"]) &&
      b.plan.value.cost == 12000
  {
    RecommendedRowsMatch(catalog, p, scores, picks);
    assert ActivitiesFor(p.style) == ["Trekking", "Nature Walk", "Local Adventure"];
  }

  /** A scenario with no matching row: the fallback fires, the
      ranker still draws from the whole table and a plan is still made. */
  lemma {:induction false} NoMatchScenario(catalog: Catalog, p: Preferences, scores: seq<int>, picks: seq<nat>)
    requires |catalog.rows| > 0
    requires forall i :: 0 <= i < |catalog.rows| ==> !Matches(catalog.rows[i], p.climate, p.budget)
    requires |scores| == |CandidatesFor(catalog, p).rows|
    requires ValidPicks(p.style, p.duration, picks)
    ensures var b := Recommend(catalog, p, scores, picks);
      b.noMatch && |b.top| == Min(3, |catalog.rows|) && b.plan.Some?
  {
    RecommendedRowsMatch(catalog, p, scores, picks);
  }
}
