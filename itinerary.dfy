/** Step 4: the day-by-day activities and the cost estimate. */
module Itinerary {

  /** The activities offered for each known travel style. */
  const ActivityMap: map<string, seq<string>> := map[
    "Explorer" := ["Trekking", "Nature Walk", "Local Adventure"],
    "Relaxed" := ["Beach Walk", "Spa Session", "Leisure Shopping"],
    "Urban" := ["City Tour", "Café Hopping", "Nightlife"],
    "Cultural" := ["Temple Visit", "Museum Tour", "Folk Performance"]]

  /** The daily cost per person for each known travel style. */
  const CostMap: map<string, int> := map[
    "Explorer" := 2000,
    "Relaxed" := 2500,
    "Urban" := 3000,
    "Cultural" := 1800]

  const DefaultActivity: string := "Local Exploration"
  const DefaultCost: int := 2000

  predicate KnownStyle(style: string)
  {
    style in {"Explorer", "Relaxed", "Urban", "Cultural"}
  }

  /** `activity_map.get(style, ["Local Exploration"])`. */
  function ActivitiesFor(style: string): (acts: seq<string>)
    ensures |acts| > 0
    ensures KnownStyle(style) ==> |acts| == 3
    ensures !KnownStyle(style) ==> acts == [DefaultActivity]
  {
    if style in ActivityMap then ActivityMap[style] else [DefaultActivity]
  }

  /** The oracle standing for `random.choice`: one index per day, each
      within the style's activity list. */
  predicate ValidPicks(style: string, duration: nat, picks: seq<nat>)
  {
    |picks| == duration && forall d :: 0 <= d < |picks| ==> picks[d] < |ActivitiesFor(style)|
  }

  /** `[random.choice(activity_list) for _ in range(duration)]`, with the
      choices supplied by the oracle. */
  function PlanDays(style: string, duration: nat, picks: seq<nat>): (days: seq<string>)
    requires ValidPicks(style, duration, picks)
    ensures |days| == duration
    ensures forall d :: 0 <= d < |days| ==> days[d] in ActivitiesFor(style)
    ensures !KnownStyle(style) ==> forall d :: 0 <= d < |days| ==> days[d] == DefaultActivity
  {
    var acts := ActivitiesFor(style);
    seq(duration, d requires 0 <= d < duration => acts[picks[d]])
  }

  function IndexOf(s: seq<string>, x: string): (k: nat)
    requires x in s
    ensures k < |s| && s[k] == x
  {
    if s[0] == x then 0 else 1 + IndexOf(s[1..], x)
  }

  /** Every sequence of activities drawn from the style's list, repeats
      included, is the itinerary of some choice of the oracle. */
  lemma {:induction false} EveryPlanReachable(style: string, days: seq<string>)
    requires forall d :: 0 <= d < |days| ==> days[d] in ActivitiesFor(style)
    ensures exists picks :: ValidPicks(style, |days|, picks) && PlanDays(style, |days|, picks) == days
  {
    var acts := ActivitiesFor(style);
    var picks := seq(|days|, d requires 0 <= d < |days| => IndexOf(acts, days[d]));
    assert ValidPicks(style, |days|, picks);
    assert PlanDays(style, |days|, picks) == days;
  }

  /** `cost_map.get(style, 2000)`. */
  function BaseCost(style: string): (base: int)
    ensures 1800 <= base <= 3000
    ensures !KnownStyle(style) ==> base == DefaultCost
  {
    if style in CostMap then CostMap[style] else DefaultCost
  }

  /** `duration * cost_map.get(style, 2000) * group_size`, exact. The
      estimate is the style's daily rate for each person and each day, and
      within the form's bounds (1 to 15 days, 1 to 10 people) it lies
      between 1800 and 450000. */
  function EstimateCost(duration: int, style: string, groupSize: int): (cost: int)
    ensures duration > 0 && groupSize > 0 ==>
      cost % (duration * groupSize) == 0 && cost / (duration * groupSize) == BaseCost(style)
    ensures 1 <= duration <= 15 && 1 <= groupSize <= 10 ==> 1800 <= cost <= 450000
  {
    var base := BaseCost(style);
    var cost := duration * base * groupSize;
    assert duration > 0 && groupSize > 0 ==>
      cost % (duration * groupSize) == 0 && cost / (duration * groupSize) == base by {
      if duration > 0 && groupSize > 0 {
        assert cost == base * (duration * groupSize);
        ExactQuotient(base, duration * groupSize);
      }
    }
    assert 1 <= duration <= 15 && 1 <= groupSize <= 10 ==> 1800 <= cost <= 450000 by {
      if 1 <= duration <= 15 && 1 <= groupSize <= 10 {
        MulMono(1, duration, 1800, base);
        MulMono(duration, 15, base, 3000);
        MulMono(1, groupSize, 1800, duration * base);
        MulMono(groupSize, 10, duration * base, 45000);
      }
    }
    cost
  }

  lemma MulMono(a: int, b: int, c: int, d: int)
    requires 0 <= a <= b && 0 <= c <= d
    ensures a * c <= b * d
  {
    assert a * c <= a * d;
    assert a * d <= b * d;
  }

  /** A longer trip or a larger group never costs less. */
  lemma CostMonotone(style: string, d1: int, d2: int, g1: int, g2: int)
    requires 0 <= d1 <= d2 && 0 <= g1 <= g2
    ensures EstimateCost(d1, style, g1) <= EstimateCost(d2, style, g2)
  {
    var base := BaseCost(style);
    MulMono(d1, d2, base, base);
    MulMono(d1 * base, d2 * base, g1, g2);
  }

  lemma ExactQuotient(b: int, q: int)
    requires q > 0
    ensures (b * q) / q == b && (b * q) % q == 0
  {
    var t, r := (b * q) / q, (b * q) % q;
    assert (b - t) * q == r;
    if b - t >= 1 {
      MulMono(1, b - t, q, q);
    } else if b - t <= -1 {
      MulMono(1, t - b, q, q);
    }
  }
}
