/** Step 2: keep the rows whose climate matches the user's, ignoring case,
    and whose budget is within the user's; fall back to the whole table
    when none does. */
module CandidateFilter {
  import opened Text
  import opened Profiles

  /** The row mask: `PreferredClimate.lower() == climate.lower()` and
      `Budget <= budget`. */
  predicate Matches(d: Destination, climate: string, budget: int)
  {
    Lower(d.climate) == Lower(climate) && d.budget <= budget
  }

  /** A row passes exactly when its climate equals the user's up to ASCII
      case and its budget is at most the user's. */
  lemma MatchesCaseInsensitive(d: Destination, climate: string, budget: int)
    ensures Matches(d, climate, budget) <==>
      |d.climate| == |climate| && (forall i :: 0 <= i < |climate| ==> CaseMates(d.climate[i], climate[i])) &&
      d.budget <= budget
  {
    LowerNormalises(d.climate, climate);
  }

  /** The rows the mask keeps, in table order. */
  function Filter(rows: seq<ProfiledRow>, climate: string, budget: int): (r: seq<ProfiledRow>)
    ensures |r| <= |rows|
    ensures forall x :: x in r <==> x in rows && Matches(x.dest, climate, budget)
  {
    if rows == [] then []
    else
      var last := rows[|rows| - 1];
      var init := Filter(rows[..|rows| - 1], climate, budget);
      assert rows == rows[..|rows| - 1] + [last];
      if Matches(last.dest, climate, budget) then init + [last] else init
  }

  /** The positions the mask selects, in increasing order. */
  ghost function MatchPositions(rows: seq<ProfiledRow>, climate: string, budget: int): seq<nat>
  {
    if rows == [] then []
    else
      var init := MatchPositions(rows[..|rows| - 1], climate, budget);
      if Matches(rows[|rows| - 1].dest, climate, budget) then init + [|rows| - 1] else init
  }

  /** The selected positions lie inside the table, strictly increase, and
      a position is selected if and only if its row matches. */
  lemma {:induction false} MatchPositionsAreTheMask(rows: seq<ProfiledRow>, climate: string, budget: int)
    ensures var pos := MatchPositions(rows, climate, budget);
      (forall k :: 0 <= k < |pos| ==> pos[k] < |rows|) &&
      (forall k, l :: 0 <= k < l < |pos| ==> pos[k] < pos[l]) &&
      (forall i :: 0 <= i < |rows| ==> (i in pos <==> Matches(rows[i].dest, climate, budget)))
  {
    if rows != [] {
      var n := |rows|;
      var init := rows[..n - 1];
      MatchPositionsAreTheMask(init, climate, budget);
      assert forall i :: 0 <= i < n - 1 ==> init[i] == rows[i];
    }
  }

  /** The filter result is exactly the rows at the selected positions, in
      that order: the matching rows in table order. */
  lemma {:induction false} FilterIsMaskSelection(rows: seq<ProfiledRow>, climate: string, budget: int)
    ensures var pos := MatchPositions(rows, climate, budget);
      var r := Filter(rows, climate, budget);
      |pos| == |r| &&
      forall k :: 0 <= k < |pos| ==> pos[k] < |rows| && r[k] == rows[pos[k]]
  {
    if rows != [] {
      var n := |rows|;
      var init := rows[..n - 1];
      FilterIsMaskSelection(init, climate, budget);
      MatchPositionsAreTheMask(init, climate, budget);
      var pos0, r0 := MatchPositions(init, climate, budget), Filter(init, climate, budget);
      var pos, r := MatchPositions(rows, climate, budget), Filter(rows, climate, budget);
      if Matches(rows[n - 1].dest, climate, budget) {
        assert pos == pos0 + [n - 1] && r == r0 + [rows[n - 1]];
        forall k | 0 <= k < |pos|
          ensures pos[k] < |rows| && r[k] == rows[pos[k]]
        {
          if k < |pos0| {
            assert pos[k] == pos0[k] && r[k] == r0[k] && init[pos0[k]] == rows[pos0[k]];
          }
        }
      } else {
        assert pos == pos0 && r == r0;
        forall k | 0 <= k < |pos|
          ensures pos[k] < |rows| && r[k] == rows[pos[k]]
        {
          assert init[pos0[k]] == rows[pos0[k]];
        }
      }
    }
  }

  /** The candidates handed to the ranker, and whether the fallback fired. */
  datatype Candidates = Candidates(rows: seq<ProfiledRow>, noMatch: bool)

  /** The filter with its fallback: when nothing matches, the whole table,
      with the warning flag raised. */
  function SelectCandidates(rows: seq<ProfiledRow>, climate: string, budget: int): (c: Candidates)
    ensures c.noMatch <==> forall i :: 0 <= i < |rows| ==> !Matches(rows[i].dest, climate, budget)
    ensures c.noMatch ==> c.rows == rows
    ensures !c.noMatch ==> c.rows == Filter(rows, climate, budget)
    ensures |rows| > 0 ==> |c.rows| > 0
    ensures forall x :: x in c.rows ==> x in rows
  {
    var filtered := Filter(rows, climate, budget);
    assert filtered != [] ==> filtered[0] in rows;
    if filtered == [] then Candidates(rows, true) else Candidates(filtered, false)
  }
}
