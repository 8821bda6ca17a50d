/** The catalog records and the profile strings built from them and from the
    user's answers (step 1 of the pipeline). */
module Profiles {
  import opened Text

  /** One catalog row, as loaded from the destination table. `name` is the
      `Name_x` column, read only when the table has that column. */
  datatype Destination = Destination(
    id: string,
    name: string,
    state: string,
    kind: string,
    climate: string,
    budget: int,
    bestTime: string)

  /** The destination table: whether it has the optional `Name_x` column,
      and its rows in table order. */
  datatype Catalog = Catalog(hasNameColumn: bool, rows: seq<Destination>)

  /** A row after the two profile columns were written into the table. */
  datatype ProfiledRow = ProfiledRow(dest: Destination, userProfile: string, destinationProfile: string)

  /** The user profile: the interest tags joined with single spaces, then a
      space, the travel style, a space and the climate. */
  function UserProfile(interests: seq<string>, style: string, climate: string): (p: string)
    ensures |p| >= |style| + |climate| + 2
    ensures interests == [] ==> p == " " + style + " " + climate
    ensures p[|p| - |climate| - |style| - 2..] == " " + style + " " + climate
  {
    Join(" ", interests) + " " + style + " " + climate
  }

  /** The destination profile: the type, a space, the best time to visit. */
  function DestinationProfile(d: Destination): string
  {
    d.kind + " " + d.bestTime
  }

  /** The tokens of the user profile are the interest tags (or one empty
      token when there are none), then the style, then the climate. */
  lemma {:induction false} UserProfileTokens(interests: seq<string>, style: string, climate: string)
    requires forall i :: 0 <= i < |interests| ==> NoSpace(interests[i])
    requires NoSpace(style) && NoSpace(climate)
    ensures Split(UserProfile(interests, style, climate))
         == (if interests == [] then [""] else interests) + [style, climate]
  {
    var lead := if interests == [] then [""] else interests;
    var p := UserProfile(interests, style, climate);
    JoinSnoc(" ", lead, style);
    JoinSnoc(" ", lead + [style], climate);
    assert lead + [style] + [climate] == lead + [style, climate];
    if interests == [] {
      assert Join(" ", lead) == "";
    }
    assert p == Join(" ", lead + [style, climate]);
    SplitJoin(lead + [style, climate]);
  }

  /** The tokens of a destination profile are its type and its season. */
  lemma DestinationProfileTokens(d: Destination)
    requires NoSpace(d.kind) && NoSpace(d.bestTime)
    ensures Split(DestinationProfile(d)) == [d.kind, d.bestTime]
  {
    SplitAfterWord(d.kind, d.bestTime);
    SplitWord(d.bestTime);
  }

  /** Writes the `UserProfile` and `DestinationProfile` columns into every row
      of the table; no other field of any row changes. */
  function AddProfiles(rows: seq<Destination>, userProfile: string): (r: seq<ProfiledRow>)
    ensures |r| == |rows|
    ensures forall i :: 0 <= i < |r| ==>
      r[i].dest == rows[i] && r[i].userProfile == userProfile &&
      r[i].destinationProfile == rows[i].kind + " " + rows[i].bestTime
  {
    seq(|rows|, i requires 0 <= i < |rows| => ProfiledRow(rows[i], userProfile, DestinationProfile(rows[i])))
  }
}
