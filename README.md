# Jatayuv travel recommender — Dafny model

A model of the recommendation pipeline that `app.py` runs when the form is
submitted (`app.py:29-99`): it builds the user and destination profile
strings, keeps the catalog rows whose climate matches the user's (ignoring
case) and whose budget is within the user's, falling back to the whole
catalog with a warning flag when none does, picks the three best-scoring
candidates, names the selected place, draws one activity per day from the
travel style's list, estimates the cost as `duration * base * group_size`,
and builds the rows offered for download.

The script is one inline block; the model splits it into the components
it consists of, all as pure functions: the list comprehension that draws
the activities (`app.py:82`) becomes a sequence comprehension, and the
dataframe column writes become functions that return new row sequences.
The `for` loop that prints the itinerary (`app.py:87-88`) is presentation
and is left out.

- `text.dfy` (`Text`): `" ".join` and ASCII `str.lower()`; its `Split` is not
  part of the pipeline and serves only to state that a profile string can be
  split back into the parts it was joined from.
- `profiles.dfy` (`Profiles`): the catalog rows and the profile strings.
- `filter.dfy` (`CandidateFilter`): the climate/budget mask and its fallback.
- `ranking.dfy` (`Ranking`): `argsort`, and the reversed last three positions.
- `itinerary.dfy` (`Itinerary`): the activity and cost tables, the daily
  picks, the cost estimate.
- `recommender.dfy` (`Recommender`): the top-destinations table, the selected
  place, the download rows and one whole submission.

The similarity scores are a caller-supplied `seq<int>` (one score per
candidate), and `random.choice` is a caller-supplied sequence of indices,
one per day, each within the activity list.

The ranking uses numpy's default `argsort`, which is not stable, and then
reverses its result, so the model promises no order among equal scores.

## Model

| member | source | states |
|---|---|---|
| Profiles.UserProfile | app.py:31 | the profile ends with a space, the style, a space and the climate; with no interests it is exactly `" " + style + " " + climate`, so it is never empty |
| Profiles.UserProfileTokens | app.py:31 | splitting the user profile on spaces gives the interest tags (one empty token when there are none), then the style, then the climate |
| Text.SplitJoin | app.py:31 | joining space-free words with single spaces and splitting the result on spaces gives the words back |
| Profiles.DestinationProfileTokens | app.py:33 | when neither field contains a space, a destination profile splits into exactly its type and its best time to visit |
| Profiles.AddProfiles | app.py:32-33 | every row gets the same user profile and its own `Type + " " + BestTimeToVisit`; row count and every other field are unchanged |
| Text.LowerNormalises | app.py:37 | lowering keeps the length, leaves no upper-case letter and is idempotent; two strings lower to the same string exactly when they have the same length and differ only in ASCII case |
| CandidateFilter.MatchesCaseInsensitive | app.py:37-38 | a row passes the mask exactly when its climate equals the user's up to ASCII case and its budget is at most the user's |
| CandidateFilter.Filter | app.py:36-39 | a row is in the result if and only if it is in the table and passes the climate and budget test |
| CandidateFilter.MatchPositionsAreTheMask | app.py:36-39 | the selected positions are in range, strictly increasing, and a position is selected if and only if its row passes |
| CandidateFilter.FilterIsMaskSelection | app.py:36-39 | the filter result is the rows at the selected positions in that order, i.e. the passing rows in catalog order |
| CandidateFilter.SelectCandidates | app.py:36-43 | the warning flag is set if and only if no row passes; then the candidates are the whole table, otherwise exactly the filter result; a non-empty table never gives an empty candidate set |
| Ranking.Insert | app.py:54 | inserting a position into an index list adds exactly that position and keeps the positions in range |
| Ranking.InsertAscending | app.py:54 | insertion keeps an index list ascending by score |
| Ranking.InsertDistinct | app.py:54 | inserting a new position keeps the index list free of repeats |
| Ranking.ArgSort | app.py:54 | `argsort` returns each position of the scores exactly once, ascending by score |
| Ranking.ReversedTailIsOrdered | app.py:54 | the reversed last min(3, n) entries of an ascending permutation of the positions are min(3, n) distinct positions with non-increasing scores |
| Ranking.ReversedTailDominates | app.py:54 | no position left out of that reversed tail scores higher than a position in it |
| Ranking.TopThree | app.py:54 | the top selection has min(3, n) distinct positions in range, scores non-increasing along it, and no unselected position outscores a selected one |
| Itinerary.ActivitiesFor | app.py:63-68 | the four known styles have three activities each; any other style gets only "Local Exploration" |
| Itinerary.PlanDays | app.py:81-82 | the itinerary has exactly `duration` entries, each from the style's list, all "Local Exploration" for an unknown style |
| Itinerary.EveryPlanReachable | app.py:82 | every sequence of activities from the style's list, repeats included, is produced by some choice of picks |
| Itinerary.BaseCost | app.py:70-75 | the daily rate is between 1800 and 3000, and 2000 for an unknown style |
| Itinerary.EstimateCost | app.py:84 | the estimate divides exactly by days times people, giving the style's daily rate; with 1 to 15 days and 1 to 10 people it lies in [1800, 450000] |
| Itinerary.CostMonotone | app.py:84 | a longer trip or a larger group never lowers the estimate |
| Recommender.TopDestinations | app.py:56-57 | the top table has one row per selected position, in that order, with that candidate's ID, state and type, and its name only when the `Name_x` column exists |
| Recommender.SelectedPlace | app.py:77-79 | a place exists exactly when the top table is non-empty; it is the first row's name when present, otherwise its identifier |
| Recommender.Enrich | app.py:94-99 | the download table keeps every top row in order and echoes the user's name, interests joined by ", ", style, duration and cost on each |
| Recommender.Recommend | app.py:29-99 | the flag is the filter's; the top table has min(3, candidates) rows; a plan exists exactly when the catalog is non-empty, with `duration` days from the style's list, the exact cost, the first top row as place and one download row per top row; the top table is the projection of the candidates at the top-three positions, the days are the oracle's picks from the style's list, and the download table is the enriched top table; within the form's bounds the plan's cost lies in [1800, 450000] |
| Recommender.RecommendedRowsMatch | app.py:36-57 | the flag is raised exactly when no row passes; otherwise every recommended row is projected from a catalog row that passes the filter |
| Recommender.WarmExplorerScenario | app.py:29-84 | Warm, 5000, Explorer, 3 days, 2 people with a matching row: no fallback, 1 to 3 matching rows, each day one of Trekking, Nature Walk or Local Adventure, cost 12000 |
| Recommender.NoMatchScenario | app.py:41-54 | with no matching row in a non-empty table: the flag is raised, min(3, n) rows from the whole table are ranked, and a plan is made |

## Left out

- The Streamlit form, titles, tables, success and warning messages, and the day-numbered itinerary lines (`app.py:14-27`, `59-60`, `86-90`): presentation only; the warning is kept as the `noMatch` flag.
- Loading the CSV and its caching (`app.py:8-12`), and writing the download table as CSV (`app.py:101-102`): file I/O; the download rows are modelled as records.
- TF-IDF vectorisation and cosine similarity (`app.py:46-53`): foreign floating-point code; the scores are an opaque ordered input, one per candidate. The quirk that the user profile is fed in once per candidate and only the first row of scores is used is therefore not modelled.
- Ranking.TopThree: promises no order among equal scores, because numpy's default `argsort` is not stable; the model's insertion sort fixes one order that the contract does not expose.
- The randomness of `random.choice` (`app.py:82`): replaced by the caller-supplied picks.
- Text.LowerNormalises: `str.lower()` is modelled for ASCII letters only; Unicode case mapping is not modelled.
- Pandas comparison semantics (missing values in `Budget` or `PreferredClimate`, dtype coercion): budgets are integers and fields are strings.
- Recommender.Recommend: with an empty catalog the vectoriser in the source raises an error on an empty vocabulary; the model instead returns an empty top table and no plan. Other vectoriser failures on degenerate text are not modelled either.
- Name, age and gender are carried in the preferences but only the name reaches the output; the form's numeric bounds are the `WithinForm` predicate.
