# Round-robin standings for a pickleball pool

This project models `compute_standings`, the standings calculator of a small pickleball tournament app. Its inputs are a
list of completed matches `(team_a, team_b, score_a, score_b)` and a roster of team names. It returns
one table row per team with these columns:

- Pld: matches played
- W: wins
- L: losses
- PF: points for
- PA: points against
- Pts: tournament points, 2 per win
- PD: point differential, PF − PA

The rows are sorted by Pts, then PD, both descending.

The calculator works in three steps, and the model follows them:

1. **Initialise.** The roster becomes one zeroed counter per team. Repeated names collapse into one entry, kept at its
   first position. Method `Initialize` builds a `map<Team, Tally>` and the first-occurrence order `Roster`.
2. **Tally.** The matches are walked in order. Each match updates the two teams' counters in place:
   - Pld, PF and PA change first.
   - Then the winner gets W and 2 Pts, and the loser gets L.
   - Team A wins only on a strictly higher score, so a drawn score goes to team B.

   Method `TallyMatches` runs the loop. Method `Record` applies one match's counter updates to the map one statement at a time: six for
   Pld, PF and PA, then three for the winner's W and Pts and the loser's L. Each of its two branches holds three
   of these, so the method has twelve update statements, of which nine run for any one match. A match naming a team that has no counter fails at the lookup. The model returns
   `Err(UnknownTeam(t))` there, where `t` is the first such name, with team A looked up before team B.
   With an empty roster (and so no match) the counter table is empty. The table built from it has no columns and
   deriving PD fails. The model returns `Err(EmptyRoster)` there.
3. **Rank.** PD is derived as PF − PA. The rows are sorted by (Pts, PD) descending. `Rank` is a stable insertion
   sort, and its contract says only that its result is a permutation of its input, ranked.

The reference definition is `StandingsOf` (module `Standings`):

- `Side(m, first, c)` is what one match adds to column `c` of its team A (`first`) or team B. Team A wins only on
  `scoreA > scoreB`, so a draw goes to team B. `Share(m, t, c)` adds up both sides for team `t`.
- `Count(ms, t, c)` sums, over the matches in order, what each match adds to column `c` of team `t`.
- `TallyOf` gathers the six counters.
- `RowOf` turns a tally into a row, deriving PD as PF − PA.
- `Tabulate` gives a row per roster team.

`ComputeStandings` is the imperative calculator. It is proved equal to `StandingsOf` on every input, error cases included. The lemmas then
prove about `StandingsOf` the laws the calculator promises:

- a win/loss/points balance per team
- conservation of wins, losses and points over the table
- exactly one row per team, holding that team's tally
- ranking
- independence of match order
- all-zero rows for idle teams

Module `StandingsTests` checks the two worked examples that ship with the calculator.

Scores and counters are unbounded integers. The code keeps its counters as Python integers while tallying, which
are unbounded. The table built from them at line 24 stores the counters in 64-bit integer columns, and the PD
subtraction at line 25 is a 64-bit column operation that wraps past 2^63. Pickleball scores sum to values far
below that bound, so unbounded integers describe every table the app can produce.

## Model

| member | source | states |
|---|---|---|
| Standings.ComputeStandings | pickleball_streamlit_app.py:5-28 | The calculator (zeroed counters, in-place tally loop, PD, sort) returns exactly `StandingsOf(matches, teams)` on every input, without any precondition: the first unknown team as `UnknownTeam`, an empty roster as `EmptyRoster`, otherwise the ranked table. |
| Standings.Initialize | pickleball_streamlit_app.py:11 | The counter table has a key for exactly the names on the roster, each bound to the all-zero tally, and the row order is the roster with repeats dropped at first occurrence. |
| Standings.Roster | pickleball_streamlit_app.py:11 | The deduplicated roster has no repeated name and holds exactly the names of the input roster. |
| Standings.TallyMatches | pickleball_streamlit_app.py:13-22 | The match loop fails iff some match names a team off the roster, and then with the first such name; otherwise the keys are unchanged and every team's counters equal its reference tally over all matches. |
| Standings.Record | pickleball_streamlit_app.py:14-22 | Processing one match, given both team names have counters, keeps the key set and adds to every team exactly that match's credit, including a match that names one team twice. |
| Standings.TallySnoc | pickleball_streamlit_app.py:13-22 | The reference tally after one more match is the earlier tally plus that match's credit, so it agrees with processing matches one by one in order. |
| Standings.FirstUnknown | pickleball_streamlit_app.py:16 | There is an unknown name iff some match names a team off the roster; the name returned is off the roster and named by some match. |
| Standings.FirstUnknownIsFirst | pickleball_streamlit_app.py:13-16 | The failing name comes from the earliest match with an off-roster name, all earlier matches being fully known, and it is team A when team A is unknown, team B otherwise. |
| Standings.StandingsRejectsUnknown | pickleball_streamlit_app.py:16 | The calculator fails with an unknown team iff a match names a team off the roster, and the team it reports is off the roster and appears in a match. |
| Standings.StandingsEmptyRoster | pickleball_streamlit_app.py:11-25 | The empty-roster error comes exactly when there are no teams and no matches; a table comes exactly when the roster is not empty and holds every named team. |
| Standings.RecordMatch | pickleball_streamlit_app.py:16-22 | For a match between two teams: both play once more; A's PF/PA grow by (sa, sb) and B's by (sb, sa); on sa > sb A gains a win and 2 points and B a loss and no points, otherwise (a draw included) B gains the win and 2 points and A the loss. |
| Standings.UntouchedTeams | pickleball_streamlit_app.py:13-22 | A match leaves the tally of every team it does not name unchanged. |
| Standings.TallyBalanced | pickleball_streamlit_app.py:19-22 | For every team W + L == Pld and Pts == 2 * W. |
| Standings.TallyNonNegative | pickleball_streamlit_app.py:16-22 | Pld, W, L and Pts never go negative; PF and PA stay non-negative when no score is negative. |
| Standings.PlayedCountsMatches | pickleball_streamlit_app.py:16 | Without self-matches, a team's Pld equals the number of matches naming it. |
| Standings.ZeroMatchTeam | pickleball_streamlit_app.py:11 | A team no match names keeps the all-zero tally. |
| Standings.CountPermutation | pickleball_streamlit_app.py:13-22 | Each counter of a team is the same for any two match lists with the same multiset of matches. |
| Standings.TallyOrderIndependent | pickleball_streamlit_app.py:13-22 | A team's tally depends only on the multiset of matches, not on their order. |
| Standings.StandingsOrderIndependent | pickleball_streamlit_app.py:13-28 | Reordering a match list whose teams are all known gives the same result, which is a table exactly when the roster is not empty. |
| Standings.SumColumnPermutation | pickleball_streamlit_app.py:26 | Column sums of the table are unchanged by reordering its rows. |
| Standings.ConservationColumn | pickleball_streamlit_app.py:16-25 | Over a repeat-free roster holding every named team, each column sum equals the per-match totals summed over the matches. |
| Standings.TotalOverValues | pickleball_streamlit_app.py:16-25 | Each match contributes 2 appearances, 1 win, 1 loss, 2 points, both scores to PF and to PA, and 0 to PD. |
| Standings.Conservation | pickleball_streamlit_app.py:16-25 | Over the tabulated roster: total Pld is 2 per match, total W and total L each equal the number of matches, total PF equals total PA (the sum of all scores), total Pts is 2 per match, and the PDs sum to zero. |
| Standings.StandingsConservation | pickleball_streamlit_app.py:16-26 | The same conservation laws hold of the ranked table the calculator returns. |
| Standings.Insert | pickleball_streamlit_app.py:26 | Inserting a row adds exactly that row to the multiset of rows. |
| Standings.InsertRanked | pickleball_streamlit_app.py:26 | Inserting a row into a ranked table keeps it ranked by (Pts, PD) descending. |
| Standings.Rank | pickleball_streamlit_app.py:26 | The sorted table is a permutation of its input and is ordered non-increasing in Pts, and non-increasing in PD among rows of equal Pts. |
| Standings.RankKeepsTeamsDistinct | pickleball_streamlit_app.py:26 | Sorting keeps one row per team. |
| Standings.StandingsShape | pickleball_streamlit_app.py:11-27 | A successful table has one row per distinct roster team and no other, each row holds its team's tally with PD = PF − PA, and the rows are ranked by (Pts, PD) descending. |
| Standings.RankedAboveZero | pickleball_streamlit_app.py:26 | In a table ranked by (Pts, PD), every row with points stands above any row with no points. |
| Standings.StandingsZeroTeam | pickleball_streamlit_app.py:11-27 | A roster team that plays no match appears with an all-zero row, below every team with points. |
| StandingsTests.RosterOfThree | pickleball_streamlit_app.py:11 | Three different names make a roster kept in its given order. |
| StandingsTests.ThreeTeams | pickleball_streamlit_app.py:11-27 | Three different teams and matches among them give a successful table of exactly three ranked rows, one per team, each holding its tally. |
| StandingsTests.BasicCounts | pickleball_streamlit_app.py:105-114 | In the first worked example, X earns 4 points, Y 0 and Z 2. |
| StandingsTests.BasicRows | pickleball_streamlit_app.py:105-114 | Three rows, one for each of the three teams and each holding its tally of the first worked example, include a row for each team, with Pts 4, 0 and 2. |
| StandingsTests.BasicPoints | pickleball_streamlit_app.py:105-114 | For any three different names playing the first worked example, the table succeeds with three rows, one for each team. The first team's row has Pts 4, the second's 0 and the third's 2, and no row names another team. |
| StandingsTests.BasicTally | pickleball_streamlit_app.py:105-114 | On X–Y 11–5, Y–Z 7–11, Z–X 3–11 with roster X, Y, Z the table succeeds with three rows, including rows for X, Y and Z with Pts 4, 0 and 2, and every X, Y or Z row carries those points. |
| StandingsTests.CycleTallies | pickleball_streamlit_app.py:115-124 | In the three-way cycle every team is 2 played, 1 win, 1 loss, 2 points, with PF/PA 20/16, 16/14 and 14/20. |
| StandingsTests.CycleOrder | pickleball_streamlit_app.py:115-124 | For any three different names, the cycle 11–5, 11–3, 11–9 ranks them A, B, C with PD 4, 2, −6. |
| StandingsTests.TiebreakOrder | pickleball_streamlit_app.py:115-124 | On A–B 11–5, B–C 11–3, C–A 11–9 with roster A, B, C the table succeeds and lists the teams in the order A, B, C. |

The comment in the second worked example (pickleball_streamlit_app.py:122) gives A's differential as 20 − 14 = 6.
The matches give A 20 points for and 16 against, so its PD is 4, which is what `CycleOrder` proves. The asserted
order A, B, C is unaffected.

## Left out

- The Streamlit interface is not modelled because it is interactive I/O. That covers session state, widgets, CSV
  upload and its column checks, and table rendering.
- The pandas mechanics are not modelled, because they are table plumbing rather than standings logic. Matches are a
  `seq<Match>`, the counters a `map<Team, Tally>` and the result a `seq<Row>`. `reset_index` and `rename` only turn
  the index into the `team` field of `Row`.
- The pool filters (`query("pool=='A'")` and `startswith('Team A')`) are not modelled. They pre-filter the inputs in
  the caller.
- The input checks of the entry form (scores at least 0, Team B different from Team A) are not modelled. They live
  only in the widgets, and the calculator itself accepts negative scores and self-matches and computes them as
  written.
  - A self-match counts as played twice, one win and one loss for the same team.
  - Lemmas that need distinct sides or non-negative scores take these as preconditions: `RecordMatch`,
    `PlayedCountsMatches` and the PF/PA half of `TallyNonNegative`.
- No validation error: a rejection of negative scores or self-play is not in the code, so the model has no such error.
  Only an unknown team or an empty roster fails.
- The CLI test runner and `__main__` guard are not modelled. The two test cases are lemmas in `StandingsTests`.
- Standings.Rank: the relative order of rows equal on both Pts and PD is left unconstrained by every contract. pandas
  `sort_values` does not promise a stable order, and the model's stable insertion sort is one admissible choice.
- Standings.TallyMatches: a match with an unknown team stops the loop before any counter of that match changes. The
  source would already have updated team A's Pld when only team B is unknown. That partial update is discarded along
  with the failed call, so it is not observable.
- Standings.ComputeStandings: the counters and PD are unbounded integers. The 64-bit columns of the table (lines
  24-25) are not modelled, because the PD subtraction wraps only past 2^63, far beyond any sum of pickleball scores.
