/**
  Round-robin standings for a pickleball pool.

  A list of completed matches (team_a, team_b, score_a, score_b) and a roster
  of team names are turned into a table with one row per team: matches
  played, wins, losses, points for, points against, tournament points
  (2 per win) and point differential, ranked by (points, differential)
  descending.
 */
module Standings {

  type Team = string

  /** One completed match as the organiser records it. */
  datatype Match = Match(teamA: Team, teamB: Team, scoreA: int, scoreB: int)

  /** The counters kept per team while matches are tallied: Pld, W, L, PF, PA, Pts. */
  datatype Tally = Tally(played: int, wins: int, losses: int,
                         pointsFor: int, pointsAgainst: int, points: int)

  /** One line of the standings table: team, Pld, W, L, PF, PA, Pts, PD. */
  datatype Row = Row(team: Team, played: int, wins: int, losses: int,
                     pointsFor: int, pointsAgainst: int, points: int, pointDiff: int)

  /** The numeric columns of the table. */
  datatype Column = Pld | W | L | PF | PA | Pts | PD

  datatype Option<T> = None | Some(value: T)

  /**
    A match naming a team that is not on the roster is refused; an empty
    roster leaves the table without any column, so PD cannot be derived.
   */
  datatype Error = UnknownTeam(team: Team) | EmptyRoster

  datatype Result<T> = Ok(value: T) | Err(error: Error)

  const Fresh := Tally(0, 0, 0, 0, 0, 0)

  predicate Names(m: Match, t: Team) {
    m.teamA == t || m.teamB == t
  }

  /** Every team named by a match is on the roster. */
  predicate AllKnown(teams: seq<Team>, ms: seq<Match>) {
    forall i :: 0 <= i < |ms| ==> ms[i].teamA in teams && ms[i].teamB in teams
  }

  predicate Distinct(ts: seq<Team>) {
    forall i, j :: 0 <= i < j < |ts| ==> ts[i] != ts[j]
  }

  predicate DistinctTeams(rows: seq<Row>) {
    forall i, j :: 0 <= i < j < |rows| ==> rows[i].team != rows[j].team
  }

  // ---------------------------------------------------------------------------
  // Reference definition of the tally
  // ---------------------------------------------------------------------------

  /**
    What one match adds to column c of one of its sides (team A when first
    holds, team B otherwise). Team A wins only on a strictly higher score, so a
    draw is a win for team B; a win is worth 2 points, a loss none.
   */
  function Side(m: Match, first: bool, c: Column): int {
    var won := if first then m.scoreA > m.scoreB else !(m.scoreA > m.scoreB);
    var scored := if first then m.scoreA else m.scoreB;
    var conceded := if first then m.scoreB else m.scoreA;
    match c
    case Pld => 1
    case W => if won then 1 else 0
    case L => if won then 0 else 1
    case PF => scored
    case PA => conceded
    case Pts => if won then 2 else 0
    case PD => scored - conceded
  }

  /** What one match adds to column c of team t (both sides, should t be named twice). */
  function Share(m: Match, t: Team, c: Column): int {
    (if t == m.teamA then Side(m, true, c) else 0) + (if t == m.teamB then Side(m, false, c) else 0)
  }

  /** Column c of team t after the matches ms, processed in order. */
  function Count(ms: seq<Match>, t: Team, c: Column): int {
    if |ms| == 0 then 0 else Count(ms[..|ms| - 1], t, c) + Share(ms[|ms| - 1], t, c)
  }

  /** The counters of team t after the matches ms. */
  function TallyOf(ms: seq<Match>, t: Team): Tally {
    Tally(Count(ms, t, Pld), Count(ms, t, W), Count(ms, t, L),
          Count(ms, t, PF), Count(ms, t, PA), Count(ms, t, Pts))
  }

  /** What one match adds to the counters of team t. */
  function Credit(m: Match, t: Team): Tally {
    Tally(Share(m, t, Pld), Share(m, t, W), Share(m, t, L),
          Share(m, t, PF), Share(m, t, PA), Share(m, t, Pts))
  }

  function Add(x: Tally, y: Tally): Tally {
    Tally(x.played + y.played, x.wins + y.wins, x.losses + y.losses,
          x.pointsFor + y.pointsFor, x.pointsAgainst + y.pointsAgainst, x.points + y.points)
  }

  /** The number of matches in ms that name team t. */
  function Appearances(ms: seq<Match>, t: Team): int {
    if |ms| == 0 then 0
    else Appearances(ms[..|ms| - 1], t) + (if Names(ms[|ms| - 1], t) then 1 else 0)
  }

  /** Total of both scores over all matches. */
  function Scored(ms: seq<Match>): int {
    if |ms| == 0 then 0 else Scored(ms[..|ms| - 1]) + ms[|ms| - 1].scoreA + ms[|ms| - 1].scoreB
  }

  /** Turns a team's counters into a table line; PD is derived as PF - PA. */
  function RowOf(t: Team, x: Tally): Row {
    Row(t, x.played, x.wins, x.losses, x.pointsFor, x.pointsAgainst, x.points,
        x.pointsFor - x.pointsAgainst)
  }

  function Cell(r: Row, c: Column): int {
    match c
    case Pld => r.played
    case W => r.wins
    case L => r.losses
    case PF => r.pointsFor
    case PA => r.pointsAgainst
    case Pts => r.points
    case PD => r.pointDiff
  }

  /** The unsorted table: one row per roster entry, in roster order. */
  function Tabulate(ts: seq<Team>, ms: seq<Match>): seq<Row> {
    seq(|ts|, k requires 0 <= k < |ts| => RowOf(ts[k], TallyOf(ms, ts[k])))
  }

  // ---------------------------------------------------------------------------
  // Roster and unknown teams
  // ---------------------------------------------------------------------------

  /** The roster with repeated names dropped, each team kept at its first position. */
  function Roster(teams: seq<Team>): (r: seq<Team>)
    ensures Distinct(r)
    ensures forall t :: t in r <==> t in teams
  {
    if |teams| == 0 then []
    else
      var r := Roster(teams[..|teams| - 1]);
      var last := teams[|teams| - 1];
      assert forall t :: t in teams <==> t in teams[..|teams| - 1] || t == last by {
        assert teams == teams[..|teams| - 1] + [last];
      }
      if last in r then r else r + [last]
  }

  /**
    The first name, scanning the matches in order and team A before team B,
    that is not on the roster; None when every name is on it.
   */
  function FirstUnknown(teams: seq<Team>, ms: seq<Match>): (r: Option<Team>)
    ensures r.None? <==> AllKnown(teams, ms)
    ensures r.Some? ==> r.value !in teams && exists i :: 0 <= i < |ms| && Names(ms[i], r.value)
  {
    if |ms| == 0 then None
    else if ms[0].teamA !in teams then Some(ms[0].teamA)
    else if ms[0].teamB !in teams then Some(ms[0].teamB)
    else
      var r := FirstUnknown(teams, ms[1..]);
      assert r.Some? ==> exists i :: 0 <= i < |ms| && Names(ms[i], r.value) by {
        if r.Some? {
          var i :| 0 <= i < |ms[1..]| && Names(ms[1..][i], r.value);
          assert Names(ms[i + 1], r.value);
        }
      }
      assert AllKnown(teams, ms) <==> AllKnown(teams, ms[1..]) by {
        if AllKnown(teams, ms[1..]) {
          forall i | 0 <= i < |ms| ensures ms[i].teamA in teams && ms[i].teamB in teams {
            if i > 0 { assert ms[i] == ms[1..][i - 1]; }
          }
        }
      }
      r
  }

  /**
    The refused name comes from the earliest match with an unknown name, all
    matches before it being fully known; team A is looked up before team B.
   */
  lemma {:induction false} FirstUnknownIsFirst(teams: seq<Team>, ms: seq<Match>)
    requires FirstUnknown(teams, ms).Some?
    ensures var t := FirstUnknown(teams, ms).value;
            exists i :: 0 <= i < |ms| && AllKnown(teams, ms[..i]) &&
              if ms[i].teamA !in teams then t == ms[i].teamA else ms[i].teamB !in teams && t == ms[i].teamB
  {
    var t := FirstUnknown(teams, ms).value;
    if ms[0].teamA !in teams || ms[0].teamB !in teams {
      assert AllKnown(teams, ms[..0]);
    } else {
      FirstUnknownIsFirst(teams, ms[1..]);
      var i :| 0 <= i < |ms[1..]| && AllKnown(teams, ms[1..][..i]) &&
        if ms[1..][i].teamA !in teams then t == ms[1..][i].teamA
        else ms[1..][i].teamB !in teams && t == ms[1..][i].teamB;
      assert ms[1..][i] == ms[i + 1];
      var pre := ms[..i + 1];
      assert AllKnown(teams, pre) by {
        forall j | 0 <= j < |pre| ensures pre[j].teamA in teams && pre[j].teamB in teams {
          if j > 0 { assert pre[j] == ms[1..][..i][j - 1]; }
        }
      }
    }
  }

  // ---------------------------------------------------------------------------
  // Ranking
  // ---------------------------------------------------------------------------

  /** x may stand above y: more points, or equal points and at least the differential. */
  predicate AtLeast(x: Row, y: Row) {
    x.points > y.points || (x.points == y.points && x.pointDiff >= y.pointDiff)
  }

  predicate Ranked(rows: seq<Row>) {
    forall i, j :: 0 <= i < j < |rows| ==> AtLeast(rows[i], rows[j])
  }

  /** Places x before the first row it ranks at least as high as. */
  function Insert(x: Row, s: seq<Row>): (r: seq<Row>)
    ensures multiset(r) == multiset(s) + multiset{x}
  {
    if |s| == 0 then [x]
    else if AtLeast(x, s[0]) then [x] + s
    else
      assert s == [s[0]] + s[1..];
      [s[0]] + Insert(x, s[1..])
  }

  /** Sorts a table descending on (points, differential); rows equal on both keep their order. */
  function Rank(s: seq<Row>): (r: seq<Row>)
    ensures multiset(r) == multiset(s)
    ensures Ranked(r)
  {
    if |s| == 0 then []
    else
      var rest := Rank(s[1..]);
      InsertRanked(s[0], rest);
      assert s == [s[0]] + s[1..];
      Insert(s[0], rest)
  }

  lemma {:induction false} InsertRanked(x: Row, s: seq<Row>)
    requires Ranked(s)
    ensures Ranked(Insert(x, s))
  {
    if |s| != 0 && !AtLeast(x, s[0]) {
      var rest := Insert(x, s[1..]);
      InsertRanked(x, s[1..]);
      forall y | y in rest ensures AtLeast(s[0], y) {
        assert y in multiset(rest);
        if y != x {
          assert y in multiset(s[1..]);
          var j :| 0 <= j < |s[1..]| && s[1..][j] == y;
          assert s[j + 1] == y;
        }
      }
      var r := [s[0]] + rest;
      forall i, j | 0 <= i < j < |r| ensures AtLeast(r[i], r[j]) {
        if i == 0 {
          assert r[j] == rest[j - 1];
          assert r[j] in rest;
        } else {
          assert r[i] == rest[i - 1] && r[j] == rest[j - 1];
        }
      }
    }
  }

  // ---------------------------------------------------------------------------
  // The standings function and the method that computes it
  // ---------------------------------------------------------------------------

  /**
    The standings table; or the first unknown team named by a match; or, with
    every name known but no team at all, the empty-roster error.
   */
  function StandingsOf(ms: seq<Match>, teams: seq<Team>): Result<seq<Row>> {
    match FirstUnknown(teams, ms)
    case Some(t) => Err(UnknownTeam(t))
    case None => if |teams| == 0 then Err(EmptyRoster) else Ok(Rank(Tabulate(Roster(teams), ms)))
  }

  /** One more match adds exactly its credit to a team's tally. */
  lemma {:induction false} TallySnoc(ms: seq<Match>, m: Match, t: Team)
    ensures TallyOf(ms + [m], t) == Add(TallyOf(ms, t), Credit(m, t))
  {
    assert (ms + [m])[..|ms|] == ms;
  }

  /**
    Applies one match to the table of counters in place, statement by
    statement as the source does: both teams play once more, PF and PA move by
    the scores, then the winner (team A only on a strictly higher score) gets W
    and 2 points and the other team an L.
   */
  method Record(data: map<Team, Tally>, m: Match) returns (data': map<Team, Tally>)
    requires m.teamA in data && m.teamB in data
    ensures data'.Keys == data.Keys
    ensures forall t :: t in data' ==> data'[t] == Add(data[t], Credit(m, t))
  {
    var a, b := m.teamA, m.teamB;
    var sa, sb := m.scoreA, m.scoreB;
    data' := data;
    data' := data'[a := data'[a].(played := data'[a].played + 1)];
    data' := data'[b := data'[b].(played := data'[b].played + 1)];
    data' := data'[a := data'[a].(pointsFor := data'[a].pointsFor + sa)];
    data' := data'[a := data'[a].(pointsAgainst := data'[a].pointsAgainst + sb)];
    data' := data'[b := data'[b].(pointsFor := data'[b].pointsFor + sb)];
    data' := data'[b := data'[b].(pointsAgainst := data'[b].pointsAgainst + sa)];
    if sa > sb {
      data' := data'[a := data'[a].(wins := data'[a].wins + 1)];
      data' := data'[b := data'[b].(losses := data'[b].losses + 1)];
      data' := data'[a := data'[a].(points := data'[a].points + 2)];
    } else {
      data' := data'[b := data'[b].(wins := data'[b].wins + 1)];
      data' := data'[a := data'[a].(losses := data'[a].losses + 1)];
      data' := data'[b := data'[b].(points := data'[b].points + 2)];
    }
    assert data'[a] == Add(data[a], Credit(m, a));
    assert data'[b] == Add(data[b], Credit(m, b));
  }

  /** One fresh tally per roster team; the order of first occurrence is kept alongside. */
  method Initialize(teams: seq<Team>) returns (data: map<Team, Tally>, order: seq<Team>)
    ensures order == Roster(teams)
    ensures forall t :: t in data <==> t in teams
    ensures forall t :: t in data ==> data[t] == TallyOf([], t)
  {
    data, order := map[], [];
    for i := 0 to |teams|
      invariant order == Roster(teams[..i])
      invariant forall t :: t in data <==> t in teams[..i]
      invariant forall t :: t in data ==> data[t] == Fresh
    {
      assert teams[..i + 1] == teams[..i] + [teams[i]];
      assert teams[..i + 1][..i] == teams[..i];
      if teams[i] !in data {
        order := order + [teams[i]];
      }
      data := data[teams[i] := Fresh];
    }
    assert teams[..|teams|] == teams;
  }

  /**
    Walks the matches in order, updating both teams' counters; stops with the
    first name that has no counters, as the source's lookup fails there.
   */
  method TallyMatches(data0: map<Team, Tally>, teams: seq<Team>, matches: seq<Match>)
    returns (result: Result<map<Team, Tally>>)
    requires forall t :: t in data0 <==> t in teams
    requires forall t :: t in data0 ==> data0[t] == TallyOf([], t)
    ensures result.Err? <==> FirstUnknown(teams, matches).Some?
    ensures result.Err? ==> result.error == UnknownTeam(FirstUnknown(teams, matches).value)
    ensures result.Ok? ==> forall t :: t in result.value <==> t in teams
    ensures result.Ok? ==> forall t :: t in result.value ==> result.value[t] == TallyOf(matches, t)
  {
    var data := data0;
    assert matches[..0] == [];
    for i := 0 to |matches|
      invariant forall t :: t in data <==> t in teams
      invariant forall t :: t in data ==> data[t] == TallyOf(matches[..i], t)
      invariant FirstUnknown(teams, matches) == FirstUnknown(teams, matches[i..])
    {
      var m := matches[i];
      if m.teamA !in data {
        return Err(UnknownTeam(m.teamA));
      }
      if m.teamB !in data {
        return Err(UnknownTeam(m.teamB));
      }
      data := Record(data, m);
      assert matches[..i + 1] == matches[..i] + [m];
      forall t | t in data ensures data[t] == TallyOf(matches[..i + 1], t) {
        TallySnoc(matches[..i], m, t);
      }
      assert matches[i..][1..] == matches[i + 1..];
    }
    assert matches[..|matches|] == matches;
    return Ok(data);
  }

  /**
    Builds a zeroed tally per roster team, walks the matches updating both
    teams' counters in place, derives PD and ranks the rows.
   */
  method ComputeStandings(matches: seq<Match>, teams: seq<Team>) returns (result: Result<seq<Row>>)
    ensures result == StandingsOf(matches, teams)
  {
    var zeroed, order := Initialize(teams);
    var tallied := TallyMatches(zeroed, teams, matches);
    if tallied.Err? {
      return Err(tallied.error);
    }
    var data := tallied.value;
    // An empty table has no PF or PA column to derive PD from
    if |order| == 0 {
      return Err(EmptyRoster);
    }
    // Build the table, derive PD, sort by (Pts, PD) descending
    var rows := seq(|order|, k requires 0 <= k < |order| => RowOf(order[k], data[order[k]]));
    assert rows == Tabulate(order, matches);
    result := Ok(Rank(rows));
  }

  // ---------------------------------------------------------------------------
  // Properties of one team's tally
  // ---------------------------------------------------------------------------

  lemma {:induction false} CountSnoc(ms: seq<Match>, m: Match, t: Team, c: Column)
    ensures Count(ms + [m], t, c) == Count(ms, t, c) + Share(m, t, c)
  {
    assert (ms + [m])[..|ms|] == ms;
  }

  /** Every match a team plays is a win or a loss, and only wins earn points (2 each). */
  lemma {:induction false} TallyBalanced(ms: seq<Match>, t: Team)
    ensures TallyOf(ms, t).wins + TallyOf(ms, t).losses == TallyOf(ms, t).played
    ensures TallyOf(ms, t).points == 2 * TallyOf(ms, t).wins
  {
    if |ms| != 0 {
      TallyBalanced(ms[..|ms| - 1], t);
    }
  }

  /**
    The counters Pld, W, L and Pts never go negative; PF and PA do not either
    when no score is negative.
   */
  lemma {:induction false} TallyNonNegative(ms: seq<Match>, t: Team)
    ensures var x := TallyOf(ms, t); x.played >= 0 && x.wins >= 0 && x.losses >= 0 && x.points >= 0
    ensures (forall i :: 0 <= i < |ms| ==> ms[i].scoreA >= 0 && ms[i].scoreB >= 0) ==>
              TallyOf(ms, t).pointsFor >= 0 && TallyOf(ms, t).pointsAgainst >= 0
  {
    if |ms| != 0 {
      var p := ms[..|ms| - 1];
      TallyNonNegative(p, t);
      if forall i :: 0 <= i < |ms| ==> ms[i].scoreA >= 0 && ms[i].scoreB >= 0 {
        assert forall i :: 0 <= i < |p| ==> p[i] == ms[i];
      }
    }
  }

  /** With no self-matches, Pld counts exactly the matches naming the team. */
  lemma {:induction false} PlayedCountsMatches(ms: seq<Match>, t: Team)
    requires forall i :: 0 <= i < |ms| ==> ms[i].teamA != ms[i].teamB
    ensures TallyOf(ms, t).played == Appearances(ms, t)
  {
    if |ms| != 0 {
      var p := ms[..|ms| - 1];
      assert forall i :: 0 <= i < |p| ==> p[i] == ms[i];
      PlayedCountsMatches(p, t);
    }
  }

  /**
    Processing one more match between two different teams: both play once more,
    PF/PA move by the scores, and the win (worth 2 points) goes to team A on a
    strictly higher score and to team B otherwise, a draw included; the loser
    gains a loss and no points.
   */
  lemma {:induction false} RecordMatch(ms: seq<Match>, m: Match)
    requires m.teamA != m.teamB
    ensures var a0, b0 := TallyOf(ms, m.teamA), TallyOf(ms, m.teamB);
            var a1, b1 := TallyOf(ms + [m], m.teamA), TallyOf(ms + [m], m.teamB);
            && a1.played == a0.played + 1 && b1.played == b0.played + 1
            && a1.pointsFor == a0.pointsFor + m.scoreA && a1.pointsAgainst == a0.pointsAgainst + m.scoreB
            && b1.pointsFor == b0.pointsFor + m.scoreB && b1.pointsAgainst == b0.pointsAgainst + m.scoreA
            && (if m.scoreA > m.scoreB then
                  && a1.wins == a0.wins + 1 && a1.losses == a0.losses && a1.points == a0.points + 2
                  && b1.wins == b0.wins && b1.losses == b0.losses + 1 && b1.points == b0.points
                else
                  && b1.wins == b0.wins + 1 && b1.losses == b0.losses && b1.points == b0.points + 2
                  && a1.wins == a0.wins && a1.losses == a0.losses + 1 && a1.points == a0.points)
  {
    TallySnoc(ms, m, m.teamA);
    TallySnoc(ms, m, m.teamB);
  }

  /** A match leaves every team it does not name untouched. */
  lemma {:induction false} UntouchedTeams(ms: seq<Match>, m: Match, t: Team)
    requires !Names(m, t)
    ensures TallyOf(ms + [m], t) == TallyOf(ms, t)
  {
    TallySnoc(ms, m, t);
  }

  lemma {:induction false} ZeroCount(ms: seq<Match>, t: Team, c: Column)
    requires forall i :: 0 <= i < |ms| ==> !Names(ms[i], t)
    ensures Count(ms, t, c) == 0
  {
    if |ms| != 0 {
      var p := ms[..|ms| - 1];
      assert forall i :: 0 <= i < |p| ==> p[i] == ms[i];
      ZeroCount(p, t, c);
    }
  }

  /** A team no match names keeps an all-zero tally. */
  lemma {:induction false} ZeroMatchTeam(ms: seq<Match>, t: Team)
    requires forall i :: 0 <= i < |ms| ==> !Names(ms[i], t)
    ensures TallyOf(ms, t) == Fresh
  {
    ZeroCount(ms, t, Pld);
    ZeroCount(ms, t, W);
    ZeroCount(ms, t, L);
    ZeroCount(ms, t, PF);
    ZeroCount(ms, t, PA);
    ZeroCount(ms, t, Pts);
  }

  // ---------------------------------------------------------------------------
  // Order independence
  // ---------------------------------------------------------------------------

  lemma {:induction false} CountConcat(a: seq<Match>, b: seq<Match>, t: Team, c: Column)
    ensures Count(a + b, t, c) == Count(a, t, c) + Count(b, t, c)
  {
    if |b| == 0 {
      assert a + b == a;
    } else {
      var b', y := b[..|b| - 1], b[|b| - 1];
      CountConcat(a, b', t, c);
      assert a + b == (a + b') + [y];
      assert b == b' + [y];
      CountSnoc(a + b', y, t, c);
      CountSnoc(b', y, t, c);
    }
  }

  lemma {:induction false} CountPermutation(ms1: seq<Match>, ms2: seq<Match>, t: Team, c: Column)
    requires multiset(ms1) == multiset(ms2)
    ensures Count(ms1, t, c) == Count(ms2, t, c)
  {
    if |ms1| == 0 {
      assert |ms2| == |multiset(ms2)| == 0;
    } else {
      var n := |ms1| - 1;
      var x := ms1[n];
      assert ms1 == ms1[..n] + [x];
      assert x in multiset(ms2);
      var k :| 0 <= k < |ms2| && ms2[k] == x;
      var rest := ms2[..k] + ms2[k + 1..];
      assert ms2 == ms2[..k] + [x] + ms2[k + 1..];
      assert multiset(ms2) == multiset(ms2[..k]) + multiset{x} + multiset(ms2[k + 1..]);
      assert multiset(rest) == multiset(ms2[..k]) + multiset(ms2[k + 1..]);
      assert multiset(ms1) == multiset(ms1[..n]) + multiset{x};
      assert multiset(rest) == multiset(ms2) - multiset{x};
      assert multiset(ms1[..n]) == multiset(ms1) - multiset{x};
      CountPermutation(ms1[..n], rest, t, c);
      CountSnoc(ms1[..n], x, t, c);
      CountConcat(ms2[..k], ms2[k + 1..], t, c);
      CountConcat(ms2[..k] + [x], ms2[k + 1..], t, c);
      CountSnoc(ms2[..k], x, t, c);
    }
  }

  /** A team's tally depends on the multiset of matches only, not on their order. */
  lemma {:induction false} TallyOrderIndependent(ms1: seq<Match>, ms2: seq<Match>, t: Team)
    requires multiset(ms1) == multiset(ms2)
    ensures TallyOf(ms1, t) == TallyOf(ms2, t)
  {
    CountPermutation(ms1, ms2, t, Pld);
    CountPermutation(ms1, ms2, t, W);
    CountPermutation(ms1, ms2, t, L);
    CountPermutation(ms1, ms2, t, PF);
    CountPermutation(ms1, ms2, t, PA);
    CountPermutation(ms1, ms2, t, Pts);
  }

  /**
    Reordering the match list, when every team is known, yields the same
    result, a table whenever the roster is not empty.
   */
  lemma {:induction false} StandingsOrderIndependent(ms1: seq<Match>, ms2: seq<Match>, teams: seq<Team>)
    requires multiset(ms1) == multiset(ms2)
    requires AllKnown(teams, ms1)
    ensures StandingsOf(ms1, teams).Ok? <==> |teams| != 0
    ensures StandingsOf(ms1, teams) == StandingsOf(ms2, teams)
  {
    forall i | 0 <= i < |ms2| ensures ms2[i].teamA in teams && ms2[i].teamB in teams {
      assert ms2[i] in multiset(ms1);
      var j :| 0 <= j < |ms1| && ms1[j] == ms2[i];
    }
    var r := Roster(teams);
    forall k | 0 <= k < |r| ensures TallyOf(ms1, r[k]) == TallyOf(ms2, r[k]) {
      TallyOrderIndependent(ms1, ms2, r[k]);
    }
    assert Tabulate(r, ms1) == Tabulate(r, ms2);
  }

  // ---------------------------------------------------------------------------
  // Conservation laws over the whole table
  // ---------------------------------------------------------------------------

  /** Sum of column c over the rows. */
  function SumColumn(rows: seq<Row>, c: Column): int {
    if |rows| == 0 then 0 else Cell(rows[0], c) + SumColumn(rows[1..], c)
  }

  /** Sum over the teams ts of what match m adds to their column c. */
  function Spread(ts: seq<Team>, m: Match, c: Column): int {
    if |ts| == 0 then 0 else Share(m, ts[0], c) + Spread(ts[1..], m, c)
  }

  /** What one match adds to column c summed over its two sides. */
  function MatchTotal(m: Match, c: Column): int {
    Side(m, true, c) + Side(m, false, c)
  }

  /** Sum of MatchTotal over all matches. */
  function TotalOver(ms: seq<Match>, c: Column): int {
    if |ms| == 0 then 0 else TotalOver(ms[..|ms| - 1], c) + MatchTotal(ms[|ms| - 1], c)
  }

  lemma {:induction false} SumColumnConcat(a: seq<Row>, b: seq<Row>, c: Column)
    ensures SumColumn(a + b, c) == SumColumn(a, c) + SumColumn(b, c)
  {
    if |a| == 0 {
      assert a + b == b;
    } else {
      SumColumnConcat(a[1..], b, c);
      assert (a + b)[1..] == a[1..] + b;
    }
  }

  lemma {:induction false} MultisetRemove<T>(s: seq<T>, k: int)
    requires 0 <= k < |s|
    ensures multiset(s[..k] + s[k + 1..]) == multiset(s) - multiset{s[k]}
  {
    assert s == s[..k] + [s[k]] + s[k + 1..];
  }

  lemma {:induction false} SumColumnRemove(r: seq<Row>, k: int, c: Column)
    requires 0 <= k < |r|
    ensures SumColumn(r, c) == Cell(r[k], c) + SumColumn(r[..k] + r[k + 1..], c)
  {
    SumColumnConcat(r[..k], r[k + 1..], c);
    assert r == r[..k] + r[k..];
    SumColumnConcat(r[..k], r[k..], c);
    assert r[k..][1..] == r[k + 1..];
  }

  /** Dropping the first element of one permutation and a copy of it from the other leaves permutations. */
  lemma {:induction false} PermutationRest<T>(a: seq<T>, b: seq<T>, k: int)
    requires multiset(a) == multiset(b)
    requires |a| != 0 && 0 <= k < |b| && b[k] == a[0]
    ensures multiset(a[1..]) == multiset(b[..k] + b[k + 1..])
  {
    MultisetRemove(b, k);
    assert a == [a[0]] + a[1..];
    var m1, m2 := multiset(a[1..]), multiset(b[..k] + b[k + 1..]);
    assert m1 == multiset(a) - multiset{a[0]};
    assert m2 == multiset(b) - multiset{a[0]};
  }

  /** Column sums do not depend on the order of the rows. */
  lemma {:induction false} SumColumnPermutation(r1: seq<Row>, r2: seq<Row>, c: Column)
    requires multiset(r1) == multiset(r2)
    ensures SumColumn(r1, c) == SumColumn(r2, c)
  {
    if |r1| == 0 {
      assert |r2| == |multiset(r2)| == 0;
    } else {
      var x := r1[0];
      assert x in multiset(r2);
      var k :| 0 <= k < |r2| && r2[k] == x;
      var rest := r2[..k] + r2[k + 1..];
      PermutationRest(r1, r2, k);
      SumColumnPermutation(r1[1..], rest, c);
      SumColumnRemove(r2, k, c);
    }
  }

  lemma {:induction false} TabulateCons(ts: seq<Team>, ms: seq<Match>)
    requires |ts| != 0
    ensures Tabulate(ts, ms) == [RowOf(ts[0], TallyOf(ms, ts[0]))] + Tabulate(ts[1..], ms)
  {
  }

  lemma {:induction false} ZeroColumn(ts: seq<Team>, c: Column)
    ensures SumColumn(Tabulate(ts, []), c) == 0
  {
    if |ts| != 0 {
      TabulateCons(ts, []);
      ZeroColumn(ts[1..], c);
    }
  }

  lemma {:induction false} CellSnoc(ms: seq<Match>, m: Match, t: Team, c: Column)
    ensures Cell(RowOf(t, TallyOf(ms + [m], t)), c) == Cell(RowOf(t, TallyOf(ms, t)), c) + Share(m, t, c)
  {
    CountSnoc(ms, m, t, c);
    CountSnoc(ms, m, t, PF);
    CountSnoc(ms, m, t, PA);
  }

  /** Adding one match adds, to every column sum, that match's credit to the roster. */
  lemma {:induction false} ColumnStep(ts: seq<Team>, ms: seq<Match>, m: Match, c: Column)
    ensures SumColumn(Tabulate(ts, ms + [m]), c) == SumColumn(Tabulate(ts, ms), c) + Spread(ts, m, c)
  {
    if |ts| != 0 {
      TabulateCons(ts, ms + [m]);
      TabulateCons(ts, ms);
      ColumnStep(ts[1..], ms, m, c);
      CellSnoc(ms, m, ts[0], c);
    }
  }

  /** Over a roster without repeats, a match's credit reaches its two sides once each. */
  lemma {:induction false} SpreadValue(ts: seq<Team>, m: Match, c: Column)
    requires Distinct(ts)
    ensures Spread(ts, m, c) ==
            (if m.teamA in ts then Side(m, true, c) else 0) + (if m.teamB in ts then Side(m, false, c) else 0)
  {
    if |ts| != 0 {
      assert Distinct(ts[1..]) by {
        forall i, j | 0 <= i < j < |ts[1..]| ensures ts[1..][i] != ts[1..][j] {
          assert ts[1..][i] == ts[i + 1] && ts[1..][j] == ts[j + 1];
        }
      }
      SpreadValue(ts[1..], m, c);
      assert ts[0] !in ts[1..];
      assert ts == [ts[0]] + ts[1..];
      assert forall x :: x in ts <==> x == ts[0] || x in ts[1..];
    }
  }

  lemma {:induction false} ConservationColumn(ts: seq<Team>, ms: seq<Match>, c: Column)
    requires Distinct(ts)
    requires AllKnown(ts, ms)
    ensures SumColumn(Tabulate(ts, ms), c) == TotalOver(ms, c)
  {
    if |ms| == 0 {
      assert ms == [];
      ZeroColumn(ts, c);
    } else {
      var p, m := ms[..|ms| - 1], ms[|ms| - 1];
      assert ms == p + [m];
      assert AllKnown(ts, p) by {
        forall i | 0 <= i < |p| ensures p[i].teamA in ts && p[i].teamB in ts {
          assert p[i] == ms[i];
        }
      }
      ConservationColumn(ts, p, c);
      ColumnStep(ts, p, m, c);
      SpreadValue(ts, m, c);
    }
  }

  /** Per match: 2 appearances, 1 win, 1 loss, PF and PA both the two scores, 2 points, PD 0. */
  lemma {:induction false} TotalOverValues(ms: seq<Match>)
    ensures TotalOver(ms, Pld) == 2 * |ms| && TotalOver(ms, Pts) == 2 * |ms|
    ensures TotalOver(ms, W) == |ms| && TotalOver(ms, L) == |ms|
    ensures TotalOver(ms, PF) == Scored(ms) && TotalOver(ms, PA) == Scored(ms)
    ensures TotalOver(ms, PD) == 0
  {
    if |ms| != 0 {
      TotalOverValues(ms[..|ms| - 1]);
    }
  }

  /**
    Over a roster without repeats that holds every team named: total Pld is
    twice the number of matches, total W and total L each equal it, total PF
    equals total PA (both the sum of all scores), total Pts is 2 per match and
    the PDs sum to zero.
   */
  lemma {:induction false} Conservation(ts: seq<Team>, ms: seq<Match>)
    requires Distinct(ts)
    requires AllKnown(ts, ms)
    ensures var rows := Tabulate(ts, ms);
            && SumColumn(rows, Pld) == 2 * |ms|
            && SumColumn(rows, W) == |ms| && SumColumn(rows, L) == |ms|
            && SumColumn(rows, PF) == Scored(ms) && SumColumn(rows, PA) == Scored(ms)
            && SumColumn(rows, Pts) == 2 * |ms| && SumColumn(rows, PD) == 0
  {
    TotalOverValues(ms);
    forall c ensures SumColumn(Tabulate(ts, ms), c) == TotalOver(ms, c) {
      ConservationColumn(ts, ms, c);
    }
  }

  /** The conservation laws hold of the ranked table the calculator returns. */
  lemma {:induction false} StandingsConservation(ms: seq<Match>, teams: seq<Team>)
    requires StandingsOf(ms, teams).Ok?
    ensures var rows := StandingsOf(ms, teams).value;
            && SumColumn(rows, Pld) == 2 * |ms|
            && SumColumn(rows, W) == |ms| && SumColumn(rows, L) == |ms|
            && SumColumn(rows, PF) == Scored(ms) && SumColumn(rows, PA) == Scored(ms)
            && SumColumn(rows, Pts) == 2 * |ms| && SumColumn(rows, PD) == 0
  {
    var r := Roster(teams);
    assert AllKnown(r, ms);
    Conservation(r, ms);
    var tab := Tabulate(r, ms);
    forall c ensures SumColumn(Rank(tab), c) == SumColumn(tab, c) {
      SumColumnPermutation(Rank(tab), tab, c);
    }
  }
  // ---------------------------------------------------------------------------
  // Shape of the returned table
  // ---------------------------------------------------------------------------

  lemma {:induction false} InsertKeepsTeamsDistinct(x: Row, s: seq<Row>)
    requires DistinctTeams(s)
    requires forall y :: y in s ==> y.team != x.team
    ensures DistinctTeams(Insert(x, s))
  {
    if s != [] && !AtLeast(x, s[0]) {
      var rest := Insert(x, s[1..]);
      assert DistinctTeams(s[1..]) by {
        forall i, j | 0 <= i < j < |s[1..]| ensures s[1..][i].team != s[1..][j].team {
          assert s[1..][i] == s[i + 1] && s[1..][j] == s[j + 1];
        }
      }
      InsertKeepsTeamsDistinct(x, s[1..]);
      forall y | y in rest ensures y.team != s[0].team {
        assert y in multiset(rest);
        if y != x {
          assert y in multiset(s[1..]);
          var j :| 0 <= j < |s[1..]| && s[1..][j] == y;
          assert s[j + 1] == y;
        }
      }
      var r := [s[0]] + rest;
      forall i, j | 0 <= i < j < |r| ensures r[i].team != r[j].team {
        if i == 0 {
          assert r[j] == rest[j - 1];
          assert r[j] in rest;
        } else {
          assert r[i] == rest[i - 1] && r[j] == rest[j - 1];
        }
      }
    }
  }

  lemma {:induction false} RankKeepsTeamsDistinct(s: seq<Row>)
    requires DistinctTeams(s)
    ensures DistinctTeams(Rank(s))
  {
    if s != [] {
      var rest := Rank(s[1..]);
      assert DistinctTeams(s[1..]) by {
        forall i, j | 0 <= i < j < |s[1..]| ensures s[1..][i].team != s[1..][j].team {
          assert s[1..][i] == s[i + 1] && s[1..][j] == s[j + 1];
        }
      }
      RankKeepsTeamsDistinct(s[1..]);
      forall y | y in rest ensures y.team != s[0].team {
        assert y in multiset(rest);
        var j :| 0 <= j < |s[1..]| && s[1..][j] == y;
        assert s[j + 1] == y;
      }
      InsertKeepsTeamsDistinct(s[0], rest);
    }
  }

  /**
    The returned table has exactly one row per distinct roster team, each row
    holds that team's tally (PD = PF - PA), and the rows are ranked by points,
    then differential, descending.
   */
  lemma {:induction false} StandingsShape(ms: seq<Match>, teams: seq<Team>)
    requires StandingsOf(ms, teams).Ok?
    ensures var rows := StandingsOf(ms, teams).value;
            && DistinctTeams(rows)
            && (forall t :: t in teams <==> exists i :: 0 <= i < |rows| && rows[i].team == t)
            && (forall i :: 0 <= i < |rows| ==> rows[i] == RowOf(rows[i].team, TallyOf(ms, rows[i].team)))
            && Ranked(rows)
  {
    var r := Roster(teams);
    var tab := Tabulate(r, ms);
    var rows := Rank(tab);
    assert DistinctTeams(tab);
    RankKeepsTeamsDistinct(tab);
    forall i | 0 <= i < |rows|
      ensures rows[i] == RowOf(rows[i].team, TallyOf(ms, rows[i].team)) && rows[i].team in teams
    {
      assert rows[i] in multiset(tab);
      var k :| 0 <= k < |tab| && tab[k] == rows[i];
    }
    forall t | t in teams ensures exists i :: 0 <= i < |rows| && rows[i].team == t {
      var k :| 0 <= k < |r| && r[k] == t;
      assert tab[k] in multiset(rows);
      var i :| 0 <= i < |rows| && rows[i] == tab[k];
    }
  }

  /** In a ranked table every row with points stands above a row with none. */
  lemma {:induction false} RankedAboveZero(rows: seq<Row>, i: int)
    requires Ranked(rows)
    requires 0 <= i < |rows| && rows[i].points == 0
    ensures forall j :: 0 <= j < |rows| && rows[j].points > 0 ==> j < i
  {
    forall j | i < j < |rows| ensures rows[j].points <= 0 {
      assert AtLeast(rows[i], rows[j]);
    }
  }

  /**
    A roster team that plays no match gets an all-zero row, and every team with
    points stands above it.
   */
  lemma {:induction false} StandingsZeroTeam(ms: seq<Match>, teams: seq<Team>, t: Team)
    requires StandingsOf(ms, teams).Ok?
    requires t in teams
    requires forall i :: 0 <= i < |ms| ==> !Names(ms[i], t)
    ensures var rows := StandingsOf(ms, teams).value;
            exists i :: 0 <= i < |rows| && rows[i] == Row(t, 0, 0, 0, 0, 0, 0, 0) &&
              forall j :: 0 <= j < |rows| && rows[j].points > 0 ==> j < i
  {
    var rows := StandingsOf(ms, teams).value;
    StandingsShape(ms, teams);
    var i :| 0 <= i < |rows| && rows[i].team == t;
    ZeroMatchTeam(ms, t);
    assert rows[i] == RowOf(t, TallyOf(ms, t));
    RankedAboveZero(rows, i);
  }

  /** A match naming a team off the roster is refused with that team, and only then. */
  lemma {:induction false} StandingsRejectsUnknown(ms: seq<Match>, teams: seq<Team>)
    ensures (StandingsOf(ms, teams).Err? && StandingsOf(ms, teams).error.UnknownTeam?) <==>
              exists i :: 0 <= i < |ms| && (ms[i].teamA !in teams || ms[i].teamB !in teams)
    ensures StandingsOf(ms, teams).Err? && StandingsOf(ms, teams).error.UnknownTeam? ==>
              var t := StandingsOf(ms, teams).error.team;
              t !in teams && exists i :: 0 <= i < |ms| && Names(ms[i], t)
  {
  }

  /**
    The empty-roster error comes exactly with no teams and no matches (with no
    teams, any match names an unknown one); a table comes exactly when the
    roster is not empty and knows every named team.
   */
  lemma {:induction false} StandingsEmptyRoster(ms: seq<Match>, teams: seq<Team>)
    ensures StandingsOf(ms, teams) == Err(EmptyRoster) <==> |teams| == 0 && |ms| == 0
    ensures StandingsOf(ms, teams).Ok? <==> |teams| != 0 && AllKnown(teams, ms)
  {
    if |teams| == 0 && |ms| != 0 {
      assert ms[0].teamA !in teams;
    }
  }
}
