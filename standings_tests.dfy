/** The two worked examples that accompany the standings calculator. */
module StandingsTests {
  import opened Standings

  lemma RosterOfThree(x: Team, y: Team, z: Team)
    requires x != y && y != z && x != z
    ensures Roster([x, y, z]) == [x, y, z]
  {
    assert Roster([x]) == [x] by {
      assert [x][..0] == [];
    }
    assert Roster([x, y]) == [x, y] by {
      assert [x, y][..1] == [x];
    }
    assert [x, y, z][..2] == [x, y];
  }

  /** Three distinct teams, all matches between them: three rows, one per team, each its own tally. */
  lemma ThreeTeams(ms: seq<Match>, x: Team, y: Team, z: Team)
    requires x != y && y != z && x != z
    requires AllKnown([x, y, z], ms)
    ensures StandingsOf(ms, [x, y, z]).Ok?
    ensures var rows := StandingsOf(ms, [x, y, z]).value;
            && |rows| == 3
            && Ranked(rows)
            && DistinctTeams(rows)
            && (forall i :: 0 <= i < 3 ==> rows[i].team in [x, y, z])
            && (forall t :: t in [x, y, z] ==> exists i :: 0 <= i < 3 && rows[i].team == t)
            && (forall i :: 0 <= i < 3 ==> rows[i] == RowOf(rows[i].team, TallyOf(ms, rows[i].team)))
  {
    RosterOfThree(x, y, z);
    StandingsShape(ms, [x, y, z]);
    var tab := Tabulate(Roster([x, y, z]), ms);
    var rows := Rank(tab);
    assert |rows| == |multiset(rows)| == |multiset(tab)| == |tab| == 3;
  }

  /** Column c over three matches is the sum of the three shares. */
  lemma {:induction false} CountThree(m1: Match, m2: Match, m3: Match, t: Team, c: Column)
    ensures Count([m1, m2, m3], t, c) == Share(m1, t, c) + Share(m2, t, c) + Share(m3, t, c)
  {
    assert [m1, m2, m3][..2] == [m1, m2] && [m1, m2][..1] == [m1] && [m1][..0] == [];
    assert Count([m1], t, c) == Share(m1, t, c);
    assert Count([m1, m2], t, c) == Share(m1, t, c) + Share(m2, t, c);
  }

  lemma {:induction false} BasicCounts(x: Team, y: Team, z: Team)
    requires x != y && y != z && x != z
    ensures var ms := [Match(x, y, 11, 5), Match(y, z, 7, 11), Match(z, x, 3, 11)];
            Count(ms, x, Pts) == 4 && Count(ms, y, Pts) == 0 && Count(ms, z, Pts) == 2
  {
    var m1, m2, m3 := Match(x, y, 11, 5), Match(y, z, 7, 11), Match(z, x, 3, 11);
    CountThree(m1, m2, m3, x, Pts);
    CountThree(m1, m2, m3, y, Pts);
    CountThree(m1, m2, m3, z, Pts);
  }

  /** Rows holding the tallies of x, y and z carry 4, 0 and 2 points; each of the three has a row. */
  lemma BasicRows(rows: seq<Row>, x: Team, y: Team, z: Team)
    requires x != y && y != z && x != z
    requires |rows| == 3
    requires forall i :: 0 <= i < 3 ==> rows[i].team in [x, y, z]
    requires forall t :: t in [x, y, z] ==> exists i :: 0 <= i < 3 && rows[i].team == t
    requires var ms := [Match(x, y, 11, 5), Match(y, z, 7, 11), Match(z, x, 3, 11)];
             forall i :: 0 <= i < 3 ==> rows[i] == RowOf(rows[i].team, TallyOf(ms, rows[i].team))
    ensures exists r :: r in rows && r.team == x && r.points == 4
    ensures exists r :: r in rows && r.team == y && r.points == 0
    ensures exists r :: r in rows && r.team == z && r.points == 2
    ensures forall r :: r in rows ==> r.team in [x, y, z]
    ensures forall r :: r in rows ==> r.points == (if r.team == x then 4 else if r.team == y then 0 else 2)
  {
    var ms := [Match(x, y, 11, 5), Match(y, z, 7, 11), Match(z, x, 3, 11)];
    BasicCounts(x, y, z);
    forall r | r in rows
      ensures r.team in [x, y, z] && r.points == (if r.team == x then 4 else if r.team == y then 0 else 2)
    {
      var i :| 0 <= i < |rows| && rows[i] == r;
      assert r == RowOf(r.team, TallyOf(ms, r.team));
    }
    assert x in [x, y, z] && y in [x, y, z] && z in [x, y, z];
    var ix :| 0 <= ix < 3 && rows[ix].team == x;
    var iy :| 0 <= iy < 3 && rows[iy].team == y;
    var iz :| 0 <= iz < 3 && rows[iz].team == z;
    assert rows[ix] in rows && rows[iy] in rows && rows[iz] in rows;
  }

  /** Each team's row carries the points its results earned. */
  lemma BasicPoints(x: Team, y: Team, z: Team)
    requires x != y && y != z && x != z
    ensures var ms := [Match(x, y, 11, 5), Match(y, z, 7, 11), Match(z, x, 3, 11)];
            var result := StandingsOf(ms, [x, y, z]);
            && result.Ok?
            && |result.value| == 3
            && (exists r :: r in result.value && r.team == x && r.points == 4)
            && (exists r :: r in result.value && r.team == y && r.points == 0)
            && (exists r :: r in result.value && r.team == z && r.points == 2)
            && (forall r :: r in result.value ==> r.team in [x, y, z])
            && (forall r :: r in result.value ==> r.points == (if r.team == x then 4 else if r.team == y then 0 else 2))
  {
    var ms := [Match(x, y, 11, 5), Match(y, z, 7, 11), Match(z, x, 3, 11)];
    ThreeTeams(ms, x, y, z);
    BasicRows(StandingsOf(ms, [x, y, z]).value, x, y, z);
  }

  /**
    X beats Y 11-5, Z beats Y 11-7, X beats Z 11-3: X ends on 4 points,
    Y on 0 and Z on 2.
   */
  lemma BasicTally()
    ensures var ms := [Match("X", "Y", 11, 5), Match("Y", "Z", 7, 11), Match("Z", "X", 3, 11)];
            var result := StandingsOf(ms, ["X", "Y", "Z"]);
            && result.Ok?
            && |result.value| == 3
            && (exists r :: r in result.value && r.team == "X" && r.points == 4)
            && (exists r :: r in result.value && r.team == "Y" && r.points == 0)
            && (exists r :: r in result.value && r.team == "Z" && r.points == 2)
            && (forall r :: r in result.value && r.team == "X" ==> r.points == 4)
            && (forall r :: r in result.value && r.team == "Y" ==> r.points == 0)
            && (forall r :: r in result.value && r.team == "Z" ==> r.points == 2)
  {
    assert "X" != "Y" && "Y" != "Z" && "X" != "Z" by {
      assert "X"[0] != "Y"[0] && "Y"[0] != "Z"[0] && "X"[0] != "Z"[0];
    }
    BasicPoints("X", "Y", "Z");
  }

  lemma {:induction false} CycleTallies(a: Team, b: Team, c: Team)
    requires a != b && b != c && a != c
    ensures var ms := [Match(a, b, 11, 5), Match(b, c, 11, 3), Match(c, a, 11, 9)];
            && TallyOf(ms, a) == Tally(2, 1, 1, 20, 16, 2)
            && TallyOf(ms, b) == Tally(2, 1, 1, 16, 14, 2)
            && TallyOf(ms, c) == Tally(2, 1, 1, 14, 20, 2)
  {
    var m1, m2, m3 := Match(a, b, 11, 5), Match(b, c, 11, 3), Match(c, a, 11, 9);
    forall t, col | t in {a, b, c} && col in {Pld, W, L, PF, PA, Pts}
      ensures Count([m1, m2, m3], t, col) == Share(m1, t, col) + Share(m2, t, col) + Share(m3, t, col)
    {
      CountThree(m1, m2, m3, t, col);
    }
  }

  /** With all three teams level on points, the ranking follows point difference. */
  lemma CycleOrder(a: Team, b: Team, c: Team)
    requires a != b && b != c && a != c
    ensures var ms := [Match(a, b, 11, 5), Match(b, c, 11, 3), Match(c, a, 11, 9)];
            var result := StandingsOf(ms, [a, b, c]);
            && result.Ok?
            && |result.value| == 3
            && [result.value[0].team, result.value[1].team, result.value[2].team] == [a, b, c]
            && [result.value[0].pointDiff, result.value[1].pointDiff, result.value[2].pointDiff] == [4, 2, -6]
  {
    var ms := [Match(a, b, 11, 5), Match(b, c, 11, 3), Match(c, a, 11, 9)];
    CycleTallies(a, b, c);
    ThreeTeams(ms, a, b, c);
    var rows := StandingsOf(ms, [a, b, c]).value;
    var r0, r1, r2 := rows[0], rows[1], rows[2];
    assert r0.team in [a, b, c] && r1.team in [a, b, c] && r2.team in [a, b, c];
    assert r0.team != r1.team && r0.team != r2.team && r1.team != r2.team;
    assert r0 == RowOf(r0.team, TallyOf(ms, r0.team));
    assert r1 == RowOf(r1.team, TallyOf(ms, r1.team));
    assert r2 == RowOf(r2.team, TallyOf(ms, r2.team));
    assert r0.points == 2 && r1.points == 2 && r2.points == 2;
    assert AtLeast(r0, r1) && AtLeast(r1, r2);
    assert r0.pointDiff >= r1.pointDiff >= r2.pointDiff;
  }

  /**
    The cycle A beats B 11-5, B beats C 11-3, C beats A 11-9 leaves every team
    on 2 points, so PD decides: A (+4), B (+2), C (-6).
   */
  lemma TiebreakOrder()
    ensures var ms := [Match("A", "B", 11, 5), Match("B", "C", 11, 3), Match("C", "A", 11, 9)];
            var result := StandingsOf(ms, ["A", "B", "C"]);
            && result.Ok?
            && |result.value| == 3
            && [result.value[0].team, result.value[1].team, result.value[2].team] == ["A", "B", "C"]
  {
    assert "A" != "B" && "B" != "C" && "A" != "C" by {
      assert "A"[0] != "B"[0] && "B"[0] != "C"[0] && "A"[0] != "C"[0];
    }
    CycleOrder("A", "B", "C");
  }
}
