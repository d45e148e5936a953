/** Team affiliation (`calc_player_teams`): one row per player, season and
    team with the games played, summed per player into a total and a
    per-team count, and a primary team chosen by most games. */
module Teams {
  import opened Wrappers
  import opened Text
  import opened Rows
  import opened OrderedDict
  import opened Argmax

  /** One appearance row once read: `int(float(G_all))` games. */
  datatype TeamRow = TeamRow(playerId: string, teamId: string, games: int)

  /** A player's team affiliation.  `teams` keeps the order in which the
      player's rows first named each team; `primaryTeam` is absent when no
      team has a positive count. */
  datatype TeamProfile = TeamProfile(totalGames: int, teams: Dict<string, int>, primaryTeam: Option<string>)

  /** Reads `playerID`, `teamID` and `G_all`, in that order; a missing
      column or a `G_all` that is not a number stops the stage. */
  function ParseTeamRow(row: Row): (r: Result<TeamRow, StageError>)
    ensures r.Success? <==>
      "playerID" in row && "teamID" in row && "G_all" in row && ParseFloat(row["G_all"]).Some?
    ensures r.Success? ==>
      r.value == TeamRow(row["playerID"], row["teamID"], Trunc(ParseFloat(row["G_all"]).value))
    ensures "playerID" !in row ==> r == Failure(MissingColumn("playerID"))
  {
    var pid :- Field(row, "playerID");
    var tid :- Field(row, "teamID");
    var games :- ReadInt(row, "G_all");
    Success(TeamRow(pid, tid, games))
  }

  // ---------------------------------------------------------------------
  // Reference definitions: what the per-player figures should be

  predicate IsRowOf(row: TeamRow, pid: string, tid: string) {
    row.playerId == pid && row.teamId == tid
  }

  /** Games over all rows of player `pid` with team `tid`. */
  function GamesFor(rows: seq<TeamRow>, pid: string, tid: string): int {
    if |rows| == 0 then 0
    else
      var last := rows[|rows| - 1];
      GamesFor(rows[..|rows| - 1], pid, tid) + (if IsRowOf(last, pid, tid) then last.games else 0)
  }

  /** Games over all rows of player `pid`. */
  function TotalFor(rows: seq<TeamRow>, pid: string): int {
    if |rows| == 0 then 0
    else
      var last := rows[|rows| - 1];
      TotalFor(rows[..|rows| - 1], pid) + (if last.playerId == pid then last.games else 0)
  }

  /** Index of the first row of player `pid` with team `tid`, or `|rows|`
      when there is none. */
  function FirstRowOf(rows: seq<TeamRow>, pid: string, tid: string): (k: nat)
    ensures k <= |rows|
    ensures k < |rows| ==> IsRowOf(rows[k], pid, tid)
    ensures forall i :: 0 <= i < k ==> !IsRowOf(rows[i], pid, tid)
  {
    if |rows| == 0 then 0
    else
      var k := FirstRowOf(rows[..|rows| - 1], pid, tid);
      if k < |rows| - 1 then k
      else if IsRowOf(rows[|rows| - 1], pid, tid) then |rows| - 1
      else |rows|
  }

  // ---------------------------------------------------------------------
  // The accumulation pass

  /** Per-player running figures of the first pass. */
  datatype Tally = Tally(totalGames: int, teams: Dict<string, int>)

  /** One row of the first loop: add the games to the player's total and to
      the team's count, creating either when first seen. */
  function AddRow(m: map<string, Tally>, row: TeamRow): (r: map<string, Tally>)
    requires forall p :: p in m ==> Valid(m[p].teams)
    ensures forall p :: p in r ==> Valid(r[p].teams)
  {
    if row.playerId in m then
      var t := m[row.playerId];
      var prior := if row.teamId in t.teams.values then t.teams.values[row.teamId] else 0;
      m[row.playerId := Tally(t.totalGames + row.games, Put(t.teams, row.teamId, prior + row.games))]
    else
      m[row.playerId := Tally(row.games, Put(Empty(), row.teamId, row.games))]
  }

  /** The first loop of `calc_player_teams`, over all rows in order. */
  function Accumulate(rows: seq<TeamRow>): (m: map<string, Tally>)
    ensures forall p :: p in m ==> Valid(m[p].teams)
  {
    if |rows| == 0 then map[] else AddRow(Accumulate(rows[..|rows| - 1]), rows[|rows| - 1])
  }

  /** Player `pid` has a row. */
  predicate Appears(rows: seq<TeamRow>, pid: string) {
    exists i :: 0 <= i < |rows| && rows[i].playerId == pid
  }

  lemma AppearsSnoc(rows: seq<TeamRow>, pid: string)
    requires |rows| > 0
    ensures Appears(rows, pid) <==> Appears(rows[..|rows| - 1], pid) || rows[|rows| - 1].playerId == pid
  {
    var n := |rows| - 1;
    if Appears(rows, pid) && rows[n].playerId != pid {
      var i :| 0 <= i < |rows| && rows[i].playerId == pid;
      assert rows[..n][i].playerId == pid;
    }
    if Appears(rows[..n], pid) {
      var i :| 0 <= i < n && rows[..n][i].playerId == pid;
      assert rows[i].playerId == pid;
    }
  }

  /** The first pass has an entry for exactly the players that have rows. */
  lemma {:induction false} AccumulatePlayers(rows: seq<TeamRow>)
    ensures forall p :: p in Accumulate(rows) <==> Appears(rows, p)
    decreases |rows|
  {
    if |rows| > 0 {
      AccumulatePlayers(rows[..|rows| - 1]);
      forall p ensures p in Accumulate(rows) <==> Appears(rows, p) {
        AppearsSnoc(rows, p);
      }
    }
  }

  lemma {:induction false} TotalForAbsent(rows: seq<TeamRow>, p: string)
    requires !Appears(rows, p)
    ensures TotalFor(rows, p) == 0
    decreases |rows|
  {
    if |rows| > 0 {
      AppearsSnoc(rows, p);
      TotalForAbsent(rows[..|rows| - 1], p);
    }
  }

  lemma {:induction false} GamesForAbsent(rows: seq<TeamRow>, p: string, t: string)
    requires forall i :: 0 <= i < |rows| ==> !IsRowOf(rows[i], p, t)
    ensures GamesFor(rows, p, t) == 0
    decreases |rows|
  {
    if |rows| > 0 {
      GamesForAbsent(rows[..|rows| - 1], p, t);
    }
  }

  lemma FirstRowOfAbsent(rows: seq<TeamRow>, p: string, t: string)
    requires !Appears(rows, p)
    ensures FirstRowOf(rows, p, t) == |rows|
  {
    assert forall i :: 0 <= i < |rows| ==> rows[i].playerId != p;
  }

  /** Each player's total is the sum of the games over all their rows. */
  lemma {:induction false} AccumulateTotals(rows: seq<TeamRow>)
    ensures forall p :: p in Accumulate(rows) ==> Accumulate(rows)[p].totalGames == TotalFor(rows, p)
    decreases |rows|
  {
    if |rows| > 0 {
      var front := rows[..|rows| - 1];
      AccumulateTotals(front);
      AccumulatePlayers(front);
      var p := rows[|rows| - 1].playerId;
      if p !in Accumulate(front) {
        TotalForAbsent(front, p);
      }
    }
  }

  /** A player's teams are exactly the teams some row of theirs names. */
  lemma {:induction false} AccumulateTeamKeys(rows: seq<TeamRow>)
    ensures forall p, t :: p in Accumulate(rows) ==>
              (t in Accumulate(rows)[p].teams.values <==> FirstRowOf(rows, p, t) < |rows|)
    decreases |rows|
  {
    if |rows| > 0 {
      var front := rows[..|rows| - 1];
      AccumulateTeamKeys(front);
      AccumulatePlayers(front);
      var p := rows[|rows| - 1].playerId;
      if p !in Accumulate(front) {
        forall t ensures FirstRowOf(front, p, t) == |front| {
          FirstRowOfAbsent(front, p, t);
        }
      }
    }
  }

  /** A player's count for a team is the sum of the games over their rows
      naming that team. */
  lemma {:induction false} AccumulateTeamGames(rows: seq<TeamRow>)
    ensures forall p, t :: p in Accumulate(rows) && t in Accumulate(rows)[p].teams.values ==>
              Accumulate(rows)[p].teams.values[t] == GamesFor(rows, p, t)
    decreases |rows|
  {
    if |rows| > 0 {
      var front := rows[..|rows| - 1];
      var row := rows[|rows| - 1];
      AccumulateTeamGames(front);
      AccumulatePlayers(front);
      var m := Accumulate(front);
      assert Accumulate(rows) == AddRow(m, row);
      forall p, t | p in Accumulate(rows) && t in Accumulate(rows)[p].teams.values
        ensures Accumulate(rows)[p].teams.values[t] == GamesFor(rows, p, t)
      {
        assert GamesFor(rows, p, t) == GamesFor(front, p, t) + (if IsRowOf(row, p, t) then row.games else 0);
        if p == row.playerId && p !in m {
          FirstRowOfAbsent(front, p, t);
          assert forall i :: 0 <= i < |front| ==> front[i].playerId != p;
          GamesForAbsent(front, p, t);
        } else if p == row.playerId && t == row.teamId && t !in m[p].teams.values {
          assert forall i :: 0 <= i < |front| ==> !IsRowOf(front[i], p, t) by {
            AccumulateTeamKeys(front);
          }
          GamesForAbsent(front, p, t);
        }
      }
    }
  }

  /** `keys` are listed in the order the rows of player `p` first name them. */
  ghost predicate InFirstRowOrder(rows: seq<TeamRow>, p: string, keys: seq<string>) {
    forall i, j :: 0 <= i < j < |keys| ==> FirstRowOf(rows, p, keys[i]) < FirstRowOf(rows, p, keys[j])
  }

  /** A player's teams are listed in the order their rows first name them. */
  lemma {:induction false} AccumulateTeamOrder(rows: seq<TeamRow>)
    ensures forall p :: p in Accumulate(rows) ==> InFirstRowOrder(rows, p, Accumulate(rows)[p].teams.keys)
    decreases |rows|
  {
    if |rows| > 0 {
      var front := rows[..|rows| - 1];
      AccumulateTeamOrder(front);
      AccumulateTeamKeys(front);
      var p := rows[|rows| - 1].playerId;
      if p in Accumulate(front) {
        AddRowKeepsOrder(rows, p);
      }
    }
  }

  /** A team the earlier rows already name is first named where it was. */
  lemma FirstRowOfPresent(rows: seq<TeamRow>, p: string, t: string)
    requires |rows| > 0 && FirstRowOf(rows[..|rows| - 1], p, t) < |rows| - 1
    ensures FirstRowOf(rows, p, t) == FirstRowOf(rows[..|rows| - 1], p, t)
  {
  }

  /** A team only the last row names is first named there. */
  lemma FirstRowOfNew(rows: seq<TeamRow>, p: string, t: string)
    requires |rows| > 0 && FirstRowOf(rows[..|rows| - 1], p, t) == |rows| - 1
    requires IsRowOf(rows[|rows| - 1], p, t)
    ensures FirstRowOf(rows, p, t) == |rows| - 1
  {
  }

  /** Teams the earlier rows already name keep their first rows. */
  lemma KeptTeamsFirstRows(rows: seq<TeamRow>, p: string, keys: seq<string>, named: set<string>)
    requires |rows| > 0
    requires forall i :: 0 <= i < |keys| ==> keys[i] in named
    requires forall t :: t in named ==> FirstRowOf(rows[..|rows| - 1], p, t) < |rows| - 1
    ensures forall i :: 0 <= i < |keys| ==>
              FirstRowOf(rows, p, keys[i]) == FirstRowOf(rows[..|rows| - 1], p, keys[i]) < |rows| - 1
  {
    forall i | 0 <= i < |keys|
      ensures FirstRowOf(rows, p, keys[i]) == FirstRowOf(rows[..|rows| - 1], p, keys[i]) < |rows| - 1
    {
      FirstRowOfPresent(rows, p, keys[i]);
    }
  }

  /** First-row order survives the last row, with or without a new team
      appended. */
  lemma OrderAfterRow(rows: seq<TeamRow>, p: string, keys: seq<string>, added: seq<string>)
    requires |rows| > 0 && |added| <= 1
    requires InFirstRowOrder(rows[..|rows| - 1], p, keys)
    requires forall i :: 0 <= i < |keys| ==>
               FirstRowOf(rows, p, keys[i]) == FirstRowOf(rows[..|rows| - 1], p, keys[i]) < |rows| - 1
    requires |added| == 1 ==> FirstRowOf(rows, p, added[0]) == |rows| - 1
    ensures InFirstRowOrder(rows, p, keys + added)
  {
  }

  /** The last row of a player already seen keeps that player's teams in
      first-row order. */
  lemma AddRowKeepsOrder(rows: seq<TeamRow>, p: string)
    requires |rows| > 0 && rows[|rows| - 1].playerId == p
    requires var m := Accumulate(rows[..|rows| - 1]);
             && p in m
             && InFirstRowOrder(rows[..|rows| - 1], p, m[p].teams.keys)
             && (forall t :: t in m[p].teams.values <==> FirstRowOf(rows[..|rows| - 1], p, t) < |rows| - 1)
    ensures InFirstRowOrder(rows, p, Accumulate(rows)[p].teams.keys)
  {
    var n := |rows| - 1;
    var row := rows[n];
    var m := Accumulate(rows[..n]);
    var keys := m[p].teams.keys;
    assert Accumulate(rows) == AddRow(m, row);
    assert forall i :: 0 <= i < |keys| ==> keys[i] in m[p].teams.values.Keys;
    KeptTeamsFirstRows(rows, p, keys, m[p].teams.values.Keys);
    if row.teamId !in m[p].teams.values {
      FirstRowOfNew(rows, p, row.teamId);
      assert Accumulate(rows)[p].teams.keys == keys + [row.teamId];
      OrderAfterRow(rows, p, keys, [row.teamId]);
    } else {
      assert Accumulate(rows)[p].teams.keys == keys + [];
      OrderAfterRow(rows, p, keys, []);
    }
  }

  // ---------------------------------------------------------------------
  // Primary team

  /** The team counts in insertion order, as numbers. */
  function Counts(teams: Dict<string, int>): (xs: seq<real>)
    ensures |xs| == |teams.keys|
  {
    seq(|teams.keys|, i requires 0 <= i < |teams.keys| =>
      if teams.keys[i] in teams.values then teams.values[teams.keys[i]] as real else 0.0)
  }

  lemma CountsOf(teams: Dict<string, int>)
    requires Valid(teams)
    ensures forall i :: 0 <= i < |teams.keys| ==>
              teams.keys[i] in teams.values && Counts(teams)[i] == teams.values[teams.keys[i]] as real
    ensures forall t :: t in teams.values ==> exists i :: 0 <= i < |teams.keys| && teams.keys[i] == t
  {
    forall t | t in teams.values ensures exists i :: 0 <= i < |teams.keys| && teams.keys[i] == t {
      assert t in teams.keys;
    }
  }

  /** The second loop of `calc_player_teams` for one player: the first team,
      in insertion order, with strictly the most games; absent when no team
      has a positive count. */
  function PrimaryTeam(teams: Dict<string, int>): (r: Option<string>)
    requires Valid(teams)
    ensures r.None? <==> forall t :: t in teams.values ==> teams.values[t] <= 0
    ensures r.Some? ==> r.value in teams.values && teams.values[r.value] > 0
    ensures r.Some? ==> forall t :: t in teams.values ==> teams.values[t] <= teams.values[r.value]
    ensures r.Some? ==> forall i, j :: 0 <= j < i < |teams.keys| && teams.keys[i] == r.value ==>
              teams.values[teams.keys[j]] < teams.values[r.value]
  {
    var xs := Counts(teams);
    CountsOf(teams);
    match FirstStrictMax(xs)
    case None => None
    case Some(k) => Some(teams.keys[k])
  }

  /** `calc_player_teams`: every row read, summed per player, and each
      player's primary team chosen. */
  function CalcPlayerTeams(rows: seq<Row>): (r: Result<map<string, TeamProfile>, StageError>)
    ensures r.Success? <==> forall i :: 0 <= i < |rows| ==> ParseTeamRow(rows[i]).Success?
    ensures r.Success? ==> forall p :: p in r.value ==> Valid(r.value[p].teams)
    ensures r.Success? ==> forall p :: p in r.value ==> r.value[p].primaryTeam == PrimaryTeam(r.value[p].teams)
    ensures r.Success? ==> forall p :: p in r.value ==> r.value[p].totalGames == Sum(r.value[p].teams)
    ensures r.Success? ==> forall p :: p in r.value <==> HasId(Ids(rows), p)
  {
    var parsed :- ReadAll(rows, ParseTeamRow);
    var tallies := Accumulate(parsed);
    AccumulatePlayers(parsed);
    TotalIsSumOfTeams(parsed);
    forall p ensures p in tallies <==> HasId(Ids(rows), p) {
      if p in tallies {
        var i :| 0 <= i < |parsed| && parsed[i].playerId == p;
        assert Ids(rows)[i] == Some(p);
      }
      if HasId(Ids(rows), p) {
        var i :| 0 <= i < |rows| && Ids(rows)[i] == Some(p);
        assert parsed[i].playerId == p;
      }
    }
    Success(map p | p in tallies ::
      TeamProfile(tallies[p].totalGames, tallies[p].teams, PrimaryTeam(tallies[p].teams)))
  }

  /** Adding games to one team adds them to the sum of the counts. */
  lemma PutKeepsTotal(teams: Dict<string, int>, total: int, tid: string, prior: int, games: int)
    requires Valid(teams) && total == Sum(teams)
    requires prior == if tid in teams.values then teams.values[tid] else 0
    ensures Sum(Put(teams, tid, prior + games)) == total + games
  {
    PutSum(teams, tid, prior + games);
  }

  /** The row's player, already seen, keeps the total equal to the sum. */
  lemma SeenPlayerSum(m: map<string, Tally>, row: TeamRow)
    requires forall p :: p in m ==> Valid(m[p].teams)
    requires row.playerId in m && m[row.playerId].totalGames == Sum(m[row.playerId].teams)
    ensures AddRow(m, row)[row.playerId].totalGames == Sum(AddRow(m, row)[row.playerId].teams)
  {
    var t := m[row.playerId];
    var prior := if row.teamId in t.teams.values then t.teams.values[row.teamId] else 0;
    var after := Put(t.teams, row.teamId, prior + row.games);
    assert AddRow(m, row)[row.playerId] == Tally(t.totalGames + row.games, after);
    PutKeepsTotal(t.teams, t.totalGames, row.teamId, prior, row.games);
  }

  /** The row's player, seen for the first time, starts with the total
      equal to the sum. */
  lemma NewPlayerSum(m: map<string, Tally>, row: TeamRow)
    requires forall p :: p in m ==> Valid(m[p].teams)
    requires row.playerId !in m
    ensures AddRow(m, row)[row.playerId].totalGames == Sum(AddRow(m, row)[row.playerId].teams)
  {
    var none: Dict<string, int> := Empty();
    var after := Put(none, row.teamId, 0 + row.games);
    assert AddRow(m, row)[row.playerId] == Tally(row.games, after);
    PutKeepsTotal(none, 0, row.teamId, 0, row.games);
  }

  /** One row keeps every total equal to the sum of its team counts. */
  lemma AddRowKeepsSums(m: map<string, Tally>, row: TeamRow)
    requires forall p :: p in m ==> Valid(m[p].teams) && m[p].totalGames == Sum(m[p].teams)
    ensures forall p :: p in AddRow(m, row) ==> AddRow(m, row)[p].totalGames == Sum(AddRow(m, row)[p].teams)
  {
    if row.playerId in m {
      SeenPlayerSum(m, row);
    } else {
      NewPlayerSum(m, row);
    }
    assert forall q :: q in AddRow(m, row) && q != row.playerId ==> AddRow(m, row)[q] == m[q];
  }

  /** The total kept alongside the per-team counts equals their sum. */
  lemma {:induction false} TotalIsSumOfTeams(rows: seq<TeamRow>)
    ensures forall p :: p in Accumulate(rows) ==> Accumulate(rows)[p].totalGames == Sum(Accumulate(rows)[p].teams)
    decreases |rows|
  {
    if |rows| > 0 {
      var front := rows[..|rows| - 1];
      TotalIsSumOfTeams(front);
      assert Accumulate(rows) == AddRow(Accumulate(front), rows[|rows| - 1]);
      AddRowKeepsSums(Accumulate(front), rows[|rows| - 1]);
    }
  }

  /** For every player, the count of each team is the sum of that player's
      games over the rows naming the team, the total is the sum of all
      their games, and the teams are listed in the order the rows first
      name them. */
  lemma CalcPlayerTeamsSums(rows: seq<Row>, parsed: seq<TeamRow>)
    requires ReadAll(rows, ParseTeamRow) == Success(parsed)
    ensures CalcPlayerTeams(rows).Success?
    ensures var m := CalcPlayerTeams(rows).value;
            && (forall p :: p in m ==> m[p].totalGames == TotalFor(parsed, p))
            && (forall p, t :: p in m ==> (t in m[p].teams.values <==> FirstRowOf(parsed, p, t) < |parsed|))
            && (forall p, t :: p in m && t in m[p].teams.values ==> m[p].teams.values[t] == GamesFor(parsed, p, t))
            && (forall p :: p in m ==> InFirstRowOrder(parsed, p, m[p].teams.keys))
  {
    AccumulateTotals(parsed);
    AccumulateTeamKeys(parsed);
    AccumulateTeamGames(parsed);
    AccumulateTeamOrder(parsed);
  }
}
