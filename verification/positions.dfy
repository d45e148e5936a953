/** Primary position (`calc_player_positions`): one summed appearance row
    per player, giving games at each fielding position and games overall. */
module Positions {
  import opened Wrappers
  import opened Text
  import opened Rows
  import opened OrderedDict
  import opened Argmax
  import opened Keyed

  /** The positions in scan order; column `G_<name>` holds the games there. */
  const PositionNames: seq<string> := ["p", "c", "1b", "2b", "3b", "ss", "lf", "cf", "rf", "dh"]

  /** The column holding the games at each position, in the same order. */
  const PositionColumns: seq<string> := ["G_p", "G_c", "G_1b", "G_2b", "G_3b", "G_ss", "G_lf", "G_cf", "G_rf", "G_dh"]

  const PositionCount := 10

  /** One player's positions: `games[i]` and `percents[i]` belong to
      `PositionNames[i]`. */
  datatype PositionProfile = PositionProfile(
    gamesAll: real,
    games: seq<real>,
    percents: seq<real>,
    primaryPosition: string)

  /** The columns `cols`, in order.  Each column is read with `float()` and
      then divided by `G_all`, so a missing or non-numeric column, or a
      `G_all` of zero, stops the stage at the first column where it shows. */
  function ReadGames(row: Row, cols: seq<string>, gamesAll: real): (r: Result<seq<real>, StageError>)
    ensures r.Success? ==> |r.value| == |cols| && (|cols| > 0 ==> gamesAll != 0.0)
  {
    if |cols| == 0 then Success([])
    else
      var x := ReadReal(row, cols[0]);
      if x.Failure? then Failure(x.error)
      else if gamesAll == 0.0 then Failure(DivisionByZero("G_all"))
      else
        var rest := ReadGames(row, cols[1..], gamesAll);
        if rest.Failure? then Failure(rest.error)
        else Success([x.value] + rest.value)
  }

  /** The columns are read exactly when each is present and numeric and
      (unless there are none) `G_all` is nonzero. */
  lemma {:induction false} ReadGamesMeaning(row: Row, cols: seq<string>, gamesAll: real)
    ensures ReadGames(row, cols, gamesAll).Success? <==>
      && (|cols| > 0 ==> gamesAll != 0.0)
      && forall k :: 0 <= k < |cols| ==> ReadReal(row, cols[k]).Success?
    decreases |cols|
  {
    var r := ReadGames(row, cols, gamesAll);
    if |cols| == 0 {
      assert r.Success?;
    } else if ReadReal(row, cols[0]).Failure? {
      assert r.Failure?;
    } else if gamesAll == 0.0 {
      assert r.Failure?;
    } else {
      var rest := ReadGames(row, cols[1..], gamesAll);
      ReadGamesMeaning(row, cols[1..], gamesAll);
      assert r.Success? == rest.Success?;
      assert forall k :: 0 < k < |cols| ==> cols[k] == cols[1..][k - 1];
      if rest.Failure? {
        var j :| 0 <= j < |cols| - 1 && ReadReal(row, cols[1..][j]).Failure?;
        assert ReadReal(row, cols[j + 1]).Failure?;
      } else {
        assert forall k :: 0 <= k < |cols| ==> ReadReal(row, cols[k]).Success?;
      }
    }
  }

  /** The counts read are the parsed columns, in order. */
  lemma {:induction false} ReadGamesValues(row: Row, cols: seq<string>, gamesAll: real)
    requires ReadGames(row, cols, gamesAll).Success?
    ensures forall k :: 0 <= k < |cols| ==>
      ReadReal(row, cols[k]).Success? && ReadGames(row, cols, gamesAll).value[k] == ReadReal(row, cols[k]).value
    decreases |cols|
  {
    if |cols| > 0 {
      var x := ReadReal(row, cols[0]);
      var rest := ReadGames(row, cols[1..], gamesAll);
      ReadGamesValues(row, cols[1..], gamesAll);
      var v := [x.value] + rest.value;
      assert ReadGames(row, cols, gamesAll) == Success(v);
      assert forall k :: 0 < k < |cols| ==> cols[k] == cols[1..][k - 1] && v[k] == rest.value[k - 1];
    }
  }

  /** The profile built from `G_all` and the ten position counts. */
  function MakeProfile(gamesAll: real, games: seq<real>): (p: PositionProfile)
    requires gamesAll != 0.0 && |games| == PositionCount
    ensures p.gamesAll == gamesAll && p.games == games
    ensures |p.percents| == PositionCount
    ensures forall k :: 0 <= k < PositionCount ==> p.percents[k] * gamesAll == games[k]
    ensures p.primaryPosition == PrimaryPosition(games)
  {
    PositionProfile(gamesAll, games, Shares(games, gamesAll), PrimaryPosition(games))
  }

  /** Each count divided by a nonzero whole: multiplying a share back by the
      whole restores its count. */
  function Shares(counts: seq<real>, whole: real): (r: seq<real>)
    requires whole != 0.0
    ensures |r| == |counts|
    ensures forall k :: 0 <= k < |counts| ==> r[k] * whole == counts[k]
  {
    if |counts| == 0 then []
    else
      var last := counts[|counts| - 1];
      ShareTimesWhole(last, whole);
      Shares(counts[..|counts| - 1], whole) + [last / whole]
  }

  /** The primary position: the upper-case name of the first position, in
      scan order, with strictly the most games; `?` when no position has a
      positive count. */
  function PrimaryPosition(games: seq<real>): (r: string)
    requires |games| == PositionCount
    ensures r == "?" <==> forall k :: 0 <= k < PositionCount ==> games[k] <= 0.0
    ensures forall k: nat :: IsFirstStrictMax(games, k) ==> r == Upper(PositionNames[k])
  {
    match FirstStrictMax(games)
    case None => "?"
    case Some(k) =>
      FirstStrictMaxUnique(games, k);
      assert Upper(PositionNames[k])[0] != '?';
      Upper(PositionNames[k])
  }

  /** One row of the loop: the player id, then `G_all`, then the ten
      position columns. */
  function ReadPositionRow(row: Row): (r: Read<PositionProfile>)
    ensures r.Success? <==>
      && "playerID" in row
      && ReadReal(row, "G_all").Success?
      && ReadGames(row, PositionColumns, ReadReal(row, "G_all").value).Success?
    ensures r.Success? ==>
      r.value == Some((row["playerID"],
        MakeProfile(ReadReal(row, "G_all").value, ReadGames(row, PositionColumns, ReadReal(row, "G_all").value).value)))
  {
    var pid :- Field(row, "playerID");
    var gamesAll :- ReadReal(row, "G_all");
    var games :- ReadGames(row, PositionColumns, gamesAll);
    Success(Some((pid, MakeProfile(gamesAll, games))))
  }

  /** `calc_player_positions`: a profile per player id, later rows replacing
      earlier ones; any unreadable row stops the stage. */
  function CalcPlayerPositions(rows: seq<Row>): (r: Result<Dict<string, PositionProfile>, StageError>)
    ensures r.Success? <==> forall i :: 0 <= i < |rows| ==> ReadPositionRow(rows[i]).Success?
    ensures r.Success? ==> Valid(r.value)
  {
    Collect(rows, ReadPositionRow)
  }

  /** On success every row had an id; the profiles are keyed by exactly
      those ids, and each id's profile is read from its last row. */
  lemma CalcPlayerPositionsKeys(rows: seq<Row>)
    requires CalcPlayerPositions(rows).Success?
    ensures var d := CalcPlayerPositions(rows).value;
            && (forall i :: 0 <= i < |rows| ==> PlayerId(rows[i]).Some?)
            && (forall k :: k in d.values <==> HasId(Ids(rows), k))
            && (forall k :: k in d.values ==>
                  LastIndex(Ids(rows), k) >= 0 &&
                  Some((k, d.values[k])) == ReadPositionRow(rows[LastIndex(Ids(rows), k)]).value)
  {
    CollectKeys(rows, ReadPositionRow);
    CollectLastWins(rows, ReadPositionRow);
    assert Keys(rows, ReadPositionRow) == Ids(rows);
  }
}
