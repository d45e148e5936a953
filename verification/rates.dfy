/** Rate derivation (`calc_batters_stats`, `calc_pitchers_stats`): one
    summed batting or pitching row per player, with a `calculated` map of
    rates derived from its counts.  Every count is read with `float_value`,
    so a missing or non-numeric count reads as 0. */
module Rates {
  import opened Wrappers
  import opened Text
  import opened Rows
  import opened OrderedDict
  import opened Keyed

  /** A player's summed row and the rates derived from it. */
  datatype StatLine = StatLine(fields: Row, calculated: map<string, real>)

  // ---------------------------------------------------------------------
  // Batting

  /** The batting counts, each read with `float_value` (default 0). */
  datatype BattingCounts = BattingCounts(
    ab: real, r: real, h: real, doubles: real, triples: real, hr: real,
    rbi: real, bb: real, so: real, ibb: real, hbp: real)

  function ReadBattingCounts(row: Row): BattingCounts {
    BattingCounts(
      FloatValue(row, "AB", 0.0), FloatValue(row, "R", 0.0), FloatValue(row, "H", 0.0),
      FloatValue(row, "2B", 0.0), FloatValue(row, "3B", 0.0), FloatValue(row, "HR", 0.0),
      FloatValue(row, "RBI", 0.0), FloatValue(row, "BB", 0.0), FloatValue(row, "SO", 0.0),
      FloatValue(row, "IBB", 0.0), FloatValue(row, "HBP", 0.0))
  }

  const BattingKeys: set<string> := {
    "runs_per_ab", "batting_avg", "2b_avg", "3b_avg", "hr_avg",
    "rbi_avg", "bb_avg", "so_avg", "ibb_avg", "hbp_avg"}

  /** The batting rates: none at all unless at-bats are positive, and then
      exactly the ten rates, each of which times at-bats gives back the
      count it was derived from. */
  function BattingCalculated(c: BattingCounts): (m: map<string, real>)
    ensures m == map[] <==> c.ab <= 0.0
    ensures c.ab > 0.0 ==>
      && m.Keys == BattingKeys
      && m["runs_per_ab"] * c.ab == c.r
      && m["batting_avg"] * c.ab == c.h
      && m["2b_avg"] * c.ab == c.doubles
      && m["3b_avg"] * c.ab == c.triples
      && m["hr_avg"] * c.ab == c.hr
      && m["rbi_avg"] * c.ab == c.rbi
      && m["bb_avg"] * c.ab == c.bb
      && m["so_avg"] * c.ab == c.so
      && m["ibb_avg"] * c.ab == c.ibb
      && m["hbp_avg"] * c.ab == c.hbp
  {
    if c.ab > 0.0 then
      map["runs_per_ab" := c.r / c.ab]["batting_avg" := c.h / c.ab]
         ["2b_avg" := c.doubles / c.ab]["3b_avg" := c.triples / c.ab]
         ["hr_avg" := c.hr / c.ab]["rbi_avg" := c.rbi / c.ab]
         ["bb_avg" := c.bb / c.ab]["so_avg" := c.so / c.ab]
         ["ibb_avg" := c.ibb / c.ab]["hbp_avg" := c.hbp / c.ab]
    else map[]
  }

  /** One batting row: filed under its player id, or skipped when it has
      none (the `KeyError` is caught before the row is stored). */
  function BatterEntry(row: Row): (r: Read<StatLine>)
    ensures r.Success?
    ensures KeyOf(r) == PlayerId(row)
  {
    match PlayerId(row)
    case None => Success(None)
    case Some(pid) => Success(Some((pid, StatLine(row, BattingCalculated(ReadBattingCounts(row))))))
  }

  /** `calc_batters_stats`. */
  function CalcBatters(rows: seq<Row>): (d: Dict<string, StatLine>)
    ensures Valid(d)
  {
    Collect(rows, BatterEntry).value
  }

  /** The batting lines are keyed by exactly the ids of the rows, and each
      id's line is its last row together with that row's rates. */
  lemma CalcBattersKeys(rows: seq<Row>)
    ensures var d := CalcBatters(rows);
            && (forall k :: k in d.values <==> HasId(Ids(rows), k))
            && (forall k :: k in d.values ==>
                  LastIndex(Ids(rows), k) >= 0 &&
                  d.values[k] == StatLine(rows[LastIndex(Ids(rows), k)], BattingCalculated(ReadBattingCounts(rows[LastIndex(Ids(rows), k)]))))
  {
    CollectKeys(rows, BatterEntry);
    CollectLastWins(rows, BatterEntry);
    assert Keys(rows, BatterEntry) == Ids(rows);
  }

  // ---------------------------------------------------------------------
  // Pitching

  /** The pitching counts, each read with `float_value` (default 0). */
  datatype PitchingCounts = PitchingCounts(
    w: real, l: real, er: real, gs: real, cg: real, sho: real,
    h: real, bb: real, so: real, ipOuts: real, hr: real, hbp: real)

  function ReadPitchingCounts(row: Row): PitchingCounts {
    PitchingCounts(
      FloatValue(row, "W", 0.0), FloatValue(row, "L", 0.0), FloatValue(row, "ER", 0.0),
      FloatValue(row, "GS", 0.0), FloatValue(row, "CG", 0.0), FloatValue(row, "SHO", 0.0),
      FloatValue(row, "H", 0.0), FloatValue(row, "BB", 0.0), FloatValue(row, "SO", 0.0),
      FloatValue(row, "IPouts", 0.0), FloatValue(row, "HR", 0.0), FloatValue(row, "HBP", 0.0))
  }

  /** The rates per batter faced and per decision or start. */
  const FacedKeys: set<string> := {"bb_pct", "so_pct", "hbp_pct", "hr_pct", "win_pct", "sho_pct", "cg_pct"}

  const PitchingKeys: set<string> := {"full_games_pitched_equiv", "era", "opp_batting_avg"} + FacedKeys

  /** Batters faced: outs, hits, walks and hit batsmen. */
  function BattersFaced(c: PitchingCounts): real {
    c.ipOuts + c.h + c.bb + c.hbp
  }

  /** The pitching rates.  Nothing is derived unless outs are positive.
      Past that guard the map is filled in order, and a zero `IPouts+H` or
      `IPouts+H+BB+HBP` (possible only with negative counts) raises
      `ZeroDivisionError`, which the stage catches: the rates stored
      before it stay, the rest are missing. */
  function PitchingCalculated(c: PitchingCounts): (m: map<string, real>)
    ensures m == map[] <==> c.ipOuts <= 0.0
    ensures c.ipOuts > 0.0 ==>
      forall k :: k in OutsRates(c) ==> k in m && m[k] == OutsRates(c)[k]
    ensures c.ipOuts > 0.0 && c.ipOuts + c.h == 0.0 ==>
      m.Keys == {"full_games_pitched_equiv", "era"}
    ensures c.ipOuts > 0.0 && c.ipOuts + c.h != 0.0 ==>
      "opp_batting_avg" in m && m["opp_batting_avg"] * (c.ipOuts + c.h) == c.h
    ensures c.ipOuts > 0.0 && c.ipOuts + c.h != 0.0 && BattersFaced(c) == 0.0 ==>
      m.Keys == {"full_games_pitched_equiv", "era", "opp_batting_avg"}
    ensures c.ipOuts > 0.0 && c.ipOuts + c.h != 0.0 && BattersFaced(c) != 0.0 ==>
      && m.Keys == PitchingKeys
      && forall k :: k in FacedKeys ==> m[k] == FacedRates(c, BattersFaced(c))[k]
  {
    if c.ipOuts <= 0.0 then map[]
    else
      var m0 := OutsRates(c);
      var officialAtBats := c.ipOuts + c.h;
      if officialAtBats == 0.0 then m0
      else
        ShareTimesWhole(c.h, officialAtBats);
        var m1 := m0["opp_batting_avg" := c.h / officialAtBats];
        var allAtBats := officialAtBats + c.bb + c.hbp;
        if allAtBats == 0.0 then m1
        else
          var faced := FacedRates(c, allAtBats);
          assert m1.Keys == {"full_games_pitched_equiv", "era", "opp_batting_avg"};
          assert (m1 + faced).Keys == PitchingKeys;
          m1 + faced
  }

  /** The first two rates, stored before any division that can fail. */
  function OutsRates(c: PitchingCounts): (m: map<string, real>)
    requires c.ipOuts > 0.0
    ensures m.Keys == {"full_games_pitched_equiv", "era"}
    ensures m["full_games_pitched_equiv"] * 27.0 == c.ipOuts
    ensures m["era"] == 27.0 * c.er / c.ipOuts
  {
    var fge := c.ipOuts / 27.0;
    ShareTimesWhole(c.ipOuts, 27.0);
    EraOfOuts(c.er, c.ipOuts);
    map["full_games_pitched_equiv" := fge, "era" := c.er / fge]
  }

  /** The rates stored once the batters faced are known to be nonzero;
      the win, shutout and complete-game rates fall back to 0 instead of
      dividing by zero. */
  function FacedRates(c: PitchingCounts, faced: real): (m: map<string, real>)
    requires faced != 0.0
    ensures m.Keys == FacedKeys
    ensures m["so_pct"] * faced == c.so && m["bb_pct"] * faced == c.bb
    ensures m["hbp_pct"] * faced == c.hbp && m["hr_pct"] * faced == c.hr
    ensures c.w + c.l > 0.0 ==> m["win_pct"] * (c.w + c.l) == c.w && m["sho_pct"] * (c.w + c.l) == c.sho
    ensures c.w + c.l <= 0.0 ==> m["win_pct"] == 0.0 && m["sho_pct"] == 0.0
    ensures c.gs > 0.0 ==> m["cg_pct"] * c.gs == c.cg
    ensures c.gs <= 0.0 ==> m["cg_pct"] == 0.0
  {
    ShareTimesWhole(c.bb, faced);
    ShareTimesWhole(c.so, faced);
    ShareTimesWhole(c.hbp, faced);
    ShareTimesWhole(c.hr, faced);
    var decisions := c.w + c.l;
    var win := if decisions > 0.0 then ShareTimesWhole(c.w, decisions); c.w / decisions else 0.0;
    var sho := if decisions > 0.0 then ShareTimesWhole(c.sho, decisions); c.sho / decisions else 0.0;
    var cg := if c.gs > 0.0 then ShareTimesWhole(c.cg, c.gs); c.cg / c.gs else 0.0;
    map[
      "bb_pct" := c.bb / faced, "so_pct" := c.so / faced,
      "hbp_pct" := c.hbp / faced, "hr_pct" := c.hr / faced,
      "win_pct" := win, "sho_pct" := sho, "cg_pct" := cg]
  }

  /** Earned runs over full games (outs over 27) is 27 times earned runs
      over outs. */
  lemma EraOfOuts(er: real, outs: real)
    requires outs != 0.0
    ensures er / (outs / 27.0) == 27.0 * er / outs
  {
  }

  /** With no negative hit, walk or hit-batsman count (as in any real
      record), positive outs give all ten pitching rates. */
  lemma PitchingCompleteForNaturalCounts(c: PitchingCounts)
    requires c.ipOuts > 0.0 && c.h >= 0.0 && c.bb >= 0.0 && c.hbp >= 0.0
    ensures PitchingCalculated(c).Keys == PitchingKeys
    ensures PitchingCalculated(c)["opp_batting_avg"] == c.h / (c.ipOuts + c.h)
    ensures PitchingCalculated(c)["so_pct"] == c.so / BattersFaced(c)
  {
    var m := PitchingCalculated(c);
    assert c.ipOuts + c.h != 0.0 && BattersFaced(c) != 0.0;
    assert "so_pct" in FacedKeys;
    ShareIsQuotient(m["opp_batting_avg"], c.ipOuts + c.h, c.h);
    ShareIsQuotient(m["so_pct"], BattersFaced(c), c.so);
  }

  /** One pitching row: filed under its player id, or skipped when it has
      none. */
  function PitcherEntry(row: Row): (r: Read<StatLine>)
    ensures r.Success?
    ensures KeyOf(r) == PlayerId(row)
  {
    match PlayerId(row)
    case None => Success(None)
    case Some(pid) => Success(Some((pid, StatLine(row, PitchingCalculated(ReadPitchingCounts(row))))))
  }

  /** `calc_pitchers_stats`. */
  function CalcPitchers(rows: seq<Row>): (d: Dict<string, StatLine>)
    ensures Valid(d)
  {
    Collect(rows, PitcherEntry).value
  }

  /** The pitching lines are keyed by exactly the ids of the rows, and each
      id's line is its last row together with that row's rates. */
  lemma CalcPitchersKeys(rows: seq<Row>)
    ensures var d := CalcPitchers(rows);
            && (forall k :: k in d.values <==> HasId(Ids(rows), k))
            && (forall k :: k in d.values ==>
                  var i := LastIndex(Ids(rows), k);
                  i >= 0 && d.values[k] == StatLine(rows[i], PitchingCalculated(ReadPitchingCounts(rows[i]))))
  {
    CollectKeys(rows, PitcherEntry);
    CollectLastWins(rows, PitcherEntry);
    assert Keys(rows, PitcherEntry) == Ids(rows);
  }
}
