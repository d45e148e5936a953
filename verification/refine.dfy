/** `refine_values`: turns a player's birth year, weight and height into
    integers and derives the debut and final years from the first four
    characters of the `debut` and `finalGame` dates.  The steps run in
    order inside one `try`, so the first one that fails leaves it and every
    later step undone; the two derived years are preset to 0. */
module Refine {
  import opened Wrappers
  import opened Text
  import opened Rows

  /** The refined values.  `None` marks a column left as it was because its
      step failed or was never reached. */
  datatype Refined = Refined(
    birthYear: Option<int>,
    weight: Option<int>,
    height: Option<int>,
    debutYear: int,
    finalYear: int)

  /** `int(float(person[column]))`, with the failure caught: how birth
      year, weight and height are refined. */
  function IntOf(person: Row, column: string): (r: Option<int>)
    ensures r.Some? <==> ReadInt(person, column).Success?
    ensures r.Some? ==> r.value == ReadInt(person, column).value
  {
    match ReadInt(person, column)
    case Success(n) => Some(n)
    case Failure(_) => None
  }

  /** `s[0:n]`: at most the first `n` characters. */
  function Prefix(s: string, n: nat): (r: string)
    ensures |r| <= n && r <= s
    ensures |s| >= n ==> |r| == n
  {
    if |s| <= n then s else s[..n]
  }

  /** `int(person[column][0:4])`, with the failure caught: the year of a
      `YYYY-MM-DD` debut or final-game date. */
  function YearOf(person: Row, column: string): (r: Option<int>)
    ensures column !in person ==> r.None?
    ensures column in person ==> r == ParseInt(Prefix(person[column], 4))
  {
    if column in person then ParseInt(Prefix(person[column], 4)) else None
  }

  /** The refinement, step by step: each step is attempted only when every
      earlier one succeeded, and a derived year stays 0 unless its own step
      and all earlier ones succeeded. */
  function RefineValues(person: Row): (r: Refined)
    ensures r.birthYear == IntOf(person, "birthYear")
    ensures r.weight.Some? <==> r.birthYear.Some? && IntOf(person, "weight").Some?
    ensures r.height.Some? <==> r.weight.Some? && IntOf(person, "height").Some?
    ensures r.weight.Some? ==> r.weight == IntOf(person, "weight")
    ensures r.height.Some? ==> r.height == IntOf(person, "height")
    ensures r.debutYear != 0 ==> r.height.Some? && YearOf(person, "debut") == Some(r.debutYear)
    ensures r.finalYear != 0 ==> r.height.Some? && YearOf(person, "debut").Some? && YearOf(person, "finalGame") == Some(r.finalYear)
    ensures r.height.Some? && YearOf(person, "debut").Some? ==> r.debutYear == YearOf(person, "debut").value
    ensures r.height.Some? && YearOf(person, "debut").Some? && YearOf(person, "finalGame").Some? ==>
              r.finalYear == YearOf(person, "finalGame").value
  {
    var start := Refined(None, None, None, 0, 0);
    match IntOf(person, "birthYear")
    case None => start
    case Some(b) =>
      match IntOf(person, "weight")
      case None => start.(birthYear := Some(b))
      case Some(w) =>
        match IntOf(person, "height")
        case None => start.(birthYear := Some(b), weight := Some(w))
        case Some(h) =>
          var measured := start.(birthYear := Some(b), weight := Some(w), height := Some(h));
          match YearOf(person, "debut")
          case None => measured
          case Some(d) =>
            match YearOf(person, "finalGame")
            case None => measured.(debutYear := d)
            case Some(f) => measured.(debutYear := d, finalYear := f)
  }

  /** A four-digit year renders as exactly four characters. */
  lemma FourDigitYear(y: int)
    requires 1000 <= y <= 9999
    ensures |IntToString(y)| == 4
  {
    assert |NatToString(y / 1000)| == 1;
    assert |NatToString(y / 100)| == 2;
    assert |NatToString(y / 10)| == 3;
  }

  /** A column holding the rendering of an integer refines to it. */
  lemma IntOfRendered(person: Row, column: string, n: int)
    requires column in person && person[column] == IntToString(n)
    ensures IntOf(person, column) == Some(n)
  {
    ParseFloatOfIntToString(n);
    assert (n as real).Floor == n;
  }

  /** A date starting with a four-digit year yields that year. */
  lemma YearOfRendered(person: Row, column: string, y: int, rest: string)
    requires 1000 <= y <= 9999
    requires column in person && person[column] == IntToString(y) + rest
    ensures YearOf(person, column) == Some(y)
  {
    FourDigitYear(y);
    assert Prefix(person[column], 4) == IntToString(y);
    ParseIntOfIntToString(y);
  }

  /** Round trip: a person whose birth year, weight and height hold the
      renderings of integers, and whose dates start with four-digit years,
      refines to exactly those numbers. */
  lemma RefineRendered(person: Row, b: int, w: int, h: int, debut: int, final: int, debutRest: string, finalRest: string)
    requires 1000 <= debut <= 9999 && 1000 <= final <= 9999
    requires person.Keys >= {"birthYear", "weight", "height", "debut", "finalGame"}
    requires person["birthYear"] == IntToString(b)
    requires person["weight"] == IntToString(w)
    requires person["height"] == IntToString(h)
    requires person["debut"] == IntToString(debut) + debutRest
    requires person["finalGame"] == IntToString(final) + finalRest
    ensures RefineValues(person) == Refined(Some(b), Some(w), Some(h), debut, final)
  {
    IntOfRendered(person, "birthYear", b);
    IntOfRendered(person, "weight", w);
    IntOfRendered(person, "height", h);
    YearOfRendered(person, "debut", debut, debutRest);
    YearOfRendered(person, "finalGame", final, finalRest);
  }
}
