/** The embedding text of a document (`calculate_embeddings_string_value`
    and its two encoders).  Both encoders collect tokens in a fixed order
    and join them with single spaces.  A missing key raises inside the
    encoder's `try`: when it is the category, the text is never assigned;
    anywhere later, the text stays the empty string assigned just after the
    category was read. */
module Embeddings {
  import opened Wrappers
  import opened Text
  import opened Rows
  import opened Rates
  import opened Labels
  import opened PlayerDocument

  const BinnedText := "binned-text"
  const RawNumbers := "raw-numbers"

  // ---------------------------------------------------------------------
  // Binned text

  /** One entry of the binned encoder's token list, before rendering: the
      bare category, or a call to one of the three label makers with the
      arguments the encoder passes it. */
  datatype Token =
    | Bare(text: string)
    | Labeled(stat: string, value: string)
    | Scaled(stat: string, amount: real, multiplier: real)
    | Binned(rates: map<string, real>, stat: string, binFactor: int)

  /** The text of one token. */
  function Render(t: Token): string {
    match t
    case Bare(text) => text
    case Labeled(stat, value) => TextLabel(stat, value)
    case Scaled(stat, amount, multiplier) => FloatLabel(stat, amount, multiplier)
    case Binned(rates, stat, binFactor) => BinnedLabel(rates, stat, binFactor)
  }

  /** The texts of a token list, in order. */
  function RenderAll(ts: seq<Token>): (r: seq<string>)
    ensures |r| == |ts|
    ensures forall i :: 0 <= i < |ts| ==> r[i] == Render(ts[i])
  {
    seq(|ts|, i requires 0 <= i < |ts| => Render(ts[i]))
  }

  /** The binned pitching rates, in token order, with their bin factors. */
  const PitchingBins: seq<(string, int)> := [
    ("opp_batting_avg", 1000), ("so_pct", 1000), ("bb_pct", 1000), ("hbp_pct", 1000),
    ("hr_pct", 1000), ("win_pct", 100), ("sho_pct", 100), ("cg_pct", 100)]

  /** The binned batting rates, in token order, with their bin factors. */
  const BattingBins: seq<(string, int)> := [
    ("batting_avg", 1000), ("runs_per_ab", 1000), ("2b_avg", 1000), ("3b_avg", 1000),
    ("hr_avg", 1000), ("rbi_avg", 1000), ("bb_avg", 1000), ("so_avg", 1000),
    ("ibb_avg", 1000), ("hbp_avg", 1000)]

  /** One binned token per entry of a table of rates and bin factors, in
      table order; none of them can fail. */
  function BinnedRates(rates: map<string, real>, bins: seq<(string, int)>): (r: seq<Token>)
    ensures |r| == |bins|
    ensures forall i :: 0 <= i < |bins| ==> r[i] == Binned(rates, bins[i].0, bins[i].1)
  {
    seq(|bins|, i requires 0 <= i < |bins| => Binned(rates, bins[i].0, bins[i].1))
  }

  /** The five tokens every category starts with: the bare category, then
      the labeled primary position, total games, batting side and throwing
      hand.  Absent when the person lacks `bats` or `throws`. */
  function CommonTokens(doc: Document, category: string): (r: Option<seq<Token>>)
    ensures r.Some? <==> "bats" in doc.person && "throws" in doc.person
    ensures r.Some? ==>
      && |r.value| == 5
      && r.value[0] == Bare(category)
      && r.value[1] == Labeled("primary_position", doc.primaryPosition)
      && r.value[2] == Labeled("total_games", IntToString(doc.teams.totalGames))
      && r.value[3] == Labeled("bats", doc.person["bats"])
      && r.value[4] == Labeled("throws", doc.person["throws"])
  {
    if "bats" in doc.person && "throws" in doc.person then
      Some([Bare(category),
            Labeled("primary_position", doc.primaryPosition),
            Labeled("total_games", IntToString(doc.teams.totalGames)),
            Labeled("bats", doc.person["bats"]),
            Labeled("throws", doc.person["throws"])])
    else None
  }

  /** The twelve pitching tokens: wins, losses, full games pitched (to the
      unit), ERA (to the thousandth), then the eight binned rates.  Absent
      when the pitching line, `W`, `L`, or either of the two unbinned rates
      is missing; a missing binned rate is only an empty token. */
  function PitcherTokens(doc: Document): (r: Option<seq<Token>>)
    ensures r.Some? <==>
      && doc.pitching.Some?
      && "W" in doc.pitching.value.fields && "L" in doc.pitching.value.fields
      && "full_games_pitched_equiv" in doc.pitching.value.calculated
      && "era" in doc.pitching.value.calculated
    ensures r.Some? ==>
      var line := doc.pitching.value;
      && |r.value| == 12
      && r.value[0] == Labeled("wins", line.fields["W"])
      && r.value[1] == Labeled("losses", line.fields["L"])
      && r.value[2] == Scaled("full_games_pitched_equiv", line.calculated["full_games_pitched_equiv"], 1.0)
      && r.value[3] == Scaled("era", line.calculated["era"], 1000.0)
      && forall i :: 0 <= i < |PitchingBins| ==>
           r.value[4 + i] == Binned(line.calculated, PitchingBins[i].0, PitchingBins[i].1)
  {
    match doc.pitching
    case None => None
    case Some(line) =>
      var rates := line.calculated;
      if "W" in line.fields && "L" in line.fields
         && "full_games_pitched_equiv" in rates && "era" in rates then
        Some([Labeled("wins", line.fields["W"]),
              Labeled("losses", line.fields["L"]),
              Scaled("full_games_pitched_equiv", rates["full_games_pitched_equiv"], 1.0),
              Scaled("era", rates["era"], 1000.0)]
             + BinnedRates(rates, PitchingBins))
      else None
  }

  /** The twelve batting tokens: hits, home runs, then the ten binned
      rates.  Absent when the batting line, `H` or `HR` is missing; a
      missing rate is only an empty token. */
  function BatterTokens(doc: Document): (r: Option<seq<Token>>)
    ensures r.Some? <==>
      doc.batting.Some? && "H" in doc.batting.value.fields && "HR" in doc.batting.value.fields
    ensures r.Some? ==>
      var line := doc.batting.value;
      && |r.value| == 12
      && r.value[0] == Labeled("hits", line.fields["H"])
      && r.value[1] == Labeled("hr", line.fields["HR"])
      && forall i :: 0 <= i < |BattingBins| ==>
           r.value[2 + i] == Binned(line.calculated, BattingBins[i].0, BattingBins[i].1)
  {
    match doc.batting
    case None => None
    case Some(line) =>
      if "H" in line.fields && "HR" in line.fields then
        Some([Labeled("hits", line.fields["H"]), Labeled("hr", line.fields["HR"])]
             + BinnedRates(line.calculated, BattingBins))
      else None
  }

  /** The tokens of the role part: pitching for the category `pitcher`,
      batting for any other. */
  function RoleTokens(doc: Document, category: string): Option<seq<Token>> {
    if category == Pitcher then PitcherTokens(doc) else BatterTokens(doc)
  }

  /** All seventeen tokens: the common five, then the twelve of the role. */
  function BinnedTokens(doc: Document, category: string): (r: Option<seq<Token>>)
    ensures r.Some? <==> CommonTokens(doc, category).Some? && RoleTokens(doc, category).Some?
    ensures r.Some? ==>
      && |r.value| == 17
      && r.value[..5] == CommonTokens(doc, category).value
      && r.value[5..] == RoleTokens(doc, category).value
  {
    var common :- CommonTokens(doc, category);
    var role :- RoleTokens(doc, category);
    Some(common + role)
  }

  /** `calculate_embeddings_string_value_with_binned_text`. */
  function BinnedEmbeddings(doc: Document): (r: Option<string>)
    ensures r.None? <==> doc.category.None?
    ensures doc.category.Some? && BinnedTokens(doc, doc.category.value).None? ==> r == Some("")
    ensures doc.category.Some? && BinnedTokens(doc, doc.category.value).Some? ==>
      r == Some(Join(RenderAll(BinnedTokens(doc, doc.category.value).value), ' '))
  {
    match doc.category
    case None => None
    case Some(category) =>
      match BinnedTokens(doc, category)
      case None => Some("")
      case Some(tokens) => Some(Join(RenderAll(tokens), ' '))
  }

  /** The text a token copies from its arguments has no space. */
  predicate SpaceFree(t: Token) {
    match t
    case Bare(text) => ' ' !in text
    case Labeled(stat, value) => ' ' !in stat && ' ' !in value
    case Scaled(stat, _, _) => ' ' !in stat
    case Binned(_, stat, _) => ' ' !in stat
  }

  /** A token renders without spaces when its copied text has none: the
      label makers add only `_`, digits, `-` and `?`. */
  lemma RenderNoSpace(t: Token)
    requires SpaceFree(t)
    ensures ' ' !in Render(t)
  {
    match t
    case Bare(_) =>
    case Labeled(stat, value) => TextLabelNoSpace(stat, value);
    case Scaled(stat, amount, multiplier) => FloatLabelNoSpace(stat, amount, multiplier);
    case Binned(rates, stat, binFactor) => BinnedLabelNoSpace(rates, stat, binFactor);
  }

  /** The inputs the encoder copies into its tokens have no inner spaces. */
  predicate SpaceFreeInputs(doc: Document, category: string) {
    && ' ' !in category
    && ' ' !in doc.primaryPosition
    && ("bats" in doc.person ==> ' ' !in doc.person["bats"])
    && ("throws" in doc.person ==> ' ' !in doc.person["throws"])
    && (doc.pitching.Some? ==>
          ("W" in doc.pitching.value.fields ==> ' ' !in doc.pitching.value.fields["W"]) &&
          ("L" in doc.pitching.value.fields ==> ' ' !in doc.pitching.value.fields["L"]))
    && (doc.batting.Some? ==>
          ("H" in doc.batting.value.fields ==> ' ' !in doc.batting.value.fields["H"]) &&
          ("HR" in doc.batting.value.fields ==> ' ' !in doc.batting.value.fields["HR"]))
  }

  /** The five common tokens are space-free when the copied inputs are. */
  lemma CommonSpaceFree(doc: Document, category: string)
    requires SpaceFreeInputs(doc, category) && CommonTokens(doc, category).Some?
    ensures forall i :: 0 <= i < 5 ==> SpaceFree(CommonTokens(doc, category).value[i])
  {
    IntToStringHasNoSpace(doc.teams.totalGames);
  }

  /** A binned token's stat is taken from the table. */
  lemma BinsSpaceFree(rates: map<string, real>, bins: seq<(string, int)>)
    requires forall i :: 0 <= i < |bins| ==> ' ' !in bins[i].0
    ensures forall i :: 0 <= i < |bins| ==> SpaceFree(BinnedRates(rates, bins)[i])
  {
  }

  /** The stat names of the pitching tokens hold no space. */
  lemma PitchingStatsSpaceFree()
    ensures ' ' !in "wins" && ' ' !in "losses" && ' ' !in "full_games_pitched_equiv" && ' ' !in "era"
    ensures forall i :: 0 <= i < |PitchingBins| ==> ' ' !in PitchingBins[i].0
  {
  }

  /** The stat names of the batting tokens hold no space. */
  lemma BattingStatsSpaceFree()
    ensures ' ' !in "hits" && ' ' !in "hr"
    ensures forall i :: 0 <= i < |BattingBins| ==> ' ' !in BattingBins[i].0
  {
  }

  lemma PitcherSpaceFree(doc: Document)
    requires SpaceFreeInputs(doc, Pitcher) && PitcherTokens(doc).Some?
    ensures forall i :: 0 <= i < 12 ==> SpaceFree(PitcherTokens(doc).value[i])
  {
    var role := PitcherTokens(doc).value;
    var line := doc.pitching.value;
    var bins := BinnedRates(line.calculated, PitchingBins);
    PitchingStatsSpaceFree();
    BinsSpaceFree(line.calculated, PitchingBins);
    assert forall i :: 4 <= i < 12 ==> role[i] == bins[i - 4];
  }

  lemma BatterSpaceFree(doc: Document, category: string)
    requires SpaceFreeInputs(doc, category) && BatterTokens(doc).Some?
    ensures forall i :: 0 <= i < 12 ==> SpaceFree(BatterTokens(doc).value[i])
  {
    var role := BatterTokens(doc).value;
    var line := doc.batting.value;
    var bins := BinnedRates(line.calculated, BattingBins);
    BattingStatsSpaceFree();
    BinsSpaceFree(line.calculated, BattingBins);
    assert forall i :: 2 <= i < 12 ==> role[i] == bins[i - 2];
  }

  /** The twelve role tokens are space-free when the copied inputs are. */
  lemma RoleSpaceFree(doc: Document, category: string)
    requires SpaceFreeInputs(doc, category) && RoleTokens(doc, category).Some?
    ensures forall i :: 0 <= i < 12 ==> SpaceFree(RoleTokens(doc, category).value[i])
  {
    if category == Pitcher {
      PitcherSpaceFree(doc);
    } else {
      BatterSpaceFree(doc, category);
    }
  }

  /** With space-free inputs every token is space-free. */
  lemma TokensSpaceFree(doc: Document, category: string)
    requires SpaceFreeInputs(doc, category) && BinnedTokens(doc, category).Some?
    ensures forall i :: 0 <= i < 17 ==> SpaceFree(BinnedTokens(doc, category).value[i])
  {
    var tokens := BinnedTokens(doc, category).value;
    var common := CommonTokens(doc, category).value;
    var role := RoleTokens(doc, category).value;
    CommonSpaceFree(doc, category);
    RoleSpaceFree(doc, category);
    assert forall i :: 0 <= i < 5 ==> tokens[i] == tokens[..5][i] == common[i];
    assert forall i :: 5 <= i < 17 ==> tokens[i] == tokens[5..][i - 5] == role[i - 5];
  }

  /** When the copied inputs have no inner spaces, splitting the embedding
      text on spaces gives back exactly the seventeen rendered tokens, empty
      ones included, the bare category first. */
  lemma BinnedSeventeenFields(doc: Document)
    requires doc.category.Some? && BinnedTokens(doc, doc.category.value).Some?
    requires SpaceFreeInputs(doc, doc.category.value)
    ensures var tokens := RenderAll(BinnedTokens(doc, doc.category.value).value);
            && Split(BinnedEmbeddings(doc).value, ' ') == tokens
            && |tokens| == 17
            && tokens[0] == doc.category.value
  {
    var category := doc.category.value;
    var ts := BinnedTokens(doc, category).value;
    var tokens := RenderAll(ts);
    TokensSpaceFree(doc, category);
    forall i | 0 <= i < 17 ensures ' ' !in tokens[i] {
      RenderNoSpace(ts[i]);
    }
    assert ts[0] == CommonTokens(doc, category).value[0];
    SplitJoin(tokens, ' ');
  }

  /** `n` empty tokens joined after a non-empty list add `n` spaces. */
  lemma {:induction false} JoinEmptyTokens(xs: seq<string>, n: nat)
    requires |xs| > 0
    ensures Join(xs + Repeat(n, ""), ' ') == Join(xs, ' ') + Repeat(n, ' ')
  {
    if n > 0 {
      JoinEmptyTokens(xs, n - 1);
      assert xs + Repeat(n, "") == (xs + Repeat(n - 1, "")) + [""];
      JoinSnoc(xs + Repeat(n - 1, ""), "", ' ');
    } else {
      assert xs + Repeat(n, "") == xs;
    }
  }

  /** A list whose tokens from `k` on are empty joins to its first `k`
      tokens followed by one space per empty token. */
  lemma JoinEmptyTail(tokens: seq<string>, k: nat)
    requires 0 < k <= |tokens|
    requires forall i :: k <= i < |tokens| ==> tokens[i] == ""
    ensures Join(tokens, ' ') == Join(tokens[..k], ' ') + Repeat(|tokens| - k, ' ')
  {
    var blanks := Repeat(|tokens| - k, "");
    assert forall i :: 0 <= i < |tokens| ==> tokens[i] == (tokens[..k] + blanks)[i];
    assert tokens == tokens[..k] + blanks;
    JoinEmptyTokens(tokens[..k], |tokens| - k);
  }

  /** Over an empty rate map every binned token renders empty. */
  lemma EmptyRatesRenderEmpty(bins: seq<(string, int)>)
    ensures forall i :: 0 <= i < |bins| ==> Render(BinnedRates(map[], bins)[i]) == ""
  {
    forall i | 0 <= i < |bins| ensures Render(BinnedRates(map[], bins)[i]) == "" {
      BinnedLabelValue(map[], bins[i].0, bins[i].1);
    }
  }

  /** Without batting rates, the ten rate tokens of a batter render empty. */
  lemma BatterRateTokensEmpty(doc: Document)
    requires BatterTokens(doc).Some? && doc.batting.value.calculated == map[]
    ensures forall i :: 2 <= i < 12 ==> Render(BatterTokens(doc).value[i]) == ""
  {
    var role := BatterTokens(doc).value;
    var bins := BinnedRates(map[], BattingBins);
    EmptyRatesRenderEmpty(BattingBins);
    assert forall i :: 2 <= i < 12 ==> role[i] == bins[i - 2];
  }

  /** Without batting rates, the last ten of a batter's seventeen tokens
      render empty. */
  lemma BatterTailEmpty(doc: Document, category: string)
    requires category != Pitcher && BinnedTokens(doc, category).Some?
    requires doc.batting.value.calculated == map[]
    ensures forall i :: 7 <= i < 17 ==> Render(BinnedTokens(doc, category).value[i]) == ""
  {
    var ts := BinnedTokens(doc, category).value;
    BatterRateTokensEmpty(doc);
    assert forall i :: 7 <= i < 17 ==> ts[i] == ts[5..][i - 5];
  }

  /** A batter without rates (at-bats not positive) still gets all ten
      rate tokens, each empty, so the text ends in ten spaces after the
      home-run token: nothing drops the missing stats. */
  lemma MissingRatesStillJoined(doc: Document)
    requires doc.category.Some? && doc.category.value != Pitcher
    requires BinnedTokens(doc, doc.category.value).Some?
    requires doc.batting.value.calculated == map[]
    ensures BinnedEmbeddings(doc) ==
              Some(Join(RenderAll(BinnedTokens(doc, doc.category.value).value)[..7], ' ') + Repeat(10, ' '))
  {
    BatterTailEmpty(doc, doc.category.value);
    RenderEmptyTail(BinnedTokens(doc, doc.category.value).value);
  }

  /** Seventeen tokens whose last ten render empty join to the first seven
      followed by ten spaces. */
  lemma RenderEmptyTail(ts: seq<Token>)
    requires |ts| == 17
    requires forall i :: 7 <= i < 17 ==> Render(ts[i]) == ""
    ensures Join(RenderAll(ts), ' ') == Join(RenderAll(ts)[..7], ' ') + Repeat(10, ' ')
  {
    JoinEmptyTail(RenderAll(ts), 7);
  }

  /** A pitcher without rates (outs not positive) gets the empty text: the
      full-games token reads a rate that is not there. */
  lemma PitcherWithoutRatesIsEmpty(doc: Document)
    requires doc.category == Some(Pitcher)
    requires doc.pitching.Some? && doc.pitching.value.calculated == map[]
    ensures BinnedEmbeddings(doc) == Some("")
  {
  }

  // ---------------------------------------------------------------------
  // Raw numbers

  /** The pitching rates in the raw encoder's order. */
  const RawPitchingRates: seq<string> := [
    "full_games_pitched_equiv", "era", "opp_batting_avg", "so_pct", "bb_pct",
    "hbp_pct", "hr_pct", "win_pct", "sho_pct", "cg_pct"]

  /** The batting rates in the raw encoder's order. */
  const RawBattingRates: seq<string> := [
    "batting_avg", "runs_per_ab", "2b_avg", "3b_avg", "hr_avg",
    "rbi_avg", "bb_avg", "so_avg", "ibb_avg", "hbp_avg"]

  /** Each named rate rendered with `render` (standing for `str` on a
      float), in order; absent as soon as one is missing. */
  function RenderRates(rates: map<string, real>, keys: seq<string>, render: real -> string): (r: Option<seq<string>>)
    ensures r.Some? <==> forall i :: 0 <= i < |keys| ==> keys[i] in rates
    ensures r.Some? ==> |r.value| == |keys|
    ensures r.Some? ==> forall i :: 0 <= i < |keys| ==> r.value[i] == render(rates[keys[i]])
  {
    if |keys| == 0 then Some([])
    else
      var n := |keys| - 1;
      assert forall i :: 0 <= i < n ==> keys[..n][i] == keys[i];
      match RenderRates(rates, keys[..n], render)
      case None => None
      case Some(front) =>
        if keys[n] in rates then Some(front + [render(rates[keys[n]])]) else None
  }

  /** The eighteen raw tokens: the category, `0` for a pitcher and `1`
      otherwise, the primary position, total games, the lower-cased batting
      side and throwing hand, two counts, then the ten rates.  Unlike the
      binned encoder, a missing rate stops it. */
  function RawTokens(doc: Document, category: string, render: real -> string): (r: Option<seq<string>>)
    ensures r.Some? ==> |r.value| == 18
    ensures r.Some? ==> r.value[0] == category && r.value[1] == (if category == Pitcher then "0" else "1")
    ensures r.Some? ==> r.value[2] == doc.primaryPosition && r.value[3] == IntToString(doc.teams.totalGames)
    ensures r.Some? <==>
      && "bats" in doc.person && "throws" in doc.person
      && (category == Pitcher ==>
            && doc.pitching.Some?
            && "W" in doc.pitching.value.fields && "L" in doc.pitching.value.fields
            && forall i :: 0 <= i < |RawPitchingRates| ==> RawPitchingRates[i] in doc.pitching.value.calculated)
      && (category != Pitcher ==>
            && doc.batting.Some?
            && "H" in doc.batting.value.fields && "HR" in doc.batting.value.fields
            && forall i :: 0 <= i < |RawBattingRates| ==> RawBattingRates[i] in doc.batting.value.calculated)
    ensures r.Some? ==>
      r.value[4] == Lower(doc.person["bats"]) && r.value[5] == Lower(doc.person["throws"])
    ensures r.Some? && category == Pitcher ==>
      && r.value[6] == doc.pitching.value.fields["W"] && r.value[7] == doc.pitching.value.fields["L"]
      && forall i :: 0 <= i < 10 ==> r.value[8 + i] == render(doc.pitching.value.calculated[RawPitchingRates[i]])
    ensures r.Some? && category != Pitcher ==>
      && r.value[6] == doc.batting.value.fields["H"] && r.value[7] == doc.batting.value.fields["HR"]
      && forall i :: 0 <= i < 10 ==> r.value[8 + i] == render(doc.batting.value.calculated[RawBattingRates[i]])
  {
    if "bats" in doc.person && "throws" in doc.person then
      var head := [category, if category == Pitcher then "0" else "1", doc.primaryPosition,
                   IntToString(doc.teams.totalGames), Lower(doc.person["bats"]), Lower(doc.person["throws"])];
      var line :- if category == Pitcher then doc.pitching else doc.batting;
      var counts := if category == Pitcher then ["W", "L"] else ["H", "HR"];
      var order := if category == Pitcher then RawPitchingRates else RawBattingRates;
      if counts[0] in line.fields && counts[1] in line.fields then
        var rates :- RenderRates(line.calculated, order, render);
        Some(head + [line.fields[counts[0]], line.fields[counts[1]]] + rates)
      else None
    else None
  }

  /** `calculate_embeddings_string_value_with_raw_numbers`. */
  function RawEmbeddings(doc: Document, render: real -> string): (r: Option<string>)
    ensures r.None? <==> doc.category.None?
    ensures doc.category.Some? && RawTokens(doc, doc.category.value, render).None? ==> r == Some("")
    ensures doc.category.Some? && RawTokens(doc, doc.category.value, render).Some? ==>
      r == Some(Join(RawTokens(doc, doc.category.value, render).value, ' '))
  {
    match doc.category
    case None => None
    case Some(category) =>
      match RawTokens(doc, category, render)
      case None => Some("")
      case Some(tokens) => Some(Join(tokens, ' '))
  }

  /** Where the two encoders part: a batter without rates keeps seventeen
      binned tokens but gets the empty raw text. */
  lemma RawNeedsEveryRate(doc: Document, render: real -> string)
    requires doc.category.Some? && doc.category.value != Pitcher
    requires doc.batting.Some? && doc.batting.value.calculated == map[]
    ensures RawEmbeddings(doc, render) == Some("")
  {
    assert RawBattingRates[0] !in doc.batting.value.calculated;
  }

  /** A pitcher whose counts are those of a real record has every rate, so
      the raw encoder's output depends only on the columns it copies. */
  lemma RawPitcherComplete(doc: Document, render: real -> string)
    requires doc.category == Some(Pitcher) && doc.pitching.Some?
    requires "bats" in doc.person && "throws" in doc.person
    requires "W" in doc.pitching.value.fields && "L" in doc.pitching.value.fields
    requires var c := ReadPitchingCounts(doc.pitching.value.fields);
             c.ipOuts > 0.0 && c.h >= 0.0 && c.bb >= 0.0 && c.hbp >= 0.0
    requires doc.pitching.value.calculated == PitchingCalculated(ReadPitchingCounts(doc.pitching.value.fields))
    ensures RawTokens(doc, Pitcher, render).Some?
  {
    PitchingCompleteForNaturalCounts(ReadPitchingCounts(doc.pitching.value.fields));
  }

  /** `calculate_embeddings_string_value`: the binned encoder for
      `binned-text`, the raw one for anything else.  Either way the text is
      assigned exactly when the document has a category. */
  function CalculateEmbeddings(doc: Document, algorithm: string, render: real -> string): (r: Option<string>)
    ensures r.None? <==> doc.category.None?
    ensures algorithm == BinnedText ==> r == BinnedEmbeddings(doc)
    ensures algorithm != BinnedText && doc.category.Some? ==>
      r == Some(match RawTokens(doc, doc.category.value, render)
                case None => ""
                case Some(tokens) => Join(tokens, ' '))
  {
    if algorithm == BinnedText then BinnedEmbeddings(doc) else RawEmbeddings(doc, render)
  }
}
