# Baseball player documents — a Dafny model of the wrangling core

This project models the core of `data_wrangling/bb_wrangle.py`. That core turns
baseball season records into one JSON-like document per player, and each
document carries a text string that is later sent to an embedding service. The
stages modelled are:

- **Team affiliation** (`calc_player_teams`). Appearance rows are summed per
  player into a total of games and a per-team count. The primary team is the
  first team, in the order the rows name them, with strictly the most games.
- **Primary position** (`calc_player_positions`). Each player's summed
  appearance row gives the games at ten fielding positions and the percent of
  all games at each. The primary position is the first position in the fixed
  order P, C, 1B, … DH with strictly the most games, or `?`.
- **Rate derivation** (`calc_batters_stats`, `calc_pitchers_stats`,
  `float_value`). Per-player batting and pitching rates are derived from
  summed counts. Every count is read with a default of 0.
- **Document assembly** (`build_documents`, `refine_values`). Each person with
  a team profile is joined with their position, pitching and batting lines, a
  `pitcher`/`fielder` category and refined birth, size and career-year
  columns.
- **Text encoding** (`calculate_embeddings_string_value` and its binned-text
  and raw-numbers encoders, with the three `labeled_*` token makers). A
  document becomes a space-joined token string.

Files, one module each:

- `wrappers.dfy`: `Option` and `Result`.
- `text.dfy`: Python's `strip`, `lower`, `upper`, `str(int)`, `int(text)`,
  `float(text)`, truncation, `round`, `' '.join` and `split(' ')` on ASCII
  text.
- `ordered_dict.dfy`: a dictionary that remembers insertion order.
- `rows.dfy`: loosely typed rows, and the ways a stage reads a column. A read
  either stops the stage with a `StageError` (the uncaught `KeyError`,
  `ValueError` or `ZeroDivisionError`) or falls back to a default.
- `keyed.dfy`: the per-player loop shared by the stages. Each row is either
  skipped, stops the stage, or is filed under its id. A later row replaces an
  earlier one but keeps its place.
- `argmax.dfy`: the "strictly greater than the best so far, starting from 0"
  scan behind both primary choices.
- `teams.dfy`, `positions.dfy`, `rates.dfy`, `refine.dfy`: the stages above.
- `labels.dfy`: the three token makers.
- `document.dfy`: the player document.
- `embeddings.dfy`: both encoders and the dispatch between them.
- `documents.dfy`: `build_documents`.

Reading a file and writing JSON are left to the caller. Each stage is a
function from the rows it reads to the mapping it writes.

Behaviour of the code that the model keeps:

- **Dual-role tie.** A player with both lines is a `pitcher` only with
  strictly more outs than hits. A tie gives `fielder` (lines 316-319).
- **Missing binned rate.** The binned token maker returns the empty string for
  a stat the rates lack (lines 427-428), and that empty token is still joined
  (line 388), so the text gets a doubled space. A batter with no at-bats ends
  in ten spaces.
- **Failed refinement.** Only `debut_year` and `final_year` are preset to 0.
  The step of `refine_values` that fails, and every step after it, leaves its
  column as the original text (lines 330-340).
- **Parse failures.** A bad or missing `G_all` stops `calc_player_teams`
  (line 144) and `calc_player_positions` (line 116), and so does a missing
  position column or a `G_all` of zero (lines 122-123). A bad `IPouts` or `H`
  stops `build_documents` (lines 292 and 306).
- **Partial pitching rates.** Past the outs guard the rates are stored one at
  a time. With negative counts, a zero denominator can raise part-way, and the
  rates stored before it stay (lines 236-246).
- **Document order.** Documents come in the order of each id's first person.
  A later person with the same id replaces the document (lines 283-286).

## Model

| member | source | states |
|---|---|---|
| Rows.Field | data_wrangling/bb_wrangle.py:284 | a column read succeeds exactly when the column is present, and otherwise stops the stage with a missing-column error; `Documents.ReadPerson` and `Teams.ParseTeamRow` state what the read ids key |
| Rows.ReadReal | data_wrangling/bb_wrangle.py:116 | `float(row[c])` succeeds exactly when the column is present and parses as a number, and yields that number |
| Rows.ReadInt | data_wrangling/bb_wrangle.py:144 | `int(float(row[c]))` succeeds under the same condition and yields the number truncated toward zero |
| Rows.FloatValue | data_wrangling/bb_wrangle.py:569-573 | never fails; `Rows.FloatValueReadsRendered` is its round trip, reading a rendered integer back as itself and a missing column as the default |
| Rows.FloatValueReadsRendered | data_wrangling/bb_wrangle.py:569-573 | a column holding a rendered integer reads back as that integer, and a removed column reads as the default |
| Teams.ParseTeamRow | data_wrangling/bb_wrangle.py:142-144 | a team row reads exactly when `playerID`, `teamID` and a numeric `G_all` are present; the games are `G_all` truncated; a missing id is the error reported |
| Teams.Accumulate | data_wrangling/bb_wrangle.py:140-157 | the per-player tallies of the row loop, each with a well-formed team mapping; its meaning against reference sums over the rows is carried by `Teams.AccumulatePlayers`, `Teams.AccumulateTotals`, `Teams.AccumulateTeamKeys`, `Teams.AccumulateTeamGames` and `Teams.AccumulateTeamOrder` |
| Teams.AccumulatePlayers | data_wrangling/bb_wrangle.py:140-157 | the accumulated players are exactly the ids of the rows |
| Teams.AccumulateTotals | data_wrangling/bb_wrangle.py:145-147 | each player's total is the sum of the games over all of that player's rows |
| Teams.AccumulateTeamKeys | data_wrangling/bb_wrangle.py:148-156 | a player lists a team exactly when some row of that player names it |
| Teams.AccumulateTeamGames | data_wrangling/bb_wrangle.py:148-151 | each team count is the sum of the games over the rows of that player and team |
| Teams.AccumulateTeamOrder | data_wrangling/bb_wrangle.py:148-156 | a player's teams are listed in the order of the rows that first name them |
| Teams.AddRowKeepsSums | data_wrangling/bb_wrangle.py:145-151 | adding one row keeps every player's total equal to the sum of that player's team counts |
| Teams.TotalIsSumOfTeams | data_wrangling/bb_wrangle.py:145-157 | the running total always equals the sum of the per-team counts |
| Teams.PrimaryTeam | data_wrangling/bb_wrangle.py:159-165 | absent exactly when no team has a positive count; otherwise a team with the greatest count, ahead of every earlier-listed team |
| Teams.CalcPlayerTeams | data_wrangling/bb_wrangle.py:132-167 | succeeds exactly when every row reads; profiles are keyed by exactly the row ids, each total is the sum of its teams and each primary team is the first strict maximum |
| Teams.CalcPlayerTeamsSums | data_wrangling/bb_wrangle.py:140-157 | against reference sums over the input rows: totals, the set of teams, per-team counts and first-appearance order |
| Argmax.FirstStrictMax | data_wrangling/bb_wrangle.py:118-126 | the scan from a best of 0 yields none exactly when no count is positive, otherwise the first position holding the greatest count |
| Argmax.FirstStrictMaxUnique | data_wrangling/bb_wrangle.py:159-165 | the first strict maximum is unique: any position meeting its definition is the scan's answer |
| Positions.ReadGames | data_wrangling/bb_wrangle.py:119-123 | on success one count per position column, and `G_all` is nonzero whenever there is a column to divide |
| Positions.ReadGamesMeaning | data_wrangling/bb_wrangle.py:119-123 | the position columns read exactly when each is present and numeric and `G_all` is nonzero |
| Positions.ReadGamesValues | data_wrangling/bb_wrangle.py:122 | the counts read are the parsed position columns, in order |
| Positions.Shares | data_wrangling/bb_wrangle.py:123 | one share per count, each share times `G_all` giving back its count |
| Positions.MakeProfile | data_wrangling/bb_wrangle.py:119-126 | each percent times `G_all` gives back its count, and the primary position is the first strict maximum |
| Positions.PrimaryPosition | data_wrangling/bb_wrangle.py:114-126 | `?` exactly when no position has a positive count; otherwise the upper-cased name of the first position with strictly the most games |
| Positions.ReadPositionRow | data_wrangling/bb_wrangle.py:113-126 | a row reads exactly when it has an id, a numeric `G_all` and readable position columns, and yields that profile under its id |
| Positions.CalcPlayerPositions | data_wrangling/bb_wrangle.py:105-130 | succeeds exactly when every row reads; the result is a well-formed ordered mapping |
| Positions.CalcPlayerPositionsKeys | data_wrangling/bb_wrangle.py:113-117 | profiles are keyed by exactly the row ids, and each id's profile is the one read from its last row |
| Keyed.Collect | data_wrangling/bb_wrangle.py:283-286 | the per-player loop succeeds exactly when every row reads |
| Keyed.CollectKeys | data_wrangling/bb_wrangle.py:283-286 | the mapping holds exactly the ids some row is filed under |
| Keyed.CollectOrder | data_wrangling/bb_wrangle.py:283-286 | ids are listed in the order of their first rows |
| Keyed.CollectLastWins | data_wrangling/bb_wrangle.py:283-286 | each id's entry comes from the last row filed under it |
| Rates.BattingCalculated | data_wrangling/bb_wrangle.py:183-195 | no rates unless at-bats are positive, and then exactly the ten batting rates, each of which times at-bats gives back its count |
| Rates.CalcBatters | data_wrangling/bb_wrangle.py:169-205 | the batting stage yields a well-formed ordered mapping; which lines it holds and their rates are stated by `Rates.CalcBattersKeys`, `Rates.BatterEntry` and `Rates.BattingCalculated` |
| Rates.BatterEntry | data_wrangling/bb_wrangle.py:177-182 | a batting row never stops the stage and is filed under its id, or skipped without one |
| Rates.CalcBattersKeys | data_wrangling/bb_wrangle.py:169-205 | batting lines are keyed by exactly the row ids; each id's line is its last row with that row's rates |
| Rates.PitchingCalculated | data_wrangling/bb_wrangle.py:222-256 | no rates unless outs are positive; then the games-equivalent and ERA; the opponents' average only when outs plus hits is nonzero, times that sum giving back the hits; the remaining seven only when batters faced is nonzero, and then as `FacedRates` gives them |
| Rates.OutsRates | data_wrangling/bb_wrangle.py:234-240 | the games-equivalent times 27 gives back the outs, and the ERA is 27 times earned runs over outs |
| Rates.FacedRates | data_wrangling/bb_wrangle.py:241-256 | exactly the seven rates; each per-batter rate times batters faced gives back its count; win and shutout rates per decision and complete-game rate per start, or 0 when that denominator is not positive |
| Rates.PitchingCompleteForNaturalCounts | data_wrangling/bb_wrangle.py:234-256 | with positive outs and non-negative hits, walks and hit batsmen, all ten pitching rates are present, the opponents' average being hits over outs plus hits and the strike-out rate strike-outs over batters faced |
| Rates.CalcPitchers | data_wrangling/bb_wrangle.py:207-264 | the pitching stage yields a well-formed ordered mapping; which lines it holds and their rates are stated by `Rates.CalcPitchersKeys`, `Rates.PitcherEntry` and `Rates.PitchingCalculated` |
| Rates.PitcherEntry | data_wrangling/bb_wrangle.py:215-220 | a pitching row never stops the stage and is filed under its id, or skipped without one |
| Rates.CalcPitchersKeys | data_wrangling/bb_wrangle.py:207-264 | pitching lines are keyed by exactly the row ids; each id's line is its last row with that row's rates |
| Refine.IntOf | data_wrangling/bb_wrangle.py:334-336 | a column refines to an integer exactly when `int(float(...))` of it succeeds |
| Refine.YearOf | data_wrangling/bb_wrangle.py:337-338 | absent when the column is missing; `Refine.YearOfRendered` is its round trip, reading a date that starts with a rendered four-digit year back as that year |
| Refine.RefineValues | data_wrangling/bb_wrangle.py:330-340 | each step is taken only when every earlier one succeeded; the two years stay 0 unless their own step and every earlier one succeeded |
| Refine.RefineRendered | data_wrangling/bb_wrangle.py:330-340 | round trip: rendered integers and dates starting with four-digit years refine to exactly those numbers |
| Labels.TextLabel | data_wrangling/bb_wrangle.py:394-398 | `labeled_text_value`; no contract of its own, its meaning is stated by `Labels.TextLabelShape` and `Labels.TextLabelNoSpace` |
| Labels.TextLabelShape | data_wrangling/bb_wrangle.py:394-398 | a text label is the lower-cased stripped stat, `_`, and the lower-cased stripped value |
| Labels.TextLabelNoSpace | data_wrangling/bb_wrangle.py:394-398 | a text label has no space when its stat and value have none |
| Labels.FloatLabel | data_wrangling/bb_wrangle.py:404-412 | `labeled_floating_text_value`; no contract of its own, its meaning is stated by `Labels.FloatLabelShape`, `Labels.FloatLabelOf` and `Labels.FloatLabelNoSpace` |
| Labels.FloatLabelShape | data_wrangling/bb_wrangle.py:404-412 | a floating label is the lower-cased stat, `_`, and the scaled value rounded half to even |
| Labels.FloatLabelNoSpace | data_wrangling/bb_wrangle.py:404-412 | a floating label has no space when its stat has none |
| Labels.FloatLabelOf | data_wrangling/bb_wrangle.py:404-412 | a floating label of a plain lower-case stat name is that name, `_`, and the digits of the rounded scaled value |
| Labels.EraExample | data_wrangling/bb_wrangle.py:405-408 | an ERA of 4.27299703264095 at multiplier 1000 gives `era_4273` |
| Labels.ScanTier | data_wrangling/bb_wrangle.py:430-433 | the tier loop leaves `?` exactly for a negative value or no tiers; `Labels.ScanTierClosedForm` equates it with the clamped closed form |
| Labels.ScanTierClosedForm | data_wrangling/bb_wrangle.py:430-433 | the tier loop equals the closed form: `?` for a negative value or no tiers, else the value clamped to the last tier |
| Labels.BinnedLabel | data_wrangling/bb_wrangle.py:418-434 | `labeled_binned_pct_text_value`; no contract of its own, its meaning is stated by `Labels.BinnedLabelValue`, `Labels.BinnedTier`, `Labels.BinnedLabelInRange` and `Labels.BinnedLabelNoSpace` |
| Labels.BinnedLabelValue | data_wrangling/bb_wrangle.py:424-434 | empty when the stat is missing; otherwise the lower-cased stat, `_`, and the tier of the rounded scaled value |
| Labels.BinnedTier | data_wrangling/bb_wrangle.py:425-433 | the tier is `?` below 0 or for a bin factor under 2, else the rounded value clamped into `0..bin_factor-2`, which parses back to that number |
| Labels.BinnedLabelNoSpace | data_wrangling/bb_wrangle.py:424-434 | a binned label has no space when its stat has none |
| Labels.BattingAverageExample | data_wrangling/bb_wrangle.py:418-434 | a batting average of 0.30 at bin factor 1000 gives `batting_avg_300` |
| Labels.BinnedLabelInRange | data_wrangling/bb_wrangle.py:424-434 | a stat whose scaled value rounds into the tiers is labeled with that very number |
| Labels.StrikeoutExample | data_wrangling/bb_wrangle.py:419-423 | a strike-out rate of 0.22576361221779548 at bin factor 100 gives `so_pct_23` |
| Embeddings.CommonTokens | data_wrangling/bb_wrangle.py:351-357 | present exactly when the person has `bats` and `throws`; the category, then the labeled position, total games, bats and throws |
| Embeddings.PitcherTokens | data_wrangling/bb_wrangle.py:359-372 | present exactly when the pitching line, `W`, `L`, and the games-equivalent and ERA rates exist; twelve tokens in the encoder's order with its multipliers and bin factors |
| Embeddings.BatterTokens | data_wrangling/bb_wrangle.py:373-386 | present exactly when the batting line, `H` and `HR` exist; twelve tokens in the encoder's order |
| Embeddings.BinnedTokens | data_wrangling/bb_wrangle.py:350-386 | seventeen tokens: the five common ones, then the twelve of the role |
| Embeddings.BinnedEmbeddings | data_wrangling/bb_wrangle.py:348-392 | no text exactly when there is no category; the empty text when a token's input is missing; else the rendered tokens joined by single spaces |
| Embeddings.RenderNoSpace | data_wrangling/bb_wrangle.py:394-438 | a token renders without spaces when the text it copies has none |
| Embeddings.TokensSpaceFree | data_wrangling/bb_wrangle.py:350-386 | with space-free inputs all seventeen tokens are space-free |
| Embeddings.BinnedSeventeenFields | data_wrangling/bb_wrangle.py:350-388 | with space-free inputs, splitting the text on spaces gives back exactly the seventeen rendered tokens, the category first |
| Embeddings.MissingRatesStillJoined | data_wrangling/bb_wrangle.py:376-388 | a batter without rates gets the first seven tokens followed by ten spaces |
| Embeddings.PitcherWithoutRatesIsEmpty | data_wrangling/bb_wrangle.py:362-363 | a pitcher without rates gets the empty text |
| Embeddings.RenderRates | data_wrangling/bb_wrangle.py:459-483 | the named rates rendered in order, absent exactly when one is missing |
| Embeddings.RawTokens | data_wrangling/bb_wrangle.py:443-483 | present exactly when `bats`, `throws`, the role line, its two counts and all ten rates exist; then eighteen tokens: the category, `0` for a pitcher and `1` otherwise, the primary position, total games, lower-cased `bats` and `throws`, `W` and `L` for a pitcher or `H` and `HR` otherwise, and the ten rates of that line rendered in the encoder's order |
| Embeddings.RawEmbeddings | data_wrangling/bb_wrangle.py:440-488 | no text exactly when there is no category; the empty text when a token's input is missing; else the raw tokens joined by single spaces |
| Embeddings.RawNeedsEveryRate | data_wrangling/bb_wrangle.py:473-484 | a batter without rates gets the empty raw text |
| Embeddings.RawPitcherComplete | data_wrangling/bb_wrangle.py:455-469 | a pitcher whose rates were derived from natural counts with positive outs always gets raw tokens |
| Embeddings.CalculateEmbeddings | data_wrangling/bb_wrangle.py:342-346 | the text is assigned exactly when there is a category; binned text gives the binned encoder's text, and any other algorithm the raw encoder's |
| Documents.Prune | data_wrangling/bb_wrangle.py:294-296 | a pruned line keeps every column except the pruned ones, unchanged, and all its rates |
| Documents.ReadCount | data_wrangling/bb_wrangle.py:292 | a count is read exactly when its line exists; a failed read stops the stage |
| Documents.RoleCategory | data_wrangling/bb_wrangle.py:288-319 | no category exactly without either line; `pitcher` exactly when the player pitched and either did not bat or has more outs than hits; `fielder` exactly when the player batted and did not pitch or has no more outs than hits |
| Documents.BuildDocument | data_wrangling/bb_wrangle.py:286-325 | building a document fails exactly when an existing pitching line's `IPouts` or batting line's `H` does not read |
| Documents.BuildDocumentContents | data_wrangling/bb_wrangle.py:286-325 | the document holds the team profile, the position or `?`, the person and lines without pruned columns, refined columns and the encoder's text of the document itself |
| Documents.BuildDocumentCategory | data_wrangling/bb_wrangle.py:290-319 | the category in terms of the input lines' outs and hits (a tie gives `fielder`), and a text exactly when there is a category |
| Documents.EmbeddingsIgnoreText | data_wrangling/bb_wrangle.py:348-352 | the encoder's result does not depend on the text already held |
| Documents.ReadPerson | data_wrangling/bb_wrangle.py:283-286 | a person without `playerID` stops the stage; one without a team profile is skipped; any other is filed under the id when its document builds |
| Documents.BuildDocuments | data_wrangling/bb_wrangle.py:266-328 | succeeds exactly when every person reads, and yields a well-formed ordered mapping |
| Documents.BuildDocumentsKeys | data_wrangling/bb_wrangle.py:283-286 | documents are keyed by exactly the ids of the people who have a team profile |
| Documents.BuildDocumentsLastWins | data_wrangling/bb_wrangle.py:283-325 | each document is built from the last person with its id, and ids keep the order of their first persons |

## Left out

- File reading and writing, the progress and verbose printing, and the
  `traceback` output are left out. Each stage takes its input rows and
  returns its output mapping. A CSV or JSON record is a map from column name
  to text.
- The pandas-based stages that produce the summed per-player rows
  (`prune_*`, `appearances_df` and the like) are not part of this model. The
  rows they write are the inputs here.
- `add_embeddings`, the embedding service call and the network are left out:
  they are an external, side-effecting collaborator.
- Python floats are modelled as exact reals. A division or a product is not
  rounded to the nearest double, and `round()` rounds the exact real half to
  even. A value that sits on a tie only because of binary rounding may
  therefore land on a different integer.
- `str()` of a float, in the raw-numbers encoder, is the `render` parameter.
  Python's shortest round-trip rendering of a double is not modelled.
- `float()` and `int()` accept an ASCII decimal subset: surrounding
  whitespace, an optional sign, digits and at most one point. Exponents,
  `inf`, `nan`, underscores and non-ASCII digits and spaces are not accepted.
  `lower` and `upper` change ASCII letters only.
- The `stat_??` fallback of `labeled_binned_pct_text_value` (line 438) is left
  out. It is reached only when rounding an infinite or NaN rate raises, and
  exact reals have neither. The `except` branch of
  `labeled_floating_text_value` (lines 413-416, returning the empty string) is
  left out for the same reason: rounding an exact real cannot raise. The
  `except` branch of `labeled_text_value` is left out because `str()` of a
  text or integer cannot raise.
- A position profile keeps only `G_all`, the ten position counts, their
  `<pos>_percent` shares and the primary position. The source stores the whole
  input row as the player's entry and adds those columns to it (lines
  117-125). No later stage reads the row's other columns, so nothing the model
  states depends on them.
- Column values are text. A JSON number in a people or stat record would be
  passed through `str()` by the token makers; that rendering is not
  modelled.
- Field-name clashes are not modelled. The document keeps the stage's added fields
  (`teams`, `pitching`, `batting`, `primary_position`, `category`,
  `embeddings_str`, the refined columns) apart from the person's own columns.
  A people record that already had a column with one of those names would
  have it overwritten in the source. The model keeps both.
- The output mapping of each stage is not sorted for writing, and the
  `sorted()` walk of line 159 only changes the visiting order. Each player's
  primary team depends on their own counts alone, so the order does not
  matter.
