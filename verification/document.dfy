/** A player's document as `build_documents` leaves it: the person's own
    columns plus what the earlier stages computed for that player. */
module PlayerDocument {
  import opened Wrappers
  import opened Rows
  import opened Teams
  import opened Rates
  import opened Refine

  /** One document.  `person` holds the people record's columns as text;
      `refined` holds the numbers `refine_values` put in place of some of
      them.  `category` is absent for a player with neither a pitching nor
      a batting line, and `embeddingsStr` is absent when the encoder stopped
      before assigning it. */
  datatype Document = Document(
    person: Row,
    teams: TeamProfile,
    pitching: Option<StatLine>,
    batting: Option<StatLine>,
    primaryPosition: string,
    category: Option<string>,
    refined: Refined,
    embeddingsStr: Option<string>)

  const Pitcher := "pitcher"
  const Fielder := "fielder"
}
