/** `build_documents`: one document per person of the people list who has
    a team profile, combining that profile with the person's primary
    position, pitching and batting lines, a role category, the refined
    numeric columns and the binned embedding text. */
module Documents {
  import opened Wrappers
  import opened Rows
  import opened OrderedDict
  import opened Keyed
  import opened Teams
  import opened Positions
  import opened Rates
  import opened Refine
  import opened PlayerDocument
  import opened Embeddings

  /** The earlier stages' output as read back, by player id. */
  datatype Sources = Sources(
    teams: map<string, TeamProfile>,
    positions: map<string, PositionProfile>,
    batters: map<string, StatLine>,
    pitchers: map<string, StatLine>)

  /** Columns deleted from the person, the pitching line and the batting
      line once they are attached. */
  const PrunedPersonColumns: set<string> := {"x"}
  const PrunedPitchingColumns: set<string> := {"playerID", "dog"}
  const PrunedBattingColumns: set<string> := {"playerID", "cat"}

  /** The primary position the document gets when the player has no
      position profile. */
  const UnknownPosition := "?"

  /** A stat line without the pruned columns; its rates are kept. */
  function Prune(line: Option<StatLine>, columns: set<string>): (r: Option<StatLine>)
    ensures r.Some? <==> line.Some?
    ensures r.Some? ==>
      && r.value.fields.Keys == line.value.fields.Keys - columns
      && (forall c :: c in r.value.fields ==> r.value.fields[c] == line.value.fields[c])
      && r.value.calculated == line.value.calculated
  {
    match line
    case None => None
    case Some(l) => Some(StatLine(l.fields - columns, l.calculated))
  }

  /** `int(float(line[column]))` on a line that may be absent: nothing to
      read when it is absent, a stopped stage when the read fails.  This
      is how a pitcher's outs and a batter's hits are read for the role
      comparison. */
  function ReadCount(line: Option<StatLine>, column: string): (r: Result<Option<int>, StageError>)
    ensures r.Success? <==> line.None? || ReadInt(line.value.fields, column).Success?
    ensures r.Success? ==> (r.value.Some? <==> line.Some?)
    ensures r.Success? && line.Some? ==> r.value.value == ReadInt(line.value.fields, column).value
  {
    match line
    case None => Success(None)
    case Some(l) =>
      var n :- ReadInt(l.fields, column);
      Success(Some(n))
  }

  /** The category, given the pitching outs and the batting hits of the
      lines the player has.  Pitching sets `pitcher`, batting then sets
      `fielder`, and a player with both lines is a pitcher only with more
      outs than hits. */
  function RoleCategory(ipo: Option<int>, hits: Option<int>): (r: Option<string>)
    ensures r.None? <==> ipo.None? && hits.None?
    ensures r == Some(Pitcher) <==> ipo.Some? && (hits.None? || ipo.value > hits.value)
    ensures r == Some(Fielder) <==> hits.Some? && (ipo.None? || ipo.value <= hits.value)
  {
    var afterPitching := if ipo.Some? then Some(Pitcher) else None;
    var afterBatting := if hits.Some? then Some(Fielder) else afterPitching;
    if ipo.Some? && hits.Some? then
      if ipo.value > hits.value then Some(Pitcher) else Some(Fielder)
    else afterBatting
  }

  /** The document of a person whose id `pid` has a team profile.  Reading
      the outs of the pitching line, then the hits of the batting line, can
      stop the stage; nothing else can. */
  function BuildDocument(src: Sources, person: Row, pid: string): (r: Result<Document, StageError>)
    requires pid in src.teams
    ensures r.Success? <==>
      && (pid in src.pitchers ==> ReadInt(src.pitchers[pid].fields, "IPouts").Success?)
      && (pid in src.batters ==> ReadInt(src.batters[pid].fields, "H").Success?)
  {
    var pitching := if pid in src.pitchers then Some(src.pitchers[pid]) else None;
    var ipo :- ReadCount(pitching, "IPouts");
    var position := if pid in src.positions then src.positions[pid].primaryPosition else UnknownPosition;
    var batting := if pid in src.batters then Some(src.batters[pid]) else None;
    var hits :- ReadCount(batting, "H");
    var kept := person - PrunedPersonColumns;
    var doc := Document(kept, src.teams[pid],
                        Prune(pitching, PrunedPitchingColumns), Prune(batting, PrunedBattingColumns),
                        position, RoleCategory(ipo, hits), RefineValues(kept), None);
    Success(doc.(embeddingsStr := BinnedEmbeddings(doc)))
  }

  /** The encoder reads everything but the text it assigns. */
  lemma EmbeddingsIgnoreText(doc: Document, text: Option<string>)
    ensures BinnedEmbeddings(doc.(embeddingsStr := text)) == BinnedEmbeddings(doc)
  {
    var other := doc.(embeddingsStr := text);
    if doc.category.Some? {
      var c := doc.category.value;
      assert CommonTokens(other, c) == CommonTokens(doc, c);
      assert PitcherTokens(other) == PitcherTokens(doc);
      assert BatterTokens(other) == BatterTokens(doc);
      assert BinnedTokens(other, c) == BinnedTokens(doc, c);
    }
  }

  /** What a built document holds: the profile, the position (`?` without
      a profile), the pruned lines, the category from outs against hits, the
      refined columns of the pruned person, and the encoder's text of the
      document itself. */
  lemma BuildDocumentContents(src: Sources, person: Row, pid: string)
    requires pid in src.teams && BuildDocument(src, person, pid).Success?
    ensures var doc := BuildDocument(src, person, pid).value;
      && doc.teams == src.teams[pid]
      && doc.primaryPosition == (if pid in src.positions then src.positions[pid].primaryPosition else UnknownPosition)
      && doc.person == person - PrunedPersonColumns
      && doc.refined == RefineValues(person - PrunedPersonColumns)
      && (doc.pitching.Some? <==> pid in src.pitchers)
      && (doc.batting.Some? <==> pid in src.batters)
      && (doc.pitching.Some? ==>
            doc.pitching.value == StatLine(src.pitchers[pid].fields - PrunedPitchingColumns, src.pitchers[pid].calculated))
      && (doc.batting.Some? ==>
            doc.batting.value == StatLine(src.batters[pid].fields - PrunedBattingColumns, src.batters[pid].calculated))
      && doc.embeddingsStr == BinnedEmbeddings(doc)
  {
    var doc := BuildDocument(src, person, pid).value;
    EmbeddingsIgnoreText(doc, None);
  }

  /** The category of a built document: none without either line, `pitcher`
      exactly when the player pitched and either did not bat or recorded
      more outs than hits, `fielder` otherwise, so a tie goes to
      `fielder`. */
  lemma BuildDocumentCategory(src: Sources, person: Row, pid: string)
    requires pid in src.teams && BuildDocument(src, person, pid).Success?
    ensures var doc := BuildDocument(src, person, pid).value;
      && (doc.category.None? <==> pid !in src.pitchers && pid !in src.batters)
      && (doc.category == Some(Pitcher) <==>
            pid in src.pitchers &&
            (pid !in src.batters ||
             ReadInt(src.pitchers[pid].fields, "IPouts").value > ReadInt(src.batters[pid].fields, "H").value))
      && (doc.category == Some(Fielder) <==>
            pid in src.batters &&
            (pid !in src.pitchers ||
             ReadInt(src.pitchers[pid].fields, "IPouts").value <= ReadInt(src.batters[pid].fields, "H").value))
      && (doc.embeddingsStr.Some? <==> doc.category.Some?)
  {
    var doc := BuildDocument(src, person, pid).value;
    EmbeddingsIgnoreText(doc, None);
  }

  /** One person of the people list: a missing `playerID` stops the stage,
      a person without a team profile is skipped, any other is filed under
      the id. */
  function ReadPerson(src: Sources, person: Row): (r: Read<Document>)
    ensures r.Success? <==>
      && "playerID" in person
      && (person["playerID"] in src.teams ==> BuildDocument(src, person, person["playerID"]).Success?)
    ensures "playerID" !in person ==> r == Failure(MissingColumn("playerID"))
    ensures KeyOf(r) == (if "playerID" in person && person["playerID"] in src.teams && r.Success?
                         then Some(person["playerID"]) else None)
  {
    var pid :- Field(person, "playerID");
    if pid in src.teams then
      var doc :- BuildDocument(src, person, pid);
      Success(Some((pid, doc)))
    else Success(None)
  }

  function PersonReader(src: Sources): Row -> Read<Document> {
    person => ReadPerson(src, person)
  }

  /** `build_documents` over the people list, in order. */
  function BuildDocuments(src: Sources, people: seq<Row>): (r: Result<Dict<string, Document>, StageError>)
    ensures r.Success? <==> forall i :: 0 <= i < |people| ==> ReadPerson(src, people[i]).Success?
    ensures r.Success? ==> Valid(r.value)
  {
    Collect(people, PersonReader(src))
  }

  /** Id `k` is the `playerID` of some person who has a team profile. */
  predicate Documented(src: Sources, people: seq<Row>, k: string) {
    k in src.teams && HasId(Ids(people), k)
  }

  /** On success, the ids a person is filed under are the `playerID`s of
      the people with a team profile. */
  lemma PersonKeys(src: Sources, people: seq<Row>)
    requires BuildDocuments(src, people).Success?
    ensures forall i :: 0 <= i < |people| ==>
      Keys(people, PersonReader(src))[i] == (if PlayerId(people[i]).Some? && PlayerId(people[i]).value in src.teams
                                             then PlayerId(people[i]) else None)
  {
    forall i | 0 <= i < |people|
      ensures Keys(people, PersonReader(src))[i] == (if PlayerId(people[i]).Some? && PlayerId(people[i]).value in src.teams
                                                     then PlayerId(people[i]) else None)
    {
      assert ReadPerson(src, people[i]).Success?;
    }
  }

  /** The documents are keyed by exactly the ids of the people who have a
      team profile. */
  lemma BuildDocumentsKeys(src: Sources, people: seq<Row>)
    requires BuildDocuments(src, people).Success?
    ensures forall k :: k in BuildDocuments(src, people).value.values <==> Documented(src, people, k)
  {
    var read := PersonReader(src);
    var ks := Keys(people, read);
    var ids := Ids(people);
    CollectKeys(people, read);
    PersonKeys(src, people);
    forall k ensures HasId(ks, k) <==> Documented(src, people, k) {
      if HasId(ks, k) {
        var i :| 0 <= i < |ks| && ks[i] == Some(k);
        assert ids[i] == Some(k);
      }
      if Documented(src, people, k) {
        var i :| 0 <= i < |ids| && ids[i] == Some(k);
        assert ks[i] == Some(k);
      }
    }
  }

  /** For an id with a document, the ids the persons are filed under hold
      it exactly where the persons' `playerID`s do. */
  lemma FiledWhereIdIs(src: Sources, people: seq<Row>, k: string)
    requires BuildDocuments(src, people).Success? && k in src.teams
    ensures LastIndex(Keys(people, PersonReader(src)), k) == LastIndex(Ids(people), k)
    ensures FirstIndex(Keys(people, PersonReader(src)), k) == FirstIndex(Ids(people), k)
  {
    PersonKeys(src, people);
    SameIndexes(Keys(people, PersonReader(src)), Ids(people), k);
  }

  /** Each id's document is built from the last person with that id. */
  lemma DocumentsFromLastPerson(src: Sources, people: seq<Row>)
    requires BuildDocuments(src, people).Success?
    ensures var d := BuildDocuments(src, people).value;
      forall k :: k in d.values ==>
        var i := LastIndex(Ids(people), k);
        && i >= 0 && k in src.teams
        && BuildDocument(src, people[i], k).Success?
        && d.values[k] == BuildDocument(src, people[i], k).value
  {
    var read := PersonReader(src);
    var ks := Keys(people, read);
    var d := BuildDocuments(src, people).value;
    CollectLastWins(people, read);
    forall k | k in d.values
      ensures var i := LastIndex(Ids(people), k);
        i >= 0 && k in src.teams && BuildDocument(src, people[i], k).Success? && d.values[k] == BuildDocument(src, people[i], k).value
    {
      var i := LastIndex(ks, k);
      assert ReadPerson(src, people[i]).Success?;
      FiledWhereIdIs(src, people, k);
    }
  }

  /** The ids keep the order of their first persons. */
  lemma DocumentsInFirstOrder(src: Sources, people: seq<Row>)
    requires BuildDocuments(src, people).Success?
    ensures var d := BuildDocuments(src, people).value;
      forall i, j :: 0 <= i < j < |d.keys| ==>
        FirstIndex(Ids(people), d.keys[i]) < FirstIndex(Ids(people), d.keys[j])
  {
    var d := BuildDocuments(src, people).value;
    CollectOrder(people, PersonReader(src));
    BuildDocumentsKeys(src, people);
    forall i | 0 <= i < |d.keys|
      ensures FirstIndex(Keys(people, PersonReader(src)), d.keys[i]) == FirstIndex(Ids(people), d.keys[i])
    {
      assert d.keys[i] in d.values;
      FiledWhereIdIs(src, people, d.keys[i]);
    }
  }

  /** Each id's document is built from the last person with that id, and
      the ids keep the order of their first persons. */
  lemma BuildDocumentsLastWins(src: Sources, people: seq<Row>)
    requires BuildDocuments(src, people).Success?
    ensures var d := BuildDocuments(src, people).value;
      forall k :: k in d.values ==>
        var i := LastIndex(Ids(people), k);
        && i >= 0 && k in src.teams
        && BuildDocument(src, people[i], k).Success?
        && d.values[k] == BuildDocument(src, people[i], k).value
    ensures var d := BuildDocuments(src, people).value;
      forall i, j :: 0 <= i < j < |d.keys| ==>
        FirstIndex(Ids(people), d.keys[i]) < FirstIndex(Ids(people), d.keys[j])
  {
    DocumentsFromLastPerson(src, people);
    DocumentsInFirstOrder(src, people);
  }

  /** Two id lists that agree wherever either holds `k` (the second may
      hold other ids where the first holds none) place `k` alike. */
  lemma SameIndexes(ks: seq<Option<string>>, ids: seq<Option<string>>, k: string)
    requires |ks| == |ids|
    requires forall i :: 0 <= i < |ks| ==> (ks[i] == Some(k) <==> ids[i] == Some(k))
    ensures LastIndex(ks, k) == LastIndex(ids, k)
    ensures FirstIndex(ks, k) == FirstIndex(ids, k)
  {
  }
}
