/** Worked instances of the search, on records shaped like the
    application's content tables. */
module SearchExamples {
  import opened Wrappers
  import opened Text
  import opened Content
  import opened SearchEngine

  /** A topic whose title contains the query yields one topic hit whose
      path is the topic route. */
  lemma TopicTitleQuery()
    ensures var t := Topic(1, "Fluidoterapia", "...", []);
      Search("fluid", [t], []) == [TopicHit(t)]
      && TopicHit(t).path == "/topic/1"
  {
    var t := Topic(1, "Fluidoterapia", "...", []);
    assert !IsWhitespace("fluid"[0]);
    assert Lower("fluid") == "fluid";
    assert OccursAt(Lower(t.title), "fluid", 0);
    assert IntToString(1) == "1";
  }

  /** The query is lowered but not trimmed: a leading space is part of
      what must occur, so a title without spaces no longer matches. */
  lemma QueryIsNotTrimmed()
    ensures var t := Topic(1, "Fluidoterapia", "...", []);
      Search(" fluid", [t], []) == []
  {
    var t := Topic(1, "Fluidoterapia", "...", []);
    assert !IsWhitespace(" fluid"[1]);
    var q := Lower(" fluid");
    assert q[0] == ' ';
    LowerKeepsAbsent(t.title, ' ');
    LowerKeepsAbsent(t.description, ' ');
    NotContainsMissingChar(Lower(t.title), q, 0);
    NotContainsMissingChar(Lower(t.description), q, 0);
  }

  /** A subtopic is matched against its entries joined with single spaces,
      so a query may straddle two adjacent entries. */
  lemma MatchAcrossJoinedEntries()
    ensures var s := Subtopic("Indução", ["tiopental", "propofol"]);
      SubtopicMatches("l p", s)
      && !Matches(s.content[0], "l p") && !Matches(s.content[1], "l p")
  {
    var s := Subtopic("Indução", ["tiopental", "propofol"]);
    assert Join(s.content, " ") == "tiopental propofol";
    assert OccursAt(Lower("tiopental propofol"), "l p", 8);
    forall e | e in s.content ensures !Matches(e, "l p") {
      LowerKeepsAbsent(e, ' ');
      NotContainsMissingChar(Lower(e), "l p", 1);
    }
  }

  /** The drug summary keeps the ellipsis even when nothing was cut. */
  lemma ShortDescriptionStillGetsEllipsis()
    ensures DrugSummary(Drug("x", "X", "Hipnótico", "Curta", [])) == "Hipnótico - Curta..."
  {
  }

  /** Fixtures taken from the application's content tables (abridged). */
  const InjectablePharmacology := Subtopic("Farmacologia dos anestésicos injetáveis", [
    "Barbitúricos: tiopental, pentobarbital (efeitos, duração, metabolismo)",
    "Propofol" + ": características farmacocinéticas e farmacodinâmicas"])

  const InjectableAnesthesia := Topic(3, "Anestesia Injetável",
    "Técnicas e farmacologia dos anestésicos injetáveis, desde dissociativos até TIVA e PIVA.",
    [InjectablePharmacology])

  const PropofolDrug := Drug("propofol", "Propofol", "Hipnótico",
    "Agente hipnótico injetável de ação ultracurta.", [])

  lemma PropofolInSubtopicContent()
    ensures SubtopicMatches("propofol", InjectablePharmacology)
  {
    var e := InjectablePharmacology.content[1];
    LowerSlice(e, 0, 8);
    assert e[..8] == "Propofol";
    assert OccursAt(Lower(e), "propofol", 0);
    JoinedLowerContainsPart(InjectablePharmacology.content, " ", 1, "propofol");
  }

  lemma PropofolInDrugName()
    ensures DrugMatches("propofol", PropofolDrug)
  {
    assert OccursAt(Lower(PropofolDrug.name), "propofol", 0);
  }

  /** The query "propofol" hits the injectable-anaesthetics subtopic
      through one of its content entries, and the propofol drug record
      through its name; the drug hit comes last. */
  lemma PropofolQuery()
    ensures var r := Search("propofol", [InjectableAnesthesia], [PropofolDrug]);
      SubtopicHit(InjectableAnesthesia, 0) in r && DrugHit(PropofolDrug) in r
      && r[|r| - 1] == DrugHit(PropofolDrug)
  {
    var t, d := InjectableAnesthesia, PropofolDrug;
    var q := "propofol";
    PropofolQueryIsItsOwnLowering();
    PropofolInSubtopicContent();
    PropofolInDrugName();
    TraversalComplete(q, [t], [d]);
    assert SubtopicCount([t]) == 1;
    SearchKeepsEveryHitWhenFew(q, [t], [d]);
    DrugsPassSingle(q, d);
  }

  /** The propofol hit links to the drug's anchor and its summary opens
      with the drug class. */
  lemma PropofolHitShape()
    ensures DrugHit(PropofolDrug).path == "/#pharmaceuticals-propofol"
    ensures StartsWith(DrugHit(PropofolDrug).description, "Hipnótico - ")
  {
    DrugSummaryShape(PropofolDrug);
  }

  lemma PropofolQueryIsItsOwnLowering()
    ensures !IsBlank("propofol") && Lower("propofol") == "propofol"
  {
    assert !IsWhitespace("propofol"[0]);
  }

  lemma DrugsPassSingle(q: string, d: Drug)
    requires DrugMatches(q, d)
    ensures DrugsPass(q, [d]) == [DrugHit(d)]
  {
    assert [d][..0] == [];
  }
}
