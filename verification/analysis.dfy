/**
 * The analysis pipeline (`generateResults`) and the validation gate in front of
 * it (`analyzeDocument`): trim the input, refuse it when shorter than ten
 * characters, otherwise classify once and derive every part of the result from
 * that one classification and one word count.
 */
module Analysis {
  import opened Text
  import opened Words
  import opened Classifier
  import opened Terms
  import opened Summary
  import opened Levels
  import opened Insights
  import opened Actions

  datatype AnalysisResult = AnalysisResult(
    summary: string,
    terms: seq<TermEntry>,
    insights: seq<Insight>,
    actions: seq<Action>)

  /** `generateResults(text)`. */
  function GenerateResults(text: string): (r: AnalysisResult)
    ensures r.summary == Template(Classify(text))
    ensures r.terms == ExtractTerms(text)
    ensures r.insights == GenerateInsights(Classify(text), WordCount(text))
    ensures r.actions == GenerateActions(Classify(text))
  {
    var wordCount := WordCount(text);
    var documentType := Classify(text);
    AnalysisResult(
      Summarize(documentType),
      ExtractTerms(text),
      GenerateInsights(documentType, wordCount),
      GenerateActions(documentType))
  }

  /** The shortest trimmed input the analyser accepts, in UTF-16 code units. */
  const MinLength: nat := 10

  datatype Outcome = TooShort | Analyzed(result: AnalysisResult)

  /**
   * `analyzeDocument`: trim, reject input whose `length` (UTF-16 code units) is
   * below ten, analyse the rest.
   */
  function AnalyzeDocument(input: string): (o: Outcome)
    ensures o.TooShort? <==> Utf16Length(Trim(input)) < MinLength
    ensures o.Analyzed? ==> o.result == GenerateResults(Trim(input))
    ensures o.Analyzed? ==> WordCount(Trim(input)) >= 1 && ReadingTime(WordCount(Trim(input))) >= 1
  {
    var text := Trim(input);
    if text == [] || Utf16Length(text) < MinLength then TooShort
    else
      TrimmedHasWord(text);
      Analyzed(GenerateResults(text))
  }

  /**
   * The gate counts code units, not characters: five emoji outside the Basic
   * Multilingual Plane are ten code units long and are analysed.
   */
  lemma FiveEmojiAreAnalyzed()
    ensures var e := "\U{1F600}\U{1F600}\U{1F600}\U{1F600}\U{1F600}";
      |e| == 5 && AnalyzeDocument(e).Analyzed?
  {
    var e := "\U{1F600}\U{1F600}\U{1F600}\U{1F600}\U{1F600}";
    assert IsTrimmed(e);
    TrimOfTrimmed(e);
    assert Utf16Length(e) == 10;
  }

  // ---------------------------------------------------------------------------
  // Properties of the whole pipeline
  // ---------------------------------------------------------------------------

  /**
   * The result's terms: at most eight distinct names, each justified by the
   * text and carrying the definition stored for it.
   */
  lemma ResultTerms(text: string)
    ensures var r := GenerateResults(text);
      && |r.terms| <= MaxTerms
      && Distinct(Names(r.terms))
      && (forall i | 0 <= i < |r.terms| :: Justified(ToLower(text), r.terms[i].term))
      && (forall i | 0 <= i < |r.terms| :: r.terms[i].definition == Definition(r.terms[i].term))
  {
    ExtractedEntries(text);
  }

  /**
   * The result's insights: the document-type, complexity and reading-time
   * cards, and a fourth card exactly for the three guided types.
   */
  lemma ResultInsights(text: string)
    ensures var r := GenerateResults(text);
      && r.insights[0] == DocumentTypeNote(Classify(text))
      && r.insights[1].Status() == Complexity(WordCount(text))
      && r.insights[2] == ReadingTimeNote(WordCount(text))
      && (|r.insights| == 4 <==> HasSpecificGuidance(Classify(text)))
      && (|r.insights| == 3 <==> !HasSpecificGuidance(Classify(text)))
  {
  }

  /**
   * The result's actions: reviewing and seeking advice first, and two more
   * exactly for the three guided types, so the insight and action lists grow
   * together.
   */
  lemma ResultActions(text: string)
    ensures var r := GenerateResults(text);
      && r.actions[0] == ReviewCarefully && r.actions[1] == SeekLegalAdvice
      && (|r.actions| == 4 <==> HasSpecificGuidance(Classify(text)))
      && (|r.actions| == 2 <==> !HasSpecificGuidance(Classify(text)))
      && (|r.actions| == 4 <==> |r.insights| == 4)
  {
  }

  /** Letter case changes nothing in the analysis. */
  lemma ResultsIgnoreCase(text: string)
    ensures GenerateResults(ToLower(text)) == GenerateResults(text)
  {
    ClassifyIgnoresCase(text);
    ExtractIgnoresCase(text);
    WordCountIgnoresCase(text);
  }

  /** The three rental dictionary keys are already lower case. */
  lemma RentalKeysAreLower()
    ensures ToLower("security deposit") == "security deposit"
    ensures ToLower("tenant") == "tenant"
    ensures ToLower("landlord") == "landlord"
  {
    ToLowerOfLower("security deposit");
    ToLowerOfLower("tenant");
    ToLowerOfLower("landlord");
  }

  /** Where the three rental keys sit in the dictionary: all among the first eight. */
  lemma RentalKeyPositions()
    ensures DictionaryTerms[0] == "security deposit"
    ensures DictionaryTerms[5] == "tenant"
    ensures DictionaryTerms[6] == "landlord"
  {
  }

  /** The three rental keys, once mentioned, are all reported: each sits among the first eight dictionary keys. */
  lemma RentalTermsReported(text: string)
    requires Contains(ToLower(text), "security deposit")
    requires Contains(ToLower(text), "tenant")
    requires Contains(ToLower(text), "landlord")
    ensures var names := ExtractNames(text);
      "security deposit" in names && "tenant" in names && "landlord" in names
  {
    RentalKeysAreLower();
    RentalKeyPositions();
    EarlyDictionaryTermReported(text, 0, "security deposit");
    EarlyDictionaryTermReported(text, 5, "tenant");
    EarlyDictionaryTermReported(text, 6, "landlord");
  }

  /**
   * A text mentioning a security deposit, a tenant and a landlord is a rental
   * agreement: it gets the rental summary, those three terms, the financial
   * obligations insight and the two rental actions.
   */
  lemma RentalScenario(text: string)
    requires Contains(ToLower(text), "security deposit")
    requires Contains(ToLower(text), "tenant")
    requires Contains(ToLower(text), "landlord")
    ensures var r := GenerateResults(text);
      && Classify(text) == RentalAgreement
      && r.summary == RentalSummary
      && "security deposit" in Names(r.terms)
      && "tenant" in Names(r.terms)
      && "landlord" in Names(r.terms)
      && |r.insights| == 4 && r.insights[3] == FinancialObligations
      && |r.actions| == 4 && r.actions[2..] == [PrepareSecurityDeposit, DocumentPropertyCondition]
  {
    assert Contains(ToLower(text), RentalKeywords[0]);
    RentalTermsReported(text);
  }

  /**
   * A text with no keyword of any rule, no dictionary key and no contextual
   * keyword gets the generic summary, no terms, three insights and two actions.
   */
  lemma GenericScenario(text: string)
    requires forall u: DocumentType :: u != LegalDocument ==> !Matches(u, ToLower(text))
    requires forall k | 0 <= k < |DictionaryTerms| :: !KeyOccurs(ToLower(text), DictionaryTerms[k])
    requires forall k | 0 <= k < |ContextualTerms| :: !HasKeyword(ToLower(text), ContextualTerms[k])
    ensures var r := GenerateResults(text);
      && Classify(text) == LegalDocument
      && r.summary == GenericSummary
      && r.terms == []
      && |r.insights| == 3
      && |r.actions| == 2
  {
    GenericIffNoRule(text);
    NoKeywordNoTerms(text);
  }

  /** The rental keyword "deposit" occurs inside the key "security deposit". */
  lemma DepositInSecurityDeposit()
    ensures Contains("security deposit", "deposit")
  {
    ContainsAt("security deposit", "deposit", 9);
  }

  /** None of the three rental keys is the name of a contextual term. */
  lemma RentalKeysNotContextual(name: string)
    requires name == "security deposit" || name == "tenant" || name == "landlord"
    ensures forall k | 0 <= k < |ContextualTerms| :: ContextualTerms[k].term != name
  {
  }

  /** A reported rental key occurs, as written, in the lower-cased text. */
  lemma ReportedRentalKeyOccurs(text: string, name: string)
    requires name in ExtractNames(text)
    requires name == "security deposit" || name == "tenant" || name == "landlord"
    ensures Contains(ToLower(text), name)
  {
    RentalKeysNotContextual(name);
    ReportedKeyOccurs(text, name);
    RentalKeysAreLower();
  }

  /** A text containing one of the rental keys is classified as rental. */
  lemma RentalKeyMeansRental(text: string, name: string)
    requires Contains(ToLower(text), name)
    requires name == "security deposit" || name == "tenant" || name == "landlord"
    ensures Classify(text) == RentalAgreement
  {
    var lower := ToLower(text);
    if name == "security deposit" {
      DepositInSecurityDeposit();
      ContainsTransitive(lower, "security deposit", "deposit");
      assert Contains(lower, RentalKeywords[3]);
    } else if name == "tenant" {
      assert Contains(lower, RentalKeywords[0]);
    } else {
      assert Contains(lower, RentalKeywords[1]);
    }
  }

  /** Reporting one of the rental dictionary terms implies the text was classified as rental. */
  lemma RentalTermMeansRental(text: string, name: string)
    requires name in ExtractNames(text)
    requires name == "security deposit" || name == "tenant" || name == "landlord"
    ensures Classify(text) == RentalAgreement
  {
    ReportedRentalKeyOccurs(text, name);
    RentalKeyMeansRental(text, name);
  }
}
