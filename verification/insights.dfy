/**
 * The insight generator (`generateInsights`): document type, complexity tier
 * and reading time, plus one type-specific insight for three of the types.
 */
module Insights {
  import opened Text
  import opened Decimal
  import opened Levels
  import opened Classifier

  /** Word counts above this are "High" complexity. */
  const HighThreshold: nat := 200
  /** Word counts above this (and not above `HighThreshold`) are "Medium" complexity. */
  const MediumThreshold: nat := 100
  /** Words read per minute of careful review. */
  const WordsPerMinute: nat := 200

  /** The complexity tier of a text of `wordCount` words; both thresholds are strict. */
  function Complexity(wordCount: nat): (g: Grade)
    ensures g == High <==> wordCount > HighThreshold
    ensures g == Medium <==> MediumThreshold < wordCount <= HighThreshold
    ensures g == Low <==> wordCount <= MediumThreshold
  {
    if wordCount > HighThreshold then High
    else if wordCount > MediumThreshold then Medium
    else Low
  }

  /** A longer text is never judged simpler. */
  lemma ComplexityMonotone(a: nat, b: nat)
    requires a <= b
    ensures Weight(Complexity(a)) <= Weight(Complexity(b))
  {
  }

  /** The tier boundaries sit exactly at 100 and 200 words. */
  lemma ComplexityBoundaries()
    ensures Complexity(100) == Low && Complexity(101) == Medium
    ensures Complexity(200) == Medium && Complexity(201) == High
  {
  }

  /** The status of the complexity insight, chosen from the tier name as the source does. */
  function ComplexityStatus(g: Grade): (l: Level)
    ensures l == g
  {
    if GradeName(g) == "High" then High
    else if GradeName(g) == "Medium" then Medium
    else Low
  }

  /** The lower-cased tier name the insight prints is the status name. */
  lemma TierWordIsStatusName(g: Grade)
    ensures ToLower(GradeName(g)) == Name(ComplexityStatus(g))
  {
    var w := GradeName(g);
    assert ToLower(w)[0] == LowerChar(w[0]);
  }

  /** `Math.ceil(wordCount / 200)`: the fewest whole minutes that cover the text. */
  function ReadingTime(wordCount: nat): (minutes: nat)
    ensures wordCount <= WordsPerMinute * minutes
    ensures minutes == 0 || WordsPerMinute * (minutes - 1) < wordCount
  {
    (wordCount + WordsPerMinute - 1) / WordsPerMinute
  }

  /** Reading time is zero only for an empty text, and a few sample values. */
  lemma ReadingTimeFacts(wordCount: nat)
    ensures ReadingTime(wordCount) == 0 <==> wordCount == 0
    ensures ReadingTime(450) == 3 && ReadingTime(200) == 1 && ReadingTime(201) == 2
  {
  }

  /** "minute" for exactly one minute, "minutes" otherwise (including zero). */
  function MinuteUnit(minutes: nat): (unit: string)
    ensures unit == "minute" <==> minutes == 1
    ensures unit == "minutes" <==> minutes != 1
  {
    "minute" + (if minutes != 1 then "s" else "")
  }

  /**
   * One insight card, identified by what it reports; its title, its content
   * and its status are fixed by the member functions below.
   */
  datatype Insight =
    | DocumentTypeNote(documentType: DocumentType)
    | ComplexityNote(wordCount: nat)
    | ReadingTimeNote(wordCount: nat)
    | FinancialObligations
    | ConfidentialityRequirements
    | BindingAgreement
  {
    function Title(): string {
      match this
      case DocumentTypeNote(_) => "Document Type"
      case ComplexityNote(_) => "Complexity Level"
      case ReadingTimeNote(_) => "Reading Time"
      case FinancialObligations => "Financial Obligations"
      case ConfidentialityRequirements => "Confidentiality Requirements"
      case BindingAgreement => "Binding Agreement"
    }

    /** The card's text; the first three interpolate the type, the tier and the word count, and the reading time. */
    function Content(): string {
      match this
      case DocumentTypeNote(t) =>
        "This appears to be a " + Label(t) + " based on the language and terms used."
      case ComplexityNote(n) =>
        GradeName(Complexity(n)) + " complexity - This document contains " + NatToString(n)
          + " words with " + ToLower(GradeName(Complexity(n))) + " legal complexity."
      case ReadingTimeNote(n) =>
        "Estimated reading time: " + NatToString(ReadingTime(n)) + " " + MinuteUnit(ReadingTime(n))
          + " for careful review."
      case FinancialObligations =>
        "This document contains specific financial obligations including deposits and potential fees."
      case ConfidentialityRequirements =>
        "Strong confidentiality and non-disclosure obligations are present in this document."
      case BindingAgreement =>
        "By using the service, you automatically agree to these terms - no separate signature required."
    }

    function Status(): Level {
      match this
      case DocumentTypeNote(_) => Info
      case ComplexityNote(n) => ComplexityStatus(Complexity(n))
      case ReadingTimeNote(_) => Info
      case FinancialObligations => Medium
      case ConfidentialityRequirements => High
      case BindingAgreement => Medium
    }
  }

  /** The title tells the kind of insight. */
  lemma TitleIdentifiesKind(a: Insight, b: Insight)
    requires a.Title() == b.Title()
    ensures a.DocumentTypeNote? == b.DocumentTypeNote?
    ensures a.ComplexityNote? == b.ComplexityNote?
    ensures a.ReadingTimeNote? == b.ReadingTimeNote?
    ensures !a.DocumentTypeNote? && !a.ComplexityNote? && !a.ReadingTimeNote? ==> a == b
  {
  }

  /** The document-type card names the detected type. */
  lemma DocumentTypeContent(t: DocumentType)
    ensures Contains(DocumentTypeNote(t).Content(), Label(t))
  {
    ContainsEnd("This appears to be a ", Label(t));
    ContainsExtend("This appears to be a " + Label(t), " based on the language and terms used.", Label(t));
  }

  /** The complexity card prints the word count and its status is the complexity tier. */
  lemma ComplexityContent(wordCount: nat)
    ensures Contains(ComplexityNote(wordCount).Content(), NatToString(wordCount))
    ensures ComplexityNote(wordCount).Status() == Complexity(wordCount)
  {
    var tier := GradeName(Complexity(wordCount));
    var digits := NatToString(wordCount);
    var front := tier + " complexity - This document contains ";
    ContainsEnd(front, digits);
    ContainsExtend(front + digits, " words with ", digits);
    ContainsExtend(front + digits + " words with ", ToLower(tier), digits);
    ContainsExtend(front + digits + " words with " + ToLower(tier), " legal complexity.", digits);
  }

  /** The reading-time card prints the minutes followed by the right unit. */
  lemma ReadingTimeContent(wordCount: nat)
    ensures var minutes := ReadingTime(wordCount);
      Contains(ReadingTimeNote(wordCount).Content(), NatToString(minutes) + " " + MinuteUnit(minutes))
  {
    var minutes := ReadingTime(wordCount);
    var front := "Estimated reading time: ";
    var piece := NatToString(minutes) + " " + MinuteUnit(minutes);
    AppendAssociative(front, NatToString(minutes) + " ", MinuteUnit(minutes));
    AppendAssociative(front, NatToString(minutes), " ");
    ContainsEnd(front, piece);
    ContainsExtend(front + piece, " for careful review.", piece);
  }

  /** The insight added for the three types with specific guidance. */
  function SpecificInsight(t: DocumentType): (i: Insight)
    requires HasSpecificGuidance(t)
    ensures t == RentalAgreement ==> i.Title() == "Financial Obligations" && i.Status() == Medium
    ensures t == EmploymentContract ==> i.Title() == "Confidentiality Requirements" && i.Status() == High
    ensures t == TermsOfService ==> i.Title() == "Binding Agreement" && i.Status() == Medium
  {
    match t
    case RentalAgreement => FinancialObligations
    case EmploymentContract => ConfidentialityRequirements
    case TermsOfService => BindingAgreement
  }

  /**
   * `generateInsights(text, documentType, wordCount)`: the document-type,
   * complexity and reading-time cards in that order, then the type-specific
   * card when the type has one.
   */
  function GenerateInsights(t: DocumentType, wordCount: nat): (r: seq<Insight>)
    ensures |r| == if HasSpecificGuidance(t) then 4 else 3
    ensures r[0] == DocumentTypeNote(t) && r[0].Status() == Info
    ensures r[1] == ComplexityNote(wordCount) && r[1].Status() == Complexity(wordCount)
    ensures r[2] == ReadingTimeNote(wordCount) && r[2].Status() == Info
    ensures HasSpecificGuidance(t) ==> r[3] == SpecificInsight(t)
  {
    var base := [DocumentTypeNote(t), ComplexityNote(wordCount), ReadingTimeNote(wordCount)];
    if HasSpecificGuidance(t) then base + [SpecificInsight(t)] else base
  }

  /** The three cards every document gets carry these titles. */
  lemma BaseInsightTitles(t: DocumentType, wordCount: nat)
    ensures var r := GenerateInsights(t, wordCount);
      && r[0].Title() == "Document Type"
      && r[1].Title() == "Complexity Level"
      && r[2].Title() == "Reading Time"
  {
  }

  /** No insight card appears twice in one list. */
  lemma InsightsDistinct(t: DocumentType, wordCount: nat)
    ensures var r := GenerateInsights(t, wordCount);
      forall i, j | 0 <= i < j < |r| :: r[i] != r[j]
  {
  }
}
