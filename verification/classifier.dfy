/**
 * The document-type classifier (`identifyDocumentType`): an ordered list of
 * keyword rules over the lower-cased text, where the first rule that matches
 * decides the label and a generic label catches everything else.
 */
module Classifier {
  import opened Options
  import opened Text

  datatype DocumentType =
    | RentalAgreement
    | EmploymentContract
    | TermsOfService
    | PrivacyPolicy
    | LegalContract
    | LegalDocument

  /** The three types that receive a type-specific insight and type-specific actions. */
  predicate HasSpecificGuidance(t: DocumentType) {
    t == RentalAgreement || t == EmploymentContract || t == TermsOfService
  }

  /** The label the source uses for each type. */
  function Label(t: DocumentType): string {
    match t
    case RentalAgreement => "Rental Agreement"
    case EmploymentContract => "Employment Contract"
    case TermsOfService => "Terms of Service"
    case PrivacyPolicy => "Privacy Policy"
    case LegalContract => "Legal Contract"
    case LegalDocument => "Legal Document"
  }

  /** The six labels: the keys of the summary templates. */
  const AllLabels: set<string> :=
    {Label(RentalAgreement), Label(EmploymentContract), Label(TermsOfService),
     Label(PrivacyPolicy), Label(LegalContract), Label(LegalDocument)}

  /** The type a label names, if it names one: the inverse of `Label`. */
  function ParseLabel(s: string): (r: Option<DocumentType>)
    ensures r.Some? <==> s in AllLabels
  {
    if s == Label(RentalAgreement) then Some(RentalAgreement)
    else if s == Label(EmploymentContract) then Some(EmploymentContract)
    else if s == Label(TermsOfService) then Some(TermsOfService)
    else if s == Label(PrivacyPolicy) then Some(PrivacyPolicy)
    else if s == Label(LegalContract) then Some(LegalContract)
    else if s == Label(LegalDocument) then Some(LegalDocument)
    else None
  }

  /** Every label is one of exactly six strings, and parses back to its type. */
  lemma LabelRoundTrip(t: DocumentType)
    ensures Label(t) in AllLabels
    ensures ParseLabel(Label(t)) == Some(t)
  {
  }

  /** Parsing a label and printing the type gives the label back. */
  lemma ParseLabelRoundTrip(s: string)
    requires ParseLabel(s).Some?
    ensures Label(ParseLabel(s).value) == s
  {
  }

  /** No two types share a label. */
  lemma LabelInjective(t: DocumentType, u: DocumentType)
    requires Label(t) == Label(u)
    ensures t == u
  {
    LabelRoundTrip(t);
    LabelRoundTrip(u);
  }

  // ---------------------------------------------------------------------------
  // The rules
  // ---------------------------------------------------------------------------

  const RentalKeywords: seq<string> := ["tenant", "landlord", "rent", "deposit"]
  const EmploymentKeywords: seq<string> := ["employee", "employment", "company", "trade secrets"]
  const PrivacyKeywords: seq<string> := ["privacy", "data", "personal information"]
  const ContractKeywords: seq<string> := ["contract", "agreement"]

  /** Some keyword of `keys` occurs in `lower`. */
  predicate MentionsAny(lower: string, keys: seq<string>) {
    exists k | 0 <= k < |keys| :: Contains(lower, keys[k])
  }

  /**
   * The terms-of-service test, grouped the way JavaScript groups
   * `a && b || c || d`: `&&` binds tighter than `||`.
   */
  predicate TermsOfServiceRule(lower: string) {
    || (Contains(lower, "terms") && Contains(lower, "service"))
    || Contains(lower, "user")
    || Contains(lower, "accessing")
  }

  /** The keyword rule that selects `t`; the generic type's rule always holds. */
  predicate Matches(t: DocumentType, lower: string) {
    match t
    case RentalAgreement => MentionsAny(lower, RentalKeywords)
    case EmploymentContract => MentionsAny(lower, EmploymentKeywords)
    case TermsOfService => TermsOfServiceRule(lower)
    case PrivacyPolicy => MentionsAny(lower, PrivacyKeywords)
    case LegalContract => MentionsAny(lower, ContractKeywords)
    case LegalDocument => true
  }

  /** The position of each type's rule in the evaluation order. */
  function Rank(t: DocumentType): nat {
    match t
    case RentalAgreement => 0
    case EmploymentContract => 1
    case TermsOfService => 2
    case PrivacyPolicy => 3
    case LegalContract => 4
    case LegalDocument => 5
  }

  /** `t` is the first type, in rule order, whose rule matches `lower`. */
  predicate FirstMatch(t: DocumentType, lower: string) {
    Matches(t, lower) && forall u: DocumentType :: Rank(u) < Rank(t) ==> !Matches(u, lower)
  }

  /** `identifyDocumentType`: the first matching rule wins. */
  function Classify(text: string): (t: DocumentType)
    ensures FirstMatch(t, ToLower(text))
  {
    var lower := ToLower(text);
    if MentionsAny(lower, RentalKeywords) then RentalAgreement
    else if MentionsAny(lower, EmploymentKeywords) then EmploymentContract
    else if TermsOfServiceRule(lower) then TermsOfService
    else if MentionsAny(lower, PrivacyKeywords) then PrivacyPolicy
    else if MentionsAny(lower, ContractKeywords) then LegalContract
    else LegalDocument
  }

  // ---------------------------------------------------------------------------
  // Properties of the classifier
  // ---------------------------------------------------------------------------

  /** At most one type is the first match, so the first-match reading determines the result. */
  lemma FirstMatchUnique(t: DocumentType, u: DocumentType, lower: string)
    requires FirstMatch(t, lower) && FirstMatch(u, lower)
    ensures t == u
  {
  }

  lemma ClassifyIsFirstMatch(text: string, t: DocumentType)
    ensures Classify(text) == t <==> FirstMatch(t, ToLower(text))
  {
    if FirstMatch(t, ToLower(text)) {
      FirstMatchUnique(t, Classify(text), ToLower(text));
    }
  }

  /** Any rental keyword makes the text a rental agreement, whatever else it mentions. */
  lemma RentalWins(text: string, k: int)
    requires 0 <= k < |RentalKeywords| && Contains(ToLower(text), RentalKeywords[k])
    ensures Classify(text) == RentalAgreement
  {
  }

  /** Conversely, a rental agreement always mentions a rental keyword. */
  lemma RentalNeedsKeyword(text: string)
    requires Classify(text) == RentalAgreement
    ensures MentionsAny(ToLower(text), RentalKeywords)
  {
  }

  /** "user" alone selects terms of service once the first two rules have failed. */
  lemma UserAloneIsTermsOfService(text: string)
    requires Contains(ToLower(text), "user")
    requires !MentionsAny(ToLower(text), RentalKeywords)
    requires !MentionsAny(ToLower(text), EmploymentKeywords)
    ensures Classify(text) == TermsOfService
  {
  }

  /**
   * The terms-of-service outcome, spelled out: no rental or employment keyword,
   * and either both "terms" and "service", or "user", or "accessing".
   */
  lemma TermsOfServiceIff(text: string)
    ensures var lower := ToLower(text);
      Classify(text) == TermsOfService <==>
        && !MentionsAny(lower, RentalKeywords)
        && !MentionsAny(lower, EmploymentKeywords)
        && ((Contains(lower, "terms") && Contains(lower, "service"))
            || Contains(lower, "user") || Contains(lower, "accessing"))
  {
  }

  /** The generic label is returned exactly when no rule before it matches. */
  lemma GenericIffNoRule(text: string)
    ensures Classify(text) == LegalDocument <==>
      forall u: DocumentType :: u != LegalDocument ==> !Matches(u, ToLower(text))
  {
    var lower := ToLower(text);
    if forall u: DocumentType :: u != LegalDocument ==> !Matches(u, lower) {
      assert FirstMatch(LegalDocument, lower);
      ClassifyIsFirstMatch(text, LegalDocument);
    }
  }

  /** Classification ignores letter case. */
  lemma ClassifyIgnoresCase(text: string)
    ensures Classify(ToLower(text)) == Classify(text)
  {
    ToLowerIdempotent(text);
  }

  // ---------------------------------------------------------------------------
  // Worked examples of the precedence rules
  // ---------------------------------------------------------------------------

  /** "rent" is found inside "current", so the rental rule captures this text. */
  lemma CurrentUserIsRental()
    ensures Classify("The current user agrees.") == RentalAgreement
  {
    var text := "The current user agrees.";
    var lower := ToLower(text);
    assert text[7] == 'r' && text[8] == 'e' && text[9] == 'n' && text[10] == 't';
    ContainsAt(lower, "rent", 7);
    assert Contains(lower, RentalKeywords[2]);
  }

  /** "terms" without "service", "user" or "accessing" does not trigger the terms-of-service rule. */
  lemma TermsAloneIsNotTermsOfService(text: string)
    requires Contains(ToLower(text), "terms")
    requires !Contains(ToLower(text), "service")
    requires !Contains(ToLower(text), "user") && !Contains(ToLower(text), "accessing")
    ensures Classify(text) != TermsOfService
  {
  }
}
