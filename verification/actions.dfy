/**
 * The action generator (`generateActionItems`): two recommendations for every
 * document, plus two type-specific ones for three of the types.
 */
module Actions {
  import opened Levels
  import opened Classifier

  /** A recommended step; its title, content and priority are fixed by the member functions below. */
  datatype Action =
    | ReviewCarefully
    | SeekLegalAdvice
    | PrepareSecurityDeposit
    | DocumentPropertyCondition
    | UnderstandConfidentialityScope
    | KeepPersonalWorkSeparate
    | MonitorTermChanges
    | UnderstandUsageRights
  {
    function Title(): string {
      match this
      case ReviewCarefully => "Review Carefully"
      case SeekLegalAdvice => "Seek Legal Advice"
      case PrepareSecurityDeposit => "Prepare Security Deposit"
      case DocumentPropertyCondition => "Document Property Condition"
      case UnderstandConfidentialityScope => "Understand Confidentiality Scope"
      case KeepPersonalWorkSeparate => "Keep Personal Work Separate"
      case MonitorTermChanges => "Monitor Term Changes"
      case UnderstandUsageRights => "Understand Usage Rights"
    }

    function Content(): string {
      match this
      case ReviewCarefully =>
        "Read through the entire document carefully to understand all obligations and rights."
      case SeekLegalAdvice =>
        "Consider consulting with a lawyer if you have questions about any terms or implications."
      case PrepareSecurityDeposit =>
        "Ensure you have the required security deposit amount ready before occupancy."
      case DocumentPropertyCondition =>
        "Take photos and document any existing damage before moving in to protect your deposit."
      case UnderstandConfidentialityScope =>
        "Clearly understand what information is considered confidential and your ongoing obligations."
      case KeepPersonalWorkSeparate =>
        "Ensure any personal projects or ideas are clearly documented as separate from company work."
      case MonitorTermChanges =>
        "Stay informed about changes to terms that may affect your usage of the service."
      case UnderstandUsageRights =>
        "Be clear about what you can and cannot do while using the service."
    }

    /** Action priorities are graded: never `Info`. */
    function Priority(): Grade {
      match this
      case ReviewCarefully => High
      case SeekLegalAdvice => Medium
      case PrepareSecurityDeposit => High
      case DocumentPropertyCondition => Medium
      case UnderstandConfidentialityScope => High
      case KeepPersonalWorkSeparate => Medium
      case MonitorTermChanges => Low
      case UnderstandUsageRights => Medium
    }
  }

  /** No two actions share a title. */
  lemma TitleInjective(a: Action, b: Action)
    requires a.Title() == b.Title()
    ensures a == b
  {
  }

  /** The pair of actions added for a type with specific guidance, in the order they are pushed. */
  function SpecificActions(t: DocumentType): (r: seq<Action>)
    requires HasSpecificGuidance(t)
    ensures |r| == 2 && r[0] != r[1]
    ensures r[0].Priority() == if t == TermsOfService then Low else High
    ensures r[1].Priority() == Medium
  {
    match t
    case RentalAgreement => [PrepareSecurityDeposit, DocumentPropertyCondition]
    case EmploymentContract => [UnderstandConfidentialityScope, KeepPersonalWorkSeparate]
    case TermsOfService => [MonitorTermChanges, UnderstandUsageRights]
  }

  /** The titles of each type's own pair of actions. */
  lemma SpecificActionTitles(t: DocumentType)
    requires HasSpecificGuidance(t)
    ensures var r := SpecificActions(t);
      && (t == RentalAgreement ==>
            r[0].Title() == "Prepare Security Deposit" && r[1].Title() == "Document Property Condition")
      && (t == EmploymentContract ==>
            r[0].Title() == "Understand Confidentiality Scope" && r[1].Title() == "Keep Personal Work Separate")
      && (t == TermsOfService ==>
            r[0].Title() == "Monitor Term Changes" && r[1].Title() == "Understand Usage Rights")
  {
  }

  /**
   * `generateActionItems(text, documentType)`: "Review Carefully" (high) and
   * "Seek Legal Advice" (medium) always, then the type's own pair if it has one.
   */
  function GenerateActions(t: DocumentType): (r: seq<Action>)
    ensures |r| == if HasSpecificGuidance(t) then 4 else 2
    ensures r[0] == ReviewCarefully && r[0].Priority() == High
    ensures r[1] == SeekLegalAdvice && r[1].Priority() == Medium
    ensures HasSpecificGuidance(t) ==> r[2..] == SpecificActions(t)
  {
    var base := [ReviewCarefully, SeekLegalAdvice];
    if HasSpecificGuidance(t) then base + SpecificActions(t) else base
  }

  /** The two actions every document gets carry these titles. */
  lemma BaseActionTitles(t: DocumentType)
    ensures GenerateActions(t)[0].Title() == "Review Carefully"
    ensures GenerateActions(t)[1].Title() == "Seek Legal Advice"
  {
  }

  /** No action is recommended twice. */
  lemma ActionsDistinct(t: DocumentType)
    ensures forall i, j | 0 <= i < j < |GenerateActions(t)| :: GenerateActions(t)[i] != GenerateActions(t)[j]
  {
  }

  /** The recommended actions tell apart the three guided types. */
  lemma ActionsIdentifyGuidedType(t: DocumentType, u: DocumentType)
    requires HasSpecificGuidance(t) && HasSpecificGuidance(u)
    requires GenerateActions(t) == GenerateActions(u)
    ensures t == u
  {
    assert GenerateActions(t)[2] == GenerateActions(u)[2];
  }
}
