/**
 * The summary selector (`generateSummary`): one fixed plain-English template
 * per document type, looked up by label with the generic template as fallback.
 * Each template is represented by its opening sentence: the selection logic
 * does not depend on the rest of the prose.
 */
module Summary {
  import opened Options
  import opened Classifier

  const RentalSummary: string :=
    "This rental agreement section explains important terms for your tenancy."

  const EmploymentSummary: string :=
    "This employment contract section covers confidentiality and proprietary information."

  const TermsOfServiceSummary: string :=
    "This terms of service section establishes the basic user agreement."

  const PrivacySummary: string :=
    "This privacy policy section explains how your personal information is collected, used, and protected."

  const ContractSummary: string :=
    "This legal contract establishes binding obligations and rights between the parties involved."

  const GenericSummary: string :=
    "This legal document contains important provisions that establish rights, obligations, and legal relationships."

  /**
   * The `templates` table, keyed by type rather than by label. Every template is
   * non-empty, so `||` never skips it, and only the generic type has the
   * generic template.
   */
  function Template(t: DocumentType): (r: string)
    ensures r != []
    ensures r == GenericSummary <==> t == LegalDocument
  {
    match t
    case RentalAgreement => RentalSummary
    case EmploymentContract => EmploymentSummary
    case TermsOfService => TermsOfServiceSummary
    case PrivacyPolicy => PrivacySummary
    case LegalContract => ContractSummary
    case LegalDocument => GenericSummary
  }

  /**
   * `templates[name] || templates['Legal Document']`: a name that is the label of one of
   * the six types gets that type's template, any other string the generic one.
   */
  function SummaryForLabel(name: string): (r: string)
    ensures name in AllLabels ==> r == Template(ParseLabel(name).value)
    ensures name !in AllLabels ==> r == GenericSummary
  {
    Template(ParseLabel(name).GetOr(LegalDocument))
  }

  /** `generateSummary(text, documentType)`: the template of the classified type. */
  function Summarize(t: DocumentType): (r: string)
    ensures r == Template(t)
  {
    LabelRoundTrip(t);
    SummaryForLabel(Label(t))
  }

  /** Each type has a template of its own: the summary identifies the type. */
  lemma TemplateInjective(t: DocumentType, u: DocumentType)
    requires Template(t) == Template(u)
    ensures t == u
  {
  }
}
