# Legal document analysis core, modelled in Dafny

This project models the analysis pipeline of the `LegalDocumentAI` browser demo
(`app.js`). The pipeline takes the text the user pasted and does the following:

- trims it and refuses it when its `length` is below ten. JavaScript counts
  `length` in UTF-16 code units, so a character outside the Basic Multilingual
  Plane counts twice;
- counts its words by splitting on runs of white space;
- classifies it into one of six document types, using ordered keyword rules over
  the lower-cased text;
- extracts at most eight legal terms. The twelve-entry `legalTerms` dictionary
  is scanned first, then five contextual terms that have trigger keywords;
- selects a canned summary for the type;
- builds three insight cards (plus one for three of the types) and two action
  items (plus two for the same three types).

Everything is pure and deterministic. The model uses pure functions over
immutable sequences, and strings are `seq<char>`.

| module | file | what it holds |
|---|---|---|
| `Options` | options.dfy | `Option` and `GetOr`, the model of JavaScript's `x \|\| default` |
| `Sequences` | sequences.dfy | `IsSubsequence`: order-preserving selection, used by the term scans and the word filter |
| `Text` | text.dfy | ECMAScript white space, ASCII `toLowerCase`, `includes` (`Contains`), `trim` |
| `Words` | words.dfy | `split(/\s+/)` with the empty-field filter, and the word count |
| `Decimal` | decimal.dfy | decimal rendering of the numbers the insight cards interpolate |
| `Classifier` | classifier.dfy | `identifyDocumentType` as a first-match rule list, and the six labels |
| `Terms` | terms.dfy | `legalTerms`, the contextual terms and `extractLegalTerms` |
| `Summary` | summary.dfy | `generateSummary` |
| `Levels` | levels.dfy | the info/low/medium/high scale used for statuses and priorities |
| `Insights` | insights.dfy | `generateInsights`: complexity tiers, reading time, cards |
| `Actions` | actions.dfy | `generateActionItems` |
| `Analysis` | analysis.dfy | `generateResults` and the trim-and-length gate of `analyzeDocument` |

Modelling choices:

- **Document types** form a datatype. The label strings come from
  `Classifier.Label`. `Classifier.ParseLabel` is their inverse, so the source's
  string-keyed lookup `templates[documentType] || templates['Legal Document']`
  is modelled on strings, with the fallback.
- **The classifier's specification is declarative.** `FirstMatch` says the
  result is the first type in rule order whose rule matches. The implementation
  is the source's if-chain. The terms-of-service rule is grouped as JavaScript
  groups `a && b || c || d`.
- **Substring search is literal.** So "rent" is found inside "current" or
  "different", and such texts are rental agreements
  (`Classifier.CurrentUserIsRental`).
- **The term extractor is generic over its two tables.** Its guarantees are
  proved for any tables that satisfy `Terms.WellFormedTables`: each table has
  distinct names, and no contextual name is a dictionary key. The source's
  tables are shown to satisfy this. Under that condition the "already included"
  test never fires (`Terms.AddContextualWithoutClash`), so the result is a prefix
  of the dictionary hits followed by the contextual hits. The reported names are
  paired with their stored definitions by `Terms.Definition`, one lookup over
  the seventeen names.
- **Insight cards and action items are tagged values** (`Insights.Insight`,
  `Actions.Action`). Member functions give each one its title, content and
  status or priority, with the source's wording and interpolation. The lists the
  generators return are sequences of these tags.
- **`length` is the UTF-16 code-unit count** (`Text.Utf16Length`). Dafny's
  `|s|` counts Unicode scalar values, so the ten-character gate is stated on
  the code-unit count instead.
- **Stored definitions form one table** (`Terms.StoredDefinitions`): the
  dictionary's entries, then the contextual terms' entries. `Terms.Definition`
  looks a name up in it.
- **Integers are unbounded naturals.** Word counts are never negative, and
  `Math.ceil(wordCount / 200)` is integer ceiling division.

## Model

| member | source | states |
|---|---|---|
| Text.ToLower | app.js:387 | lower-casing keeps the length, maps each upper-case ASCII letter 32 code points up and leaves every other character unchanged; the result has no upper-case letter |
| Text.ToLowerIdempotent | app.js:387 | lower-casing an already lower-cased text changes nothing |
| Text.Contains | app.js:389-397 | `includes` finds a pattern only where it fits in the text, and for equal lengths only the text itself; its full meaning is `Text.ContainsIffOccurs` |
| Text.ContainsIffOccurs | app.js:389 | the left-to-right `includes` scan succeeds exactly when the pattern occurs at some start position |
| Text.ContainsTransitive | app.js:389 | a text containing a piece contains everything that piece contains |
| Text.Utf16Length | app.js:284 | `length` counts each character once, and twice when it lies outside the Basic Multilingual Plane; it equals the character count exactly when there is no such character |
| Text.Utf16LengthAppend | app.js:284 | the `length` of a concatenation is the sum of the lengths |
| Text.Trim | app.js:283 | the trimmed text has no white space at either end and sits in the input between a leading run and a trailing run of white space |
| Text.TrimmedCore | app.js:283 | dropping a leading and then a trailing run of white space leaves a core padded on both sides by white space only |
| Text.TrimIdempotent | app.js:283 | trimming twice is trimming once |
| Words.SpaceRunsOf | app.js:369 | the maximal runs of white space, each non-empty and all white space, as many as `SpaceRuns` counts |
| Words.SplitOnSpaceRuns | app.js:369 | the fields contain no white space; putting the maximal white-space runs back between consecutive fields gives the text back, so the fields split exactly at the runs; there is one field more than there are runs; joined together the fields are the text's non-space characters; the first field is empty exactly when the text is empty or starts with white space |
| Words.NonEmpty | app.js:369 | `filter(word => word.length > 0)` keeps the fields in order, drops exactly the empty ones and keeps every non-empty one, so the joined text is unchanged |
| Words.WordsOf | app.js:369 | the words are non-empty, contain no white space, and joined together are exactly the text's non-space characters |
| Words.WordCount | app.js:369 | the word count equals the number of positions where a word ends |
| Words.WordsOfMatchWordEnds | app.js:369 | splitting on white-space runs and dropping empty fields keeps exactly one field per position where a word ends |
| Words.WordCountPositive | app.js:369 | a text has a word exactly when some character of it is not white space |
| Words.TrimmedHasWord | app.js:283-287 | a non-empty trimmed text has at least one word |
| Words.WordCountIgnoresCase | app.js:369 | the word count does not change under lower-casing |
| Decimal.NatToString | app.js:471 | the rendered number is a non-empty digit string with no leading zero unless it is "0" |
| Decimal.NatToStringRoundTrip | app.js:471 | reading back the rendered digits gives the number |
| Decimal.NatToStringInjective | app.js:471 | distinct counts render as distinct strings |
| Classifier.ParseLabel | app.js:442-456 | a string names a type exactly when it is one of the six labels |
| Classifier.LabelRoundTrip | app.js:386-401 | every returned label is one of six strings and parses back to its type |
| Classifier.ParseLabelRoundTrip | app.js:442-456 | parsing a label and printing the type gives back the same label |
| Classifier.LabelInjective | app.js:386-401 | no two types share a label |
| Classifier.Classify | app.js:386-402 | the type returned is the first, in rule order, whose keyword rule matches the lower-cased text; the generic type matches everything |
| Classifier.FirstMatchUnique | app.js:386-402 | at most one type is the first match, so the rule order determines the result |
| Classifier.ClassifyIsFirstMatch | app.js:386-402 | the classifier returns a type if and only if that type is the first match |
| Classifier.RentalWins | app.js:389-390 | any of "tenant", "landlord", "rent" or "deposit" makes the text a rental agreement, whatever else it contains |
| Classifier.RentalNeedsKeyword | app.js:389-390 | a rental agreement always contains one of the rental keywords |
| Classifier.CurrentUserIsRental | app.js:389-390 | "The current user agrees." is a rental agreement, because "rent" occurs inside "current" |
| Classifier.UserAloneIsTermsOfService | app.js:393-394 | "user" with no rental or employment keyword gives terms of service, without "terms" or "service" |
| Classifier.TermsOfServiceIff | app.js:393-394 | terms of service is returned exactly when no rental or employment keyword occurs and ("terms" and "service") or "user" or "accessing" occurs |
| Classifier.TermsAloneIsNotTermsOfService | app.js:393-394 | "terms" without "service", "user" or "accessing" never gives terms of service |
| Classifier.GenericIffNoRule | app.js:399-401 | the generic label is returned exactly when none of the five keyword rules matches |
| Classifier.ClassifyIgnoresCase | app.js:387 | classification does not depend on letter case |
| Terms.DictionaryMatches | app.js:408-415 | the dictionary scan yields exactly the keys whose lower-cased form occurs, in table order and without repeats |
| Terms.AddContextual | app.js:426-436 | the contextual scan only appends to what the dictionary scan found; every appended name belongs to a contextual term whose keyword occurs; appending keeps names distinct |
| Terms.AddContextualWithoutClash | app.js:426-436 | when no contextual name is already present and the contextual names are distinct, the scan appends exactly the matching contextual terms in order |
| Terms.ContextualMatchesJustified | app.js:427-433 | every contextual hit is the name of a contextual term one of whose keywords occurs |
| Terms.DictionaryTermsDistinct | app.js:19-32 | the twelve `legalTerms` keys are distinct |
| Terms.ContextualTermsDistinct | app.js:418-424 | the five contextual names are distinct |
| Terms.NoSharedNames | app.js:418-424 | no contextual name is one of the dictionary keys |
| Terms.TablesWellFormed | app.js:404-438 | the twelve dictionary keys are distinct, the five contextual names are distinct, and no contextual name is a dictionary key |
| Terms.ScansYieldCandidates | app.js:408-436 | over well-formed tables the two scans produce the dictionary hits followed by the contextual hits, with distinct names, each justified by the text |
| Terms.Take | app.js:438 | `slice(0, n)` keeps a prefix of length `min(n, length)` |
| Terms.ExtractNamesWith | app.js:404-438 | over any well-formed tables the result has at most eight names, is a prefix of the dictionary hits followed by the contextual hits, keeps all of them up to eight, has no repeats, and every name is justified by the text |
| Terms.ExtractNames | app.js:404-438 | the same guarantees for the source's two tables |
| Terms.Lookup | app.js:410-413 | the lookup finds a definition exactly when some entry carries the name, and the definition it finds is one stored under that name |
| Terms.Definition | app.js:19-32 | a stored name gets the definition stored with it; any other name gets the empty string |
| Terms.StoredDefinitionNames | app.js:418-424 | the stored definitions are keyed by the twelve dictionary keys, then the five contextual names, in order |
| Terms.WithDefinitions | app.js:410-413 | each reported name is paired with the definition stored for it |
| Terms.ExtractTerms | app.js:404-438 | the entries carry the extracted names in order, at most eight, each with its stored definition |
| Terms.ExtractedEntries | app.js:404-438 | the extracted entries are at most eight, with distinct names, each justified by the text and carrying its stored definition |
| Terms.EarlyDictionaryTermReported | app.js:408-438 | a key among the first eight of the dictionary that occurs in the text is always reported, since the cap cannot drop it |
| Terms.EarlyKeyReported | app.js:408-438 | the same over any well-formed tables |
| Terms.MatchPosition | app.js:408-415 | a key that occurs sits among the dictionary hits at or before its table position |
| Terms.ReportedKeyOccurs | app.js:409 | a reported name that is not a contextual name is a dictionary key whose lower-cased form occurs in the text |
| Terms.NoHitsNoCandidates | app.js:404-438 | with no key and no keyword present, neither scan finds anything |
| Terms.NoKeywordNoTerms | app.js:404-438 | a text without any key or contextual keyword yields no terms |
| Terms.ExtractIgnoresCase | app.js:406 | term extraction does not depend on letter case |
| Summary.Template | app.js:442-454 | every template is non-empty, so `\|\|` never passes over it, and only the generic type has the generic template |
| Summary.SummaryForLabel | app.js:456 | a label of one of the six types gets that type's template, and any other string gets the generic template |
| Summary.Summarize | app.js:441-457 | looking up the classified type's label always finds the template of that type, so the fallback never fires for a classifier label |
| Summary.TemplateInjective | app.js:442-454 | each type has its own template, so the summary identifies the type |
| Insights.Complexity | app.js:460 | "High" exactly above 200 words, "Medium" exactly from 101 to 200, "Low" exactly up to 100 |
| Insights.ComplexityMonotone | app.js:460 | a longer text is never rated less complex |
| Insights.ComplexityBoundaries | app.js:460 | the tiers switch between 100 and 101 and between 200 and 201 |
| Insights.ComplexityStatus | app.js:472 | the complexity card's status is the tier itself |
| Insights.TierWordIsStatusName | app.js:471-472 | the lower-cased tier word printed in the card is the status string |
| Insights.ReadingTime | app.js:461 | the reading time is the fewest whole minutes at 200 words per minute that cover the text |
| Insights.ReadingTimeFacts | app.js:461 | the reading time is zero only for zero words; 450 words take 3 minutes, 200 take 1 and 201 take 2 |
| Insights.MinuteUnit | app.js:476 | the unit is "minute" exactly when the time is 1 and "minutes" otherwise, zero included |
| Insights.TitleIdentifiesKind | app.js:463-500 | the title tells the kind of card |
| Insights.DocumentTypeContent | app.js:466 | the document-type card names the detected type's label |
| Insights.ComplexityContent | app.js:471-472 | the complexity card prints the word count, and its status is the tier |
| Insights.ReadingTimeContent | app.js:476 | the reading-time card prints the minutes followed by the matching unit |
| Insights.SpecificInsight | app.js:481-500 | rental gets "Financial Obligations"/medium, employment gets "Confidentiality Requirements"/high, terms of service gets "Binding Agreement"/medium |
| Insights.GenerateInsights | app.js:459-503 | there are four cards for the three guided types and three otherwise; they are document type (info), complexity (status equal to the tier) and reading time (info), then the type's own card |
| Insights.BaseInsightTitles | app.js:463-479 | the three base cards are titled "Document Type", "Complexity Level" and "Reading Time" |
| Insights.InsightsDistinct | app.js:463-500 | no card appears twice in one list |
| Actions.TitleInjective | app.js:506-553 | no two actions share a title |
| Actions.SpecificActions | app.js:519-553 | each guided type gets two different actions: the first has high priority (low for terms of service), the second medium |
| Actions.SpecificActionTitles | app.js:520-553 | the titles of each guided type's two actions |
| Actions.GenerateActions | app.js:505-556 | there are four actions for the three guided types and two otherwise; "Review Carefully" (high) and "Seek Legal Advice" (medium) come first, then the type's own pair |
| Actions.BaseActionTitles | app.js:506-517 | the two base actions are titled "Review Carefully" and "Seek Legal Advice" |
| Actions.ActionsDistinct | app.js:505-556 | no action is recommended twice |
| Actions.ActionsIdentifyGuidedType | app.js:519-553 | the action list tells the three guided types apart |
| Analysis.GenerateResults | app.js:368-384 | the result combines the template, terms, insights and actions derived from one classification and one word count of the same text |
| Analysis.AnalyzeDocument | app.js:283-287 | input is refused exactly when its trimmed form is shorter than ten UTF-16 code units; otherwise the trimmed text is analysed, and it has at least one word and at least one minute of reading |
| Analysis.FiveEmojiAreAnalyzed | app.js:284 | five emoji outside the Basic Multilingual Plane are ten code units long and are analysed, not refused |
| Analysis.ResultTerms | app.js:371 | the result has at most eight distinct terms, each justified by the text and carrying its stored definition |
| Analysis.ResultInsights | app.js:373 | the result's insights start with the type, complexity and reading-time cards, and there are four exactly for the guided types |
| Analysis.ResultActions | app.js:374 | the result's actions start with the two base actions; there are four exactly for the guided types, which is exactly when there are four insights |
| Analysis.ResultsIgnoreCase | app.js:368-384 | letter case changes nothing in the result |
| Analysis.RentalTermsReported | app.js:408-438 | a text mentioning "security deposit", "tenant" and "landlord" reports all three terms |
| Analysis.RentalScenario | app.js:368-384 | such a text is a rental agreement with the rental summary, those three terms, four insights ending in "Financial Obligations" and four actions ending in the two rental actions |
| Analysis.GenericScenario | app.js:368-384 | a text with no rule keyword, no key and no contextual keyword gets the generic summary, no terms, three insights and two actions |
| Analysis.ReportedRentalKeyOccurs | app.js:409 | a reported rental key occurs, as written, in the lower-cased text |
| Analysis.RentalKeyMeansRental | app.js:389-390 | a text containing "security deposit", "tenant" or "landlord" is a rental agreement |
| Analysis.RentalTermMeansRental | app.js:389-415 | reporting one of the three rental dictionary terms implies the rental classification |

## Left out

- Browser plumbing is not modelled: event binding, tabs, modals, the character
  counter, the button state and toasts. These are side effects with no logic to
  state.
- `simulateProcessing` is not modelled. It is an animated delay with random
  timings and floating-point progress, and it has no effect on the result.
- Rendering of the result to HTML, copying to the clipboard, printing and the
  simulated file upload are not modelled. They are browser APIs and I/O.
- Reading the text from the page is not modelled. `Analysis.AnalyzeDocument`
  takes the text area's value as a parameter, and its refusal stands for the
  toast.
- `toLowerCase` is modelled for ASCII letters only. Other letters are left
  unchanged. White space is the full ECMAScript set.
- Summary.Summarize: each template is only its opening sentence. The rest of
  each template's prose is fixed text that plays no part in the selection.
- The string lookup `templates[...]` is modelled for the six labels and for
  strings outside them. Inherited object properties (`"constructor"` and the
  like) are not modelled, because the classifier never produces such a label.
- `Object.keys` order is the table's declaration order. That is what
  JavaScript yields for these non-numeric keys.
- Numbers are unbounded naturals. The word count and reading time of any real
  text are far below the range where JavaScript numbers lose precision.
