/**
 * The term extractor (`extractLegalTerms`): scan the fixed dictionary in
 * declaration order, then the contextual terms, skipping a contextual term whose
 * name is already present, and keep at most eight entries.
 *
 * The scans work on term names; the definition attached to each reported name
 * is the one the source stores with it.
 */
module Terms {
  import opened Options
  import opened Sequences
  import opened Text

  /** A reported term with its plain-English definition. */
  datatype TermEntry = TermEntry(term: string, definition: string)

  /** The keys of the `legalTerms` table, in declaration order (the order `Object.keys` yields). */
  const DictionaryTerms: seq<string> := [
    "security deposit", "trade secrets", "sole discretion", "material revision",
    "normal wear and tear", "tenant", "landlord", "termination of tenancy",
    "premises", "employee", "confidential information", "non-disclosure"
  ]

  /** A term that is reported when any one of its trigger keywords occurs. */
  datatype ContextualTerm = ContextualTerm(term: string, keywords: seq<string>)

  /** The contextual terms, in the order they are tried. */
  const ContextualTerms: seq<ContextualTerm> := [
    ContextualTerm("shall", ["shall"]),
    ContextualTerm("hereby", ["hereby"]),
    ContextualTerm("whereas", ["whereas"]),
    ContextualTerm("party", ["party", "parties"]),
    ContextualTerm("obligation", ["obligation", "obligations"])
  ]

  /**
   * The definitions the source stores: the `legalTerms` values under the twelve
   * dictionary keys, then the contextual terms' definitions.
   */
  const StoredDefinitions: seq<TermEntry> := [
    TermEntry("security deposit", "Money paid upfront to protect the landlord against damages or unpaid rent"),
    TermEntry("trade secrets", "Confidential business information that gives a competitive advantage"),
    TermEntry("sole discretion", "Complete freedom to make decisions without needing approval"),
    TermEntry("material revision", "Significant changes that substantially affect your rights or obligations"),
    TermEntry("normal wear and tear", "Expected deterioration from regular use, not tenant's fault"),
    TermEntry("tenant", "Person who rents and occupies property owned by someone else"),
    TermEntry("landlord", "Property owner who rents out their property to tenants"),
    TermEntry("termination of tenancy", "The end of a rental agreement between landlord and tenant"),
    TermEntry("premises", "The specific property or building being rented"),
    TermEntry("employee", "Person who works for a company under an employment agreement"),
    TermEntry("confidential information", "Private business information that must be kept secret"),
    TermEntry("non-disclosure", "Legal obligation to keep certain information private"),
    TermEntry("shall", "Legal term meaning \"must\" or \"is required to\" - creates a mandatory obligation"),
    TermEntry("hereby", "Legal term meaning \"by this document\" or \"through this agreement\""),
    TermEntry("whereas", "Legal term used to introduce background information or conditions"),
    TermEntry("party", "A person or entity involved in a legal agreement or contract"),
    TermEntry("obligation", "A legal duty or commitment that must be fulfilled")
  ]

  /** The definition of the first entry named `term`, if any. */
  function Lookup(entries: seq<TermEntry>, term: string): (r: Option<string>)
    ensures r.Some? <==> term in Names(entries)
    ensures r.Some? ==> TermEntry(term, r.value) in entries
    decreases |entries|
  {
    if entries == [] then None
    else if entries[0].term == term then Some(entries[0].definition)
    else
      assert Names(entries) == [entries[0].term] + Names(entries[1..]);
      Lookup(entries[1..], term)
  }

  /**
   * The definition the source stores with `term`. The two tables share no name
   * (`TablesWellFormed`), so one lookup serves both; a name with no stored
   * definition gets the empty string.
   */
  function Definition(term: string): (r: string)
    ensures term in Names(StoredDefinitions) ==> TermEntry(term, r) in StoredDefinitions
    ensures term !in Names(StoredDefinitions) ==> r == []
  {
    Lookup(StoredDefinitions, term).GetOr([])
  }

  /** The stored definitions are keyed by the dictionary keys, then the contextual names, in order. */
  lemma StoredDefinitionNames()
    ensures Names(StoredDefinitions) == DictionaryTerms + ContextualNames(ContextualTerms)
  {
  }

  /** The names of the contextual terms, in order. */
  function ContextualNames(cs: seq<ContextualTerm>): (r: seq<string>)
    ensures |r| == |cs|
    ensures forall k | 0 <= k < |cs| :: r[k] == cs[k].term
  {
    seq(|cs|, k requires 0 <= k < |cs| => cs[k].term)
  }

  /** The number of entries the extractor reports at most. */
  const MaxTerms: nat := 8

  // ---------------------------------------------------------------------------
  // Vocabulary for the contracts
  // ---------------------------------------------------------------------------

  /** No name occurs twice. */
  predicate Distinct(names: seq<string>) {
    forall i, j | 0 <= i < j < |names| :: names[i] != names[j]
  }

  /** The term names of `entries`, in order. */
  function Names(entries: seq<TermEntry>): (r: seq<string>)
    ensures |r| == |entries|
    ensures forall i | 0 <= i < |entries| :: r[i] == entries[i].term
  {
    seq(|entries|, i requires 0 <= i < |entries| => entries[i].term)
  }

  /** The dictionary key occurs in the lower-cased text (`lowerText.includes(term.toLowerCase())`). */
  predicate KeyOccurs(lower: string, term: string) {
    Contains(lower, ToLower(term))
  }

  /** One of the contextual term's keywords occurs in the lower-cased text. */
  predicate HasKeyword(lower: string, c: ContextualTerm) {
    exists k | 0 <= k < |c.keywords| :: Contains(lower, c.keywords[k])
  }

  /**
   * The name is reported for a reason the text supplies: it is a dictionary
   * key that occurs, or the name of a contextual term one of whose keywords occurs.
   */
  predicate JustifiedBy(lower: string, name: string, keys: seq<string>, cs: seq<ContextualTerm>) {
    || (name in keys && KeyOccurs(lower, name))
    || (exists c | c in cs :: c.term == name && HasKeyword(lower, c))
  }

  /** Justification against the source's two tables. */
  predicate Justified(lower: string, name: string) {
    JustifiedBy(lower, name, DictionaryTerms, ContextualTerms)
  }

  // ---------------------------------------------------------------------------
  // The two scans
  // ---------------------------------------------------------------------------

  /** The dictionary scan: exactly the keys that occur, in table order. */
  function DictionaryMatches(lower: string, keys: seq<string>): (r: seq<string>)
    ensures forall n :: n in r <==> n in keys && KeyOccurs(lower, n)
    ensures IsSubsequence(r, keys)
    ensures Distinct(keys) ==> Distinct(r)
    decreases |keys|
  {
    if keys == [] then []
    else
      var rest := DictionaryMatches(lower, keys[1..]);
      if KeyOccurs(lower, keys[0]) then
        assert Distinct(keys) ==> Distinct([keys[0]] + rest) by {
          if Distinct(keys) {
            assert keys[0] !in keys[1..];
          }
        }
        [keys[0]] + rest
      else rest
  }

  /** Reference: the names of the contextual terms whose keyword occurs, in order, with no de-duplication. */
  function ContextualMatches(lower: string, cs: seq<ContextualTerm>): seq<string>
    decreases |cs|
  {
    if cs == [] then []
    else (if HasKeyword(lower, cs[0]) then [cs[0].term] else []) + ContextualMatches(lower, cs[1..])
  }

  /**
   * The contextual scan: each term is appended when one of its keywords occurs
   * and no entry of that name has been collected so far.
   */
  function AddContextual(found: seq<string>, cs: seq<ContextualTerm>, lower: string): (r: seq<string>)
    ensures found <= r
    ensures Distinct(found) ==> Distinct(r)
    ensures forall i | |found| <= i < |r| :: r[i] in ContextualMatches(lower, cs)
    decreases |cs|
  {
    if cs == [] then found
    else
      var c := cs[0];
      var next := if HasKeyword(lower, c) && c.term !in found then found + [c.term] else found;
      AddContextual(next, cs[1..], lower)
  }

  /** The names of the contextual terms are pairwise distinct. */
  predicate DistinctContextualNames(cs: seq<ContextualTerm>) {
    forall i, j | 0 <= i < j < |cs| :: cs[i].term != cs[j].term
  }

  /** One step of the contextual scan when the term's name is not yet collected. */
  lemma AddContextualStep(found: seq<string>, cs: seq<ContextualTerm>, lower: string)
    requires cs != [] && cs[0].term !in found
    ensures AddContextual(found, cs, lower)
         == AddContextual(found + ContextualMatches(lower, cs[..1]), cs[1..], lower)
    ensures ContextualMatches(lower, cs) == ContextualMatches(lower, cs[..1]) + ContextualMatches(lower, cs[1..])
    ensures ContextualMatches(lower, cs[..1]) == if HasKeyword(lower, cs[0]) then [cs[0].term] else []
  {
    var c := cs[0];
    assert cs[..1] == [c];
    assert [c][1..] == [];
    var hit := if HasKeyword(lower, c) then [c.term] else [];
    assert ContextualMatches(lower, [c]) == hit + ContextualMatches(lower, []);
    assert hit + [] == hit;
    if !HasKeyword(lower, c) {
      assert found + hit == found;
    }
  }

  /** The no-clash conditions carry over from `cs` to its tail once the head is handled. */
  lemma NoClashTail(found: seq<string>, cs: seq<ContextualTerm>, hit: seq<string>)
    requires cs != [] && DistinctContextualNames(cs)
    requires forall k | 0 <= k < |cs| :: cs[k].term !in found
    requires forall i | 0 <= i < |hit| :: hit[i] == cs[0].term
    ensures DistinctContextualNames(cs[1..])
    ensures forall k | 0 <= k < |cs[1..]| :: cs[1..][k].term !in found + hit
  {
    var tail := cs[1..];
    forall k | 0 <= k < |tail|
      ensures tail[k].term !in found + hit
    {
      assert tail[k] == cs[k + 1];
      assert cs[0].term != cs[k + 1].term;
    }
    forall i, j | 0 <= i < j < |tail|
      ensures tail[i].term != tail[j].term
    {
      assert tail[i] == cs[i + 1] && tail[j] == cs[j + 1];
    }
  }

  /**
   * When no contextual name is already collected and the contextual names are
   * distinct, the de-duplication never fires: the scan appends every matching
   * contextual term.
   */
  lemma {:induction false} AddContextualWithoutClash(found: seq<string>, cs: seq<ContextualTerm>, lower: string)
    requires DistinctContextualNames(cs)
    requires forall k | 0 <= k < |cs| :: cs[k].term !in found
    ensures AddContextual(found, cs, lower) == found + ContextualMatches(lower, cs)
    decreases |cs|
  {
    if cs != [] {
      var hit := ContextualMatches(lower, cs[..1]);
      AddContextualStep(found, cs, lower);
      assert forall i | 0 <= i < |hit| :: hit[i] == cs[0].term;
      NoClashTail(found, cs, hit);
      AddContextualWithoutClash(found + hit, cs[1..], lower);
      AppendAssociative(found, hit, ContextualMatches(lower, cs[1..]));
    }
  }

  // ---------------------------------------------------------------------------
  // The extractor
  // ---------------------------------------------------------------------------

  /** Every name a scan over `keys` and `cs` considers, before the cap: dictionary hits then contextual hits. */
  function CandidatesIn(lower: string, keys: seq<string>, cs: seq<ContextualTerm>): seq<string> {
    DictionaryMatches(lower, keys) + ContextualMatches(lower, cs)
  }

  /** The candidates over the source's two tables. */
  function Candidates(lower: string): seq<string> {
    CandidatesIn(lower, DictionaryTerms, ContextualTerms)
  }

  /** `foundTerms.slice(0, n)`. */
  function Take(names: seq<string>, n: nat): (r: seq<string>)
    ensures |r| == if |names| < n then |names| else n
    ensures r <= names
  {
    if |names| <= n then names else names[..n]
  }

  /**
   * The conditions on the two tables the extractor's guarantees rest on: names
   * are distinct within each table, and no contextual name is a dictionary key.
   */
  predicate WellFormedTables(keys: seq<string>, cs: seq<ContextualTerm>) {
    && Distinct(keys)
    && DistinctContextualNames(cs)
    && forall k | 0 <= k < |cs| :: cs[k].term !in keys
  }

  /** The source's tables meet those conditions. */
  lemma TablesWellFormed()
    ensures WellFormedTables(DictionaryTerms, ContextualTerms)
  {
    DictionaryTermsDistinct();
    ContextualTermsDistinct();
    NoSharedNames();
  }

  lemma DictionaryTermsDistinct()
    ensures Distinct(DictionaryTerms)
  {
  }

  lemma ContextualTermsDistinct()
    ensures DistinctContextualNames(ContextualTerms)
  {
  }

  lemma NoSharedNames()
    ensures forall k | 0 <= k < |ContextualTerms| :: ContextualTerms[k].term !in DictionaryTerms
  {
  }

  /** Every contextual hit is the name of a contextual term whose keyword occurs. */
  lemma {:induction false} ContextualMatchesJustified(lower: string, cs: seq<ContextualTerm>)
    ensures forall n | n in ContextualMatches(lower, cs) ::
      exists c | c in cs :: c.term == n && HasKeyword(lower, c)
    decreases |cs|
  {
    if cs != [] {
      ContextualMatchesJustified(lower, cs[1..]);
      forall n | n in ContextualMatches(lower, cs)
        ensures exists c | c in cs :: c.term == n && HasKeyword(lower, c)
      {
        if n !in ContextualMatches(lower, cs[1..]) {
          assert n == cs[0].term && HasKeyword(lower, cs[0]);
        } else {
          var c :| c in cs[1..] && c.term == n && HasKeyword(lower, c);
          assert c in cs;
        }
      }
    }
  }

  /**
   * Over well-formed tables the two scans collect exactly the candidates,
   * with distinct names, each justified by the text.
   */
  lemma ScansYieldCandidates(lower: string, keys: seq<string>, cs: seq<ContextualTerm>)
    requires WellFormedTables(keys, cs)
    ensures AddContextual(DictionaryMatches(lower, keys), cs, lower) == CandidatesIn(lower, keys, cs)
    ensures Distinct(CandidatesIn(lower, keys, cs))
    ensures forall n | n in CandidatesIn(lower, keys, cs) :: JustifiedBy(lower, n, keys, cs)
  {
    var hits := DictionaryMatches(lower, keys);
    AddContextualWithoutClash(hits, cs, lower);
    ContextualMatchesJustified(lower, cs);
  }

  /** The extractor's algorithm over any pair of tables: dictionary scan, contextual scan, cap. */
  function ExtractNamesWith(lower: string, keys: seq<string>, cs: seq<ContextualTerm>): (r: seq<string>)
    requires WellFormedTables(keys, cs)
    ensures |r| <= MaxTerms
    ensures r <= CandidatesIn(lower, keys, cs)
    ensures |r| == if |CandidatesIn(lower, keys, cs)| < MaxTerms then |CandidatesIn(lower, keys, cs)| else MaxTerms
    ensures Distinct(r)
    ensures forall i | 0 <= i < |r| :: JustifiedBy(lower, r[i], keys, cs)
  {
    var all := AddContextual(DictionaryMatches(lower, keys), cs, lower);
    ScansYieldCandidates(lower, keys, cs);
    var r := Take(all, MaxTerms);
    assert forall i | 0 <= i < |r| :: r[i] == all[i] && all[i] in all;
    r
  }

  /**
   * The names `extractLegalTerms` reports: the algorithm run over the source's
   * two tables.
   */
  function ExtractNames(text: string): (r: seq<string>)
    ensures |r| <= MaxTerms
    ensures r <= Candidates(ToLower(text))
    ensures |r| == if |Candidates(ToLower(text))| < MaxTerms then |Candidates(ToLower(text))| else MaxTerms
    ensures Distinct(r)
    ensures forall i | 0 <= i < |r| :: Justified(ToLower(text), r[i])
  {
    TablesWellFormed();
    ExtractNamesWith(ToLower(text), DictionaryTerms, ContextualTerms)
  }

  /** Pairs each name with the definition stored for it. */
  function WithDefinitions(names: seq<string>): (r: seq<TermEntry>)
    ensures Names(r) == names
    ensures forall i | 0 <= i < |r| :: r[i].definition == Definition(r[i].term)
  {
    var r := seq(|names|, i requires 0 <= i < |names| => TermEntry(names[i], Definition(names[i])));
    assert Names(r) == names;
    r
  }

  /** `extractLegalTerms`: the reported names, each with its stored definition. */
  function ExtractTerms(text: string): (r: seq<TermEntry>)
    ensures Names(r) == ExtractNames(text)
    ensures |r| <= MaxTerms
    ensures forall i | 0 <= i < |r| :: r[i].definition == Definition(r[i].term)
  {
    WithDefinitions(ExtractNames(text))
  }

  /** The extracted entries: at most eight distinct, justified names, each with its stored definition. */
  lemma ExtractedEntries(text: string)
    ensures var r := ExtractTerms(text);
      && |r| <= MaxTerms
      && Distinct(Names(r))
      && (forall i | 0 <= i < |r| :: Justified(ToLower(text), r[i].term))
      && (forall i | 0 <= i < |r| :: r[i].definition == Definition(r[i].term))
  {
    var r := ExtractTerms(text);
    forall i | 0 <= i < |r|
      ensures Justified(ToLower(text), r[i].term)
    {
      assert r[i].term == ExtractNames(text)[i];
    }
  }

  // ---------------------------------------------------------------------------
  // Consequences of the cap
  // ---------------------------------------------------------------------------

  /** A key that occurs at table position `m` lands at position `m` or earlier among the hits. */
  lemma {:induction false} MatchPosition(lower: string, keys: seq<string>, m: nat)
    requires m < |keys| && KeyOccurs(lower, keys[m])
    ensures exists p | 0 <= p <= m :: p < |DictionaryMatches(lower, keys)| && DictionaryMatches(lower, keys)[p] == keys[m]
    decreases m
  {
    var hits := DictionaryMatches(lower, keys);
    if m == 0 {
      assert hits[0] == keys[0];
    } else {
      var rest := DictionaryMatches(lower, keys[1..]);
      assert keys[1..][m - 1] == keys[m];
      MatchPosition(lower, keys[1..], m - 1);
      var p :| 0 <= p <= m - 1 && p < |rest| && rest[p] == keys[m];
      if KeyOccurs(lower, keys[0]) {
        assert hits[p + 1] == keys[m];
      } else {
        assert hits[p] == keys[m];
      }
    }
  }

  /**
   * The cap never drops one of the first eight dictionary keys: when such a
   * key occurs, the term is reported.
   */
  lemma EarlyDictionaryTermReported(text: string, m: nat, name: string)
    requires m < MaxTerms && m < |DictionaryTerms| && DictionaryTerms[m] == name
    requires KeyOccurs(ToLower(text), name)
    ensures name in ExtractNames(text)
  {
    TablesWellFormed();
    EarlyKeyReported(ToLower(text), DictionaryTerms, ContextualTerms, m);
  }

  /** The same over any well-formed tables. */
  lemma EarlyKeyReported(lower: string, keys: seq<string>, cs: seq<ContextualTerm>, m: nat)
    requires WellFormedTables(keys, cs)
    requires m < MaxTerms && m < |keys| && KeyOccurs(lower, keys[m])
    ensures keys[m] in ExtractNamesWith(lower, keys, cs)
  {
    var hits := DictionaryMatches(lower, keys);
    MatchPosition(lower, keys, m);
    var p :| 0 <= p <= m && p < |hits| && hits[p] == keys[m];
    var names := ExtractNamesWith(lower, keys, cs);
    assert CandidatesIn(lower, keys, cs)[p] == keys[m];
    assert names[p] == CandidatesIn(lower, keys, cs)[p];
  }

  /** A reported name that no contextual term carries is a dictionary key found in the text. */
  lemma ReportedKeyOccurs(text: string, name: string)
    requires name in ExtractNames(text)
    requires forall k | 0 <= k < |ContextualTerms| :: ContextualTerms[k].term != name
    ensures name in DictionaryTerms && KeyOccurs(ToLower(text), name)
  {
    var names := ExtractNames(text);
    var i :| 0 <= i < |names| && names[i] == name;
    assert Justified(ToLower(text), names[i]);
  }

  /** Over any tables, when no key and no keyword occurs there is no candidate. */
  lemma NoHitsNoCandidates(lower: string, keys: seq<string>, cs: seq<ContextualTerm>)
    requires forall k | 0 <= k < |keys| :: !KeyOccurs(lower, keys[k])
    requires forall k | 0 <= k < |cs| :: !HasKeyword(lower, cs[k])
    ensures CandidatesIn(lower, keys, cs) == []
  {
    NoKeyNoDictionaryMatch(lower, keys);
    NoKeywordNoContextualMatch(lower, cs);
  }

  lemma {:induction false} NoKeyNoDictionaryMatch(lower: string, keys: seq<string>)
    requires forall k | 0 <= k < |keys| :: !KeyOccurs(lower, keys[k])
    ensures DictionaryMatches(lower, keys) == []
    decreases |keys|
  {
    if keys != [] {
      assert forall k | 0 <= k < |keys[1..]| :: keys[1..][k] == keys[k + 1];
      NoKeyNoDictionaryMatch(lower, keys[1..]);
    }
  }

  lemma {:induction false} NoKeywordNoContextualMatch(lower: string, cs: seq<ContextualTerm>)
    requires forall k | 0 <= k < |cs| :: !HasKeyword(lower, cs[k])
    ensures ContextualMatches(lower, cs) == []
    decreases |cs|
  {
    if cs != [] {
      assert forall k | 0 <= k < |cs[1..]| :: cs[1..][k] == cs[k + 1];
      NoKeywordNoContextualMatch(lower, cs[1..]);
    }
  }

  /** A text in which no key or keyword occurs yields no terms. */
  lemma NoKeywordNoTerms(text: string)
    requires forall k | 0 <= k < |DictionaryTerms| :: !KeyOccurs(ToLower(text), DictionaryTerms[k])
    requires forall k | 0 <= k < |ContextualTerms| :: !HasKeyword(ToLower(text), ContextualTerms[k])
    ensures ExtractTerms(text) == []
  {
    NoHitsNoCandidates(ToLower(text), DictionaryTerms, ContextualTerms);
  }

  /** Term extraction ignores letter case. */
  lemma ExtractIgnoresCase(text: string)
    ensures ExtractTerms(ToLower(text)) == ExtractTerms(text)
  {
    ToLowerIdempotent(text);
  }
}
