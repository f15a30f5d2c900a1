/** The regular expressions of the extractor, and the regular-expression engine they run on.

    The engine (Python's `re`) is not modelled: it is a parameter, an `Engine` value that
    answers, for each pattern of the source and each text, whether `re.search` finds a match,
    the text of the whole leftmost match, the text of its first capture group, and the
    result of `re.findall`. Each pattern is one constructor of `Pat`; what the model knows
    of a pattern is stated in tables read off the pattern's text: how many capture groups
    it has, whether it runs with `re.I`, literals of which one must occur in any match,
    and literals whose presence alone guarantees a match. `Sound` says that an engine
    agrees with those tables; the properties that depend on what a pattern matches require it. */
module Regex {
  import opened Text

  /** The regular expressions of summarizer.py, one constructor each. */
  datatype Pat =
    // Field parser, run with re.I | re.M (re.I alone for EmailAddress).
    | SolicitationId      // line 55
    | NrcanId             // line 57
    | BuyerName           // line 59
    | EnquiriesBlock      // line 63
    | AuthorityBlock      // line 64
    | EmailAddress        // line 65
    | ContactLabel        // line 66
    | DateFormats         // line 69
    | TimeFormats         // line 70
    | ClosingSentence     // line 71
    | CpcConnect          // line 76
    | EmailWord           // line 78
    | MailroomWords       // line 80
    | DeliveryLine        // line 86
    | LocationLine        // line 87
    | TermLine            // line 90
    | InsuranceWaived     // line 93
    | InsuranceWord       // line 95
    | SecurityWaived      // line 101
    | SecurityTerms       // line 103
    // Executive summary, run with re.I | re.M.
    | SummaryHeading      // line 112
    // Compliance checklist, run without flags on the lower-cased text.
    | SiteVisitTerm       // line 126
    | SecurityWaivedLower // line 127
    | SecurityTermsLower  // line 127
    | InsuranceWaivedLower // line 128
    | InsuranceWordLower  // line 128
    | IndigenousTerms     // line 129
    | FrenchWord          // line 130, the `\bfran[cç]ais\b` branch of the alternation
    | SowTerms            // line 131
    | EvaluationTerms     // line 132
    | ContractClauses     // line 133

  /** Number of capture groups in the pattern's text. */
  function Groups(p: Pat): nat {
    match p
    case SolicitationId | NrcanId | BuyerName | EmailAddress | ContactLabel
      | DateFormats | TimeFormats | DeliveryLine | LocationLine | TermLine | SummaryHeading => 1
    case _ => 0
  }

  /** The pattern is searched with `re.I`. */
  predicate IgnoreCase(p: Pat) {
    match p
    case SiteVisitTerm | SecurityWaivedLower | SecurityTermsLower | InsuranceWaivedLower
      | InsuranceWordLower | IndigenousTerms | FrenchWord | SowTerms | EvaluationTerms
      | ContractClauses => false
    case _ => true
  }

  const DIGITS: seq<string> := ["0", "1", "2", "3", "4", "5", "6", "7", "8", "9"]

  const BUYERS: seq<string> := [
    "natural resources canada", "nrcan", "public works and government services canada",
    "parks canada", "government of canada"]

  /** Literals of which at least one occurs in every match of the pattern. */
  function Necessary(p: Pat): seq<string> {
    match p
    case SolicitationId => ["solicitation", "rfp", "nrcan"]
    case NrcanId => ["nrcan-"]
    case BuyerName => BUYERS
    case EnquiriesBlock => ["enquiries"]
    case AuthorityBlock => ["authority"]
    case EmailAddress => ["@"]
    case ContactLabel => ["enquiries", "authority"]
    case DateFormats => DIGITS
    case TimeFormats => DIGITS
    case ClosingSentence => ["closes", "invitation"]
    case CpcConnect => ["connect"]
    case EmailWord => ["email", "courriel"]
    case MailroomWords => ["bid receiving unit", "mailroom"]
    case DeliveryLine => ["destination", "delivery"]
    case LocationLine => ["location", "place of work"]
    case TermLine => ["term"]
    case InsuranceWaived => ["insurance"]
    case InsuranceWord => ["insurance"]
    case SecurityWaived => ["requirements"]
    case SecurityTerms => ["requirement", "reliability", "clearance"]
    case SummaryHeading => ["summary", "introduction", "scope"]
    case SiteVisitTerm => ["visit"]
    case SecurityWaivedLower => ["requirements"]
    case SecurityTermsLower => ["requirement", "reliability", "clearance"]
    case InsuranceWaivedLower => ["insurance"]
    case InsuranceWordLower => ["insurance"]
    case IndigenousTerms => ["indigenous", "aboriginal", "set-aside", "setaside"]
    case FrenchWord => ["francais", "fran\U{e7}ais"]
    case SowTerms => ["statement of work", "annex"]
    case EvaluationTerms => ["procedures", "criteria", "requirements"]
    case ContractClauses => ["clauses"]
  }

  /** Literals whose presence alone makes the pattern match (empty when a word boundary,
      a required follower or a character class prevents such a guarantee). */
  function Sufficient(p: Pat): seq<string> {
    match p
    case BuyerName => BUYERS
    case EnquiriesBlock => ["address enquiries to"]
    case AuthorityBlock => ["contracting authority"]
    case ClosingSentence => ["solicitation closes", "l'invitation prend fin", "l\U{2019}invitation prend fin"]
    case EmailWord => ["courriel"]
    case MailroomWords => ["bid receiving unit", "mailroom"]
    case InsuranceWaived => ["insurance - no specific requirement", "insurance \U{2013} no specific requirement"]
    case SecurityWaived => ["no security requirements"]
    case SecurityTerms => ["security requirement", "reliability", "secret clearance"]
    case SiteVisitTerm => ["mandatory site visit"]
    case SecurityWaivedLower => ["no security requirements"]
    case SecurityTermsLower => ["security requirement", "reliability", "secret clearance"]
    case InsuranceWaivedLower => ["insurance - no specific requirement", "insurance-no specific requirement"]
    case IndigenousTerms => ["indigenous", "aboriginal", "set-aside", "setaside"]
    case SowTerms => ["statement of work", "annex a"]
    case EvaluationTerms => ["evaluation procedures", "rated criteria", "mandatory requirements"]
    case ContractClauses => ["resulting contract clauses"]
    case _ => []
  }

  /** `lit` occurs in `s`, ignoring case exactly when the pattern does. */
  predicate Occurs(p: Pat, s: string, lit: string) {
    if IgnoreCase(p) then ContainsIgnoringCase(s, lit) else Contains(s, lit)
  }

  /** One of `lits` occurs in `s`. */
  predicate AnyOccurs(p: Pat, s: string, lits: seq<string>) {
    exists k | 0 <= k < |lits| :: Occurs(p, s, lits[k])
  }

  /** What the model needs of `re`: for pattern `p` and text `s`, whether `re.search`
      matches, the whole leftmost match (`group(0)`), its first capture group (`group(1)`,
      meaningful for patterns that have one) and `re.findall`. */
  datatype Engine = Engine(
    matches: (Pat, string) -> bool,
    whole: (Pat, string) -> string,
    group1: (Pat, string) -> string,
    findall: (Pat, string) -> seq<string>)

  /** The engine agrees with the pattern tables on pattern `p` and text `s`: a match is a
      substring of the text and contains a necessary literal, its group lies inside it, a
      sufficient literal forces a match, and `findall` finds something only when `search`
      does. */
  ghost predicate SoundAt(e: Engine, p: Pat, s: string) {
    && (e.matches(p, s) ==> Contains(s, e.whole(p, s)) && AnyOccurs(p, e.whole(p, s), Necessary(p)))
    && (e.matches(p, s) && Groups(p) == 1 ==> Contains(e.whole(p, s), e.group1(p, s)))
    && (AnyOccurs(p, s, Sufficient(p)) ==> e.matches(p, s))
    && (e.findall(p, s) != [] ==> e.matches(p, s))
  }

  /** The engine agrees with the pattern tables on every pattern and text. */
  ghost predicate Sound(e: Engine) {
    forall p: Pat, s: string :: SoundAt(e, p, s)
  }

  /** `re.search(p, s)` is not None. */
  predicate Matches(e: Engine, p: Pat, s: string) {
    e.matches(p, s)
  }

  /** `_find(pattern, text)`: the first capture group of the leftmost match, stripped;
      "" when nothing matches or when the pattern has no capture group, since then
      `m.lastindex` is None. */
  function Find(e: Engine, p: Pat, s: string): (r: string)
    ensures r != "" ==> Matches(e, p, s) && Groups(p) == 1
  {
    if Matches(e, p, s) && Groups(p) >= 1 then StripSpace(e.group1(p, s)) else ""
  }

  /** The whole leftmost match, stripped, or "" when nothing matches: what `_find` was
      evidently meant to return for a pattern without a capture group. */
  function FindWhole(e: Engine, p: Pat, s: string): (r: string)
    ensures r != "" ==> Matches(e, p, s)
  {
    if Matches(e, p, s) then StripSpace(e.whole(p, s)) else ""
  }

  /** `_find_all(pattern, text)`: every result of `re.findall`, stripped, in order; one
      entry per result. */
  function FindAll(e: Engine, p: Pat, s: string): (r: seq<string>)
    ensures |r| == |e.findall(p, s)|
  {
    seq(|e.findall(p, s)|, i requires 0 <= i < |e.findall(p, s)| => StripSpace(e.findall(p, s)[i]))
  }

  /** With a sound engine, `_find_all` finds something only where `_find` would find a
      match, and it returns one entry per `re.findall` result, none of them starting or
      ending with white space. */
  lemma FindAllOnlyOnMatch(e: Engine, p: Pat, s: string)
    requires Sound(e)
    ensures FindAll(e, p, s) != [] ==> Matches(e, p, s)
    ensures |FindAll(e, p, s)| == |e.findall(p, s)|
    ensures forall i :: 0 <= i < |FindAll(e, p, s)| && FindAll(e, p, s)[i] != [] ==>
      !IsSpace(FindAll(e, p, s)[i][0]) && !IsSpace(FindAll(e, p, s)[i][|FindAll(e, p, s)[i]| - 1])
  {
    assert SoundAt(e, p, s);
    forall i | 0 <= i < |FindAll(e, p, s)|
      ensures FindAll(e, p, s)[i] != [] ==>
        !IsSpace(FindAll(e, p, s)[i][0]) && !IsSpace(FindAll(e, p, s)[i][|FindAll(e, p, s)[i]| - 1])
    {
      StripEnds(e.findall(p, s)[i], IsSpace);
    }
  }

  /** With a sound engine, what `_find` returns is a substring of the searched text. */
  lemma FindIsSubstring(e: Engine, p: Pat, s: string)
    requires Sound(e)
    ensures Contains(s, Find(e, p, s))
  {
    assert SoundAt(e, p, s);
    if Matches(e, p, s) && Groups(p) >= 1 {
      StripIsSubstring(e.group1(p, s), IsSpace);
      ContainsTransitive(e.whole(p, s), e.group1(p, s), Find(e, p, s));
      ContainsTransitive(s, e.whole(p, s), Find(e, p, s));
    } else {
      ContainsEmpty(s);
    }
  }

  /** With a sound engine, the stripped whole match is a substring of the searched text. */
  lemma FindWholeIsSubstring(e: Engine, p: Pat, s: string)
    requires Sound(e)
    ensures Contains(s, FindWhole(e, p, s))
  {
    assert SoundAt(e, p, s);
    if Matches(e, p, s) {
      StripIsSubstring(e.whole(p, s), IsSpace);
      ContainsTransitive(s, e.whole(p, s), FindWhole(e, p, s));
    } else {
      ContainsEmpty(s);
    }
  }

  /** Every necessary literal ends with a printable character. */
  lemma NecessaryLiteralsEndVisible(p: Pat, k: nat)
    requires k < |Necessary(p)|
    ensures Necessary(p)[k] != "" && '!' <= Necessary(p)[k][|Necessary(p)[k]| - 1] <= '~'
  {
    if p.SolicitationId? || p.NrcanId? || p.BuyerName? || p.EnquiriesBlock? || p.AuthorityBlock?
      || p.EmailAddress? || p.ContactLabel? || p.DateFormats? || p.TimeFormats? || p.ClosingSentence?
    {
      IdentifierLiteralsEndVisible(p, k);
    } else if p.CpcConnect? || p.EmailWord? || p.MailroomWords? || p.DeliveryLine? || p.LocationLine?
      || p.TermLine? || p.InsuranceWaived? || p.InsuranceWord? || p.SecurityWaived? || p.SecurityTerms?
    {
      SectionLiteralsEndVisible(p, k);
    } else if p.SummaryHeading? || p.SiteVisitTerm? || p.SecurityWaivedLower? || p.SecurityTermsLower?
      || p.InsuranceWaivedLower? || p.InsuranceWordLower?
    {
      ChecklistLiteralsEndVisible(p, k);
    } else {
      DocumentLiteralsEndVisible(p, k);
    }
  }

  /** The literals of the identifier, contact and date patterns end with a printable character. */
  lemma IdentifierLiteralsEndVisible(p: Pat, k: nat)
    requires p.SolicitationId? || p.NrcanId? || p.BuyerName? || p.EnquiriesBlock? || p.AuthorityBlock?
      || p.EmailAddress? || p.ContactLabel? || p.DateFormats? || p.TimeFormats? || p.ClosingSentence?
    requires k < |Necessary(p)|
    ensures Necessary(p)[k] != "" && '!' <= Necessary(p)[k][|Necessary(p)[k]| - 1] <= '~'
  {
  }

  /** The literals of the submission, place, insurance and security patterns end with a
      printable character. */
  lemma SectionLiteralsEndVisible(p: Pat, k: nat)
    requires p.CpcConnect? || p.EmailWord? || p.MailroomWords? || p.DeliveryLine? || p.LocationLine?
      || p.TermLine? || p.InsuranceWaived? || p.InsuranceWord? || p.SecurityWaived? || p.SecurityTerms?
    requires k < |Necessary(p)|
    ensures Necessary(p)[k] != "" && '!' <= Necessary(p)[k][|Necessary(p)[k]| - 1] <= '~'
  {
  }

  /** The literals of the summary heading and the site-visit, security and insurance rows
      of the checklist end with a printable character. */
  lemma ChecklistLiteralsEndVisible(p: Pat, k: nat)
    requires p.SummaryHeading? || p.SiteVisitTerm? || p.SecurityWaivedLower? || p.SecurityTermsLower?
      || p.InsuranceWaivedLower? || p.InsuranceWordLower?
    requires k < |Necessary(p)|
    ensures Necessary(p)[k] != "" && '!' <= Necessary(p)[k][|Necessary(p)[k]| - 1] <= '~'
  {
  }

  /** The literals of the remaining checklist rows end with a printable character. */
  lemma DocumentLiteralsEndVisible(p: Pat, k: nat)
    requires p.IndigenousTerms? || p.FrenchWord? || p.SowTerms? || p.EvaluationTerms? || p.ContractClauses?
    requires k < |Necessary(p)|
    ensures Necessary(p)[k] != "" && '!' <= Necessary(p)[k][|Necessary(p)[k]| - 1] <= '~'
  {
  }

  /** A literal found in a substring of `s` is found in `s`. */
  lemma OccursInEnclosing(p: Pat, s: string, w: string, lit: string)
    requires Contains(s, w) && Occurs(p, w, lit)
    ensures Occurs(p, s, lit)
  {
    if IgnoreCase(p) {
      ContainsLower(s, w);
      ContainsTransitive(Lower(s), Lower(w), Lower(lit));
    } else {
      ContainsTransitive(s, w, lit);
    }
  }

  /** With a sound engine, a match means that a necessary literal occurs in the text. */
  lemma MatchHasNecessaryLiteral(e: Engine, p: Pat, s: string)
    requires Sound(e) && Matches(e, p, s)
    ensures AnyOccurs(p, s, Necessary(p))
  {
    assert SoundAt(e, p, s);
    var w := e.whole(p, s);
    var k :| 0 <= k < |Necessary(p)| && Occurs(p, w, Necessary(p)[k]);
    OccursInEnclosing(p, s, w, Necessary(p)[k]);
  }

  /** With a sound engine, no pattern of the source matches a text that holds none of its
      necessary literals; in particular nothing matches the empty text. */
  lemma NoNecessaryLiteralNoMatch(e: Engine, p: Pat, s: string)
    requires Sound(e) && !AnyOccurs(p, s, Necessary(p))
    ensures !Matches(e, p, s)
  {
    if Matches(e, p, s) {
      MatchHasNecessaryLiteral(e, p, s);
    }
  }

  /** With a sound engine, no pattern of the source matches the empty text. */
  lemma NothingMatchesEmptyText(e: Engine, p: Pat)
    requires Sound(e)
    ensures !Matches(e, p, "")
  {
    forall k | 0 <= k < |Necessary(p)| ensures !Occurs(p, "", Necessary(p)[k]) {
      NecessaryLiteralsEndVisible(p, k);
      assert |Lower(Necessary(p)[k])| > 0;
    }
    NoNecessaryLiteralNoMatch(e, p, "");
  }

  /** A text in which a literal ending with a printable character occurs holds that
      printable character, in either case. */
  lemma PrintableOfLiteral(p: Pat, w: string, lit: string) returns (j: nat)
    requires lit != [] && '!' <= lit[|lit| - 1] <= '~' && Occurs(p, w, lit)
    ensures j < |w| && '!' <= w[j] <= '~'
  {
    var last := |lit| - 1;
    if IgnoreCase(p) {
      assert |Lower(lit)| == |lit| && Lower(lit)[last] == LowerChar(lit[last]);
      ContainsCharOf(Lower(w), Lower(lit), last);
      j :| 0 <= j < |Lower(w)| && Lower(w)[j] == Lower(lit)[last];
      assert Lower(w)[j] == LowerChar(w[j]);
      LowerCharKeepsPrintable(w[j], lit[last]);
    } else {
      ContainsCharOf(w, lit, last);
      j :| 0 <= j < |w| && w[j] == lit[last];
    }
  }

  /** With a sound engine, the whole match holds a printable character: the last
      character of the necessary literal it contains, in either case. */
  lemma WholeMatchHasPrintable(e: Engine, p: Pat, s: string) returns (j: nat)
    requires Sound(e) && Matches(e, p, s)
    ensures j < |e.whole(p, s)| && '!' <= e.whole(p, s)[j] <= '~'
  {
    assert SoundAt(e, p, s);
    var k :| 0 <= k < |Necessary(p)| && Occurs(p, e.whole(p, s), Necessary(p)[k]);
    NecessaryLiteralsEndVisible(p, k);
    j := PrintableOfLiteral(p, e.whole(p, s), Necessary(p)[k]);
  }

  /** With a sound engine, a match is never blank: stripping the whole match leaves the
      necessary literal's last character, so `FindWhole` is non-empty exactly on a match. */
  lemma WholeMatchIsNotBlank(e: Engine, p: Pat, s: string)
    requires Sound(e)
    ensures FindWhole(e, p, s) != "" <==> Matches(e, p, s)
  {
    if Matches(e, p, s) {
      var j := WholeMatchHasPrintable(e, p, s);
      PrintableIsNotSpace(e.whole(p, s)[j]);
      StripSpaceKeepsVisible(e.whole(p, s), j);
    }
  }

  /** A sufficient literal in the text makes a sound engine report a match. */
  lemma SufficientLiteralMatches(e: Engine, p: Pat, s: string, k: nat)
    requires Sound(e) && k < |Sufficient(p)| && Occurs(p, s, Sufficient(p)[k])
    ensures Matches(e, p, s)
  {
    assert SoundAt(e, p, s);
    assert AnyOccurs(p, s, Sufficient(p));
  }
}
