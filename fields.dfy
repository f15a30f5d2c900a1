/** The field parser (`_parse_fields`): twelve named procurement fields, each resolved from the
    raw text by an ordered list of pattern rules, first match wins, "" when nothing matches. */
module Fields {
  import opened Text
  import opened Regex

  /** The keys of the field map. The parser only ever assigns these twelve, so the map's
      string keys are modelled by an enumeration; `Name` gives the string itself. */
  datatype Key =
    | RfpKey | BuyerKey | ContactEmailKey | ContactNameKey | ClosingDateKey | ClosingTimeKey
    | SubmissionMethodKey | DeliveryKey | LocationKey | TermKey | InsuranceKey | SecurityKey

  /** The key as it appears in the dict and on the page. */
  function Name(k: Key): string {
    match k
    case RfpKey => "RFP #"
    case BuyerKey => "Buyer"
    case ContactEmailKey => "Contact Email"
    case ContactNameKey => "Contact Name"
    case ClosingDateKey => "Closing Date"
    case ClosingTimeKey => "Closing Time"
    case SubmissionMethodKey => "Submission Method"
    case DeliveryKey => "Delivery"
    case LocationKey => "Location"
    case TermKey => "Term of Contract"
    case InsuranceKey => "Insurance"
    case SecurityKey => "Security Clearance"
  }

  /** Distinct keys have distinct names, so the enumeration loses nothing of the string keys. */
  lemma NamesAreDistinct(k1: Key, k2: Key)
    requires k1 != k2
    ensures Name(k1) != Name(k2)
  {
    var n1, n2 := Name(k1), Name(k2);
    assert |n1| != |n2| || n1[0] != n2[0] || n1[8] != n2[8];
  }

  /** A Python `dict`: the value stored under each key, and the keys in insertion order. */
  datatype Dict = Dict(order: seq<Key>, values: map<Key, string>)

  /** The empty dict `{}`. */
  const EMPTY: Dict := Dict([], map[])

  /** The representation invariant: `order` lists every stored key exactly once. */
  predicate Valid(d: Dict) {
    && (forall k :: k in d.values <==> k in d.order)
    && (forall i, j :: 0 <= i < j < |d.order| ==> d.order[i] != d.order[j])
  }

  /** `d[k] = v`: an existing key keeps its place and takes the new value; a new key is
      appended at the end. */
  function Put(d: Dict, k: Key, v: string): (r: Dict)
    ensures r.values == d.values[k := v]
  {
    Dict(if k in d.values then d.order else d.order + [k], d.values[k := v])
  }

  /** Assignment keeps the invariant, so every dict the parser builds is well formed. */
  lemma PutKeepsValid(d: Dict, k: Key, v: string)
    requires Valid(d)
    ensures Valid(Put(d, k, v))
    ensures k in d.values ==> Put(d, k, v).order == d.order
    ensures k !in d.values ==> Put(d, k, v).order == d.order + [k]
  {
  }

  /** `d[k]`: the value stored under `k`. */
  function Get(d: Dict, k: Key): string
    requires k in d.values
  {
    d.values[k]
  }

  /** `d.items()`, in insertion order. */
  function Items(d: Dict): seq<(Key, string)>
    requires Valid(d)
  {
    seq(|d.order|, i requires 0 <= i < |d.order| => (d.order[i], d.values[d.order[i]]))
  }

  /** The items of a well-formed dict list each stored key exactly once, with its value. */
  lemma ItemsListEachKeyOnce(d: Dict)
    requires Valid(d)
    ensures forall i, j :: 0 <= i < j < |Items(d)| ==> Items(d)[i].0 != Items(d)[j].0
    ensures forall i :: 0 <= i < |Items(d)| ==> Items(d)[i].0 in d.values && Items(d)[i].1 == d.values[Items(d)[i].0]
    ensures forall k :: k in d.values ==> exists i :: 0 <= i < |Items(d)| && Items(d)[i] == (k, d.values[k])
  {
    forall k | k in d.values
      ensures exists i :: 0 <= i < |Items(d)| && Items(d)[i] == (k, d.values[k])
    {
      var i :| 0 <= i < |d.order| && d.order[i] == k;
      assert Items(d)[i] == (k, d.values[k]);
    }
  }

  /** The keys of the parsed field map, in the order the parser first assigns them. */
  const FIELD_KEYS: seq<Key> := HEAD_KEYS + TAIL_KEYS
  /** The keys of the identifier, contact and dates sections. */
  const HEAD_KEYS: seq<Key> := [RfpKey, BuyerKey, ContactEmailKey, ContactNameKey, ClosingDateKey, ClosingTimeKey]
  /** The keys of the submission, location, insurance and security sections. */
  const TAIL_KEYS: seq<Key> := [SubmissionMethodKey, DeliveryKey, LocationKey, TermKey, InsuranceKey, SecurityKey]

  const CPC_CONNECT := "CPC Connect (Canada Post)"
  const BY_EMAIL := "Email"
  const PHYSICAL_DELIVERY := "Physical delivery / Mailroom"
  const NO_INSURANCE := "No specific requirement"
  const INSURANCE_APPLIES := "Insurance requirements apply"
  const NO_SECURITY := "None"
  const SECURITY_REQUIRED := "Required"

  /** RFP #: the solicitation-number pattern, else an `NRCan-` number. */
  function RfpNumber(e: Engine, t: string): string {
    Or(Find(e, SolicitationId, t), Find(e, NrcanId, t))
  }

  /** The contact block as written: `_find` on the two window patterns, which have no
      capture group, so `_find` gives "" for both of them. */
  function ContactBlockAsWritten(e: Engine, t: string): string {
    Or(Or(Find(e, EnquiriesBlock, t), Find(e, AuthorityBlock, t)), "")
  }

  /** Contact Email as written: searched in `ContactBlockAsWritten` or else the text. */
  function ContactEmailAsWritten(e: Engine, t: string): string {
    Find(e, EmailAddress, Or(ContactBlockAsWritten(e, t), t))
  }

  /** The closing line as written: `_find` on a pattern without a capture group. */
  function ClosingLineAsWritten(e: Engine, t: string): string {
    Find(e, ClosingSentence, t)
  }

  /** Closing Date as written: searched in `ClosingLineAsWritten` or else the text. */
  function ClosingDateAsWritten(e: Engine, t: string): string {
    Find(e, DateFormats, Or(ClosingLineAsWritten(e, t), t))
  }

  /** Closing Time as written: searched like the closing date. */
  function ClosingTimeAsWritten(e: Engine, t: string): string {
    Find(e, TimeFormats, Or(ClosingLineAsWritten(e, t), t))
  }

  /** Submission Method: CPC Connect, else email, else physical delivery, first match wins. */
  function SubmissionMethod(e: Engine, t: string): string {
    if Matches(e, CpcConnect, t) then CPC_CONNECT
    else if Matches(e, EmailWord, t) then BY_EMAIL
    else if Matches(e, MailroomWords, t) then PHYSICAL_DELIVERY
    else ""
  }

  /** Insurance: an explicit waiver, else any mention of insurance. */
  function Insurance(e: Engine, t: string): string {
    if Matches(e, InsuranceWaived, t) then NO_INSURANCE
    else if Matches(e, InsuranceWord, t) then INSURANCE_APPLIES
    else ""
  }

  /** Security Clearance: an explicit waiver, else any security term. */
  function SecurityClearance(e: Engine, t: string): string {
    if Matches(e, SecurityWaived, t) then NO_SECURITY
    else if Matches(e, SecurityTerms, t) then SECURITY_REQUIRED
    else ""
  }

  /** The values of the identifier, contact and dates sections, under their keys. */
  function HeadTable(e: Engine, t: string): map<Key, string>
  {
    map[RfpKey := RfpNumber(e, t), BuyerKey := Find(e, BuyerName, t),
      ContactEmailKey := ContactEmailAsWritten(e, t), ContactNameKey := Find(e, ContactLabel, t),
      ClosingDateKey := ClosingDateAsWritten(e, t), ClosingTimeKey := ClosingTimeAsWritten(e, t)]
  }

  /** The field map `_parse_fields(t)` returns, as a value: under every key, the value its
      rule finds as the code is written. */
  function Table(e: Engine, t: string): (m: map<Key, string>)
    ensures forall k :: k in m
  {
    var m := HeadTable(e, t)[SubmissionMethodKey := SubmissionMethod(e, t)][DeliveryKey := Find(e, DeliveryLine, t)]
      [LocationKey := Find(e, LocationLine, t)][TermKey := Find(e, TermLine, t)]
      [InsuranceKey := Insurance(e, t)][SecurityKey := SecurityClearance(e, t)];
    assert forall k :: k in m by {
      forall k ensures k in m {
        assert k.RfpKey? || k.BuyerKey? || k.ContactEmailKey? || k.ContactNameKey? || k.ClosingDateKey?
          || k.ClosingTimeKey? || k.SubmissionMethodKey? || k.DeliveryKey? || k.LocationKey? || k.TermKey?
          || k.InsuranceKey? || k.SecurityKey?;
      }
    }
    m
  }

  /** A dict that lists the field keys in the parser's order and stores a value under
      every key is well formed. */
  lemma FieldOrderIsValid(d: Dict)
    requires d.order == FIELD_KEYS && forall k :: k in d.values
    ensures Valid(d)
  {
    forall k ensures k in FIELD_KEYS {
      match k
      case RfpKey => assert FIELD_KEYS[0] == k;
      case BuyerKey => assert FIELD_KEYS[1] == k;
      case ContactEmailKey => assert FIELD_KEYS[2] == k;
      case ContactNameKey => assert FIELD_KEYS[3] == k;
      case ClosingDateKey => assert FIELD_KEYS[4] == k;
      case ClosingTimeKey => assert FIELD_KEYS[5] == k;
      case SubmissionMethodKey => assert FIELD_KEYS[6] == k;
      case DeliveryKey => assert FIELD_KEYS[7] == k;
      case LocationKey => assert FIELD_KEYS[8] == k;
      case TermKey => assert FIELD_KEYS[9] == k;
      case InsuranceKey => assert FIELD_KEYS[10] == k;
      case SecurityKey => assert FIELD_KEYS[11] == k;
    }
  }

  /** The identifier section of `_parse_fields`: the RFP number, falling back to an
      `NRCan-` number when the solicitation pattern finds nothing, then the buyer. */
  method ParseIdentifiers(e: Engine, t: string, fields: Dict) returns (r: Dict)
    requires RfpKey !in fields.values && BuyerKey !in fields.values
    ensures r.order == fields.order + [RfpKey] + [BuyerKey]
    ensures r.values == fields.values[RfpKey := RfpNumber(e, t)][BuyerKey := Find(e, BuyerName, t)]
  {
    r := Put(fields, RfpKey, Find(e, SolicitationId, t));
    if Get(r, RfpKey) == "" {
      r := Put(r, RfpKey, Find(e, NrcanId, t));
    }
    r := Put(r, BuyerKey, Find(e, BuyerName, t));
  }

  /** The contact section: the email is looked for in the contact block when there is one,
      else in the whole text; the contact name in the whole text. The block is looked up
      with `_find`, which gives "" for the group-less window patterns. */
  method ParseContact(e: Engine, t: string, fields: Dict) returns (r: Dict)
    requires ContactEmailKey !in fields.values && ContactNameKey !in fields.values
    ensures r.order == fields.order + [ContactEmailKey] + [ContactNameKey]
    ensures r.values == fields.values[ContactEmailKey := ContactEmailAsWritten(e, t)]
      [ContactNameKey := Find(e, ContactLabel, t)]
  {
    var contactBlock := Or(Or(Find(e, EnquiriesBlock, t), Find(e, AuthorityBlock, t)), "");
    r := Put(fields, ContactEmailKey, Find(e, EmailAddress, Or(contactBlock, t)));
    r := Put(r, ContactNameKey, Find(e, ContactLabel, t));
  }

  /** The dates section: date and time are looked for in the closing line when there is
      one, else in the whole text. The line is looked up with `_find`, which gives "" for
      the group-less closing pattern. */
  method ParseDates(e: Engine, t: string, fields: Dict) returns (r: Dict)
    requires ClosingDateKey !in fields.values && ClosingTimeKey !in fields.values
    ensures r.order == fields.order + [ClosingDateKey] + [ClosingTimeKey]
    ensures r.values == fields.values[ClosingDateKey := ClosingDateAsWritten(e, t)]
      [ClosingTimeKey := ClosingTimeAsWritten(e, t)]
  {
    var closingLine := Find(e, ClosingSentence, t);
    r := Put(fields, ClosingDateKey, Find(e, DateFormats, Or(closingLine, t)));
    r := Put(r, ClosingTimeKey, Find(e, TimeFormats, Or(closingLine, t)));
  }

  /** The submission section: the first of CPC Connect, email and mailroom that the text
      mentions, else "". */
  method ParseSubmission(e: Engine, t: string, fields: Dict) returns (r: Dict)
    requires SubmissionMethodKey !in fields.values
    ensures r.order == fields.order + [SubmissionMethodKey]
    ensures r.values == fields.values[SubmissionMethodKey := SubmissionMethod(e, t)]
  {
    if Matches(e, CpcConnect, t) {
      r := Put(fields, SubmissionMethodKey, CPC_CONNECT);
    } else if Matches(e, EmailWord, t) {
      r := Put(fields, SubmissionMethodKey, BY_EMAIL);
    } else if Matches(e, MailroomWords, t) {
      r := Put(fields, SubmissionMethodKey, PHYSICAL_DELIVERY);
    } else {
      r := Put(fields, SubmissionMethodKey, "");
    }
  }

  /** The location section: delivery, location and term of contract, each from its own
      labelled line. */
  method ParsePlace(e: Engine, t: string, fields: Dict) returns (r: Dict)
    requires DeliveryKey !in fields.values && LocationKey !in fields.values && TermKey !in fields.values
    ensures r.order == fields.order + [DeliveryKey] + [LocationKey] + [TermKey]
    ensures r.values == fields.values[DeliveryKey := Find(e, DeliveryLine, t)]
      [LocationKey := Find(e, LocationLine, t)][TermKey := Find(e, TermLine, t)]
  {
    r := Put(fields, DeliveryKey, Find(e, DeliveryLine, t));
    r := Put(r, LocationKey, Find(e, LocationLine, t));
    r := Put(r, TermKey, Find(e, TermLine, t));
  }

  /** The insurance section: an explicit waiver, else any mention of insurance, else "". */
  method ParseInsurance(e: Engine, t: string, fields: Dict) returns (r: Dict)
    requires InsuranceKey !in fields.values
    ensures r.order == fields.order + [InsuranceKey]
    ensures r.values == fields.values[InsuranceKey := Insurance(e, t)]
  {
    if Matches(e, InsuranceWaived, t) {
      r := Put(fields, InsuranceKey, NO_INSURANCE);
    } else if Matches(e, InsuranceWord, t) {
      r := Put(fields, InsuranceKey, INSURANCE_APPLIES);
    } else {
      r := Put(fields, InsuranceKey, "");
    }
  }

  /** The security section: an explicit "no security requirements", else any security
      term, else "". */
  method ParseSecurity(e: Engine, t: string, fields: Dict) returns (r: Dict)
    requires SecurityKey !in fields.values
    ensures r.order == fields.order + [SecurityKey]
    ensures r.values == fields.values[SecurityKey := SecurityClearance(e, t)]
  {
    if Matches(e, SecurityWaived, t) {
      r := Put(fields, SecurityKey, NO_SECURITY);
    } else if Matches(e, SecurityTerms, t) {
      r := Put(fields, SecurityKey, SECURITY_REQUIRED);
    } else {
      r := Put(fields, SecurityKey, "");
    }
  }

  /** The opening of `_parse_fields`: identifiers and contact, four keys in order. */
  method ParseOpening(e: Engine, t: string) returns (fields: Dict)
    ensures fields == Dict([RfpKey, BuyerKey, ContactEmailKey, ContactNameKey],
      map[RfpKey := RfpNumber(e, t), BuyerKey := Find(e, BuyerName, t),
        ContactEmailKey := ContactEmailAsWritten(e, t), ContactNameKey := Find(e, ContactLabel, t)])
  {
    fields := ParseIdentifiers(e, t, EMPTY);
    assert fields == Dict([RfpKey, BuyerKey], map[RfpKey := RfpNumber(e, t), BuyerKey := Find(e, BuyerName, t)]);
    fields := ParseContact(e, t, fields);
  }

  /** The first half of `_parse_fields`: identifiers, contact and dates. */
  method ParseHead(e: Engine, t: string) returns (fields: Dict)
    ensures fields.order == HEAD_KEYS
    ensures fields.values == HeadTable(e, t)
  {
    fields := ParseOpening(e, t);
    fields := ParseDates(e, t, fields);
  }

  /** The second half of `_parse_fields`: submission, place, insurance and security. */
  method ParseTail(e: Engine, t: string, head: Dict) returns (fields: Dict)
    requires SubmissionMethodKey !in head.values && DeliveryKey !in head.values
    requires LocationKey !in head.values && TermKey !in head.values
    requires InsuranceKey !in head.values && SecurityKey !in head.values
    ensures fields.order == head.order + TAIL_KEYS
    ensures fields.values == head.values[SubmissionMethodKey := SubmissionMethod(e, t)]
      [DeliveryKey := Find(e, DeliveryLine, t)][LocationKey := Find(e, LocationLine, t)]
      [TermKey := Find(e, TermLine, t)][InsuranceKey := Insurance(e, t)][SecurityKey := SecurityClearance(e, t)]
  {
    fields := ParseSubmission(e, t, head);
    fields := ParsePlace(e, t, fields);
    assert fields.order == head.order + [SubmissionMethodKey, DeliveryKey, LocationKey, TermKey];
    fields := ParseInsurance(e, t, fields);
    fields := ParseSecurity(e, t, fields);
  }

  /** `_parse_fields(txt)`: fills the field map section by section. The result holds every
      one of the twelve keys, once, in the fixed order, whatever the text, and under each
      key the value `Table` gives. */
  method ParseFields(e: Engine, txt: string) returns (fields: Dict)
    ensures Valid(fields)
    ensures fields.order == FIELD_KEYS
    ensures fields.values == Table(e, txt)
  {
    fields := ParseHead(e, txt);
    fields := ParseTail(e, txt, fields);
    assert fields.values == Table(e, txt);
    FieldOrderIsValid(fields);
  }

  /** RFP # is the solicitation-pattern capture when that is non-empty, else the `NRCan-`
      capture; either way, with a sound engine, a part of the text. */
  lemma RfpNumberFallback(e: Engine, t: string)
    requires Sound(e)
    ensures Find(e, SolicitationId, t) != "" ==> RfpNumber(e, t) == Find(e, SolicitationId, t)
    ensures Find(e, SolicitationId, t) == "" ==> RfpNumber(e, t) == Find(e, NrcanId, t)
    ensures Contains(t, RfpNumber(e, t))
  {
    FindIsSubstring(e, SolicitationId, t);
    FindIsSubstring(e, NrcanId, t);
  }

  /** With a sound engine, each of the nine extracted fields of the parser as written is a
      part of the text. */
  lemma ExtractedValuesFromText(e: Engine, t: string)
    requires Sound(e)
    ensures Contains(t, RfpNumber(e, t)) && Contains(t, Find(e, BuyerName, t))
    ensures Contains(t, ContactEmailAsWritten(e, t)) && Contains(t, Find(e, ContactLabel, t))
    ensures Contains(t, ClosingDateAsWritten(e, t)) && Contains(t, ClosingTimeAsWritten(e, t))
    ensures Contains(t, Find(e, DeliveryLine, t)) && Contains(t, Find(e, LocationLine, t))
    ensures Contains(t, Find(e, TermLine, t))
  {
    RfpNumberFallback(e, t);
    ScopingAsWrittenIsDead(e, t);
    FindIsSubstring(e, EmailAddress, t);
    FindIsSubstring(e, DateFormats, t);
    FindIsSubstring(e, TimeFormats, t);
    FindIsSubstring(e, BuyerName, t);
    FindIsSubstring(e, ContactLabel, t);
    FindIsSubstring(e, DeliveryLine, t);
    FindIsSubstring(e, LocationLine, t);
    FindIsSubstring(e, TermLine, t);
  }

  /** With a sound engine, the empty text yields the empty string under every key. */
  lemma EmptyTextYieldsEmptyFields(e: Engine, k: Key)
    requires Sound(e)
    ensures Table(e, "")[k] == ""
  {
    forall p: Pat ensures !Matches(e, p, "") {
      NothingMatchesEmptyText(e, p);
    }
  }

  /** Submission Method, with a sound engine: "courriel" without any "connect" means email;
      CPC Connect needs "connect" in the text; physical delivery needs the mailroom or the
      bid receiving unit and no mention of email; "" means none of "courriel", "mailroom"
      or "bid receiving unit" occurs. */
  lemma SubmissionMethodSignals(e: Engine, t: string)
    requires Sound(e)
    ensures SubmissionMethod(e, t) in {CPC_CONNECT, BY_EMAIL, PHYSICAL_DELIVERY, ""}
    ensures ContainsIgnoringCase(t, "courriel") && !ContainsIgnoringCase(t, "connect") ==>
      SubmissionMethod(e, t) == BY_EMAIL
    ensures SubmissionMethod(e, t) == CPC_CONNECT ==> ContainsIgnoringCase(t, "connect")
    ensures SubmissionMethod(e, t) == PHYSICAL_DELIVERY ==>
      (ContainsIgnoringCase(t, "bid receiving unit") || ContainsIgnoringCase(t, "mailroom"))
      && !ContainsIgnoringCase(t, "courriel")
    ensures SubmissionMethod(e, t) == "" ==>
      !ContainsIgnoringCase(t, "courriel") && !ContainsIgnoringCase(t, "mailroom")
      && !ContainsIgnoringCase(t, "bid receiving unit")
  {
    if Matches(e, CpcConnect, t) {
      MatchHasNecessaryLiteral(e, CpcConnect, t);
    } else if Matches(e, EmailWord, t) {
    } else {
      if ContainsIgnoringCase(t, "courriel") {
        SufficientLiteralMatches(e, EmailWord, t, 0);
      }
      if Matches(e, MailroomWords, t) {
        MatchHasNecessaryLiteral(e, MailroomWords, t);
      } else {
        if ContainsIgnoringCase(t, "bid receiving unit") {
          SufficientLiteralMatches(e, MailroomWords, t, 0);
        }
        if ContainsIgnoringCase(t, "mailroom") {
          SufficientLiteralMatches(e, MailroomWords, t, 1);
        }
      }
    }
    if ContainsIgnoringCase(t, "courriel") && !ContainsIgnoringCase(t, "connect") {
      NoNecessaryLiteralNoMatch(e, CpcConnect, t);
      SufficientLiteralMatches(e, EmailWord, t, 0);
    }
  }

  /** Insurance, with a sound engine: an explicit waiver wins even when insurance is
      otherwise mentioned; any outcome but "" means the word occurs in the text; "Insurance
      requirements apply" means no waiver is written out. (The word pattern has word
      boundaries, so a bare "insurance" inside a longer word does not force a match.) */
  lemma InsuranceSignals(e: Engine, t: string)
    requires Sound(e)
    ensures Insurance(e, t) in {NO_INSURANCE, INSURANCE_APPLIES, ""}
    ensures ContainsIgnoringCase(t, "insurance - no specific requirement") ==> Insurance(e, t) == NO_INSURANCE
    ensures Insurance(e, t) != "" ==> ContainsIgnoringCase(t, "insurance")
    ensures Insurance(e, t) == INSURANCE_APPLIES ==>
      !ContainsIgnoringCase(t, "insurance - no specific requirement")
      && !ContainsIgnoringCase(t, "insurance \U{2013} no specific requirement")
  {
    if Matches(e, InsuranceWaived, t) {
      MatchHasNecessaryLiteral(e, InsuranceWaived, t);
    } else {
      if ContainsIgnoringCase(t, "insurance - no specific requirement") {
        SufficientLiteralMatches(e, InsuranceWaived, t, 0);
      }
      if ContainsIgnoringCase(t, "insurance \U{2013} no specific requirement") {
        SufficientLiteralMatches(e, InsuranceWaived, t, 1);
      }
      if Matches(e, InsuranceWord, t) {
        MatchHasNecessaryLiteral(e, InsuranceWord, t);
      }
    }
  }

  /** Security Clearance, with a sound engine: "no security requirements" wins even when
      the security terms also occur; "Required" means no waiver and one of the terms' key
      words; "" means none of the terms occurs. */
  lemma SecuritySignals(e: Engine, t: string)
    requires Sound(e)
    ensures SecurityClearance(e, t) in {NO_SECURITY, SECURITY_REQUIRED, ""}
    ensures ContainsIgnoringCase(t, "no security requirements") ==> SecurityClearance(e, t) == NO_SECURITY
    ensures SecurityClearance(e, t) == SECURITY_REQUIRED ==>
      !ContainsIgnoringCase(t, "no security requirements")
      && (ContainsIgnoringCase(t, "requirement") || ContainsIgnoringCase(t, "reliability")
          || ContainsIgnoringCase(t, "clearance"))
    ensures SecurityClearance(e, t) == "" ==>
      !ContainsIgnoringCase(t, "security requirement") && !ContainsIgnoringCase(t, "reliability")
      && !ContainsIgnoringCase(t, "secret clearance")
  {
    if ContainsIgnoringCase(t, "no security requirements") {
      SufficientLiteralMatches(e, SecurityWaived, t, 0);
    }
    if Matches(e, SecurityTerms, t) {
      MatchHasNecessaryLiteral(e, SecurityTerms, t);
    } else {
      if ContainsIgnoringCase(t, "security requirement") {
        SufficientLiteralMatches(e, SecurityTerms, t, 0);
      }
      if ContainsIgnoringCase(t, "reliability") {
        SufficientLiteralMatches(e, SecurityTerms, t, 1);
      }
      if ContainsIgnoringCase(t, "secret clearance") {
        SufficientLiteralMatches(e, SecurityTerms, t, 2);
      }
    }
  }

  /** With a sound engine, a security term in a text that never says "requirements" cannot
      be waived, so it gives "Required". */
  lemma SecurityTermWithoutWaiver(e: Engine, t: string)
    requires Sound(e)
    requires ContainsIgnoringCase(t, "reliability") || ContainsIgnoringCase(t, "secret clearance")
    requires !ContainsIgnoringCase(t, "requirements")
    ensures SecurityClearance(e, t) == SECURITY_REQUIRED
  {
    NoNecessaryLiteralNoMatch(e, SecurityWaived, t);
    if ContainsIgnoringCase(t, "reliability") {
      SufficientLiteralMatches(e, SecurityTerms, t, 1);
    } else {
      SufficientLiteralMatches(e, SecurityTerms, t, 2);
    }
  }

  // The corrected lookup: the contact block and the closing line taken as the whole
  // match, as the comment at summarizer.py:62 and the searches inside them intend. The
  // parser above uses the lookups as written; these definitions and their lemmas are the
  // corrected half of the two scoping findings.

  /** The contact block as intended (the corrected lookup): the whole "Address Enquiries
      to" window, else the whole "Contracting Authority" window, else "". */
  function ContactBlock(e: Engine, t: string): string {
    Or(Or(FindWhole(e, EnquiriesBlock, t), FindWhole(e, AuthorityBlock, t)), "")
  }

  /** Contact Email as intended: searched in `ContactBlock` when there is one, else in the
      whole text. */
  function ContactEmail(e: Engine, t: string): string {
    Find(e, EmailAddress, Or(ContactBlock(e, t), t))
  }

  /** The closing line as intended: the whole match, from "Solicitation Closes" (or its
      French form) to the end of the line. */
  function ClosingLine(e: Engine, t: string): string {
    FindWhole(e, ClosingSentence, t)
  }

  /** Closing Date as intended: searched in `ClosingLine` when there is one, else in the
      whole text. */
  function ClosingDate(e: Engine, t: string): string {
    Find(e, DateFormats, Or(ClosingLine(e, t), t))
  }

  /** Closing Time as intended: searched like the closing date. */
  function ClosingTime(e: Engine, t: string): string {
    Find(e, TimeFormats, Or(ClosingLine(e, t), t))
  }

  /** With a sound engine, the corrected contact block is a part of the text. */
  lemma ContactBlockIsSubstring(e: Engine, t: string)
    requires Sound(e)
    ensures Contains(t, ContactBlock(e, t))
  {
    FindWholeIsSubstring(e, EnquiriesBlock, t);
    FindWholeIsSubstring(e, AuthorityBlock, t);
    ContainsEmpty(t);
  }

  /** With a sound engine, the email is taken from the contact block whenever there is one
      (and so from the text). */
  lemma ContactEmailScope(e: Engine, t: string)
    requires Sound(e)
    ensures ContactBlock(e, t) != "" ==> Contains(ContactBlock(e, t), ContactEmail(e, t))
    ensures Contains(t, ContactEmail(e, t))
  {
    var block := ContactBlock(e, t);
    ContactBlockIsSubstring(e, t);
    FindIsSubstring(e, EmailAddress, Or(block, t));
    if block != "" {
      ContainsTransitive(t, block, ContactEmail(e, t));
    }
  }

  /** With a sound engine, the "Address Enquiries to" window wins over the "Contracting
      Authority" window whenever the text names it. */
  lemma EnquiriesBlockPreferred(e: Engine, t: string)
    requires Sound(e) && ContainsIgnoringCase(t, "address enquiries to")
    ensures ContactBlock(e, t) == FindWhole(e, EnquiriesBlock, t) != ""
  {
    SufficientLiteralMatches(e, EnquiriesBlock, t, 0);
    WholeMatchIsNotBlank(e, EnquiriesBlock, t);
  }

  /** With a sound engine, closing date and time are taken from the closing line whenever
      there is one (and so from the text). */
  lemma ClosingScope(e: Engine, t: string)
    requires Sound(e)
    ensures ClosingLine(e, t) != "" ==>
      Contains(ClosingLine(e, t), ClosingDate(e, t)) && Contains(ClosingLine(e, t), ClosingTime(e, t))
    ensures Contains(t, ClosingDate(e, t)) && Contains(t, ClosingTime(e, t))
  {
    var line := ClosingLine(e, t);
    FindWholeIsSubstring(e, ClosingSentence, t);
    FindIsSubstring(e, DateFormats, Or(line, t));
    FindIsSubstring(e, TimeFormats, Or(line, t));
    if line != "" {
      ContainsTransitive(t, line, ClosingDate(e, t));
      ContainsTransitive(t, line, ClosingTime(e, t));
    }
  }

  /** With a sound engine, a text that announces "Solicitation Closes" has a closing line. */
  lemma ClosingLineFound(e: Engine, t: string)
    requires Sound(e) && ContainsIgnoringCase(t, "solicitation closes")
    ensures ClosingLine(e, t) != ""
  {
    SufficientLiteralMatches(e, ClosingSentence, t, 0);
    WholeMatchIsNotBlank(e, ClosingSentence, t);
  }

  /** As written, the contact block and the closing line are always "", so the email,
      date and time are always searched in the whole text and the scoping never happens,
      whatever the engine. */
  lemma ScopingAsWrittenIsDead(e: Engine, t: string)
    ensures ContactBlockAsWritten(e, t) == "" && ClosingLineAsWritten(e, t) == ""
    ensures ContactEmailAsWritten(e, t) == Find(e, EmailAddress, t)
    ensures ClosingDateAsWritten(e, t) == Find(e, DateFormats, t)
    ensures ClosingTimeAsWritten(e, t) == Find(e, TimeFormats, t)
  {
  }

  /** A notice with a general address first and the enquiries address after it. */
  const CONTACT_TEXT := "Questions: help@other.ca\nAddress Enquiries to: buyer@nrcan.gc.ca"
  /** The enquiries window of `CONTACT_TEXT`: the label and the rest of its line. */
  const CONTACT_WINDOW := "Address Enquiries to: buyer@nrcan.gc.ca"

  /** On `CONTACT_TEXT`, with the answers `re` gives there (the leftmost email of the whole
      text is the general one; the enquiries window runs to the end of the text; the email
      in the window is the buyer's), the parser as written reports the general address,
      while the scoped lookup reports the buyer's. */
  lemma ContactScopingCounterexample(e: Engine)
    requires e.matches(EmailAddress, CONTACT_TEXT) && e.group1(EmailAddress, CONTACT_TEXT) == "help@other.ca"
    requires e.matches(EnquiriesBlock, CONTACT_TEXT) && e.whole(EnquiriesBlock, CONTACT_TEXT) == CONTACT_WINDOW
    requires e.matches(EmailAddress, CONTACT_WINDOW) && e.group1(EmailAddress, CONTACT_WINDOW) == "buyer@nrcan.gc.ca"
    ensures ContactEmailAsWritten(e, CONTACT_TEXT) == "help@other.ca"
    ensures ContactEmail(e, CONTACT_TEXT) == "buyer@nrcan.gc.ca"
  {
    var general, buyer := "help@other.ca", "buyer@nrcan.gc.ca";
    PrintableIsNotSpace(general[0]);
    PrintableIsNotSpace(general[|general| - 1]);
    StripSpaceKeepsTrimmed(general);
    PrintableIsNotSpace(buyer[0]);
    PrintableIsNotSpace(buyer[|buyer| - 1]);
    StripSpaceKeepsTrimmed(buyer);
    PrintableIsNotSpace(CONTACT_WINDOW[0]);
    PrintableIsNotSpace(CONTACT_WINDOW[|CONTACT_WINDOW| - 1]);
    StripSpaceKeepsTrimmed(CONTACT_WINDOW);
    assert ContactBlock(e, CONTACT_TEXT) == CONTACT_WINDOW;
  }

  /** A notice with an issue date first and the closing line after it. */
  const CLOSING_TEXT := "Issued 1 July 2025\nSolicitation Closes on 25 August 2025"
  /** The closing line of `CLOSING_TEXT`. */
  const CLOSING_LINE := "Solicitation Closes on 25 August 2025"

  /** On `CLOSING_TEXT`, with the answers `re` gives there (the leftmost date of the whole
      text is the issue date; the closing line runs to the end of the text; the date in
      it is the closing date), the parser as written reports the issue date as the
      closing date, while the scoped lookup reports the closing date. */
  lemma ClosingScopingCounterexample(e: Engine)
    requires e.matches(DateFormats, CLOSING_TEXT) && e.group1(DateFormats, CLOSING_TEXT) == "1 July 2025"
    requires e.matches(ClosingSentence, CLOSING_TEXT) && e.whole(ClosingSentence, CLOSING_TEXT) == CLOSING_LINE
    requires e.matches(DateFormats, CLOSING_LINE) && e.group1(DateFormats, CLOSING_LINE) == "25 August 2025"
    ensures ClosingDateAsWritten(e, CLOSING_TEXT) == "1 July 2025"
    ensures ClosingDate(e, CLOSING_TEXT) == "25 August 2025"
  {
    var issued, closing := "1 July 2025", "25 August 2025";
    PrintableIsNotSpace(issued[0]);
    PrintableIsNotSpace(issued[|issued| - 1]);
    StripSpaceKeepsTrimmed(issued);
    PrintableIsNotSpace(closing[0]);
    PrintableIsNotSpace(closing[|closing| - 1]);
    StripSpaceKeepsTrimmed(closing);
    PrintableIsNotSpace(CLOSING_LINE[0]);
    PrintableIsNotSpace(CLOSING_LINE[|CLOSING_LINE| - 1]);
    StripSpaceKeepsTrimmed(CLOSING_LINE);
    assert ClosingLine(e, CLOSING_TEXT) == CLOSING_LINE;
  }
}
