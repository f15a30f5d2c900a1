/** The compliance checklist (`_compliance_checklist`): eight fixed questions about the
    notice, each answered from patterns searched, without flags, in the lower-cased text. */
module Checklist {
  import opened Text
  import opened Regex

  /** The statuses a checklist row can take. */
  const YES := "yes"
  const NO := "no"
  const UNKNOWN := "\U{2014}"
  const NO_SPECIFIC := "no specific requirement"
  const CONTRACT := "contract"

  /** The questions, in the order of the checklist. */
  const LABELS: seq<string> := [
    "Mandatory Site Visit", "Security Clearance", "Insurance", "Indigenous Procurement",
    "French/Bilingual Content", "SOW Attached", "Evaluation Method", "Form of Contract"]

  /** "yes" when the pattern is found in the lower-cased text `low`, else the dash. */
  function YesOrUnknown(e: Engine, p: Pat, low: string): string {
    if Matches(e, p, low) then YES else UNKNOWN
  }

  /** With a sound engine, a "yes"-or-dash row answers "yes" whenever a sufficient literal
      of its pattern occurs, and only when a necessary one does. */
  lemma YesOrUnknownSignals(e: Engine, p: Pat, low: string)
    requires Sound(e)
    ensures AnyOccurs(p, low, Sufficient(p)) ==> YesOrUnknown(e, p, low) == YES
    ensures YesOrUnknown(e, p, low) == YES ==> AnyOccurs(p, low, Necessary(p))
  {
    assert SoundAt(e, p, low);
    if Matches(e, p, low) {
      MatchHasNecessaryLiteral(e, p, low);
    }
  }

  /** Row "Mandatory Site Visit": "yes" or "no". */
  function SiteVisit(e: Engine, low: string): string {
    if Matches(e, SiteVisitTerm, low) then YES else NO
  }

  /** Row "Security Clearance": a waiver wins over the security terms. */
  function Security(e: Engine, low: string): string {
    if Matches(e, SecurityWaivedLower, low) then NO
    else if Matches(e, SecurityTermsLower, low) then YES
    else UNKNOWN
  }

  /** Row "Insurance": a waiver wins over the bare word. */
  function Insurance(e: Engine, low: string): string {
    if Matches(e, InsuranceWaivedLower, low) then NO_SPECIFIC
    else if Matches(e, InsuranceWordLower, low) then YES
    else UNKNOWN
  }

  /** Row "French/Bilingual Content" as written: the second branch of the alternation
      looks for a capitalised "French" in the lower-cased text. */
  function FrenchAsWritten(e: Engine, low: string): string {
    if Matches(e, FrenchWord, low) || Contains(low, "French") then YES else UNKNOWN
  }

  /** Row "French/Bilingual Content" as intended: "français"/"francais" as a word, or
      "french" anywhere in the lower-cased text. */
  function French(e: Engine, low: string): string {
    if Matches(e, FrenchWord, low) || Contains(low, "french") then YES else UNKNOWN
  }

  /** Row "Form of Contract". */
  function FormOfContract(e: Engine, low: string): string {
    if Matches(e, ContractClauses, low) then CONTRACT else UNKNOWN
  }

  /** `_compliance_checklist(txt)`: eight (question, status) pairs, the questions fixed and
      in order, each answered by whether its patterns match the lower-cased text. The site
      visit is "yes" or "no"; a security waiver answers "no" and otherwise a security term
      "yes"; an insurance waiver answers "no specific requirement" and otherwise the word
      "yes"; the form of contract is "contract" on a match; every other row is "yes" on a
      match; whatever is not answered is the dash. The French row, as written, is "yes"
      exactly when the accented or unaccented word matches: its capitalised branch never
      fires. */
  function ComplianceChecklist(e: Engine, txt: string): (items: seq<(string, string)>)
    ensures |items| == |LABELS|
    ensures forall i :: 0 <= i < |items| ==> items[i].0 == LABELS[i]
    ensures var low := Lower(txt);
      && (items[0].1 == YES <==> Matches(e, SiteVisitTerm, low))
      && (items[1].1 == NO <==> Matches(e, SecurityWaivedLower, low))
      && (items[1].1 == YES <==> !Matches(e, SecurityWaivedLower, low) && Matches(e, SecurityTermsLower, low))
      && (items[2].1 == NO_SPECIFIC <==> Matches(e, InsuranceWaivedLower, low))
      && (items[2].1 == YES <==> !Matches(e, InsuranceWaivedLower, low) && Matches(e, InsuranceWordLower, low))
      && (items[3].1 == YES <==> Matches(e, IndigenousTerms, low))
      && (items[4].1 == YES <==> Matches(e, FrenchWord, low))
      && (items[5].1 == YES <==> Matches(e, SowTerms, low))
      && (items[6].1 == YES <==> Matches(e, EvaluationTerms, low))
      && (items[7].1 == CONTRACT <==> Matches(e, ContractClauses, low))
    ensures items[0].1 in {YES, NO}
    ensures items[1].1 in {NO, YES, UNKNOWN}
    ensures items[2].1 in {NO_SPECIFIC, YES, UNKNOWN}
    ensures forall i :: 3 <= i < 7 ==> items[i].1 in {YES, UNKNOWN}
    ensures items[7].1 in {CONTRACT, UNKNOWN}
  {
    var low := Lower(txt);
    LowerHasNoCapitals(txt, "French", 0);
    [ ("Mandatory Site Visit", SiteVisit(e, low)),
      ("Security Clearance", Security(e, low)),
      ("Insurance", Insurance(e, low)),
      ("Indigenous Procurement", YesOrUnknown(e, IndigenousTerms, low)),
      ("French/Bilingual Content", FrenchAsWritten(e, low)),
      ("SOW Attached", YesOrUnknown(e, SowTerms, low)),
      ("Evaluation Method", YesOrUnknown(e, EvaluationTerms, low)),
      ("Form of Contract", FormOfContract(e, low)) ]
  }

  /** With a sound engine, the site visit, waiver and clause phrases of a notice force
      the checklist's answers to those questions. */
  lemma ChecklistAnswersRequirements(e: Engine, txt: string)
    requires Sound(e)
    ensures var items, low := ComplianceChecklist(e, txt), Lower(txt);
      && (Contains(low, "mandatory site visit") ==> items[0].1 == YES)
      && (Contains(low, "no security requirements") ==> items[1].1 == NO)
      && ((Contains(low, "insurance - no specific requirement")
           || Contains(low, "insurance-no specific requirement")) ==> items[2].1 == NO_SPECIFIC)
      && (Contains(low, "resulting contract clauses") ==> items[7].1 == CONTRACT)
  {
    SiteVisitSignals(e, txt);
    SecuritySignals(e, txt);
    InsuranceSignals(e, txt);
    FormOfContractSignals(e, txt);
  }

  /** With a sound engine, the checklist's document questions: the indigenous row is "yes"
      exactly when one of its words occurs; the French row is "yes" only when "francais"
      or "français" occurs; the statement-of-work and evaluation phrases answer "yes". */
  lemma ChecklistAnswersDocuments(e: Engine, txt: string)
    requires Sound(e)
    ensures var items, low := ComplianceChecklist(e, txt), Lower(txt);
      && (items[3].1 == YES <==>
            (Contains(low, "indigenous") || Contains(low, "aboriginal")
             || Contains(low, "set-aside") || Contains(low, "setaside")))
      && (items[4].1 == YES ==> Contains(low, "francais") || Contains(low, "fran\U{e7}ais"))
      && ((Contains(low, "statement of work") || Contains(low, "annex a")) ==> items[5].1 == YES)
      && ((Contains(low, "evaluation procedures") || Contains(low, "rated criteria")
           || Contains(low, "mandatory requirements")) ==> items[6].1 == YES)
  {
    var low := Lower(txt);
    IndigenousSignals(e, txt);
    if Matches(e, FrenchWord, low) {
      MatchHasNecessaryLiteral(e, FrenchWord, low);
    }
    SowSignals(e, txt);
    EvaluationSignals(e, txt);
  }

  /** Site visit, with a sound engine: "mandatory site visit" in the text means "yes", and
      "yes" means the text speaks of a visit. */
  lemma SiteVisitSignals(e: Engine, txt: string)
    requires Sound(e)
    ensures var low := Lower(txt);
      && (Contains(low, "mandatory site visit") ==> SiteVisit(e, low) == YES)
      && (SiteVisit(e, low) == YES ==> Contains(low, "visit"))
  {
    var low := Lower(txt);
    assert SoundAt(e, SiteVisitTerm, low);
    if Contains(low, "mandatory site visit") {
      assert Occurs(SiteVisitTerm, low, Sufficient(SiteVisitTerm)[0]);
    }
    if Matches(e, SiteVisitTerm, low) {
      MatchHasNecessaryLiteral(e, SiteVisitTerm, low);
    }
  }

  /** Security, with a sound engine: "no security requirements" answers "no" whatever else
      the text says; "yes" means no waiver and a requirement, reliability or clearance; the
      dash means none of the security terms occurs. */
  lemma SecuritySignals(e: Engine, txt: string)
    requires Sound(e)
    ensures var low := Lower(txt);
      && (Contains(low, "no security requirements") ==> Security(e, low) == NO)
      && (Security(e, low) == YES ==>
            !Contains(low, "no security requirements")
            && (Contains(low, "requirement") || Contains(low, "reliability") || Contains(low, "clearance")))
      && (Security(e, low) == UNKNOWN ==>
            !Contains(low, "security requirement") && !Contains(low, "reliability")
            && !Contains(low, "secret clearance"))
  {
    var low := Lower(txt);
    assert SoundAt(e, SecurityWaivedLower, low);
    assert SoundAt(e, SecurityTermsLower, low);
    if !Matches(e, SecurityWaivedLower, low) {
      assert !Occurs(SecurityWaivedLower, low, Sufficient(SecurityWaivedLower)[0]);
      if Matches(e, SecurityTermsLower, low) {
        MatchHasNecessaryLiteral(e, SecurityTermsLower, low);
      } else {
        assert !Occurs(SecurityTermsLower, low, Sufficient(SecurityTermsLower)[0]);
        assert !Occurs(SecurityTermsLower, low, Sufficient(SecurityTermsLower)[1]);
        assert !Occurs(SecurityTermsLower, low, Sufficient(SecurityTermsLower)[2]);
      }
    }
  }

  /** Insurance, with a sound engine: the waiver, with or without spaces around its hyphen,
      answers "no specific requirement"; any answer but the dash means the text mentions
      insurance. */
  lemma InsuranceSignals(e: Engine, txt: string)
    requires Sound(e)
    ensures var low := Lower(txt);
      && ((Contains(low, "insurance - no specific requirement")
           || Contains(low, "insurance-no specific requirement")) ==> Insurance(e, low) == NO_SPECIFIC)
      && (Insurance(e, low) != UNKNOWN ==> Contains(low, "insurance"))
      && Insurance(e, low) in {NO_SPECIFIC, YES, UNKNOWN}
  {
    var low := Lower(txt);
    assert SoundAt(e, InsuranceWaivedLower, low);
    if Matches(e, InsuranceWaivedLower, low) {
      MatchHasNecessaryLiteral(e, InsuranceWaivedLower, low);
    } else {
      assert !Occurs(InsuranceWaivedLower, low, Sufficient(InsuranceWaivedLower)[0]);
      assert !Occurs(InsuranceWaivedLower, low, Sufficient(InsuranceWaivedLower)[1]);
      if Matches(e, InsuranceWordLower, low) {
        MatchHasNecessaryLiteral(e, InsuranceWordLower, low);
      }
    }
  }

  /** Indigenous procurement, with a sound engine: "yes" exactly when the text mentions
      indigenous, aboriginal or a set-aside. */
  lemma IndigenousSignals(e: Engine, txt: string)
    requires Sound(e)
    ensures var low := Lower(txt);
      YesOrUnknown(e, IndigenousTerms, low) == YES <==>
        (Contains(low, "indigenous") || Contains(low, "aboriginal")
         || Contains(low, "set-aside") || Contains(low, "setaside"))
  {
    var low := Lower(txt);
    assert SoundAt(e, IndigenousTerms, low);
    if Matches(e, IndigenousTerms, low) {
      MatchHasNecessaryLiteral(e, IndigenousTerms, low);
    } else {
      assert !Occurs(IndigenousTerms, low, Sufficient(IndigenousTerms)[0]);
      assert !Occurs(IndigenousTerms, low, Sufficient(IndigenousTerms)[1]);
      assert !Occurs(IndigenousTerms, low, Sufficient(IndigenousTerms)[2]);
      assert !Occurs(IndigenousTerms, low, Sufficient(IndigenousTerms)[3]);
    }
  }

  /** French content, with a sound engine: "french" anywhere answers "yes", and "yes"
      means the text says french, francais or français. */
  lemma FrenchSignals(e: Engine, txt: string)
    requires Sound(e)
    ensures var low := Lower(txt);
      && (Contains(low, "french") ==> French(e, low) == YES)
      && (French(e, low) == YES ==>
            Contains(low, "french") || Contains(low, "francais") || Contains(low, "fran\U{e7}ais"))
  {
    var low := Lower(txt);
    if Matches(e, FrenchWord, low) {
      MatchHasNecessaryLiteral(e, FrenchWord, low);
    }
  }

  /** Statement of work, with a sound engine: "statement of work" or "annex a" answers
      "yes", and "yes" means one of "statement of work" and "annex" occurs. */
  lemma SowSignals(e: Engine, txt: string)
    requires Sound(e)
    ensures var low := Lower(txt);
      && ((Contains(low, "statement of work") || Contains(low, "annex a")) ==>
            YesOrUnknown(e, SowTerms, low) == YES)
      && (YesOrUnknown(e, SowTerms, low) == YES ==>
            Contains(low, "statement of work") || Contains(low, "annex"))
  {
    var low := Lower(txt);
    assert SoundAt(e, SowTerms, low);
    if Matches(e, SowTerms, low) {
      MatchHasNecessaryLiteral(e, SowTerms, low);
    } else {
      assert !Occurs(SowTerms, low, Sufficient(SowTerms)[0]);
      assert !Occurs(SowTerms, low, Sufficient(SowTerms)[1]);
    }
  }

  /** Evaluation method, with a sound engine: "evaluation procedures", "rated criteria" or
      "mandatory requirements" answers "yes", and "yes" means procedures, criteria or
      requirements are named. */
  lemma EvaluationSignals(e: Engine, txt: string)
    requires Sound(e)
    ensures var low := Lower(txt);
      && ((Contains(low, "evaluation procedures") || Contains(low, "rated criteria")
           || Contains(low, "mandatory requirements")) ==> YesOrUnknown(e, EvaluationTerms, low) == YES)
      && (YesOrUnknown(e, EvaluationTerms, low) == YES ==>
            Contains(low, "procedures") || Contains(low, "criteria") || Contains(low, "requirements"))
  {
    var low := Lower(txt);
    assert SoundAt(e, EvaluationTerms, low);
    if Matches(e, EvaluationTerms, low) {
      MatchHasNecessaryLiteral(e, EvaluationTerms, low);
    } else {
      assert !Occurs(EvaluationTerms, low, Sufficient(EvaluationTerms)[0]);
      assert !Occurs(EvaluationTerms, low, Sufficient(EvaluationTerms)[1]);
      assert !Occurs(EvaluationTerms, low, Sufficient(EvaluationTerms)[2]);
    }
  }

  /** Form of contract, with a sound engine: "resulting contract clauses" answers
      "contract", and "contract" means the text speaks of clauses. */
  lemma FormOfContractSignals(e: Engine, txt: string)
    requires Sound(e)
    ensures var low := Lower(txt);
      && (Contains(low, "resulting contract clauses") ==> FormOfContract(e, low) == CONTRACT)
      && (FormOfContract(e, low) == CONTRACT ==> Contains(low, "clauses"))
  {
    var low := Lower(txt);
    assert SoundAt(e, ContractClauses, low);
    if Matches(e, ContractClauses, low) {
      MatchHasNecessaryLiteral(e, ContractClauses, low);
    } else {
      assert !Occurs(ContractClauses, low, Sufficient(ContractClauses)[0]);
    }
  }

  /** With a sound engine, an empty notice answers "no" to the site visit and the dash to
      every other question: nothing is detected. */
  lemma EmptyTextDetectsNothing(e: Engine)
    requires Sound(e)
    ensures forall i :: 1 <= i < |LABELS| ==> ComplianceChecklist(e, "")[i].1 == UNKNOWN
    ensures ComplianceChecklist(e, "")[0].1 == NO
  {
    var low := Lower("");
    assert low == "";
    NothingMatchesEmptyText(e, SiteVisitTerm);
    NothingMatchesEmptyText(e, SecurityWaivedLower);
    NothingMatchesEmptyText(e, SecurityTermsLower);
    NothingMatchesEmptyText(e, InsuranceWaivedLower);
    NothingMatchesEmptyText(e, InsuranceWordLower);
    NothingMatchesEmptyText(e, IndigenousTerms);
    NothingMatchesEmptyText(e, FrenchWord);
    NothingMatchesEmptyText(e, SowTerms);
    NothingMatchesEmptyText(e, EvaluationTerms);
    NothingMatchesEmptyText(e, ContractClauses);
  }

  /** The capitalised branch of the French check as written can never fire: the text it
      searches has been lower-cased, so the row depends on the accented word alone. */
  lemma FrenchAsWrittenIgnoresFrench(e: Engine, txt: string)
    ensures FrenchAsWritten(e, Lower(txt)) == YesOrUnknown(e, FrenchWord, Lower(txt))
  {
    LowerHasNoCapitals(txt, "French", 0);
  }

  /** A notice that names the language only as "French". */
  const FRENCH_TEXT := "French"

  /** On that notice the check as written answers the dash, the intended check "yes". */
  lemma FrenchCounterexample(e: Engine)
    requires Sound(e)
    ensures FrenchAsWritten(e, Lower(FRENCH_TEXT)) == UNKNOWN
    ensures French(e, Lower(FRENCH_TEXT)) == YES
  {
    var low := Lower(FRENCH_TEXT);
    assert low == "french";
    FrenchAsWrittenIgnoresFrench(e, FRENCH_TEXT);
    assert !Occurs(FrenchWord, low, Necessary(FrenchWord)[0]);
    assert !Occurs(FrenchWord, low, Necessary(FrenchWord)[1]);
    NoNecessaryLiteralNoMatch(e, FrenchWord, low);
    assert OccursAt(low, "french", 0);
  }
}
