/** The pipeline (`summarize_pdf`): the text of the notice goes through the field parser,
    the summary extractor and the checklist, and the three results and the text itself
    are rendered into one HTML page. Text extraction from the PDF is not part of this
    model: the extracted text is the input. */
module Summarizer {
  import opened Text
  import opened Regex
  import Fields
  import Summary
  import Checklist
  import Render

  /** The page `summarize_pdf` returns for a notice whose extracted text is `text`, as a
      value: built from the field map, the summary points and the checklist of that text,
      with the text itself as the preview. */
  function Report(e: Engine, text: string, filename: string, css: string, stamp: string): string {
    Fields.FieldOrderIsValid(Fields.Dict(Fields.FIELD_KEYS, Fields.Table(e, text)));
    Render.BuildHtml(filename, Fields.Dict(Fields.FIELD_KEYS, Fields.Table(e, text)),
      Summary.Points(e, text), Checklist.ComplianceChecklist(e, text), text, css, stamp)
  }

  /** `summarize_pdf(pdf_bytes, filename)` once the text is extracted: parse the fields,
      extract the summary, build the checklist, render. The page is the report of the text,
      and its title reads back as the stripped file name. */
  method SummarizeText(e: Engine, text: string, filename: string, css: string, stamp: string)
    returns (page: string)
    ensures page == Report(e, text, filename, css, stamp)
    ensures Render.TitleOf(page) == StripSpace(filename)
  {
    var fields := Fields.ParseFields(e, text);
    var points := Summary.ExecSummary(e, text);
    var checklist := Checklist.ComplianceChecklist(e, text);
    page := Render.BuildHtml(filename, fields, points, checklist, text, css, stamp);
    Render.PageTitle(filename, fields, points, checklist, text, css, stamp);
  }

  /** The key-fields card of the report of `text`. */
  function KeyFieldsCard(e: Engine, text: string): string {
    Fields.FieldOrderIsValid(Fields.Dict(Fields.FIELD_KEYS, Fields.Table(e, text)));
    Render.KvSection(Fields.Dict(Fields.FIELD_KEYS, Fields.Table(e, text)))
  }

  /** With a sound engine, a notice with no text (a PDF nothing could be extracted from)
      gives no field values, so the key-fields card shows the placeholder. */
  lemma EmptyNoticeHasNoFields(e: Engine)
    requires Sound(e)
    ensures KeyFieldsCard(e, "") == Render.NOT_DETECTED
  {
    var d := Fields.Dict(Fields.FIELD_KEYS, Fields.Table(e, ""));
    Fields.FieldOrderIsValid(d);
    forall k | k in d.values ensures d.values[k] == "" {
      Fields.EmptyTextYieldsEmptyFields(e, k);
    }
    Render.KvSectionPlaceholder(d);
  }

  /** With a sound engine, the summary of a notice with no text is the sentinel alone. */
  lemma EmptyNoticeHasSentinelSummary(e: Engine)
    requires Sound(e)
    ensures Summary.Points(e, "") == [Summary.SENTINEL]
  {
    assert SoundAt(e, SummaryHeading, "");
    NothingMatchesEmptyText(e, SummaryHeading);
    assert Summary.Seed(e, "") == "";
  }

  /** With a sound engine, the key fields and the checklist agree on an explicit security
      waiver: "no security requirements", in any case, makes the field "None" and the
      checklist row "no". */
  lemma SecurityWaiverAgrees(e: Engine, t: string)
    requires Sound(e) && ContainsIgnoringCase(t, "no security requirements")
    ensures Fields.SecurityClearance(e, t) == Fields.NO_SECURITY
    ensures Checklist.Security(e, Lower(t)) == Checklist.NO
  {
    Fields.SecuritySignals(e, t);
    LowerKeepsSmall("no security requirements");
    Checklist.SecuritySignals(e, t);
  }

  /** With a sound engine, the key fields and the checklist agree on the insurance waiver
      written with a spaced hyphen: the field says "No specific requirement" and the
      checklist row "no specific requirement". */
  lemma InsuranceWaiverAgrees(e: Engine, t: string)
    requires Sound(e) && ContainsIgnoringCase(t, "insurance - no specific requirement")
    ensures Fields.Insurance(e, t) == Fields.NO_INSURANCE
    ensures Checklist.Insurance(e, Lower(t)) == Checklist.NO_SPECIFIC
  {
    Fields.InsuranceSignals(e, t);
    LowerKeepsSmall("insurance - no specific requirement");
    Checklist.InsuranceSignals(e, t);
  }
}
