# RFP summarizer: a Dafny model

This project models the rule-based extraction engine of the tender summarizer
(`summarizer.py`). It takes the text of a Canadian government request for proposals (RFP) and
produces a one-page HTML report with four parts:

- a key-fields table of twelve named fields (RFP number, buyer, contact, closing date and
  time, submission method, delivery, location, term, insurance, security clearance);
- an executive summary of up to eight bullet lines;
- a compliance checklist of eight fixed questions;
- an escaped preview of the text.

Modules, one per part of the program:

| file | module | models |
|---|---|---|
| text.dfy | `Text` | the Python string operations the code relies on: `str.strip`, `str.lower`, `str.splitlines`, `str.join`, `in`, `a or b`, slicing |
| regex.dfy | `Regex` | the regular expressions (one `Pat` constructor each), the engine as a parameter, `_find` and `_find_all` |
| fields.dfy | `Fields` | `_parse_fields`: the field dict and the method that fills it section by section |
| summary.dfy | `Summary` | `_exec_summary`: the seed text and the loop that keeps bullets |
| checklist.dfy | `Checklist` | `_compliance_checklist` |
| render.dfy | `Render` | `_esc` (with `html.escape`) and `_build_html` |
| summarizer.dfy | `Summarizer` | `summarize_pdf`, taking the extracted text as its input |

Python's `re` is not modelled. Each search goes through an `Engine` value, which is a
parameter of every operation that runs a pattern. The model knows four things about each
pattern, read off its text:

- how many capture groups it has;
- whether it runs with `re.I`;
- literals of which one must appear in any match (`Necessary`);
- literals whose presence forces a match (`Sufficient`).

`Regex.Sound(e)` says the engine agrees with these tables. Every property that depends on
what a pattern matches is stated under `Sound(e)`. Properties that do not depend on it hold
for every engine: the shape of the field map, the priority order of the decision lists, the
bullet bounds, the checklist shape, escaping and the page title.

`_parse_fields` and `_exec_summary` update state step by step, so they are methods: the
section methods of `Fields`, and `Summary.ExecSummary` with its loop. Each is proved
against a function that gives its result as a value (`Fields.Table`, `Summary.Points`). The
checklist, `_esc` and `_build_html` are expressions in the source, so they are functions.

The model follows the code as written. `_find` returns "" for a pattern without a capture
group (summarizer.py:45). The contact-block and closing-line patterns (summarizer.py:63-64
and 71) have none, so the parser, the report and `Fields.Table` search the contact email and
the closing date and time in the whole text (`Fields.ContactEmailAsWritten`,
`Fields.ClosingDateAsWritten`, `Fields.ClosingTimeAsWritten`). The French row of the
checklist searches a capitalised word in lower-cased text (summarizer.py:130), and
`Checklist.ComplianceChecklist` uses that row as written (`Checklist.FrenchAsWritten`).

The comment at summarizer.py:62 and the searches inside `contact_block` and `closing_line`
show that scoped lookups were intended. The model states the corrected lookups separately
(`Fields.ContactBlock`, `Fields.ContactEmail`, `Fields.ClosingLine`, `Fields.ClosingDate`,
`Fields.ClosingTime`, `Checklist.French`) and proves their properties. The rows below marked
"corrected lookup" are about them; see "Findings".

## Model

| member | source | states |
|---|---|---|
| Regex.Find | summarizer.py:43-45 | `_find` is non-empty only when the pattern matched and has a capture group (the `m.lastindex` guard); otherwise "" |
| Regex.FindIsSubstring | summarizer.py:43-45 | with a sound engine, what `_find` returns (the stripped group) is a substring of the searched text |
| Regex.FindAllOnlyOnMatch | summarizer.py:47-48 | with a sound engine, `_find_all` returns something only when the pattern matches; it has one entry per `re.findall` result, and no entry starts or ends with white space |
| Regex.FindWhole | summarizer.py:63-64 | corrected lookup: the whole match of a group-less pattern, stripped, is non-empty only on a match |
| Regex.FindWholeIsSubstring | summarizer.py:63-64 | corrected lookup: with a sound engine, the stripped whole match is a substring of the text |
| Regex.WholeMatchIsNotBlank | summarizer.py:71 | with a sound engine, the stripped whole match is non-empty exactly when the pattern matches |
| Regex.NothingMatchesEmptyText | summarizer.py:55-133 | with a sound engine, none of the source's patterns matches the empty text |
| Text.Or | summarizer.py:63-65 | Python `a or b` on strings: `a` when it is non-empty, and "" only when both are |
| Text.StripEnds | summarizer.py:45 | what `str.strip` keeps neither starts nor ends with a stripped character, and it is empty exactly when every character is stripped |
| Text.StripIsSubstring | summarizer.py:45 | what `str.strip` keeps is a contiguous part of the original text |
| Text.StripTrimsEnds | summarizer.py:45 | what `str.strip` keeps is a slice of the text with only stripped characters before and after it; with `Text.StripEnds` this fixes the result |
| Text.SplitLines | summarizer.py:115 | `str.splitlines` yields lines free of line boundaries, and no lines only for "" |
| Text.JoinSplitLines | summarizer.py:113-115 | joining the lines of a `\n`-separated text with `\n` gives the text back |
| Text.LowerIsIdempotent | summarizer.py:123 | `str.lower` keeps the length, leaves no ASCII capital, and lower-casing twice changes nothing |
| Text.LowerHasNoCapitals | summarizer.py:123-130 | a string with a capital never occurs in a lower-cased text |
| Fields.NamesAreDistinct | summarizer.py:55-106 | the twelve field keys have distinct names, so the key enumeration loses nothing |
| Fields.PutKeepsValid | summarizer.py:52-106 | dict assignment keeps every key listed once; a new key goes to the end, an existing one keeps its place |
| Fields.ItemsListEachKeyOnce | summarizer.py:141 | `fields.items()` of a well-formed dict lists every stored key exactly once, each with its stored value |
| Fields.Table | summarizer.py:50-108 | the field map as a value, as the code is written, holds all twelve keys |
| Fields.ParseIdentifiers | summarizer.py:54-59 | assigns RFP # (the solicitation capture, else the `NRCan-` capture) then Buyer, appending both keys in that order |
| Fields.ParseContact | summarizer.py:61-66 | as written: the contact block comes from `_find` on group-less patterns and so is "", and Contact Email is the first email of the whole text; then Contact Name; both keys appended in that order |
| Fields.ParseDates | summarizer.py:68-73 | as written: the closing line comes from `_find` on a group-less pattern and so is "", and Closing Date and Closing Time are the first date and time of the whole text; both keys appended in that order |
| Fields.ParseSubmission | summarizer.py:75-83 | assigns Submission Method from the CPC Connect / email / mailroom decision list |
| Fields.ParsePlace | summarizer.py:85-90 | assigns Delivery, Location and Term of Contract, in that order |
| Fields.ParseInsurance | summarizer.py:92-98 | assigns Insurance from the waiver / word decision list |
| Fields.ParseSecurity | summarizer.py:100-106 | assigns Security Clearance from the waiver / terms decision list |
| Fields.ParseOpening | summarizer.py:54-66 | the first four keys in source order, with their values as the code is written |
| Fields.ParseHead | summarizer.py:54-73 | the first six keys in source order, with their values as the code is written |
| Fields.ParseTail | summarizer.py:75-106 | the last six keys appended in source order, with their values |
| Fields.ParseFields | summarizer.py:50-108 | `_parse_fields` returns a well-formed dict with exactly the twelve keys, in assignment order, whatever the text, and under each key the value its rule yields as the code is written |
| Fields.RfpNumberFallback | summarizer.py:55-57 | RFP # is the solicitation capture when non-empty, else the `NRCan-` capture; with a sound engine it is a substring of the text |
| Fields.ContactBlockIsSubstring | summarizer.py:63-64 | corrected lookup: with a sound engine, the contact block is a substring of the text |
| Fields.ContactEmailScope | summarizer.py:65 | corrected lookup: with a sound engine, the email lies inside the contact block whenever that block is non-empty, and always inside the text |
| Fields.EnquiriesBlockPreferred | summarizer.py:62-64 | corrected lookup: with a sound engine, an "Address Enquiries to" label makes its window the contact block, ahead of "Contracting Authority" |
| Fields.ClosingScope | summarizer.py:71-73 | corrected lookup: with a sound engine, closing date and time lie inside the closing line whenever there is one, and always inside the text |
| Fields.ClosingLineFound | summarizer.py:71 | corrected lookup: with a sound engine, a text saying "Solicitation Closes" has a non-empty closing line |
| Fields.ExtractedValuesFromText | summarizer.py:55-90 | with a sound engine, each of the nine captured fields of the parser as written is a substring of the text |
| Fields.EmptyTextYieldsEmptyFields | summarizer.py:50-108 | with a sound engine, every field of the empty text is "" |
| Fields.SubmissionMethodSignals | summarizer.py:75-83 | the method is one of four strings; "courriel" without "connect" gives Email; CPC needs "connect"; mailroom needs its words and no "courriel"; "" means none of the signals |
| Fields.InsuranceSignals | summarizer.py:92-98 | one of three strings; a written waiver wins over the bare word; a non-empty answer needs "insurance"; "apply" means no waiver is written |
| Fields.SecuritySignals | summarizer.py:100-106 | one of three strings; "no security requirements" wins over the terms; Required means no waiver and one of the terms' key words; "" means no term |
| Fields.SecurityTermWithoutWaiver | summarizer.py:100-106 | reliability or secret clearance in a text that never says "requirements" gives Required |
| Fields.ScopingAsWrittenIsDead | summarizer.py:63-73 | as written, the contact block and the closing line are always "", so email, date and time are always searched in the whole text |
| Fields.ContactScopingCounterexample | summarizer.py:63-65 | on a concrete notice, the code as written reports the general address and the scoped lookup reports the buyer's |
| Fields.ClosingScopingCounterexample | summarizer.py:71-72 | on a concrete notice, the code as written reports the issue date as the closing date and the scoped lookup reports the closing date |
| Summary.Kept | summarizer.py:115-118 | the kept bullets number at most the lines, and each is 12 to 180 characters long |
| Summary.KeptAppend | summarizer.py:115-118 | keeping distributes over concatenation, so accepted lines keep their seed order |
| Summary.KeptAreStripped | summarizer.py:116 | every kept bullet is the strip of some seed line and neither starts nor ends with a space, bullet, hyphen or tab |
| Summary.KeptStep | summarizer.py:115-118 | one more scanned line is kept after the earlier ones exactly when its stripped form is accepted |
| Summary.KeptUpToLimit | summarizer.py:119 | once the scan stops, at the end or with eight kept, it holds the first eight kept lines of the whole seed |
| Summary.SeedChoice | summarizer.py:112-113 | the seed is the first heading block, or the first two joined by a newline; with no block, the first 2500 characters of the text, or all of it when it is shorter |
| Summary.SeedHeadingNamed | summarizer.py:112 | with a sound engine, heading blocks exist only if the text says summary, introduction or scope |
| Summary.PointsShape | summarizer.py:110-120 | between 1 and 8 points; either the first eight kept bullets, or the sentinel alone exactly when nothing qualifies |
| Summary.ExecSummary | summarizer.py:110-120 | the loop returns the first eight kept bullets of the seed, or the sentinel |
| Checklist.YesOrUnknownSignals | summarizer.py:129-132 | with a sound engine, a yes-or-dash row answers "yes" when a sufficient literal of its pattern occurs, and only when a necessary one does |
| Checklist.ComplianceChecklist | summarizer.py:122-135 | eight pairs with the labels in fixed order; each row answers from which of its patterns match the lower-cased text, a waiver winning over the terms for security and insurance; the French row as written is "yes" exactly when the accented or unaccented word matches; each status lies in its own closed set |
| Checklist.ChecklistAnswersRequirements | summarizer.py:126-133 | with a sound engine, "mandatory site visit", "no security requirements", the hyphenated insurance waiver and "resulting contract clauses" force their rows' answers |
| Checklist.ChecklistAnswersDocuments | summarizer.py:129-132 | with a sound engine, the indigenous row is "yes" exactly when one of its words occurs, the French row as written only when "francais" or "français" does, and the statement-of-work and evaluation phrases answer "yes" |
| Checklist.SiteVisitSignals | summarizer.py:126 | with a sound engine, "mandatory site visit" gives "yes", and "yes" needs "visit" |
| Checklist.SecuritySignals | summarizer.py:127 | with a sound engine, the waiver gives "no" even next to the terms; "yes" means no waiver and a term; the dash means no term |
| Checklist.InsuranceSignals | summarizer.py:128 | with a sound engine, the hyphenated waiver gives "no specific requirement"; any answer but the dash needs "insurance" |
| Checklist.IndigenousSignals | summarizer.py:129 | with a sound engine, "yes" exactly when indigenous, aboriginal, set-aside or setaside occurs |
| Checklist.FrenchSignals | summarizer.py:130 | with a sound engine, the corrected row gives "yes" on "french", and "yes" needs french, francais or français |
| Checklist.SowSignals | summarizer.py:131 | with a sound engine, "statement of work" or "annex a" gives "yes", and "yes" needs one of "statement of work" or "annex" |
| Checklist.EvaluationSignals | summarizer.py:132 | with a sound engine, the three phrases give "yes", and "yes" needs procedures, criteria or requirements |
| Checklist.FormOfContractSignals | summarizer.py:133 | with a sound engine, "resulting contract clauses" gives "contract", and "contract" needs "clauses" |
| Checklist.EmptyTextDetectsNothing | summarizer.py:122-135 | with a sound engine, the empty text answers "no" to the site visit and the dash to everything else |
| Checklist.FrenchAsWrittenIgnoresFrench | summarizer.py:123-130 | as written, the capitalised "French" branch never fires on the lower-cased text |
| Checklist.FrenchCounterexample | summarizer.py:130 | on the notice "French", the row as written answers the dash and the corrected row answers "yes" |
| Render.EscapeChar | summarizer.py:138 | one character's `html.escape` replacement: non-empty and free of `<`, `>`, `"` and `'` |
| Render.HtmlEscape | summarizer.py:138 | `html.escape` output is at least as long as its input and holds no `<`, `>`, `"` or `'` |
| Render.AmpersandsStartEntities | summarizer.py:138 | every `&` in escaped text begins one of the five entities, so no bare `&` remains |
| Render.UnescapeEscape | summarizer.py:138 | reading escaped text back gives the original, so escaping loses nothing |
| Render.EscapeIsInjective | summarizer.py:138 | distinct texts escape differently |
| Render.EscapeKeepsPlainText | summarizer.py:138 | text without `&`, `<`, `>`, `"` and `'` is left unchanged |
| Render.Esc | summarizer.py:137-138 | `_esc` output holds no `<`, `>`, `"` or `'` |
| Render.EscReadsBack | summarizer.py:137-138 | `_esc` output reads back as the stripped text |
| Render.EscapedTextEndsAtTag | summarizer.py:141-154 | an escaped text followed by a tag ends exactly at that tag and reads back as the stripped text, whatever follows |
| Render.Filled | summarizer.py:141 | the items with a value are items of the dict with non-empty values, and there are none exactly when every value is empty |
| Render.FilledAppend | summarizer.py:141 | filtering distributes over concatenation, so the kept items keep the dict's order |
| Render.FilledCoversValues | summarizer.py:141 | every item with a non-empty value gets a key-field row |
| Render.KvLines | summarizer.py:141 | there are no rows exactly when every value is empty, and every row is non-empty |
| Render.KvSectionPlaceholder | summarizer.py:152 | the "Not detected" placeholder shows when every field is empty; otherwise the non-empty rows show |
| Render.TitleOfHeadedPage | summarizer.py:144-146 | a page with the fixed head, an escaped name and `</title>` has the stripped name as its title |
| Render.PageTitle | summarizer.py:140-157 | whatever the file name holds, the page's title reads back as the stripped file name: markup in the name cannot close the title or inject a tag |
| Text.PrefixAndRest | summarizer.py:154 | `s[:n]` followed by the rest of `s` is `s`; it has `n` elements, or is all of `s` when `s` is shorter, as in the 16000-character preview |
| Summarizer.SummarizeText | summarizer.py:159-164 | `summarize_pdf` on extracted text returns the report of fields, summary, checklist and preview, all as the code is written, and its title is the stripped file name |
| Summarizer.EmptyNoticeHasNoFields | summarizer.py:152 | with a sound engine, a notice with no text shows the "Not detected" placeholder |
| Summarizer.EmptyNoticeHasSentinelSummary | summarizer.py:113-120 | with a sound engine, the summary of a notice with no text is the sentinel alone |
| Summarizer.SecurityWaiverAgrees | summarizer.py:101-127 | with a sound engine, "no security requirements" in any case makes the field "None" and the checklist row "no" |
| Summarizer.InsuranceWaiverAgrees | summarizer.py:93-128 | with a sound engine, "insurance - no specific requirement" in any case makes the field "No specific requirement" and the checklist row "no specific requirement" |

## Left out

- `_extract_text` (summarizer.py:19-41) calls the pdfplumber and PyPDF2 libraries. Their code is not part of this model. The extracted text is the input of `Summarizer.SummarizeText`, and the page count it also returns is unused by `summarize_pdf`.
- The regular-expression engine is a parameter. The model does not define the exact language of any pattern. It does not define leftmost-match semantics or what `re.M` does to `^`. What `Sound` records about each pattern is all the model knows of it.
- Case-insensitive matching and `str.lower` are modelled for ASCII and Latin-1 capitals only. Other Unicode case mappings are not modelled.
- The date and time patterns (summarizer.py:69-70) use `\d`, which in Python 3 matches any Unicode decimal digit. The model's tables list only the ASCII digits for them, so `Sound` approximates `re` there.
- The `CSS` constant (summarizer.py:4-17) is the `css` parameter of `Render.BuildHtml`, an opaque string. The time stamp from the clock (summarizer.py:156) is the `stamp` parameter.
- `_esc(s or "")` guards against `None`. Model strings are never `None`, so that case does not arise.
- The bullet list and checklist list items (summarizer.py:142-143) are rendered by functions that escape each entry. No lemma states their layout beyond that.
- Fields.InsuranceSignals: the bare word "insurance" is not shown to force "Insurance requirements apply". The word pattern has word boundaries, so the word inside a longer word does not match.
- Checklist.InsuranceSignals: for the same reason, only one direction is stated for the bare word.
- Checklist.FrenchSignals: "français" alone is not shown to force "yes". The word pattern has word boundaries.
- The two insurance waivers differ, as the code has it. The parser accepts a hyphen or an en dash with any spacing (summarizer.py:93). The checklist accepts only a hyphen (summarizer.py:128). `Summarizer.InsuranceWaiverAgrees` covers the spelling both accept.
- The web layer is not part of this model: `app.py`, `server.py`, `summarizer_entry.py`, `ai_routes.py` and `proxy.mjs` are HTTP routing and proxying.

## Findings

| source | as written | input that shows it | evidently intended | confidence | as-written member | corrected member |
|---|---|---|---|---|---|---|
| summarizer.py:63-65 | the contact-block patterns have no capture group, so `_find` returns "" for them and the contact email is always searched in the whole text | "Questions: help@other.ca\nAddress Enquiries to: buyer@nrcan.gc.ca" yields help@other.ca | the email searched inside the "Address Enquiries to" / "Contracting Authority" window, giving buyer@nrcan.gc.ca | high, not executed | Fields.ContactScopingCounterexample | Fields.ContactEmailScope |
| summarizer.py:71-73 | the closing-line pattern has no capture group, so `_find` returns "" and the closing date and time are searched in the whole text | "Issued 1 July 2025\nSolicitation Closes on 25 August 2025" yields 1 July 2025 | date and time searched inside the "Solicitation Closes" line, giving 25 August 2025 | high, not executed | Fields.ClosingScopingCounterexample | Fields.ClosingScope |
| summarizer.py:130 | the alternative `French` is searched in the lower-cased text, so it never matches and "French" alone answers the dash | "French" | "french" matched in the lower-cased text, answering "yes" | high, not executed | Checklist.FrenchCounterexample | Checklist.FrenchSignals |
