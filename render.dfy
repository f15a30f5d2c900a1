/** The HTML report (`_esc`, `_build_html`): every piece of extracted or user-supplied text
    is stripped and HTML-escaped before it is placed in a fixed page template. */
module Render {
  import opened Text
  import opened Fields

  /** The characters that `html.escape(s, quote=True)` replaces besides `&`: they could
      open or close a tag or an attribute value. */
  predicate IsMarkup(c: char) {
    c == '<' || c == '>' || c == '"' || c == '\''
  }

  /** The replacement of one character by `html.escape`. */
  function EscapeChar(c: char): (r: string)
    ensures r != []
    ensures c != '&' ==> r[0] == c || r[0] == '&'
    ensures forall i :: 0 <= i < |r| ==> !IsMarkup(r[i])
  {
    match c
    case '&' => "&amp;"
    case '<' => "&lt;"
    case '>' => "&gt;"
    case '"' => "&quot;"
    case '\'' => "&#x27;"
    case _ => [c]
  }

  /** `html.escape(s)`: every character replaced by its escape, in order; the result never
      holds a character that is markup. */
  function HtmlEscape(s: string): (r: string)
    ensures |r| >= |s|
    ensures forall i :: 0 <= i < |r| ==> !IsMarkup(r[i])
  {
    if s == [] then "" else EscapeChar(s[0]) + HtmlEscape(s[1..])
  }

  /** `s` begins with `p`. */
  predicate StartsWith(s: string, p: string) {
    |p| <= |s| && s[..|p|] == p
  }

  /** The reading of escaped text back: each of the five entities `html.escape` writes
      stands for its character, every other character for itself. */
  function HtmlUnescape(t: string): string
    decreases |t|
  {
    if t == [] then ""
    else if StartsWith(t, "&amp;") then "&" + HtmlUnescape(t[5..])
    else if StartsWith(t, "&lt;") then "<" + HtmlUnescape(t[4..])
    else if StartsWith(t, "&gt;") then ">" + HtmlUnescape(t[4..])
    else if StartsWith(t, "&quot;") then "\"" + HtmlUnescape(t[6..])
    else if StartsWith(t, "&#x27;") then "'" + HtmlUnescape(t[6..])
    else [t[0]] + HtmlUnescape(t[1..])
  }

  /** Reading back one escaped character, followed by any escaped text, gives the
      character followed by what that text reads back as. */
  lemma UnescapeStep(c: char, rest: string)
    ensures HtmlUnescape(EscapeChar(c) + rest) == [c] + HtmlUnescape(rest)
  {
    var t := EscapeChar(c) + rest;
    var n := |EscapeChar(c)|;
    assert t[..n] == EscapeChar(c) && t[n..] == rest;
    if c != '&' && !IsMarkup(c) {
      assert t[0] == c;
      assert !StartsWith(t, "&amp;") && !StartsWith(t, "&lt;") && !StartsWith(t, "&gt;")
        && !StartsWith(t, "&quot;") && !StartsWith(t, "&#x27;") by {
        if |t| >= 4 { assert t[..4][0] == c; }
        if |t| >= 5 { assert t[..5][0] == c; }
        if |t| >= 6 { assert t[..6][0] == c; }
      }
    } else if c == '&' {
      assert StartsWith(t, "&amp;");
    } else if c == '<' {
      assert !StartsWith(t, "&amp;") by { if |t| >= 5 { assert t[..5][1] == 'l'; } }
      assert StartsWith(t, "&lt;");
    } else if c == '>' {
      assert !StartsWith(t, "&amp;") by { if |t| >= 5 { assert t[..5][1] == 'g'; } }
      assert !StartsWith(t, "&lt;") by { assert t[..4][1] == 'g'; }
      assert StartsWith(t, "&gt;");
    } else if c == '"' {
      assert !StartsWith(t, "&amp;") by { assert t[..5][1] == 'q'; }
      assert !StartsWith(t, "&lt;") by { assert t[..4][1] == 'q'; }
      assert !StartsWith(t, "&gt;") by { assert t[..4][1] == 'q'; }
      assert StartsWith(t, "&quot;");
    } else {
      assert !StartsWith(t, "&amp;") by { assert t[..5][1] == '#'; }
      assert !StartsWith(t, "&lt;") by { assert t[..4][1] == '#'; }
      assert !StartsWith(t, "&gt;") by { assert t[..4][1] == '#'; }
      assert !StartsWith(t, "&quot;") by { assert t[..6][1] == '#'; }
      assert StartsWith(t, "&#x27;");
    }
  }

  /** Escaping loses nothing: reading the escaped text back gives the original. */
  lemma {:induction false} UnescapeEscape(s: string)
    ensures HtmlUnescape(HtmlEscape(s)) == s
    decreases |s|
  {
    if s != [] {
      UnescapeStep(s[0], HtmlEscape(s[1..]));
      UnescapeEscape(s[1..]);
      assert [s[0]] + s[1..] == s;
    }
  }

  /** `t` begins with one of the five entities `html.escape` writes. */
  predicate StartsEntity(t: string) {
    StartsWith(t, "&amp;") || StartsWith(t, "&lt;") || StartsWith(t, "&gt;")
    || StartsWith(t, "&quot;") || StartsWith(t, "&#x27;")
  }

  /** Escaped text holds no bare `&`: every `&` in it begins an entity. */
  lemma {:induction false} AmpersandsStartEntities(s: string)
    ensures forall i :: 0 <= i < |HtmlEscape(s)| && HtmlEscape(s)[i] == '&' ==> StartsEntity(HtmlEscape(s)[i..])
    decreases |s|
  {
    if s != [] {
      var head, tail := EscapeChar(s[0]), HtmlEscape(s[1..]);
      var r := HtmlEscape(s);
      assert r == head + tail;
      AmpersandsStartEntities(s[1..]);
      forall i | 0 <= i < |r| && r[i] == '&' ensures StartsEntity(r[i..]) {
        if i < |head| {
          assert i == 0 && s[0] in {'&', '<', '>', '"', '\''};
          assert r[..|head|] == head;
        } else {
          assert r[i..] == tail[i - |head|..];
        }
      }
    }
  }

  /** Escaping is one-to-one: two texts that escape alike are the same text. */
  lemma EscapeIsInjective(s1: string, s2: string)
    requires HtmlEscape(s1) == HtmlEscape(s2)
    ensures s1 == s2
  {
    UnescapeEscape(s1);
    UnescapeEscape(s2);
  }

  /** Text without `&` and markup characters is left as it is. */
  lemma {:induction false} EscapeKeepsPlainText(s: string)
    requires forall i :: 0 <= i < |s| ==> s[i] != '&' && !IsMarkup(s[i])
    ensures HtmlEscape(s) == s
    decreases |s|
  {
    if s != [] {
      EscapeKeepsPlainText(s[1..]);
      assert [s[0]] + s[1..] == s;
    }
  }

  /** `_esc(s)`: the text stripped of surrounding whitespace, then escaped. */
  function Esc(s: string): (r: string)
    ensures forall i :: 0 <= i < |r| ==> !IsMarkup(r[i])
  {
    HtmlEscape(StripSpace(s))
  }

  /** What `_esc` writes reads back as the stripped text. */
  lemma EscReadsBack(s: string)
    ensures HtmlUnescape(Esc(s)) == StripSpace(s)
  {
    UnescapeEscape(StripSpace(s));
  }

  /** The text of `s` before its first `c`, or all of `s`. */
  function UpTo(s: string, c: char): (r: string)
    ensures |r| <= |s| && r == s[..|r|]
  {
    if s == [] || s[0] == c then "" else [s[0]] + UpTo(s[1..], c)
  }

  /** Text without `c`, followed by `c`, is read up to exactly where it ends. */
  lemma {:induction false} UpToStopsAt(a: string, c: char, rest: string)
    requires forall i :: 0 <= i < |a| ==> a[i] != c
    ensures UpTo(a + [c] + rest, c) == a
    decreases |a|
  {
    if a != [] {
      assert (a + [c] + rest)[1..] == a[1..] + [c] + rest;
      UpToStopsAt(a[1..], c, rest);
    }
  }

  /** An escaped text placed before a tag ends exactly at that tag: reading the page up to
      the next `<` and unescaping gives back the stripped text, whatever follows. */
  lemma EscapedTextEndsAtTag(s: string, rest: string)
    ensures HtmlUnescape(UpTo(Esc(s) + "<" + rest, '<')) == StripSpace(s)
  {
    UpToStopsAt(Esc(s), '<', rest);
    EscReadsBack(s);
  }

  /** The placeholder shown when no field has a value. */
  const NOT_DETECTED := "<div>Info</div><div>Not detected</div>"

  /** One row of the key-fields grid. */
  function KvRow(k: Key, v: string): (row: string)
    ensures row != ""
  {
    "<div>" + Esc(Name(k)) + "</div><div>" + Esc(v) + "</div>"
  }

  /** The items that have a value (`if v`), in item order: each is an item of `items`
      with a non-empty value, and there is none exactly when every value is empty. */
  function Filled(items: seq<(Key, string)>): (kept: seq<(Key, string)>)
    ensures |kept| <= |items|
    ensures kept == [] <==> forall i :: 0 <= i < |items| ==> items[i].1 == ""
    ensures forall i :: 0 <= i < |kept| ==> kept[i] in items && kept[i].1 != ""
  {
    if items == [] then []
    else
      var rest := Filled(items[1..]);
      assert forall i :: 1 <= i < |items| ==> items[i] == items[1..][i - 1];
      (if items[0].1 != "" then [items[0]] else []) + rest
  }

  /** Every item that has a value is kept. */
  lemma {:induction false} FilledCoversValues(items: seq<(Key, string)>)
    ensures forall j :: 0 <= j < |items| && items[j].1 != "" ==> items[j] in Filled(items)
  {
    if items != [] {
      var tail := items[1..];
      FilledCoversValues(tail);
      var first: seq<(Key, string)> := if items[0].1 != "" then [items[0]] else [];
      assert Filled(items) == first + Filled(tail);
      forall j | 0 <= j < |items| && items[j].1 != "" ensures items[j] in Filled(items) {
        if j > 0 {
          assert tail[j - 1] == items[j];
        }
      }
    }
  }

  /** Filtering an item followed by more items: the item, when it has a value, then the
      filtered rest. */
  lemma FilledCons(x: (Key, string), rest: seq<(Key, string)>)
    ensures Filled([x] + rest) == (if x.1 != "" then [x] else []) + Filled(rest)
  {
    assert ([x] + rest)[1..] == rest;
  }

  /** Filtering distributes over concatenation, so the kept items stay in item order: those
      of an earlier part come before those of a later part. */
  lemma {:induction false} FilledAppend(a: seq<(Key, string)>, b: seq<(Key, string)>)
    ensures Filled(a + b) == Filled(a) + Filled(b)
  {
    if a != [] {
      var x, tail := a[0], a[1..];
      var first: seq<(Key, string)> := if x.1 != "" then [x] else [];
      assert a == [x] + tail;
      assert a + b == [x] + (tail + b);
      calc {
        Filled(a + b);
        { FilledCons(x, tail + b); }
        first + Filled(tail + b);
        { FilledAppend(tail, b); }
        first + (Filled(tail) + Filled(b));
        (first + Filled(tail)) + Filled(b);
        { FilledCons(x, tail); }
        Filled(a) + Filled(b);
      }
    } else {
      assert a + b == b;
    }
  }

  /** The rows of the key-fields grid, one per item that has a value, in item order. */
  function KvLines(items: seq<(Key, string)>): (lines: seq<string>)
    ensures lines == [] <==> forall i :: 0 <= i < |items| ==> items[i].1 == ""
    ensures forall i :: 0 <= i < |lines| ==> lines[i] != ""
  {
    var kept := Filled(items);
    seq(|kept|, i requires 0 <= i < |kept| => KvRow(kept[i].0, kept[i].1))
  }

  /** `kv_rows`: the rows joined by newlines. */
  function KvRows(fields: Dict): string
    requires Valid(fields)
  {
    Join("\n", KvLines(Items(fields)))
  }

  /** `kv_rows or '<div>Info</div><div>Not detected</div>'` */
  function KvSection(fields: Dict): string
    requires Valid(fields)
  {
    Or(KvRows(fields), NOT_DETECTED)
  }

  /** The key-fields card shows the placeholder when every field is empty, and otherwise
      the (non-empty) rows of the fields that have a value. */
  lemma KvSectionPlaceholder(fields: Dict)
    requires Valid(fields)
    ensures (forall k :: k in fields.values ==> fields.values[k] == "") ==> KvSection(fields) == NOT_DETECTED
    ensures (exists k :: k in fields.values && fields.values[k] != "") ==>
      KvRows(fields) != "" && KvSection(fields) == KvRows(fields)
  {
    var items := Items(fields);
    var lines := KvLines(items);
    JoinEmpty("\n", lines);
    if forall k :: k in fields.values ==> fields.values[k] == "" {
      assert forall i :: 0 <= i < |items| ==> items[i].1 == "";
    }
    if exists k :: k in fields.values && fields.values[k] != "" {
      var k :| k in fields.values && fields.values[k] != "";
      var i :| 0 <= i < |fields.order| && fields.order[i] == k;
      assert items[i].1 != "";
    }
  }

  /** One checklist line: the status as a badge, then the question. */
  function ChecklistRow(item: (string, string)): string {
    "<li><span class='badge'>" + Esc(item.1) + "</span> " + Esc(item.0) + "</li>"
  }

  /** `checklist_rows`: one line per checklist item, in order. */
  function ChecklistRows(checklist: seq<(string, string)>): string {
    Join("\n", seq(|checklist|, i requires 0 <= i < |checklist| => ChecklistRow(checklist[i])))
  }

  /** `bullets`: one list item per summary point, in order. */
  function Bullets(points: seq<string>): string {
    Join("\n", seq(|points|, i requires 0 <= i < |points| => "<li>" + Esc(points[i]) + "</li>"))
  }

  /** The preview shows at most this many leading characters of the text. */
  const PREVIEW_LIMIT := 16000

  /** The page up to the file name in its title. */
  const PAGE_HEAD := "<!doctype html>\n<html lang=\"en\"><head><meta charset=\"utf-8\">\n<title>Summary \U{2014} "

  /** The page after the file name in its title: the rest of the head, the style sheet,
      and the four cards and the footer of the body. */
  function PageRest(fields: Dict, summaryPts: seq<string>, checklist: seq<(string, string)>,
                    preview: string, css: string, stamp: string): string
    requires Valid(fields)
  {
    "<meta name=\"viewport\" content=\"width=device-width, initial-scale=1\">\n"
    + "<style>" + css + "</style></head>\n"
    + "<body>\n"
    + "<div class=\"grid\">\n"
    + "  <div class=\"card\"><div class=\"h1\">Executive Summary</div><ul>" + Bullets(summaryPts) + "</ul></div>\n"
    + "  <div class=\"card\"><div class=\"h1\">Key Fields</div><div class=\"kv\">" + KvSection(fields) + "</div></div>\n"
    + "  <div class=\"card\"><div class=\"h1\">Compliance Checklist</div><ul>" + ChecklistRows(checklist) + "</ul></div>\n"
    + "  <div class=\"card\"><div class=\"h1\">Preview (first pages)</div><pre>" + Esc(Prefix(preview, PREVIEW_LIMIT)) + "</pre></div>\n"
    + "</div>\n"
    + "<footer>Generated locally on " + stamp + "</footer>\n"
    + "</body></html>"
  }

  /** `_build_html(filename, fields, summary_pts, checklist, preview)`: the page template
      with the escaped file name, summary bullets, key-field rows (or the placeholder),
      checklist rows and text preview. The style sheet and the generation time stamp,
      which the source takes from its `CSS` constant and the clock, are parameters. */
  function BuildHtml(filename: string, fields: Dict, summaryPts: seq<string>,
                     checklist: seq<(string, string)>, preview: string, css: string,
                     stamp: string): string
    requires Valid(fields)
  {
    PAGE_HEAD + Esc(filename) + "</title>\n" + PageRest(fields, summaryPts, checklist, preview, css, stamp)
  }

  /** The title a reader of the page sees: the text after the fixed head, up to the next
      tag, with its entities read back. */
  function TitleOf(page: string): string {
    if StartsWith(page, PAGE_HEAD) then HtmlUnescape(UpTo(page[|PAGE_HEAD|..], '<')) else ""
  }

  /** A text made of a head and a body starts with the head, and the body follows it. */
  lemma HeadThenBody(head: string, body: string)
    ensures (head + body)[..|head|] == head && (head + body)[|head|..] == body
  {
  }

  /** A page that starts with the fixed head, an escaped name and the closing title tag
      has the stripped name as its title. */
  lemma TitleOfHeadedPage(s: string, rest: string)
    ensures TitleOf(PAGE_HEAD + Esc(s) + "</title>\n" + rest) == StripSpace(s)
  {
    var after := "/title>\n" + rest;
    var body := Esc(s) + "<" + after;
    assert PAGE_HEAD + Esc(s) + "</title>\n" + rest == PAGE_HEAD + body;
    HeadThenBody(PAGE_HEAD, body);
    EscapedTextEndsAtTag(s, after);
  }

  /** Whatever the file name holds, the page's title reads back as the stripped file name:
      a name with markup in it cannot end the title early or inject a tag. */
  lemma PageTitle(filename: string, fields: Dict, summaryPts: seq<string>,
                  checklist: seq<(string, string)>, preview: string, css: string, stamp: string)
    requires Valid(fields)
    ensures TitleOf(BuildHtml(filename, fields, summaryPts, checklist, preview, css, stamp)) == StripSpace(filename)
  {
    TitleOfHeadedPage(filename, PageRest(fields, summaryPts, checklist, preview, css, stamp));
  }
}
