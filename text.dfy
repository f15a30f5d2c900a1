/** String primitives with Python's `str` semantics, as the extractor uses them:
    `strip`, `lower`, `splitlines`, `join`, slicing and substring search.
    Strings are sequences of Unicode scalar values. */
module Text {

  /** `c` lies in one of the inclusive character ranges. */
  predicate InRanges(c: char, ranges: seq<(char, char)>) {
    ranges != [] && ((ranges[0].0 <= c <= ranges[0].1) || InRanges(c, ranges[1..]))
  }

  /** `str.isspace()`: the characters that `str.strip()` removes when it is called
      without an argument. */
  predicate IsSpace(c: char) {
    InRanges(c, [(' ', ' '), ('\t', '\r'), ('\U{1c}', '\U{1f}'), ('\U{85}', '\U{85}'), ('\U{a0}', '\U{a0}'),
      ('\U{1680}', '\U{1680}'), ('\U{2000}', '\U{200a}'), ('\U{2028}', '\U{2029}'), ('\U{202f}', '\U{202f}'),
      ('\U{205f}', '\U{205f}'), ('\U{3000}', '\U{3000}')])
  }

  /** A character outside every range is outside their union. */
  lemma {:induction false} OutsideRanges(c: char, ranges: seq<(char, char)>)
    requires forall i :: 0 <= i < |ranges| ==> !(ranges[i].0 <= c <= ranges[i].1)
    ensures !InRanges(c, ranges)
  {
    if ranges != [] {
      OutsideRanges(c, ranges[1..]);
    }
  }

  /** Printable ASCII characters other than the space are not white space. */
  lemma PrintableIsNotSpace(c: char)
    requires '!' <= c <= '~'
    ensures !IsSpace(c)
  {
    OutsideRanges(c, [(' ', ' '), ('\t', '\r'), ('\U{1c}', '\U{1f}'), ('\U{85}', '\U{85}'), ('\U{a0}', '\U{a0}'),
      ('\U{1680}', '\U{1680}'), ('\U{2000}', '\U{200a}'), ('\U{2028}', '\U{2029}'), ('\U{202f}', '\U{202f}'),
      ('\U{205f}', '\U{205f}'), ('\U{3000}', '\U{3000}')]);
  }

  /** The line boundaries at which `str.splitlines()` breaks (`\r\n` counts as one). */
  predicate IsLineBreak(c: char) {
    ('\n' <= c <= '\r') || ('\U{1c}' <= c <= '\U{1e}') || c == '\U{85}' || c == '\U{2028}' || c == '\U{2029}'
  }

  /** `n` occurs in `s` starting at index `i`. */
  predicate OccursAt(s: string, n: string, i: int) {
    0 <= i <= |s| - |n| && s[i..i + |n|] == n
  }

  /** `n` occurs in `s` as a contiguous substring (Python's `n in s`). */
  predicate Contains(s: string, n: string) {
    exists i | 0 <= i <= |s| - |n| :: OccursAt(s, n, i)
  }

  /** Python's `a or b` on strings: `a` unless it is empty. */
  function Or(a: string, b: string): (r: string)
    ensures r == "" <==> a == "" && b == ""
    ensures a != "" ==> r == a
  {
    if a != "" then a else b
  }

  /** `s[:n]`: at most the first `n` elements. */
  function Prefix<T>(s: seq<T>, n: nat): seq<T> {
    if |s| <= n then s else s[..n]
  }

  /** `s[:n]` is the part of `s` before `s[n:]`: `n` elements long, or all of `s` when `s`
      is no longer than `n`. */
  lemma PrefixAndRest<T>(s: seq<T>, n: nat)
    ensures |Prefix(s, n)| == if |s| <= n then |s| else n
    ensures Prefix(s, n) + s[|Prefix(s, n)|..] == s
    ensures |s| <= n ==> Prefix(s, n) == s
  {
    assert Prefix(s, n) == s[..|Prefix(s, n)|];
  }

  /** Index of the first character at or after `i` that is not in `drop`, or `|s|`. */
  function KeepFrom(s: string, drop: char -> bool, i: nat): (k: nat)
    requires i <= |s|
    ensures i <= k <= |s|
    decreases |s| - i
  {
    if i == |s| || !drop(s[i]) then i else KeepFrom(s, drop, i + 1)
  }

  /** `KeepFrom` skips exactly the run of dropped characters that starts at `i`. */
  lemma {:induction false} KeepFromSkipsRun(s: string, drop: char -> bool, i: nat)
    requires i <= |s|
    ensures forall j :: i <= j < KeepFrom(s, drop, i) ==> drop(s[j])
    ensures KeepFrom(s, drop, i) < |s| ==> !drop(s[KeepFrom(s, drop, i)])
    decreases |s| - i
  {
    if i < |s| && drop(s[i]) {
      KeepFromSkipsRun(s, drop, i + 1);
    }
  }

  /** One past the last character before `j` that is not in `drop`, or 0. */
  function KeepUpTo(s: string, drop: char -> bool, j: nat): (k: nat)
    requires j <= |s|
    ensures k <= j
  {
    if j == 0 || !drop(s[j - 1]) then j else KeepUpTo(s, drop, j - 1)
  }

  /** `KeepUpTo` skips exactly the run of dropped characters that ends just before `j`. */
  lemma {:induction false} KeepUpToSkipsRun(s: string, drop: char -> bool, j: nat)
    requires j <= |s|
    ensures forall i :: KeepUpTo(s, drop, j) <= i < j ==> drop(s[i])
    ensures KeepUpTo(s, drop, j) > 0 ==> !drop(s[KeepUpTo(s, drop, j) - 1])
  {
    if j > 0 && drop(s[j - 1]) {
      KeepUpToSkipsRun(s, drop, j - 1);
    }
  }

  /** `s.strip(chars)`: the longest inner part of `s` that neither starts nor ends with a
      character of `drop`; it is empty exactly when every character of `s` is in `drop`. */
  function Strip(s: string, drop: char -> bool): (r: string)
    ensures |r| <= |s|
  {
    var a := KeepFrom(s, drop, 0);
    var b := KeepUpTo(s, drop, |s|);
    if a < b then s[a..b] else []
  }

  /** What `strip` keeps neither starts nor ends with a dropped character, and it is empty
      exactly when every character is dropped. */
  lemma StripEnds(s: string, drop: char -> bool)
    ensures var r := Strip(s, drop);
      && (r != [] ==> !drop(r[0]) && !drop(r[|r| - 1]))
      && (r == [] <==> forall i :: 0 <= i < |s| ==> drop(s[i]))
  {
    KeepFromSkipsRun(s, drop, 0);
    KeepUpToSkipsRun(s, drop, |s|);
  }

  /** What `strip` keeps is a contiguous part of the original text. */
  lemma StripIsSubstring(s: string, drop: char -> bool)
    ensures Contains(s, Strip(s, drop))
  {
    var a := KeepFrom(s, drop, 0);
    if a < KeepUpTo(s, drop, |s|) {
      assert OccursAt(s, Strip(s, drop), a);
    } else {
      ContainsEmpty(s);
    }
  }

  /** `s.strip()` */
  function StripSpace(s: string): (r: string)
    ensures |r| <= |s|
  {
    Strip(s, IsSpace)
  }

  /** `strip` removes only a leading and a trailing run of dropped characters: what it
      keeps is a slice `s[a..b]` with every character before `a` and from `b` on dropped.
      With `StripEnds`, this determines the result. */
  lemma StripTrimsEnds(s: string, drop: char -> bool)
    ensures exists a, b :: (0 <= a <= b <= |s| && Strip(s, drop) == s[a..b]
      && (forall i :: 0 <= i < a ==> drop(s[i])) && (forall i :: b <= i < |s| ==> drop(s[i])))
  {
    var a := KeepFrom(s, drop, 0);
    var b := KeepUpTo(s, drop, |s|);
    KeepFromSkipsRun(s, drop, 0);
    KeepUpToSkipsRun(s, drop, |s|);
    if a < b {
      assert Strip(s, drop) == s[a..b];
    } else {
      StripEnds(s, drop);
      assert Strip(s, drop) == s[0..0];
    }
  }

  /** A text holding a character that is not white space does not strip to nothing. */
  lemma StripSpaceKeepsVisible(s: string, j: nat)
    requires j < |s| && !IsSpace(s[j])
    ensures StripSpace(s) != []
  {
    StripEnds(s, IsSpace);
  }

  /** A text that neither starts nor ends with white space is its own `strip()`. */
  lemma StripSpaceKeepsTrimmed(s: string)
    requires s != [] && !IsSpace(s[0]) && !IsSpace(s[|s| - 1])
    ensures StripSpace(s) == s
  {
    assert KeepFrom(s, IsSpace, 0) == 0;
    assert KeepUpTo(s, IsSpace, |s|) == |s|;
  }

  /** Lower-casing of one character: ASCII and Latin-1 capitals map to their small
      letters; every other character is unchanged. */
  function LowerChar(c: char): (d: char)
    ensures !('A' <= d <= 'Z')
  {
    if 'A' <= c <= 'Z' || ('\U{c0}' <= c <= '\U{de}' && c != '\U{d7}') then (c as int + 32) as char else c
  }

  /** A character that lower-cases like a printable ASCII character is printable ASCII. */
  lemma LowerCharKeepsPrintable(c: char, d: char)
    requires '!' <= d <= '~' && LowerChar(c) == LowerChar(d)
    ensures '!' <= c <= '~'
  {
  }

  /** `s.lower()`, character by character. */
  function Lower(s: string): string {
    seq(|s|, i requires 0 <= i < |s| => LowerChar(s[i]))
  }

  /** Lower-casing keeps the length, leaves no ASCII capital behind and is idempotent. */
  lemma LowerIsIdempotent(s: string)
    ensures |Lower(s)| == |s|
    ensures forall i :: 0 <= i < |s| ==> !('A' <= Lower(s)[i] <= 'Z')
    ensures Lower(Lower(s)) == Lower(s)
  {
    forall i | 0 <= i < |s| ensures Lower(Lower(s))[i] == Lower(s)[i] {
      var c := s[i];
      assert LowerChar(LowerChar(c)) == LowerChar(c);
    }
  }

  /** Text with neither ASCII nor Latin-1 capitals is its own lower-case form. */
  lemma LowerKeepsSmall(s: string)
    requires forall i :: 0 <= i < |s| ==> !('A' <= s[i] <= 'Z') && s[i] < '\U{c0}'
    ensures Lower(s) == s
  {
  }

  /** Case-insensitive search, as `re.I` does it for a literal. */
  predicate ContainsIgnoringCase(s: string, n: string) {
    Contains(Lower(s), Lower(n))
  }

  /** Every string contains the empty string. */
  lemma ContainsEmpty(s: string)
    ensures Contains(s, "")
  {
    assert OccursAt(s, "", 0);
  }

  /** Containment is transitive: a substring of a substring of `a` is a substring of `a`. */
  lemma ContainsTransitive(a: string, b: string, c: string)
    requires Contains(a, b) && Contains(b, c)
    ensures Contains(a, c)
  {
    var i: int :| OccursAt(a, b, i);
    var j: int :| OccursAt(b, c, j);
    assert OccursAt(a, b, i) && OccursAt(b, c, j);
    assert i + |b| <= |a| && a[i..i + |b|] == b;
    assert j + |c| <= |b| && b[j..j + |c|] == c;
    assert a[i + j..i + j + |c|] == c by {
      forall k | 0 <= k < |c| ensures a[i + j + k] == c[k] {
        assert c[k] == b[j + k] == a[i + j + k];
      }
    }
    assert OccursAt(a, c, i + j);
  }

  /** Lower-casing preserves containment. */
  lemma ContainsLower(s: string, n: string)
    requires Contains(s, n)
    ensures Contains(Lower(s), Lower(n))
  {
    var i: int :| OccursAt(s, n, i);
    assert OccursAt(s, n, i);
    assert Lower(s)[i..i + |n|] == Lower(n) by {
      forall k | 0 <= k < |n| ensures Lower(s)[i + k] == Lower(n)[k] {
        assert s[i + k] == n[k];
      }
    }
    assert OccursAt(Lower(s), Lower(n), i);
  }

  /** A text that contains `n` contains every character of `n`. */
  lemma ContainsCharOf(s: string, n: string, k: nat)
    requires Contains(s, n) && k < |n|
    ensures exists j :: 0 <= j < |s| && s[j] == n[k]
  {
    var i: int :| OccursAt(s, n, i);
    assert OccursAt(s, n, i);
    assert i + |n| <= |s| && s[i..i + |n|] == n;
    assert s[i + k] == n[k];
  }

  /** A lower-cased text never contains a string that has an ASCII capital in it. */
  lemma LowerHasNoCapitals(s: string, n: string, k: nat)
    requires k < |n| && 'A' <= n[k] <= 'Z'
    ensures !Contains(Lower(s), n)
  {
    if Contains(Lower(s), n) {
      ContainsCharOf(Lower(s), n, k);
    }
  }

  /** Index of the first line boundary at or after `i`, or `|s|` if there is none. */
  function LineEnd(s: string, i: nat): (k: nat)
    requires i <= |s|
    ensures i <= k <= |s|
    ensures forall j :: i <= j < k ==> !IsLineBreak(s[j])
    ensures k < |s| ==> IsLineBreak(s[k])
    decreases |s| - i
  {
    if i == |s| || IsLineBreak(s[i]) then i else LineEnd(s, i + 1)
  }

  /** No character of `line` is a line boundary. */
  predicate IsSingleLine(line: string) {
    forall j :: 0 <= j < |line| ==> !IsLineBreak(line[j])
  }

  /** The lines of `s` from index `i` on, without their boundaries (`\r\n` is one
      boundary); a final boundary does not start an extra empty line. */
  function LinesFrom(s: string, i: nat): (lines: seq<string>)
    requires i <= |s|
    ensures forall j :: 0 <= j < |lines| ==> IsSingleLine(lines[j])
    ensures lines == [] <==> i == |s|
    decreases |s| - i
  {
    if i == |s| then []
    else
      var k := LineEnd(s, i);
      if k == |s| then [s[i..]]
      else
        var next := if s[k] == '\r' && k + 1 < |s| && s[k + 1] == '\n' then k + 2 else k + 1;
        [s[i..k]] + LinesFrom(s, next)
  }

  /** `s.splitlines()`: the lines of `s` without their boundaries; the empty text has no
      lines. */
  function SplitLines(s: string): (lines: seq<string>)
    ensures forall i :: 0 <= i < |lines| ==> IsSingleLine(lines[i])
    ensures lines == [] <==> s == []
  {
    LinesFrom(s, 0)
  }

  /** `sep.join(parts)` */
  function Join(sep: string, parts: seq<string>): string {
    if parts == [] then ""
    else if |parts| == 1 then parts[0]
    else parts[0] + sep + Join(sep, parts[1..])
  }

  /** Joining at least one non-empty part yields a non-empty text, and joining nothing
      yields the empty text. */
  lemma {:induction false} JoinEmpty(sep: string, parts: seq<string>)
    requires forall i :: 0 <= i < |parts| ==> parts[i] != ""
    ensures Join(sep, parts) == "" <==> parts == []
  {
    if |parts| > 1 {
      assert |Join(sep, parts)| >= |parts[0]|;
    }
  }

  /** Joining a line in front of at least one more puts a separator between them. */
  lemma JoinCons(sep: string, line: string, lines: seq<string>)
    requires lines != []
    ensures Join(sep, [line] + lines) == line + sep + Join(sep, lines)
  {
    assert ([line] + lines)[1..] == lines;
  }

  /** Lines from `i` that are the line up to a `\n` at `k` followed by lines that join
      back to the text after `k` join back to the text from `i`. */
  lemma JoinAtNewline(s: string, i: nat, k: nat, lines: seq<string>, rest: seq<string>)
    requires i <= k < |s| && s[k] == '\n'
    requires lines == [s[i..k]] + rest && rest != [] && Join("\n", rest) == s[k + 1..]
    ensures Join("\n", lines) == s[i..]
  {
    JoinCons("\n", s[i..k], rest);
    assert s[i..] == s[i..k] + [s[k]] + s[k + 1..];
  }

  /** Lines that end at a `\n` are followed by the lines after it. */
  lemma LinesFromNewline(s: string, i: nat, k: nat)
    requires i < |s| && k == LineEnd(s, i) && k < |s| && s[k] == '\n'
    ensures LinesFrom(s, i) == [s[i..k]] + LinesFrom(s, k + 1)
  {
  }

  /** In a text whose only line boundary is `\n` and that does not end with one, joining
      the lines from index `i` on with `\n` gives the text from `i` on. */
  lemma {:induction false} JoinLinesFrom(s: string, i: nat)
    requires i <= |s|
    requires forall j :: 0 <= j < |s| ==> IsLineBreak(s[j]) ==> s[j] == '\n'
    requires s == [] || s[|s| - 1] != '\n'
    ensures Join("\n", LinesFrom(s, i)) == s[i..]
    decreases |s| - i
  {
    if i < |s| {
      var k := LineEnd(s, i);
      if k < |s| {
        assert s[k] == '\n' && k + 1 < |s|;
        LinesFromNewline(s, i, k);
        JoinLinesFrom(s, k + 1);
        JoinAtNewline(s, i, k, LinesFrom(s, i), LinesFrom(s, k + 1));
      }
    }
  }

  /** Splitting a text whose only line boundary is `\n` and that does not end with one,
      then joining the lines with `\n`, gives the text back. */
  lemma JoinSplitLines(s: string)
    requires forall i :: 0 <= i < |s| ==> IsLineBreak(s[i]) ==> s[i] == '\n'
    requires s == [] || s[|s| - 1] != '\n'
    ensures Join("\n", SplitLines(s)) == s
  {
    JoinLinesFrom(s, 0);
  }
}
