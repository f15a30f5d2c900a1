/** The executive-summary extractor (`_exec_summary`): up to eight bullet lines taken from
    the summary section of the notice, or from its opening, or a fixed sentinel. */
module Summary {
  import opened Text
  import opened Regex

  /** The single bullet returned when no line qualifies. */
  const SENTINEL := "High-level summary not confidently extracted \U{2014} manual review recommended."

  /** At most this many bullets are kept. */
  const MAX_BULLETS := 8
  /** Bounds on the length of a kept bullet. */
  const MIN_LENGTH := 12
  const MAX_LENGTH := 180
  /** Without a summary section, the seed is this many leading characters of the text. */
  const SEED_PREFIX := 2500

  /** The characters stripped from both ends of a line: space, bullet, hyphen, tab. */
  predicate IsBulletChar(c: char) {
    c == ' ' || c == '\U{2022}' || c == '-' || c == '\t'
  }

  /** A line with its bullet decoration stripped (`ln.strip(" •-\t")`). */
  function Bullet(line: string): (s: string)
    ensures |s| <= |line|
  {
    Strip(line, IsBulletChar)
  }

  /** A stripped line of acceptable length. */
  predicate Accepted(s: string) {
    MIN_LENGTH <= |s| <= MAX_LENGTH
  }

  /** The text the bullets are read from: the first two summary blocks joined by a
      newline when there are any, else the first 2500 characters of the text. */
  function Seed(e: Engine, txt: string): string {
    var blocks := FindAll(e, SummaryHeading, txt);
    if blocks != [] then Join("\n", Prefix(blocks, 2)) else Prefix(txt, SEED_PREFIX)
  }

  /** The stripped lines of `lines` that are accepted, in their original order. */
  function Kept(lines: seq<string>): (kept: seq<string>)
    ensures |kept| <= |lines|
    ensures forall i :: 0 <= i < |kept| ==> Accepted(kept[i])
  {
    if lines == [] then []
    else
      var s := Bullet(lines[|lines| - 1]);
      Kept(lines[..|lines| - 1]) + if Accepted(s) then [s] else []
  }

  /** `_exec_summary(txt)` as a value: the first eight kept lines of the seed, or the
      sentinel alone when there are none. */
  function Points(e: Engine, txt: string): seq<string> {
    var bullets := Prefix(Kept(SplitLines(Seed(e, txt))), MAX_BULLETS);
    if bullets != [] then bullets else [SENTINEL]
  }

  /** Keeping distributes over concatenation: accepted lines keep their relative order,
      and those of an earlier part of the seed come before those of a later part. */
  lemma {:induction false} KeptAppend(a: seq<string>, b: seq<string>)
    ensures Kept(a + b) == Kept(a) + Kept(b)
    decreases |b|
  {
    if b != [] {
      var last := b[|b| - 1];
      var b' := b[..|b| - 1];
      assert (a + b)[..|a + b| - 1] == a + b';
      KeptAppend(a, b');
    } else {
      assert a + b == a;
    }
  }

  /** Every kept bullet is stripped: it neither starts nor ends with a space, bullet,
      hyphen or tab, and it is the stripped form of some line. */
  lemma {:induction false} KeptAreStripped(lines: seq<string>, i: nat)
    requires i < |Kept(lines)|
    ensures !IsBulletChar(Kept(lines)[i][0]) && !IsBulletChar(Kept(lines)[i][|Kept(lines)[i]| - 1])
    ensures exists j :: 0 <= j < |lines| && Kept(lines)[i] == Bullet(lines[j])
  {
    var init := lines[..|lines| - 1];
    var s := Bullet(lines[|lines| - 1]);
    assert Kept(lines) == Kept(init) + if Accepted(s) then [s] else [];
    if i < |Kept(init)| {
      KeptAreStripped(init, i);
      var j :| 0 <= j < |init| && Kept(init)[i] == Bullet(init[j]);
      assert Kept(lines)[i] == Kept(init)[i];
      assert lines[j] == init[j];
    } else {
      assert Kept(lines)[i] == s;
      StripEnds(lines[|lines| - 1], IsBulletChar);
    }
  }

  /** `_exec_summary` never returns an empty list and never more than eight bullets;
      either every bullet is a stripped line of acceptable length, in seed order, or the
      list is the sentinel alone, which it is whenever no line of the seed qualifies. */
  lemma PointsShape(e: Engine, txt: string)
    ensures 1 <= |Points(e, txt)| <= MAX_BULLETS
    ensures var kept := Kept(SplitLines(Seed(e, txt)));
      && (kept == [] ==> Points(e, txt) == [SENTINEL])
      && (kept != [] ==> Points(e, txt) == Prefix(kept, MAX_BULLETS))
    ensures forall i :: 0 <= i < |Points(e, txt)| ==> Accepted(Points(e, txt)[i])
  {
    assert Accepted(SENTINEL);
  }

  /** The seed: the first summary block, or the first two joined by a newline, when the
      heading pattern finds any; else the first 2500 characters of the text, or all of it
      when it is shorter. */
  lemma SeedChoice(e: Engine, txt: string)
    ensures var blocks := FindAll(e, SummaryHeading, txt);
      && (blocks == [] ==>
            Seed(e, txt) == txt[..|Seed(e, txt)|]
            && |Seed(e, txt)| == (if |txt| <= SEED_PREFIX then |txt| else SEED_PREFIX))
      && (|blocks| == 1 ==> Seed(e, txt) == blocks[0])
      && (|blocks| >= 2 ==> Seed(e, txt) == blocks[0] + "\n" + blocks[1])
  {
    var blocks := FindAll(e, SummaryHeading, txt);
    if |blocks| >= 2 {
      var two := Prefix(blocks, 2);
      assert two == [blocks[0], blocks[1]];
      assert two[1..] == [blocks[1]];
      assert Join("\n", two) == two[0] + "\n" + Join("\n", two[1..]);
    }
  }

  /** With a sound engine, summary blocks are found only in a text that names a summary,
      an introduction or a scope. */
  lemma SeedHeadingNamed(e: Engine, txt: string)
    requires Sound(e) && FindAll(e, SummaryHeading, txt) != []
    ensures ContainsIgnoringCase(txt, "summary") || ContainsIgnoringCase(txt, "introduction")
      || ContainsIgnoringCase(txt, "scope")
  {
    assert SoundAt(e, SummaryHeading, txt);
    MatchHasNecessaryLiteral(e, SummaryHeading, txt);
    var k :| 0 <= k < 3 && Occurs(SummaryHeading, txt, Necessary(SummaryHeading)[k]);
  }

  /** One more line of the scan: its stripped form is kept after the earlier ones exactly
      when it is accepted. */
  lemma KeptStep(lines: seq<string>, i: nat)
    requires i < |lines|
    ensures var s := Bullet(lines[i]);
      Kept(lines[..i + 1]) == Kept(lines[..i]) + if Accepted(s) then [s] else []
  {
    assert lines[..i + 1][..i] == lines[..i];
  }

  /** Once the scan has stopped, at the end of the lines or with eight kept, what it kept
      is the first eight kept lines of the whole seed. */
  lemma KeptUpToLimit(lines: seq<string>, i: nat)
    requires i <= |lines|
    requires i == |lines| || |Kept(lines[..i])| >= MAX_BULLETS
    requires |Kept(lines[..i])| <= MAX_BULLETS
    ensures Kept(lines[..i]) == Prefix(Kept(lines), MAX_BULLETS)
  {
    assert lines == lines[..i] + lines[i..];
    KeptAppend(lines[..i], lines[i..]);
  }

  /** `_exec_summary(txt)`: scans the seed's lines in order, keeps each stripped line of
      acceptable length, and stops once eight are kept; an empty result becomes the
      sentinel. */
  method ExecSummary(e: Engine, txt: string) returns (points: seq<string>)
    ensures points == Points(e, txt)
  {
    var blocks := FindAll(e, SummaryHeading, txt);
    var seed := if blocks != [] then Join("\n", Prefix(blocks, 2)) else Prefix(txt, SEED_PREFIX);
    var lns := SplitLines(seed);
    var lines: seq<string> := [];
    var i := 0;
    while i < |lns|
      invariant 0 <= i <= |lns|
      invariant lines == Kept(lns[..i])
      invariant |lines| < MAX_BULLETS
    {
      var s := Bullet(lns[i]);
      if Accepted(s) {
        lines := lines + [s];
      }
      KeptStep(lns, i);
      i := i + 1;
      if |lines| >= MAX_BULLETS {
        break;
      }
    }
    KeptUpToLimit(lns, i);
    assert seed == Seed(e, txt);
    points := if lines != [] then lines else [SENTINEL];
  }
}
