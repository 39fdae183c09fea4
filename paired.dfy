/**
 * What `send_hot_topics_digest.py` and `send_copywriting_digest.py` share: an entry pairs
 * a title with a 朋友圈 (WeChat Moments) text and a 小红书 (Xiaohongshu) text; the regex
 * heading `##\s*\d+` with its '.'; the filter on stripped groups; and the mail body, one
 * eight-line block per entry under a summary line.
 */
module Paired {
  import opened Common
  import opened Text
  import opened Rotation
  import opened Sender

  /** A `TopicEntry` / `CopywritingEntry`: the three stripped groups. */
  datatype Entry = Entry(title: string, pyq: string, xhs: string)

  /** One match of the pattern: its three groups as matched, before `strip`. */
  datatype Match = Match(title: string, pyq: string, xhs: string)

  /** A match and the line the search resumes at after it. */
  datatype Found = Found(m: Match, end: nat)

  const PYQ_MARK: string := "**朋友圈文案**"
  const XHS_MARK: string := "**小红书文案**"

  // ---------------------------------------------------------------------------
  // Lines

  /** A line the lookahead `(?=\n##)` stops in front of. */
  predicate HashLine(line: string) { StartsWith(line, "##") }

  /** A marker line followed only by whitespace, as `\*\*...\*\*\s*\n` needs. */
  predicate MarkerLine(line: string, mark: string) {
    StartsWith(line, mark) && IsBlank(line[|mark|..])
  }

  /**
   * Where the `title` group starts when `##\s*\d+\.?\s*` (with `dot`, `##\s*\d+\.\s*`) matches
   * at index `p`. The greedy match leaves a visible character on the line for `[^\n]+`; when
   * it leaves none, the engine backtracks: the last space of the second `\s*` is given back
   * first, else the optional '.', else the last of two or more digits. The mandatory '.'
   * of the `dot` pattern cannot be given back, nor can a digit before it.
   */
  function TitleStart(line: string, p: nat, dot: bool): (r: Option<nat>)
    requires p <= |line|
    ensures r.Some? ==> p + 3 <= r.value < |line| && OccursAt(line, "##", p)
  {
    if !OccursAt(line, "##", p) then None
    else
      var k := SkipSpace(line, p + 2);
      var d := DigitsFrom(line, k);
      if d == k then None
      else
        var hasDot := d < |line| && line[d] == '.';
        if dot && !hasDot then None
        else
          var a := if hasDot then d + 1 else d;
          var s := SkipSpace(line, a);
          if s < |line| then Some(s)
          else if a < s then Some(s - 1)
          else if hasDot && !dot then Some(d)
          else if !hasDot && k + 2 <= d then Some(d - 1)
          else None
  }

  /** "## 12" with nothing after it: `\d+` gives back its last digit, and the title is "2". */
  lemma BacktrackDigit()
    ensures HeadingTitle("## 12", false) == Some("2")
  {
    var line := "## 12";
    assert line[0..2] == "##";
    assert IsSpace(line[2]) by { assert line[2] == SpaceChar(0); }
    DigitNotSpace(line[3]);
    SkipSpaceRun(line, 2, 1);
    DigitsFromRun(line, 3, 2);
    assert TitleStart(line, 0, false) == Some(4);
    assert line[4..] == "2";
  }

  /** "## 1." with nothing after it: the optional '.' is given back, and the title is ".". */
  lemma BacktrackDot()
    ensures HeadingTitle("## 1.", false) == Some(".")
  {
    var line := "## 1.";
    assert line[0..2] == "##";
    assert IsSpace(line[2]) by { assert line[2] == SpaceChar(0); }
    DigitNotSpace(line[3]);
    SkipSpaceRun(line, 2, 1);
    DigitsFromRun(line, 3, 1);
    SkipSpaceRun(line, 5, 0);
    assert TitleStart(line, 0, false) == Some(4);
    assert line[4..] == ".";
  }

  /** "## 1. " under the `dot` pattern: the trailing space is given back and is the title. */
  lemma BacktrackSpace()
    ensures HeadingTitle("## 1. ", true) == Some(" ")
  {
    var line := "## 1. ";
    assert line[0..2] == "##";
    assert IsSpace(line[2]) by { assert line[2] == SpaceChar(0); }
    assert IsSpace(line[5]) by { assert line[5] == SpaceChar(0); }
    DigitNotSpace(line[3]);
    SkipSpaceRun(line, 2, 1);
    DigitsFromRun(line, 3, 1);
    SkipSpaceRun(line, 5, 1);
    assert TitleStart(line, 0, true) == Some(5);
    assert line[5..] == " ";
  }

  /** The `title` group of the first heading at or after index `p`: the rest of the line. */
  function TitleFrom(line: string, p: nat, dot: bool): (r: Option<string>)
    requires p <= |line|
    ensures r.Some? ==> r.value != [] && EndsWith(line, r.value)
    decreases |line| - p
  {
    match TitleStart(line, p, dot)
    case Some(s) => Some(line[s..])
    case None => if p < |line| then TitleFrom(line, p + 1, dot) else None
  }

  /** The `title` group of a heading in this line, as `finditer` meets it first. */
  function HeadingTitle(line: string, dot: bool): Option<string>
  {
    TitleFrom(line, 0, dot)
  }

  /** A heading with its number and '.' at the start of a line, then one space and the title. */
  function HeadingLine(n: nat, title: string): string
  {
    "## " + NatToString(n) + ". " + title
  }

  /** Such a line is a heading in both patterns, and its `title` group is the title. */
  lemma HeadingLineTitle(n: nat, title: string, dot: bool)
    requires title != [] && !IsSpace(title[0])
    ensures HeadingTitle(HeadingLine(n, title), dot) == Some(title)
    ensures HashLine(HeadingLine(n, title))
  {
    var ds := NatToString(n);
    var line := HeadingLine(n, title);
    var w := |ds|;
    assert line == "## " + ds + ". " + title;
    assert line[..2] == "##" && OccursAt(line, "##", 0);
    assert line[2] == ' ' && IsSpace(' ');
    assert line[3] == ds[0];
    DigitNotSpace(ds[0]);
    SkipSpaceRun(line, 2, 1);
    forall j | 3 <= j < 3 + w ensures IsDigit(line[j]) {
      assert line[j] == ds[j - 3];
    }
    assert line[3 + w] == '.';
    DigitsFromRun(line, 3, w);
    assert line[4 + w] == ' ';
    assert line[5 + w] == title[0];
    SkipSpaceRun(line, 4 + w, 1);
    assert TitleStart(line, 0, dot) == Some(5 + w);
    assert line[5 + w..] == title;
  }

  // ---------------------------------------------------------------------------
  // Keeping

  /** `if title and pyq and xhs`: a match gives an entry only when no stripped group is empty. */
  function Kept(m: Match): (r: seq<Entry>)
    ensures |r| <= 1
    ensures r != [] <==> Strip(m.title) != [] && Strip(m.pyq) != [] && Strip(m.xhs) != []
    ensures r != [] ==> r[0] == Entry(Strip(m.title), Strip(m.pyq), Strip(m.xhs))
  {
    var title := Strip(m.title);
    var pyq := Strip(m.pyq);
    var xhs := Strip(m.xhs);
    if title != [] && pyq != [] && xhs != [] then [Entry(title, pyq, xhs)] else []
  }

  /** The entries kept from the matches, in order. */
  function Keep(ms: seq<Match>): seq<Entry>
  {
    FlatMap(Kept, ms)
  }

  /** A clean entry: three nonempty, stripped texts. */
  predicate Clean(e: Entry) {
    e.title != [] && Trimmed(e.title) && e.pyq != [] && Trimmed(e.pyq) && e.xhs != [] && Trimmed(e.xhs)
  }

  /** Every kept entry is clean. */
  lemma {:induction false} KeepClean(ms: seq<Match>)
    ensures forall i :: 0 <= i < |Keep(ms)| ==> Clean(Keep(ms)[i])
    decreases |ms|
  {
    if ms != [] {
      assert Keep(ms) == Kept(ms[0]) + Keep(ms[1..]);
      KeepClean(ms[1..]);
    }
  }

  /** Keeping is match by match. */
  lemma KeepSnoc(ms: seq<Match>, i: nat)
    requires i < |ms|
    ensures Keep(ms[..i + 1]) == Keep(ms[..i]) + Kept(ms[i])
  {
    assert ms[..i + 1] == ms[..i] + [ms[i]];
    FlatMapAppend(Kept, ms[..i], [ms[i]]);
    assert [ms[i]][1..] == [];
    assert FlatMap(Kept, [ms[i]]) == Kept(ms[i]) + FlatMap(Kept, []);
  }

  /** The `finditer` loop: each match's stripped groups, skipped when one of them is empty. */
  method Collect(ms: seq<Match>) returns (entries: seq<Entry>)
    ensures entries == Keep(ms)
  {
    entries := [];
    for i := 0 to |ms|
      invariant entries == Keep(ms[..i])
    {
      var title := Strip(ms[i].title);
      var pyq := Strip(ms[i].pyq);
      var xhs := Strip(ms[i].xhs);
      KeepSnoc(ms, i);
      if title != [] && pyq != [] && xhs != [] {
        entries := entries + [Entry(title, pyq, xhs)];
      }
    }
    assert ms[..|ms|] == ms;
  }

  // ---------------------------------------------------------------------------
  // Documents laid out the way both patterns read them

  /** Eight lines: a heading, a blank line, the 朋友圈 marker and text, a blank line, the 小红书 marker and text, a blank line. */
  function Section(head: string, pyq: string, xhs: string): (r: seq<string>)
    ensures |r| == 8 && r[0] == head
  {
    [head, "", PYQ_MARK, pyq, "", XHS_MARK, xhs, ""]
  }

  /** Lines `x` to `x + 8` are such a section, and the next line, if any, starts with "##". */
  predicate Laid(ls: seq<string>, x: nat, head: string, pyq: string, xhs: string)
  {
    x + 8 <= |ls| && ls[x..x + 8] == Section(head, pyq, xhs) && (x + 8 < |ls| ==> HashLine(ls[x + 8]))
  }

  /** The lines of a laid-out section, one by one. */
  lemma LaidLines(ls: seq<string>, x: nat, head: string, pyq: string, xhs: string)
    requires Laid(ls, x, head, pyq, xhs)
    ensures ls[x] == head && ls[x + 1] == "" && ls[x + 2] == PYQ_MARK && ls[x + 3] == pyq
    ensures ls[x + 4] == "" && ls[x + 5] == XHS_MARK && ls[x + 6] == xhs && ls[x + 7] == ""
    ensures ls[x + 3..x + 5] == [pyq, ""] && ls[x + 6..x + 8] == [xhs, ""]
  {
    var w := ls[x..x + 8];
    assert ls[x] == w[0] && ls[x + 1] == w[1] && ls[x + 2] == w[2] && ls[x + 3] == w[3];
    assert ls[x + 4] == w[4] && ls[x + 5] == w[5] && ls[x + 6] == w[6] && ls[x + 7] == w[7];
  }

  lemma MarksVisible()
    ensures NotBlank(PYQ_MARK) && NotBlank(XHS_MARK) && !NotBlank("") && !HashLine("")
    ensures MarkerLine(PYQ_MARK, PYQ_MARK) && MarkerLine(XHS_MARK, XHS_MARK)
    ensures StartsWith(PYQ_MARK, PYQ_MARK) && StartsWith(XHS_MARK, XHS_MARK)
    ensures !StartsWith("", XHS_MARK) && !MarkerLine("", XHS_MARK)
  {
    VisibleNotSpace('*');
    assert PYQ_MARK[0] == '*' && XHS_MARK[0] == '*';
    assert PYQ_MARK[|PYQ_MARK|..] == [] && XHS_MARK[|XHS_MARK|..] == [];
  }

  lemma MarksOneLine()
    ensures NoLineBreak(PYQ_MARK) && NoLineBreak(XHS_MARK) && NoLineBreak("")
  {
  }

  /** The match a laid-out section gives. */
  function LaidMatch(title: string, pyq: string, xhs: string): Match
  {
    Match(title, Unlines([pyq, ""]), Unlines([xhs, ""]))
  }

  /** It keeps the entry of the stripped title and texts. */
  lemma LaidKept(title: string, pyq: string, xhs: string)
    requires NotBlank(title) && NotBlank(pyq) && NotBlank(xhs)
    ensures Kept(LaidMatch(title, pyq, xhs)) == [Entry(Strip(title), Strip(pyq), Strip(xhs))]
  {
    LineStrip(pyq);
    LineStrip(xhs);
    StripEmptyIffBlank(title);
    StripEmptyIffBlank(pyq);
    StripEmptyIffBlank(xhs);
  }

  /** Section `i` of a document. */
  function ShapeOf(heads: seq<string>, pyqs: seq<string>, xhss: seq<string>): nat -> seq<string>
  {
    (i: nat) => if i < |heads| && i < |pyqs| && i < |xhss| then Section(heads[i], pyqs[i], xhss[i]) else []
  }

  /** The headings carry the titles and start lines with "##"; no title or text is blank. */
  predicate Spelled(heads: seq<string>, titles: seq<string>, pyqs: seq<string>, xhss: seq<string>, dot: bool)
  {
    |heads| == |titles| == |pyqs| == |xhss|
    && forall i :: 0 <= i < |heads| ==>
         HeadingTitle(heads[i], dot) == Some(titles[i]) && HashLine(heads[i])
         && NotBlank(titles[i]) && NotBlank(pyqs[i]) && NotBlank(xhss[i])
  }

  /** The entries such a document holds. */
  function SpelledEntries(titles: seq<string>, pyqs: seq<string>, xhss: seq<string>): (es: seq<Entry>)
    requires |titles| == |pyqs| == |xhss|
    ensures |es| == |titles|
  {
    seq(|titles|, i requires 0 <= i < |titles| => Entry(Strip(titles[i]), Strip(pyqs[i]), Strip(xhss[i])))
  }

  /** Section `i` of a header and spelled sections is laid out at line `|hd| + 8 i`. */
  lemma SectionLaid(hd: seq<string>, heads: seq<string>, pyqs: seq<string>, xhss: seq<string>, i: nat)
    requires |heads| == |pyqs| == |xhss| && i < |heads|
    requires i + 1 < |heads| ==> HashLine(heads[i + 1])
    ensures var ls := hd + Blocks(ShapeOf(heads, pyqs, xhss), |heads|);
      |ls| == |hd| + 8 * |heads| && Laid(ls, |hd| + 8 * i, heads[i], pyqs[i], xhss[i])
  {
    var f := ShapeOf(heads, pyqs, xhss);
    forall j | 0 <= j < |heads| ensures |f(j)| == 8 && f(j)[0] == heads[j] {
      assert f(j) == Section(heads[j], pyqs[j], xhss[j]);
    }
    BlockAfter(hd, f, |heads|, 8, i);
    var ls := hd + Blocks(f, |heads|);
    var x := |hd| + 8 * i;
    assert ls[x..x + 8] == Section(heads[i], pyqs[i], xhss[i]);
    if x + 8 < |ls| {
      assert ls[x + 8] == heads[i + 1];
    }
  }

  /** From line `base` on, the lines are the sections of `heads`, `pyqs` and `xhss`, laid out one after another. */
  predicate LaidFrom(ls: seq<string>, base: nat, heads: seq<string>, pyqs: seq<string>, xhss: seq<string>)
  {
    |heads| == |pyqs| == |xhss| && |ls| == base + 8 * |heads|
    && forall i :: 0 <= i < |heads| ==> Laid(ls, base + 8 * i, heads[i], pyqs[i], xhss[i])
  }

  /** A header and the sections of spelled texts are laid out that way. */
  lemma DocLaid(hd: seq<string>, heads: seq<string>, pyqs: seq<string>, xhss: seq<string>)
    requires |heads| == |pyqs| == |xhss|
    requires forall i :: 0 <= i < |heads| ==> HashLine(heads[i])
    ensures LaidFrom(hd + Blocks(ShapeOf(heads, pyqs, xhss), |heads|), |hd|, heads, pyqs, xhss)
  {
    DocLength(hd, heads, pyqs, xhss);
    forall i | 0 <= i < |heads|
      ensures Laid(hd + Blocks(ShapeOf(heads, pyqs, xhss), |heads|), |hd| + 8 * i, heads[i], pyqs[i], xhss[i])
    {
      SectionLaid(hd, heads, pyqs, xhss, i);
    }
  }

  /** Every line of a spelled document is a line: no text holds a line break. */
  lemma SpelledLines(hd: seq<string>, heads: seq<string>, pyqs: seq<string>, xhss: seq<string>)
    requires AllLines(hd) && AllLines(heads) && AllLines(pyqs) && AllLines(xhss)
    requires |heads| == |pyqs| == |xhss|
    ensures AllLines(hd + Blocks(ShapeOf(heads, pyqs, xhss), |heads|))
  {
    var f := ShapeOf(heads, pyqs, xhss);
    forall i | 0 <= i < |heads| ensures AllLines(f(i)) {
      assert f(i) == Section(heads[i], pyqs[i], xhss[i]);
      SectionOneLine(heads[i], pyqs[i], xhss[i]);
    }
    BlocksAllLines(f, |heads|);
    AllLinesAppend(hd, Blocks(f, |heads|));
  }

  lemma SectionOneLine(head: string, pyq: string, xhs: string)
    requires NoLineBreak(head) && NoLineBreak(pyq) && NoLineBreak(xhs)
    ensures AllLines(Section(head, pyq, xhs))
  {
    MarksOneLine();
    var w := Section(head, pyq, xhs);
    assert w[0] == head && w[3] == pyq && w[6] == xhs;
    assert w[1] == "" && w[4] == "" && w[7] == "" && w[2] == PYQ_MARK && w[5] == XHS_MARK;
  }

  /** A spelled document has eight lines per section after its header. */
  lemma DocLength(hd: seq<string>, heads: seq<string>, pyqs: seq<string>, xhss: seq<string>)
    requires |heads| == |pyqs| == |xhss|
    ensures |hd + Blocks(ShapeOf(heads, pyqs, xhss), |heads|)| == |hd| + 8 * |heads|
  {
    var f := ShapeOf(heads, pyqs, xhss);
    forall j | 0 <= j < |heads| ensures |f(j)| == 8 {
      assert f(j) == Section(heads[j], pyqs[j], xhss[j]);
    }
    BlocksLength(f, |heads|, 8);
  }

  /** Keeping the matches of a section and of the rest. */
  lemma KeepCons(m: Match, ms: seq<Match>)
    ensures Keep([m] + ms) == Kept(m) + Keep(ms)
  {
    assert ([m] + ms)[0] == m;
    assert ([m] + ms)[1..] == ms;
  }

  /** Putting one step of a read-back together: a match keeping entry `i`, then the rest keeping the entries after it. */
  lemma KeepStep(s: seq<Match>, m: Match, rest: seq<Match>, es: seq<Entry>, i: nat)
    requires i < |es| && s == [m] + rest && Kept(m) == [es[i]] && Keep(rest) == es[i + 1..]
    ensures Keep(s) == es[i..]
  {
    KeepCons(m, rest);
    assert es[i..] == [es[i]] + es[i + 1..];
  }

  /** Entries whose texts hold no line break. */
  predicate SingleLine(e: Entry) {
    NoLineBreak(e.title) && NoLineBreak(e.pyq) && NoLineBreak(e.xhs)
  }

  /** Heading `i` of the document that lists `es`: number `i + 1`, then the title. */
  function Heads(es: seq<Entry>): (r: seq<string>)
    ensures |r| == |es|
  {
    seq(|es|, i requires 0 <= i < |es| => HeadingLine(i + 1, es[i].title))
  }

  function Pyqs(es: seq<Entry>): (r: seq<string>)
    ensures |r| == |es|
  {
    seq(|es|, i requires 0 <= i < |es| => es[i].pyq)
  }

  function Xhss(es: seq<Entry>): (r: seq<string>)
    ensures |r| == |es|
  {
    seq(|es|, i requires 0 <= i < |es| => es[i].xhs)
  }

  /** A Markdown file listing `es` after the header lines `hd`, one numbered section each. */
  function Markdown(hd: seq<string>, es: seq<Entry>): string
  {
    Unlines(hd + Blocks(ShapeOf(Heads(es), Pyqs(es), Xhss(es)), |es|))
  }

  /** Clean entries spell their own document, under both heading patterns. */
  lemma MarkdownSpelled(es: seq<Entry>, dot: bool)
    requires forall i :: 0 <= i < |es| ==> Clean(es[i])
    ensures Spelled(Heads(es), Titles(es), Pyqs(es), Xhss(es), dot)
    ensures SpelledEntries(Titles(es), Pyqs(es), Xhss(es)) == es
  {
    forall i | 0 <= i < |es|
      ensures HeadingTitle(Heads(es)[i], dot) == Some(Titles(es)[i]) && HashLine(Heads(es)[i])
      ensures NotBlank(Titles(es)[i]) && NotBlank(Pyqs(es)[i]) && NotBlank(Xhss(es)[i])
    {
      EntrySpelled(es, i, dot);
    }
    SpelledBack(es);
  }

  /** Stripping the texts of clean entries gives the entries back. */
  lemma SpelledBack(es: seq<Entry>)
    requires forall i :: 0 <= i < |es| ==> Clean(es[i])
    ensures SpelledEntries(Titles(es), Pyqs(es), Xhss(es)) == es
  {
    var r := SpelledEntries(Titles(es), Pyqs(es), Xhss(es));
    forall i | 0 <= i < |es| ensures r[i] == es[i] {
      var e := es[i];
      assert r[i] == Entry(Strip(Titles(es)[i]), Strip(Pyqs(es)[i]), Strip(Xhss(es)[i]));
      assert Titles(es)[i] == e.title && Pyqs(es)[i] == e.pyq && Xhss(es)[i] == e.xhs;
      StripOfTrimmed(e.title);
      StripOfTrimmed(e.pyq);
      StripOfTrimmed(e.xhs);
    }
  }

  /** Entry `i` of a clean list: its heading line and texts. */
  lemma EntrySpelled(es: seq<Entry>, i: nat, dot: bool)
    requires i < |es| && Clean(es[i])
    ensures HeadingTitle(Heads(es)[i], dot) == Some(Titles(es)[i]) && HashLine(Heads(es)[i])
    ensures NotBlank(Titles(es)[i]) && NotBlank(Pyqs(es)[i]) && NotBlank(Xhss(es)[i])
  {
    var e := es[i];
    assert Heads(es)[i] == HeadingLine(i + 1, e.title);
    HeadingLineTitle(i + 1, e.title, dot);
    assert !IsSpace(e.title[0]) && !IsSpace(e.pyq[0]) && !IsSpace(e.xhs[0]);
  }

  /** A heading line holds a line break only where its title does. */
  lemma HeadingLineOneLine(n: nat, title: string)
    requires NoLineBreak(title)
    ensures NoLineBreak(HeadingLine(n, title))
  {
    var ds := NatToString(n);
    assert forall c :: c in ds ==> IsDigit(c);
    assert HeadingLine(n, title) == "## " + ds + ". " + title;
  }

  /** Single-line entries give single-line headings and texts. */
  lemma EntriesOneLine(es: seq<Entry>)
    requires forall i :: 0 <= i < |es| ==> SingleLine(es[i])
    ensures AllLines(Heads(es)) && AllLines(Pyqs(es)) && AllLines(Xhss(es))
  {
    var hs := Heads(es);
    forall i | 0 <= i < |es| ensures NoLineBreak(hs[i]) {
      HeadingLineOneLine(i + 1, es[i].title);
    }
  }

  /** The lines of the document are its header and sections. */
  lemma MarkdownLines(hd: seq<string>, es: seq<Entry>)
    requires AllLines(hd) && es != []
    requires forall i :: 0 <= i < |es| ==> SingleLine(es[i])
    ensures Lines(Markdown(hd, es)) == hd + Blocks(ShapeOf(Heads(es), Pyqs(es), Xhss(es)), |es|)
  {
    var hs, ps, xs := Heads(es), Pyqs(es), Xhss(es);
    var ls := hd + Blocks(ShapeOf(hs, ps, xs), |es|);
    EntriesOneLine(es);
    SpelledLines(hd, hs, ps, xs);
    DocLength(hd, hs, ps, xs);
    LinesOfUnlines(ls);
  }

  // ---------------------------------------------------------------------------
  // The mail

  /** `## title`, a blank line, `【朋友圈】` and the text, a blank line, `【小红书】` and the text, a blank line. */
  function BodyBlock(e: Entry): seq<string>
  {
    ["## " + e.title, "", "【朋友圈】", e.pyq, "", "【小红书】", e.xhs, ""]
  }

  function BodyOf(batch: seq<Entry>): nat -> seq<string>
  {
    (i: nat) => if i < |batch| then BodyBlock(batch[i]) else []
  }

  /** The body lines: the summary line, a blank line, one block per entry. */
  function BodyLines(header: string, batch: seq<Entry>): seq<string>
  {
    [header, ""] + Blocks(BodyOf(batch), |batch|)
  }

  function Titles(batch: seq<Entry>): (r: seq<string>)
    ensures |r| == |batch| && forall i :: 0 <= i < |batch| ==> r[i] == batch[i].title
  {
    seq(|batch|, i requires 0 <= i < |batch| => batch[i].title)
  }

  /** The body loop of `build_message` under a given summary line. */
  method RenderBody(header: string, batch: seq<Entry>) returns (body: string)
    ensures body == Finish(BodyLines(header, batch))
  {
    var blocks: seq<string> := [];
    for idx := 0 to |batch|
      invariant blocks == Blocks(BodyOf(batch), idx)
    {
      var entry := batch[idx];
      assert BodyOf(batch)(idx) == BodyBlock(entry);
      assert Blocks(BodyOf(batch), idx + 1) == blocks + BodyBlock(entry);
      blocks := blocks + ["## " + entry.title, "", "【朋友圈】", entry.pyq, "", "【小红书】", entry.xhs, ""];
    }
    var lines := [header, ""] + blocks;
    body := Strip(Unlines(lines)) + "\n";
  }

  lemma BodySizes(batch: seq<Entry>)
    ensures forall i :: 0 <= i < |batch| ==> |BodyOf(batch)(i)| == 8
  {
  }

  /** Two lines, then eight per entry. */
  lemma BodyLength(header: string, batch: seq<Entry>)
    ensures |BodyLines(header, batch)| == 2 + 8 * |batch|
  {
    BodySizes(batch);
    BlocksLength(BodyOf(batch), |batch|, 8);
  }

  /** Entry `j` fills lines `2 + 8j` to `10 + 8j`. */
  lemma BodyAt(header: string, batch: seq<Entry>, j: nat)
    requires j < |batch|
    ensures var ls := BodyLines(header, batch);
      |ls| == 2 + 8 * |batch| && ls[2 + 8 * j..10 + 8 * j] == BodyBlock(batch[j])
  {
    BodySizes(batch);
    BodyLength(header, batch);
    BlocksAt(BodyOf(batch), |batch|, 8, j);
    var b := Blocks(BodyOf(batch), |batch|);
    assert BodyLines(header, batch)[2 + 8 * j..10 + 8 * j] == b[8 * j..8 * j + 8];
  }

  /**
   * A body under a visible summary line ends in exactly one '\n'; when the last
   * entry's 小红书 text is nonempty and stripped it is the plain join of the lines.
   */
  lemma BodyEnds(header: string, batch: seq<Entry>)
    requires header != [] && !IsSpace(header[0])
    ensures EndsWithOneNewline(Finish(BodyLines(header, batch)))
    ensures batch != [] && batch[|batch| - 1].xhs != [] && Trimmed(batch[|batch| - 1].xhs) ==>
      Finish(BodyLines(header, batch)) == Unlines(BodyLines(header, batch))
  {
    var ls := BodyLines(header, batch);
    assert ls[0] == header;
    FirstOfJoin(ls);
    assert Unlines(ls)[0] == header[0];
    StripEmptyIffBlank(Unlines(ls));
    FinishEnds(ls);
    var n := |batch|;
    if n > 0 && batch[n - 1].xhs != [] && Trimmed(batch[n - 1].xhs) {
      BodyEndsClean(header, batch);
    }
  }

  lemma BodyEndsClean(header: string, batch: seq<Entry>)
    requires header != [] && !IsSpace(header[0])
    requires batch != [] && batch[|batch| - 1].xhs != [] && Trimmed(batch[|batch| - 1].xhs)
    ensures Finish(BodyLines(header, batch)) == Unlines(BodyLines(header, batch))
  {
    var n := |batch|;
    var f := BodyOf(batch);
    assert f(n - 1) == BodyBlock(batch[n - 1]);
    BlocksEndClean(f, n);
    EndsCleanAppend([header, ""], Blocks(f, n));
    FinishClean(BodyLines(header, batch));
  }

  /** A clean batch's mail shows each entry's title and both texts, in batch order. */
  lemma BodyShows(header: string, batch: seq<Entry>)
    ensures var ls := BodyLines(header, batch);
      |ls| == 2 + 8 * |batch| && ls[0] == header
      && forall j :: 0 <= j < |batch| ==>
           ls[2 + 8 * j] == "## " + batch[j].title && ls[5 + 8 * j] == batch[j].pyq && ls[8 + 8 * j] == batch[j].xhs
  {
    var ls := BodyLines(header, batch);
    BodyLength(header, batch);
    forall j | 0 <= j < |batch|
      ensures ls[2 + 8 * j] == "## " + batch[j].title && ls[5 + 8 * j] == batch[j].pyq && ls[8 + 8 * j] == batch[j].xhs
    {
      BodyAt(header, batch, j);
      var w := ls[2 + 8 * j..10 + 8 * j];
      assert ls[2 + 8 * j] == w[0] && ls[5 + 8 * j] == w[3] && ls[8 + 8 * j] == w[6];
    }
  }
}
