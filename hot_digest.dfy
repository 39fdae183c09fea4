/**
 * `send_hot_topics_digest.py`: the topic file's numbered `##` sections, each with a
 * `**朋友圈文案**` and a `**小红书文案**` part, sent a few at a time in rotation.
 *
 * The pattern `##\s*\d+\.?\s*(?P<title>[^\n]+)\s*\n+` `\*\*朋友圈文案\*\*.*?\n(?P<pyq>.*?)`
 * `(?=\n\*\*小红书文案\*\*)` `\n\*\*小红书文案\*\*.*?\n(?P<xhs>.*?)(?=\n##|\Z)` is read over
 * the lines of the file: see `SectionAt`.
 */
module HotDigest {
  import opened Common
  import opened Text
  import opened Rotation
  import opened Sender
  import opened Paired

  /** A line the lookahead `(?=\n\*\*小红书文案\*\*)` stops in front of. */
  predicate XhsStart(line: string) { StartsWith(line, XHS_MARK) }

  /**
   * The match whose heading is on line `h`, if one is:
   * - the heading's `title` group is the rest of its line;
   * - the first line after it that is not blank starts with the 朋友圈 marker, and a
   *   line follows it: `pyq` starts on that next line;
   * - `pyq` ends before the first line, from the second after the marker on, that
   *   starts with the 小红书 marker; a line must follow that one, and `xhs` starts there;
   * - `xhs` ends before the first line, from the second after the 小红书 marker on,
   *   that starts with "##", or at the end of the file; the search goes on there.
   */
  function SectionAt(ls: seq<string>, h: nat): (r: Option<Found>)
    requires h < |ls|
    ensures r.Some? ==> h < r.value.end <= |ls|
  {
    match HeadingTitle(ls[h], false)
    case None => None
    case Some(title) =>
      var j := FirstFrom(ls, h + 1, NotBlank);
      if j + 1 < |ls| && StartsWith(ls[j], PYQ_MARK) then
        var k := FirstFrom(ls, j + 2, XhsStart);
        if k + 1 < |ls| then
          var m := FirstFrom(ls, k + 2, HashLine);
          Some(Found(Match(title, Unlines(ls[j + 1..k]), Unlines(ls[k + 1..m])), m))
        else None
      else None
  }

  /** `finditer` from line `i` on: a match where one starts, else the next line. */
  function Scan(ls: seq<string>, i: nat): seq<Match>
    decreases |ls| - i
  {
    if i >= |ls| then []
    else match SectionAt(ls, i)
      case Some(f) => [f.m] + Scan(ls, f.end)
      case None => Scan(ls, i + 1)
  }

  /** The entries of a topic file. */
  function Parse(text: string): seq<Entry>
  {
    Keep(Scan(Lines(text), 0))
  }

  /** Every entry of a topic file is clean. */
  lemma ParseClean(text: string)
    ensures forall i :: 0 <= i < |Parse(text)| ==> Clean(Parse(text)[i])
  {
    KeepClean(Scan(Lines(text), 0));
  }

  /**
   * `parse_markdown`: a missing file is an error, and so is a file without entries;
   * otherwise the entries in file order, each clean.
   */
  method ParseMarkdown(source: Option<string>) returns (r: Result<seq<Entry>>)
    ensures source.None? ==> r == Err(SourceNotFound)
    ensures source.Some? && Parse(source.value) == [] ==> r == Err(EmptyResult)
    ensures source.Some? && Parse(source.value) != [] ==> r == Ok(Parse(source.value))
    ensures r.Ok? ==> forall i :: 0 <= i < |r.value| ==> Clean(r.value[i])
  {
    if source.None? {
      return Err(SourceNotFound);
    }
    var entries := Collect(Scan(Lines(source.value), 0));
    ParseClean(source.value);
    if entries == [] {
      return Err(EmptyResult);
    }
    r := Ok(entries);
  }

  // ---------------------------------------------------------------------------
  // Reading back a laid-out file

  /** A laid-out section is one match, and the search goes on right after it. */
  lemma LaidSection(ls: seq<string>, x: nat, head: string, title: string, pyq: string, xhs: string)
    requires Laid(ls, x, head, pyq, xhs) && HeadingTitle(head, false) == Some(title)
    ensures SectionAt(ls, x) == Some(Found(LaidMatch(title, pyq, xhs), x + 8))
  {
    LaidLines(ls, x, head, pyq, xhs);
    MarksVisible();
    FirstAt(ls, x + 1, NotBlank, x + 2);
    FirstAt(ls, x + 4, XhsStart, x + 5);
    FirstAt(ls, x + 7, HashLine, x + 8);
  }

  /** Section `i` of a spelled file is one match, which keeps entry `i`. */
  lemma SectionStep(ls: seq<string>, base: nat, heads: seq<string>, titles: seq<string>,
                    pyqs: seq<string>, xhss: seq<string>, i: nat)
    requires Spelled(heads, titles, pyqs, xhss, false) && LaidFrom(ls, base, heads, pyqs, xhss) && i < |heads|
    ensures var m := LaidMatch(titles[i], pyqs[i], xhss[i]);
      Scan(ls, base + 8 * i) == [m] + Scan(ls, base + 8 * (i + 1))
      && Kept(m) == [SpelledEntries(titles, pyqs, xhss)[i]]
  {
    var x := base + 8 * i;
    assert Laid(ls, x, heads[i], pyqs[i], xhss[i]);
    LaidSection(ls, x, heads[i], titles[i], pyqs[i], xhss[i]);
    assert x + 8 == base + 8 * (i + 1);
    LaidKept(titles[i], pyqs[i], xhss[i]);
  }

  /** From section `i` on, a spelled file reads back entry by entry. */
  lemma {:induction false} ScanSections(ls: seq<string>, base: nat, heads: seq<string>, titles: seq<string>,
                                        pyqs: seq<string>, xhss: seq<string>, i: nat)
    requires Spelled(heads, titles, pyqs, xhss, false) && LaidFrom(ls, base, heads, pyqs, xhss) && i <= |heads|
    ensures Keep(Scan(ls, base + 8 * i)) == SpelledEntries(titles, pyqs, xhss)[i..]
    decreases |heads| - i
  {
    var es := SpelledEntries(titles, pyqs, xhss);
    if i < |heads| {
      var m := LaidMatch(titles[i], pyqs[i], xhss[i]);
      var rest := Scan(ls, base + 8 * (i + 1));
      SectionStep(ls, base, heads, titles, pyqs, xhss, i);
      ScanSections(ls, base, heads, titles, pyqs, xhss, i + 1);
      KeepStep(Scan(ls, base + 8 * i), m, rest, es, i);
    } else {
      assert Scan(ls, base + 8 * i) == [];
    }
  }

  /** Lines without a heading are passed over. */
  lemma {:induction false} HeaderSkipped(ls: seq<string>, x: nat, n: nat)
    requires x <= n <= |ls|
    requires forall i :: x <= i < n ==> HeadingTitle(ls[i], false).None?
    ensures Scan(ls, x) == Scan(ls, n)
    decreases n - x
  {
    if x < n {
      assert SectionAt(ls, x) == None;
      assert Scan(ls, x) == Scan(ls, x + 1);
      HeaderSkipped(ls, x + 1, n);
    }
  }

  /**
   * A file whose lines are a header without headings and then spelled sections reads
   * back as their entries: section `i` gives the stripped title and texts `i`.
   */
  lemma ReadBack(text: string, hd: seq<string>, heads: seq<string>, titles: seq<string>,
                 pyqs: seq<string>, xhss: seq<string>)
    requires Spelled(heads, titles, pyqs, xhss, false)
    requires Lines(text) == hd + Blocks(ShapeOf(heads, pyqs, xhss), |heads|)
    requires forall i :: 0 <= i < |hd| ==> HeadingTitle(hd[i], false).None?
    ensures Parse(text) == SpelledEntries(titles, pyqs, xhss)
  {
    var ls := Lines(text);
    DocLaid(hd, heads, pyqs, xhss);
    forall i | 0 <= i < |hd| ensures HeadingTitle(ls[i], false).None? {
      assert ls[i] == hd[i];
    }
    ReadLaid(ls, |hd|, heads, titles, pyqs, xhss);
  }

  /** Lines without headings up to `base`, then laid-out spelled sections: their entries. */
  lemma ReadLaid(ls: seq<string>, base: nat, heads: seq<string>, titles: seq<string>, pyqs: seq<string>, xhss: seq<string>)
    requires Spelled(heads, titles, pyqs, xhss, false) && LaidFrom(ls, base, heads, pyqs, xhss)
    requires forall i :: 0 <= i < base ==> HeadingTitle(ls[i], false).None?
    ensures Keep(Scan(ls, 0)) == SpelledEntries(titles, pyqs, xhss)
  {
    HeaderSkipped(ls, 0, base);
    ScanSections(ls, base, heads, titles, pyqs, xhss, 0);
    assert base + 8 * 0 == base;
  }

  /** Clean one-line entries written out as a topic file are read back as they were. */
  lemma MarkdownRoundTrip(hd: seq<string>, es: seq<Entry>)
    requires es != [] && forall i :: 0 <= i < |es| ==> Clean(es[i]) && SingleLine(es[i])
    requires AllLines(hd) && forall i :: 0 <= i < |hd| ==> HeadingTitle(hd[i], false).None?
    ensures Parse(Markdown(hd, es)) == es
  {
    MarkdownSpelled(es, false);
    MarkdownLines(hd, es);
    ReadBack(Markdown(hd, es), hd, Heads(es), Titles(es), Pyqs(es), Xhss(es));
  }

  // ---------------------------------------------------------------------------
  // The mail

  /** `今日爆款选题（共 N 组）：`. */
  function Header(n: nat): string
  {
    "今日爆款选题（共 " + NatToString(n) + " 组）："
  }

  lemma HeaderVisible(n: nat)
    ensures Header(n) != [] && !IsSpace(Header(n)[0])
  {
    assert Header(n)[0] == '今';
    VisibleNotSpace('今');
  }

  /** `build_message`: the subject names the batch's titles; the body is the summary line and one block per entry. */
  method BuildMessage(batch: seq<Entry>, prefix: string) returns (subject: string, body: string)
    ensures subject == Subject(prefix, Titles(batch))
    ensures body == Finish(BodyLines(Header(|batch|), batch))
  {
    subject := Subject(prefix, Titles(batch));
    body := RenderBody(Header(|batch|), batch);
  }

  /**
   * `main` with the file contents and the outcome of the send given: the entries, the
   * batch at the stored cursor (0 when the state file is missing or unreadable), the
   * mail, and the state file written only after a send that returned.
   */
  method Run(source: Option<string>, state: Option<string>, count: int,
             prefixArg: Option<string>, configPrefix: string, delivery: Delivery)
    returns (r: Result<Outcome>)
    ensures source.None? ==> r == Err(SourceNotFound)
    ensures source.Some? && Parse(source.value) == [] ==> r == Err(EmptyResult)
    ensures r.Ok? <==> source.Some? && Parse(source.value) != []
    ensures r.Ok? ==>
      var sel := Select(Parse(source.value), LoadState(state, 0), count).value;
      r.value == Outcome(Subject(Prefer(prefixArg, configPrefix), Titles(sel.batch)),
                         Finish(BodyLines(Header(|sel.batch|), sel.batch)), Persist(delivery, sel.next))
  {
    var parsed := ParseMarkdown(source);
    if parsed.Err? {
      return Err(parsed.error);
    }
    var entries := parsed.value;
    var cursor := LoadState(state, 0);
    var selection := ProduceBatch(entries, cursor, count);
    var sel := selection.value;
    var prefix := Prefer(prefixArg, configPrefix);
    var subject, body := BuildMessage(sel.batch, prefix);
    r := Ok(Outcome(subject, body, Persist(delivery, sel.next)));
  }

  /**
   * A run's mail: the summary line counts the batch, each entry's title and texts
   * appear in batch order, and the body is the plain join of its lines, ending in one '\n'.
   */
  lemma RunBody(entries: seq<Entry>, cursor: int, count: int)
    requires entries != [] && forall i :: 0 <= i < |entries| ==> Clean(entries[i])
    ensures var sel := Select(entries, cursor, count).value;
      var ls := BodyLines(Header(|sel.batch|), sel.batch);
      Finish(ls) == Unlines(ls) && EndsWithOneNewline(Finish(ls))
      && |ls| == 2 + 8 * |sel.batch| && ls[0] == Header(|sel.batch|)
      && forall j :: 0 <= j < |sel.batch| ==>
           ls[2 + 8 * j] == "## " + sel.batch[j].title && ls[5 + 8 * j] == sel.batch[j].pyq
           && ls[8 + 8 * j] == sel.batch[j].xhs
  {
    var sel := Select(entries, cursor, count).value;
    SelectBounds(entries, cursor, count);
    var b := sel.batch;
    assert Clean(b[|b| - 1]) by {
      assert b[|b| - 1] == entries[(cursor % |entries| + (|b| - 1)) % |entries|];
    }
    HeaderVisible(|b|);
    BodyEnds(Header(|b|), b);
    BodyShows(Header(|b|), b);
  }
}
