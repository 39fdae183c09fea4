/**
 * `send_copywriting_digest.py`: the copywriting file's numbered `##` sections, each with
 * a `**朋友圈文案**` and a `**小红书文案**` part, mailed a couple at a time in rotation.
 *
 * The pattern `##\s*\d+\.\s*(?P<title>[^\n]+)\s*\n+` `\*\*朋友圈文案\*\*\s*\n(?P<pyq>.*?)`
 * `\n\*\*小红书文案\*\*\s*\n(?P<xhs>.*?)(?=\n##|\Z)` is read over the lines of the file,
 * backtracking included: see `SectionAt`.
 */
module CopywritingDigest {
  import opened Common
  import opened Text
  import opened Rotation
  import opened Sender
  import opened Paired

  /** A line `\n\*\*小红书文案\*\*\s*` matches at the start of. */
  predicate XhsLine(line: string) { MarkerLine(line, XHS_MARK) }

  /**
   * Where `pyq` starts and the 小红书 marker line is, for the 朋友圈 marker on line `j`:
   * `\s*\n` first gives up its whitespace back to the last line break before the first
   * visible line `p`, so `pyq` starts there and runs to the first marker line `k` after
   * it that a line follows. Without one, `\s*` backtracks one more line: `pyq` is the
   * blank line before `p`, when `p` itself is such a marker line.
   */
  function PyqSpan(ls: seq<string>, j: nat): (r: Option<(nat, nat)>)
    requires j < |ls|
    ensures r.Some? ==> j < r.value.0 < r.value.1 && r.value.1 + 1 < |ls| && XhsLine(ls[r.value.1])
  {
    var p := FirstFrom(ls, j + 1, NotBlank);
    var k := if p < |ls| then FirstFrom(ls, p + 1, XhsLine) else |ls|;
    if k + 1 < |ls| then Some((p, k))
    else if p + 1 < |ls| && XhsLine(ls[p]) && p >= j + 2 then Some((p - 1, p))
    else None
  }

  /**
   * The match whose heading is on line `h`, if one is:
   * - the heading's `title` group is the rest of its line, after the number and its '.';
   * - the first line after it that is not blank is the 朋友圈 marker followed only by
   *   whitespace, and a line follows it;
   * - `pyq` is as `PyqSpan` says;
   * - `xhs` starts on the first visible line after the 小红书 marker (the last line when
   *   there is none) and ends before the next line starting with "##" after that, or at
   *   the end of the file; the search goes on there.
   */
  function SectionAt(ls: seq<string>, h: nat): (r: Option<Found>)
    requires h < |ls|
    ensures r.Some? ==> h < r.value.end <= |ls|
  {
    match HeadingTitle(ls[h], true)
    case None => None
    case Some(title) =>
      var j := FirstFrom(ls, h + 1, NotBlank);
      if j + 1 < |ls| && MarkerLine(ls[j], PYQ_MARK) then
        match PyqSpan(ls, j)
        case None => None
        case Some((t, k)) =>
          var q := FirstFrom(ls, k + 1, NotBlank);
          var s := if q < |ls| then q else |ls| - 1;
          var m := FirstFrom(ls, s + 1, HashLine);
          Some(Found(Match(title, Unlines(ls[t..k]), Unlines(ls[s..m])), m))
      else None
  }

  /** `finditer` from line `i` on: a match where one starts, else the next line. */
  function Scan(ls: seq<string>, i: nat): seq<Match>
    decreases |ls| - i
  {
    if i >= |ls| then []
    else match SectionAt(ls, i)
      case Some(f) => [f.m] + Scan(ls, f.end)
      case None => Scan(ls, i + 1)
  }

  /** The entries of a copywriting file. */
  function Parse(text: string): seq<Entry>
  {
    Keep(Scan(Lines(text), 0))
  }

  /** Every entry of a copywriting file is clean. */
  lemma ParseClean(text: string)
    ensures forall i :: 0 <= i < |Parse(text)| ==> Clean(Parse(text)[i])
  {
    KeepClean(Scan(Lines(text), 0));
  }

  /**
   * `load_entries`: a missing file is an error, and so is a file without entries;
   * otherwise the entries in file order, each clean.
   */
  method LoadEntries(source: Option<string>) returns (r: Result<seq<Entry>>)
    ensures source.None? ==> r == Err(SourceNotFound)
    ensures source.Some? && Parse(source.value) == [] ==> r == Err(EmptyResult)
    ensures source.Some? && Parse(source.value) != [] ==> r == Ok(Parse(source.value))
    ensures r.Ok? ==> forall i :: 0 <= i < |r.value| ==> Clean(r.value[i])
  {
    if source.None? {
      return Err(SourceNotFound);
    }
    var entries := Collect(Scan(Lines(source.value), 0));
    ParseClean(source.value);
    if entries == [] {
      return Err(EmptyResult);
    }
    r := Ok(entries);
  }

  // ---------------------------------------------------------------------------
  // What the backtracking does

  /**
   * A section whose only 小红书 marker line is the first visible line after the 朋友圈
   * marker, with a blank line between them, matches with that blank line as its `pyq`:
   * the match is found, and keeps nothing.
   */
  lemma EmptyPyqMatches(ls: seq<string>, h: nat, title: string)
    requires h + 5 < |ls| && HeadingTitle(ls[h], true) == Some(title)
    requires ls[h + 1] == PYQ_MARK && ls[h + 2] == "" && ls[h + 3] == XHS_MARK
    requires forall i :: h + 4 <= i < |ls| ==> !XhsLine(ls[i])
    ensures SectionAt(ls, h).Some?
    ensures SectionAt(ls, h).value.m.pyq == "" && Kept(SectionAt(ls, h).value.m) == []
  {
    MarksVisible();
    FirstAt(ls, h + 1, NotBlank, h + 1);
    FirstAt(ls, h + 2, NotBlank, h + 3);
    FirstFromAll(ls, h + 4, XhsLine);
    assert PyqSpan(ls, h + 1) == Some((h + 2, h + 3));
    assert ls[h + 2..h + 3] == [""];
    JoinSingle("", "\n");
    assert Strip("") == [];
  }

  /** Without any 小红书 marker line after the 朋友圈 marker, there is no match at `h`. */
  lemma NoXhsNoMatch(ls: seq<string>, h: nat)
    requires h < |ls| && forall i :: h < i < |ls| ==> !XhsLine(ls[i])
    ensures SectionAt(ls, h) == None
  {
    if HeadingTitle(ls[h], true).Some? {
      var j := FirstFrom(ls, h + 1, NotBlank);
      if j + 1 < |ls| && MarkerLine(ls[j], PYQ_MARK) {
        var p := FirstFrom(ls, j + 1, NotBlank);
        if p < |ls| {
          var k := FirstFrom(ls, p + 1, XhsLine);
          assert k == |ls|;
        }
      }
    }
  }

  // ---------------------------------------------------------------------------
  // Reading back a laid-out file

  /** A laid-out section is one match, and the search goes on right after it. */
  lemma LaidSection(ls: seq<string>, x: nat, head: string, title: string, pyq: string, xhs: string)
    requires Laid(ls, x, head, pyq, xhs) && HeadingTitle(head, true) == Some(title)
    requires NotBlank(pyq) && NotBlank(xhs)
    ensures SectionAt(ls, x) == Some(Found(LaidMatch(title, pyq, xhs), x + 8))
  {
    LaidLines(ls, x, head, pyq, xhs);
    MarksVisible();
    FirstAt(ls, x + 1, NotBlank, x + 2);
    FirstAt(ls, x + 3, NotBlank, x + 3);
    FirstAt(ls, x + 4, XhsLine, x + 5);
    assert PyqSpan(ls, x + 2) == Some((x + 3, x + 5));
    FirstAt(ls, x + 6, NotBlank, x + 6);
    FirstAt(ls, x + 7, HashLine, x + 8);
  }

  /** Section `i` of a spelled file is one match, which keeps entry `i`. */
  lemma SectionStep(ls: seq<string>, base: nat, heads: seq<string>, titles: seq<string>,
                    pyqs: seq<string>, xhss: seq<string>, i: nat)
    requires Spelled(heads, titles, pyqs, xhss, true) && LaidFrom(ls, base, heads, pyqs, xhss) && i < |heads|
    ensures var m := LaidMatch(titles[i], pyqs[i], xhss[i]);
      Scan(ls, base + 8 * i) == [m] + Scan(ls, base + 8 * (i + 1))
      && Kept(m) == [SpelledEntries(titles, pyqs, xhss)[i]]
  {
    var x := base + 8 * i;
    assert Laid(ls, x, heads[i], pyqs[i], xhss[i]);
    LaidSection(ls, x, heads[i], titles[i], pyqs[i], xhss[i]);
    assert x + 8 == base + 8 * (i + 1);
    LaidKept(titles[i], pyqs[i], xhss[i]);
  }

  /** From section `i` on, a spelled file reads back entry by entry. */
  lemma {:induction false} ScanSections(ls: seq<string>, base: nat, heads: seq<string>, titles: seq<string>,
                                        pyqs: seq<string>, xhss: seq<string>, i: nat)
    requires Spelled(heads, titles, pyqs, xhss, true) && LaidFrom(ls, base, heads, pyqs, xhss) && i <= |heads|
    ensures Keep(Scan(ls, base + 8 * i)) == SpelledEntries(titles, pyqs, xhss)[i..]
    decreases |heads| - i
  {
    var es := SpelledEntries(titles, pyqs, xhss);
    if i < |heads| {
      var m := LaidMatch(titles[i], pyqs[i], xhss[i]);
      var rest := Scan(ls, base + 8 * (i + 1));
      SectionStep(ls, base, heads, titles, pyqs, xhss, i);
      ScanSections(ls, base, heads, titles, pyqs, xhss, i + 1);
      KeepStep(Scan(ls, base + 8 * i), m, rest, es, i);
    } else {
      assert Scan(ls, base + 8 * i) == [];
    }
  }

  /** Lines without a heading are passed over. */
  lemma {:induction false} HeaderSkipped(ls: seq<string>, x: nat, n: nat)
    requires x <= n <= |ls|
    requires forall i :: x <= i < n ==> HeadingTitle(ls[i], true).None?
    ensures Scan(ls, x) == Scan(ls, n)
    decreases n - x
  {
    if x < n {
      assert SectionAt(ls, x) == None;
      assert Scan(ls, x) == Scan(ls, x + 1);
      HeaderSkipped(ls, x + 1, n);
    }
  }

  /** Lines without headings up to `base`, then laid-out spelled sections: their entries. */
  lemma ReadLaid(ls: seq<string>, base: nat, heads: seq<string>, titles: seq<string>, pyqs: seq<string>, xhss: seq<string>)
    requires Spelled(heads, titles, pyqs, xhss, true) && LaidFrom(ls, base, heads, pyqs, xhss)
    requires forall i :: 0 <= i < base ==> HeadingTitle(ls[i], true).None?
    ensures Keep(Scan(ls, 0)) == SpelledEntries(titles, pyqs, xhss)
  {
    HeaderSkipped(ls, 0, base);
    ScanSections(ls, base, heads, titles, pyqs, xhss, 0);
    assert base + 8 * 0 == base;
  }

  /**
   * A file whose lines are a header without headings and then spelled sections reads
   * back as their entries: section `i` gives the stripped title and texts `i`.
   */
  lemma ReadBack(text: string, hd: seq<string>, heads: seq<string>, titles: seq<string>,
                 pyqs: seq<string>, xhss: seq<string>)
    requires Spelled(heads, titles, pyqs, xhss, true)
    requires Lines(text) == hd + Blocks(ShapeOf(heads, pyqs, xhss), |heads|)
    requires forall i :: 0 <= i < |hd| ==> HeadingTitle(hd[i], true).None?
    ensures Parse(text) == SpelledEntries(titles, pyqs, xhss)
  {
    var ls := Lines(text);
    DocLaid(hd, heads, pyqs, xhss);
    forall i | 0 <= i < |hd| ensures HeadingTitle(ls[i], true).None? {
      assert ls[i] == hd[i];
    }
    ReadLaid(ls, |hd|, heads, titles, pyqs, xhss);
  }

  /** Clean one-line entries written out as a copywriting file are read back as they were. */
  lemma MarkdownRoundTrip(hd: seq<string>, es: seq<Entry>)
    requires es != [] && forall i :: 0 <= i < |es| ==> Clean(es[i]) && SingleLine(es[i])
    requires AllLines(hd) && forall i :: 0 <= i < |hd| ==> HeadingTitle(hd[i], true).None?
    ensures Parse(Markdown(hd, es)) == es
  {
    MarkdownSpelled(es, true);
    MarkdownLines(hd, es);
    ReadBack(Markdown(hd, es), hd, Heads(es), Titles(es), Pyqs(es), Xhss(es));
  }

  // ---------------------------------------------------------------------------
  // The mail

  /** `今日推送 N 组文案：`. */
  function Header(n: nat): string
  {
    "今日推送 " + NatToString(n) + " 组文案："
  }

  lemma HeaderVisible(n: nat)
    ensures Header(n) != [] && !IsSpace(Header(n)[0])
  {
    assert Header(n)[0] == '今';
    VisibleNotSpace('今');
  }

  /** The entry as the body shows it: both texts stripped once more. */
  function Shown(e: Entry): Entry
  {
    Entry(e.title, Strip(e.pyq), Strip(e.xhs))
  }

  /** Stripping again changes nothing in a clean entry. */
  lemma ShownClean(e: Entry)
    requires Clean(e)
    ensures Shown(e) == e
  {
    StripOfTrimmed(e.pyq);
    StripOfTrimmed(e.xhs);
  }

  /** On a clean batch the body shows the entries as they are. */
  lemma ShownBatch(batch: seq<Entry>)
    requires forall i :: 0 <= i < |batch| ==> Clean(batch[i])
    ensures Map(Shown, batch) == batch
  {
    var r := Map(Shown, batch);
    forall i | 0 <= i < |batch| ensures r[i] == batch[i] {
      MapAt(Shown, batch, i);
      ShownClean(batch[i]);
    }
  }

  /**
   * `build_message`: the subject names the batch's titles; the body is the summary line
   * and one block per entry, with both texts stripped.
   */
  method BuildMessage(batch: seq<Entry>, prefix: string) returns (subject: string, body: string)
    ensures subject == Subject(prefix, Titles(batch))
    ensures body == Finish(BodyLines(Header(|batch|), Map(Shown, batch)))
  {
    subject := Subject(prefix, Titles(batch));
    var shown := ShowBatch(batch);
    body := RenderBody(Header(|batch|), shown);
  }

  /** The `entry.pyq.strip()` and `entry.xhs.strip()` of the body loop, entry by entry. */
  method ShowBatch(batch: seq<Entry>) returns (shown: seq<Entry>)
    ensures shown == Map(Shown, batch)
  {
    shown := [];
    for i := 0 to |batch|
      invariant |shown| == i && forall j :: 0 <= j < i ==> shown[j] == Shown(batch[j])
    {
      var entry := batch[i];
      shown := shown + [Entry(entry.title, Strip(entry.pyq), Strip(entry.xhs))];
    }
    MapOf(Shown, batch, shown);
  }

  /**
   * `main` with the file contents and the outcome of the send given: the entries, the
   * batch at the stored cursor (0 when the state file is missing or unreadable), the
   * mail, and the state file written only after a send that returned.
   */
  method Run(source: Option<string>, state: Option<string>, count: int,
             prefixArg: Option<string>, configPrefix: string, delivery: Delivery)
    returns (r: Result<Outcome>)
    ensures source.None? ==> r == Err(SourceNotFound)
    ensures source.Some? && Parse(source.value) == [] ==> r == Err(EmptyResult)
    ensures r.Ok? <==> source.Some? && Parse(source.value) != []
    ensures r.Ok? ==>
      var sel := Select(Parse(source.value), LoadState(state, 0), count).value;
      r.value == Outcome(Subject(Prefer(prefixArg, configPrefix), Titles(sel.batch)),
                         Finish(BodyLines(Header(|sel.batch|), sel.batch)), Persist(delivery, sel.next))
  {
    var loaded := LoadEntries(source);
    if loaded.Err? {
      return Err(loaded.error);
    }
    var entries := loaded.value;
    var cursor := LoadState(state, 0);
    var selection := ProduceBatch(entries, cursor, count);
    var sel := selection.value;
    var prefix := Prefer(prefixArg, configPrefix);
    var subject, body := BuildMessage(sel.batch, prefix);
    BatchClean(entries, cursor, count);
    ShownBatch(sel.batch);
    r := Ok(Outcome(subject, body, Persist(delivery, sel.next)));
  }

  /** A batch drawn from clean entries is clean. */
  lemma BatchClean(entries: seq<Entry>, cursor: int, count: int)
    requires entries != [] && forall i :: 0 <= i < |entries| ==> Clean(entries[i])
    ensures var b := Select(entries, cursor, count).value.batch;
      b != [] && forall j :: 0 <= j < |b| ==> Clean(b[j])
  {
    SelectBounds(entries, cursor, count);
  }

  /**
   * A run's mail: the summary line counts the batch, each entry's title and texts
   * appear in batch order, and the body is the plain join of its lines, ending in one '\n'.
   */
  lemma RunBody(entries: seq<Entry>, cursor: int, count: int)
    requires entries != [] && forall i :: 0 <= i < |entries| ==> Clean(entries[i])
    ensures var sel := Select(entries, cursor, count).value;
      var ls := BodyLines(Header(|sel.batch|), sel.batch);
      Finish(ls) == Unlines(ls) && EndsWithOneNewline(Finish(ls))
      && |ls| == 2 + 8 * |sel.batch| && ls[0] == Header(|sel.batch|)
      && forall j :: 0 <= j < |sel.batch| ==>
           ls[2 + 8 * j] == "## " + sel.batch[j].title && ls[5 + 8 * j] == sel.batch[j].pyq
           && ls[8 + 8 * j] == sel.batch[j].xhs
  {
    var b := Select(entries, cursor, count).value.batch;
    BatchClean(entries, cursor, count);
    assert Clean(b[|b| - 1]);
    HeaderVisible(|b|);
    BodyEnds(Header(|b|), b);
    BodyShows(Header(|b|), b);
  }
}
