/**
 * `send_hot_topics_voiceover.py`: reads the voice-over document the generator writes,
 * picks the next batch of entries in rotation, and renders the mail. The pattern
 * `^###\s*\d+\)\s*(?P<title>[^\n]+)\n- 口播脚本：(?P<script>.*?)(?=\n###|\Z)` is read
 * line by line: a match opens at a heading line directly followed by a line starting
 * with the label, and its script runs up to the next line starting with `###`.
 */
module HotVoiceover {
  import opened Common
  import opened Text
  import opened Rotation
  import opened Sender
  import ShortCopy

  /** A `VoiceoverEntry`. */
  datatype Entry = Entry(title: string, script: string)

  const LABEL := "- 口播脚本："

  /** A line the script's lookahead `\n###` stops in front of. */
  predicate IsFence(line: string) { StartsWith(line, "###") }

  /**
   * `###\s*\d+\)\s*(?P<title>[^\n]+)` against one line: the stripped title, or `None`
   * when the line is not a heading.
   */
  function HeadingTitle(line: string): (r: Option<string>)
    ensures r.Some? ==> IsFence(line) && Trimmed(r.value)
  {
    if !IsFence(line) then None
    else
      var k := SkipSpace(line, 3);
      var d := DigitsFrom(line, k);
      if d > k && d + 1 < |line| && line[d] == ')' then Some(Strip(line[d + 1..])) else None
  }

  /** The text after the label, when the line starts with it. */
  function AfterLabel(line: string): (r: Option<string>)
    ensures r.Some? <==> StartsWith(line, LABEL)
    ensures r.Some? ==> line == LABEL + r.value
  {
    if StartsWith(line, LABEL) then
      assert line == line[..|LABEL|] + line[|LABEL|..];
      Some(line[|LABEL|..])
    else None
  }

  /** What the pattern sees in one line: the line itself, its heading title, fence and label. */
  datatype Line = Line(text: string, heading: Option<string>, fence: bool, rest: Option<string>)

  function Classify(line: string): (l: Line)
    ensures l.text == line
  {
    Line(line, HeadingTitle(line), IsFence(line), AfterLabel(line))
  }

  /** Each line of a document classified. */
  function ClassifyAll(ls: seq<string>): (r: seq<Line>)
    ensures |r| == |ls|
  {
    Map(Classify, ls)
  }

  /** The lines' text. */
  function Texts(ls: seq<Line>): (r: seq<string>)
    ensures |r| == |ls|
  {
    if ls == [] then [] else [ls[0].text] + Texts(ls[1..])
  }

  /** The number of lines before the first fence, or all of them. */
  function NextFence(ls: seq<Line>): (k: nat)
    ensures k <= |ls| && (k < |ls| ==> ls[k].fence)
    ensures forall j :: 0 <= j < k ==> !ls[j].fence
  {
    if ls == [] || ls[0].fence then 0 else 1 + NextFence(ls[1..])
  }

  /** A match starts at the first of these lines: a heading directly followed by the label. */
  predicate Opens(ls: seq<Line>) {
    |ls| >= 2 && ls[0].heading.Some? && ls[1].rest.Some?
  }

  /** A clean entry: nonempty, stripped title and script. */
  predicate Clean(e: Entry) {
    e.title != [] && Trimmed(e.title) && e.script != [] && Trimmed(e.script)
  }

  /**
   * One match of the pattern: the heading's stripped title, the text after the label
   * and the further lines up to the next fence or the end.
   */
  datatype Match = Match(title: string, first: string, more: seq<Line>)

  /** How many lines the scan moves past at the start of `ls`: a whole match, or one line. */
  function Span(ls: seq<Line>): (n: nat)
    requires ls != []
    ensures 1 <= n <= |ls|
  {
    if Opens(ls) then 2 + NextFence(ls[2..]) else 1
  }

  /** The match that starts at the first line, if one does. */
  function Found(ls: seq<Line>): (r: seq<Match>)
    requires ls != []
    ensures |r| <= 1 && (r != [] <==> Opens(ls))
  {
    if Opens(ls) then [Match(ls[0].heading.value, ls[1].rest.value, ls[2..Span(ls)])] else []
  }

  /** `finditer` over the lines: the matches in order. */
  function Matches(ls: seq<Line>): seq<Match>
    decreases |ls|
  {
    if ls == [] then [] else Found(ls) + Matches(ls[Span(ls)..])
  }

  /** The stripped script group of a match. */
  function ScriptOf(m: Match): string
  {
    Strip(Join([m.first] + Texts(m.more), "\n"))
  }

  /** The entry a match gives: kept only when its title and script are nonempty. */
  function Kept(m: Match): (r: seq<Entry>)
    ensures |r| <= 1 && (r != [] <==> m.title != [] && ScriptOf(m) != [])
  {
    var script := ScriptOf(m);
    if m.title != [] && script != [] then [Entry(m.title, script)] else []
  }

  /** The entries kept from the matches, in order. */
  function Keep(ms: seq<Match>): seq<Entry>
  {
    FlatMap(Kept, ms)
  }

  /** The entries found in a document. */
  function Parse(text: string): seq<Entry>
  {
    Keep(Matches(ClassifyAll(Lines(text))))
  }

  /** Consistent classification: a heading is a fence and a fence carries no label. */
  predicate Sound(l: Line) {
    (l.heading.Some? ==> l.fence) && (l.fence ==> l.rest.None?)
  }

  lemma ClassifySound(line: string)
    ensures Sound(Classify(line))
  {
    if IsFence(line) && StartsWith(line, LABEL) {
      assert line[0] == "###"[0];
    }
  }

  /** A match's title is a stripped heading title. */
  lemma {:induction false} MatchesTrimmed(ls: seq<Line>)
    requires forall i :: 0 <= i < |ls| ==> (ls[i].heading.Some? ==> Trimmed(ls[i].heading.value))
    ensures forall i :: 0 <= i < |Matches(ls)| ==> Trimmed(Matches(ls)[i].title)
    decreases |ls|
  {
    if ls != [] {
      MatchesTrimmed(ls[Span(ls)..]);
    }
  }

  /** Every kept entry has a nonempty, stripped title and script. */
  lemma {:induction false} KeepClean(ms: seq<Match>)
    requires forall i :: 0 <= i < |ms| ==> Trimmed(ms[i].title)
    ensures forall i :: 0 <= i < |Keep(ms)| ==> Clean(Keep(ms)[i])
    decreases |ms|
  {
    if ms != [] {
      assert Keep(ms) == Kept(ms[0]) + Keep(ms[1..]);
      KeepClean(ms[1..]);
    }
  }

  /** Every entry of a document has a nonempty, stripped title and script. */
  lemma ParseClean(text: string)
    ensures var es := Parse(text);
      forall i :: 0 <= i < |es| ==> Clean(es[i])
  {
    var ls := Lines(text);
    var ks := ClassifyAll(ls);
    forall i | 0 <= i < |ks| ensures ks[i].heading.Some? ==> Trimmed(ks[i].heading.value) {
      MapAt(Classify, ls, i);
    }
    MatchesTrimmed(ks);
    KeepClean(Matches(ks));
  }

  /**
   * `parse_voiceovers`: a missing file is an error, and so is a file without entries;
   * otherwise the entries in file order, each with a nonempty, stripped title and script.
   */
  method ParseVoiceovers(source: Option<string>) returns (r: Result<seq<Entry>>)
    ensures source.None? ==> r == Err(SourceNotFound)
    ensures source.Some? && Parse(source.value) == [] ==> r == Err(EmptyResult)
    ensures source.Some? && Parse(source.value) != [] ==> r == Ok(Parse(source.value))
    ensures r.Ok? ==> forall i :: 0 <= i < |r.value| ==> Clean(r.value[i])
  {
    if source.None? {
      return Err(SourceNotFound);
    }
    var entries := Collect(ClassifyAll(Lines(source.value)));
    ParseClean(source.value);
    if entries == [] {
      return Err(EmptyResult);
    }
    r := Ok(entries);
  }

  /** The `finditer` loop: each match's stripped title and script, kept when both are nonempty. */
  method Collect(ks: seq<Line>) returns (entries: seq<Entry>)
    ensures entries == Keep(Matches(ks))
  {
    entries := [];
    var i := 0;
    while i < |ks|
      invariant 0 <= i <= |ks|
      invariant entries + Keep(Matches(ks[i..])) == Keep(Matches(ks))
      decreases |ks| - i
    {
      if Opens(ks[i..]) {
        var e := i + 2;
        while e < |ks| && !ks[e].fence
          invariant i + 2 <= e <= |ks|
          invariant e - (i + 2) + NextFence(ks[e..]) == NextFence(ks[i + 2..])
          decreases |ks| - e
        {
          assert ks[e..][1..] == ks[e + 1..];
          e := e + 1;
        }
        var m := Match(ks[i].heading.value, ks[i + 1].rest.value, ks[i + 2..e]);
        ParseStep(ks, i, e);
        KeepStep(m, Matches(ks[e..]));
        var script := Strip(Join([m.first] + Texts(m.more), "\n"));
        var kept: seq<Entry> := [];
        if m.title != [] && script != [] {
          kept := [Entry(m.title, script)];
        }
        Regroup(entries, kept, Keep(Matches(ks[e..])));
        entries := entries + kept;
        i := e;
      } else {
        SkipStep(ks, i);
        i := i + 1;
      }
    }
    assert ks[i..] == [];
    assert Matches([]) == [] && Keep([]) == [];
  }

  /** One step of the scan: the match at `i`, then the matches after it. */
  lemma ParseStep(ks: seq<Line>, i: nat, e: nat)
    requires i < |ks| && Opens(ks[i..]) && i + 2 <= e <= |ks|
    requires e - (i + 2) + NextFence(ks[e..]) == NextFence(ks[i + 2..])
    requires e == |ks| || ks[e].fence
    ensures Matches(ks[i..]) == [Match(ks[i].heading.value, ks[i + 1].rest.value, ks[i + 2..e])] + Matches(ks[e..])
  {
    var s := ks[i..];
    assert s[2..] == ks[i + 2..];
    assert NextFence(ks[e..]) == 0;
    assert Span(s) == e - i;
    assert Matches(s) == Found(s) + Matches(s[Span(s)..]);
    assert s[2..e - i] == ks[i + 2..e];
    assert Found(s) == [Match(ks[i].heading.value, ks[i + 1].rest.value, ks[i + 2..e])];
    assert s[e - i..] == ks[e..];
  }

  /** Keeping is match by match. */
  lemma KeepStep(m: Match, ms: seq<Match>)
    ensures Keep([m] + ms) == Kept(m) + Keep(ms)
  {
    assert ([m] + ms)[0] == m;
    assert ([m] + ms)[1..] == ms;
  }

  /** A line that starts no match is passed over. */
  lemma SkipStep(ks: seq<Line>, i: nat)
    requires i < |ks| && !Opens(ks[i..])
    ensures Matches(ks[i..]) == Matches(ks[i + 1..])
  {
    var s := ks[i..];
    assert s[1..] == ks[i + 1..];
    assert Found(s) + Matches(s[1..]) == Matches(s[1..]);
  }

  // ---------------------------------------------------------------------------
  // Reading back what the generator writes

  lemma {:induction false} NextFenceAppend(a: seq<Line>, b: seq<Line>)
    requires b == [] || b[0].fence
    ensures NextFence(a + b) == NextFence(a)
    decreases |a|
  {
    if a == [] {
      assert a + b == b;
    } else if !a[0].fence {
      assert (a + b)[1..] == a[1..] + b;
      NextFenceAppend(a[1..], b);
    }
  }

  /** A match never reaches past a fence, so lines that end where a fence begins parse on their own. */
  lemma {:induction false} MatchesAppend(a: seq<Line>, b: seq<Line>)
    requires b == [] || (b[0].fence && b[0].rest.None?)
    ensures Matches(a + b) == Matches(a) + Matches(b)
    decreases |a|
  {
    if a == [] {
      assert a + b == b;
    } else {
      var n := Span(a);
      StepAppend(a, b);
      assert (a + b)[n..] == a[n..] + b;
      MatchesAppend(a[n..], b);
      Regroup(Found(a), Matches(a[n..]), Matches(b));
    }
  }

  /** The first step of the scan does not look past a fence. */
  lemma StepAppend(a: seq<Line>, b: seq<Line>)
    requires a != []
    requires b == [] || (b[0].fence && b[0].rest.None?)
    ensures Span(a + b) == Span(a) && Found(a + b) == Found(a)
  {
    var ab := a + b;
    assert Opens(ab) == Opens(a);
    if Opens(a) {
      assert ab[2..] == a[2..] + b;
      NextFenceAppend(a[2..], b);
      assert ab[2..Span(a)] == a[2..Span(a)];
    }
  }

  function ClassOf(f: nat -> seq<string>): nat -> seq<Line>
  {
    (i: nat) => Map(Classify, f(i))
  }

  /** Lines made of blocks each of which starts with a fence match block by block. */
  lemma {:induction false} MatchesBlocks(f: nat -> seq<Line>, g: nat -> seq<Match>, k: nat)
    requires forall i :: 0 <= i < k ==> f(i) != [] && f(i)[0].fence && f(i)[0].rest.None? && Matches(f(i)) == g(i)
    ensures Matches(Blocks(f, k)) == Blocks(g, k)
    decreases k
  {
    if k == 0 {
      assert Blocks(f, k) == [];
    } else {
      MatchesBlocks(f, g, k - 1);
      assert Blocks(f, k) == Blocks(f, k - 1) + f(k - 1);
      MatchesAppend(Blocks(f, k - 1), f(k - 1));
      assert Matches(f(k - 1)) == g(k - 1);
    }
  }

  /** Lines none of which is a heading hold no match. */
  lemma {:induction false} NoHeadingNoMatch(ls: seq<Line>)
    requires forall i :: 0 <= i < |ls| ==> ls[i].heading.None?
    ensures Matches(ls) == []
    decreases |ls|
  {
    if ls != [] {
      NoHeadingNoMatch(ls[1..]);
    }
  }

  /** A heading, a label line and a blank line are one match. */
  lemma OneMatch(head: string, title: string, script: string)
    requires HeadingTitle(head) == Some(title)
    ensures var ks := ClassifyAll([head, LABEL + script, ""]);
      ks != [] && ks[0].fence && ks[0].rest.None? && Matches(ks) == [Match(title, script, [Classify("")])]
  {
    var ls := [head, LABEL + script, ""];
    var ks := ClassifyAll(ls);
    MapAt(Classify, ls, 0);
    MapAt(Classify, ls, 1);
    MapAt(Classify, ls, 2);
    ClassifySound(head);
    assert (LABEL + script)[..|LABEL|] == LABEL;
    assert ks[1].rest == Some(script);
    assert !ks[2].fence;
    assert NextFence(ks[2..]) == 1;
    assert ks[2..3] == [ks[2]] && ks[3..] == [];
  }

  /** That match keeps the entry it spells when the title and script are nonempty and stripped. */
  lemma OneEntry(title: string, script: string, blank: Line)
    requires title != [] && script != [] && Trimmed(script) && blank.text == ""
    ensures Keep([Match(title, script, [blank])]) == [Entry(title, script)]
  {
    var m := Match(title, script, [blank]);
    assert Texts([blank]) == [""];
    assert Join([script] + [""], "\n") == script + "\n";
    StripLineEnd(script);
    assert Kept(m) == [Entry(title, script)];
    KeepStep(m, []);
    assert [m] + [] == [m];
  }

  /** `### <id>) <title>` is a heading with that title. */
  lemma HeadingTitleOf(t: ShortCopy.Topic)
    requires ShortCopy.WellFormed(t)
    ensures HeadingTitle(ShortCopy.HeadingLine(t)) == Some(t.title)
  {
    var line := ShortCopy.HeadingLine(t);
    var n := |t.id|;
    assert line == "### " + t.id + ") " + t.title;
    assert line[..3] == "###";
    assert line[3] == ' ';
    assert forall j :: 4 <= j < 4 + n ==> line[j] == t.id[j - 4];
    assert line[4 + n] == ')' && line[4 + n + 1..] == " " + t.title;
    DigitNotSpace(t.id[0]);
    SkipSpaceRun(line, 3, 1);
    DigitsFromRun(line, 4, n);
    StripPadded(" ", t.title);
  }

  function MatchOf(f: nat -> seq<Line>): nat -> seq<Match>
  {
    (i: nat) => Matches(f(i))
  }

  /** A block of lines that starts with a fence and parses, on its own, to `es`. */
  predicate BlockParsesTo(b: seq<string>, es: seq<Entry>) {
    var c := ClassifyAll(b);
    c != [] && c[0].fence && c[0].rest.None? && Keep(Matches(c)) == es
  }

  /** A heading, a label line and a blank line parse to the entry they spell. */
  lemma BlockParses(head: string, title: string, script: string)
    requires HeadingTitle(head) == Some(title) && title != []
    requires script != [] && Trimmed(script)
    ensures BlockParsesTo([head, LABEL + script, ""], [Entry(title, script)])
  {
    OneMatch(head, title, script);
    OneEntry(title, script, Classify(""));
  }

  /** Block `i` of a voice-over document: heading `i`, the label with script `i`, a blank line. */
  function ShapeOf(heads: seq<string>, scripts: seq<string>): nat -> seq<string>
  {
    (i: nat) => if i < |heads| && i < |scripts| then [heads[i], LABEL + scripts[i], ""] else []
  }

  /** The entry block `i` spells. */
  function PairOf(titles: seq<string>, scripts: seq<string>): nat -> seq<Entry>
  {
    (i: nat) => if i < |titles| && i < |scripts| then [Entry(titles[i], scripts[i])] else []
  }

  /** The headings carry the titles, and titles and scripts are nonempty and stripped. */
  predicate Spelled(heads: seq<string>, titles: seq<string>, scripts: seq<string>)
  {
    |heads| == |titles| == |scripts|
    && forall i :: 0 <= i < |heads| ==>
         HeadingTitle(heads[i]) == Some(titles[i]) && titles[i] != [] && scripts[i] != [] && Trimmed(scripts[i])
  }
  /** The document's header holds no heading. */
  lemma HeaderNoMatch()
    ensures Matches(ClassifyAll(ShortCopy.VOICE_HEADER)) == []
  {
    var h := ShortCopy.VOICE_HEADER;
    assert h[0][2] == ' ' && h[2][0] == '口';
    assert !IsFence(h[0]) && !IsFence(h[1]) && !IsFence(h[2]) && !IsFence(h[3]);
    forall i | 0 <= i < |h| ensures ClassifyAll(h)[i].heading.None? {
      MapAt(Classify, h, i);
    }
    NoHeadingNoMatch(ClassifyAll(h));
  }

  /** A header without headings followed by blocks that each parse on their own parses block by block. */
  lemma DocumentParses(hd: seq<string>, d: nat -> seq<string>, h: nat -> seq<Entry>, n: nat)
    requires Matches(ClassifyAll(hd)) == []
    requires forall i :: 0 <= i < n ==> BlockParsesTo(d(i), h(i))
    ensures Keep(Matches(ClassifyAll(hd + Blocks(d, n)))) == Blocks(h, n)
  {
    var c := ClassOf(d);
    var g := MatchOf(c);
    forall i | 0 <= i < n
      ensures Map(Classify, d(i)) == c(i) && c(i) != [] && c(i)[0].fence && c(i)[0].rest.None?
      ensures FlatMap(Kept, g(i)) == h(i)
    {
      assert c(i) == ClassifyAll(d(i));
      assert g(i) == Matches(c(i));
    }
    MapAppend(Classify, hd, Blocks(d, n));
    MapBlocks(Classify, d, c, n);
    MatchesAfterHeader(ClassifyAll(hd), c, n);
    FlatMapBlocks(Kept, g, h, n);
  }

  /** A header without headings followed by blocks that each start with a fence matches block by block. */
  lemma MatchesAfterHeader(hd: seq<Line>, c: nat -> seq<Line>, n: nat)
    requires Matches(hd) == []
    requires forall i :: 0 <= i < n ==> c(i) != [] && c(i)[0].fence && c(i)[0].rest.None?
    ensures Matches(hd + Blocks(c, n)) == Blocks(MatchOf(c), n)
  {
    var g := MatchOf(c);
    forall i | 0 <= i < n ensures Matches(c(i)) == g(i) {
      assert g(i) == Matches(c(i));
    }
    if n > 0 {
      BlocksFirst(c, n);
    }
    MatchesAppend(hd, Blocks(c, n));
    MatchesBlocks(c, g, n);
    assert [] + Blocks(g, n) == Blocks(g, n);
  }

  /**
   * A text whose lines are a header without headings and then well-spelled blocks
   * reads back block by block: entry `i` has title `i` and script `i`.
   */
  lemma ReadBack(text: string, hd: seq<string>, heads: seq<string>, titles: seq<string>, scripts: seq<string>)
    requires Spelled(heads, titles, scripts)
    requires Lines(text) == hd + Blocks(ShapeOf(heads, scripts), |heads|)
    requires Matches(ClassifyAll(hd)) == []
    ensures var es := Parse(text);
      |es| == |heads| && forall i :: 0 <= i < |heads| ==> es[i] == Entry(titles[i], scripts[i])
  {
    var n := |heads|;
    var d := ShapeOf(heads, scripts);
    var h := PairOf(titles, scripts);
    forall i | 0 <= i < n ensures BlockParsesTo(d(i), h(i)) && |h(i)| == 1 && h(i)[0] == Entry(titles[i], scripts[i]) {
      assert d(i) == [heads[i], LABEL + scripts[i], ""];
      assert h(i) == [Entry(titles[i], scripts[i])];
      BlockParses(heads[i], titles[i], scripts[i]);
    }
    DocumentParses(hd, d, h, n);
    BlocksSingle(h, n);
  }

  /** The generator's headings, titles and scripts, topic by topic. */
  function Heads(ts: seq<ShortCopy.Topic>): seq<string>
  {
    seq(|ts|, i requires 0 <= i < |ts| => ShortCopy.HeadingLine(ts[i]))
  }

  function TopicTitles(ts: seq<ShortCopy.Topic>): seq<string>
  {
    seq(|ts|, i requires 0 <= i < |ts| => ts[i].title)
  }

  function Scripts(ts: seq<ShortCopy.Topic>, root: nat -> string): seq<string>
  {
    seq(|ts|, i requires 0 <= i < |ts| => ShortCopy.Script(ts[i], root(i)))
  }

  /** The generator's voice-over blocks are well-spelled blocks of its headings and scripts. */
  lemma VoiceShape(ts: seq<ShortCopy.Topic>, root: nat -> string)
    requires forall i :: 0 <= i < |ts| ==> ShortCopy.WellFormed(ts[i])
    ensures Spelled(Heads(ts), TopicTitles(ts), Scripts(ts, root))
    ensures ShortCopy.VoiceBlocks(ts, root, |ts|) == Blocks(ShapeOf(Heads(ts), Scripts(ts, root)), |ts|)
  {
    var heads, titles, scripts := Heads(ts), TopicTitles(ts), Scripts(ts, root);
    forall i | 0 <= i < |ts|
      ensures ShortCopy.VoiceOf(ts, root)(i) == ShapeOf(heads, scripts)(i)
      ensures HeadingTitle(heads[i]) == Some(titles[i]) && titles[i] != [] && scripts[i] != [] && Trimmed(scripts[i])
    {
      VoiceBlockShape(ts, root, i);
    }
    BlocksAgree(ShortCopy.VoiceOf(ts, root), ShapeOf(heads, scripts), |ts|);
  }

  /** The generator's label is the one the sender looks for. */
  lemma LabelsAgree()
    ensures ShortCopy.SCRIPT_LABEL == LABEL
  {
  }

  /** One topic's block, as the generator writes it and as the sender reads it. */
  lemma VoiceBlockShape(ts: seq<ShortCopy.Topic>, root: nat -> string, i: nat)
    requires i < |ts| && ShortCopy.WellFormed(ts[i])
    ensures ShortCopy.VoiceOf(ts, root)(i) == ShapeOf(Heads(ts), Scripts(ts, root))(i)
    ensures var s := Scripts(ts, root)[i];
      HeadingTitle(Heads(ts)[i]) == Some(TopicTitles(ts)[i]) && TopicTitles(ts)[i] != [] && s != [] && Trimmed(s)
  {
    var script := ShortCopy.Script(ts[i], root(i));
    LabelsAgree();
    assert Scripts(ts, root)[i] == script;
    assert ShapeOf(Heads(ts), Scripts(ts, root))(i) == [ShortCopy.HeadingLine(ts[i]), LABEL + script, ""];
    assert ShortCopy.VoiceOf(ts, root)(i) == ShortCopy.VoiceBlock(ts[i], root(i));
    HeadingTitleOf(ts[i]);
    ShortCopy.ScriptShape(ts[i], root(i));
  }

  /**
   * The sender reads back what the generator writes: one entry per topic, in order,
   * with the topic's title and the script written for it.
   */
  lemma RoundTrip(ts: seq<ShortCopy.Topic>, root: nat -> string)
    requires forall i :: 0 <= i < |ts| ==> ShortCopy.WellFormed(ts[i]) && NoLineBreak(ShortCopy.RootHead(root(i)))
    ensures var es := Parse(ShortCopy.VoiceText(ts, root));
      |es| == |ts| && forall i :: 0 <= i < |ts| ==> es[i] == Entry(ts[i].title, ShortCopy.Script(ts[i], root(i)))
  {
    VoiceShape(ts, root);
    ShortCopy.VoiceTextLines(ts, root);
    HeaderNoMatch();
    ReadBack(ShortCopy.VoiceText(ts, root), ShortCopy.VOICE_HEADER, Heads(ts), TopicTitles(ts), Scripts(ts, root));
  }

  /**
   * Whatever the generator's source, a document with topics reads back with one entry
   * per topic, titled like the topic, so `ParseVoiceovers` accepts it.
   */
  lemma GeneratedParses(source: string)
    requires ShortCopy.Topics(source) != []
    ensures var ts := ShortCopy.Topics(source);
      var es := Parse(ShortCopy.VoiceText(ts, ShortCopy.PickRoot));
      |es| == |ts| && forall i :: 0 <= i < |ts| ==> es[i].title == ts[i].title
  {
    var ts := ShortCopy.Topics(source);
    ShortCopy.TopicsWellFormed(source);
    forall i | 0 <= i < |ts|
      ensures ShortCopy.WellFormed(ts[i]) && NoLineBreak(ShortCopy.RootHead(ShortCopy.PickRoot(i)))
    {
      ShortCopy.PickRootNoLineBreak(i);
    }
    RoundTrip(ts, ShortCopy.PickRoot);
  }

  // ---------------------------------------------------------------------------
  // The mail

  /** `f"{idx}. {entry.title}"`, a blank line, the script and a blank line. */
  function BodyBlock(n: nat, e: Entry): seq<string>
  {
    [IntToString(n) + ". " + e.title, "", e.script, ""]
  }

  function BodyOf(batch: seq<Entry>): nat -> seq<string>
  {
    (i: nat) => if i < |batch| then BodyBlock(i + 1, batch[i]) else []
  }

  /** The body lines of a batch, entries numbered from 1. */
  function BodyLines(batch: seq<Entry>): seq<string>
  {
    Blocks(BodyOf(batch), |batch|)
  }

  function Titles(batch: seq<Entry>): (r: seq<string>)
    ensures |r| == |batch| && forall i :: 0 <= i < |batch| ==> r[i] == batch[i].title
  {
    seq(|batch|, i requires 0 <= i < |batch| => batch[i].title)
  }

  /** `build_message`: the subject names the batch's titles and the body lists the entries. */
  method BuildMessage(batch: seq<Entry>, prefix: string) returns (subject: string, body: string)
    ensures subject == Subject(prefix, Titles(batch))
    ensures body == Finish(BodyLines(batch))
  {
    var titles: seq<string> := [];
    var lines: seq<string> := [];
    for idx := 0 to |batch|
      invariant |titles| == idx && forall j :: 0 <= j < idx ==> titles[j] == batch[j].title
      invariant lines == Blocks(BodyOf(batch), idx)
    {
      var entry := batch[idx];
      titles := titles + [entry.title];
      assert BodyOf(batch)(idx) == BodyBlock(idx + 1, entry);
      assert Blocks(BodyOf(batch), idx + 1) == lines + BodyBlock(idx + 1, entry);
      lines := lines + [IntToString(idx + 1) + ". " + entry.title, "", entry.script, ""];
    }
    assert titles == Titles(batch);
    subject := Subject(prefix, titles);
    body := Strip(Unlines(lines)) + "\n";
  }

  lemma BodySizes(batch: seq<Entry>)
    ensures forall i :: 0 <= i < |batch| ==> |BodyOf(batch)(i)| == 4
  {
  }

  /** Four lines per entry. */
  lemma BodyLength(batch: seq<Entry>)
    ensures |BodyLines(batch)| == 4 * |batch|
  {
    BodySizes(batch);
    BlocksLength(BodyOf(batch), |batch|, 4);
  }

  /** Entry `j` fills lines `4j` to `4j + 4` of the body: its number and title, a blank line, its script, a blank line. */
  lemma BodyAt(batch: seq<Entry>, j: nat)
    requires j < |batch|
    ensures var ls := BodyLines(batch);
      |ls| == 4 * |batch| && ls[4 * j..4 * j + 4] == BodyBlock(j + 1, batch[j])
  {
    BodySizes(batch);
    BodyLength(batch);
    BlocksAt(BodyOf(batch), |batch|, 4, j);
  }

  /** For clean entries the body is the plain join of the lines and ends in one '\n'. */
  lemma BodyEnds(batch: seq<Entry>)
    requires batch != [] && Clean(batch[|batch| - 1])
    ensures var ls := BodyLines(batch);
      Finish(ls) == Unlines(ls) && EndsWithOneNewline(Finish(ls))
  {
    var n := |batch|;
    var f := BodyOf(batch);
    var ls := BodyLines(batch);
    var last := batch[n - 1];
    assert f(n - 1) == BodyBlock(n, last);
    BlocksEndClean(f, n);
    BodyAt(batch, 0);
    assert ls[0] == ls[0..4][0];
    FinishClean(ls);
  }

  /**
   * For clean entries the body is the plain join of the lines, ends in one '\n', and
   * holds entry `j` as lines `4j` to `4j + 4`: its number and title, a blank line, its
   * script, a blank line.
   */
  lemma BodyShape(batch: seq<Entry>)
    requires batch != [] && forall i :: 0 <= i < |batch| ==> Clean(batch[i])
    ensures var ls := BodyLines(batch);
      Finish(ls) == Unlines(ls) && EndsWithOneNewline(Finish(ls)) && |ls| == 4 * |batch|
      && forall j :: 0 <= j < |batch| ==> ls[4 * j..4 * j + 4] == BodyBlock(j + 1, batch[j])
  {
    BodyLength(batch);
    forall j | 0 <= j < |batch| ensures BodyLines(batch)[4 * j..4 * j + 4] == BodyBlock(j + 1, batch[j]) {
      BodyAt(batch, j);
    }
    BodyEnds(batch);
  }

  // ---------------------------------------------------------------------------
  // One run

  /**
   * `main` with the file contents and the outcome of the send given: the entries,
   * the batch at the stored cursor (`initial` when the state file is missing or
   * unreadable), the mail, and the state file written only after a send that returned.
   */
  method Run(source: Option<string>, state: Option<string>, initial: int, count: int,
             prefixArg: Option<string>, configPrefix: string, delivery: Delivery)
    returns (r: Result<Outcome>)
    ensures source.None? ==> r == Err(SourceNotFound)
    ensures source.Some? && Parse(source.value) == [] ==> r == Err(EmptyResult)
    ensures r.Ok? <==> source.Some? && Parse(source.value) != []
    ensures r.Ok? ==>
      var sel := Select(Parse(source.value), LoadState(state, initial), count).value;
      r.value == Outcome(Subject(Prefer(prefixArg, configPrefix), Titles(sel.batch)),
                         Finish(BodyLines(sel.batch)), Persist(delivery, sel.next))
  {
    var parsed := ParseVoiceovers(source);
    if parsed.Err? {
      return Err(parsed.error);
    }
    var entries := parsed.value;
    var cursor := LoadState(state, initial);
    var selection := ProduceBatch(entries, cursor, count);
    var sel := selection.value;
    var prefix := Prefer(prefixArg, configPrefix);
    var subject, body := BuildMessage(sel.batch, prefix);
    r := Ok(Outcome(subject, body, Persist(delivery, sel.next)));
  }

  /** A successful run's mail lists exactly the entries of its batch, in order. */
  lemma RunBody(entries: seq<Entry>, cursor: int, count: int)
    requires entries != [] && forall i :: 0 <= i < |entries| ==> Clean(entries[i])
    ensures var sel := Select(entries, cursor, count).value;
      var ls := BodyLines(sel.batch);
      Finish(ls) == Unlines(ls) && |ls| == 4 * |sel.batch|
      && forall j :: 0 <= j < |sel.batch| ==> ls[4 * j + 2] == sel.batch[j].script
  {
    var sel := Select(entries, cursor, count).value;
    SelectBounds(entries, cursor, count);
    var b := sel.batch;
    assert Clean(b[|b| - 1]) by {
      assert b[|b| - 1] == entries[(cursor % |entries| + (|b| - 1)) % |entries|];
    }
    BodyEnds(b);
    BodyLength(b);
    var ls := BodyLines(b);
    forall j | 0 <= j < |b| ensures ls[4 * j + 2] == b[j].script {
      BodyAt(b, j);
      assert ls[4 * j + 2] == ls[4 * j..4 * j + 4][2];
    }
  }

}
