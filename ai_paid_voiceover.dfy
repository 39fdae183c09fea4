/**
 * `send_ai_paid_hot_topics_voiceover.py`: reads a document of numbered `##` sections,
 * picks the next batch in rotation, and renders the mail. The section pattern
 * `^##\s*\d+\)\s*(?P<title>[^\n]+)\n(?P<body>.*?)(?=^##\s*\d+\)|\Z)` is read line by
 * line: a section opens at a heading line that is not the last line of the document,
 * and its body runs up to the next line that starts like a heading (a mark) or the end.
 */
module AiPaidVoiceover {
  import opened Common
  import opened Text
  import opened Rotation
  import opened Sender

  /** A `VoiceoverEntry`. */
  datatype Entry = Entry(title: string, body: string)

  /** `^##\s*\d+\)` at the start of a line: the index just past the ')'. */
  function MarkEnd(line: string): (r: Option<nat>)
    ensures r.Some? ==> 3 <= r.value <= |line| && StartsWith(line, "##")
  {
    if !StartsWith(line, "##") then None
    else
      var k := SkipSpace(line, 2);
      var d := DigitsFrom(line, k);
      if d > k && d < |line| && line[d] == ')' then Some(d + 1) else None
  }

  /** A line that starts like a heading: the lazy body stops in front of it. */
  predicate IsMark(line: string) { MarkEnd(line).Some? }

  /**
   * `^##\s*\d+\)\s*(?P<title>[^\n]+)` against one line: the stripped title, when
   * something other than whitespace follows the ')'.
   */
  function HeadingTitle(line: string): (r: Option<string>)
    ensures r.Some? ==> IsMark(line) && r.value != [] && Trimmed(r.value)
  {
    match MarkEnd(line)
    case None => None
    case Some(e) =>
      var k := SkipSpace(line, e);
      if k < |line| then
        var t := line[e..];
        assert t[k - e] == line[k];
        StripEmptyIffBlank(t);
        Some(Strip(t))
      else None
  }

  /** What the pattern sees in one line: the line itself, whether it is a mark, its heading title. */
  datatype Line = Line(text: string, mark: bool, title: Option<string>)

  function Classify(line: string): (l: Line)
    ensures l.text == line && l.mark == IsMark(line) && l.title == HeadingTitle(line)
  {
    Line(line, IsMark(line), HeadingTitle(line))
  }

  /** Each line of a document classified. */
  function ClassifyAll(ls: seq<string>): (r: seq<Line>)
    ensures |r| == |ls|
  {
    Map(Classify, ls)
  }

  /** The lines' text. */
  function Texts(ls: seq<Line>): (r: seq<string>)
    ensures |r| == |ls|
    decreases |ls|
  {
    if ls == [] then [] else [ls[0].text] + Texts(ls[1..])
  }

  /** The number of lines before the first mark, or all of them. */
  function NextMark(ls: seq<Line>): (k: nat)
    ensures k <= |ls| && (k < |ls| ==> ls[k].mark)
    ensures forall j :: 0 <= j < k ==> !ls[j].mark
    decreases |ls|
  {
    if ls == [] || ls[0].mark then 0 else 1 + NextMark(ls[1..])
  }

  /** A section starts at the first of these lines: a heading with a line break after it. */
  predicate Opens(ls: seq<Line>) {
    |ls| >= 2 && ls[0].title.Some?
  }

  /** One match of the pattern: the heading's stripped title and the lines of its body. */
  datatype Match = Match(title: string, body: seq<Line>)

  /** How many lines the scan moves past at the start of `ls`: a whole section, or one line. */
  function Span(ls: seq<Line>): (n: nat)
    requires ls != []
    ensures 1 <= n <= |ls|
  {
    if Opens(ls) then 1 + NextMark(ls[1..]) else 1
  }

  /** The section that starts at the first line, if one does. */
  function Found(ls: seq<Line>): (r: seq<Match>)
    requires ls != []
    ensures |r| <= 1 && (r != [] <==> Opens(ls))
  {
    if Opens(ls) then [Match(ls[0].title.value, ls[1..Span(ls)])] else []
  }

  /** `finditer` over the lines: the sections in order. */
  function Matches(ls: seq<Line>): seq<Match>
    decreases |ls|
  {
    if ls == [] then [] else Found(ls) + Matches(ls[Span(ls)..])
  }

  /**
   * The stripped `body` group. In front of a mark the group also holds the line break
   * before it; `strip` removes that one (`GroupStrip`).
   */
  function RawBody(m: Match): string
  {
    Strip(Unlines(Texts(m.body)))
  }

  /**
   * The entry a section gives: kept only when its title and stripped body are nonempty;
   * its body is then `tidy` of the stripped body, stripped. `tidy` stands for what the
   * script does between the two strips: the `口播稿` group's dedent and replacement and the
   * body's dedent.
   */
  function Kept(tidy: string -> string, m: Match): (r: seq<Entry>)
    ensures |r| <= 1 && (r != [] <==> m.title != [] && RawBody(m) != [])
    ensures r != [] ==> r[0] == Entry(m.title, Strip(tidy(RawBody(m))))
  {
    var raw := RawBody(m);
    if m.title != [] && raw != [] then [Entry(m.title, Strip(tidy(raw)))] else []
  }

  function KeptBy(tidy: string -> string): Match -> seq<Entry>
  {
    (m: Match) => Kept(tidy, m)
  }

  /** The entries kept from the sections, in order. */
  function Keep(tidy: string -> string, ms: seq<Match>): seq<Entry>
  {
    FlatMap(KeptBy(tidy), ms)
  }

  /** The entries found in a document. */
  function Parse(tidy: string -> string, text: string): seq<Entry>
  {
    Keep(tidy, Matches(ClassifyAll(Lines(text))))
  }

  /** A clean entry: a nonempty, stripped title and a stripped body. */
  predicate Clean(e: Entry) {
    e.title != [] && Trimmed(e.title) && Trimmed(e.body)
  }

  /** A section's title is a nonempty, stripped heading title. */
  lemma {:induction false} MatchesTitled(ls: seq<Line>)
    requires forall i :: 0 <= i < |ls| ==> (ls[i].title.Some? ==> ls[i].title.value != [] && Trimmed(ls[i].title.value))
    ensures forall i :: 0 <= i < |Matches(ls)| ==> Matches(ls)[i].title != [] && Trimmed(Matches(ls)[i].title)
    decreases |ls|
  {
    if ls != [] {
      MatchesTitled(ls[Span(ls)..]);
    }
  }

  /** Every kept entry is clean. */
  lemma {:induction false} KeepClean(tidy: string -> string, ms: seq<Match>)
    requires forall i :: 0 <= i < |ms| ==> Trimmed(ms[i].title)
    ensures forall i :: 0 <= i < |Keep(tidy, ms)| ==> Clean(Keep(tidy, ms)[i])
    decreases |ms|
  {
    if ms != [] {
      assert Keep(tidy, ms) == Kept(tidy, ms[0]) + Keep(tidy, ms[1..]);
      KeepClean(tidy, ms[1..]);
    }
  }

  /** Every entry of a document is clean. */
  lemma ParseClean(tidy: string -> string, text: string)
    ensures var es := Parse(tidy, text);
      forall i :: 0 <= i < |es| ==> Clean(es[i])
  {
    var ls := Lines(text);
    var ks := ClassifyAll(ls);
    forall i | 0 <= i < |ks| ensures ks[i].title.Some? ==> ks[i].title.value != [] && Trimmed(ks[i].title.value) {
      MapAt(Classify, ls, i);
    }
    MatchesTitled(ks);
    KeepClean(tidy, Matches(ks));
  }

  /**
   * `parse_voiceovers`: a missing file is an error, and so is a file without entries;
   * otherwise the entries in file order, each clean.
   */
  method ParseVoiceovers(tidy: string -> string, source: Option<string>) returns (r: Result<seq<Entry>>)
    ensures source.None? ==> r == Err(SourceNotFound)
    ensures source.Some? && Parse(tidy, source.value) == [] ==> r == Err(EmptyResult)
    ensures source.Some? && Parse(tidy, source.value) != [] ==> r == Ok(Parse(tidy, source.value))
    ensures r.Ok? ==> forall i :: 0 <= i < |r.value| ==> Clean(r.value[i])
  {
    if source.None? {
      return Err(SourceNotFound);
    }
    var entries := Collect(tidy, ClassifyAll(Lines(source.value)));
    ParseClean(tidy, source.value);
    if entries == [] {
      return Err(EmptyResult);
    }
    r := Ok(entries);
  }

  /** The `finditer` loop: each section's entry, skipped when its title or body is empty. */
  method Collect(tidy: string -> string, ks: seq<Line>) returns (entries: seq<Entry>)
    ensures entries == Keep(tidy, Matches(ks))
  {
    entries := [];
    var i := 0;
    while i < |ks|
      invariant 0 <= i <= |ks|
      invariant entries + Keep(tidy, Matches(ks[i..])) == Keep(tidy, Matches(ks))
      decreases |ks| - i
    {
      if Opens(ks[i..]) {
        var e := BodyEnd(ks, i + 1);
        var m := Match(ks[i].title.value, ks[i + 1..e]);
        ParseStep(ks, i, e);
        KeepStep(tidy, m, Matches(ks[e..]));
        var raw := Strip(Unlines(Texts(m.body)));
        var kept: seq<Entry> := [];
        if m.title != [] && raw != [] {
          kept := [Entry(m.title, Strip(tidy(raw)))];
        }
        Regroup(entries, kept, Keep(tidy, Matches(ks[e..])));
        entries := entries + kept;
        i := e;
      } else {
        SkipStep(ks, i);
        i := i + 1;
      }
    }
    assert ks[i..] == [];
    assert Matches([]) == [] && Keep(tidy, []) == [];
  }

  /** The lazy body: the index of the first mark at or after `start`, or the end. */
  method BodyEnd(ks: seq<Line>, start: nat) returns (e: nat)
    requires start <= |ks|
    ensures start <= e <= |ks| && (e == |ks| || ks[e].mark)
    ensures e - start + NextMark(ks[e..]) == NextMark(ks[start..])
  {
    e := start;
    while e < |ks| && !ks[e].mark
      invariant start <= e <= |ks|
      invariant e - start + NextMark(ks[e..]) == NextMark(ks[start..])
      decreases |ks| - e
    {
      assert ks[e..][1..] == ks[e + 1..];
      e := e + 1;
    }
  }

  /** One step of the scan: the section at `i`, then the sections after it. */
  lemma ParseStep(ks: seq<Line>, i: nat, e: nat)
    requires i < |ks| && Opens(ks[i..]) && i + 1 <= e <= |ks|
    requires e - (i + 1) + NextMark(ks[e..]) == NextMark(ks[i + 1..])
    requires e == |ks| || ks[e].mark
    ensures Matches(ks[i..]) == [Match(ks[i].title.value, ks[i + 1..e])] + Matches(ks[e..])
  {
    var s := ks[i..];
    assert s[1..] == ks[i + 1..];
    assert NextMark(ks[e..]) == 0;
    assert Span(s) == e - i;
    assert Matches(s) == Found(s) + Matches(s[Span(s)..]);
    assert s[1..e - i] == ks[i + 1..e];
    assert Found(s) == [Match(ks[i].title.value, ks[i + 1..e])];
    assert s[e - i..] == ks[e..];
  }

  /** Keeping is section by section. */
  lemma KeepStep(tidy: string -> string, m: Match, ms: seq<Match>)
    ensures Keep(tidy, [m] + ms) == Kept(tidy, m) + Keep(tidy, ms)
  {
    assert ([m] + ms)[0] == m;
    assert ([m] + ms)[1..] == ms;
  }

  /** A line that opens no section is passed over. */
  lemma SkipStep(ks: seq<Line>, i: nat)
    requires i < |ks| && !Opens(ks[i..])
    ensures Matches(ks[i..]) == Matches(ks[i + 1..])
  {
    var s := ks[i..];
    assert s[1..] == ks[i + 1..];
    assert Found(s) + Matches(s[1..]) == Matches(s[1..]);
  }

  // ---------------------------------------------------------------------------
  // Documents made of sections

  lemma {:induction false} NextMarkAppend(a: seq<Line>, b: seq<Line>)
    requires b == [] || b[0].mark
    ensures NextMark(a + b) == NextMark(a)
    decreases |a|
  {
    if a == [] {
      assert a + b == b;
    } else if !a[0].mark {
      assert (a + b)[1..] == a[1..] + b;
      NextMarkAppend(a[1..], b);
    }
  }

  /** With no heading on its own at the end of `a`, the first step of the scan does not look past `a`. */
  lemma StepAppend(a: seq<Line>, b: seq<Line>)
    requires a != [] && a[|a| - 1].title.None?
    requires b == [] || b[0].mark
    ensures Span(a + b) == Span(a) && Found(a + b) == Found(a)
  {
    var ab := a + b;
    assert ab[0] == a[0];
    assert Opens(ab) == Opens(a);
    if Opens(a) {
      assert ab[1..] == a[1..] + b;
      NextMarkAppend(a[1..], b);
      assert ab[1..Span(a)] == a[1..Span(a)];
    }
  }

  /** A section never reaches past a mark, so lines that end where a mark begins parse on their own. */
  lemma {:induction false} MatchesAppend(a: seq<Line>, b: seq<Line>)
    requires a == [] || a[|a| - 1].title.None?
    requires b == [] || b[0].mark
    ensures Matches(a + b) == Matches(a) + Matches(b)
    decreases |a|
  {
    if a == [] {
      assert a + b == b;
    } else {
      var n := Span(a);
      StepAppend(a, b);
      assert (a + b)[n..] == a[n..] + b;
      MatchesAppend(a[n..], b);
      Regroup(Found(a), Matches(a[n..]), Matches(b));
    }
  }

  /** Lines none of which is a heading hold no section. */
  lemma {:induction false} NoHeadingNoMatch(ls: seq<Line>)
    requires forall i :: 0 <= i < |ls| ==> ls[i].title.None?
    ensures Matches(ls) == []
    decreases |ls|
  {
    if ls != [] {
      NoHeadingNoMatch(ls[1..]);
    }
  }

  /** Lines before the first heading never affect the result. */
  lemma HeaderIgnored(hd: seq<Line>, ls: seq<Line>)
    requires forall i :: 0 <= i < |hd| ==> hd[i].title.None?
    requires ls == [] || ls[0].mark
    ensures Matches(hd + ls) == Matches(ls)
  {
    NoHeadingNoMatch(hd);
    MatchesAppend(hd, ls);
    assert [] + Matches(ls) == Matches(ls);
  }

  /** A block of classified lines that starts with a mark and does not end with a heading. */
  predicate Closed(c: seq<Line>) {
    c != [] && c[0].mark && c[|c| - 1].title.None?
  }

  /** Closed blocks one after another are closed. */
  lemma ClosedAppend(a: seq<Line>, b: seq<Line>)
    requires a == [] || Closed(a)
    requires Closed(b)
    ensures Closed(a + b)
  {
    assert (a + b)[|a + b| - 1] == b[|b| - 1];
    if a == [] {
      assert a + b == b;
    } else {
      assert (a + b)[0] == a[0];
    }
  }

  /** Lines made of closed blocks match block by block. */
  lemma {:induction false} MatchesBlocks(f: nat -> seq<Line>, g: nat -> seq<Match>, k: nat)
    requires forall i :: 0 <= i < k ==> Closed(f(i)) && Matches(f(i)) == g(i)
    ensures Matches(Blocks(f, k)) == Blocks(g, k)
    ensures k > 0 ==> Closed(Blocks(f, k))
    decreases k
  {
    if k == 0 {
      assert Blocks(f, k) == [];
    } else {
      MatchesBlocks(f, g, k - 1);
      var a := Blocks(f, k - 1);
      var b := f(k - 1);
      assert Blocks(f, k) == a + b;
      assert Closed(b) && Matches(b) == g(k - 1);
      assert a == [] || Closed(a);
      MatchesAppend(a, b);
      ClosedAppend(a, b);
    }
  }

  function ClassOf(d: nat -> seq<string>): nat -> seq<Line>
  {
    (i: nat) => Map(Classify, d(i))
  }

  function MatchOf(c: nat -> seq<Line>): nat -> seq<Match>
  {
    (i: nat) => Matches(c(i))
  }

  /** Lines none of which is a mark run to the end of the block. */
  lemma {:induction false} NoMarkToEnd(ls: seq<Line>)
    requires forall j :: 0 <= j < |ls| ==> !ls[j].mark
    ensures NextMark(ls) == |ls|
    decreases |ls|
  {
    if ls != [] {
      NoMarkToEnd(ls[1..]);
    }
  }

  /** Classifying keeps the text. */
  lemma {:induction false} TextsClassified(ls: seq<string>)
    ensures Texts(ClassifyAll(ls)) == ls
    decreases |ls|
  {
    if ls != [] {
      TextsClassified(ls[1..]);
      assert ClassifyAll(ls)[1..] == ClassifyAll(ls[1..]);
    }
  }

  /** A heading and body lines without a mark are one section. */
  lemma OneMatch(head: string, title: string, body: seq<string>)
    requires HeadingTitle(head) == Some(title)
    requires body != [] && forall j :: 0 <= j < |body| ==> !IsMark(body[j])
    ensures var ks := ClassifyAll([head] + body);
      Closed(ks) && Matches(ks) == [Match(title, ClassifyAll(body))]
  {
    var ls := [head] + body;
    var ks := ClassifyAll(ls);
    var cb := ClassifyAll(body);
    assert ls[1..] == body;
    assert ks == [Classify(head)] + cb;
    forall j | 0 <= j < |cb| ensures !cb[j].mark && cb[j].title.None? {
      MapAt(Classify, body, j);
    }
    assert ks[1..] == cb && ks[|ks| - 1] == cb[|cb| - 1];
    NoMarkToEnd(cb);
    assert ks[0] == Classify(head) && ks[0].title == Some(title);
    assert Opens(ks);
    assert Span(ks) == |ks|;
    assert ks[1..Span(ks)] == cb;
    assert Found(ks) == [Match(title, cb)];
    assert ks[|ks|..] == [];
    assert Matches(ks) == Found(ks) + Matches([]);
  }

  /** That section keeps the entry its title and body spell. */
  lemma OneEntry(tidy: string -> string, title: string, body: seq<string>)
    requires title != [] && Strip(Unlines(body)) != []
    ensures Keep(tidy, [Match(title, ClassifyAll(body))]) == [Entry(title, Strip(tidy(Strip(Unlines(body)))))]
  {
    var m := Match(title, ClassifyAll(body));
    TextsClassified(body);
    assert RawBody(m) == Strip(Unlines(body));
    KeepStep(tidy, m, []);
    assert [m] + [] == [m];
  }

  /** Block `i` of a document: heading `i`, then body `i`. */
  function ShapeOf(heads: seq<string>, bodies: seq<seq<string>>): nat -> seq<string>
  {
    (i: nat) => if i < |heads| && i < |bodies| then [heads[i]] + bodies[i] else []
  }

  /** The entry block `i` spells. */
  function EntryOf(tidy: string -> string, titles: seq<string>, bodies: seq<seq<string>>): nat -> seq<Entry>
  {
    (i: nat) => if i < |titles| && i < |bodies| then [Entry(titles[i], Strip(tidy(Strip(Unlines(bodies[i])))))] else []
  }

  /**
   * The headings carry the titles; each body has a line, no line of it is a mark, and it
   * is not all whitespace.
   */
  predicate Spelled(heads: seq<string>, titles: seq<string>, bodies: seq<seq<string>>)
  {
    |heads| == |titles| == |bodies|
    && forall i :: 0 <= i < |heads| ==>
         HeadingTitle(heads[i]) == Some(titles[i]) && bodies[i] != [] && Strip(Unlines(bodies[i])) != []
         && forall j :: 0 <= j < |bodies[i]| ==> !IsMark(bodies[i][j])
  }

  /** Each block of a well-spelled document parses, on its own, to its entry. */
  lemma BlockParses(tidy: string -> string, heads: seq<string>, titles: seq<string>, bodies: seq<seq<string>>, i: nat)
    requires Spelled(heads, titles, bodies) && i < |heads|
    ensures var c := ClassifyAll(ShapeOf(heads, bodies)(i));
      Closed(c) && Keep(tidy, Matches(c)) == EntryOf(tidy, titles, bodies)(i)
    ensures |EntryOf(tidy, titles, bodies)(i)| == 1
    ensures EntryOf(tidy, titles, bodies)(i)[0] == Entry(titles[i], Strip(tidy(Strip(Unlines(bodies[i])))))
  {
    var d := ShapeOf(heads, bodies);
    assert d(i) == [heads[i]] + bodies[i];
    assert EntryOf(tidy, titles, bodies)(i) == [Entry(titles[i], Strip(tidy(Strip(Unlines(bodies[i])))))];
    OneMatch(heads[i], titles[i], bodies[i]);
    OneEntry(tidy, titles[i], bodies[i]);
  }

  /** A header without headings followed by closed blocks parses block by block. */
  lemma DocumentParses(tidy: string -> string, hd: seq<string>, d: nat -> seq<string>, h: nat -> seq<Entry>, n: nat)
    requires forall i :: 0 <= i < |hd| ==> HeadingTitle(hd[i]).None?
    requires forall i :: 0 <= i < n ==> Closed(ClassifyAll(d(i))) && Keep(tidy, Matches(ClassifyAll(d(i)))) == h(i)
    ensures Keep(tidy, Matches(ClassifyAll(hd + Blocks(d, n)))) == Blocks(h, n)
  {
    var c := ClassOf(d);
    var g := MatchOf(c);
    forall i | 0 <= i < n
      ensures Map(Classify, d(i)) == c(i) && Closed(c(i)) && Matches(c(i)) == g(i)
      ensures FlatMap(KeptBy(tidy), g(i)) == h(i)
    {
      assert c(i) == ClassifyAll(d(i));
      assert g(i) == Matches(c(i));
    }
    var ch := ClassifyAll(hd);
    forall i | 0 <= i < |ch| ensures ch[i].title.None? {
      MapAt(Classify, hd, i);
    }
    MapAppend(Classify, hd, Blocks(d, n));
    MapBlocks(Classify, d, c, n);
    MatchesAfterHeader(ch, c, n);
    FlatMapBlocks(KeptBy(tidy), g, h, n);
  }

  /** A header without headings followed by closed blocks matches block by block. */
  lemma MatchesAfterHeader(hd: seq<Line>, c: nat -> seq<Line>, n: nat)
    requires forall i :: 0 <= i < |hd| ==> hd[i].title.None?
    requires forall i :: 0 <= i < n ==> Closed(c(i))
    ensures Matches(hd + Blocks(c, n)) == Blocks(MatchOf(c), n)
  {
    var g := MatchOf(c);
    forall i | 0 <= i < n ensures Closed(c(i)) && Matches(c(i)) == g(i) {
      assert g(i) == Matches(c(i));
    }
    MatchesBlocks(c, g, n);
    if n == 0 {
      assert Blocks(c, n) == [];
    }
    HeaderIgnored(hd, Blocks(c, n));
  }

  /**
   * A text whose lines are a header without headings and then well-spelled blocks
   * reads back block by block: entry `i` has title `i` and, as its body, body `i`
   * stripped, tidied and stripped.
   */
  lemma ReadBack(tidy: string -> string, text: string, hd: seq<string>,
                 heads: seq<string>, titles: seq<string>, bodies: seq<seq<string>>)
    requires Spelled(heads, titles, bodies)
    requires Lines(text) == hd + Blocks(ShapeOf(heads, bodies), |heads|)
    requires forall i :: 0 <= i < |hd| ==> HeadingTitle(hd[i]).None?
    ensures var es := Parse(tidy, text);
      |es| == |heads| && forall i :: 0 <= i < |heads| ==>
        es[i] == Entry(titles[i], Strip(tidy(Strip(Unlines(bodies[i])))))
  {
    var n := |heads|;
    var d := ShapeOf(heads, bodies);
    var h := EntryOf(tidy, titles, bodies);
    forall i | 0 <= i < n
      ensures Closed(ClassifyAll(d(i))) && Keep(tidy, Matches(ClassifyAll(d(i)))) == h(i)
      ensures |h(i)| == 1 && h(i)[0] == Entry(titles[i], Strip(tidy(Strip(Unlines(bodies[i])))))
    {
      BlockParses(tidy, heads, titles, bodies, i);
    }
    DocumentParses(tidy, hd, d, h, n);
    BlocksSingle(h, n);
  }

  /** The document a header and well-spelled sections make, each line without a line break. */
  lemma SectionsRoundTrip(tidy: string -> string, hd: seq<string>,
                          heads: seq<string>, titles: seq<string>, bodies: seq<seq<string>>)
    requires Spelled(heads, titles, bodies) && heads != []
    requires forall i :: 0 <= i < |hd| ==> HeadingTitle(hd[i]).None? && NoLineBreak(hd[i])
    requires forall i :: 0 <= i < |heads| ==> AllLines(ShapeOf(heads, bodies)(i))
    ensures var es := Parse(tidy, Unlines(hd + Blocks(ShapeOf(heads, bodies), |heads|)));
      |es| == |heads| && forall i :: 0 <= i < |heads| ==>
        es[i] == Entry(titles[i], Strip(tidy(Strip(Unlines(bodies[i])))))
  {
    var d := ShapeOf(heads, bodies);
    var ls := hd + Blocks(d, |heads|);
    BlocksAllLines(d, |heads|);
    AllLinesAppend(hd, Blocks(d, |heads|));
    assert d(0) == [heads[0]] + bodies[0];
    BlocksFirst(d, |heads|);
    SplitJoin(ls, '\n');
    ReadBack(tidy, Unlines(ls), hd, heads, titles, bodies);
  }

  // ---------------------------------------------------------------------------
  // The mail

  /** `f"## {entry.title}"`, a blank line, the body and a blank line. */
  function BodyBlock(e: Entry): seq<string>
  {
    ["## " + e.title, "", e.body, ""]
  }

  function BodyOf(batch: seq<Entry>): nat -> seq<string>
  {
    (i: nat) => if i < |batch| then BodyBlock(batch[i]) else []
  }

  /** The body lines of a batch: no summary line, one block per entry. */
  function BodyLines(batch: seq<Entry>): seq<string>
  {
    Blocks(BodyOf(batch), |batch|)
  }

  function Titles(batch: seq<Entry>): (r: seq<string>)
    ensures |r| == |batch| && forall i :: 0 <= i < |batch| ==> r[i] == batch[i].title
  {
    seq(|batch|, i requires 0 <= i < |batch| => batch[i].title)
  }

  /** `build_message`: the subject names the batch's titles and the body lists the entries. */
  method BuildMessage(batch: seq<Entry>, prefix: string) returns (subject: string, body: string)
    ensures subject == Subject(prefix, Titles(batch))
    ensures body == Finish(BodyLines(batch))
  {
    var lines: seq<string> := [];
    for idx := 0 to |batch|
      invariant lines == Blocks(BodyOf(batch), idx)
    {
      var entry := batch[idx];
      assert BodyOf(batch)(idx) == BodyBlock(entry);
      assert Blocks(BodyOf(batch), idx + 1) == lines + BodyBlock(entry);
      lines := lines + ["## " + entry.title, "", entry.body, ""];
    }
    subject := Subject(prefix, Titles(batch));
    body := Strip(Unlines(lines)) + "\n";
  }

  lemma BodySizes(batch: seq<Entry>)
    ensures forall i :: 0 <= i < |batch| ==> |BodyOf(batch)(i)| == 4
  {
  }

  /** Four lines per entry. */
  lemma BodyLength(batch: seq<Entry>)
    ensures |BodyLines(batch)| == 4 * |batch|
  {
    BodySizes(batch);
    BlocksLength(BodyOf(batch), |batch|, 4);
  }

  /** Entry `j` fills lines `4j` to `4j + 4` of the body: its heading, a blank line, its body, a blank line. */
  lemma BodyAt(batch: seq<Entry>, j: nat)
    requires j < |batch|
    ensures var ls := BodyLines(batch);
      |ls| == 4 * |batch| && ls[4 * j..4 * j + 4] == BodyBlock(batch[j])
  {
    BodySizes(batch);
    BodyLength(batch);
    BlocksAt(BodyOf(batch), |batch|, 4, j);
  }

  /**
   * The body of a nonempty batch ends in exactly one '\n'; when the last entry's body
   * is nonempty and stripped it is the plain join of the lines.
   */
  lemma BodyEnds(batch: seq<Entry>)
    requires batch != []
    ensures EndsWithOneNewline(Finish(BodyLines(batch)))
    ensures var last := batch[|batch| - 1];
      last.body != [] && Trimmed(last.body) ==> Finish(BodyLines(batch)) == Unlines(BodyLines(batch))
  {
    var n := |batch|;
    var f := BodyOf(batch);
    var ls := BodyLines(batch);
    BodyAt(batch, 0);
    assert ls[0] == ls[0..4][0] == "## " + batch[0].title;
    assert ls[0][0] == '#';
    VisibleNotSpace('#');
    FirstOfJoin(ls);
    assert Unlines(ls)[0] == '#';
    StripEmptyIffBlank(Unlines(ls));
    FinishEnds(ls);
    var last := batch[n - 1];
    if last.body != [] && Trimmed(last.body) {
      assert f(n - 1) == BodyBlock(last);
      BlocksEndClean(f, n);
      FinishClean(ls);
    }
  }

  // ---------------------------------------------------------------------------
  // One run

  /**
   * `main` with the file contents and the outcome of the send given: the entries,
   * the batch at the stored cursor (`initial` when the state file is missing or
   * unreadable), the mail, and the state file written only after a send that returned.
   */
  method Run(tidy: string -> string, source: Option<string>, state: Option<string>, initial: int, count: int,
             prefixArg: Option<string>, configPrefix: string, delivery: Delivery)
    returns (r: Result<Outcome>)
    ensures source.None? ==> r == Err(SourceNotFound)
    ensures source.Some? && Parse(tidy, source.value) == [] ==> r == Err(EmptyResult)
    ensures r.Ok? <==> source.Some? && Parse(tidy, source.value) != []
    ensures r.Ok? ==>
      var sel := Select(Parse(tidy, source.value), LoadState(state, initial), count).value;
      r.value == Outcome(Subject(Prefer(prefixArg, configPrefix), Titles(sel.batch)),
                         Finish(BodyLines(sel.batch)), Persist(delivery, sel.next))
  {
    var parsed := ParseVoiceovers(tidy, source);
    if parsed.Err? {
      return Err(parsed.error);
    }
    var entries := parsed.value;
    var cursor := LoadState(state, initial);
    var selection := ProduceBatch(entries, cursor, count);
    var sel := selection.value;
    var prefix := Prefer(prefixArg, configPrefix);
    var subject, body := BuildMessage(sel.batch, prefix);
    r := Ok(Outcome(subject, body, Persist(delivery, sel.next)));
  }

  /** A successful run's mail lists exactly the entries of its batch, in order, and ends in one '\n'. */
  lemma RunBody(entries: seq<Entry>, cursor: int, count: int)
    requires entries != []
    ensures var sel := Select(entries, cursor, count).value;
      var ls := BodyLines(sel.batch);
      EndsWithOneNewline(Finish(ls)) && |ls| == 4 * |sel.batch|
      && forall j :: 0 <= j < |sel.batch| ==>
           ls[4 * j] == "## " + sel.batch[j].title && ls[4 * j + 2] == sel.batch[j].body
  {
    var sel := Select(entries, cursor, count).value;
    SelectBounds(entries, cursor, count);
    var b := sel.batch;
    BodyEnds(b);
    BodyLength(b);
    var ls := BodyLines(b);
    forall j | 0 <= j < |b| ensures ls[4 * j] == "## " + b[j].title && ls[4 * j + 2] == b[j].body {
      BodyAt(b, j);
      assert ls[4 * j] == ls[4 * j..4 * j + 4][0];
      assert ls[4 * j + 2] == ls[4 * j..4 * j + 4][2];
    }
  }
}
