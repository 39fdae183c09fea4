/**
 * `send_fitness_snippet.py`: the `##` sections of the fitness file, one per run, in
 * file order; the state file holds the index of the section sent last.
 *
 * The pattern `(?P<heading>##\s*[^\n]+)\s*\n(?P<body>.*?)(?=\n##\s*[^\n]+|\Z)` is read
 * over the lines of the file: see `SectionAt`.
 */
module FitnessSnippet {
  import opened Common
  import opened Text
  import opened Rotation
  import opened Sender

  /** One match: its two groups as matched, before `strip`. */
  datatype Match = Match(heading: string, body: string)

  /** A match and the line the search resumes at after it. */
  datatype Found = Found(m: Match, end: nat)

  /** A kept section: the stripped heading (still starting with "##") and the stripped body. */
  datatype Section = Section(heading: string, body: string)

  /** A line the lookahead `(?=\n##\s*[^\n]+)` stops in front of. */
  predicate Fence(line: string) { StartsWith(line, "##") && |line| > 2 }

  /**
   * Where the `heading` group starts on this line: the first "##", when something visible
   * follows it on the line. The pattern is not anchored, so the "##" may stand anywhere.
   */
  function HeadAt(line: string): (r: Option<nat>)
    ensures r.Some? ==> OccursAt(line, "##", r.value) && NotBlank(line[r.value + 2..])
    ensures r.Some? ==> forall j :: 0 <= j < r.value ==> !OccursAt(line, "##", j)
    ensures r.None? ==> forall j :: 0 <= j <= |line| - 2 && OccursAt(line, "##", j) ==> IsBlank(line[j + 2..])
  {
    match FindFrom(line, "##", 0)
    case None => None
    case Some(p) =>
      if IsBlank(line[p + 2..]) then
        LaterPairsBlank(line, p);
        None
      else Some(p)
  }

  /** After a "##" followed by whitespace only, any later "##" is followed by whitespace only too. */
  lemma LaterPairsBlank(line: string, p: nat)
    requires OccursAt(line, "##", p) && IsBlank(line[p + 2..])
    ensures forall j :: p <= j <= |line| - 2 && OccursAt(line, "##", j) ==> IsBlank(line[j + 2..])
  {
    forall j | p <= j <= |line| - 2 && OccursAt(line, "##", j) ensures IsBlank(line[j + 2..]) {
      if j > p {
        assert line[j + 1] == line[j..j + 2][1] == '#';
        assert line[j + 1] == line[p + 2..][j + 1 - p - 2];
        VisibleNotSpace('#');
        assert false;
      }
    }
  }

  /**
   * The match whose heading is on line `h`, if one is:
   * - the `heading` group runs from the "##" to the end of the line, and a line must follow;
   * - `body` starts on the first line after it that is not blank (the last line when
   *   there is none) and ends before the next fence line after that, or at the end of
   *   the file; the search goes on there.
   */
  function SectionAt(ls: seq<string>, h: nat): (r: Option<Found>)
    requires h < |ls|
    ensures r.Some? ==> h < r.value.end <= |ls|
  {
    match HeadAt(ls[h])
    case None => None
    case Some(p) =>
      if h + 1 < |ls| then
        var q := FirstFrom(ls, h + 1, NotBlank);
        var b := if q < |ls| then q else |ls| - 1;
        var m := FirstFrom(ls, b + 1, Fence);
        Some(Found(Match(ls[h][p..], Unlines(ls[b..m])), m))
      else None
  }

  /** `finditer` from line `i` on: a match where one starts, else the next line. */
  function Scan(ls: seq<string>, i: nat): seq<Match>
    decreases |ls| - i
  {
    if i >= |ls| then []
    else match SectionAt(ls, i)
      case Some(f) => [f.m] + Scan(ls, f.end)
      case None => Scan(ls, i + 1)
  }

  /** `if heading and body`: a match gives a section only when both stripped groups are nonempty. */
  function Kept(m: Match): (r: seq<Section>)
    ensures |r| <= 1
    ensures r != [] <==> Strip(m.heading) != [] && Strip(m.body) != []
    ensures r != [] ==> r[0] == Section(Strip(m.heading), Strip(m.body))
  {
    var heading := Strip(m.heading);
    var body := Strip(m.body);
    if heading != [] && body != [] then [Section(heading, body)] else []
  }

  function Keep(ms: seq<Match>): seq<Section>
  {
    FlatMap(Kept, ms)
  }

  /** The sections of a fitness file. */
  function Parse(text: string): seq<Section>
  {
    Keep(Scan(Lines(text), 0))
  }

  /** A clean section: a nonempty, stripped heading and body. */
  predicate Clean(s: Section) {
    s.heading != [] && Trimmed(s.heading) && s.body != [] && Trimmed(s.body)
  }

  lemma {:induction false} KeepClean(ms: seq<Match>)
    ensures forall i :: 0 <= i < |Keep(ms)| ==> Clean(Keep(ms)[i])
    decreases |ms|
  {
    if ms != [] {
      assert Keep(ms) == Kept(ms[0]) + Keep(ms[1..]);
      KeepClean(ms[1..]);
    }
  }

  lemma KeepSnoc(ms: seq<Match>, i: nat)
    requires i < |ms|
    ensures Keep(ms[..i + 1]) == Keep(ms[..i]) + Kept(ms[i])
  {
    assert ms[..i + 1] == ms[..i] + [ms[i]];
    FlatMapAppend(Kept, ms[..i], [ms[i]]);
    assert [ms[i]][1..] == [];
    assert FlatMap(Kept, [ms[i]]) == Kept(ms[i]) + FlatMap(Kept, []);
  }

  /** The `finditer` loop of `load_sections`: each match's stripped groups, skipped when one is empty. */
  method Collect(ms: seq<Match>) returns (sections: seq<Section>)
    ensures sections == Keep(ms)
  {
    sections := [];
    for i := 0 to |ms|
      invariant sections == Keep(ms[..i])
    {
      var heading := Strip(ms[i].heading);
      var body := Strip(ms[i].body);
      KeepSnoc(ms, i);
      if heading != [] && body != [] {
        sections := sections + [Section(heading, body)];
      }
    }
    assert ms[..|ms|] == ms;
  }

  /**
   * `load_sections`: an unreadable file is an error, and so is a file without sections;
   * otherwise the sections in file order, each clean.
   */
  method LoadSections(source: Option<string>) returns (r: Result<seq<Section>>)
    ensures source.None? ==> r == Err(SourceNotFound)
    ensures source.Some? && Parse(source.value) == [] ==> r == Err(EmptyResult)
    ensures source.Some? && Parse(source.value) != [] ==> r == Ok(Parse(source.value))
    ensures r.Ok? ==> forall i :: 0 <= i < |r.value| ==> Clean(r.value[i])
  {
    if source.None? {
      return Err(SourceNotFound);
    }
    var sections := Collect(Scan(Lines(source.value), 0));
    KeepClean(Scan(Lines(source.value), 0));
    if sections == [] {
      return Err(EmptyResult);
    }
    r := Ok(sections);
  }

  // ---------------------------------------------------------------------------
  // Reading back a laid-out file

  /** Four lines: the heading, a blank line, the body, a blank line. */
  function Block(heading: string, body: string): (r: seq<string>)
    ensures |r| == 4 && r[0] == heading
  {
    [heading, "", body, ""]
  }

  function ShapeOf(heads: seq<string>, bodies: seq<string>): nat -> seq<string>
  {
    (i: nat) => if i < |heads| && i < |bodies| then Block(heads[i], bodies[i]) else []
  }

  /** A heading line as the pattern reads it whole: "##" at its start, then something visible. */
  predicate HeadLine(line: string) {
    StartsWith(line, "##") && NotBlank(line[2..])
  }

  lemma HeadLineReads(line: string)
    requires HeadLine(line)
    ensures HeadAt(line) == Some(0) && Fence(line)
  {
    assert OccursAt(line, "##", 0);
    FindFirst(line, "##", 0, 0);
  }

  /** Lines `x` to `x + 4` are such a block, and the next line, if any, is a heading line. */
  predicate Laid(ls: seq<string>, x: nat, heading: string, body: string)
  {
    x + 4 <= |ls| && ls[x..x + 4] == Block(heading, body) && (x + 4 < |ls| ==> HeadLine(ls[x + 4]))
  }

  predicate LaidFrom(ls: seq<string>, base: nat, heads: seq<string>, bodies: seq<string>)
  {
    |heads| == |bodies| && |ls| == base + 4 * |heads|
    && forall i :: 0 <= i < |heads| ==> Laid(ls, base + 4 * i, heads[i], bodies[i])
  }

  /** Heading lines and visible bodies. */
  predicate Spelled(heads: seq<string>, bodies: seq<string>)
  {
    |heads| == |bodies| && forall i :: 0 <= i < |heads| ==> HeadLine(heads[i]) && NotBlank(bodies[i])
  }

  function SpelledSections(heads: seq<string>, bodies: seq<string>): (r: seq<Section>)
    requires |heads| == |bodies|
    ensures |r| == |heads|
  {
    seq(|heads|, i requires 0 <= i < |heads| => Section(Strip(heads[i]), Strip(bodies[i])))
  }

  /** A laid-out block is one match, and the search goes on right after it. */
  lemma LaidSection(ls: seq<string>, x: nat, heading: string, body: string)
    requires Laid(ls, x, heading, body) && HeadLine(heading) && NotBlank(body)
    ensures SectionAt(ls, x) == Some(Found(Match(heading, Unlines([body, ""])), x + 4))
  {
    var w := ls[x..x + 4];
    assert ls[x] == w[0] && ls[x + 1] == w[1] && ls[x + 2] == w[2] && ls[x + 3] == w[3];
    assert ls[x + 2..x + 4] == [body, ""];
    HeadLineReads(heading);
    assert !NotBlank("") && !Fence("");
    FirstAt(ls, x + 1, NotBlank, x + 2);
    if x + 4 < |ls| {
      HeadLineReads(ls[x + 4]);
    }
    FirstAt(ls, x + 3, Fence, x + 4);
    assert heading[0..] == heading;
  }

  lemma SectionStep(ls: seq<string>, base: nat, heads: seq<string>, bodies: seq<string>, i: nat)
    requires Spelled(heads, bodies) && LaidFrom(ls, base, heads, bodies) && i < |heads|
    ensures var m := Match(heads[i], Unlines([bodies[i], ""]));
      Scan(ls, base + 4 * i) == [m] + Scan(ls, base + 4 * (i + 1))
      && Kept(m) == [SpelledSections(heads, bodies)[i]]
  {
    var x := base + 4 * i;
    assert Laid(ls, x, heads[i], bodies[i]);
    LaidSection(ls, x, heads[i], bodies[i]);
    assert x + 4 == base + 4 * (i + 1);
    LineStrip(bodies[i]);
    StripEmptyIffBlank(heads[i]);
    StripEmptyIffBlank(bodies[i]);
  }

  lemma KeepStep(s: seq<Match>, m: Match, rest: seq<Match>, ss: seq<Section>, i: nat)
    requires i < |ss| && s == [m] + rest && Kept(m) == [ss[i]] && Keep(rest) == ss[i + 1..]
    ensures Keep(s) == ss[i..]
  {
    assert s[0] == m && s[1..] == rest;
    assert ss[i..] == [ss[i]] + ss[i + 1..];
  }

  lemma {:induction false} ScanSections(ls: seq<string>, base: nat, heads: seq<string>, bodies: seq<string>, i: nat)
    requires Spelled(heads, bodies) && LaidFrom(ls, base, heads, bodies) && i <= |heads|
    ensures Keep(Scan(ls, base + 4 * i)) == SpelledSections(heads, bodies)[i..]
    decreases |heads| - i
  {
    if i < |heads| {
      var m := Match(heads[i], Unlines([bodies[i], ""]));
      var rest := Scan(ls, base + 4 * (i + 1));
      SectionStep(ls, base, heads, bodies, i);
      ScanSections(ls, base, heads, bodies, i + 1);
      KeepStep(Scan(ls, base + 4 * i), m, rest, SpelledSections(heads, bodies), i);
    } else {
      assert Scan(ls, base + 4 * i) == [];
    }
  }

  /** Lines without a heading are passed over. */
  lemma {:induction false} HeaderSkipped(ls: seq<string>, x: nat, n: nat)
    requires x <= n <= |ls|
    requires forall i :: x <= i < n ==> HeadAt(ls[i]).None?
    ensures Scan(ls, x) == Scan(ls, n)
    decreases n - x
  {
    if x < n {
      assert SectionAt(ls, x) == None;
      assert Scan(ls, x) == Scan(ls, x + 1);
      HeaderSkipped(ls, x + 1, n);
    }
  }

  /** Block `i` after a header sits at line `|hd| + 4 i`. */
  lemma BlockLaid(hd: seq<string>, heads: seq<string>, bodies: seq<string>, i: nat)
    requires |heads| == |bodies| && i < |heads|
    requires i + 1 < |heads| ==> HeadLine(heads[i + 1])
    ensures var ls := hd + Blocks(ShapeOf(heads, bodies), |heads|);
      |ls| == |hd| + 4 * |heads| && Laid(ls, |hd| + 4 * i, heads[i], bodies[i])
  {
    var f := ShapeOf(heads, bodies);
    forall j | 0 <= j < |heads| ensures |f(j)| == 4 && f(j)[0] == heads[j] {
      assert f(j) == Block(heads[j], bodies[j]);
    }
    BlockAfter(hd, f, |heads|, 4, i);
    var ls := hd + Blocks(f, |heads|);
    var x := |hd| + 4 * i;
    assert ls[x..x + 4] == Block(heads[i], bodies[i]);
    if x + 4 < |ls| {
      assert ls[x + 4] == heads[i + 1];
    }
  }

  lemma DocLaid(hd: seq<string>, heads: seq<string>, bodies: seq<string>)
    requires Spelled(heads, bodies)
    ensures LaidFrom(hd + Blocks(ShapeOf(heads, bodies), |heads|), |hd|, heads, bodies)
  {
    var f := ShapeOf(heads, bodies);
    forall j | 0 <= j < |heads| ensures |f(j)| == 4 {
      assert f(j) == Block(heads[j], bodies[j]);
    }
    BlocksLength(f, |heads|, 4);
    forall i | 0 <= i < |heads|
      ensures Laid(hd + Blocks(f, |heads|), |hd| + 4 * i, heads[i], bodies[i])
    {
      BlockLaid(hd, heads, bodies, i);
    }
  }

  /**
   * A file whose lines are a header without headings and then heading lines, each
   * followed by a blank line, a visible one-line body and a blank line, reads back as
   * those sections, stripped.
   */
  lemma ReadBack(text: string, hd: seq<string>, heads: seq<string>, bodies: seq<string>)
    requires Spelled(heads, bodies)
    requires Lines(text) == hd + Blocks(ShapeOf(heads, bodies), |heads|)
    requires forall i :: 0 <= i < |hd| ==> HeadAt(hd[i]).None?
    ensures Parse(text) == SpelledSections(heads, bodies)
  {
    var ls := Lines(text);
    DocLaid(hd, heads, bodies);
    forall i | 0 <= i < |hd| ensures HeadAt(ls[i]).None? {
      assert ls[i] == hd[i];
    }
    HeaderSkipped(ls, 0, |hd|);
    ScanSections(ls, |hd|, heads, bodies, 0);
    assert |hd| + 4 * 0 == |hd|;
  }

  /** Clean sections written out one block each, after a header, read back as they were. */
  lemma FileRoundTrip(hd: seq<string>, ss: seq<Section>)
    requires ss != [] && AllLines(hd) && forall i :: 0 <= i < |hd| ==> HeadAt(hd[i]).None?
    requires forall i :: 0 <= i < |ss| ==> Clean(ss[i]) && HeadLine(ss[i].heading)
    requires forall i :: 0 <= i < |ss| ==> NoLineBreak(ss[i].heading) && NoLineBreak(ss[i].body)
    ensures Parse(File(hd, ss)) == ss
  {
    var hs := Headings(ss);
    var bs := Bodies(ss);
    var ls := hd + Blocks(ShapeOf(hs, bs), |ss|);
    forall i | 0 <= i < |ss| ensures HeadLine(hs[i]) && NotBlank(bs[i]) {
      assert hs[i] == ss[i].heading && bs[i] == ss[i].body;
      assert !IsSpace(bs[i][0]);
    }
    FileLines(hd, ss);
    ReadBack(File(hd, ss), hd, hs, bs);
    var r := SpelledSections(hs, bs);
    forall i | 0 <= i < |ss| ensures r[i] == ss[i] {
      StripOfTrimmed(ss[i].heading);
      StripOfTrimmed(ss[i].body);
    }
  }

  function Headings(ss: seq<Section>): (r: seq<string>)
    ensures |r| == |ss|
  {
    seq(|ss|, i requires 0 <= i < |ss| => ss[i].heading)
  }

  function Bodies(ss: seq<Section>): (r: seq<string>)
    ensures |r| == |ss|
  {
    seq(|ss|, i requires 0 <= i < |ss| => ss[i].body)
  }

  /** A fitness file listing `ss` after the header lines `hd`. */
  function File(hd: seq<string>, ss: seq<Section>): string
  {
    Unlines(hd + Blocks(ShapeOf(Headings(ss), Bodies(ss)), |ss|))
  }

  lemma FileLines(hd: seq<string>, ss: seq<Section>)
    requires AllLines(hd) && ss != []
    requires forall i :: 0 <= i < |ss| ==> NoLineBreak(ss[i].heading) && NoLineBreak(ss[i].body)
    ensures Lines(File(hd, ss)) == hd + Blocks(ShapeOf(Headings(ss), Bodies(ss)), |ss|)
  {
    var hs, bs := Headings(ss), Bodies(ss);
    forall i | 0 <= i < |ss| ensures NoLineBreak(hs[i]) && NoLineBreak(bs[i]) {
      assert hs[i] == ss[i].heading && bs[i] == ss[i].body;
    }
    DocLines(hd, hs, bs);
    LinesOfUnlines(hd + Blocks(ShapeOf(hs, bs), |ss|));
  }

  /** A header and blocks of one-line texts are lines, four per block after the header. */
  lemma DocLines(hd: seq<string>, heads: seq<string>, bodies: seq<string>)
    requires AllLines(hd) && AllLines(heads) && AllLines(bodies) && |heads| == |bodies|
    ensures var ls := hd + Blocks(ShapeOf(heads, bodies), |heads|);
      AllLines(ls) && |ls| == |hd| + 4 * |heads|
  {
    var f := ShapeOf(heads, bodies);
    forall i | 0 <= i < |heads| ensures AllLines(f(i)) && |f(i)| == 4 {
      assert f(i) == Block(heads[i], bodies[i]);
      BlockOneLine(heads[i], bodies[i]);
    }
    BlocksAllLines(f, |heads|);
    AllLinesAppend(hd, Blocks(f, |heads|));
    BlocksLength(f, |heads|, 4);
  }

  lemma BlockOneLine(heading: string, body: string)
    requires NoLineBreak(heading) && NoLineBreak(body)
    ensures AllLines(Block(heading, body))
  {
    var w := Block(heading, body);
    assert w[0] == heading && w[1] == "" && w[2] == body && w[3] == "";
  }

  // ---------------------------------------------------------------------------
  // Picking a section

  /**
   * `pick_next_section`: one past the index the state file holds, wrapped around; a
   * missing state file or one that is not an integer counts as index -1.
   */
  function PickIndex(n: nat, state: Option<string>): (i: nat)
    requires n > 0
    ensures i < n
  {
    (LoadState(state, -1) + 1) % n
  }

  /** It reassigns `last_index` and reads the section at the index past it. */
  method PickNextSection(sections: seq<Section>, state: Option<string>) returns (index: nat, section: Section)
    requires sections != []
    ensures index == PickIndex(|sections|, state) && section == sections[index]
  {
    var lastIndex := -1;
    if state.Some? {
      match ParseInt(Strip(state.value)) {
        case Some(v) => lastIndex := v;
        case None => lastIndex := -1;
      }
    }
    index := (lastIndex + 1) % |sections|;
    section := sections[index];
  }

  /** A first run, and a run after unreadable state, sends section 0. */
  lemma FirstPick(n: nat)
    requires n > 0
    ensures PickIndex(n, None) == 0 && PickIndex(n, Some("abc")) == 0
  {
    StateFallbackExamples(-1);
  }

  /** The run after the one that sent section `i` sends section `i + 1`, wrapping to 0 after the last. */
  lemma PickAfter(n: nat, i: nat)
    requires i < n
    ensures PickIndex(n, Some(SaveState(i))) == if i + 1 < n then i + 1 else 0
  {
    StateRoundTrip(i, -1);
    if i + 1 < n {
      ModBelow(i + 1, n);
    } else {
      ModWrap(i + 1, n);
    }
  }

  /** The sections `runs` successive runs send, each reading the state the previous one wrote. */
  function Visits(n: nat, state: Option<string>, runs: nat): (r: seq<nat>)
    requires n > 0
    ensures |r| == runs
    decreases runs
  {
    if runs == 0 then []
    else
      var i := PickIndex(n, state);
      [i] + Visits(n, Some(SaveState(i)), runs - 1)
  }

  /**
   * From a fresh start the runs send sections 0, 1, …, n - 1, 0, 1, …: the first run
   * sends section 0, and each later run the section after the previous one's.
   */
  lemma VisitsInOrder(n: nat, runs: nat)
    requires n > 0
    ensures runs > 0 ==> Visits(n, None, runs)[0] == 0
    ensures forall r :: 0 <= r < runs - 1 ==>
      Visits(n, None, runs)[r + 1] == if Visits(n, None, runs)[r] + 1 < n then Visits(n, None, runs)[r] + 1 else 0
  {
    FirstPick(n);
    forall r | 0 <= r < runs - 1
      ensures Visits(n, None, runs)[r + 1] == if Visits(n, None, runs)[r] + 1 < n then Visits(n, None, runs)[r] + 1 else 0
    {
      VisitsStep(n, None, runs, r);
    }
  }

  lemma {:induction false} VisitsStep(n: nat, state: Option<string>, runs: nat, r: nat)
    requires n > 0 && r + 1 < runs
    ensures var v := Visits(n, state, runs);
      v[r + 1] == if v[r] + 1 < n then v[r] + 1 else 0
    decreases r
  {
    var i := PickIndex(n, state);
    var rest := Visits(n, Some(SaveState(i)), runs - 1);
    assert Visits(n, state, runs) == [i] + rest;
    if r == 0 {
      PickAfter(n, i);
      assert rest[0] == PickIndex(n, Some(SaveState(i)));
    } else {
      VisitsStep(n, Some(SaveState(i)), runs - 1, r - 1);
    }
  }

  /** So the first `n` runs send every section once, in file order. */
  lemma {:induction false} VisitsAll(n: nat, runs: nat)
    requires n > 0
    ensures forall r :: 0 <= r < runs && r < n ==> Visits(n, None, runs)[r] == r
    decreases runs
  {
    VisitsInOrder(n, runs);
    var v := Visits(n, None, runs);
    forall r | 0 <= r < runs && r < n ensures v[r] == r {
      VisitsUpTo(v, n, r);
    }
  }

  lemma {:induction false} VisitsUpTo(v: seq<nat>, n: nat, r: nat)
    requires r < |v| && r < n && v[0] == 0
    requires forall k :: 0 <= k < |v| - 1 ==> v[k + 1] == if v[k] + 1 < n then v[k] + 1 else 0
    ensures v[r] == r
    decreases r
  {
    if r > 0 {
      VisitsUpTo(v, n, r - 1);
    }
  }

  // ---------------------------------------------------------------------------
  // The mail

  const SUBJECT_PREFIX: string := "健身文案日更 - "

  /** The subject: the prefix, then the heading with every "##" removed, stripped. */
  function Subject(heading: string): (r: string)
    ensures StartsWith(r, SUBJECT_PREFIX) && !Contains(r[|SUBJECT_PREFIX|..], "##")
  {
    var suffix := Strip(RemoveAll(heading, "##"));
    RemoveAllHashPairs(heading);
    StripNoPair(RemoveAll(heading, "##"));
    var r := SUBJECT_PREFIX + suffix;
    assert r[..|SUBJECT_PREFIX|] == SUBJECT_PREFIX && r[|SUBJECT_PREFIX|..] == suffix;
    r
  }

  /** Stripping a text keeps it free of "##". */
  lemma StripNoPair(s: string)
    requires forall j :: !OccursAt(s, "##", j)
    ensures !Contains(Strip(s), "##")
  {
    var t := Strip(s);
    StripSlice(s);
    var a := SkipSpace(s, 0);
    forall j | 0 <= j && j + 2 <= |t| ensures !OccursAt(t, "##", j) {
      var u, v := t[j..j + 2], s[a + j..a + j + 2];
      assert u[0] == t[j] == s[a + j] == v[0];
      assert u[1] == t[j + 1] == s[a + j + 1] == v[1];
      assert u == v;
      assert !OccursAt(s, "##", a + j);
    }
  }

  /** The body: the heading, a blank line, the body. */
  function Body(s: Section): string
  {
    s.heading + "\n\n" + s.body
  }

  /** `main` with the file contents and the outcome of the send given. */
  method Run(source: Option<string>, state: Option<string>, sent: bool) returns (r: Result<Outcome>)
    ensures source.None? ==> r == Err(SourceNotFound)
    ensures r.Ok? <==> source.Some? && Parse(source.value) != []
    ensures r.Ok? ==>
      var ss := Parse(source.value);
      var i := PickIndex(|ss|, state);
      r.value == Outcome(Subject(ss[i].heading), Body(ss[i]), if sent then Some(SaveState(i)) else None)
  {
    var loaded := LoadSections(source);
    if loaded.Err? {
      return Err(loaded.error);
    }
    var index, section := PickNextSection(loaded.value, state);
    r := Ok(Outcome(Subject(section.heading), section.heading + "\n\n" + section.body,
                    Persist(if sent then Delivered else SendFailed, index)));
  }

  /** What a run mails for a clean section: the heading, one blank line, the body, nothing else. */
  lemma BodyParts(s: Section)
    requires Clean(s) && NoLineBreak(s.heading)
    ensures var ls := Split(Body(s), '\n'); |ls| >= 2 && ls[0] == s.heading && ls[1] == ""
    ensures Body(s)[|s.heading| + 2..] == s.body
  {
    var b := Body(s);
    assert b == s.heading + ['\n'] + ("" + ['\n'] + s.body);
    SplitCons(s.heading, '\n', "" + ['\n'] + s.body);
    SplitCons("", '\n', s.body);
  }
}
