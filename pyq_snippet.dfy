/**
 * send_pyq_snippet.php: cut the text under one fixed heading out of a markdown document and
 * mail it through a hand-written SMTP dialogue over an implicit-TLS socket.
 */
module PyqSnippet {
  import opened Common
  import opened Text

  const TARGET_TITLE := "Day 1《刻意练习》"

  /** The heading whose snippet is mailed (send_pyq_snippet.php:21): "## Day 1《刻意练习》". */
  const TARGET_HEADING := "## " + TARGET_TITLE

  const SUBJECT_PREFIX := "PyQ日更分享 - "

  /** The characters PHP's `trim()` removes by default. */
  const PHP_TRIM: set<char> := {' ', '\t', '\n', '\r', '\0', '\U{000B}'}

  /** PHP's `trim($s)`. */
  function Trim(s: string): (r: string)
    ensures PhpTrimmed(r)
  {
    StripChars(s, PHP_TRIM)
  }

  predicate PhpTrimmed(s: string) {
    s == [] || (s[0] !in PHP_TRIM && s[|s| - 1] !in PHP_TRIM)
  }

  // ---------------------------------------------------------------------------
  // extractSnippet: the pattern  <heading> \R (.*?) (?: \R--- | \z)  with flags u and s

  /** The single characters PCRE's `\R` accepts as a line break in UTF mode. */
  predicate IsBreak(c: char) {
    c == '\n' || c == '\r' || c == '\U{000B}' || c == '\U{000C}' ||
    c == '\U{0085}' || c == '\U{2028}' || c == '\U{2029}'
  }

  /** How many characters `\R` takes at `i`: "\r\n" as one break (atomically), else one break character, else 0. */
  function BreakLen(s: string, i: nat): (n: nat)
    ensures n <= 2 && (n > 0 ==> i + n <= |s| && IsBreak(s[i]))
    ensures n == 2 ==> s[i] == '\r' && s[i + 1] == '\n'
  {
    if i < |s| && s[i] == '\r' && i + 1 < |s| && s[i + 1] == '\n' then 2
    else if i < |s| && IsBreak(s[i]) then 1
    else 0
  }

  /** The heading occurs at `h` and a line break follows it. */
  predicate HeadingAt(s: string, heading: string, h: nat) {
    OccursAt(s, heading, h) && BreakLen(s, h + |heading|) > 0
  }

  /** A line break followed by "---" starts at `i`: where the lazy body stops. */
  predicate RuleAt(s: string, i: nat) {
    BreakLen(s, i) > 0 && OccursAt(s, "---", i + BreakLen(s, i))
  }

  /** The leftmost position at or after `from` where the heading matches. */
  function FindHeading(s: string, heading: string, from: nat): (r: Option<nat>)
    requires from <= |s|
    ensures r.Some? ==> from <= r.value < |s| && HeadingAt(s, heading, r.value)
    decreases |s| - from
  {
    if from == |s| then None
    else if HeadingAt(s, heading, from) then Some(from)
    else FindHeading(s, heading, from + 1)
  }

  /** What the search finds: a heading line, and none before it; or no heading line at all. */
  lemma {:induction false} FindHeadingSpec(s: string, heading: string, from: nat)
    requires from <= |s|
    ensures var r := FindHeading(s, heading, from);
      && (r.Some? ==> forall j :: from <= j < r.value ==> !HeadingAt(s, heading, j))
      && (r.None? ==> forall j :: from <= j ==> !HeadingAt(s, heading, j))
    decreases |s| - from
  {
    if from < |s| && !HeadingAt(s, heading, from) {
      FindHeadingSpec(s, heading, from + 1);
    }
  }

  /** The first position at or after `from` where a rule starts, or the end of the text. */
  function RuleFrom(s: string, from: nat): (e: nat)
    requires from <= |s|
    ensures from <= e <= |s| && (e < |s| ==> RuleAt(s, e))
    decreases |s| - from
  {
    if from == |s| || RuleAt(s, from) then from else RuleFrom(s, from + 1)
  }

  /** The search stops at a rule, or at the end, and passes over no rule. */
  lemma {:induction false} RuleFromSpec(s: string, from: nat)
    requires from <= |s|
    ensures forall j :: from <= j < RuleFrom(s, from) ==> !RuleAt(s, j)
    decreases |s| - from
  {
    if from < |s| && !RuleAt(s, from) {
      RuleFromSpec(s, from + 1);
    }
  }

  /** The search stops at the first rule. */
  lemma {:induction false} RuleFirst(s: string, from: nat, e: nat)
    requires from <= e <= |s| && (e < |s| ==> RuleAt(s, e))
    requires forall j :: from <= j < e ==> !RuleAt(s, j)
    ensures RuleFrom(s, from) == e
    decreases e - from
  {
    if from < e {
      RuleFirst(s, from + 1, e);
    }
  }

  datatype Snippet = Snippet(heading: string, body: string, titleSuffix: string)

  /** `trim(str_replace('##', '', heading))`. */
  function TitleSuffix(heading: string): (r: string)
    ensures PhpTrimmed(r) && !Contains(r, "##")
  {
    RemoveAllHashPairs(heading);
    TrimKeepsNoPair(RemoveAll(heading, "##"));
    Trim(RemoveAll(heading, "##"))
  }

  /** Trimming cannot create an occurrence of "##". */
  lemma TrimKeepsNoPair(s: string)
    requires !Contains(s, "##")
    ensures !Contains(Trim(s), "##")
  {
    var b := BackChars(s, PHP_TRIM, |s|);
    NoOccurSlice(s, "##", FrontChars(s, PHP_TRIM, 0, b), b);
  }

  /**
   * `extractSnippet`: a missing or unreadable file, or a heading that is never followed by a
   * line break, is an error; otherwise the body is the trimmed text between the first such
   * heading line and the next line break followed by "---", or the end of the text.
   */
  function ExtractSnippet(markdown: Option<string>, heading: string): (r: Result<Snippet>)
    ensures markdown.None? ==> r == Err(SourceNotFound)
    ensures r.Err? ==> r.error == SourceNotFound || r.error == HeadingNotFound
    ensures r.Ok? ==> r.value.heading == heading && PhpTrimmed(r.value.body)
    ensures r.Ok? ==> r.value.titleSuffix == TitleSuffix(heading)
  {
    match markdown
    case None => Err(SourceNotFound)
    case Some(s) =>
      match GroupBounds(s, heading)
      case None => Err(HeadingNotFound)
      case Some(g) => Ok(Snippet(heading, Trim(s[g.0..g.1]), TitleSuffix(heading)))
  }

  /** Where the captured group runs: from after the heading's line break to the first rule. */
  function GroupBounds(s: string, heading: string): (g: Option<(nat, nat)>)
    ensures g.Some? ==> g.value.0 <= g.value.1 <= |s|
  {
    match FindHeading(s, heading, 0)
    case None => None
    case Some(h) =>
      var b := h + |heading| + BreakLen(s, h + |heading|);
      Some((b, RuleFrom(s, b)))
  }

  /** A readable document fails exactly when the heading is nowhere followed by a line break. */
  lemma ExtractFails(s: string, heading: string)
    ensures ExtractSnippet(Some(s), heading).Err? <==> forall j :: 0 <= j < |s| ==> !HeadingAt(s, heading, j)
    ensures ExtractSnippet(Some(s), heading).Err? ==> ExtractSnippet(Some(s), heading).error == HeadingNotFound
  {
    FindHeadingSpec(s, heading, 0);
  }

  /** In a text laid out as `pre heading \n body tail`, a rule inside the body is one of the body's own. */
  lemma BodyRule(text: string, b: nat, body: string, tail: string, i: nat)
    requires b + |body| + |tail| == |text| && text[b..] == body + tail
    requires tail == "" || StartsWith(tail, "\n---")
    requires PhpTrimmed(body) && b <= i < b + |body|
    requires !RuleAt(body, i - b)
    ensures !RuleAt(text, i)
  {
    var k := i - b;
    assert text[i] == body[k];
    var n := BreakLen(text, i);
    if n > 0 {
      if k + 1 < |body| {
        assert text[i + 1] == body[k + 1];
      } else {
        assert body[k] !in PHP_TRIM;
      }
      assert BreakLen(body, k) == n;
      var p := i + n;
      var q := b + |body|;
      if p + 3 <= q {
        assert text[p..p + 3] == body[k + n..k + n + 3];
      } else if p + 3 <= |text| {
        assert text[q] == tail[0] == '\n';
        assert text[p..p + 3][q - p] == '\n';
      }
    }
  }

  /**
   * The snippet read back: in `pre + heading + "\n" + body + tail`, with no earlier heading line,
   * a trimmed body free of rules and a tail that is empty or starts a rule, the extracted body is
   * `body`.
   */
  lemma ExtractRoundTrip(pre: string, heading: string, body: string, tail: string)
    requires tail == "" || StartsWith(tail, "\n---")
    requires forall j :: 0 <= j < |pre| ==> !HeadingAt(pre + heading + "\n" + body + tail, heading, j)
    requires PhpTrimmed(body)
    requires forall i :: 0 <= i < |body| ==> !RuleAt(body, i)
    ensures ExtractSnippet(Some(pre + heading + "\n" + body + tail), heading)
         == Ok(Snippet(heading, body, TitleSuffix(heading)))
  {
    var text := pre + heading + "\n" + body + tail;
    var h := |pre|;
    var b := h + |heading| + 1;
    var e := b + |body|;
    HeadingLaid(text, pre, heading, body + tail);
    assert text[b..] == body + tail;
    forall i | b <= i < e ensures !RuleAt(text, i) {
      BodyRule(text, b, body, tail, i);
    }
    TailRule(text, e, tail);
    assert text[b..e] == body;
    RuleFirst(text, b, e);
    ExtractAt(text, heading, h, e);
  }

  /** With the heading found at `h` and the first rule after it at `e`, the body is `trim(s[b..e])`. */
  lemma ExtractAt(s: string, heading: string, h: nat, e: nat)
    requires FindHeading(s, heading, 0) == Some(h) && BreakLen(s, h + |heading|) == 1
    requires h + |heading| + 1 <= e <= |s| && RuleFrom(s, h + |heading| + 1) == e
    requires PhpTrimmed(s[h + |heading| + 1..e])
    ensures ExtractSnippet(Some(s), heading) == Ok(Snippet(heading, s[h + |heading| + 1..e], TitleSuffix(heading)))
  {
    var b := h + |heading| + 1;
    GroupOf(s, heading, h, e);
    TrimOfTrimmed(s[b..e]);
    ExtractGroup(s, heading, b, e);
  }

  lemma GroupOf(s: string, heading: string, h: nat, e: nat)
    requires FindHeading(s, heading, 0) == Some(h) && BreakLen(s, h + |heading|) == 1
    requires h + |heading| + 1 <= |s| && RuleFrom(s, h + |heading| + 1) == e
    ensures GroupBounds(s, heading) == Some((h + |heading| + 1, e))
  {
  }

  lemma ExtractGroup(s: string, heading: string, b: nat, e: nat)
    requires GroupBounds(s, heading) == Some((b, e))
    ensures ExtractSnippet(Some(s), heading) == Ok(Snippet(heading, Trim(s[b..e]), TitleSuffix(heading)))
  {
  }

  lemma TrimOfTrimmed(x: string)
    requires PhpTrimmed(x)
    ensures Trim(x) == x
  {
    StripCharsOfTrimmed(x, PHP_TRIM);
  }

  /** The heading sits at `|pre|` with a '\n' after it, and no heading line comes earlier. */
  lemma HeadingLaid(text: string, pre: string, heading: string, rest: string)
    requires text == pre + heading + "\n" + rest
    requires forall j :: 0 <= j < |pre| ==> !HeadingAt(text, heading, j)
    ensures FindHeading(text, heading, 0) == Some(|pre|)
    ensures BreakLen(text, |pre| + |heading|) == 1
  {
    var h := |pre|;
    assert text[h..h + |heading|] == heading;
    assert text[h + |heading|] == '\n';
    HeadingFirst(text, heading, 0, h);
  }

  /** A tail "\n---..." puts a rule right where the body ends. */
  lemma TailRule(text: string, e: nat, tail: string)
    requires e + |tail| == |text| && text[e..] == tail
    requires tail == "" || StartsWith(tail, "\n---")
    ensures e < |text| ==> RuleAt(text, e)
  {
    if tail != "" {
      var t4 := text[e..e + 4];
      assert t4 == tail[..4] == "\n---";
      assert text[e] == t4[0] == '\n';
      assert text[e + 1..e + 4] == t4[1..] == "---";
      assert BreakLen(text, e) == 1;
    }
  }

  lemma {:induction false} HeadingFirst(s: string, heading: string, from: nat, h: nat)
    requires from <= h < |s| && HeadingAt(s, heading, h)
    requires forall j :: from <= j < h ==> !HeadingAt(s, heading, j)
    ensures FindHeading(s, heading, from) == Some(h)
    decreases h - from
  {
    if from < h {
      HeadingFirst(s, heading, from + 1, h);
    }
  }

  /** The mail's subject and body (send_pyq_snippet.php:25-26). */
  function Compose(snippet: Snippet): (m: (string, string))
    ensures StartsWith(m.0, SUBJECT_PREFIX) && m.0[|SUBJECT_PREFIX|..] == snippet.titleSuffix
    ensures StartsWith(m.1, snippet.heading) && m.1[|snippet.heading|..] == "\n\n" + snippet.body
  {
    (SUBJECT_PREFIX + snippet.titleSuffix, snippet.heading + "\n\n" + snippet.body)
  }

  /** A "## " heading's title suffix is its text, when that text has no '#' and no padding. */
  lemma HashHeadingTitle(x: string)
    requires '#' !in x && x != [] && PhpTrimmed(x)
    ensures TitleSuffix("## " + x) == x
  {
    var h := "## " + x;
    assert h[..2] == "##" && h[2..] == " " + x;
    assert RemoveAll(h, "##") == RemoveAll(" " + x, "##");
    assert (" " + x)[1..] == x;
    NoHashPair(x);
    assert RemoveAll(" " + x, "##") == " " + x;
    var t := " " + x;
    assert t[|t| - 1] == x[|x| - 1];
    assert BackChars(t, PHP_TRIM, |t|) == |t|;
    assert t[1] == x[0];
    assert FrontChars(t, PHP_TRIM, 1, |t|) == 1;
    assert FrontChars(t, PHP_TRIM, 0, |t|) == 1;
  }

  /** The mailed subject is "PyQ日更分享 - Day 1《刻意练习》". */
  lemma TargetTitle()
    ensures TitleSuffix(TARGET_HEADING) == TARGET_TITLE
  {
    HashHeadingTitle(TARGET_TITLE);
  }

  /** A text without '#' is unchanged by removing "##". */
  lemma {:induction false} NoHashPair(s: string)
    requires '#' !in s
    ensures RemoveAll(s, "##") == s
  {
    if s != [] {
      assert s[0] != '#';
      assert !StartsWith(s, "##") by {
        if |s| >= 2 {
          assert s[..2][0] == s[0];
        }
      }
      assert '#' !in s[1..] by {
        forall i | 0 <= i < |s| - 1 ensures s[1..][i] != '#' {
          assert s[1..][i] == s[i + 1];
        }
      }
      NoHashPair(s[1..]);
    }
  }

  // ---------------------------------------------------------------------------
  // normalizeLineEndings

  /** Every line break of the old text as a bare '\n', and no '\r' left. */
  function Unify(text: string): (u: string)
  {
    ReplaceAll(ReplaceAll(text, "\r\n", "\n"), "\r", "\n")
  }

  /** `normalizeLineEndings`: "\r\n" and '\r' become '\n', then every '\n' becomes "\r\n". */
  function NormalizeLineEndings(text: string): (r: string)
  {
    ReplaceAll(Unify(text), "\n", "\r\n")
  }

  /** Every '\n' has a '\r' before it and every '\r' has a '\n' after it. */
  predicate CrlfOnly(s: string) {
    (forall i :: 0 <= i < |s| && s[i] == '\n' ==> 0 < i && s[i - 1] == '\r') &&
    (forall i :: 0 <= i < |s| && s[i] == '\r' ==> i + 1 < |s| && s[i + 1] == '\n')
  }

  /** Replacing a character with a different one leaves none of it. */
  lemma {:induction false} ReplaceRemoves(s: string, c: char, d: char)
    requires c != d
    ensures c !in ReplaceAll(s, [c], [d])
  {
    if s != [] {
      ReplaceRemoves(s[1..], c, d);
    }
  }

  /** Replacing a character that does not occur changes nothing. */
  lemma {:induction false} ReplaceAbsent(s: string, c: char, d: string)
    requires c !in s
    ensures ReplaceAll(s, [c], d) == s
  {
    if s != [] {
      assert c !in s[1..] by {
        forall i | 0 <= i < |s| - 1 ensures s[1..][i] != c {
          assert s[1..][i] == s[i + 1];
        }
      }
      ReplaceAbsent(s[1..], c, d);
      assert s == [s[0]] + s[1..];
    }
  }

  lemma UnifyNoCr(text: string)
    ensures '\r' !in Unify(text)
  {
    ReplaceRemoves(ReplaceAll(text, "\r\n", "\n"), '\r', '\n');
  }

  /** Expanding '\n' to "\r\n" in a text without '\r' gives CRLF line breaks only. */
  lemma {:induction false} ExpandCrlf(u: string)
    requires '\r' !in u
    ensures CrlfOnly(ReplaceAll(u, "\n", "\r\n"))
  {
    if u != [] {
      assert '\r' !in u[1..] by {
        forall i | 0 <= i < |u| - 1 ensures u[1..][i] != '\r' {
          assert u[1..][i] == u[i + 1];
        }
      }
      ExpandCrlf(u[1..]);
      var t := ReplaceAll(u[1..], "\n", "\r\n");
      var r := ReplaceAll(u, "\n", "\r\n");
      var front := if u[0] == '\n' then "\r\n" else [u[0]];
      assert StartsWith(u, "\n") <==> u[0] == '\n';
      assert r == front + t;
      forall i | 0 <= i < |r| && r[i] == '\n' ensures 0 < i && r[i - 1] == '\r' {
        if i >= |front| {
          assert r[i] == t[i - |front|];
          if i - |front| == 0 {
            assert false;
          } else {
            assert r[i - 1] == t[i - |front| - 1];
          }
        }
      }
      forall i | 0 <= i < |r| && r[i] == '\r' ensures i + 1 < |r| && r[i + 1] == '\n' {
        if i >= |front| {
          assert r[i] == t[i - |front|];
          assert r[i + 1] == t[i - |front| + 1];
        }
      }
    }
  }

  /** Collapsing "\r\n" back to '\n' undoes the expansion of a text without '\r'. */
  lemma {:induction false} CollapseExpand(u: string)
    requires '\r' !in u
    ensures ReplaceAll(ReplaceAll(u, "\n", "\r\n"), "\r\n", "\n") == u
  {
    if u != [] {
      assert '\r' !in u[1..] by {
        forall i | 0 <= i < |u| - 1 ensures u[1..][i] != '\r' {
          assert u[1..][i] == u[i + 1];
        }
      }
      CollapseExpand(u[1..]);
      var t := ReplaceAll(u[1..], "\n", "\r\n");
      if u[0] == '\n' {
        assert StartsWith(u, "\n");
        var r := "\r\n" + t;
        assert ReplaceAll(u, "\n", "\r\n") == r;
        assert StartsWith(r, "\r\n") && r[2..] == t;
      } else {
        assert !StartsWith(u, "\n");
        var r := [u[0]] + t;
        assert ReplaceAll(u, "\n", "\r\n") == r;
        assert !StartsWith(r, "\r\n") && r[1..] == t;
      }
      assert u == [u[0]] + u[1..];
    }
  }

  /** After normalisation every line break is "\r\n". */
  lemma NormalizedIsCrlf(text: string)
    ensures CrlfOnly(NormalizeLineEndings(text))
  {
    UnifyNoCr(text);
    ExpandCrlf(Unify(text));
  }

  /** Normalising twice is normalising once. */
  lemma NormalizeIdempotent(text: string)
    ensures NormalizeLineEndings(NormalizeLineEndings(text)) == NormalizeLineEndings(text)
  {
    var u := Unify(text);
    UnifyNoCr(text);
    CollapseExpand(u);
    ReplaceAbsent(u, '\r', "\n");
  }

  // ---------------------------------------------------------------------------
  // Dot-stuffing: preg_replace('/^\./m', '..', $message), section 4.5.2 of RFC 5321

  /** `^` in multi-line mode: the start of the text, or just after a '\n'. */
  predicate LineStart(s: string, i: nat, first: bool)
    requires i <= |s|
  {
    if i == 0 then first else s[i - 1] == '\n'
  }

  /** Doubles every '.' that starts a line; `first` says whether `s` itself starts a line. */
  function Stuff(s: string, first: bool): string
  {
    if s == [] then []
    else (if first && s[0] == '.' then ".." else [s[0]]) + Stuff(s[1..], s[0] == '\n')
  }

  function DotStuff(message: string): string {
    Stuff(message, true)
  }

  /** What the receiving server does: drop the first '.' of every line that starts with one. */
  function Unstuff(s: string, first: bool): string
  {
    if s == [] then []
    else if first && s[0] == '.' then Unstuff(s[1..], false)
    else [s[0]] + Unstuff(s[1..], s[0] == '\n')
  }

  /** Transparency: the server recovers exactly the message. */
  lemma {:induction false} StuffRoundTrip(s: string, first: bool)
    ensures Unstuff(Stuff(s, first), first) == s
  {
    if s != [] {
      StuffRoundTrip(s[1..], s[0] == '\n');
      var t := Stuff(s[1..], s[0] == '\n');
      if first && s[0] == '.' {
        assert Stuff(s, first) == ".." + t;
        assert (".." + t)[1..] == "." + t;
        assert ("." + t)[1..] == t;
      } else {
        assert Stuff(s, first) == [s[0]] + t;
        assert ([s[0]] + t)[1..] == t;
      }
      assert s == [s[0]] + s[1..];
    }
  }

  /** In stuffed text a '.' that starts a line is always followed by a second '.'. */
  predicate DotsDoubled(r: string, first: bool) {
    forall i :: 0 <= i < |r| && r[i] == '.' && LineStart(r, i, first) ==> i + 1 < |r| && r[i + 1] == '.'
  }

  lemma {:induction false} StuffDoubles(s: string, first: bool)
    ensures DotsDoubled(Stuff(s, first), first)
  {
    if s != [] {
      var next := s[0] == '\n';
      StuffDoubles(s[1..], next);
      var t := Stuff(s[1..], next);
      var front := if first && s[0] == '.' then ".." else [s[0]];
      var r := front + t;
      assert Stuff(s, first) == r;
      forall i | 0 <= i < |r| && r[i] == '.' && LineStart(r, i, first) ensures i + 1 < |r| && r[i + 1] == '.' {
        if i >= |front| {
          var k := i - |front|;
          assert r[i] == t[k];
          if k == 0 {
            assert r[i - 1] == front[|front| - 1];
            assert next;
          } else {
            assert r[i - 1] == t[k - 1];
          }
          assert LineStart(t, k, next);
          assert r[i + 1] == t[k + 1];
        }
      }
    }
  }

  /** The end-of-data marker (send_pyq_snippet.php:126). */
  const END_OF_DATA := "\r\n.\r\n"

  /**
   * The data the server reads ends exactly after the stuffed message: the marker cannot
   * occur earlier, since no stuffed line is a lone '.'.
   */
  lemma DataEndsAfterMessage(message: string)
    ensures var d := DotStuff(message);
      FindFrom(d + END_OF_DATA, END_OF_DATA, 0) == Some(|d|) && Unstuff(d, true) == message
  {
    var d := DotStuff(message);
    var w := d + END_OF_DATA;
    StuffDoubles(message, true);
    StuffRoundTrip(message, true);
    forall j | 0 <= j < |d| ensures !OccursAt(w, END_OF_DATA, j) {
      if j + 5 <= |w| {
        assert w[j..j + 5][1] == w[j + 1] && w[j..j + 5][2] == w[j + 2] && w[j..j + 5][3] == w[j + 3];
        if j + 2 < |d| {
          assert w[j + 1] == d[j + 1] && w[j + 2] == d[j + 2];
          if d[j + 1] == '\n' && d[j + 2] == '.' {
            assert LineStart(d, j + 2, true);
            assert w[j + 3] == d[j + 3] == '.';
          }
        } else {
          assert w[j + 2] == END_OF_DATA[j + 2 - |d|];
        }
      }
    }
    assert w[|d|..|d| + 5] == END_OF_DATA;
    FindFirst(w, END_OF_DATA, 0, |d|);
  }

  // ---------------------------------------------------------------------------
  // buildMessage

  /** Every '\r' has two more characters after it, and the second is not a '\r': no blank line ends here. */
  predicate NoBlankLine(s: string) {
    forall i :: 0 <= i < |s| && s[i] == '\r' ==> i + 2 < |s| && s[i + 2] != '\r'
  }

  lemma NoBlankLineAppend(a: string, b: string)
    requires NoBlankLine(a) && NoBlankLine(b)
    ensures NoBlankLine(a + b)
  {
    var s := a + b;
    forall i | 0 <= i < |s| && s[i] == '\r' ensures i + 2 < |s| && s[i + 2] != '\r' {
      if i < |a| {
        assert s[i + 2] == a[i + 2];
      } else {
        assert s[i] == b[i - |a|] && s[i + 2] == b[i - |a| + 2];
      }
    }
  }

  /** A CRLF between two such texts keeps the property when the second starts with a visible character. */
  lemma NoBlankLineJoin(a: string, b: string)
    requires NoBlankLine(a) && NoBlankLine(b) && b != [] && b[0] != '\r'
    ensures NoBlankLine(a + "\r\n" + b)
  {
    var s := a + "\r\n" + b;
    forall i | 0 <= i < |s| && s[i] == '\r' ensures i + 2 < |s| && s[i + 2] != '\r' {
      if i < |a| {
        assert s[i] == a[i] && s[i + 2] == a[i + 2];
      } else if i == |a| {
        assert s[i + 2] == b[0];
      } else if i == |a| + 1 {
        assert false;
      } else {
        assert s[i] == b[i - |a| - 2] && s[i + 2] == b[i - |a|];
      }
    }
  }

  lemma NoCrNoBlankLine(s: string)
    requires '\r' !in s
    ensures NoBlankLine(s)
  {
  }

  /** The six header lines (send_pyq_snippet.php:141-148). */
  function Headers(encodedFromName: string, username: string, recipient: string, encodedSubject: string): (hs: seq<string>)
  {
    [ "From: " + encodedFromName + " <" + username + ">",
      "To: " + recipient,
      "Subject: " + encodedSubject,
      "MIME-Version: 1.0",
      "Content-Type: text/plain; charset=UTF-8",
      "Content-Transfer-Encoding: 8bit" ]
  }

  function HeaderBlock(encodedFromName: string, username: string, recipient: string, encodedSubject: string): string
  {
    Join(Headers(encodedFromName, username, recipient, encodedSubject), "\r\n")
  }

  /** `buildMessage`: the headers joined by CRLF, an empty line, the normalised body. */
  function BuildMessage(encodedFromName: string, username: string, recipient: string, encodedSubject: string, body: string): string
  {
    HeaderBlock(encodedFromName, username, recipient, encodedSubject) + "\r\n\r\n" + NormalizeLineEndings(body)
  }

  /** Lines that each have no blank line and start with a character other than '\r', joined by CRLF. */
  lemma {:induction false} JoinNoBlank(hs: seq<string>)
    requires forall k :: 0 <= k < |hs| ==> NoBlankLine(hs[k]) && hs[k] != [] && hs[k][0] != '\r'
    ensures NoBlankLine(Join(hs, "\r\n"))
  {
    if |hs| > 1 {
      JoinNoBlank(hs[1..]);
      var t := Join(hs[1..], "\r\n");
      assert hs[1..][0] == hs[1];
      assert t == hs[1] + "\r\n" + Join(hs[2..], "\r\n") || |hs| == 2;
      assert t != [] && t[0] == hs[1][0];
      NoBlankLineJoin(hs[0], t);
    }
  }

  lemma FromLineNoBlank(encodedFromName: string, username: string)
    requires NoBlankLine(encodedFromName) && NoBlankLine(username)
    ensures NoBlankLine("From: " + encodedFromName + " <" + username + ">")
  {
    NoCrNoBlankLine("From: ");
    NoCrNoBlankLine(" <");
    NoCrNoBlankLine(">");
    NoBlankLineAppend("From: ", encodedFromName);
    NoBlankLineAppend("From: " + encodedFromName, " <");
    NoBlankLineAppend("From: " + encodedFromName + " <", username);
    NoBlankLineAppend("From: " + encodedFromName + " <" + username, ">");
  }

  lemma MimeLineNoBlank()
    ensures NoBlankLine("MIME-Version: 1.0")
  {
    NoCrNoBlankLine("MIME-Version: 1.0");
  }

  lemma TypeLineNoBlank()
    ensures NoBlankLine("Content-Type: text/plain; charset=UTF-8")
  {
    NoCrNoBlankLine("Content-Type: text/plain; charset=UTF-8");
  }

  lemma EncodingLineNoBlank()
    ensures NoBlankLine("Content-Transfer-Encoding: 8bit")
  {
    NoCrNoBlankLine("Content-Transfer-Encoding: 8bit");
  }

  /** The header block has no blank line when the values put in it have none (RFC 2047 folding keeps this). */
  lemma HeaderBlockNoBlank(encodedFromName: string, username: string, recipient: string, encodedSubject: string)
    requires NoBlankLine(encodedFromName) && NoBlankLine(username)
    requires NoBlankLine(recipient) && NoBlankLine(encodedSubject)
    ensures NoBlankLine(HeaderBlock(encodedFromName, username, recipient, encodedSubject))
  {
    var hs := Headers(encodedFromName, username, recipient, encodedSubject);
    FromLineNoBlank(encodedFromName, username);
    NoCrNoBlankLine("To: ");
    NoBlankLineAppend("To: ", recipient);
    NoCrNoBlankLine("Subject: ");
    NoBlankLineAppend("Subject: ", encodedSubject);
    MimeLineNoBlank();
    TypeLineNoBlank();
    EncodingLineNoBlank();
    JoinNoBlank(hs);
  }

  /**
   * The message splits where its first empty line is: the header block before it, the normalised
   * body after it.
   */
  lemma MessageSplits(encodedFromName: string, username: string, recipient: string, encodedSubject: string, body: string)
    requires NoBlankLine(encodedFromName) && NoBlankLine(username)
    requires NoBlankLine(recipient) && NoBlankLine(encodedSubject)
    ensures var h := HeaderBlock(encodedFromName, username, recipient, encodedSubject);
      var m := BuildMessage(encodedFromName, username, recipient, encodedSubject, body);
      FindFrom(m, "\r\n\r\n", 0) == Some(|h|) && m[|h| + 4..] == NormalizeLineEndings(body)
  {
    var h := HeaderBlock(encodedFromName, username, recipient, encodedSubject);
    var m := BuildMessage(encodedFromName, username, recipient, encodedSubject, body);
    HeaderBlockNoBlank(encodedFromName, username, recipient, encodedSubject);
    forall j | 0 <= j < |h| ensures !OccursAt(m, "\r\n\r\n", j) {
      if j + 4 <= |m| {
        assert m[j..j + 4][0] == m[j] && m[j..j + 4][2] == m[j + 2];
        assert m[j] == h[j];
        if h[j] == '\r' {
          assert m[j + 2] == h[j + 2];
        }
      }
    }
    assert m[|h|..|h| + 4] == "\r\n\r\n";
    FindFirst(m, "\r\n\r\n", 0, |h|);
    assert m[|h| + 4..] == NormalizeLineEndings(body);
  }
}
