/**
 * `generate_hot_topics_short_copy.py`: reads the numbered topic list (each topic
 * optionally followed by a 卖点 line and a 交付 line) and renders it twice, as the
 * short-copy document and as the voice-over document.
 */
module ShortCopy {
  import opened Common
  import opened Text

  /** One parsed topic; `sell` and `deliver` stay `None` until a labelled line sets them. */
  datatype Topic = Topic(id: string, title: string, sell: Option<string>, deliver: Option<string>)

  const SELL_LABEL := "卖点："
  const DELIVER_LABEL := "交付："
  const DEFAULT_SELL := "直接拆成可复制路径"
  const DEFAULT_DELIVER := "完整 SOP 与模板包"

  /** A topic as the parser can produce it: digits for an id, one-line trimmed text. */
  predicate WellFormed(t: Topic) {
    t.id != [] && AllDigits(t.id) && t.title != [] && Trimmed(t.title) && NoLineBreak(t.title)
    && (t.sell.Some? ==> NoLineBreak(t.sell.value))
    && (t.deliver.Some? ==> NoLineBreak(t.deliver.value))
  }

  lemma InfixNoLineBreak(s: string, i: int, j: int)
    requires NoLineBreak(s) && 0 <= i <= j <= |s|
    ensures NoLineBreak(s[i..j])
  {
    assert forall k :: 0 <= k < j - i ==> s[i..j][k] == s[i + k];
  }

  // ---------------------------------------------------------------------------
  // Parsing

  /** `_clean`: the trailing run of '。', '.' and ' ' dropped, then the surrounding whitespace. */
  function Clean(text: string): (r: string)
    ensures Trimmed(r) && |r| <= |text|
  {
    Strip(RStripChars(text, {'。', '.', ' '}))
  }

  lemma CleanNoLineBreak(text: string)
    requires NoLineBreak(text)
    ensures NoLineBreak(Clean(text))
  {
    var t := RStripChars(text, {'。', '.', ' '});
    InfixNoLineBreak(text, 0, |t|);
    StripSlice(t);
    var a := SkipSpace(t, 0);
    InfixNoLineBreak(t, a, a + |Strip(t)|);
  }

  /** A stripped line that matches `^(\d+)\)\s+(.*)$`. */
  predicate IsNumbered(line: string) {
    var d := DigitsFrom(line, 0);
    d >= 1 && d + 1 < |line| && line[d] == ')' && IsSpace(line[d + 1])
  }

  /**
   * The topic a numbered line opens: the digits before ')' are its id, and what
   * follows the whitespace after ')' is its title.
   */
  function Heading(line: string): Topic
    requires IsNumbered(line)
  {
    var d := DigitsFrom(line, 0);
    Topic(line[..d], line[SkipSpace(line, d + 1)..], None, None)
  }

  /**
   * The id is the line's leading digits and the title a nonempty trimmed tail of the
   * line, with at least ')' and one whitespace character between them.
   */
  lemma HeadingFields(line: string)
    requires IsNumbered(line) && Trimmed(line)
    ensures var t := Heading(line);
      t.id != [] && AllDigits(t.id) && t.id == line[..|t.id|]
      && t.title != [] && Trimmed(t.title) && |t.id| + 2 + |t.title| <= |line|
      && t.title == line[|line| - |t.title|..]
      && t.sell.None? && t.deliver.None?
  {
    var d := DigitsFrom(line, 0);
    var e := SkipSpace(line, d + 1);
    DigitsFromAll(line, 0);
    SkipSpaceBlank(line, d + 1);
    assert forall j :: 0 <= j < d ==> line[..d][j] == line[j];
    assert e > d + 1;
    assert e < |line|;
  }

  lemma HeadingWellFormed(line: string)
    requires IsNumbered(line) && Trimmed(line) && NoLineBreak(line)
    ensures WellFormed(Heading(line))
  {
    var t := Heading(line);
    HeadingFields(line);
    InfixNoLineBreak(line, |line| - |t.title|, |line|);
  }

  /** A numbered line is its topic's id, ')', a run of whitespace, and its title. */
  lemma HeadingShape(line: string)
    requires IsNumbered(line) && Trimmed(line)
    ensures var t := Heading(line);
      var w := line[|t.id| + 1..|line| - |t.title|];
      line == t.id + ")" + w + t.title && w != [] && IsBlank(w)
  {
    var d := DigitsFrom(line, 0);
    var e := SkipSpace(line, d + 1);
    var t := Heading(line);
    assert t.id == line[..d] && t.title == line[e..];
    assert e > d + 1;
    SkipSpaceBlank(line, d + 1);
    BlankRange(line, d + 1, e);
    Cut4(line, d, d + 1, e);
    assert line[d..d + 1] == [')'];
  }

  /** Reading back a topic line: `<id>)<whitespace><title>` parses to that id and title. */
  lemma HeadingOf(id: string, w: string, title: string)
    requires id != [] && AllDigits(id)
    requires w != [] && IsBlank(w)
    requires title != [] && Trimmed(title)
    ensures var line := id + ")" + w + title;
      IsNumbered(line) && Trimmed(line) && Heading(line) == Topic(id, title, None, None)
  {
    var line := id + ")" + w + title;
    var n := |id|;
    HeadingLineParts(id, w, title);
    DigitsFromRun(line, 0, n);
    SkipSpaceRun(line, n + 1, |w|);
    DigitNotSpace(id[0]);
  }

  lemma HeadingLineParts(id: string, w: string, title: string)
    requires id != [] && AllDigits(id) && w != [] && IsBlank(w) && title != []
    ensures var line := id + ")" + w + title;
      var n := |id|;
      var e := n + 1 + |w|;
      e < |line| && line[..n] == id && line[n] == ')' && line[e..] == title
      && (forall j :: 0 <= j < n ==> IsDigit(line[j]))
      && (forall j :: n + 1 <= j < e ==> IsSpace(line[j]))
      && !IsSpace(line[e]) == !IsSpace(title[0])
      && line[0] == id[0] && line[|line| - 1] == title[|title| - 1]
  {
    var line := id + ")" + w + title;
    var n := |id|;
    Parts4(id, ")", w, title);
    assert forall j :: 0 <= j < n ==> line[j] == id[j];
    assert forall j :: n + 1 <= j < n + 1 + |w| ==> line[j] == w[j - n - 1];
  }

  /**
   * A stripped line as the loop sees it: the heading of a new topic, a `卖点` or
   * `交付` line with its cleaned value, or any other line.
   */
  datatype Line = Open(topic: Topic) | Sell(value: string) | Deliver(value: string) | Other

  /**
   * A non-numbered line: one holding `卖点：` carries the cleaned text after it;
   * otherwise one holding `交付：` does.
   */
  function Label(line: string): Line
  {
    if Contains(line, SELL_LABEL) then Sell(Clean(After(line, SELL_LABEL)))
    else if Contains(line, DELIVER_LABEL) then Deliver(Clean(After(line, DELIVER_LABEL)))
    else Other
  }

  /** What a labelled line does to the open topic. */
  function Set(t: Topic, l: Line): (u: Topic)
    ensures u.id == t.id && u.title == t.title
  {
    match l
    case Sell(v) => t.(sell := Some(v))
    case Deliver(v) => t.(deliver := Some(v))
    case _ => t
  }

  /** A non-numbered line applied to the open topic. */
  function Apply(t: Topic, line: string): (u: Topic)
    ensures u.id == t.id && u.title == t.title
  {
    Set(t, Label(line))
  }

  lemma LabelWellFormed(line: string)
    requires NoLineBreak(line)
    ensures LineWellFormed(Label(line))
  {
    if Contains(line, SELL_LABEL) {
      var a := After(line, SELL_LABEL);
      InfixNoLineBreak(line, |line| - |a|, |line|);
      CleanNoLineBreak(a);
    } else if Contains(line, DELIVER_LABEL) {
      var a := After(line, DELIVER_LABEL);
      InfixNoLineBreak(line, |line| - |a|, |line|);
      CleanNoLineBreak(a);
    }
  }

  function Opt(current: Option<Topic>): seq<Topic> {
    if current.Some? then [current.value] else []
  }

  /** The state of `parse_topics`' loop: the topics closed so far and the one still open. */
  datatype Parser = Parser(topics: seq<Topic>, current: Option<Topic>)

  const START := Parser([], None)

  /** The topics a state yields when the file ends there. */
  function Closed(p: Parser): seq<Topic> {
    p.topics + Opt(p.current)
  }

  function Classify(raw: string): Line
  {
    var line := Strip(raw);
    if IsNumbered(line) then Open(Heading(line)) else Label(line)
  }

  /** The loop's view of every line of a document. */
  function Classes(lines: seq<string>): (ls: seq<Line>)
    ensures |ls| == |lines|
  {
    if lines == [] then [] else [Classify(lines[0])] + Classes(lines[1..])
  }

  lemma {:induction false} ClassesAt(lines: seq<string>, i: int)
    requires 0 <= i < |lines|
    ensures Classes(lines)[i] == Classify(lines[i])
  {
    if i > 0 {
      ClassesAt(lines[1..], i - 1);
    }
  }

  lemma {:induction false} ClassesAppend(a: seq<string>, b: seq<string>)
    ensures Classes(a + b) == Classes(a) + Classes(b)
  {
    if a == [] {
      assert a + b == b;
    } else {
      assert (a + b)[0] == a[0] && (a + b)[1..] == a[1..] + b;
      ClassesAppend(a[1..], b);
    }
  }

  /**
   * One iteration of the loop: a numbered line closes the open topic and opens a new
   * one; any other line updates the open topic, or is skipped while none is open.
   */
  function Advance(p: Parser, l: Line): Parser
  {
    match l
    case Open(t) => Parser(Closed(p), Some(t))
    case _ => if p.current.None? then p else Parser(p.topics, Some(Set(p.current.value, l)))
  }

  /** The loop over the lines `ls`, from state `p`. */
  function Scan(ls: seq<Line>, p: Parser): Parser
    decreases |ls|
  {
    if ls == [] then p else Scan(ls[1..], Advance(p, ls[0]))
  }

  lemma ScanCons(ls: seq<Line>, p: Parser)
    requires ls != []
    ensures Scan(ls, p) == Scan(ls[1..], Advance(p, ls[0]))
  {
  }

  /** The topics of a document. */
  function Topics(text: string): seq<Topic>
  {
    Closed(Scan(Classes(SplitLines(text)), START))
  }

  /** `parse_topics`, over the document's text. */
  method ParseTopics(text: string) returns (topics: seq<Topic>)
    ensures topics == Topics(text)
    ensures Keys(topics) == Headings(SplitLines(text))
    ensures forall i :: 0 <= i < |topics| ==> WellFormed(topics[i])
  {
    var lines := SplitLines(text);
    ghost var ls := Classes(lines);
    topics := [];
    var current: Option<Topic> := None;
    for i := 0 to |lines|
      invariant Scan(ls[i..], Parser(topics, current)) == Scan(ls, START)
    {
      ghost var before := Parser(topics, current);
      ScanCons(ls[i..], before);
      assert ls[i..][0] == ls[i] && ls[i..][1..] == ls[i + 1..];
      ClassesAt(lines, i);
      var line := Strip(lines[i]);
      if IsNumbered(line) {
        if current.Some? {
          topics := topics + [current.value];
        }
        current := Some(Heading(line));
      } else if current.Some? {
        current := Some(Apply(current.value, line));
      }
      assert Parser(topics, current) == Advance(before, ls[i]);
    }
    assert ls[|lines|..] == [];
    topics := topics + Opt(current);
    TopicKeys(text);
    TopicsWellFormed(text);
  }

  // ---------------------------------------------------------------------------
  // What the parser finds

  function Key(t: Topic): (string, string) { (t.id, t.title) }

  function Keys(ts: seq<Topic>): (r: seq<(string, string)>)
    ensures |r| == |ts|
  {
    if ts == [] then [] else [Key(ts[0])] + Keys(ts[1..])
  }

  /** The (id, title) a line opens a topic with, if it is numbered. */
  function LineKey(raw: string): seq<(string, string)>
  {
    var line := Strip(raw);
    if IsNumbered(line) then [Key(Heading(line))] else []
  }

  /** The (id, title) of every numbered line, in file order. */
  function Headings(lines: seq<string>): seq<(string, string)>
  {
    if lines == [] then [] else LineKey(lines[0]) + Headings(lines[1..])
  }

  /** The (id, title) of every heading among classified lines. */
  function OpenKeys(ls: seq<Line>): seq<(string, string)>
  {
    if ls == [] then [] else (if ls[0].Open? then [Key(ls[0].topic)] else []) + OpenKeys(ls[1..])
  }

  lemma {:induction false} HeadingsAreOpenKeys(lines: seq<string>)
    ensures Headings(lines) == OpenKeys(Classes(lines))
  {
    if lines != [] {
      HeadingsAreOpenKeys(lines[1..]);
      assert Classes(lines)[1..] == Classes(lines[1..]);
    }
  }

  lemma {:induction false} KeysAppend(a: seq<Topic>, b: seq<Topic>)
    ensures Keys(a + b) == Keys(a) + Keys(b)
  {
    if a == [] {
      assert a + b == b;
    } else {
      assert (a + b)[1..] == a[1..] + b;
      KeysAppend(a[1..], b);
    }
  }

  lemma AdvanceKeys(p: Parser, l: Line)
    ensures Keys(Closed(Advance(p, l))) == Keys(Closed(p)) + (if l.Open? then [Key(l.topic)] else [])
  {
    match l
    case Open(t) =>
      KeysAppend(Closed(p), [t]);
      assert Keys([t]) == [Key(t)];
    case _ =>
      if p.current.Some? {
        var u := Set(p.current.value, l);
        KeysAppend(p.topics, [p.current.value]);
        KeysAppend(p.topics, [u]);
        assert Keys([u]) == [Key(u)] == [Key(p.current.value)] == Keys([p.current.value]);
      }
  }

  lemma {:induction false} ScanKeys(ls: seq<Line>, p: Parser)
    ensures Keys(Closed(Scan(ls, p))) == Keys(Closed(p)) + OpenKeys(ls)
    decreases |ls|
  {
    if ls != [] {
      AdvanceKeys(p, ls[0]);
      ScanKeys(ls[1..], Advance(p, ls[0]));
    }
  }

  /** The parser opens one topic per numbered line, in order, with that line's id and title. */
  lemma TopicKeys(text: string)
    ensures Keys(Topics(text)) == Headings(SplitLines(text))
  {
    LinesKeys(SplitLines(text));
  }

  /** The same, over the document's lines. */
  lemma LinesKeys(lines: seq<string>)
    ensures Keys(Closed(Scan(Classes(lines), START))) == Headings(lines)
  {
    ScanKeys(Classes(lines), START);
    HeadingsAreOpenKeys(lines);
  }

  predicate AllWellFormed(ts: seq<Topic>) {
    forall i :: 0 <= i < |ts| ==> WellFormed(ts[i])
  }

  predicate ParserWellFormed(p: Parser) {
    AllWellFormed(p.topics) && (p.current.Some? ==> WellFormed(p.current.value))
  }

  /** A classified line of a document: a well-formed heading, or a value without a break. */
  predicate LineWellFormed(l: Line) {
    match l
    case Open(t) => WellFormed(t)
    case Sell(v) => NoLineBreak(v)
    case Deliver(v) => NoLineBreak(v)
    case Other => true
  }

  lemma ClassifyWellFormed(raw: string)
    requires NoLineBreak(raw)
    ensures LineWellFormed(Classify(raw))
  {
    var line := Strip(raw);
    StripSlice(raw);
    var a := SkipSpace(raw, 0);
    InfixNoLineBreak(raw, a, a + |line|);
    if IsNumbered(line) {
      HeadingWellFormed(line);
    } else {
      LabelWellFormed(line);
    }
  }

  lemma AdvanceWellFormed(p: Parser, l: Line)
    requires ParserWellFormed(p) && LineWellFormed(l)
    ensures ParserWellFormed(Advance(p, l))
  {
    match l
    case _ =>
  }

  lemma {:induction false} ScanWellFormed(ls: seq<Line>, p: Parser)
    requires forall i :: 0 <= i < |ls| ==> LineWellFormed(ls[i])
    requires ParserWellFormed(p)
    ensures ParserWellFormed(Scan(ls, p))
    decreases |ls|
  {
    if ls != [] {
      AdvanceWellFormed(p, ls[0]);
      ScanWellFormed(ls[1..], Advance(p, ls[0]));
    }
  }

  /** Every topic the parser yields has a digit id and a one-line, trimmed, nonempty title. */
  lemma TopicsWellFormed(text: string)
    ensures AllWellFormed(Topics(text))
  {
    var lines := SplitLines(text);
    var ls := Classes(lines);
    forall i | 0 <= i < |ls| ensures LineWellFormed(ls[i]) {
      ClassesAt(lines, i);
      ClassifyWellFormed(lines[i]);
    }
    ScanWellFormed(ls, START);
    var p := Scan(ls, START);
    assert Closed(p) == p.topics + Opt(p.current);
  }

  /** The loop over two runs of lines is the loop over the second from where the first ends. */
  lemma {:induction false} ScanAppend(a: seq<Line>, b: seq<Line>, p: Parser)
    ensures Scan(a + b, p) == Scan(b, Scan(a, p))
    decreases |a|
  {
    if a == [] {
      assert a + b == b;
    } else {
      assert (a + b)[0] == a[0] && (a + b)[1..] == a[1..] + b;
      ScanAppend(a[1..], b, Advance(p, a[0]));
    }
  }

  /** Topics closed before `p` stay in front of whatever the rest of the file yields. */
  lemma {:induction false} ScanAccumulates(ls: seq<Line>, front: seq<Topic>, p: Parser)
    ensures var q := Scan(ls, p);
      Scan(ls, Parser(front + p.topics, p.current)) == Parser(front + q.topics, q.current)
    decreases |ls|
  {
    if ls != [] {
      var s := Advance(p, ls[0]);
      AdvanceAccumulates(front, p, ls[0]);
      ScanAccumulates(ls[1..], front, s);
    }
  }

  lemma AdvanceAccumulates(front: seq<Topic>, p: Parser, l: Line)
    ensures var s := Advance(p, l);
      Advance(Parser(front + p.topics, p.current), l) == Parser(front + s.topics, s.current)
  {
    if l.Open? {
      assert (front + p.topics) + Opt(p.current) == front + (p.topics + Opt(p.current));
    }
  }

  predicate NoneNumbered(lines: seq<string>) {
    forall i :: 0 <= i < |lines| ==> !IsNumbered(Strip(lines[i]))
  }

  /** Lines before the first numbered line are ignored, labelled or not. */
  lemma {:induction false} PreambleIgnored(pre: seq<string>, topics: seq<Topic>)
    requires NoneNumbered(pre)
    ensures Scan(Classes(pre), Parser(topics, None)) == Parser(topics, None)
    decreases |pre|
  {
    if pre != [] {
      assert Classes(pre)[1..] == Classes(pre[1..]);
      PreambleIgnored(pre[1..], topics);
    }
  }

  /** The open topic after the non-numbered lines `body`, taken in order. */
  function Fill(t: Topic, body: seq<string>): Topic
    decreases |body|
  {
    if body == [] then t else Fill(Apply(t, Strip(body[0])), body[1..])
  }

  /** A run of non-numbered lines after a topic's line only updates that topic. */
  lemma {:induction false} ScanBlock(body: seq<string>, topics: seq<Topic>, t: Topic)
    requires NoneNumbered(body)
    ensures Scan(Classes(body), Parser(topics, Some(t))) == Parser(topics, Some(Fill(t, body)))
    decreases |body|
  {
    if body != [] {
      assert Classes(body)[1..] == Classes(body[1..]);
      ScanBlock(body[1..], topics, Apply(t, Strip(body[0])));
    }
  }

  /**
   * The first topic of a document: preamble lines, the first numbered line, and its
   * block up to the next numbered line give the topic that line opens, filled from its
   * block, ahead of the topics of the rest.
   */
  lemma FirstTopic(pre: seq<string>, h: string, body: seq<string>, rest: seq<string>)
    requires NoneNumbered(pre) && NoneNumbered(body) && IsNumbered(Strip(h))
    requires rest != [] ==> IsNumbered(Strip(rest[0]))
    ensures Closed(Scan(Classes(pre + [h] + body + rest), START))
      == [Fill(Heading(Strip(h)), body)] + Closed(Scan(Classes(rest), START))
  {
    var t := Heading(Strip(h));
    var f := Fill(t, body);
    ClassesAppend(pre, [h]);
    ClassesAppend(pre + [h], body);
    ClassesAppend(pre + [h] + body, rest);
    var a, b, c, d := Classes(pre), Classes([h]), Classes(body), Classes(rest);
    ScanAppend(a, b, START);
    ScanAppend(a + b, c, START);
    ScanAppend(a + b + c, d, START);
    PreambleIgnored(pre, []);
    assert b == [Open(t)];
    assert Scan(b, START) == Parser([], Some(t));
    ScanBlock(body, [], t);
    RestFrom(rest, f);
  }

  /** The topics of `rest` after a topic `f` that is still open. */
  lemma RestFrom(rest: seq<string>, f: Topic)
    requires rest != [] ==> IsNumbered(Strip(rest[0]))
    ensures Closed(Scan(Classes(rest), Parser([], Some(f)))) == [f] + Closed(Scan(Classes(rest), START))
  {
    var d := Classes(rest);
    if rest != [] {
      var t2 := Heading(Strip(rest[0]));
      assert d[0] == Open(t2);
      ScanCons(d, Parser([], Some(f)));
      ScanCons(d, START);
      assert Advance(Parser([], Some(f)), d[0]) == Parser([f], Some(t2));
      assert Advance(START, d[0]) == Parser([], Some(t2));
      ScanAccumulates(d[1..], [f], Parser([], Some(t2)));
      assert [f] + [] == [f];
      var q := Scan(d[1..], Parser([], Some(t2)));
      ClosedAppend([f], q);
    }
  }

  lemma ClosedAppend(front: seq<Topic>, q: Parser)
    ensures Closed(Parser(front + q.topics, q.current)) == front + Closed(q)
  {
  }

  /**
   * What the last line holding `卖点：` sets `sell` to, or `init` when no line of `body`
   * holds it.
   */
  function LastSell(body: seq<string>, init: Option<string>): Option<string>
    decreases |body|
  {
    if body == [] then init
    else
      var line := Strip(body[|body| - 1]);
      if Contains(line, SELL_LABEL) then Some(Clean(After(line, SELL_LABEL)))
      else LastSell(body[..|body| - 1], init)
  }

  /**
   * What the last line holding `交付：` but not `卖点：` sets `deliver` to, or `init`
   * when no line of `body` does.
   */
  function LastDeliver(body: seq<string>, init: Option<string>): Option<string>
    decreases |body|
  {
    if body == [] then init
    else
      var line := Strip(body[|body| - 1]);
      if !Contains(line, SELL_LABEL) && Contains(line, DELIVER_LABEL) then
        Some(Clean(After(line, DELIVER_LABEL)))
      else LastDeliver(body[..|body| - 1], init)
  }

  lemma {:induction false} FillSnoc(t: Topic, body: seq<string>, line: string)
    ensures Fill(t, body + [line]) == Apply(Fill(t, body), Strip(line))
    decreases |body|
  {
    if body == [] {
      assert (body + [line])[1..] == [];
    } else {
      assert (body + [line])[1..] == body[1..] + [line];
      FillSnoc(Apply(t, Strip(body[0])), body[1..], line);
    }
  }

  /**
   * A topic's `sell` and `deliver` are set by the last labelled line of its block
   * (a line holding both labels counts as a 卖点 line); a label the block never
   * mentions leaves the field as it was.
   */
  lemma {:induction false} FillFields(t: Topic, body: seq<string>)
    ensures Fill(t, body) == Topic(t.id, t.title, LastSell(body, t.sell), LastDeliver(body, t.deliver))
    decreases |body|
  {
    if body != [] {
      var init := body[..|body| - 1];
      var last := body[|body| - 1];
      assert body == init + [last];
      FillSnoc(t, init, last);
      FillFields(t, init);
    }
  }

  // ---------------------------------------------------------------------------
  // Rendering

  /** What each root phrase is called: the part of the phrase before "的｜". */
  const ROOT_HEADS: seq<string> := ["成本", "人群", "奇葩", "最差", "反差", "怀旧", "荷尔蒙", "头牌"]

  /** What each root phrase covers: the part after "的｜". */
  const ROOT_TAILS: seq<string> := [
    "便宜又有面子/花大钱干的/十分之一时间或金钱/如何偷懒/如何贪小便宜",
    "不懂装懂爱挑战/第一次体验/VIP/弱势群体",
    "脑回路有病/外行人不知道/黑心内幕揭秘",
    "难吃难看难用/差评最多/贬值最快/最没面子/拼多多9块9的",
    "身份/对比/南北/古今/中外/男女/穷富/品牌的反差",
    "20年前/具体朝代/前男友前女友的记忆点",
    "好找对象/魅力变弱/吸引力翻转",
    "名人明星名企名校/销量最好/最贵/最有面子"
  ]

  /** A root phrase, written `<name>的｜<what it covers>`. */
  function Phrase(i: nat): string
    requires i < 8
  {
    ROOT_HEADS[i] + "的｜" + ROOT_TAILS[i]
  }

  /** The eight root phrases, used in turn by topic position. */
  const ROOT_PHRASES: seq<string> :=
    [Phrase(0), Phrase(1), Phrase(2), Phrase(3), Phrase(4), Phrase(5), Phrase(6), Phrase(7)]

  /** `_pick_root`: the root phrases in turn, starting over after the eighth. */
  function PickRoot(idx: nat): string
  {
    ROOT_PHRASES[idx % |ROOT_PHRASES|]
  }

  lemma PickRootCycles(idx: nat)
    ensures |ROOT_PHRASES| == 8
    ensures PickRoot(idx + 8) == PickRoot(idx)
    ensures idx < 8 ==> PickRoot(idx) == ROOT_PHRASES[idx]
  {
    assert (idx + 8) % 8 == idx % 8;
  }

  /** The name a root phrase goes by in the voice-over: the text before '｜', trailing '的' removed. */
  function RootHead(root: string): string
  {
    RStripChars(Before(root, "｜"), {'的'})
  }

  /** A phrase `<name>的｜<rest>` goes by `<name>` when the name holds no '｜' and does not end in '的'. */
  lemma RootHeadOf(head: string, rest: string)
    requires '｜' !in head && head != [] && head[|head| - 1] != '的'
    ensures RootHead(head + "的｜" + rest) == head
  {
    var s := head + "的｜" + rest;
    var k := |head| + 1;
    assert s[k] == '｜' && s[..k] == head + "的";
    forall j | 0 <= j < k ensures !OccursAt(s, "｜", j) {
      assert j < |head| ==> s[j] == head[j];
    }
    FindFirst(s, "｜", 0, k);
    var b := s[..k];
    assert b[..k - 1] == head;
    assert BackChars(b, {'的'}, k) == BackChars(b, {'的'}, k - 1) == k - 1;
  }

  /** Every root phrase goes by the name listed for it. */
  lemma RootHeadNames(i: nat)
    requires i < 8
    ensures RootHead(ROOT_PHRASES[i]) == ROOT_HEADS[i]
  {
    var h := ROOT_HEADS[i];
    HeadsPlain(i);
    RootHeadOf(h, ROOT_TAILS[i]);
  }

  lemma HeadsPlain(i: nat)
    requires i < 8
    ensures var h := ROOT_HEADS[i]; '｜' !in h && h != [] && h[|h| - 1] != '的'
  {
  }

  /** `topic.get("sell") or default`: a missing or empty value gives the default. */
  function SellText(t: Topic): string {
    if t.sell.Some? && t.sell.value != "" then t.sell.value else DEFAULT_SELL
  }

  function DeliverText(t: Topic): string {
    if t.deliver.Some? && t.deliver.value != "" then t.deliver.value else DEFAULT_DELIVER
  }

  function HeadingLine(t: Topic): string {
    "### " + t.id + ") " + t.title
  }

  const COPY_HEADER: seq<string> := [
    "## AI 爆款选题短时睥睨文案",
    "",
    "2025 爆款词根：成本的/人群的/奇葩的/最差的/反差的/怀旧的/荷尔蒙/头牌。",
    "补充语义：闭门/一天搞定/100条/逆袭/双赛道/黑马岗位/出海/赞助/避坑。",
    ""
  ]

  const COPY_PAIN := "拖慢进度的通常是落地路径、成交话术和可直接使用的模板。"

  /** The seven lines `build_copy` writes for a topic and its root. */
  function CopyBlock(t: Topic, root: string): (b: seq<string>)
    ensures |b| == 7
  {
    [
      HeadingLine(t),
      "- 爆款词根：" + root,
      "- 开场：" + t.title + "，" + SellText(t) + "。",
      "- 痛点：" + COPY_PAIN,
      "- 结果：拿到" + DeliverText(t) + "，照抄也能上线/成交。",
      "- CTA：评论/私信「" + t.id + "」领取行动版 SOP，先到先得。",
      ""
    ]
  }

  /** The blocks of the first `k` topics, the topic at position `i` with root `root(i)`. */
  function CopyBlocks(ts: seq<Topic>, root: nat -> string, k: nat): (b: seq<string>)
    requires k <= |ts|
    ensures |b| == 7 * k
  {
    CopySizes(ts, root);
    BlocksLength(CopyOf(ts, root), k, 7);
    Blocks(CopyOf(ts, root), k)
  }

  /** Topic `i`'s block, for every position of `ts`. */
  function CopyOf(ts: seq<Topic>, root: nat -> string): nat -> seq<string>
  {
    (i: nat) => if i < |ts| then CopyBlock(ts[i], root(i)) else []
  }

  lemma CopySizes(ts: seq<Topic>, root: nat -> string)
    ensures forall i: nat :: i < |ts| ==> |CopyOf(ts, root)(i)| == 7
  {
    forall i: nat | i < |ts| ensures |CopyOf(ts, root)(i)| == 7 {
      assert CopyOf(ts, root)(i) == CopyBlock(ts[i], root(i));
    }
  }

  /** The lines of the short-copy document, topic `i` with root phrase `root(i)`. */
  function CopyLines(ts: seq<Topic>, root: nat -> string): seq<string>
  {
    COPY_HEADER + CopyBlocks(ts, root, |ts|)
  }

  /** The short-copy document: the lines joined, right-stripped, and one '\n' added. */
  function CopyText(ts: seq<Topic>, root: nat -> string): string
  {
    RStrip(Unlines(CopyLines(ts, root))) + "\n"
  }

  /** `build_copy`; the script passes `_pick_root` as `root` (`Generate` does too). */
  method BuildCopy(ts: seq<Topic>, root: nat -> string) returns (text: string)
    ensures text == CopyText(ts, root)
    ensures text == Unlines(CopyLines(ts, root))
    ensures EndsWithOneNewline(text)
  {
    var lines := COPY_HEADER;
    for idx := 0 to |ts|
      invariant lines == COPY_HEADER + CopyBlocks(ts, root, idx)
    {
      lines := lines + CopyBlock(ts[idx], root(idx));
    }
    text := RStrip(Unlines(lines)) + "\n";
    CopyEnding(ts, root);
  }

  /** The rendered lines end cleanly, so right-stripping and adding '\n' is the plain join. */
  lemma CopyEnding(ts: seq<Topic>, root: nat -> string)
    ensures var ls := COPY_HEADER + CopyBlocks(ts, root, |ts|);
      RStrip(Unlines(ls)) + "\n" == Unlines(ls) && EndsWithOneNewline(Unlines(ls))
  {
    CopyLinesEndClean(ts, root);
    RStripJoinEmptyLast(COPY_HEADER + CopyBlocks(ts, root, |ts|));
  }

  lemma CopyLinesEndClean(ts: seq<Topic>, root: nat -> string)
    ensures EndsClean(COPY_HEADER + CopyBlocks(ts, root, |ts|))
  {
    var n := |ts|;
    if n == 0 {
      CopyHeaderEndsClean();
      AppendNil(COPY_HEADER);
    } else {
      CopyBlockEnds(ts, root, n - 1);
      BlocksEndClean(CopyOf(ts, root), n);
      EndsCleanAppend(COPY_HEADER, CopyBlocks(ts, root, n));
    }
  }

  lemma CopyHeaderEndsClean()
    ensures EndsClean(COPY_HEADER)
  {
    VisibleNotSpace('。');
  }

  lemma CopyBlockEnds(ts: seq<Topic>, root: nat -> string, i: nat)
    requires i < |ts|
    ensures EndsClean(CopyOf(ts, root)(i))
  {
    VisibleNotSpace('。');
    assert CopyOf(ts, root)(i) == CopyBlock(ts[i], root(i));
  }

  /** Block `j` of the short copy sits at lines `7 * j` to `7 * j + 7` after the header. */
  lemma CopyBlocksAt(ts: seq<Topic>, root: nat -> string, k: nat, j: nat)
    requires j < k <= |ts|
    ensures CopyBlocks(ts, root, k)[7 * j..7 * j + 7] == CopyBlock(ts[j], root(j))
  {
    CopySizes(ts, root);
    BlocksAt(CopyOf(ts, root), k, 7, j);
  }

  const VOICE_RHYTHM := "口播节奏：预测 → 奖励 → 损失 → 命名 → CTA，" + "一整段约 60 秒，可直接朗读（文案中不显式写标签）。"

  const VOICE_HEADER: seq<string> := [
    "## AI 爆款选题口播文案",
    "",
    VOICE_RHYTHM,
    ""
  ]

  const SCRIPT_LABEL := "- 口播脚本："

  /** The one-paragraph script `build_voiceover` writes for a topic and its root. */
  function Script(t: Topic, root: string): string
  {
    var head := RootHead(root);
    var name := head + "快抄引擎";
    t.title + "会在今年冲上" + head + "赛道的爆款位，只要把“" + SellText(t) + "”拆开照做；我把这套打法命名为“"
    + name + "”，直接把" + DeliverText(t) + "塞给你，照抄即可上线成交。"
    + "划走等半年，红利被占完，别人用这套脚本锁住用户，你只能花成倍广告费补课；记住“" + name
    + "”，用它做脚本、口播、直播成交。"
    + "现在私信「" + t.id + "」领取全套 SOP 和口播词，跟着抄一天就能跑首单。"
  }

  /** The three lines `build_voiceover` writes for a topic and its root. */
  function VoiceBlock(t: Topic, root: string): (b: seq<string>)
    ensures |b| == 3
  {
    [HeadingLine(t), SCRIPT_LABEL + Script(t, root), ""]
  }

  function VoiceBlocks(ts: seq<Topic>, root: nat -> string, k: nat): (b: seq<string>)
    requires k <= |ts|
    ensures |b| == 3 * k
  {
    VoiceSizes(ts, root);
    BlocksLength(VoiceOf(ts, root), k, 3);
    Blocks(VoiceOf(ts, root), k)
  }

  function VoiceOf(ts: seq<Topic>, root: nat -> string): nat -> seq<string>
  {
    (i: nat) => if i < |ts| then VoiceBlock(ts[i], root(i)) else []
  }

  lemma VoiceSizes(ts: seq<Topic>, root: nat -> string)
    ensures forall i: nat :: i < |ts| ==> |VoiceOf(ts, root)(i)| == 3
  {
    forall i: nat | i < |ts| ensures |VoiceOf(ts, root)(i)| == 3 {
      assert VoiceOf(ts, root)(i) == VoiceBlock(ts[i], root(i));
    }
  }

  /** The lines of the voice-over document, topic `i` with root phrase `root(i)`. */
  function VoiceLines(ts: seq<Topic>, root: nat -> string): seq<string>
  {
    VOICE_HEADER + VoiceBlocks(ts, root, |ts|)
  }

  /** The voice-over document. */
  function VoiceText(ts: seq<Topic>, root: nat -> string): string
  {
    RStrip(Unlines(VoiceLines(ts, root))) + "\n"
  }

  /** `build_voiceover`; the script passes `_pick_root` as `root` (`Generate` does too). */
  method BuildVoiceover(ts: seq<Topic>, root: nat -> string) returns (text: string)
    ensures text == VoiceText(ts, root)
    ensures text == Unlines(VoiceLines(ts, root))
    ensures EndsWithOneNewline(text)
  {
    var lines := VOICE_HEADER;
    for idx := 0 to |ts|
      invariant lines == VOICE_HEADER + VoiceBlocks(ts, root, idx)
    {
      lines := lines + VoiceBlock(ts[idx], root(idx));
    }
    text := RStrip(Unlines(lines)) + "\n";
    VoiceEnding(ts, root);
  }

  lemma VoiceEnding(ts: seq<Topic>, root: nat -> string)
    ensures var ls := VOICE_HEADER + VoiceBlocks(ts, root, |ts|);
      RStrip(Unlines(ls)) + "\n" == Unlines(ls) && EndsWithOneNewline(Unlines(ls))
  {
    VoiceLinesEndClean(ts, root);
    RStripJoinEmptyLast(VOICE_HEADER + VoiceBlocks(ts, root, |ts|));
  }

  lemma VoiceLinesEndClean(ts: seq<Topic>, root: nat -> string)
    ensures EndsClean(VOICE_HEADER + VoiceBlocks(ts, root, |ts|))
  {
    var n := |ts|;
    if n == 0 {
      VoiceHeaderEndsClean();
      AppendNil(VOICE_HEADER);
    } else {
      VoiceBlockEnds(ts, root, n - 1);
      BlocksEndClean(VoiceOf(ts, root), n);
      EndsCleanAppend(VOICE_HEADER, VoiceBlocks(ts, root, n));
    }
  }

  lemma VoiceHeaderEndsClean()
    ensures EndsClean(VOICE_HEADER)
  {
    VisibleNotSpace('。');
  }

  lemma VoiceBlockEnds(ts: seq<Topic>, root: nat -> string, i: nat)
    requires i < |ts|
    ensures EndsClean(VoiceOf(ts, root)(i))
  {
    VisibleNotSpace('。');
    assert VoiceOf(ts, root)(i) == VoiceBlock(ts[i], root(i));
  }

  // ---------------------------------------------------------------------------
  // What the voice-over document holds, for the sender that reads it back

  /** A script starts with its topic's title and ends in '。'. */
  lemma ScriptShape(t: Topic, root: string)
    requires WellFormed(t)
    ensures var s := Script(t, root); s != [] && Trimmed(s)
  {
    var s := Script(t, root);
    assert s[0] == t.title[0];
    assert s[|s| - 1] == '。';
    VisibleNotSpace('。');
  }

  lemma RootHeadNoLineBreak(root: string)
    requires NoLineBreak(root)
    ensures NoLineBreak(RootHead(root))
  {
    var b := Before(root, "｜");
    InfixNoLineBreak(root, 0, |b|);
    InfixNoLineBreak(b, 0, |RootHead(root)|);
  }

  lemma ScriptNoLineBreak(t: Topic, root: string)
    requires WellFormed(t) && NoLineBreak(RootHead(root))
    ensures NoLineBreak(Script(t, root))
  {
    ScriptWordsOneLine();
    DefaultsOneLine();
  }

  /** The fixed wording of a script holds no line break (one literal per lemma keeps each proof small). */
  lemma ScriptWordsOneLine()
    ensures NoLineBreak("会在今年冲上")
    ensures NoLineBreak("赛道的爆款位，只要把“")
    ensures NoLineBreak("”拆开照做；我把这套打法命名为“")
    ensures NoLineBreak("快抄引擎")
    ensures NoLineBreak("”，直接把")
    ensures NoLineBreak("塞给你，照抄即可上线成交。")
    ensures NoLineBreak("划走等半年，红利被占完，别人用这套脚本锁住用户，你只能花成倍广告费补课；记住“")
    ensures NoLineBreak("”，用它做脚本、口播、直播成交。")
    ensures NoLineBreak("现在私信「")
    ensures NoLineBreak("」领取全套 SOP 和口播词，跟着抄一天就能跑首单。")
  {
    ScriptWord0();
    ScriptWord1();
    ScriptWord2();
    ScriptWord3();
    ScriptWord4();
    ScriptWord5();
    ScriptWord6();
    ScriptWord7();
    ScriptWord8();
    ScriptWord9();
  }

  lemma ScriptWord0() ensures NoLineBreak("会在今年冲上") {}
  lemma ScriptWord1() ensures NoLineBreak("赛道的爆款位，只要把“") {}
  lemma ScriptWord2() ensures NoLineBreak("”拆开照做；我把这套打法命名为“") {}
  lemma ScriptWord3() ensures NoLineBreak("快抄引擎") {}
  lemma ScriptWord4() ensures NoLineBreak("”，直接把") {}
  lemma ScriptWord5() ensures NoLineBreak("塞给你，照抄即可上线成交。") {}
  lemma ScriptWord6() ensures NoLineBreak("划走等半年，红利被占完，别人用这套脚本锁住用户，你只能花成倍广告费补课；记住“") {}
  lemma ScriptWord7() ensures NoLineBreak("”，用它做脚本、口播、直播成交。") {}
  lemma ScriptWord8() ensures NoLineBreak("现在私信「") {}
  lemma ScriptWord9() ensures NoLineBreak("」领取全套 SOP 和口播词，跟着抄一天就能跑首单。") {}

  lemma DefaultsOneLine()
    ensures NoLineBreak(DEFAULT_SELL) && NoLineBreak(DEFAULT_DELIVER)
  {
  }

  /** The lines of a voice-over block hold no line break. */
  lemma VoiceBlockLines(ts: seq<Topic>, root: nat -> string, i: nat)
    requires i < |ts| && WellFormed(ts[i]) && NoLineBreak(RootHead(root(i)))
    ensures AllLines(VoiceOf(ts, root)(i))
  {
    HeadingOneLine(ts[i]);
    ScriptNoLineBreak(ts[i], root(i));
    LabelOneLine();
    assert VoiceOf(ts, root)(i) == VoiceBlock(ts[i], root(i));
  }

  lemma HeadingOneLine(t: Topic)
    requires WellFormed(t)
    ensures NoLineBreak(HeadingLine(t))
  {
    DigitsOneLine(t.id);
    assert NoLineBreak("### ") && NoLineBreak(") ");
  }

  lemma DigitsOneLine(s: string)
    requires AllDigits(s)
    ensures NoLineBreak(s)
  {
    assert forall k :: 0 <= k < |s| ==> IsDigit(s[k]);
  }

  lemma LabelOneLine()
    ensures NoLineBreak(SCRIPT_LABEL)
  {
  }

  /** The four header lines hold no line break. */
  lemma VoiceHeaderLines()
    ensures AllLines(VOICE_HEADER)
  {
    VoiceRhythmOneLine();
    assert NoLineBreak("## AI 爆款选题口播文案");
  }

  lemma VoiceRhythmOneLine()
    ensures NoLineBreak(VOICE_RHYTHM)
  {
    RhythmStartOneLine();
    RhythmEndOneLine();
  }

  lemma RhythmStartOneLine() ensures NoLineBreak("口播节奏：预测 → 奖励 → 损失 → 命名 → CTA，") {}
  lemma RhythmEndOneLine() ensures NoLineBreak("一整段约 60 秒，可直接朗读（文案中不显式写标签）。") {}

  /** Every line of the voice-over document is one line of text. */
  lemma VoiceLinesOneLine(ts: seq<Topic>, root: nat -> string, k: nat)
    requires k <= |ts|
    requires forall i :: 0 <= i < |ts| ==> WellFormed(ts[i]) && NoLineBreak(RootHead(root(i)))
    ensures AllLines(VOICE_HEADER + VoiceBlocks(ts, root, k))
  {
    VoiceHeaderLines();
    forall i | 0 <= i < k ensures AllLines(VoiceOf(ts, root)(i)) {
      VoiceBlockLines(ts, root, i);
    }
    BlocksAllLines(VoiceOf(ts, root), k);
    AllLinesAppend(VOICE_HEADER, VoiceBlocks(ts, root, k));
  }

  /** Split at its line breaks, the voice-over document gives back exactly the lines it was built from. */
  lemma VoiceTextLines(ts: seq<Topic>, root: nat -> string)
    requires forall i :: 0 <= i < |ts| ==> WellFormed(ts[i]) && NoLineBreak(RootHead(root(i)))
    ensures Lines(VoiceText(ts, root)) == VoiceLines(ts, root)
  {
    VoiceEnding(ts, root);
    VoiceLinesOneLine(ts, root, |ts|);
    SplitJoin(VoiceLines(ts, root), '\n');
  }

  /** No root name holds a line break. */
  lemma PickRootNoLineBreak(idx: nat)
    ensures NoLineBreak(RootHead(PickRoot(idx)))
  {
    var i := idx % 8;
    PickRootCycles(idx);
    assert PickRoot(idx) == ROOT_PHRASES[i];
    RootHeadNames(i);
    HeadsOneLine(i);
  }

  lemma HeadsOneLine(i: nat)
    requires i < 8
    ensures NoLineBreak(ROOT_HEADS[i])
  {
  }

  /** `main`: a missing source file and a source without topics are both errors. */
  method Generate(source: Option<string>) returns (r: Result<(string, string)>)
    ensures source.None? ==> r == Err(SourceNotFound)
    ensures source.Some? && Topics(source.value) == [] ==> r == Err(EmptyResult)
    ensures r.Ok? <==> source.Some? && Topics(source.value) != []
    ensures r.Ok? ==> r.value == (CopyText(Topics(source.value), PickRoot), VoiceText(Topics(source.value), PickRoot))
  {
    if source.None? {
      return Err(SourceNotFound);
    }
    var topics := ParseTopics(source.value);
    if topics == [] {
      return Err(EmptyResult);
    }
    var copy := BuildCopy(topics, PickRoot);
    var voice := BuildVoiceover(topics, PickRoot);
    r := Ok((copy, voice));
  }
}
