/**
 * `generate_pyq.py`: the daily copywriting generator. The template for a date must hold ten
 * non-blank entries; they are rendered as a numbered markdown section headed `# <date>` and
 * appended to the output file unless that header already occurs in it; the same text may then
 * be mailed. Files are given as their content (`None` when absent, a template or configuration
 * as the JSON object `json.load` read); the new file and the mail to send are results.
 */
module GeneratePyq {
  import opened Common
  import opened Text

  /** A JSON value as `json.load` returns it (numbers are integers here). */
  datatype Json =
    | JNull
    | JBool(b: bool)
    | JNum(n: int)
    | JStr(s: string)
    | JList(items: seq<Json>)
    | JObject(fields: map<string, Json>)

  /** A JSON object: what a template or an e-mail configuration file holds. */
  type Fields = map<string, Json>

  /** Python's truth value of a JSON value. */
  predicate Truthy(v: Json) {
    match v
    case JNull => false
    case JBool(b) => b
    case JNum(n) => n != 0
    case JStr(s) => s != ""
    case JList(items) => items != []
    case JObject(fields) => fields != map[]
  }

  /** `d.get(key)`. */
  function Get(d: Fields, key: string): (r: Option<Json>)
    ensures r.Some? <==> key in d
    ensures r.Some? ==> r.value == d[key]
  {
    if key in d then Some(d[key]) else None
  }

  // ---------------------------------------------------------------------------
  // The template (generate_pyq.py:60-82)

  /** How many entries a template must hold. */
  const ENTRY_COUNT := 10

  /** `not isinstance(item, str) or not item.strip()`. */
  predicate BadEntry(item: Json) { !item.JStr? || Strip(item.s) == "" }

  /** `any(... for item in entries)`, one entry after another. */
  predicate AnyBad(items: seq<Json>)
    decreases |items|
  {
    items != [] && (BadEntry(items[0]) || AnyBad(items[1..]))
  }

  /** `any` holds exactly when some entry is bad. */
  lemma {:induction false} AnyBadSpec(items: seq<Json>)
    ensures AnyBad(items) <==> exists i :: 0 <= i < |items| && BadEntry(items[i])
    decreases |items|
  {
    if items != [] {
      AnyBadSpec(items[1..]);
      if exists i :: 0 <= i < |items| && BadEntry(items[i]) {
        var i :| 0 <= i < |items| && BadEntry(items[i]);
        if i > 0 {
          assert BadEntry(items[1..][i - 1]);
        }
      }
      if exists j :: 0 <= j < |items| - 1 && BadEntry(items[1..][j]) {
        var j :| 0 <= j < |items| - 1 && BadEntry(items[1..][j]);
        assert BadEntry(items[j + 1]);
      }
    }
  }

  /** A template the script accepts: "entries" is a list of ten strings, none of them blank. */
  predicate ValidTemplate(t: Fields) {
    && "entries" in t && t["entries"].JList? && |t["entries"].items| == ENTRY_COUNT
    && forall i :: 0 <= i < ENTRY_COUNT ==> t["entries"].items[i].JStr? && Strip(t["entries"].items[i].s) != ""
  }

  /** `load_template`: a missing template and a malformed one both stop the script. */
  function LoadTemplate(file: Option<Fields>): (r: Result<Fields>)
    ensures file.None? ==> r == Err(TemplateNotFound)
    ensures file.Some? && r.Err? ==> r.error == BadTemplate
    ensures r.Ok? ==> file == Some(r.value)
    ensures r.Ok? ==> "entries" in r.value && r.value["entries"].JList? && |r.value["entries"].items| == ENTRY_COUNT
  {
    match file
    case None => Err(TemplateNotFound)
    case Some(t) =>
      var entries := if "entries" in t then t["entries"] else JNull;
      if !entries.JList? || |entries.items| != ENTRY_COUNT then Err(BadTemplate)
      else if AnyBad(entries.items) then Err(BadTemplate)
      else Ok(t)
  }

  /** A template is accepted exactly when it is valid. */
  lemma TemplateAccepted(t: Fields)
    ensures LoadTemplate(Some(t)).Ok? <==> ValidTemplate(t)
  {
    if "entries" in t && t["entries"].JList? {
      var items := t["entries"].items;
      AnyBadSpec(items);
      if |items| == ENTRY_COUNT && !ValidTemplate(t) {
        var i :| 0 <= i < ENTRY_COUNT && !(items[i].JStr? && Strip(items[i].s) != "");
        assert BadEntry(items[i]);
      }
    }
  }

  /** `[entry.strip() for entry in template["entries"]]`. */
  function Entries(items: seq<Json>): (es: seq<string>)
    ensures |es| == |items|
    ensures forall i :: 0 <= i < |items| && items[i].JStr? ==> es[i] == Strip(items[i].s)
  {
    seq(|items|, i requires 0 <= i < |items| => if items[i].JStr? then Strip(items[i].s) else "")
  }

  /** The entries of an accepted template, stripped, are ten texts neither empty nor padded. */
  lemma EntriesOfValid(t: Fields)
    requires ValidTemplate(t)
    ensures var es := Entries(t["entries"].items);
      |es| == ENTRY_COUNT && forall i :: 0 <= i < |es| ==> es[i] != "" && Trimmed(es[i])
  {
  }

  // ---------------------------------------------------------------------------
  // The section (generate_pyq.py:85-112)

  /** The section header for a date in ISO form. */
  function Header(date: string): string { "# " + date }

  /** `section_exists`: the header occurs somewhere in the output file's text, when there is one. */
  predicate SectionExists(file: Option<string>, header: string) {
    file.Some? && Contains(ReadText(file.value), header)
  }

  /** `f"{index}. {entry}"`. */
  function Item(index: nat, entry: string): string { NatToString(index) + ". " + entry }

  /** The entries numbered from 1. */
  function Items(entries: seq<string>): (r: seq<string>)
    ensures |r| == |entries|
    decreases |entries|
  {
    if entries == [] then [] else Items(entries[..|entries| - 1]) + [Item(|entries|, entries[|entries| - 1])]
  }

  /** The `i`-th numbered entry carries number `i + 1`. */
  lemma {:induction false} ItemsAt(entries: seq<string>, i: nat)
    requires i < |entries|
    ensures Items(entries)[i] == Item(i + 1, entries[i])
    decreases |entries|
  {
    if i < |entries| - 1 {
      ItemsAt(entries[..|entries| - 1], i);
    }
  }

  /** The lines of the section: the header, a blank line, the numbered entries, an empty last line. */
  function BlockLines(header: string, entries: seq<string>): seq<string> {
    [header, ""] + Items(entries) + [""]
  }

  /** The section as `append_markdown` renders it. */
  function Block(header: string, entries: seq<string>): string {
    Unlines(BlockLines(header, entries))
  }

  /**
   * The section is its header, a blank line, the numbered entries one per line, and a final
   * line break; so it always ends in "\n" and the extra line break is never written.
   */
  lemma BlockShape(header: string, entries: seq<string>)
    ensures Block(header, entries)
         == header + "\n\n" + (if entries == [] then "" else Unlines(Items(entries)) + "\n")
    ensures EndsWith(Block(header, entries), "\n")
  {
    var items := Items(entries);
    JoinAppend([header, ""], items + [""], "\n");
    assert BlockLines(header, entries) == [header, ""] + (items + [""]);
    assert Join([header, ""], "\n") == header + "\n" + "";
    if entries == [] {
      assert items + [""] == [""];
    } else {
      JoinAppend(items, [""], "\n");
    }
  }

  /** A numbered entry holds a line break only where its text does. */
  lemma ItemNoBreak(index: nat, entry: string)
    requires NoLineBreak(entry)
    ensures NoLineBreak(Item(index, entry))
  {
    var d := NatToString(index);
    assert forall j :: 0 <= j < |d| ==> IsDigit(d[j]);
  }

  /**
   * Read back line by line, the section gives its header, the blank line, the entry numbered
   * `i + 1` on line `i + 2`, and the empty last line, when header and entries are single lines.
   */
  lemma BlockLinesBack(header: string, entries: seq<string>)
    requires NoLineBreak(header) && forall i :: 0 <= i < |entries| ==> NoLineBreak(entries[i])
    ensures Lines(Block(header, entries)) == BlockLines(header, entries)
    ensures forall i :: 0 <= i < |entries| ==> Lines(Block(header, entries))[i + 2] == Item(i + 1, entries[i])
  {
    var ls := BlockLines(header, entries);
    forall i | 0 <= i < |entries|
      ensures ls[i + 2] == Item(i + 1, entries[i]) && NoLineBreak(ls[i + 2])
    {
      ItemsAt(entries, i);
      ItemNoBreak(i + 1, entries[i]);
    }
    forall j | 0 <= j < |ls|
      ensures '\n' !in ls[j]
    {
      if 2 <= j < |ls| - 1 {
        ItemsAt(entries, j - 2);
        ItemNoBreak(j - 1, entries[j - 2]);
      }
    }
    SplitJoin(ls, '\n');
  }

  /**
   * What the output file holds before the append: its content, or nothing. The separator is
   * chosen on the text `read_text` gives for it, and then written after the content itself.
   */
  function Existing(file: Option<string>): string {
    if file.Some? then file.value else ""
  }

  /** The line breaks written before the section. */
  function Separator(existing: string): (sep: string)
    ensures sep == "" || sep == "\n" || sep == "\n\n"
  {
    if existing == "" then ""
    else if EndsWith(existing, "\n\n") then ""
    else if EndsWith(existing, "\n") then "\n"
    else "\n\n"
  }

  /** A text followed by one more character ends in a blank line when both its last two are breaks. */
  lemma EndsInBlankLine(x: string, c: char)
    ensures EndsWith(x + [c], "\n\n") <==> c == '\n' && x != [] && x[|x| - 1] == '\n'
    ensures x != [] ==> (EndsWith(x, "\n") <==> x[|x| - 1] == '\n')
  {
    var t := x + [c];
    if x != [] {
      assert t[|t| - 2..] == [x[|x| - 1], c];
      assert x[|x| - 1..] == [x[|x| - 1]];
    }
  }

  /** Nothing goes before the section in an empty file; otherwise the text then ends in a blank line. */
  lemma SeparatorSpec(existing: string)
    ensures existing == "" ==> Separator(existing) == ""
    ensures existing != "" ==> EndsWith(existing + Separator(existing), "\n\n")
  {
    var sep := Separator(existing);
    if sep == "\n" {
      EndsInBlankLine(existing, '\n');
    } else if sep == "\n\n" {
      EndsInBlankLine(existing, '\n');
      EndsInBlankLine(existing + "\n", '\n');
      assert existing + "\n" + "\n" == existing + "\n\n";
    }
  }

  /** The separator is the fewest line breaks that do it: with one fewer the blank line is missing. */
  lemma SeparatorFewest(existing: string)
    ensures Separator(existing) != "" ==> !EndsWith(existing, "\n\n")
    ensures Separator(existing) == "\n\n" ==> !EndsWith(existing + "\n", "\n\n")
  {
    if existing != "" {
      EndsInBlankLine(existing, '\n');
    }
  }

  /**
   * `append_markdown`: render the section line by line, choose the separator, and append both to
   * the file. Returns the section and the file's content afterwards.
   */
  method AppendMarkdown(file: Option<string>, header: string, entries: seq<string>) returns (block: string, content: string)
    ensures block == Block(header, entries)
    ensures content == Existing(file) + Separator(ReadText(Existing(file))) + block
  {
    var existing := if file.Some? then ReadText(file.value) else "";
    var lines := [header, ""];
    var i := 0;
    while i < |entries|
      invariant 0 <= i <= |entries|
      invariant lines == [header, ""] + Items(entries[..i])
    {
      assert entries[..i + 1][..i] == entries[..i];
      lines := lines + [Item(i + 1, entries[i])];
      i := i + 1;
    }
    assert entries[..|entries|] == entries;
    lines := lines + [""];
    block := Unlines(lines);
    content := Existing(file);
    if existing != "" {
      var separator;
      if EndsWith(existing, "\n\n") {
        separator := "";
      } else if EndsWith(existing, "\n") {
        separator := "\n";
      } else {
        separator := "\n\n";
      }
      content := content + separator;
    }
    content := content + block;
    BlockShape(header, entries);
    if !EndsWith(block, "\n") {
      content := content + "\n";
    }
  }

  // ---------------------------------------------------------------------------
  // The e-mail configuration (generate_pyq.py:115-132)

  /** The keys a configuration must have, in the order they are checked. */
  const REQUIRED_FIELDS: seq<string> := ["smtp_server", "from_addr", "to_addrs"]

  /** The first of `fields` the configuration lacks. */
  function MissingFrom(c: Fields, fields: seq<string>): (r: Option<string>)
    ensures r.Some? ==> r.value in fields && r.value !in c
    ensures r.None? ==> forall f :: f in fields ==> f in c
    decreases |fields|
  {
    if fields == [] then None
    else if fields[0] !in c then Some(fields[0])
    else MissingFrom(c, fields[1..])
  }

  /**
   * `[addr.strip() for addr in to_addrs.split(",") if addr]` as the code has it: the test is on
   * the piece before stripping, so a piece of spaces is kept as an empty address.
   */
  function RecipientsAsWritten(pieces: seq<string>): seq<string>
    decreases |pieces|
  {
    if pieces == [] then []
    else (if pieces[0] != "" then [Strip(pieces[0])] else []) + RecipientsAsWritten(pieces[1..])
  }

  /** The recipients as evidently meant: the stripped pieces that are not empty. */
  function Recipients(pieces: seq<string>): (r: seq<string>)
    ensures |r| <= |pieces|
    decreases |pieces|
  {
    if pieces == [] then []
    else (if Strip(pieces[0]) != "" then [Strip(pieces[0])] else []) + Recipients(pieces[1..])
  }

  /** A list of recipients of which a single piece of spaces leaves one empty address. */
  lemma BlankRecipientKept()
    ensures Split(" ", ',') == [" "]
    ensures RecipientsAsWritten(Split(" ", ',')) == [""]
    ensures Recipients(Split(" ", ',')) == []
  {
    assert " "[1..] == "";
    assert Split(" "[1..], ',') == [""];
    assert [' '] + "" == " ";
    assert [" "][1..] == [];
    assert IsSpace(' ') by { assert SpaceChar(0) == ' '; }
    assert SkipSpace(" ", 0) == 1 by { assert SkipSpace(" ", 1) == 1; }
    assert BackSpace(" ", 1, 1) == 1;
    assert Strip(" ") == "";
  }

  /** Every recipient is a stripped piece, neither empty nor padded. */
  lemma {:induction false} RecipientsTrimmed(pieces: seq<string>)
    ensures forall j :: 0 <= j < |Recipients(pieces)| ==> Recipients(pieces)[j] != "" && Trimmed(Recipients(pieces)[j])
    decreases |pieces|
  {
    if pieces != [] {
      RecipientsTrimmed(pieces[1..]);
      var rest := Recipients(pieces[1..]);
      var hd := if Strip(pieces[0]) != "" then [Strip(pieces[0])] else [];
      assert Recipients(pieces) == hd + rest;
      assert forall j :: |hd| <= j < |hd| + |rest| ==> (hd + rest)[j] == rest[j - |hd|];
    }
  }

  /** There is no recipient exactly when every piece is blank. */
  lemma {:induction false} RecipientsNone(pieces: seq<string>)
    ensures Recipients(pieces) == [] <==> forall i :: 0 <= i < |pieces| ==> Strip(pieces[i]) == ""
    decreases |pieces|
  {
    if pieces != [] {
      RecipientsNone(pieces[1..]);
      if Strip(pieces[0]) == "" && Recipients(pieces[1..]) != [] {
        var j :| 0 <= j < |pieces| - 1 && Strip(pieces[1..][j]) != "";
        assert Strip(pieces[j + 1]) != "";
      }
      if Strip(pieces[0]) == "" && Recipients(pieces[1..]) == [] {
        assert forall i :: 1 <= i < |pieces| ==> pieces[i] == pieces[1..][i - 1];
      }
    }
  }

  /** With no blank piece, every piece gives one recipient, in order. */
  lemma {:induction false} RecipientsAll(pieces: seq<string>)
    requires forall i :: 0 <= i < |pieces| ==> Strip(pieces[i]) != ""
    ensures Recipients(pieces) == Map(Strip, pieces)
    decreases |pieces|
  {
    if pieces != [] {
      assert forall i :: 0 <= i < |pieces| - 1 ==> pieces[1..][i] == pieces[i + 1];
      RecipientsAll(pieces[1..]);
    }
  }

  /** The recipients as JSON strings, the list `config["to_addrs"]` becomes. */
  function AsJson(rs: seq<string>): (r: seq<Json>)
    ensures |r| == |rs| && forall i :: 0 <= i < |rs| ==> r[i] == JStr(rs[i])
  {
    seq(|rs|, i requires 0 <= i < |rs| => JStr(rs[i]))
  }

  /** What "to_addrs" holds after loading: a text of comma-separated addresses becomes a list. */
  function ToAddrs(v: Json): Json {
    if v.JStr? then JList(AsJson(Recipients(Split(v.s, ',')))) else v
  }

  /** `load_email_config`: no file means no mail; a missing key or no recipient stops the script. */
  function EmailConfigOf(file: Option<Fields>): (r: Result<Option<Fields>>)
    ensures file.None? <==> r == Ok(None)
    ensures r.Err? ==> r.error == NoRecipients || r.error.MissingField?
    ensures r.Ok? && r.value.Some? ==> forall f :: f in REQUIRED_FIELDS ==> f in r.value.value
  {
    match file
    case None => Ok(None)
    case Some(c) =>
      match MissingFrom(c, REQUIRED_FIELDS)
      case Some(f) => Err(MissingField(f))
      case None =>
        var to := ToAddrs(c["to_addrs"]);
        if !Truthy(to) then Err(NoRecipients) else Ok(Some(c["to_addrs" := to]))
  }

  /**
   * A loaded configuration is the file's with only "to_addrs" replaced; a text of addresses
   * becomes the list of its non-blank stripped pieces, and a list is kept as it is but must not
   * be empty.
   */
  lemma EmailConfigSpec(c: Fields)
    requires forall f :: f in REQUIRED_FIELDS ==> f in c
    ensures var r := EmailConfigOf(Some(c)); var v := c["to_addrs"];
      && (r.Ok? <==> (if v.JStr? then Recipients(Split(v.s, ',')) != [] else Truthy(v)))
      && (r.Ok? ==> r == Ok(Some(c["to_addrs" := ToAddrs(v)])))
      && (r.Err? ==> r.error == NoRecipients)
  {
    assert MissingFrom(c, REQUIRED_FIELDS) == None;
  }

  /** The first required key in order that the file lacks is the one reported. */
  lemma EmailConfigMissing(c: Fields, k: nat)
    requires k < |REQUIRED_FIELDS| && REQUIRED_FIELDS[k] !in c
    requires forall j :: 0 <= j < k ==> REQUIRED_FIELDS[j] in c
    ensures EmailConfigOf(Some(c)) == Err(MissingField(REQUIRED_FIELDS[k]))
  {
    if k == 0 {
    } else if k == 1 {
      assert REQUIRED_FIELDS[0] in c;
    } else {
      assert REQUIRED_FIELDS[0] in c && REQUIRED_FIELDS[1] in c;
    }
  }

  /** `load_email_config` key by key, replacing "to_addrs" in the loaded object. */
  method LoadEmailConfig(file: Option<Fields>) returns (r: Result<Option<Fields>>)
    ensures r == EmailConfigOf(file)
  {
    if file.None? {
      return Ok(None);
    }
    var config := file.value;
    for i := 0 to |REQUIRED_FIELDS|
      invariant MissingFrom(config, REQUIRED_FIELDS) == MissingFrom(config, REQUIRED_FIELDS[i..])
    {
      var field := REQUIRED_FIELDS[i];
      if field !in config {
        return Err(MissingField(field));
      }
      assert REQUIRED_FIELDS[i..][1..] == REQUIRED_FIELDS[i + 1..];
    }
    assert REQUIRED_FIELDS[|REQUIRED_FIELDS|..] == [];
    var toAddrs := config["to_addrs"];
    if toAddrs.JStr? {
      config := config["to_addrs" := JList(AsJson(Recipients(Split(toAddrs.s, ','))))];
    } else {
      assert config["to_addrs" := toAddrs] == config;
    }
    if !Truthy(config["to_addrs"]) {
      return Err(NoRecipients);
    }
    r := Ok(Some(config));
  }

  // ---------------------------------------------------------------------------
  // The mail (generate_pyq.py:202-210)

  /** What follows the date in the default subject. */
  const SUBJECT_SUFFIX := " 朋友圈文案"

  /** `template.get("email_subject", f"{date} 朋友圈文案")`; a subject that is not text is refused. */
  function Subject(t: Fields, date: string): (r: Result<string>)
    ensures "email_subject" !in t ==> r == Ok(date + SUBJECT_SUFFIX)
    ensures "email_subject" in t ==> (r.Ok? <==> t["email_subject"].JStr?)
    ensures "email_subject" in t && r.Ok? ==> r.value == t["email_subject"].s
  {
    match Get(t, "email_subject")
    case None => Ok(date + SUBJECT_SUFFIX)
    case Some(v) => if v.JStr? then Ok(v.s) else Err(NotAString)
  }

  /**
   * `"\n".join(body_sections)`: the header, then the stripped intro and a blank line when the
   * intro is truthy, then the section; an intro that is truthy but not text cannot be stripped.
   */
  function EmailBody(header: string, intro: Option<Json>, block: string): Result<string> {
    if intro.None? || !Truthy(intro.value) then Ok(Unlines([header, block]))
    else if intro.value.JStr? then Ok(Unlines([header, Strip(intro.value.s), "", block]))
    else Err(NotAString)
  }

  /** The body written out: header, line break, [intro, blank line,] section. */
  lemma EmailBodyShape(header: string, intro: Option<Json>, block: string)
    ensures intro.None? || !Truthy(intro.value) ==> EmailBody(header, intro, block) == Ok(header + "\n" + block)
    ensures intro.Some? && intro.value.JStr? && intro.value.s != "" ==>
      EmailBody(header, intro, block) == Ok(header + "\n" + Strip(intro.value.s) + "\n\n" + block)
    ensures intro.Some? && Truthy(intro.value) && !intro.value.JStr? ==> EmailBody(header, intro, block) == Err(NotAString)
  {
    assert [header, block][1..] == [block];
    assert Join([block], "\n") == block;
    if intro.Some? && intro.value.JStr? {
      var s := Strip(intro.value.s);
      assert [header, s, "", block][1..] == [s, "", block];
      assert [s, "", block][1..] == ["", block];
      assert ["", block][1..] == [block];
      var j2 := Join(["", block], "\n");
      var j3 := Join([s, "", block], "\n");
      assert j2 == "" + "\n" + block == "\n" + block;
      assert j3 == s + "\n" + j2;
      assert Unlines([header, s, "", block]) == header + "\n" + j3;
      assert header + "\n" + (s + "\n" + ("\n" + block)) == header + "\n" + s + "\n\n" + block;
    }
  }

  // ---------------------------------------------------------------------------
  // The whole run (generate_pyq.py:175-213)

  /** The mail handed to `send_email`. */
  datatype Email = Email(config: Fields, subject: string, body: string)

  /** The output file afterwards, the mail to send, and how the run ends. */
  datatype Outcome = Outcome(file: Option<string>, mail: Option<Email>, result: Result<()>)

  /**
   * `main` for a date in ISO form: check the template, skip a date already in the file, append
   * the section, then, unless told not to, load the e-mail configuration and build the mail.
   */
  function Generate(date: string, template: Option<Fields>, output: Option<string>, skipEmail: bool,
                    emailConfig: Option<Fields>): Outcome
  {
    var header := Header(date);
    match LoadTemplate(template)
    case Err(e) => Outcome(output, None, Err(e))
    case Ok(t) =>
      if SectionExists(output, header) then Outcome(output, None, Ok(()))
      else
        var block := Block(header, Entries(t["entries"].items));
        var file := Some(Existing(output) + Separator(ReadText(Existing(output))) + block);
        if skipEmail then Outcome(file, None, Ok(()))
        else
          match EmailConfigOf(emailConfig)
          case Err(e) => Outcome(file, None, Err(e))
          case Ok(None) => Outcome(file, None, Ok(()))
          case Ok(Some(c)) =>
            match (Subject(t, date), EmailBody(header, Get(t, "email_intro"), block))
            case (Ok(subject), Ok(body)) => Outcome(file, Some(Email(c, subject, body)), Ok(()))
            case _ => Outcome(file, None, Err(NotAString))
  }

  /** A template that is missing or not valid leaves the file alone and sends nothing. */
  lemma GenerateRejects(date: string, template: Option<Fields>, output: Option<string>, skipEmail: bool,
                        emailConfig: Option<Fields>)
    requires template.None? || !ValidTemplate(template.value)
    ensures Generate(date, template, output, skipEmail, emailConfig)
         == Outcome(output, None, Err(if template.None? then TemplateNotFound else BadTemplate))
  {
    if template.Some? {
      TemplateAccepted(template.value);
    }
  }

  /**
   * With a valid template and a file that lacks the date's header, the file becomes its old
   * content, a separator after which its text ends in a blank line, and the section. Read back,
   * the file shows that blank line unless its content ends in a lone '\r' (see `LoneReturnJoins`).
   */
  lemma GenerateAppends(date: string, t: Fields, output: Option<string>, skipEmail: bool, emailConfig: Option<Fields>)
    requires ValidTemplate(t) && !SectionExists(output, Header(date))
    ensures var existing := Existing(output);
      var file := existing + Separator(ReadText(existing)) + Block(Header(date), Entries(t["entries"].items));
      && Generate(date, Some(t), output, skipEmail, emailConfig).file == Some(file)
      && (existing != "" ==> EndsWith(ReadText(existing) + Separator(ReadText(existing)), "\n\n"))
      && (existing != "" && !EndsWith(existing, "\r")
          ==> EndsWith(ReadText(existing + Separator(ReadText(existing))), "\n\n"))
      && EndsWith(file, "\n")
  {
    TemplateAccepted(t);
    var existing := Existing(output);
    SeparatorSpec(ReadText(existing));
    if existing != "" && !EndsWith(existing, "\r") {
      SeparatorReadBack(existing);
    }
    AppendedEnds(existing, Header(date), Entries(t["entries"].items));
  }

  /** The new file ends in a line break, as the section does. */
  lemma AppendedEnds(existing: string, header: string, entries: seq<string>)
    ensures EndsWith(existing + Separator(ReadText(existing)) + Block(header, entries), "\n")
  {
    var block := Block(header, entries);
    BlockShape(header, entries);
    var pre := existing + Separator(ReadText(existing));
    assert (pre + block)[|pre + block| - 1..] == block[|block| - 1..];
  }

  /** Unless the content ends in a lone '\r', its text and the separator read back with a blank line at the end. */
  lemma SeparatorReadBack(existing: string)
    requires existing != "" && !EndsWith(existing, "\r")
    ensures EndsWith(ReadText(existing + Separator(ReadText(existing))), "\n\n")
  {
    var sep := Separator(ReadText(existing));
    SeparatorSpec(ReadText(existing));
    ReadTextAppend(existing, sep);
    ReadTextPlain(sep);
  }

  /**
   * A file ending in a lone '\r' reads as ending in '\n', so one '\n' is written; in the file the
   * two make a single "\r\n" line break, and no blank line comes before the section.
   */
  lemma LoneReturnJoins()
    ensures Separator(ReadText("a\r")) == "\n"
    ensures ReadText("a\r" + Separator(ReadText("a\r"))) == "a\n"
  {
    assert ReadText("a\r") == "a\n";
    assert EndsWith("a\n", "\n") && !EndsWith("a\n", "\n\n");
    assert "a\r" + "\n" == "a\r\n";
    assert ReadText("a\r\n") == "a\n";
  }

  /** The separator follows the text: a file ending in "\r\n\r\n" already ends in a blank line. */
  lemma CrlfNeedsNoSeparator()
    ensures Separator(ReadText("a\r\n\r\n")) == ""
  {
    assert ReadText("a\r\n\r\n") == "a\n\n";
    assert EndsWith("a\n\n", "\n\n");
  }

  /** The header of a date without '\r' starts with '#' and holds no '\r'. */
  lemma HeaderPlain(date: string)
    requires '\r' !in date
    ensures Header(date) != [] && Header(date)[0] != '\n' && '\r' !in Header(date)
  {
  }

  /** The section starts with the date's header, so the new file's text contains it. */
  lemma AppendedHasHeader(existing: string, header: string, entries: seq<string>)
    requires header != [] && header[0] != '\n' && '\r' !in header
    ensures Contains(ReadText(existing + Separator(ReadText(existing)) + Block(header, entries)), header)
  {
    var pre := existing + Separator(ReadText(existing));
    var block := Block(header, entries);
    FirstOfJoin(BlockLines(header, entries));
    var tail := block[|header|..];
    assert block == header + tail;
    ReadTextAppend(pre, block);
    ReadTextAppend(header, tail);
    ReadTextPlain(header);
    var s := ReadText(pre) + (header + ReadText(tail));
    assert ReadText(pre + block) == s;
    var n := |ReadText(pre)|;
    assert s[n..n + |header|] == header;
    ContainsAt(s, header, n);
  }

  /**
   * Running again for the same date, on the file a run has appended to, changes nothing and
   * sends nothing. (An ISO date holds no '\r'.)
   */
  lemma GenerateOnce(date: string, t: Fields, output: Option<string>, skipEmail: bool, emailConfig: Option<Fields>,
                     skipAgain: bool, configAgain: Option<Fields>)
    requires ValidTemplate(t) && '\r' !in date
    ensures var o := Generate(date, Some(t), output, skipEmail, emailConfig);
      Generate(date, Some(t), o.file, skipAgain, configAgain) == Outcome(o.file, None, Ok(()))
  {
    TemplateAccepted(t);
    var header := Header(date);
    var o := Generate(date, Some(t), output, skipEmail, emailConfig);
    if !SectionExists(output, header) {
      var existing := Existing(output);
      var file := existing + Separator(ReadText(existing)) + Block(header, Entries(t["entries"].items));
      assert o.file == Some(file);
      HeaderPlain(date);
      AppendedHasHeader(existing, header, Entries(t["entries"].items));
    }
    assert SectionExists(o.file, header);
  }

  /**
   * A configuration that is missing a key or names no recipient fails the run after the section
   * has been appended.
   */
  lemma GenerateConfigFails(date: string, t: Fields, output: Option<string>, emailConfig: Option<Fields>)
    requires ValidTemplate(t) && !SectionExists(output, Header(date))
    requires EmailConfigOf(emailConfig).Err?
    ensures var o := Generate(date, Some(t), output, false, emailConfig);
      var existing := Existing(output);
      && o.result == Err(EmailConfigOf(emailConfig).error) && o.mail.None?
      && o.file == Some(existing + Separator(ReadText(existing)) + Block(Header(date), Entries(t["entries"].items)))
  {
    TemplateAccepted(t);
  }

  /**
   * The mail: the loaded configuration, the template's subject or "<date> 朋友圈文案", and the
   * header, the intro when there is one, and the appended section.
   */
  lemma GenerateMails(date: string, t: Fields, output: Option<string>, c: Fields)
    requires ValidTemplate(t) && !SectionExists(output, Header(date))
    requires "email_subject" !in t && "email_intro" !in t
    requires EmailConfigOf(Some(c)).Ok?
    ensures var o := Generate(date, Some(t), output, false, Some(c));
      var block := Block(Header(date), Entries(t["entries"].items));
      o == Outcome(Some(Existing(output) + Separator(ReadText(Existing(output))) + block),
                   Some(Email(EmailConfigOf(Some(c)).value.value, date + SUBJECT_SUFFIX, Header(date) + "\n" + block)),
                   Ok(()))
  {
    TemplateAccepted(t);
    EmailBodyShape(Header(date), None, Block(Header(date), Entries(t["entries"].items)));
  }
}
