/**
 * send_pyq_snippet.php, the SMTP side: reading one reply (`expectResponse`), the fixed
 * command/reply dialogue of `sendEmail`, and the script's top level. What the server sends is
 * given as the lines `fgets` hands over, in order; whether the socket could be opened is given
 * as a flag.
 */
module PyqMailer {
  import opened Common
  import opened Text
  import opened PyqSnippet

  // ---------------------------------------------------------------------------
  // One reply (send_pyq_snippet.php:181-201)

  /**
   * A line ends a reply when it has at least four characters and the fourth is a space: in
   * section 4.2.1 of RFC 5321 "250-" continues a reply and "250 " ends it.
   */
  predicate LastLine(line: string) { |line| >= 4 && line[3] == ' ' }

  /** One past the last line of the reply that starts at line `i`: its ending line, or the end of input. */
  function ReplyEnd(lines: seq<string>, i: nat): (k: nat)
    requires i <= |lines|
    ensures i <= k <= |lines| && (i < |lines| ==> i < k)
    decreases |lines| - i
  {
    if i == |lines| then i else if LastLine(lines[i]) then i + 1 else ReplyEnd(lines, i + 1)
  }

  /** A reply runs over continuation lines up to its first ending line, or to the end of input. */
  lemma {:induction false} ReplyEndSpec(lines: seq<string>, i: nat)
    requires i <= |lines|
    ensures forall j :: i <= j < ReplyEnd(lines, i) - 1 ==> !LastLine(lines[j])
    ensures ReplyEnd(lines, i) < |lines| ==> LastLine(lines[ReplyEnd(lines, i) - 1])
    decreases |lines| - i
  {
    if i < |lines| && !LastLine(lines[i]) {
      ReplyEndSpec(lines, i + 1);
    }
  }

  /** Conversely, the reply ends right after the first ending line. */
  lemma {:induction false} ReplyEndAt(lines: seq<string>, i: nat, j: nat)
    requires i <= j < |lines| && LastLine(lines[j])
    requires forall m :: i <= m < j ==> !LastLine(lines[m])
    ensures ReplyEnd(lines, i) == j + 1
    decreases j - i
  {
    if i < j {
      ReplyEndAt(lines, i + 1, j);
    }
  }

  /** The whitespace PHP skips in front of a numeric string. */
  const PHP_SPACE: set<char> := {' ', '\t', '\n', '\r', '\U{000B}', '\U{000C}'}

  function Pow10(n: nat): (p: nat)
    ensures p >= 1
  {
    if n == 0 then 1 else 10 * Pow10(n - 1)
  }

  /**
   * PHP's `(int)` cast of a text of at most three characters: leading whitespace, an optional
   * sign and the digits after it; a digit run followed by "e" or "E" and a digit is a float
   * in exponent notation; no digits at all is 0.
   */
  function IntOf(t: string): int
    requires |t| <= 3
  {
    var w := FrontChars(t, PHP_SPACE, 0, |t|);
    var p := if w < |t| && (t[w] == '-' || t[w] == '+') then w + 1 else w;
    var (v, d) := Number(t, p, 0);
    var m := if p < d && d + 1 < |t| && (t[d] == 'e' || t[d] == 'E') && IsDigit(t[d + 1])
      then v * Pow10(t[d + 1] as int - '0' as int)
      else v;
    if w < |t| && t[w] == '-' then -m else m
  }

  /** The decimal digits from `i` on, read onto `acc`: their value and where they stop. */
  function Number(t: string, i: nat, acc: nat): (r: (nat, nat))
    requires i <= |t|
    ensures i <= r.1 <= |t|
    decreases |t| - i
  {
    if i < |t| && IsDigit(t[i]) then Number(t, i + 1, 10 * acc + (t[i] as int - '0' as int)) else (acc, i)
  }

  /** `(int)substr($response, 0, 3)`. */
  function ReplyCode(response: string): int {
    IntOf(response[..if |response| < 3 then |response| else 3])
  }

  /** Three leading digits are the reply code of section 4.2 of RFC 5321. */
  lemma CodeOfDigits(response: string)
    requires |response| >= 3 && IsDigit(response[0]) && IsDigit(response[1]) && IsDigit(response[2])
    ensures ReplyCode(response)
         == 100 * (response[0] as int - '0' as int) + 10 * (response[1] as int - '0' as int) + (response[2] as int - '0' as int)
    ensures 0 <= ReplyCode(response) <= 999
  {
    var t := response[..3];
    var d0, d1, d2 := t[0] as int - '0' as int, t[1] as int - '0' as int, t[2] as int - '0' as int;
    assert FrontChars(t, PHP_SPACE, 0, 3) == 0;
    assert Number(t, 0, 0) == Number(t, 1, d0) == Number(t, 2, 10 * d0 + d1);
    assert Number(t, 2, 10 * d0 + d1) == Number(t, 3, 100 * d0 + 10 * d1 + d2) == (100 * d0 + 10 * d1 + d2, 3);
  }

  /** A first character that is neither whitespace, a sign nor a digit gives code 0. */
  lemma CodeOfText(response: string)
    requires response != [] && !IsDigit(response[0]) && response[0] !in PHP_SPACE
    requires response[0] != '+' && response[0] != '-'
    ensures ReplyCode(response) == 0
  {
    var t := response[..if |response| < 3 then |response| else 3];
    assert t[0] == response[0];
    assert FrontChars(t, PHP_SPACE, 0, |t|) == 0;
    assert Number(t, 0, 0) == (0, 0);
  }

  /** "1e2" is read as the float 1e2: the code is 100. */
  lemma CodeOfExponent(response: string)
    requires |response| >= 3 && response[..3] == "1e2"
    ensures ReplyCode(response) == 100
  {
    var t := response[..3];
    assert FrontChars(t, PHP_SPACE, 0, 3) == 0;
    assert Number(t, 0, 0) == Number(t, 1, 1) == (1, 1);
    assert t[2] as int - '0' as int == 2;
    assert Pow10(2) == 100;
  }

  /** What `expectResponse` makes of the text it collected. */
  function Reply(response: string, expected: set<int>): Result<string> {
    if response == "" then Err(NoResponse)
    else if ReplyCode(response) !in expected then Err(UnexpectedReply(response))
    else Ok(response)
  }

  /**
   * `expectResponse`: append lines until one ends the reply or input runs out, then check that
   * something came and that its code is expected.
   */
  method ExpectResponse(lines: seq<string>, from: nat, expected: set<int>) returns (r: Result<string>, next: nat)
    requires from <= |lines|
    ensures next == ReplyEnd(lines, from)
    ensures r == Reply(Concat(lines[from..next]), expected)
  {
    var response := "";
    next := from;
    while next < |lines|
      invariant from <= next <= |lines|
      invariant ReplyEnd(lines, next) == ReplyEnd(lines, from)
      invariant response == Concat(lines[from..next])
      decreases |lines| - next
    {
      var line := lines[next];
      assert lines[from..next + 1][..next - from] == lines[from..next];
      response := response + line;
      next := next + 1;
      if |line| >= 4 && line[3] == ' ' {
        break;
      }
    }
    r := Reply(response, expected);
  }

  // ---------------------------------------------------------------------------
  // The dialogue (send_pyq_snippet.php:110-129)

  /** One exchange: what the client writes, then the reply codes it accepts. */
  datatype Step = Step(writes: seq<string>, expected: set<int>)

  /** Everything the client wrote, and whether the dialogue ran to its end. */
  datatype Dialogue = Dialogue(written: seq<string>, result: Result<()>)

  /** Run the steps from `k` on, reading replies from line `pos`; the first failed reply ends it. */
  function Talk(steps: seq<Step>, k: nat, lines: seq<string>, pos: nat): Dialogue
    requires k <= |steps| && pos <= |lines|
    decreases |steps| - k
  {
    if k == |steps| then Dialogue([], Ok(()))
    else
      var next := ReplyEnd(lines, pos);
      match Reply(Concat(lines[pos..next]), steps[k].expected)
      case Err(e) => Dialogue(steps[k].writes, Err(e))
      case Ok(_) => Then(steps[k].writes, Talk(steps, k + 1, lines, next))
  }

  /** Writes that came before a dialogue. */
  function Then(written: seq<string>, d: Dialogue): Dialogue {
    Dialogue(written + d.written, d.result)
  }

  /**
   * The verdict on each reply from step `k` on, every reply read where the one before it ended,
   * whether or not the dialogue would have stopped earlier.
   */
  function Verdicts(steps: seq<Step>, k: nat, lines: seq<string>, pos: nat): (vs: seq<Result<string>>)
    requires k <= |steps| && pos <= |lines|
    ensures |vs| == |steps| - k
    decreases |steps| - k
  {
    if k == |steps| then []
    else
      var next := ReplyEnd(lines, pos);
      [Reply(Concat(lines[pos..next]), steps[k].expected)] + Verdicts(steps, k + 1, lines, next)
  }

  /** What steps `k` up to `n` write, in order. */
  function Writes(steps: seq<Step>, k: nat, n: nat): seq<string>
    requires k <= n <= |steps|
    decreases n - k
  {
    if k == n then [] else steps[k].writes + Writes(steps, k + 1, n)
  }

  /** Talk's first step, in terms of the first verdict. */
  lemma TalkFirst(steps: seq<Step>, k: nat, lines: seq<string>, pos: nat)
    requires k < |steps| && pos <= |lines|
    ensures var v := Verdicts(steps, k, lines, pos)[0];
      Talk(steps, k, lines, pos)
      == if v.Err? then Dialogue(steps[k].writes, Err(v.error))
         else Then(steps[k].writes, Talk(steps, k + 1, lines, ReplyEnd(lines, pos)))
  {
  }

  /** Every verdict of a list is a success exactly when its first one and all the others are. */
  lemma AllOkSplit(vs: seq<Result<string>>)
    requires vs != []
    ensures (forall i :: 0 <= i < |vs| ==> vs[i].Ok?) <==> vs[0].Ok? && forall i :: 0 <= i < |vs| - 1 ==> vs[1..][i].Ok?
  {
    if vs[0].Ok? && exists j :: 0 <= j < |vs| - 1 && vs[1..][j].Err? {
      var j :| 0 <= j < |vs| - 1 && vs[1..][j].Err?;
      assert vs[j + 1].Err?;
    }
  }

  /**
   * The dialogue from step `k` on succeeds exactly when every reply is accepted, and then it has
   * written every step's commands in order.
   */
  lemma {:induction false} TalkMeaning(steps: seq<Step>, k: nat, lines: seq<string>, pos: nat)
    requires k <= |steps| && pos <= |lines|
    ensures var vs := Verdicts(steps, k, lines, pos);
      Talk(steps, k, lines, pos).result.Ok? <==> forall i :: 0 <= i < |vs| ==> vs[i].Ok?
    ensures Talk(steps, k, lines, pos).result.Ok? ==> Talk(steps, k, lines, pos).written == Writes(steps, k, |steps|)
    decreases |steps| - k
  {
    if k < |steps| {
      var next := ReplyEnd(lines, pos);
      var vs := Verdicts(steps, k, lines, pos);
      assert vs[1..] == Verdicts(steps, k + 1, lines, next);
      TalkFirst(steps, k, lines, pos);
      AllOkSplit(vs);
      TalkMeaning(steps, k + 1, lines, next);
    }
  }

  /**
   * The dialogue stops at the first reply that is not accepted: it has written the commands up
   * to and including that step's, and fails with that reply's error.
   */
  lemma {:induction false} TalkStops(steps: seq<Step>, k: nat, f: nat, lines: seq<string>, pos: nat)
    requires k <= f < |steps| && pos <= |lines|
    requires forall i :: 0 <= i < f - k ==> Verdicts(steps, k, lines, pos)[i].Ok?
    requires Verdicts(steps, k, lines, pos)[f - k].Err?
    ensures Talk(steps, k, lines, pos) == Dialogue(Writes(steps, k, f + 1), Err(Verdicts(steps, k, lines, pos)[f - k].error))
    decreases f - k
  {
    var next := ReplyEnd(lines, pos);
    var vs := Verdicts(steps, k, lines, pos);
    var rest := Verdicts(steps, k + 1, lines, next);
    assert vs == [vs[0]] + rest;
    if k < f {
      assert vs[0].Ok?;
      assert forall i :: 0 <= i < f - (k + 1) ==> rest[i] == vs[i + 1];
      TalkStops(steps, k + 1, f, lines, next);
      assert Writes(steps, k, f + 1) == steps[k].writes + Writes(steps, k + 1, f + 1);
    } else {
      assert Writes(steps, k, f + 1) == steps[k].writes + [];
    }
  }

  /** One step taken: how the rest of the dialogue follows from the reply to step `k`. */
  lemma Advance(steps: seq<Step>, k: nat, lines: seq<string>, pos: nat, written: seq<string>)
    requires k < |steps| && pos <= |lines|
    ensures var next := ReplyEnd(lines, pos);
      var r := Reply(Concat(lines[pos..next]), steps[k].expected);
      Then(written, Talk(steps, k, lines, pos))
        == if r.Err? then Dialogue(written + steps[k].writes, Err(r.error))
           else Then(written + steps[k].writes, Talk(steps, k + 1, lines, next))
  {
    var next := ReplyEnd(lines, pos);
    Regroup(written, steps[k].writes, Talk(steps, k + 1, lines, next).written);
  }

  /** The parts of `$config` the dialogue uses (the password is only ever passed on encoded). */
  datatype Config = Config(encryption: string, username: string, password: string, fromName: string, recipient: string)

  /** `gethostname() ?: 'localhost'`: a failed call, "" and "0" are all falsy in PHP. */
  function HeloName(hostname: Option<string>): (h: string)
    ensures h != "" && h != "0"
    ensures hostname.Some? && hostname.value != "" && hostname.value != "0" ==> h == hostname.value
  {
    if hostname.None? || hostname.value == "" || hostname.value == "0" then "localhost" else hostname.value
  }

  /**
   * The ten exchanges of `sendEmail`: greeting 220, EHLO 250, AUTH LOGIN 334, user 334,
   * password 235, MAIL FROM 250, RCPT TO 250 or 251, DATA 354, the dot-stuffed message and its
   * terminator 250, QUIT 221.
   */
  function SmtpSteps(helo: string, config: Config, base64: string -> string, message: string): (steps: seq<Step>)
    ensures |steps| == 10
  {
    [ Step([], {220}),
      Step(["EHLO " + helo + "\r\n"], {250}),
      Step(["AUTH LOGIN\r\n"], {334}),
      Step([base64(config.username) + "\r\n"], {334}),
      Step([base64(config.password) + "\r\n"], {235}),
      Step(["MAIL FROM:<" + config.username + ">\r\n"], {250}),
      Step(["RCPT TO:<" + config.recipient + ">\r\n"], {250, 251}),
      Step(["DATA\r\n"], {354}),
      Step([DotStuff(message), END_OF_DATA], {250}),
      Step(["QUIT\r\n"], {221}) ]
  }

  /** `buildMessage($config, $subject, $body)`, with `mb_encode_mimeheader` as `encode`. */
  function MessageOf(config: Config, encode: string -> string, subject: string, body: string): string {
    BuildMessage(encode(config.fromName), config.username, config.recipient, encode(subject), body)
  }

  /** What `sendEmail` does: refuse anything but implicit TLS, give up without a socket, else talk. */
  function Mail(config: Config, hostname: Option<string>, encode: string -> string, base64: string -> string,
                subject: string, body: string, connected: bool, lines: seq<string>): Dialogue
  {
    if config.encryption != "ssl" then Dialogue([], Err(UnsupportedEncryption))
    else if !connected then Dialogue([], Err(ConnectFailed))
    else Talk(SmtpSteps(HeloName(hostname), config, base64, MessageOf(config, encode, subject, body)), 0, lines, 0)
  }

  /** `sendEmail`, command by command, each failed reply ending it. */
  method SendEmail(config: Config, hostname: Option<string>, encode: string -> string, base64: string -> string,
                   subject: string, body: string, connected: bool, lines: seq<string>)
    returns (written: seq<string>, r: Result<()>)
    ensures Dialogue(written, r) == Mail(config, hostname, encode, base64, subject, body, connected, lines)
  {
    if config.encryption != "ssl" {
      return [], Err(UnsupportedEncryption);
    }
    if !connected {
      return [], Err(ConnectFailed);
    }
    var helo := HeloName(hostname);
    written, r := Session(lines, helo, config, base64, MessageOf(config, encode, subject, body));
  }

  /** The ten steps one by one. */
  lemma SmtpStepsAt(helo: string, config: Config, base64: string -> string, message: string)
    ensures var st := SmtpSteps(helo, config, base64, message);
      && st[0] == Step([], {220})
      && st[1] == Step(["EHLO " + helo + "\r\n"], {250})
      && st[2] == Step(["AUTH LOGIN\r\n"], {334})
      && st[3] == Step([base64(config.username) + "\r\n"], {334})
      && st[4] == Step([base64(config.password) + "\r\n"], {235})
      && st[5] == Step(["MAIL FROM:<" + config.username + ">\r\n"], {250})
      && st[6] == Step(["RCPT TO:<" + config.recipient + ">\r\n"], {250, 251})
      && st[7] == Step(["DATA\r\n"], {354})
      && st[8] == Step([DotStuff(message), END_OF_DATA], {250})
      && st[9] == Step(["QUIT\r\n"], {221})
  {
  }

  /**
   * One exchange of `sendEmail`: write `writes` (one command and its CRLF for `sendCommand`,
   * nothing for the greeting, the dot-stuffed message and its terminator for the data), then
   * `expectResponse`. Ghost arguments: the `k`-th of `steps` is this exchange, `before` is
   * what was written so far, and `goal` is the whole dialogue, which this exchange either
   * ends or hands on to the next one.
   */
  method Exchange(lines: seq<string>, pos: nat, writes: seq<string>, expected: set<int>,
                  ghost steps: seq<Step>, ghost k: nat, ghost before: seq<string>, ghost goal: Dialogue)
    returns (r: Result<string>, next: nat)
    requires k < |steps| && steps[k] == Step(writes, expected) && pos <= |lines|
    requires goal == Then(before, Talk(steps, k, lines, pos))
    ensures next <= |lines|
    ensures r.Err? ==> goal == Dialogue(before + writes, Err(r.error))
    ensures r.Ok? ==> goal == Then(before + writes, Talk(steps, k + 1, lines, next))
  {
    r, next := ExpectResponse(lines, pos, expected);
    Advance(steps, k, lines, pos, before);
  }

  /** Nothing written before a dialogue leaves it as it is. */
  lemma ThenNothing(d: Dialogue)
    ensures Then([], d) == d
  {
    assert [] + d.written == d.written;
  }

  /**
   * The commands of `sendEmail` once the socket is open, each failed reply ending the session.
   * The message is built before the session (it only depends on the arguments).
   */
  method Session(lines: seq<string>, helo: string, config: Config, base64: string -> string, message: string)
    returns (written: seq<string>, r: Result<()>)
    ensures Dialogue(written, r) == Talk(SmtpSteps(helo, config, base64, message), 0, lines, 0)
  {
    ghost var steps := SmtpSteps(helo, config, base64, message);
    SmtpStepsAt(helo, config, base64, message);
    ghost var whole := Talk(steps, 0, lines, 0);
    ThenNothing(whole);
    var reply: Result<string>, pos: nat, w: seq<string>;

    reply, pos := Exchange(lines, 0, [], {220}, steps, 0, [], whole);
    written := [] + [];
    if reply.Err? {
      return written, Err(reply.error);
    }
    w := ["EHLO " + helo + "\r\n"];
    reply, pos := Exchange(lines, pos, w, {250}, steps, 1, written, whole);
    written := written + w;
    if reply.Err? {
      return written, Err(reply.error);
    }
    w := ["AUTH LOGIN\r\n"];
    reply, pos := Exchange(lines, pos, w, {334}, steps, 2, written, whole);
    written := written + w;
    if reply.Err? {
      return written, Err(reply.error);
    }
    w := [base64(config.username) + "\r\n"];
    reply, pos := Exchange(lines, pos, w, {334}, steps, 3, written, whole);
    written := written + w;
    if reply.Err? {
      return written, Err(reply.error);
    }
    w := [base64(config.password) + "\r\n"];
    reply, pos := Exchange(lines, pos, w, {235}, steps, 4, written, whole);
    written := written + w;
    if reply.Err? {
      return written, Err(reply.error);
    }
    w := ["MAIL FROM:<" + config.username + ">\r\n"];
    reply, pos := Exchange(lines, pos, w, {250}, steps, 5, written, whole);
    written := written + w;
    if reply.Err? {
      return written, Err(reply.error);
    }
    w := ["RCPT TO:<" + config.recipient + ">\r\n"];
    reply, pos := Exchange(lines, pos, w, {250, 251}, steps, 6, written, whole);
    written := written + w;
    if reply.Err? {
      return written, Err(reply.error);
    }
    w := ["DATA\r\n"];
    reply, pos := Exchange(lines, pos, w, {354}, steps, 7, written, whole);
    written := written + w;
    if reply.Err? {
      return written, Err(reply.error);
    }
    w := [DotStuff(message), END_OF_DATA];
    reply, pos := Exchange(lines, pos, w, {250}, steps, 8, written, whole);
    written := written + w;
    if reply.Err? {
      return written, Err(reply.error);
    }
    w := ["QUIT\r\n"];
    reply, pos := Exchange(lines, pos, w, {221}, steps, 9, written, whole);
    written := written + w;
    if reply.Err? {
      return written, Err(reply.error);
    }
    assert Talk(steps, 10, lines, pos) == Dialogue([], Ok(()));
    assert written + [] == written;
    r := Ok(());
  }

  /** What the whole session writes when every reply is accepted: the commands in order. */
  lemma SmtpWrites(helo: string, config: Config, base64: string -> string, message: string)
    ensures Writes(SmtpSteps(helo, config, base64, message), 0, 10)
         == [ "EHLO " + helo + "\r\n", "AUTH LOGIN\r\n",
              base64(config.username) + "\r\n", base64(config.password) + "\r\n",
              "MAIL FROM:<" + config.username + ">\r\n", "RCPT TO:<" + config.recipient + ">\r\n",
              "DATA\r\n", DotStuff(message), END_OF_DATA, "QUIT\r\n" ]
  {
    var st := SmtpSteps(helo, config, base64, message);
    SmtpStepsAt(helo, config, base64, message);
    var w9 := ["QUIT\r\n"];
    var w8 := [DotStuff(message), END_OF_DATA] + w9;
    var w7 := ["DATA\r\n"] + w8;
    var w6 := ["RCPT TO:<" + config.recipient + ">\r\n"] + w7;
    var w5 := ["MAIL FROM:<" + config.username + ">\r\n"] + w6;
    var w4 := [base64(config.password) + "\r\n"] + w5;
    var w3 := [base64(config.username) + "\r\n"] + w4;
    var w2 := ["AUTH LOGIN\r\n"] + w3;
    var w1 := ["EHLO " + helo + "\r\n"] + w2;
    assert Writes(st, 9, 10) == w9 + [];
    assert Writes(st, 8, 10) == w8;
    assert Writes(st, 7, 10) == w7;
    assert Writes(st, 6, 10) == w6;
    assert Writes(st, 5, 10) == w5;
    assert Writes(st, 4, 10) == w4;
    assert Writes(st, 3, 10) == w3;
    assert Writes(st, 2, 10) == w2;
    assert Writes(st, 1, 10) == w1;
    assert Writes(st, 0, 10) == [] + w1;
  }

  /**
   * Once `sendEmail` has its implicit-TLS socket, it succeeds exactly when every one of the ten
   * replies carries an accepted code, and then it has written the whole session.
   */
  lemma MailSucceeds(config: Config, hostname: Option<string>, encode: string -> string, base64: string -> string,
                     subject: string, body: string, lines: seq<string>)
    requires config.encryption == "ssl"
    ensures var steps := SmtpSteps(HeloName(hostname), config, base64, MessageOf(config, encode, subject, body));
      var vs := Verdicts(steps, 0, lines, 0);
      var d := Mail(config, hostname, encode, base64, subject, body, true, lines);
      && (d.result.Ok? <==> forall i :: 0 <= i < 10 ==> vs[i].Ok?)
      && (d.result.Ok? ==> d.written == Writes(steps, 0, 10))
  {
    var steps := SmtpSteps(HeloName(hostname), config, base64, MessageOf(config, encode, subject, body));
    TalkMeaning(steps, 0, lines, 0);
  }

  /**
   * `sendEmail` stops at the first reply whose code is not accepted: it has written the commands
   * up to and including that exchange's, and fails with that reply.
   */
  lemma MailStops(config: Config, hostname: Option<string>, encode: string -> string, base64: string -> string,
                  subject: string, body: string, lines: seq<string>, f: nat)
    requires config.encryption == "ssl" && f < 10
    requires var vs := Verdicts(SmtpSteps(HeloName(hostname), config, base64, MessageOf(config, encode, subject, body)), 0, lines, 0);
      (forall i :: 0 <= i < f ==> vs[i].Ok?) && vs[f].Err?
    ensures var steps := SmtpSteps(HeloName(hostname), config, base64, MessageOf(config, encode, subject, body));
      Mail(config, hostname, encode, base64, subject, body, true, lines)
      == Dialogue(Writes(steps, 0, f + 1), Err(Verdicts(steps, 0, lines, 0)[f].error))
  {
    var steps := SmtpSteps(HeloName(hostname), config, base64, MessageOf(config, encode, subject, body));
    TalkStops(steps, 0, f, lines, 0);
  }

  /** A refused greeting ends the session before the client has written anything. */
  lemma GreetingRefused(steps: seq<Step>, lines: seq<string>)
    requires steps != [] && steps[0].writes == []
    requires Verdicts(steps, 0, lines, 0)[0].Err?
    ensures Talk(steps, 0, lines, 0) == Dialogue([], Err(Verdicts(steps, 0, lines, 0)[0].error))
  {
    TalkStops(steps, 0, 0, lines, 0);
    assert Writes(steps, 0, 1) == [] + [];
  }

  /**
   * `sendEmail` fails when only the reply to QUIT is refused, although the whole session, the
   * message and its terminator included, has been written and accepted.
   */
  lemma QuitRefused(helo: string, config: Config, base64: string -> string, message: string, lines: seq<string>)
    requires var vs := Verdicts(SmtpSteps(helo, config, base64, message), 0, lines, 0);
      (forall i :: 0 <= i < 9 ==> vs[i].Ok?) && vs[9].Err?
    ensures var steps := SmtpSteps(helo, config, base64, message);
      Talk(steps, 0, lines, 0) == Dialogue(Writes(steps, 0, 10), Err(Verdicts(steps, 0, lines, 0)[9].error))
    ensures Writes(SmtpSteps(helo, config, base64, message), 0, 10)[7..9] == [DotStuff(message), END_OF_DATA]
  {
    var steps := SmtpSteps(helo, config, base64, message);
    TalkStops(steps, 0, 9, lines, 0);
    SmtpWrites(helo, config, base64, message);
  }

  /**
   * The script's top level: extract the "Day 1" snippet, compose subject and body, and mail them;
   * the first failure ends the run, before anything is written when the snippet is missing.
   */
  function Run(markdown: Option<string>, config: Config, hostname: Option<string>, encode: string -> string,
               base64: string -> string, connected: bool, lines: seq<string>): Dialogue
  {
    match ExtractSnippet(markdown, TARGET_HEADING)
    case Err(e) => Dialogue([], Err(e))
    case Ok(snippet) =>
      var (subject, body) := Compose(snippet);
      Mail(config, hostname, encode, base64, subject, body, connected, lines)
  }

  /**
   * Without the snippet nothing is written and the run fails with the extraction's error; with
   * it, the mail's subject is "PyQ日更分享 - Day 1《刻意练习》" and its body the heading, a blank
   * line and the snippet's text.
   */
  lemma RunMeaning(markdown: Option<string>, config: Config, hostname: Option<string>, encode: string -> string,
                   base64: string -> string, connected: bool, lines: seq<string>)
    ensures var x := ExtractSnippet(markdown, TARGET_HEADING);
      x.Err? ==> Run(markdown, config, hostname, encode, base64, connected, lines) == Dialogue([], Err(x.error))
    ensures var x := ExtractSnippet(markdown, TARGET_HEADING);
      x.Ok? ==>
        Run(markdown, config, hostname, encode, base64, connected, lines)
        == Mail(config, hostname, encode, base64, SUBJECT_PREFIX + TARGET_TITLE,
                TARGET_HEADING + "\n\n" + x.value.body, connected, lines)
  {
    TargetTitle();
  }
}
