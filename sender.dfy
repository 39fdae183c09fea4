/**
 * What the sender scripts share besides the rotation: the subject line, the
 * `"\n".join(lines).strip() + "\n"` body ending, and the rule that the state file is
 * written only after a successful send.
 */
module Sender {
  import opened Common
  import opened Text
  import opened Rotation

  /** What a run produces: the mail's subject and body, and the state file's new content if any. */
  datatype Outcome = Outcome(subject: string, body: string, state: Option<string>)

  /** `arg or fallback`: an option given on the command line wins unless it is empty. */
  function Prefer(arg: Option<string>, fallback: string): string
  {
    if arg.Some? && arg.value != "" then arg.value else fallback
  }

  /** `f"{prefix} - {'、'.join(titles)}"`. */
  function Subject(prefix: string, titles: seq<string>): (r: string)
    ensures StartsWith(r, prefix + " - ")
  {
    var r := prefix + " - " + Join(titles, "、");
    assert r[..|prefix + " - "|] == prefix + " - ";
    r
  }

  /** The titles can be read back from the subject when no title holds '、'. */
  lemma SubjectTitles(prefix: string, titles: seq<string>)
    requires titles != []
    requires forall i :: 0 <= i < |titles| ==> '、' !in titles[i]
    ensures var n := |prefix + " - "|;
      var s := Subject(prefix, titles);
      Split(s[n..], '、') == titles
  {
    var n := |prefix + " - "|;
    var s := Subject(prefix, titles);
    assert s[n..] == Join(titles, "、");
    SplitJoin(titles, '、');
  }

  /** A one-entry batch names just that entry. */
  lemma SubjectOne(prefix: string, title: string)
    ensures Subject(prefix, [title]) == prefix + " - " + title
  {
  }

  /** `"\n".join(lines).strip() + "\n"`. */
  function Finish(lines: seq<string>): string
  {
    Strip(Unlines(lines)) + "\n"
  }

  /**
   * Lines that start with a non-whitespace character and end cleanly are sent as
   * they are: the body is their plain join, and it ends in exactly one '\n'.
   */
  lemma FinishClean(lines: seq<string>)
    requires EndsClean(lines) && lines[0] != [] && !IsSpace(lines[0][0])
    ensures Finish(lines) == Unlines(lines)
    ensures EndsWithOneNewline(Finish(lines))
  {
    RStripJoinEmptyLast(lines);
    FirstOfJoin(lines);
    var s := Unlines(lines);
    assert s[0] == lines[0][0];
    StripIsRStrip(s);
  }

  /** Whatever the lines, a body with any visible text ends in exactly one '\n'. */
  lemma FinishEnds(lines: seq<string>)
    requires Strip(Unlines(lines)) != []
    ensures EndsWithOneNewline(Finish(lines))
  {
    StripNewline(Unlines(lines));
  }

  /** How a run ends: printed only, sent, or with the send raising. */
  datatype Delivery = DryRun | Delivered | SendFailed

  /**
   * The new content of the state file, or `None` when it is left alone: only a
   * run whose send returned writes the next cursor.
   */
  function Persist(d: Delivery, next: int): (w: Option<string>)
    ensures w.Some? <==> d == Delivered
  {
    if d == Delivered then Some(SaveState(next)) else None
  }

  /** The next run reads back the cursor a successful run wrote. */
  lemma PersistRoundTrip(next: int, fallback: int)
    ensures LoadState(Persist(Delivered, next), fallback) == next
  {
    StateRoundTrip(next, fallback);
  }
}
