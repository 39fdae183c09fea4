/**
 * The round-robin batch selector shared by the digest scripts (`produce_batch` /
 * `pick_entries`) and the persisted cursor it reads (`load_state` / `save_state`).
 * The scripts read the cursor from their state file inside the selector; here the
 * cursor is passed in explicitly.
 */
module Rotation {
  import opened Common
  import opened Text

  /** `max(1, min(count, total))`. */
  function Clamp(count: int, total: nat): (k: nat)
    ensures total >= 1 ==> 1 <= k <= total
    ensures 1 <= count <= total ==> k == count
  {
    var m := if count < total then count else total;
    if m < 1 then 1 else m
  }

  /** A batch together with the cursor for the next run. */
  datatype Selection<T> = Selection(batch: seq<T>, next: nat)

  /** `k` entries taken cyclically from position `start`. */
  function Window<T>(entries: seq<T>, start: nat, k: nat): (w: seq<T>)
    requires |entries| > 0
    ensures |w| == k
  {
    seq(k, i requires 0 <= i < k => entries[(start + i) % |entries|])
  }

  /**
   * The selection specification: the clamped count of entries taken cyclically from
   * `cursor mod total`, and the cursor just past them. An empty list is a division
   * by zero in the scripts.
   */
  function Select<T>(entries: seq<T>, cursor: int, count: int): Result<Selection<T>>
  {
    if |entries| == 0 then Err(EmptySequence)
    else
      var total := |entries|;
      var k := Clamp(count, total);
      var start := cursor % total;
      Ok(Selection(Window(entries, start, k), (start + k) % total))
  }

  /** `produce_batch` with the cursor given: fills the batch one offset at a time. */
  method ProduceBatch<T>(entries: seq<T>, cursor: int, count: int) returns (r: Result<Selection<T>>)
    ensures r.Err? <==> |entries| == 0
    ensures r.Ok? ==> |r.value.batch| == Clamp(count, |entries|) && 1 <= |r.value.batch| <= |entries|
    ensures r.Ok? ==> forall i :: 0 <= i < |r.value.batch| ==>
      r.value.batch[i] == entries[(cursor % |entries| + i) % |entries|]
    ensures r.Ok? ==> r.value.next == (cursor % |entries| + |r.value.batch|) % |entries|
    ensures r.Ok? ==> r.value.next < |entries|
    ensures r == Select(entries, cursor, count)
  {
    var total := |entries|;
    if total == 0 {
      return Err(EmptySequence);
    }
    var k := Clamp(count, total);
    var start := cursor % total;
    var batch: seq<T> := [];
    for offset := 0 to k
      invariant |batch| == offset
      invariant forall i :: 0 <= i < offset ==> batch[i] == entries[(start + i) % total]
    {
      batch := batch + [entries[(start + offset) % total]];
    }
    assert batch == Window(entries, start, k);
    r := Ok(Selection(batch, (start + k) % total));
  }

  /** Every selection holds the clamped number of entries and a next cursor in [0, total). */
  lemma SelectBounds<T>(entries: seq<T>, cursor: int, count: int)
    requires |entries| > 0
    ensures Select(entries, cursor, count).Ok?
    ensures var s := Select(entries, cursor, count).value;
      |s.batch| == Clamp(count, |entries|) && 0 <= s.next < |entries|
  {
  }

  /** total 5, stored cursor 4, count 2: entries[4], entries[0], and next 1. */
  lemma WrapAroundExample<T>(entries: seq<T>)
    requires |entries| == 5
    ensures Select(entries, 4, 2) == Ok(Selection([entries[4], entries[0]], 1))
  {
    assert Window(entries, 4, 2) == [entries[4], entries[0]];
  }

  /** A full-length batch is the whole list rotated to start at `cursor mod total`. */
  lemma {:induction false} FullBatchIsRotation<T>(entries: seq<T>, cursor: int, count: int)
    requires |entries| > 0 && count >= |entries|
    ensures var s := cursor % |entries|;
      Select(entries, cursor, count) == Ok(Selection(entries[s..] + entries[..s], s))
  {
    var n := |entries|;
    var s := cursor % n;
    var w := Window(entries, s, n);
    forall i | 0 <= i < n ensures w[i] == (entries[s..] + entries[..s])[i] {
      if i < n - s {
        ModBelow(s + i, n);
      } else {
        ModWrap(s + i, n);
      }
    }
    assert w == entries[s..] + entries[..s];
    ModWrap(s + n, n);
  }

  lemma ModBelow(x: int, n: int)
    requires 0 <= x < n
    ensures x % n == x
  {
  }

  lemma ModWrap(x: int, n: int)
    requires 0 < n <= x < 2 * n
    ensures x % n == x - n
  {
  }

  // ---------------------------------------------------------------------------
  // Repeated runs

  /** What `runs` successive runs of one entry each send, each run reading the previous one's cursor. */
  function Sent<T>(entries: seq<T>, cursor: int, runs: nat): seq<T>
    requires |entries| > 0
    decreases runs
  {
    if runs == 0 then []
    else
      var s := Select(entries, cursor, 1).value;
      s.batch + Sent(entries, s.next, runs - 1)
  }

  lemma {:induction false} SentAt<T>(entries: seq<T>, cursor: int, runs: nat, i: nat)
    requires |entries| > 0 && i < runs && i < |entries|
    ensures |Sent(entries, cursor, runs)| == runs
    ensures Sent(entries, cursor, runs)[i] == entries[(cursor % |entries| + i) % |entries|]
    decreases runs
  {
    var n := |entries|;
    var c := cursor % n;
    var next := (c + 1) % n;
    SelectOne(entries, cursor);
    assert Sent(entries, cursor, runs) == [entries[c]] + Sent(entries, next, runs - 1);
    SentLength(entries, next, runs - 1);
    if i == 0 {
      ModBelow(c, n);
    } else {
      SentAt(entries, next, runs - 1, i - 1);
      ModBelow(next, n);
      NextIndex(c, i, n);
    }
  }

  lemma SelectOne<T>(entries: seq<T>, cursor: int)
    requires |entries| > 0
    ensures var c := cursor % |entries|;
      Select(entries, cursor, 1) == Ok(Selection([entries[c]], (c + 1) % |entries|))
  {
    var c := cursor % |entries|;
    ModBelow(c, |entries|);
    assert Window(entries, c, 1) == [entries[c]];
  }

  lemma {:induction false} SentLength<T>(entries: seq<T>, cursor: int, runs: nat)
    requires |entries| > 0
    ensures |Sent(entries, cursor, runs)| == runs
    decreases runs
  {
    if runs > 0 {
      SentLength(entries, Select(entries, cursor, 1).value.next, runs - 1);
    }
  }

  /** Moving the start one place on and the offset one place back names the same position. */
  lemma NextIndex(c: int, i: int, n: int)
    requires 0 <= c < n && 1 <= i < n
    ensures (((c + 1) % n) + (i - 1)) % n == (c + i) % n
  {
    if c + 1 < n {
      ModBelow(c + 1, n);
    } else {
      ModWrap(c + 1, n);
      ModBelow(i - 1, n);
      ModWrap(c + i, n);
    }
  }

  /**
   * Rotation is exhaustive: `total` successive one-entry runs, each fed the previous
   * run's next cursor, send the list rotated to the first cursor: every entry exactly
   * once, in file order, before any repeats.
   */
  lemma {:induction false} RotationVisitsAll<T>(entries: seq<T>, cursor: int)
    requires |entries| > 0
    ensures var s := cursor % |entries|;
      Sent(entries, cursor, |entries|) == entries[s..] + entries[..s]
  {
    var n := |entries|;
    var s := cursor % n;
    var sent := Sent(entries, cursor, n);
    SentLength(entries, cursor, n);
    forall i | 0 <= i < n ensures sent[i] == (entries[s..] + entries[..s])[i] {
      SentAt(entries, cursor, n, i);
      if i < n - s {
        ModBelow(s + i, n);
      } else {
        ModWrap(s + i, n);
      }
    }
  }

  // ---------------------------------------------------------------------------
  // The persisted cursor

  /**
   * `load_state`: the stripped file content read as an integer; a missing or
   * unreadable file (`None`) or content that `ParseInt` does not read gives `fallback`.
   */
  function LoadState(content: Option<string>, fallback: int): int
  {
    match content
    case None => fallback
    case Some(t) =>
      match ParseInt(Strip(t))
      case Some(v) => v
      case None => fallback
  }

  /** `save_state` / `write_text(str(value))`: the file's new content. */
  function SaveState(value: int): string
  {
    IntToString(value)
  }

  /** Loading after saving gives back the saved integer, whatever the fallback. */
  lemma StateRoundTrip(value: int, fallback: int)
    ensures LoadState(Some(SaveState(value)), fallback) == value
  {
    IntRoundTrip(value);
  }

  /** A missing file and garbage content both fall back. */
  lemma StateFallbackExamples(fallback: int)
    ensures LoadState(None, fallback) == fallback
    ensures LoadState(Some("abc"), fallback) == fallback
  {
    GarbageFallsBack("abc", fallback);
  }

  /** Content whose first character is a letter is not an integer. */
  lemma GarbageFallsBack(t: string, fallback: int)
    requires t != [] && 'a' <= t[0] <= 'z' && 'a' <= t[|t| - 1] <= 'z'
    ensures LoadState(Some(t), fallback) == fallback
  {
    VisibleNotSpace(t[0]);
    VisibleNotSpace(t[|t| - 1]);
    StripOfTrimmed(t);
  }

}
