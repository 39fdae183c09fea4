/** String helpers with the semantics of the Python and PHP built-ins the scripts use. */
module Text {
  import opened Common

  /** The number of characters for which Python's `str.isspace()` holds. */
  const SPACE_COUNT := 29

  /**
   * The `i`-th of them, the most common first: the `\s` class of Python's `re` module, which
   * `str.strip()` and `str.split()` also use.
   */
  function SpaceChar(i: nat): (c: char)
    requires i < SPACE_COUNT
    ensures c <= ' ' || '\U{0085}' <= c <= '\U{3000}'
  {
    match i
    case 0 => ' '
    case 1 => '\t'
    case 2 => '\n'
    case 3 => '\r'
    case 4 => '\U{000B}'
    case 5 => '\U{000C}'
    case 6 => '\U{001C}'
    case 7 => '\U{001D}'
    case 8 => '\U{001E}'
    case 9 => '\U{001F}'
    case 10 => '\U{0085}'
    case 11 => '\U{00A0}'
    case 12 => '\U{1680}'
    case 13 => '\U{2000}'
    case 14 => '\U{2001}'
    case 15 => '\U{2002}'
    case 16 => '\U{2003}'
    case 17 => '\U{2004}'
    case 18 => '\U{2005}'
    case 19 => '\U{2006}'
    case 20 => '\U{2007}'
    case 21 => '\U{2008}'
    case 22 => '\U{2009}'
    case 23 => '\U{200A}'
    case 24 => '\U{2028}'
    case 25 => '\U{2029}'
    case 26 => '\U{202F}'
    case 27 => '\U{205F}'
    case _ => '\U{3000}'
  }

  predicate SpaceFrom(c: char, i: nat)
    requires i <= SPACE_COUNT
    decreases SPACE_COUNT - i
  {
    i < SPACE_COUNT && (c == SpaceChar(i) || SpaceFrom(c, i + 1))
  }

  /** Python's `c.isspace()`. */
  predicate IsSpace(c: char) {
    SpaceFrom(c, 0)
  }

  lemma {:induction false} SpaceRange(c: char, i: nat)
    requires i <= SPACE_COUNT && SpaceFrom(c, i)
    ensures c <= ' ' || '\U{0085}' <= c <= '\U{3000}'
    decreases SPACE_COUNT - i
  {
    if c != SpaceChar(i) {
      SpaceRange(c, i + 1);
    }
  }

  /** Whitespace lies at or below ' ', or between U+0085 and U+3000. */
  lemma SpaceBounds(c: char)
    requires IsSpace(c)
    ensures c <= ' ' || '\U{0085}' <= c <= '\U{3000}'
  {
    SpaceRange(c, 0);
  }

  /**
   * No printable ASCII character is whitespace, and neither is anything above U+3000:
   * the CJK punctuation, ideographs and full-width forms the documents use.
   */
  lemma VisibleNotSpace(c: char)
    requires ' ' < c < '\U{0085}' || '\U{3000}' < c
    ensures !IsSpace(c)
  {
    if IsSpace(c) {
      SpaceBounds(c);
    }
  }

  lemma DigitNotSpace(c: char)
    requires IsDigit(c)
    ensures !IsSpace(c)
  {
    VisibleNotSpace(c);
  }

  predicate IsDigit(c: char) { '0' <= c <= '9' }

  predicate AllDigits(s: string) { forall i :: 0 <= i < |s| ==> IsDigit(s[i]) }

  /** A string all of whose characters are whitespace (the empty string included). */
  predicate IsBlank(s: string) { forall i :: 0 <= i < |s| ==> IsSpace(s[i]) }

  predicate NotBlank(line: string) { !IsBlank(line) }

  /** Neither end of `s` is whitespace. */
  predicate Trimmed(s: string) { s == [] || (!IsSpace(s[0]) && !IsSpace(s[|s| - 1])) }

  predicate StartsWith(s: string, p: string) { |p| <= |s| && s[..|p|] == p }

  predicate EndsWith(s: string, p: string) { |p| <= |s| && s[|s| - |p|..] == p }

  /** The first index at or after `i` that does not hold whitespace, or `|s|`. */
  function SkipSpace(s: string, i: nat): (k: nat)
    requires i <= |s|
    ensures i <= k <= |s| && (k < |s| ==> !IsSpace(s[k]))
    decreases |s| - i
  {
    if i < |s| && IsSpace(s[i]) then SkipSpace(s, i + 1) else i
  }

  /** Just past the last index below `j` that does not hold whitespace, but not below `lo`. */
  function BackSpace(s: string, lo: nat, j: nat): (k: nat)
    requires lo <= j <= |s|
    ensures lo <= k <= j && (k > lo ==> !IsSpace(s[k - 1]))
    decreases j
  {
    if j > lo && IsSpace(s[j - 1]) then BackSpace(s, lo, j - 1) else j
  }

  /** Everything `SkipSpace` passes over is whitespace. */
  lemma {:induction false} SkipSpaceBlank(s: string, i: nat)
    requires i <= |s|
    ensures forall j :: i <= j < SkipSpace(s, i) ==> IsSpace(s[j])
    decreases |s| - i
  {
    if i < |s| && IsSpace(s[i]) {
      SkipSpaceBlank(s, i + 1);
    }
  }

  /** A range of whitespace characters, as a slice, is blank. */
  lemma BlankRange(s: string, i: nat, j: nat)
    requires i <= j <= |s|
    requires forall k :: i <= k < j ==> IsSpace(s[k])
    ensures IsBlank(s[i..j])
  {
    assert forall k :: 0 <= k < j - i ==> s[i..j][k] == s[i + k];
  }

  /** Everything `BackSpace` passes over is whitespace. */
  lemma {:induction false} BackSpaceBlank(s: string, lo: nat, j: nat)
    requires lo <= j <= |s|
    ensures forall m :: BackSpace(s, lo, j) <= m < j ==> IsSpace(s[m])
    decreases j
  {
    if j > lo && IsSpace(s[j - 1]) {
      BackSpaceBlank(s, lo, j - 1);
    }
  }

  /** A run of `n` whitespace characters at `i` followed by a non-whitespace one (or the end) is skipped. */
  lemma {:induction false} SkipSpaceRun(s: string, i: nat, n: nat)
    requires i + n <= |s|
    requires forall j :: i <= j < i + n ==> IsSpace(s[j])
    requires i + n < |s| ==> !IsSpace(s[i + n])
    ensures SkipSpace(s, i) == i + n
    decreases n
  {
    if n > 0 {
      SkipSpaceRun(s, i + 1, n - 1);
    }
  }

  /** A run of `n` whitespace characters below `j` preceded by a non-whitespace one (or `lo`) is passed back over. */
  lemma {:induction false} BackSpaceRun(s: string, lo: nat, j: nat, n: nat)
    requires lo + n <= j <= |s|
    requires forall m :: j - n <= m < j ==> IsSpace(s[m])
    requires j - n > lo ==> !IsSpace(s[j - n - 1])
    ensures BackSpace(s, lo, j) == j - n
    decreases n
  {
    if n > 0 {
      BackSpaceRun(s, lo, j - 1, n - 1);
    }
  }

  /** Python's `s.lstrip()`. */
  function LStrip(s: string): (r: string)
    ensures |r| <= |s|
  {
    s[SkipSpace(s, 0)..]
  }

  /** Python's `s.rstrip()`. */
  function RStrip(s: string): (r: string)
    ensures |r| <= |s|
  {
    s[..BackSpace(s, 0, |s|)]
  }

  /** Python's `s.strip()`. */
  function Strip(s: string): (r: string)
    ensures Trimmed(r) && |r| <= |s|
  {
    var a := SkipSpace(s, 0);
    s[a..BackSpace(s, a, |s|)]
  }

  /** What `strip` keeps is the infix between two runs of whitespace. */
  lemma StripSlice(s: string)
    ensures var a := SkipSpace(s, 0); var r := Strip(s);
      a + |r| <= |s| && r == s[a..a + |r|] && IsBlank(s[..a]) && IsBlank(s[a + |r|..])
  {
    var a := SkipSpace(s, 0);
    var b := BackSpace(s, a, |s|);
    SkipSpaceBlank(s, 0);
    BackSpaceBlank(s, a, |s|);
    assert forall j :: 0 <= j < a ==> s[..a][j] == s[j];
    assert forall j :: 0 <= j < |s| - b ==> s[b..][j] == s[b + j];
  }

  /** A text that does not start with whitespace strips like it right-strips. */
  lemma StripIsRStrip(s: string)
    requires s != [] && !IsSpace(s[0])
    ensures Strip(s) == RStrip(s)
  {
    assert SkipSpace(s, 0) == 0;
  }

  /** Leading whitespace before a trimmed text is all that `strip` removes. */
  lemma StripPadded(w: string, t: string)
    requires IsBlank(w) && t != [] && Trimmed(t)
    ensures Strip(w + t) == t
  {
    var s := w + t;
    assert forall k :: 0 <= k < |w| ==> s[k] == w[k];
    assert s[|w|] == t[0] && s[|s| - 1] == t[|t| - 1];
    SkipSpaceRun(s, 0, |w|);
    assert BackSpace(s, |w|, |s|) == |s|;
    assert s[|w|..] == t;
  }

  /** Skipping whitespace in `x + y` stops where it stops in `x`, or goes on into `y`. */
  lemma {:induction false} SkipSpaceAppend(x: string, y: string, i: nat)
    requires i <= |x|
    ensures SkipSpace(x, i) < |x| ==> SkipSpace(x + y, i) == SkipSpace(x, i)
    ensures SkipSpace(x, i) == |x| ==> SkipSpace(x + y, i) == SkipSpace(x + y, |x|)
    decreases |x| - i
  {
    if i < |x| {
      assert (x + y)[i] == x[i];
      if IsSpace(x[i]) {
        SkipSpaceAppend(x, y, i + 1);
      }
    }
  }

  /** Looking back from inside `x`, `x + y` has the same whitespace as `x`. */
  lemma {:induction false} BackSpaceAppend(x: string, y: string, lo: nat, j: nat)
    requires lo <= j <= |x|
    ensures BackSpace(x + y, lo, j) == BackSpace(x, lo, j)
    decreases j
  {
    if j > lo {
      assert (x + y)[j - 1] == x[j - 1];
      BackSpaceAppend(x, y, lo, j - 1);
    }
  }

  /** A whitespace character at the end does not change what `strip` keeps. */
  lemma StripTrailingSpace(x: string, c: char)
    requires IsSpace(c)
    ensures Strip(x + [c]) == Strip(x)
  {
    var s := x + [c];
    var a := SkipSpace(x, 0);
    SkipSpaceAppend(x, [c], 0);
    assert s[|x|] == c;
    if a == |x| {
      assert SkipSpace(s, |x|) == |s| by { assert SkipSpace(s, |x| + 1) == |s|; }
    } else {
      assert BackSpace(s, a, |s|) == BackSpace(s, a, |x|);
      BackSpaceAppend(x, [c], a, |x|);
      var b := BackSpace(x, a, |x|);
      assert s[a..b] == x[a..b];
    }
  }

  /** `strip` removes a '\n' after a trimmed text. */
  lemma StripLineEnd(t: string)
    requires t != [] && Trimmed(t)
    ensures Strip(t + "\n") == t
  {
    var s := t + "\n";
    assert s[0] == t[0];
    StripIsRStrip(s);
    RStripLineBreak(t);
  }

  /** A string without whitespace at either end is its own `strip`. */
  lemma StripOfTrimmed(s: string)
    requires Trimmed(s)
    ensures Strip(s) == s
  {
    if s != [] {
      assert SkipSpace(s, 0) == 0;
      assert BackSpace(s, 0, |s|) == |s|;
    }
  }

  /** `strip` gives the empty string exactly for the all-whitespace strings. */
  lemma StripEmptyIffBlank(s: string)
    ensures Strip(s) == [] <==> IsBlank(s)
  {
    var a := SkipSpace(s, 0);
    SkipSpaceBlank(s, 0);
    BackSpaceBlank(s, a, |s|);
    if IsBlank(s) {
      SkipSpaceRun(s, 0, |s|);
    }
  }

  /** Python's `s.rstrip(chars)` for an explicit set of characters. */
  function RStripChars(s: string, chars: set<char>): (r: string)
    ensures |r| <= |s| && r == s[..|r|]
  {
    s[..BackChars(s, chars, |s|)]
  }

  /** Just past the last index below `j` whose character is not in `chars`, or 0. */
  function BackChars(s: string, chars: set<char>, j: nat): (k: nat)
    requires j <= |s|
    ensures k <= j && (k > 0 ==> s[k - 1] !in chars)
    decreases j
  {
    if j > 0 && s[j - 1] in chars then BackChars(s, chars, j - 1) else j
  }

  /** `rstrip(chars)` removes only characters of `chars`. */
  lemma {:induction false} BackCharsRemoved(s: string, chars: set<char>, j: nat)
    requires j <= |s|
    ensures forall m :: BackChars(s, chars, j) <= m < j ==> s[m] in chars
    decreases j
  {
    if j > 0 && s[j - 1] in chars {
      BackCharsRemoved(s, chars, j - 1);
    }
  }

  /** The first index in `[i, j)` whose character is not in `chars`, or `j`. */
  function FrontChars(s: string, chars: set<char>, i: nat, j: nat): (k: nat)
    requires i <= j <= |s|
    ensures i <= k <= j && (k < j ==> s[k] !in chars)
    decreases j - i
  {
    if i < j && s[i] in chars then FrontChars(s, chars, i + 1, j) else i
  }

  /** `lstrip(chars)` removes only characters of `chars`. */
  lemma {:induction false} FrontCharsRemoved(s: string, chars: set<char>, i: nat, j: nat)
    requires i <= j <= |s|
    ensures forall m :: i <= m < FrontChars(s, chars, i, j) ==> s[m] in chars
    decreases j - i
  {
    if i < j && s[i] in chars {
      FrontCharsRemoved(s, chars, i + 1, j);
    }
  }

  /** PHP's `trim(s, chars)`: both ends cut back past characters of `chars`. */
  function StripChars(s: string, chars: set<char>): (r: string)
    ensures r == [] || (r[0] !in chars && r[|r| - 1] !in chars)
  {
    var b := BackChars(s, chars, |s|);
    s[FrontChars(s, chars, 0, b)..b]
  }

  /** A text whose ends are already outside `chars` is its own trim. */
  lemma StripCharsOfTrimmed(s: string, chars: set<char>)
    requires s == [] || (s[0] !in chars && s[|s| - 1] !in chars)
    ensures StripChars(s, chars) == s
  {
  }

  // ---------------------------------------------------------------------------
  // Searching

  /** `p` occurs in `s` starting at index `j`. */
  predicate OccursAt(s: string, p: string, j: int) {
    0 <= j && j + |p| <= |s| && s[j..j + |p|] == p
  }

  /** The first index at or after `from` where `p` occurs in `s`. */
  function FindFrom(s: string, p: string, from: nat): (r: Option<nat>)
    requires from <= |s|
    ensures r.Some? ==> from <= r.value && OccursAt(s, p, r.value)
    ensures r.Some? ==> forall j :: from <= j < r.value ==> !OccursAt(s, p, j)
    ensures r.None? ==> forall j :: from <= j ==> !OccursAt(s, p, j)
    decreases |s| - from
  {
    if from + |p| > |s| then None
    else if s[from..from + |p|] == p then Some(from)
    else FindFrom(s, p, from + 1)
  }

  /** The search finds the first occurrence at or after `from`. */
  lemma {:induction false} FindFirst(s: string, p: string, from: nat, k: nat)
    requires from <= k && OccursAt(s, p, k)
    requires forall j :: from <= j < k ==> !OccursAt(s, p, j)
    ensures FindFrom(s, p, from) == Some(k)
    decreases k - from
  {
    if from < k {
      FindFirst(s, p, from + 1, k);
    }
  }

  /** Python's `p in s`. */
  predicate Contains(s: string, p: string) { FindFrom(s, p, 0).Some? }

  /** Python's `s.split(p, 1)[1]` when `p in s`: the text after the first occurrence of `p`. */
  function After(s: string, p: string): (r: string)
    requires Contains(s, p)
    ensures |r| <= |s| && r == s[|s| - |r|..]
  {
    s[FindFrom(s, p, 0).value + |p|..]
  }

  /** A piece cut out of a text in which `p` never occurs has no occurrence of `p` either. */
  lemma NoOccurSlice(s: string, p: string, a: nat, b: nat)
    requires !Contains(s, p) && a <= b <= |s|
    ensures !Contains(s[a..b], p)
  {
    var t := s[a..b];
    forall j: nat ensures !OccursAt(t, p, j) {
      if j + |p| <= |t| {
        var u, v := t[j..j + |p|], s[a + j..a + j + |p|];
        assert forall m :: 0 <= m < |p| ==> u[m] == v[m];
        assert u == v;
        assert !OccursAt(s, p, a + j);
      }
    }
  }

  lemma ContainsAt(s: string, p: string, i: nat)
    requires OccursAt(s, p, i)
    ensures Contains(s, p)
  {
  }

  /** Python's `s.replace(p, "")` / PHP's `str_replace(p, '', s)`: left-to-right, non-overlapping. */
  function RemoveAll(s: string, p: string): (r: string)
    requires p != []
    ensures |r| <= |s|
  {
    if s == [] then []
    else if StartsWith(s, p) then RemoveAll(s[|p|..], p)
    else [s[0]] + RemoveAll(s[1..], p)
  }

  /** PHP's `str_replace(p, r, s)` for one search string: left-to-right, non-overlapping. */
  function ReplaceAll(s: string, p: string, r: string): string
    requires p != []
  {
    if s == [] then []
    else if StartsWith(s, p) then r + ReplaceAll(s[|p|..], p, r)
    else [s[0]] + ReplaceAll(s[1..], p, r)
  }

  /** The pieces of `ls` written one after another (PHP's repeated `.=`). */
  function Concat(ls: seq<string>): string
  {
    if ls == [] then "" else Concat(ls[..|ls| - 1]) + ls[|ls| - 1]
  }

  /** After removing every "##", no "##" is left: a kept '#' is never followed by another. */
  lemma {:induction false} RemoveAllHashPairs(s: string)
    ensures forall j :: !OccursAt(RemoveAll(s, "##"), "##", j)
    ensures !Contains(RemoveAll(s, "##"), "##")
  {
    var r := RemoveAll(s, "##");
    if s == [] {
    } else if StartsWith(s, "##") {
      RemoveAllHashPairs(s[2..]);
    } else {
      RemoveAllHashPairs(s[1..]);
      var t := RemoveAll(s[1..], "##");
      assert r == [s[0]] + t;
      forall j | 0 <= j <= |r| - 2 ensures !OccursAt(r, "##", j) {
        if j == 0 {
          if s[0] == '#' && |s| > 1 {
            assert s[1] != '#';
            assert !StartsWith(s[1..], "##");
            assert t[0] == s[1];
          }
        } else {
          assert r[j..j + 2] == t[j - 1..j + 1];
          assert !OccursAt(t, "##", j - 1);
        }
      }
    }
  }

  /** Python's `s.split(p, 1)[0]`: the text before the first occurrence of `p`, or all of `s`. */
  function Before(s: string, p: string): (r: string)
    ensures StartsWith(s, r)
  {
    match FindFrom(s, p, 0)
    case Some(k) => s[..k]
    case None => s
  }

  /** The end of the run of ASCII digits that starts at `i` (the greedy match of `\d+`). */
  function DigitsFrom(s: string, i: nat): (k: nat)
    requires i <= |s|
    ensures i <= k <= |s| && (k < |s| ==> !IsDigit(s[k]))
    decreases |s| - i
  {
    if i < |s| && IsDigit(s[i]) then DigitsFrom(s, i + 1) else i
  }

  /** Everything `DigitsFrom` passes over is a digit. */
  lemma {:induction false} DigitsFromAll(s: string, i: nat)
    requires i <= |s|
    ensures forall j :: i <= j < DigitsFrom(s, i) ==> IsDigit(s[j])
    decreases |s| - i
  {
    if i < |s| && IsDigit(s[i]) {
      DigitsFromAll(s, i + 1);
    }
  }

  /** A run of `n` digits at `i` followed by a non-digit (or the end) is what `DigitsFrom` finds. */
  lemma {:induction false} DigitsFromRun(s: string, i: nat, n: nat)
    requires i + n <= |s|
    requires forall j :: i <= j < i + n ==> IsDigit(s[j])
    requires i + n < |s| ==> !IsDigit(s[i + n])
    ensures DigitsFrom(s, i) == i + n
    decreases n
  {
    if n > 0 {
      DigitsFromRun(s, i + 1, n - 1);
    }
  }

  // ---------------------------------------------------------------------------
  // Sequence cuts, proved with nothing else in scope

  lemma Cut3<T>(s: seq<T>, i: int, j: int)
    requires 0 <= i <= j <= |s|
    ensures s == s[..i] + s[i..j] + s[j..]
  {
  }

  lemma Cut4<T>(s: seq<T>, i: int, j: int, k: int)
    requires 0 <= i <= j <= k <= |s|
    ensures s == s[..i] + s[i..j] + s[j..k] + s[k..]
  {
    assert s[i..k] == s[i..j] + s[j..k];
  }

  lemma DropDrop<T>(s: seq<T>, i: int, j: int)
    requires 0 <= i && 0 <= j && i + j <= |s|
    ensures s[i..][j..] == s[i + j..]
  {
  }

  lemma DropTake<T>(s: seq<T>, i: int, j: int)
    requires 0 <= i && 0 <= j && i + j <= |s|
    ensures s[i..][..j] == s[i..i + j]
  {
  }

  lemma SliceLeft<T>(a: seq<T>, b: seq<T>, i: int, j: int)
    requires 0 <= i <= j <= |a|
    ensures (a + b)[i..j] == a[i..j]
  {
  }

  lemma SliceRight<T>(a: seq<T>, b: seq<T>)
    ensures (a + b)[|a|..|a| + |b|] == b
  {
  }

  /** The last of `j + 1` blocks of `m` elements each. */
  lemma SliceAt<T>(prev: seq<T>, b: seq<T>, m: nat, j: nat)
    requires |prev| == m * j && |b| == m
    ensures (prev + b)[m * j..m * j + m] == b
  {
    SliceRight(prev, b);
  }

  // ---------------------------------------------------------------------------
  // Documents made of blocks

  /** The blocks `f(0)`, ..., `f(k - 1)`, one after another. */
  function Blocks<T>(f: nat -> seq<T>, k: nat): seq<T>
    decreases k
  {
    if k == 0 then [] else Blocks(f, k - 1) + f(k - 1)
  }

  lemma {:induction false} BlocksLength<T>(f: nat -> seq<T>, k: nat, m: nat)
    requires forall i :: 0 <= i < k ==> |f(i)| == m
    ensures |Blocks(f, k)| == m * k
    decreases k
  {
    if k > 0 {
      BlocksLength(f, k - 1, m);
    }
  }

  /** Block `j` of blocks of `m` elements each sits at `m * j` to `m * j + m`. */
  lemma {:induction false} BlocksAt<T>(f: nat -> seq<T>, k: nat, m: nat, j: nat)
    requires j < k
    requires forall i :: 0 <= i < k ==> |f(i)| == m
    ensures m * j + m <= |Blocks(f, k)| && Blocks(f, k)[m * j..m * j + m] == f(j)
    decreases k
  {
    var prev := Blocks(f, k - 1);
    assert Blocks(f, k) == prev + f(k - 1);
    if j == k - 1 {
      BlocksLength(f, k - 1, m);
      SliceAt(prev, f(j), m, j);
    } else {
      BlocksAt(f, k - 1, m, j);
      SliceLeft(prev, f(k - 1), m * j, m * j + m);
    }
  }

  /** After a header, block `j` of blocks of `m` elements each sits at `|hd| + m * j`, the next block right after it. */
  lemma BlockAfter<T>(hd: seq<T>, f: nat -> seq<T>, k: nat, m: nat, j: nat)
    requires j < k && m > 0
    requires forall i :: 0 <= i < k ==> |f(i)| == m
    ensures var s := hd + Blocks(f, k); var x := |hd| + m * j;
      |s| == |hd| + m * k && s[x..x + m] == f(j) && (x + m < |s| ==> s[x + m] == f(j + 1)[0])
  {
    var b := Blocks(f, k);
    BlocksLength(f, k, m);
    BlocksAt(f, k, m, j);
    var x := |hd| + m * j;
    assert (hd + b)[x..x + m] == b[m * j..m * j + m];
    if j + 1 < k {
      BlocksAt(f, k, m, j + 1);
      assert (hd + b)[x + m] == b[m * (j + 1)..m * (j + 1) + m][0];
    }
  }

  /** The first element of blocks whose first block is nonempty is that block's first. */
  lemma {:induction false} BlocksFirst<T>(f: nat -> seq<T>, k: nat)
    requires k > 0 && f(0) != []
    ensures Blocks(f, k) != [] && Blocks(f, k)[0] == f(0)[0]
    decreases k
  {
    if k > 1 {
      BlocksFirst(f, k - 1);
    } else {
      assert Blocks(f, 0) == [];
    }
  }

  /** Blocks of one element each line up with their indices. */
  lemma {:induction false} BlocksSingle<T>(f: nat -> seq<T>, k: nat)
    requires forall i :: 0 <= i < k ==> |f(i)| == 1
    ensures |Blocks(f, k)| == k && forall i :: 0 <= i < k ==> Blocks(f, k)[i] == f(i)[0]
    decreases k
  {
    if k > 0 {
      BlocksSingle(f, k - 1);
    }
  }

  /** Blocks drawn from functions that agree on the first `k` indices are the same. */
  lemma {:induction false} BlocksAgree<T>(f: nat -> seq<T>, g: nat -> seq<T>, k: nat)
    requires forall i :: 0 <= i < k ==> f(i) == g(i)
    ensures Blocks(f, k) == Blocks(g, k)
    decreases k
  {
    if k > 0 {
      BlocksAgree(f, g, k - 1);
    }
  }

  /** The first index at or after `i` whose element satisfies `p`, or `|s|` when there is none. */
  function FirstFrom<T>(s: seq<T>, i: nat, p: T -> bool): (k: nat)
    requires i <= |s|
    ensures i <= k <= |s| && (k < |s| ==> p(s[k]))
    decreases |s| - i
  {
    if i < |s| && !p(s[i]) then FirstFrom(s, i + 1, p) else i
  }

  /** Nothing the search passes over satisfies `p`. */
  lemma {:induction false} FirstFromAll<T>(s: seq<T>, i: nat, p: T -> bool)
    requires i <= |s|
    ensures forall j :: i <= j < FirstFrom(s, i, p) ==> !p(s[j])
    decreases |s| - i
  {
    if i < |s| && !p(s[i]) {
      FirstFromAll(s, i + 1, p);
    }
  }

  /** The search stops at the first element that satisfies `p`, or at the end. */
  lemma {:induction false} FirstAt<T>(s: seq<T>, i: nat, p: T -> bool, k: nat)
    requires i <= k <= |s|
    requires forall j :: i <= j < k ==> !p(s[j])
    requires k < |s| ==> p(s[k])
    ensures FirstFrom(s, i, p) == k
    decreases k - i
  {
    if i < k {
      FirstAt(s, i + 1, p, k);
    }
  }

  /** `f` applied to each element of `s`. */
  function Map<A, B>(f: A -> B, s: seq<A>): (r: seq<B>)
    ensures |r| == |s|
    decreases |s|
  {
    if s == [] then [] else [f(s[0])] + Map(f, s[1..])
  }

  lemma {:induction false} MapAt<A, B>(f: A -> B, s: seq<A>, i: nat)
    requires i < |s|
    ensures Map(f, s)[i] == f(s[i])
    decreases i
  {
    if i > 0 {
      MapAt(f, s[1..], i - 1);
    }
  }

  /** A sequence that is `f` of `s` element by element is `Map(f, s)`. */
  lemma {:induction false} MapOf<A, B>(f: A -> B, s: seq<A>, r: seq<B>)
    requires |r| == |s| && forall i :: 0 <= i < |s| ==> r[i] == f(s[i])
    ensures r == Map(f, s)
    decreases |s|
  {
    if s != [] {
      MapOf(f, s[1..], r[1..]);
      assert r == [r[0]] + r[1..];
    }
  }

  lemma {:induction false} MapAppend<A, B>(f: A -> B, a: seq<A>, b: seq<A>)
    ensures Map(f, a + b) == Map(f, a) + Map(f, b)
    decreases |a|
  {
    if a == [] {
      assert a + b == b;
    } else {
      assert (a + b)[0] == a[0];
      assert (a + b)[1..] == a[1..] + b;
      MapAppend(f, a[1..], b);
      Regroup([f(a[0])], Map(f, a[1..]), Map(f, b));
    }
  }

  /** Mapping over blocks is mapping block by block. */
  lemma {:induction false} MapBlocks<A, B>(f: A -> B, g: nat -> seq<A>, h: nat -> seq<B>, k: nat)
    requires forall i :: 0 <= i < k ==> Map(f, g(i)) == h(i)
    ensures Map(f, Blocks(g, k)) == Blocks(h, k)
    decreases k
  {
    if k > 0 {
      MapBlocks(f, g, h, k - 1);
      MapAppend(f, Blocks(g, k - 1), g(k - 1));
    }
  }

  /** `f` applied to each element of `s`, the results one after another. */
  function FlatMap<A, B>(f: A -> seq<B>, s: seq<A>): seq<B>
    decreases |s|
  {
    if s == [] then [] else f(s[0]) + FlatMap(f, s[1..])
  }

  lemma {:induction false} FlatMapAppend<A, B>(f: A -> seq<B>, a: seq<A>, b: seq<A>)
    ensures FlatMap(f, a + b) == FlatMap(f, a) + FlatMap(f, b)
    decreases |a|
  {
    if a == [] {
      assert a + b == b;
    } else {
      assert (a + b)[0] == a[0];
      assert (a + b)[1..] == a[1..] + b;
      FlatMapAppend(f, a[1..], b);
      Regroup(f(a[0]), FlatMap(f, a[1..]), FlatMap(f, b));
    }
  }

  /** Mapping over blocks is mapping block by block. */
  lemma {:induction false} FlatMapBlocks<A, B>(f: A -> seq<B>, g: nat -> seq<A>, h: nat -> seq<B>, k: nat)
    requires forall i :: 0 <= i < k ==> FlatMap(f, g(i)) == h(i)
    ensures FlatMap(f, Blocks(g, k)) == Blocks(h, k)
    decreases k
  {
    if k > 0 {
      FlatMapBlocks(f, g, h, k - 1);
      FlatMapAppend(f, Blocks(g, k - 1), g(k - 1));
    }
  }

  /** Lines none of which holds a line break. */
  predicate AllLines(lines: seq<string>) {
    forall i :: 0 <= i < |lines| ==> NoLineBreak(lines[i])
  }

  lemma AllLinesAppend(a: seq<string>, b: seq<string>)
    requires AllLines(a) && AllLines(b)
    ensures AllLines(a + b)
  {
    assert forall i :: |a| <= i < |a + b| ==> (a + b)[i] == b[i - |a|];
  }

  lemma {:induction false} BlocksAllLines(f: nat -> seq<string>, k: nat)
    requires forall i :: 0 <= i < k ==> AllLines(f(i))
    ensures AllLines(Blocks(f, k))
    decreases k
  {
    if k > 0 {
      BlocksAllLines(f, k - 1);
      AllLinesAppend(Blocks(f, k - 1), f(k - 1));
    }
  }

  lemma AppendNil<T>(a: seq<T>)
    ensures a + [] == a
  {
  }

  /** Concatenation regroups; stated as a lemma so a proof can name the step. */
  lemma Regroup<T>(a: seq<T>, b: seq<T>, c: seq<T>)
    ensures a + (b + c) == (a + b) + c
  {
  }

  lemma Parts3<T>(a: seq<T>, b: seq<T>, c: seq<T>)
    ensures var s := a + b + c;
      s[..|a|] == a && s[|a|..|a| + |b|] == b && s[|a| + |b|..] == c && s[|a|..] == b + c
  {
  }

  lemma Parts4<T>(a: seq<T>, b: seq<T>, c: seq<T>, d: seq<T>)
    ensures var s := a + b + c + d;
      s[..|a|] == a && s[|a|..|a| + |b|] == b && s[|a| + |b|..|a| + |b| + |c|] == c
      && s[|a| + |b| + |c|..] == d && s[|a| + |b|..] == c + d
  {
    Parts3(a + b, c, d);
    assert (a + b)[..|a|] == a;
  }

  // ---------------------------------------------------------------------------
  // Lines

  /** Python's `s.split(sep)` for a one-character separator. */
  function Split(s: string, sep: char): (r: seq<string>)
    ensures |r| >= 1
    ensures forall i :: 0 <= i < |r| ==> sep !in r[i]
  {
    if s == [] then [""]
    else if s[0] == sep then [""] + Split(s[1..], sep)
    else var t := Split(s[1..], sep); [[s[0]] + t[0]] + t[1..]
  }

  /** Python's `sep.join(parts)`. */
  function Join(parts: seq<string>, sep: string): string
  {
    if parts == [] then ""
    else if |parts| == 1 then parts[0]
    else parts[0] + sep + Join(parts[1..], sep)
  }

  /** The lines of a text, split at every '\n'. */
  function Lines(s: string): seq<string> { Split(s, '\n') }

  /** Lines joined with '\n'. */
  function Unlines(ls: seq<string>): string { Join(ls, "\n") }

  predicate NoLineBreak(s: string) { '\n' !in s }

  lemma {:induction false} SplitNoSep(a: string, sep: char)
    requires sep !in a
    ensures Split(a, sep) == [a]
  {
    if a != [] {
      SplitNoSep(a[1..], sep);
      assert [a[0]] + a[1..] == a;
    }
  }

  lemma {:induction false} SplitCons(a: string, sep: char, rest: string)
    requires sep !in a
    ensures Split(a + [sep] + rest, sep) == [a] + Split(rest, sep)
  {
    if a == [] {
      assert a + [sep] + rest == [sep] + rest;
      assert ([sep] + rest)[1..] == rest;
    } else {
      assert (a + [sep] + rest)[1..] == a[1..] + [sep] + rest;
      SplitCons(a[1..], sep, rest);
      assert [a[0]] + a[1..] == a;
    }
  }

  /** Joining lines that hold no separator and splitting again gives the lines back. */
  lemma {:induction false} SplitJoin(parts: seq<string>, sep: char)
    requires |parts| >= 1
    requires forall i :: 0 <= i < |parts| ==> sep !in parts[i]
    ensures Split(Join(parts, [sep]), sep) == parts
  {
    if |parts| == 1 {
      SplitNoSep(parts[0], sep);
    } else {
      SplitJoin(parts[1..], sep);
      SplitCons(parts[0], sep, Join(parts[1..], [sep]));
      assert parts[0] + [sep] + Join(parts[1..], [sep]) == parts[0] + [sep] + Join(parts[1..], [sep]);
    }
  }

  /** A character put in front of the first part is put in front of the join. */
  lemma JoinPrepend(c: char, t: seq<string>, sep: string)
    requires t != []
    ensures Join([[c] + t[0]] + t[1..], sep) == [c] + Join(t, sep)
  {
    var u := [[c] + t[0]] + t[1..];
    if |t| > 1 {
      assert u[1..] == t[1..];
      assert Join(u, sep) == ([c] + t[0]) + sep + Join(t[1..], sep);
      assert Join(t, sep) == t[0] + sep + Join(t[1..], sep);
      Regroup([c], t[0], sep + Join(t[1..], sep));
    }
  }

  /** Splitting a text and joining the pieces with the same separator gives the text back. */
  lemma {:induction false} JoinSplit(s: string, sep: char)
    ensures Join(Split(s, sep), [sep]) == s
  {
    if s == [] {
    } else if s[0] == sep {
      JoinSplit(s[1..], sep);
      assert [sep] + s[1..] == s;
    } else {
      JoinSplit(s[1..], sep);
      JoinPrepend(s[0], Split(s[1..], sep), [sep]);
      assert [s[0]] + s[1..] == s;
    }
  }

  lemma {:induction false} JoinAppend(a: seq<string>, b: seq<string>, sep: string)
    requires a != [] && b != []
    ensures Join(a + b, sep) == Join(a, sep) + sep + Join(b, sep)
  {
    if |a| == 1 {
      assert (a + b)[1..] == b;
    } else {
      assert (a + b)[1..] == a[1..] + b;
      JoinAppend(a[1..], b, sep);
    }
  }

  lemma {:induction false} JoinSingle(a: string, sep: string)
    ensures Join([a], sep) == a
  {
  }

  // ---------------------------------------------------------------------------
  // Line breaks, as Python's `read_text` and `str.splitlines` treat them

  /** What `read_text()` returns for a file: universal newlines turn "\r\n" and a lone '\r' into '\n'. */
  function ReadText(s: string): (r: string)
    ensures r == [] <==> s == []
  {
    if s == [] then [] else ReadHead(s) + ReadText(s[1..])
  }

  /** What the first character reads as: nothing for the '\r' of "\r\n", '\n' for another '\r'. */
  function ReadHead(s: string): (r: string)
    requires s != []
    ensures |s| == 1 ==> r != []
  {
    if s[0] == '\r' && |s| >= 2 && s[1] == '\n' then [] else [if s[0] == '\r' then '\n' else s[0]]
  }

  /** A text without '\r' reads as written. */
  lemma {:induction false} ReadTextPlain(s: string)
    requires '\r' !in s
    ensures ReadText(s) == s
  {
    if s != [] {
      ReadTextPlain(s[1..]);
      assert [s[0]] + s[1..] == s;
    }
  }

  /** Two texts read as one unless the first ends in '\r' and the second starts with '\n'. */
  lemma {:induction false} ReadTextAppend(a: string, b: string)
    requires a == [] || b == [] || a[|a| - 1] != '\r' || b[0] != '\n'
    ensures ReadText(a + b) == ReadText(a) + ReadText(b)
  {
    if a == [] {
      assert a + b == b;
    } else {
      var s := a + b;
      assert s[0] == a[0];
      if |a| >= 2 { assert s[1] == a[1]; } else if b != [] { assert s[1] == b[0]; }
      assert ReadHead(s) == ReadHead(a);
      assert s[1..] == a[1..] + b;
      ReadTextAppend(a[1..], b);
      Regroup(ReadHead(a), ReadText(a[1..]), ReadText(b));
    }
  }

  /** The characters `str.splitlines` breaks at. */
  predicate LineBoundary(c: char) {
    c == '\n' || c == '\r' || c == '\U{000B}' || c == '\U{000C}' || c == '\U{001C}' || c == '\U{001D}'
    || c == '\U{001E}' || c == '\U{0085}' || c == '\U{2028}' || c == '\U{2029}'
  }

  /** A text with no line boundary in it. */
  predicate Plain(s: string) { forall i :: 0 <= i < |s| ==> !LineBoundary(s[i]) }

  /** Every line boundary written as '\n'. */
  function BoundariesAsNewlines(s: string): (r: string)
    ensures |r| == |s|
  {
    if s == [] then [] else [if LineBoundary(s[0]) then '\n' else s[0]] + BoundariesAsNewlines(s[1..])
  }

  lemma {:induction false} BoundariesAppend(a: string, b: string)
    ensures BoundariesAsNewlines(a + b) == BoundariesAsNewlines(a) + BoundariesAsNewlines(b)
  {
    if a != [] {
      assert (a + b)[1..] == a[1..] + b;
      BoundariesAppend(a[1..], b);
    } else {
      assert a + b == b;
    }
  }

  lemma {:induction false} BoundariesPlain(s: string)
    requires Plain(s)
    ensures BoundariesAsNewlines(s) == s
  {
    if s != [] {
      BoundariesPlain(s[1..]);
      assert [s[0]] + s[1..] == s;
    }
  }

  /**
   * Python's `s.splitlines()`: the pieces between line boundaries, "\r\n" counting as one, and
   * no empty piece after a final boundary.
   */
  function SplitLines(s: string): (r: seq<string>)
    ensures AllLines(r)
  {
    var t := Split(BoundariesAsNewlines(ReadText(s)), '\n');
    if t[|t| - 1] == "" then t[..|t| - 1] else t
  }

  /** A plain line, then '\n', reads and splits as that line ahead of the rest. */
  lemma PlainLineFirst(a: string, rest: string)
    requires Plain(a)
    ensures Split(BoundariesAsNewlines(ReadText(a + "\n" + rest)), '\n')
         == [a] + Split(BoundariesAsNewlines(ReadText(rest)), '\n')
  {
    assert '\r' !in a && '\n' !in a by { assert forall i :: 0 <= i < |a| ==> !LineBoundary(a[i]); }
    ReadTextPlain(a);
    BoundariesPlain(a);
    var nl := "\n" + rest;
    assert a + "\n" + rest == a + nl;
    ReadTextAppend(a, nl);
    assert nl[1..] == rest;
    var r := ReadText(rest);
    assert ReadText(nl) == "\n" + r;
    BoundariesAppend(a, "\n" + r);
    assert ("\n" + r)[1..] == r;
    var b := BoundariesAsNewlines(r);
    assert BoundariesAsNewlines("\n" + r) == "\n" + b;
    SplitCons(a, '\n', b);
    Regroup(a, "\n", b);
  }

  /** Plain lines joined with '\n' read and split give the lines back. */
  lemma {:induction false} PlainJoinSplits(ls: seq<string>)
    requires ls != [] && forall i :: 0 <= i < |ls| ==> Plain(ls[i])
    ensures Split(BoundariesAsNewlines(ReadText(Unlines(ls))), '\n') == ls
  {
    var a := ls[0];
    if |ls| == 1 {
      assert '\r' !in a && '\n' !in a by { assert forall i :: 0 <= i < |a| ==> !LineBoundary(a[i]); }
      ReadTextPlain(a);
      BoundariesPlain(a);
      SplitNoSep(a, '\n');
    } else {
      assert Unlines(ls) == a + "\n" + Unlines(ls[1..]);
      PlainLineFirst(a, Unlines(ls[1..]));
      PlainJoinSplits(ls[1..]);
      assert [a] + ls[1..] == ls;
    }
  }

  /** A text of plain lines, each ended by '\n', splits back into those lines. */
  lemma SplitLinesRoundTrip(ls: seq<string>)
    requires ls != [] && forall i :: 0 <= i < |ls| ==> Plain(ls[i])
    ensures SplitLines(Unlines(ls) + "\n") == ls
  {
    var t := ls + [""];
    JoinAppend(ls, [""], "\n");
    assert Unlines(t) == Unlines(ls) + "\n";
    forall i | 0 <= i < |t| ensures Plain(t[i]) {
      if i < |ls| { assert t[i] == ls[i]; }
    }
    PlainJoinSplits(t);
    assert t[..|t| - 1] == ls;
  }

  /** "\r\n" counts as one boundary, and no empty line follows a final boundary. */
  lemma SplitLinesCrlf()
    ensures SplitLines("a\r\n") == ["a"]
  {
    var s := "a\r\n";
    assert s[1..] == "\r\n" && s[1..][1..] == "\n";
    assert ReadText("\r\n") == "\n";
    assert ReadText(s) == "a\n";
    var t := "a\n";
    assert t[1..] == "\n";
    assert BoundariesAsNewlines(t) == t;
    SplitCons("a", '\n', "");
  }

  /** U+2028 is a line boundary. */
  lemma SplitLinesSeparator()
    ensures SplitLines("a\U{2028}b") == ["a", "b"]
  {
    var s := "a\U{2028}b";
    assert '\r' !in s;
    ReadTextPlain(s);
    assert s[1..] == "\U{2028}b" && s[1..][1..] == "b";
    assert BoundariesAsNewlines("b") == "b";
    assert BoundariesAsNewlines("\U{2028}b") == "\nb";
    assert BoundariesAsNewlines(s) == "a\nb";
    SplitNoSep("b", '\n');
    SplitCons("a", '\n', "b");
  }

  // ---------------------------------------------------------------------------
  // Rendered text that ends in exactly one line break

  /** `s` ends in one '\n' that follows a non-whitespace character. */
  predicate EndsWithOneNewline(s: string) {
    |s| >= 2 && s[|s| - 1] == '\n' && !IsSpace(s[|s| - 2])
  }

  lemma RStripNewline(s: string)
    requires RStrip(s) != []
    ensures EndsWithOneNewline(RStrip(s) + "\n")
  {
  }

  lemma StripNewline(s: string)
    requires Strip(s) != []
    ensures EndsWithOneNewline(Strip(s) + "\n")
  {
  }

  /** The line break in front of a following line makes no difference to the stripped body. */
  lemma GroupStrip(ls: seq<string>)
    ensures Strip(Unlines(ls + [""])) == Strip(Unlines(ls))
  {
    if ls == [] {
      assert ls + [""] == [""];
    } else {
      JoinAppend(ls, [""], "\n");
      assert Unlines(ls + [""]) == Unlines(ls) + ['\n'];
      assert IsSpace('\n');
      StripTrailingSpace(Unlines(ls), '\n');
    }
  }

  /** The stripped join of one line and an empty line is the stripped line. */
  lemma LineStrip(t: string)
    ensures Strip(Unlines([t, ""])) == Strip(t)
  {
    GroupStrip([t]);
    assert [t] + [""] == [t, ""];
    JoinSingle(t, "\n");
  }

  /** A list of lines ending in "" right after a line that ends in a non-whitespace character. */
  predicate EndsClean(ls: seq<string>) {
    |ls| >= 2 && ls[|ls| - 1] == "" && ls[|ls| - 2] != [] && !IsSpace(ls[|ls| - 2][|ls[|ls| - 2]| - 1])
  }

  /** Lines without line breaks, joined and split again. */
  lemma LinesOfUnlines(ls: seq<string>)
    requires |ls| >= 1 && AllLines(ls)
    ensures Lines(Unlines(ls)) == ls
  {
    SplitJoin(ls, '\n');
  }

  lemma EndsCleanAppend(a: seq<string>, b: seq<string>)
    requires EndsClean(b)
    ensures EndsClean(a + b)
  {
    assert (a + b)[|a + b| - 1] == b[|b| - 1] && (a + b)[|a + b| - 2] == b[|b| - 2];
  }

  lemma BlocksEndClean(f: nat -> seq<string>, k: nat)
    requires k > 0 && EndsClean(f(k - 1))
    ensures EndsClean(Blocks(f, k))
  {
    EndsCleanAppend(Blocks(f, k - 1), f(k - 1));
  }

  /**
   * The renderers end their list of lines cleanly; then `"\n".join(lines).rstrip() + "\n"`
   * is the plain join of the lines, and it ends in exactly one line break.
   */
  lemma {:induction false} RStripJoinEmptyLast(ls: seq<string>)
    requires EndsClean(ls)
    ensures RStrip(Unlines(ls)) + "\n" == Unlines(ls)
    ensures EndsWithOneNewline(Unlines(ls))
  {
    var init := ls[..|ls| - 1];
    assert ls == init + [""];
    JoinAppend(init, [""], "\n");
    assert Unlines(ls) == Unlines(init) + "\n";
    LastOfJoin(init);
    var x := Unlines(init);
    assert x[|x| - 1] == init[|init| - 1][|init[|init| - 1]| - 1];
    RStripLineBreak(x);
  }

  /** `rstrip` removes one '\n' after a non-whitespace character. */
  lemma RStripLineBreak(x: string)
    requires x != [] && !IsSpace(x[|x| - 1])
    ensures RStrip(x + "\n") == x
  {
    var s := x + "\n";
    assert s[|x|] == '\n' && s[|x| - 1] == x[|x| - 1];
    assert IsSpace('\n');
    assert BackSpace(s, 0, |s|) == BackSpace(s, 0, |x|) == |x|;
    assert s[..|x|] == x;
  }

  /** The join ends with the last part. */
  lemma {:induction false} LastOfJoin(ls: seq<string>)
    requires ls != []
    ensures EndsWith(Unlines(ls), ls[|ls| - 1])
  {
    if |ls| > 1 {
      LastOfJoin(ls[1..]);
    }
  }

  /** The join starts with the first part. */
  lemma {:induction false} FirstOfJoin(ls: seq<string>)
    requires ls != []
    ensures StartsWith(Unlines(ls), ls[0])
  {
  }

  // ---------------------------------------------------------------------------
  // Integers, as Python's `int()` and `str()` treat them

  function DigitChar(d: nat): (c: char)
    requires d < 10
    ensures IsDigit(c) && c as int - '0' as int == d
  {
    ('0' as int + d) as char
  }

  /** The decimal digits of `n`, most significant first, without leading zeros. */
  function NatToString(n: nat): (r: string)
    ensures |r| >= 1 && AllDigits(r)
  {
    if n < 10 then [DigitChar(n)] else NatToString(n / 10) + [DigitChar(n % 10)]
  }

  /** Python's `str(v)` for an integer. */
  function IntToString(v: int): (r: string)
    ensures r != [] && !IsSpace(r[0]) && !IsSpace(r[|r| - 1])
  {
    var d := NatToString(if v < 0 then -v else v);
    DigitNotSpace(d[0]);
    DigitNotSpace(d[|d| - 1]);
    VisibleNotSpace('-');
    if v < 0 then "-" + d else d
  }

  function DigitsValue(s: string): nat
    requires AllDigits(s)
  {
    if s == [] then 0 else DigitsValue(s[..|s| - 1]) * 10 + (s[|s| - 1] as int - '0' as int)
  }

  /**
   * Python's `int(s)` on an already stripped text, for an optional sign followed by one or
   * more ASCII digits; anything else is None. Python's `int` also accepts single '_' between
   * digits ("1_000") and non-ASCII decimal digits ("١٢"); here those are None too.
   */
  function ParseInt(s: string): Option<int>
  {
    if s != [] && (s[0] == '-' || s[0] == '+') then
      if |s| >= 2 && AllDigits(s[1..]) then
        var n: int := DigitsValue(s[1..]);
        Some(if s[0] == '-' then -n else n)
      else None
    else if s != [] && AllDigits(s) then Some(DigitsValue(s))
    else None
  }

  lemma {:induction false} DigitsOfNat(n: nat)
    ensures DigitsValue(NatToString(n)) == n
  {
    if n >= 10 {
      DigitsOfNat(n / 10);
      var s := NatToString(n);
      assert s[..|s| - 1] == NatToString(n / 10);
    }
  }

  /** `int(str(v).strip()) == v` for every integer. */
  lemma IntRoundTrip(v: int)
    ensures Strip(IntToString(v)) == IntToString(v)
    ensures ParseInt(IntToString(v)) == Some(v)
  {
    StripOfTrimmed(IntToString(v));
    ParseIntOfString(v);
  }

  lemma ParseIntOfString(v: int)
    ensures ParseInt(IntToString(v)) == Some(v)
  {
    var s := IntToString(v);
    if v < 0 {
      var d := NatToString(-v);
      DigitsOfNat(-v);
      assert s == "-" + d;
      assert s[1..] == d;
    } else {
      var d := NatToString(v);
      DigitsOfNat(v);
      assert s == d;
      assert IsDigit(s[0]);
    }
  }
}
