/** String helpers with the semantics of the JavaScript built-ins the plugin uses. */
module Text {

  type String = seq<char>

  predicate StartsWith(s: String, prefix: String) {
    |prefix| <= |s| && s[..|prefix|] == prefix
  }

  /** A string starts with its own prefix. */
  lemma StartsWithConcat(p: String, t: String)
    ensures StartsWith(p + t, p)
  {
    assert (p + t)[..|p|] == p;
  }

  /** Appending to a string keeps its prefixes. */
  lemma StartsWithAppend(s: String, p: String, t: String)
    requires StartsWith(s, p)
    ensures StartsWith(s + t, p)
  {
    assert (s + t)[..|p|] == s[..|p|];
  }

  /** A prefix `p + q` gives the prefix `p`, and `q` as a prefix of what follows `p`. */
  lemma StartsWithSplit(s: String, p: String, q: String)
    requires StartsWith(s, p + q)
    ensures StartsWith(s, p)
    ensures StartsWith(s[|p|..], q)
  {
    assert s[..|p|] == (p + q)[..|p|];
    assert s[|p|..][..|q|] == s[..|p| + |q|][|p|..];
    assert (p + q)[|p|..] == q;
  }

  /** `s.indexOf(sub)`: the first position at which `sub` occurs, or -1. */
  function IndexOf(s: String, sub: String): (r: int)
    ensures -1 <= r <= |s|
    ensures r >= 0 ==> StartsWith(s[r..], sub)
    ensures r >= 0 ==> forall j :: 0 <= j < r ==> !StartsWith(s[j..], sub)
    ensures r == -1 ==> forall j :: 0 <= j <= |s| ==> !StartsWith(s[j..], sub)
  {
    IndexFrom(s, sub, 0)
  }

  function IndexFrom(s: String, sub: String, k: nat): (r: int)
    requires k <= |s|
    ensures r == -1 || k <= r <= |s|
    ensures r >= 0 ==> StartsWith(s[r..], sub)
    ensures r >= 0 ==> forall j :: k <= j < r ==> !StartsWith(s[j..], sub)
    ensures r == -1 ==> forall j :: k <= j <= |s| ==> !StartsWith(s[j..], sub)
    decreases |s| - k
  {
    if StartsWith(s[k..], sub) then k
    else if k == |s| then -1
    else IndexFrom(s, sub, k + 1)
  }

  /** `s.includes(sub)`. */
  predicate Contains(s: String, sub: String) {
    IndexOf(s, sub) != -1
  }

  /** `s.split("/").pop()`: everything after the last '/'. */
  function LastSegment(s: String): (r: String)
    ensures '/' !in r
    ensures |r| <= |s| && s[|s| - |r|..] == r
    ensures |r| < |s| ==> s[|s| - |r| - 1] == '/'
  {
    if |s| == 0 then []
    else if s[|s| - 1] == '/' then []
    else LastSegment(s[..|s| - 1]) + [s[|s| - 1]]
  }

  /** ASCII case folding; other characters are left as they are. */
  function LowerChar(c: char): char {
    if 'A' <= c <= 'Z' then (c as int + 32) as char else c
  }

  function ToLower(s: String): (r: String)
    ensures |r| == |s|
    ensures forall i :: 0 <= i < |s| ==> r[i] == LowerChar(s[i])
  {
    seq(|s|, i requires 0 <= i < |s| => LowerChar(s[i]))
  }

  /** Regular-expression `\d`. */
  predicate IsDigit(c: char) {
    '0' <= c <= '9'
  }

  /** Regular-expression `\w`. */
  predicate IsWordChar(c: char) {
    ('a' <= c <= 'z') || ('A' <= c <= 'Z') || IsDigit(c) || c == '_'
  }

  /** Regular-expression `\s`: the ECMAScript white-space and line-terminator characters. */
  predicate IsSpace(c: char) {
    || c == ' ' || c == '\t' || c == '\n' || c == '\r'
    || c == '\U{B}' || c == '\U{C}' || c == '\U{A0}' || c == '\U{1680}'
    || ('\U{2000}' <= c <= '\U{200A}') || c == '\U{2028}' || c == '\U{2029}'
    || c == '\U{202F}' || c == '\U{205F}' || c == '\U{3000}' || c == '\U{FEFF}'
  }

  predicate AllDigits(s: String) {
    forall i :: 0 <= i < |s| ==> IsDigit(s[i])
  }

  predicate AllSpaces(s: String) {
    forall i :: 0 <= i < |s| ==> IsSpace(s[i])
  }

  /** A non-empty run of `\w` characters: what `(\w+)$` accepts. */
  predicate IsWord(s: String) {
    |s| > 0 && forall i :: 0 <= i < |s| ==> IsWordChar(s[i])
  }

  /** Length of the longest prefix of `s` all of whose characters satisfy `IsDigit`. */
  function DigitRun(s: String): (n: nat)
    ensures n <= |s|
    ensures AllDigits(s[..n])
    ensures n < |s| ==> !IsDigit(s[n])
  {
    if |s| == 0 || !IsDigit(s[0]) then 0
    else
      var n := 1 + DigitRun(s[1..]);
      assert s[..n] == [s[0]] + s[1..][..n - 1];
      n
  }

  /** Drops the longest white-space prefix, as `s.replace(/^\s+/, '')` does. */
  function TrimStart(s: String): (r: String)
    ensures |r| <= |s| && s[|s| - |r|..] == r
    ensures AllSpaces(s[..|s| - |r|])
    ensures |r| > 0 ==> !IsSpace(r[0])
  {
    if |s| == 0 || !IsSpace(s[0]) then s
    else
      var r := TrimStart(s[1..]);
      assert s[..|s| - |r|] == [s[0]] + s[1..][..|s| - 1 - |r|];
      r
  }

  /** Whether `s` begins with an episode-number prefix, i.e. `/^#\d+:/` matches. */
  predicate HasEpisodePrefix(s: String) {
    |s| >= 3 && s[0] == '#' && 0 < DigitRun(s[1..]) && 1 + DigitRun(s[1..]) < |s|
    && s[1 + DigitRun(s[1..])] == ':'
  }

  /** Removes one leading "#<digits>:" and the white space after it, as the
      plugin's `replace` with the anchored pattern `#` digits `:` white-space does. */
  function StripEpisodePrefix(s: String): (r: String)
    ensures |r| <= |s| && s[|s| - |r|..] == r
    ensures !HasEpisodePrefix(s) ==> r == s
    ensures HasEpisodePrefix(s) ==> |r| <= |s| - 3 && (|r| > 0 ==> !IsSpace(r[0]))
  {
    if HasEpisodePrefix(s) then TrimStart(s[2 + DigitRun(s[1..])..]) else s
  }

  /** Composing the prefix pieces and stripping them gives the rest back. */
  lemma StripEpisodePrefixOfComposed(digits: String, spaces: String, rest: String)
    requires |digits| > 0 && AllDigits(digits) && AllSpaces(spaces)
    requires |rest| > 0 ==> !IsSpace(rest[0])
    ensures StripEpisodePrefix("#" + digits + ":" + spaces + rest) == rest
  {
    var s := "#" + digits + ":" + spaces + rest;
    var tail := ":" + spaces + rest;
    assert s[1..] == digits + tail;
    assert DigitRun(s[1..]) == |digits| by {
      DigitRunOfDigits(digits, tail);
    }
    assert s[1 + |digits|] == ':';
    assert s[2 + |digits|..] == spaces + rest;
    assert TrimStart(spaces + rest) == rest by {
      TrimStartOfSpaces(spaces, rest);
    }
  }

  lemma DigitRunOfDigits(digits: String, tail: String)
    requires AllDigits(digits)
    requires |tail| > 0 && !IsDigit(tail[0])
    ensures DigitRun(digits + tail) == |digits|
  {
    if |digits| > 0 {
      assert (digits + tail)[1..] == digits[1..] + tail;
      DigitRunOfDigits(digits[1..], tail);
    } else {
      assert digits + tail == tail;
    }
  }

  lemma TrimStartOfSpaces(spaces: String, rest: String)
    requires AllSpaces(spaces)
    requires |rest| > 0 ==> !IsSpace(rest[0])
    ensures TrimStart(spaces + rest) == rest
  {
    if |spaces| > 0 {
      assert (spaces + rest)[1..] == spaces[1..] + rest;
      TrimStartOfSpaces(spaces[1..], rest);
    } else {
      assert spaces + rest == rest;
    }
  }

  /** The position of the first `c` in `s`. */
  function CharIndex(s: String, c: char): (i: nat)
    requires c in s
    ensures i < |s| && s[i] == c && c !in s[..i]
  {
    if s[0] == c then 0
    else
      var i := 1 + CharIndex(s[1..], c);
      assert s[..i] == [s[0]] + s[1..][..i - 1];
      i
  }

  /** A position holding `c` with no `c` before it is the first one. */
  lemma {:induction false} CharIndexIsFirst(s: String, c: char, k: nat)
    requires k < |s| && s[k] == c && c !in s[..k]
    ensures CharIndex(s, c) == k
  {
    if s[0] != c {
      assert s[1..][..k - 1] == s[..k][1..];
      CharIndexIsFirst(s[1..], c, k - 1);
    }
  }

  /** `s.split(c)` for a one-character separator: the pieces between occurrences of
      `c`, so there is always at least one, possibly empty. */
  function Split(s: String, c: char): (parts: seq<String>)
    ensures |parts| >= 1
    ensures c !in parts[0] && StartsWith(s, parts[0])
    ensures |parts[0]| < |s| ==> s[|parts[0]|] == c
    decreases |s|
  {
    if c !in s then [s]
    else
      var i := CharIndex(s, c);
      [s[..i]] + Split(s[i + 1..], c)
  }

  /** `xs.join(sep)`. */
  function Join(xs: seq<String>, sep: String): String {
    if |xs| == 0 then []
    else if |xs| == 1 then xs[0]
    else xs[0] + sep + Join(xs[1..], sep)
  }

  /** `s.replace(/a/g, b)` for single characters. */
  function ReplaceChar(s: String, a: char, b: char): (r: String)
    ensures |r| == |s|
    ensures forall i :: 0 <= i < |s| ==> r[i] == (if s[i] == a then b else s[i])
    ensures a != b ==> a !in r
  {
    seq(|s|, i requires 0 <= i < |s| => if s[i] == a then b else s[i])
  }

  /** Joining the pieces with the separator gives the string back. */
  lemma {:induction false} JoinSplit(s: String, c: char)
    ensures Join(Split(s, c), [c]) == s
    decreases |s|
  {
    if c in s {
      var i := CharIndex(s, c);
      var rest := Split(s[i + 1..], c);
      JoinSplit(s[i + 1..], c);
      assert Split(s, c) == [s[..i]] + rest;
      assert ([s[..i]] + rest)[1..] == rest;
      calc {
        Join(Split(s, c), [c]);
        s[..i] + [c] + Join(rest, [c]);
        s[..i] + [c] + s[i + 1..];
        { assert s == s[..i] + [s[i]] + s[i + 1..]; }
        s;
      }
    }
  }

  /** Splitting a join of separator-free pieces gives the pieces back. */
  lemma {:induction false} SplitJoin(xs: seq<String>, c: char)
    requires |xs| >= 1
    requires forall k :: 0 <= k < |xs| ==> c !in xs[k]
    ensures Split(Join(xs, [c]), c) == xs
  {
    if |xs| > 1 {
      var s := Join(xs, [c]);
      var tail := Join(xs[1..], [c]);
      assert s == xs[0] + [c] + tail;
      assert s[..|xs[0]|] == xs[0];
      CharIndexIsFirst(s, c, |xs[0]|);
      var i := CharIndex(s, c);
      assert s[..i] == xs[0];
      assert s[i + 1..] == tail;
      SplitJoin(xs[1..], c);
      assert xs == [xs[0]] + xs[1..];
    }
  }

  /** The part of `s` after its last `c`, or all of `s` when there is none. */
  predicate IsAfterLast(s: String, c: char, r: String) {
    c !in r && |r| <= |s| && s[|s| - |r|..] == r && (|r| < |s| ==> s[|s| - |r| - 1] == c)
  }

  /** The last piece of a split is the part after the last separator. */
  lemma {:induction false} SplitLast(s: String, c: char)
    ensures IsAfterLast(s, c, Split(s, c)[|Split(s, c)| - 1])
    decreases |s|
  {
    if c in s {
      var i := CharIndex(s, c);
      var t := s[i + 1..];
      var rest := Split(t, c);
      SplitLast(t, c);
      assert Split(s, c) == [s[..i]] + rest;
      var r := rest[|rest| - 1];
      assert Split(s, c)[|Split(s, c)| - 1] == r;
      assert IsAfterLast(t, c, r);
      assert s[|s| - |r|..] == t[|t| - |r|..];
      if |r| < |t| {
        assert s[|s| - |r| - 1] == t[|t| - |r| - 1];
      } else {
        assert |s| - |r| - 1 == i;
      }
    }
  }

  /** Two suffixes free of `c`, each either all of `s` or preceded by `c`, coincide. */
  lemma SuffixAfterLastIsUnique(s: String, c: char, r1: String, r2: String)
    requires IsAfterLast(s, c, r1) && IsAfterLast(s, c, r2)
    ensures r1 == r2
  {
  }

  /** `LastSegment` is what `split("/").pop()` returns. */
  lemma LastSegmentIsLastPiece(s: String)
    ensures var parts := Split(s, '/'); LastSegment(s) == parts[|parts| - 1]
  {
    var parts := Split(s, '/');
    var last := parts[|parts| - 1];
    assert IsAfterLast(s, '/', last) by { SplitLast(s, '/'); }
    assert IsAfterLast(s, '/', LastSegment(s)) by { LastSegmentIsAfterLast(s); }
    SuffixAfterLastIsUnique(s, '/', LastSegment(s), last);
  }

  lemma LastSegmentIsAfterLast(s: String)
    ensures IsAfterLast(s, '/', LastSegment(s))
  {
  }
}
