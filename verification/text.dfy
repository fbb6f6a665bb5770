/** Python string operations used by the log parsers, on `string` = `seq<char>`.

    Whitespace is what Python's `str.isspace()` accepts; `str.strip()`, `str.split()`
    without arguments and the `\s` class of `re` all use it. */
module Text {
  import opened Results

  /** Python's `str.isspace()` for one character. */
  predicate IsSpace(c: char) {
    || c == ' ' || c == '\t' || c == '\n' || c == '\r'
    || c == '\U{B}' || c == '\U{C}'
    || ('\U{1C}' <= c <= '\U{1F}')
    || c == '\U{85}' || c == '\U{A0}' || c == '\U{1680}'
    || ('\U{2000}' <= c <= '\U{200A}')
    || c == '\U{2028}' || c == '\U{2029}' || c == '\U{202F}' || c == '\U{205F}' || c == '\U{3000}'
  }

  predicate IsPrefix(p: string, s: string) {
    |p| <= |s| && s[..|p|] == p
  }

  predicate IsSuffix(x: string, s: string) {
    |x| <= |s| && s[|s| - |x|..] == x
  }

  /** `sub` occurs in `s` starting at index `i`. */
  predicate OccursAt(s: string, sub: string, i: int) {
    0 <= i && i + |sub| <= |s| && s[i..i + |sub|] == sub
  }

  /** Python's `sub in s`, searched left to right. */
  function Contains(s: string, sub: string): (r: bool)
    ensures r <==> exists i :: OccursAt(s, sub, i)
    decreases |s|
  {
    if IsPrefix(sub, s) then
      assert OccursAt(s, sub, 0);
      true
    else if |s| == 0 then
      false
    else
      var r := Contains(s[1..], sub);
      if r then
        var i :| OccursAt(s[1..], sub, i);
        assert OccursAt(s, sub, i + 1) by {
          assert s[i + 1..i + 1 + |sub|] == s[1..][i..i + |sub|];
        }
        true
      else
        assert !OccursAt(s, sub, 0) by {
          assert |sub| > |s| || s[0..|sub|] == s[..|sub|];
        }
        assert forall i | OccursAt(s, sub, i) :: OccursAt(s[1..], sub, i - 1) by {
          forall i | OccursAt(s, sub, i)
            ensures OccursAt(s[1..], sub, i - 1)
          {
            assert s[1..][i - 1..i - 1 + |sub|] == s[i..i + |sub|];
          }
        }
        false
  }

  /** The index of the first `c` in `s`, as Python's `str.find` (None for -1). */
  function Find(s: string, c: char): (r: Option<nat>)
    ensures r.None? <==> c !in s
    ensures r.Some? ==> r.value < |s| && s[r.value] == c && c !in s[..r.value]
  {
    if |s| == 0 then None
    else if s[0] == c then Some(0)
    else
      match Find(s[1..], c)
      case None => None
      case Some(i) =>
        assert s[..i + 1] == [s[0]] + s[1..][..i];
        Some(i + 1)
  }

  /** Python's `s.split(sep)` for a one-character separator: never empty. */
  function Split(s: string, sep: char): (r: seq<string>)
    ensures |r| >= 1
    ensures forall k | 0 <= k < |r| :: sep !in r[k]
    decreases |s|
  {
    match Find(s, sep)
    case None => [s]
    case Some(i) => [s[..i]] + Split(s[i + 1..], sep)
  }

  /** The inverse of `Split`: the pieces joined with the separator. */
  function Join(pieces: seq<string>, sep: char): string
    requires |pieces| >= 1
  {
    if |pieces| == 1 then pieces[0] else pieces[0] + [sep] + Join(pieces[1..], sep)
  }

  lemma {:induction false} JoinSplit(s: string, sep: char)
    ensures Join(Split(s, sep), sep) == s
    decreases |s|
  {
    match Find(s, sep)
    case None =>
    case Some(i) =>
      var rest := Split(s[i + 1..], sep);
      JoinSplit(s[i + 1..], sep);
      assert Split(s, sep) == [s[..i]] + rest;
      assert ([s[..i]] + rest)[1..] == rest;
      assert Join([s[..i]] + rest, sep) == s[..i] + [sep] + Join(rest, sep);
      assert s == s[..i] + [sep] + s[i + 1..];
  }

  /** The length of the run of non-whitespace characters that starts `s`. */
  function WordLength(s: string): (n: nat)
    ensures n <= |s|
    ensures forall k | 0 <= k < n :: !IsSpace(s[k])
    ensures n < |s| ==> IsSpace(s[n])
  {
    if |s| == 0 || IsSpace(s[0]) then 0 else 1 + WordLength(s[1..])
  }

  /** Python's `s.split()`: the maximal runs of non-whitespace characters, in order. */
  function Words(s: string): (r: seq<string>)
    ensures forall k | 0 <= k < |r| :: |r[k]| > 0 && forall j | 0 <= j < |r[k]| :: !IsSpace(r[k][j])
    decreases |s|
  {
    if |s| == 0 then []
    else if IsSpace(s[0]) then Words(s[1..])
    else
      var n := WordLength(s);
      [s[..n]] + Words(s[n..])
  }

  /** The run length is determined by where the first whitespace character is. */
  lemma WordLengthAt(s: string, m: nat)
    requires m <= |s| && forall k | 0 <= k < m :: !IsSpace(s[k])
    requires m < |s| ==> IsSpace(s[m])
    ensures WordLength(s) == m
  {
  }

  /** A whitespace-free, non-empty string is one word. */
  lemma WordsOfWord(w: string)
    requires |w| > 0 && forall k | 0 <= k < |w| :: !IsSpace(w[k])
    ensures Words(w) == [w]
  {
    WordLengthAt(w, |w|);
    assert w[..|w|] == w && w[|w|..] == [];
  }

  /** Whitespace alone holds no word. */
  lemma {:induction false} WordsOfSpace(s: string)
    requires AllSpace(s)
    ensures Words(s) == []
    decreases |s|
  {
    if |s| > 0 {
      WordsOfSpace(s[1..]);
    }
  }

  /** Text after a whitespace character does not lengthen the run that starts `a`. */
  lemma WordLengthBeforeSpace(a: string, c: char, b: string)
    requires IsSpace(c)
    ensures WordLength(a + [c] + b) == WordLength(a)
    ensures (a + [c] + b)[..WordLength(a)] == a[..WordLength(a)]
    ensures (a + [c] + b)[WordLength(a)..] == a[WordLength(a)..] + [c] + b
  {
    var s := a + [c] + b;
    var m := WordLength(a);
    assert forall k | 0 <= k < m :: s[k] == a[k];
    assert m < |s| && IsSpace(s[m]) by {
      if m < |a| { assert s[m] == a[m]; } else { assert s[m] == c; }
    }
    WordLengthAt(s, m);
  }

  /** A whitespace character separates words: the words on either side of it are
      the words of the two sides, none spanning it. */
  lemma {:induction false} WordsSplitAtSpace(a: string, c: char, b: string)
    requires IsSpace(c)
    ensures Words(a + [c] + b) == Words(a) + Words(b)
    decreases |a|
  {
    var s := a + [c] + b;
    if |a| == 0 {
      assert Words(s) == Words(b) by {
        assert s[0] == c && s[1..] == b;
      }
    } else if IsSpace(a[0]) {
      assert Words(s) == Words(a[1..] + [c] + b) by {
        assert s[0] == a[0] && s[1..] == a[1..] + [c] + b;
      }
      WordsSplitAtSpace(a[1..], c, b);
    } else {
      var m := WordLength(a);
      WordLengthBeforeSpace(a, c, b);
      assert Words(s) == [a[..m]] + Words(a[m..] + [c] + b) by {
        assert s[0] == a[0];
      }
      WordsSplitAtSpace(a[m..], c, b);
    }
  }

  /** The characters of `s` that are not whitespace, in order. */
  function Visible(s: string): string {
    if |s| == 0 then [] else (if IsSpace(s[0]) then [] else [s[0]]) + Visible(s[1..])
  }

  function Concat(pieces: seq<string>): string {
    if |pieces| == 0 then [] else pieces[0] + Concat(pieces[1..])
  }

  lemma VisibleAppend(a: string, b: string)
    ensures Visible(a + b) == Visible(a) + Visible(b)
  {
    if |a| > 0 {
      assert (a + b)[0] == a[0] && (a + b)[1..] == a[1..] + b;
      VisibleAppend(a[1..], b);
    } else {
      assert a + b == b;
    }
  }

  /** `Words` loses only whitespace: the words put together are the visible characters. */
  lemma {:induction false} WordsKeepVisible(s: string)
    ensures Concat(Words(s)) == Visible(s)
    decreases |s|
  {
    if |s| == 0 {
    } else if IsSpace(s[0]) {
      WordsKeepVisible(s[1..]);
    } else {
      var n := WordLength(s);
      WordsKeepVisible(s[n..]);
      assert s == s[..n] + s[n..];
      VisibleAppend(s[..n], s[n..]);
      VisibleOfWord(s[..n]);
    }
  }

  lemma VisibleOfWord(w: string)
    requires forall k | 0 <= k < |w| :: !IsSpace(w[k])
    ensures Visible(w) == w
  {
    if |w| > 0 {
      VisibleOfWord(w[1..]);
    }
  }

  /** The number of leading whitespace characters of `s`. */
  function LeadingSpace(s: string): (n: nat)
    ensures n <= |s|
    ensures forall k | 0 <= k < n :: IsSpace(s[k])
    ensures n < |s| ==> !IsSpace(s[n])
  {
    if |s| == 0 || !IsSpace(s[0]) then 0 else 1 + LeadingSpace(s[1..])
  }

  /** The number of trailing whitespace characters of `s`. */
  function TrailingSpace(s: string): (n: nat)
    ensures n <= |s|
    ensures forall k | |s| - n <= k < |s| :: IsSpace(s[k])
    ensures n < |s| ==> !IsSpace(s[|s| - n - 1])
  {
    if |s| == 0 || !IsSpace(s[|s| - 1]) then 0 else 1 + TrailingSpace(s[..|s| - 1])
  }

  predicate AllSpace(s: string) {
    forall k | 0 <= k < |s| :: IsSpace(s[k])
  }

  /** Python's `s.strip()`. */
  function Strip(s: string): (r: string)
    ensures exists a | 0 <= a <= |s| - |r| :: s[a..a + |r|] == r && AllSpace(s[..a]) && AllSpace(s[a + |r|..])
    ensures |r| > 0 ==> !IsSpace(r[0]) && !IsSpace(r[|r| - 1])
  {
    var a := LeadingSpace(s);
    var rest := s[a..];
    var t := TrailingSpace(rest);
    var r := rest[..|rest| - t];
    assert s[a..a + |r|] == r;
    assert AllSpace(s[..a]);
    var tail := s[a + |r|..];
    assert AllSpace(tail) by {
      forall k | 0 <= k < |tail|
        ensures IsSpace(tail[k])
      {
        assert tail[k] == rest[|rest| - t + k];
      }
    }
    assert |r| > 0 ==> r[0] == s[a] && r[|r| - 1] == rest[|rest| - t - 1];
    r
  }

  /** Python's `s[a:b]` for non-negative bounds: both are clamped to the length, and
      a start past the end gives an empty slice. */
  function Slice<T>(s: seq<T>, a: nat, b: nat): (r: seq<T>)
    ensures a <= b <= |s| ==> r == s[a..b]
    ensures |s| <= a || b <= a ==> r == []
    ensures a < |s| <= b ==> r == s[a..]
  {
    var lo := if a < |s| then a else |s|;
    var hi := if b < |s| then b else |s|;
    if hi <= lo then [] else s[lo..hi]
  }

  /** The index of the first line that is exactly "\n", the blank line that ends a
      log's data section. */
  function FirstBlank(lines: seq<string>): (r: Option<nat>)
    ensures r.Some? ==> r.value < |lines| && lines[r.value] == "\n"
    ensures r.Some? ==> forall k | 0 <= k < r.value :: lines[k] != "\n"
    ensures r.None? ==> forall k | 0 <= k < |lines| :: lines[k] != "\n"
  {
    if |lines| == 0 then None
    else if lines[0] == "\n" then Some(0)
    else
      match FirstBlank(lines[1..])
      case None => None
      case Some(i) => Some(i + 1)
  }
}
