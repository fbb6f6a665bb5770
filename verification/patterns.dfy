/** The regular expressions the log parsers use, all of the shape
    `.*` PATTERN `(.*)` applied with Python's `re.match`, where PATTERN is a run of
    literal characters and `\s?`.

    Under `re.match` the leading greedy `.*` first swallows the whole first line
    (`.` never matches a newline) and gives characters back one at a time, so the
    match found is the one whose PATTERN starts LAST on the first line; the group
    then takes everything up to the next newline. */
module Patterns {
  import opened Results
  import opened Text

  /** One element of PATTERN: a literal character, or `\s?`. */
  datatype Token = Lit(c: char) | OptSpace

  /** The pattern that matches exactly `text`. */
  function Literal(text: string): (p: seq<Token>)
    ensures |p| == |text| && forall k | 0 <= k < |p| :: p[k] == Lit(text[k])
  {
    seq(|text|, k requires 0 <= k < |text| => Lit(text[k]))
  }

  /** Where a match of `pat` that starts at `i` ends, trying alternatives in
      Python's order: `\s?` first takes a whitespace character and gives it back
      only when the rest cannot match after it. */
  function MatchEnd(s: string, i: nat, pat: seq<Token>): (r: Option<nat>)
    requires i <= |s|
    ensures r.Some? ==> i <= r.value <= |s|
    decreases |pat|
  {
    if |pat| == 0 then Some(i)
    else
      match pat[0]
      case Lit(c) =>
        if i < |s| && s[i] == c then MatchEnd(s, i + 1, pat[1..]) else None
      case OptSpace =>
        var taken := if i < |s| && IsSpace(s[i]) then MatchEnd(s, i + 1, pat[1..]) else None;
        if taken.Some? then taken else MatchEnd(s, i, pat[1..])
  }

  /** A literal pattern matches at `i` exactly where its text occurs. */
  lemma {:induction false} LiteralMatch(s: string, i: nat, text: string)
    requires i <= |s|
    ensures MatchEnd(s, i, Literal(text)).Some? <==> OccursAt(s, text, i)
    ensures MatchEnd(s, i, Literal(text)).Some? ==> MatchEnd(s, i, Literal(text)).value == i + |text|
    decreases |text|
  {
    if |text| > 0 {
      assert Literal(text)[1..] == Literal(text[1..]);
      if i < |s| && s[i] == text[0] {
        LiteralMatch(s, i + 1, text[1..]);
        if OccursAt(s, text, i) {
          assert s[i + 1..i + 1 + |text[1..]|] == s[i..i + |text|][1..];
        }
        if OccursAt(s, text[1..], i + 1) {
          assert s[i..i + |text|] == [s[i]] + s[i + 1..i + 1 + |text[1..]|];
          assert text == [text[0]] + text[1..];
        }
      }
    } else {
      assert s[i..i] == [];
    }
  }

  /** The first newline at or after `i`, or the end of `s`. */
  function LineEnd(s: string, i: nat): (e: nat)
    requires i <= |s|
    ensures i <= e <= |s|
    ensures '\n' !in s[i..e]
    ensures e < |s| ==> s[e] == '\n'
    decreases |s| - i
  {
    if i == |s| || s[i] == '\n' then i
    else
      var e := LineEnd(s, i + 1);
      assert s[i..e] == [s[i]] + s[i + 1..e];
      e
  }

  /** The latest start at or before `p` where `pat` matches: the backtracking of
      the greedy `.*` in front of it. */
  function LastStart(s: string, pat: seq<Token>, p: nat): (r: Option<nat>)
    requires p <= |s|
    ensures r.Some? ==> r.value <= p && MatchEnd(s, r.value, pat).Some?
    ensures r.Some? ==> forall q | r.value < q <= p :: MatchEnd(s, q, pat).None?
    ensures r.None? ==> forall q | 0 <= q <= p :: MatchEnd(s, q, pat).None?
  {
    if MatchEnd(s, p, pat).Some? then Some(p)
    else if p == 0 then None
    else LastStart(s, pat, p - 1)
  }

  /** `re.match(".*" + PATTERN + "(.*)", s).group(1)`, or None when there is no
      match. */
  function Search(s: string, pat: seq<Token>): (r: Option<string>)
    ensures r.Some? <==> exists p :: 0 <= p <= LineEnd(s, 0) && MatchEnd(s, p, pat).Some?
  {
    var limit := LineEnd(s, 0);
    match LastStart(s, pat, limit)
    case None => None
    case Some(p) =>
      assert MatchEnd(s, p, pat).Some?;
      var e := MatchEnd(s, p, pat).value;
      Some(s[e..LineEnd(s, e)])
  }

  /** On a single line, a literal pattern yields the text after its LAST
      occurrence, and matches exactly when the text occurs at all. */
  lemma SearchLiteral(s: string, text: string)
    requires '\n' !in s
    ensures Search(s, Literal(text)).Some? <==> Contains(s, text)
    ensures Search(s, Literal(text)).Some? ==>
      exists p :: && OccursAt(s, text, p)
                  && Search(s, Literal(text)).value == s[p + |text|..]
                  && forall q | p < q :: !OccursAt(s, text, q)
  {
    var pat := Literal(text);
    assert LineEnd(s, 0) == |s|;
    forall q | 0 <= q <= |s|
      ensures MatchEnd(s, q, pat).Some? <==> OccursAt(s, text, q)
    {
      LiteralMatch(s, q, text);
    }
    match LastStart(s, pat, |s|)
    case None =>
    case Some(p) =>
      LiteralMatch(s, p, text);
      var e := p + |text|;
      assert LineEnd(s, e) == |s|;
  }

  /** Two texts on which `pat` matches at the same starts up to `p` have the same
      last start. */
  lemma {:induction false} SameLastStart(s: string, t: string, pat: seq<Token>, p: nat)
    requires p <= |s| && p <= |t|
    requires forall q | 0 <= q <= p :: MatchEnd(s, q, pat).Some? <==> MatchEnd(t, q, pat).Some?
    ensures LastStart(s, pat, p) == LastStart(t, pat, p)
    decreases p
  {
    if MatchEnd(s, p, pat).None? && p > 0 {
      SameLastStart(s, t, pat, p - 1);
    }
  }

  /** The newline `readlines` leaves at the end of a line changes nothing: a
      literal pattern without newlines yields the same text with or without it. */
  lemma SearchIgnoresNewline(body: string, text: string)
    requires '\n' !in body && '\n' !in text
    ensures Search(body + "\n", Literal(text)) == Search(body, Literal(text))
  {
    var s := body + "\n";
    var pat := Literal(text);
    assert s[|body|] == '\n';
    assert forall k | 0 <= k < |body| :: s[k] == body[k];
    assert LineEnd(s, 0) == |body|;
    assert LineEnd(body, 0) == |body|;
    forall q | 0 <= q <= |body|
      ensures MatchEnd(s, q, pat).Some? <==> MatchEnd(body, q, pat).Some?
      ensures MatchEnd(s, q, pat).Some? ==> MatchEnd(s, q, pat) == MatchEnd(body, q, pat)
    {
      LiteralMatch(s, q, text);
      LiteralMatch(body, q, text);
      if OccursAt(s, text, q) {
        assert s[q..q + |text|] == body[q..q + |text|];
      }
      if OccursAt(body, text, q) {
        assert s[q..q + |text|] == body[q..q + |text|];
      }
    }
    SameLastStart(s, body, pat, |body|);
    match LastStart(body, pat, |body|)
    case None =>
    case Some(p) =>
      var e := MatchEnd(body, p, pat).value;
      assert MatchEnd(s, p, pat) == MatchEnd(body, p, pat);
      assert LineEnd(s, e) == |body|;
      assert LineEnd(body, e) == |body|;
      assert s[e..|body|] == body[e..];
      assert LastStart(s, pat, LineEnd(s, 0)) == Some(p);
      assert Search(s, pat) == Some(s[e..|body|]);
      assert LastStart(body, pat, LineEnd(body, 0)) == Some(p);
      assert body[e..LineEnd(body, e)] == body[e..];
      assert Search(body, pat) == Some(body[e..]);
  }

  /** The last defined `f(x)` over `xs`: the outcome of a loop that overwrites a
      variable each time `f` gives a value, started from nothing. */
  function LastSome<T, U>(xs: seq<T>, f: T -> Option<U>): (r: Option<U>)
    ensures r.Some? ==> exists k :: && 0 <= k < |xs|
                                    && f(xs[k]) == r
                                    && forall j | k < j < |xs| :: f(xs[j]).None?
    ensures r.None? ==> forall k | 0 <= k < |xs| :: f(xs[k]).None?
  {
    if |xs| == 0 then None
    else
      var last := f(xs[|xs| - 1]);
      if last.Some? then last
      else
        var r := LastSome(xs[..|xs| - 1], f);
        assert forall k | 0 <= k < |xs| - 1 :: xs[..|xs| - 1][k] == xs[k];
        r
  }

  /** Prepending an element changes the last value only when no later element has
      one. */
  lemma {:induction false} LastSomeCons<T, U>(xs: seq<T>, f: T -> Option<U>)
    requires |xs| > 0
    ensures LastSome(xs, f) == if LastSome(xs[1..], f).Some? then LastSome(xs[1..], f) else f(xs[0])
    decreases |xs|
  {
    if |xs| > 1 {
      var init := xs[..|xs| - 1];
      assert init[1..] == xs[1..][..|xs[1..]| - 1];
      assert xs[1..][|xs[1..]| - 1] == xs[|xs| - 1];
      LastSomeCons(init, f);
      assert init[0] == xs[0];
    } else {
      assert xs[1..] == [];
      assert xs[..0] == [];
    }
  }
}
