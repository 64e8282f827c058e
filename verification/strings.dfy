/**
  The commons-lang string helpers the accessors rely on: `startsWith`,
  `split(String, String)`, `join(Iterable, String)` and `replace`.
  Each is given a definition of its own together with the properties the
  accessors depend on.
 */
module Strings {

  /** `prefix` is an initial segment of `s` (commons-lang `startsWith`, case-sensitive). */
  predicate StartsWith(s: string, prefix: string) {
    |prefix| <= |s| && s[..|prefix|] == prefix
  }

  /** `startsWith` compares character by character. */
  lemma StartsWithCharwise(s: string, prefix: string)
    ensures StartsWith(s, prefix) <==> |prefix| <= |s| && forall i :: 0 <= i < |prefix| ==> s[i] == prefix[i]
  {
    if |prefix| <= |s| && forall i :: 0 <= i < |prefix| ==> s[i] == prefix[i] {
      assert s[..|prefix|] == prefix;
    }
  }

  /** `t` occurs somewhere in `s`. */
  predicate Occurs(t: string, s: string)
    decreases |s|
  {
    StartsWith(s, t) || (s != [] && Occurs(t, s[1..]))
  }

  /** No character of `w` is one of `seps`. */
  predicate NoneIn(w: string, seps: string) {
    forall i :: 0 <= i < |w| ==> w[i] !in seps
  }

  /** Every character of `w` is one of `seps`. */
  predicate AllIn(w: string, seps: string) {
    forall i :: 0 <= i < |w| ==> w[i] in seps
  }

  /** `s` with every separator character removed. */
  function Strip(s: string, seps: string): string
    decreases |s|
  {
    if s == [] then []
    else if s[0] in seps then Strip(s[1..], seps)
    else [s[0]] + Strip(s[1..], seps)
  }

  /** The strings of `xs` written one after the other. */
  function Concat(xs: seq<string>): string
    decreases |xs|
  {
    if xs == [] then [] else xs[0] + Concat(xs[1..])
  }

  // ---------------------------------------------------------------------------
  // split
  // ---------------------------------------------------------------------------

  /** Length of the leading run of non-separator characters of `s`. */
  function RunLength(s: string, seps: string): (n: nat)
    ensures n <= |s|
    ensures forall i :: 0 <= i < n ==> s[i] !in seps
    ensures n < |s| ==> s[n] in seps
    decreases |s|
  {
    if s == [] || s[0] in seps then 0 else 1 + RunLength(s[1..], seps)
  }

  /**
    commons-lang `split(str, separatorChars)`: the maximal runs of characters
    that are not in `separatorChars`, in order; adjacent separators produce no
    empty tokens.
   */
  function Split(s: string, seps: string): (r: seq<string>)
    ensures forall i :: 0 <= i < |r| ==> r[i] != [] && NoneIn(r[i], seps)
    ensures Concat(r) == Strip(s, seps)
    decreases |s|
  {
    if s == [] then []
    else if s[0] in seps then Split(s[1..], seps)
    else
      var n := RunLength(s, seps);
      StripRun(s, n, seps);
      var r := [s[..n]] + Split(s[n..], seps);
      assert r[1..] == Split(s[n..], seps);
      r
  }

  /** A leading run without separators survives `Strip` unchanged. */
  lemma {:induction false} StripRun(s: string, n: nat, seps: string)
    requires n <= |s|
    requires forall i :: 0 <= i < n ==> s[i] !in seps
    ensures Strip(s, seps) == s[..n] + Strip(s[n..], seps)
    decreases n
  {
    if n > 0 {
      StripRun(s[1..], n - 1, seps);
      assert s[1..][..n - 1] == s[1..n];
      assert s[1..][n - 1..] == s[n..];
      assert [s[0]] + s[1..n] == s[..n];
    }
  }

  /** Leading separators are dropped by `Split`. */
  lemma {:induction false} SplitSkipsSeparators(g: string, rest: string, seps: string)
    requires AllIn(g, seps)
    ensures Split(g + rest, seps) == Split(rest, seps)
    decreases |g|
  {
    if g != [] {
      assert g[0] in seps;
      assert (g + rest)[0] == g[0];
      assert (g + rest)[1..] == g[1..] + rest;
      SplitSkipsSeparators(g[1..], rest, seps);
    } else {
      assert g + rest == rest;
    }
  }

  /** The leading run of `tok + rest` is `tok` when `rest` is empty or starts with a separator. */
  lemma {:induction false} RunLengthToken(tok: string, rest: string, seps: string)
    requires NoneIn(tok, seps)
    requires rest == [] || rest[0] in seps
    ensures RunLength(tok + rest, seps) == |tok|
    decreases |tok|
  {
    if tok != [] {
      assert (tok + rest)[0] == tok[0];
      assert (tok + rest)[1..] == tok[1..] + rest;
      RunLengthToken(tok[1..], rest, seps);
    } else {
      assert tok + rest == rest;
    }
  }

  /** A separator-free token followed by a separator (or by nothing) is split off whole. */
  lemma SplitToken(tok: string, rest: string, seps: string)
    requires tok != [] && NoneIn(tok, seps)
    requires rest == [] || rest[0] in seps
    ensures Split(tok + rest, seps) == [tok] + Split(rest, seps)
  {
    var s := tok + rest;
    RunLengthToken(tok, rest, seps);
    assert s[0] == tok[0];
    assert s[..|tok|] == tok;
    assert s[|tok|..] == rest;
  }

  /** Gaps interleaved with tokens: gaps[0] toks[0] gaps[1] ... toks[k-1] gaps[k]. */
  function Interleave(gaps: seq<string>, toks: seq<string>): string
    requires |gaps| == |toks| + 1
    decreases |toks|
  {
    if toks == [] then gaps[0] else gaps[0] + toks[0] + Interleave(gaps[1..], toks[1..])
  }

  /**
    `Split` recovers exactly the tokens of any layout in which non-empty,
    separator-free tokens are separated by non-empty runs of separators: the
    tokens it returns are the maximal non-separator runs.
   */
  lemma {:induction false} SplitInterleave(gaps: seq<string>, toks: seq<string>, seps: string)
    requires |gaps| == |toks| + 1
    requires forall i :: 0 <= i < |gaps| ==> AllIn(gaps[i], seps)
    requires forall i :: 0 < i < |toks| ==> gaps[i] != []
    requires forall i :: 0 <= i < |toks| ==> toks[i] != [] && NoneIn(toks[i], seps)
    ensures Split(Interleave(gaps, toks), seps) == toks
    decreases |toks|
  {
    if toks == [] {
      SplitSkipsSeparators(gaps[0], [], seps);
      assert gaps[0] + [] == gaps[0];
    } else {
      var tail := Interleave(gaps[1..], toks[1..]);
      assert Interleave(gaps, toks) == gaps[0] + (toks[0] + tail);
      SplitSkipsSeparators(gaps[0], toks[0] + tail, seps);
      if |toks| > 1 {
        assert tail == gaps[1] + toks[1] + Interleave(gaps[2..], toks[2..]);
        assert tail[0] == gaps[1][0];
      } else {
        assert tail == gaps[1];
      }
      SplitToken(toks[0], tail, seps);
      SplitInterleave(gaps[1..], toks[1..], seps);
    }
  }

  // ---------------------------------------------------------------------------
  // join
  // ---------------------------------------------------------------------------

  /** commons-lang `join(iterable, separator)` over non-null elements. */
  function Join(xs: seq<string>, sep: string): (r: string)
    ensures xs == [] ==> r == []
    ensures |xs| > 0 ==> StartsWith(r, xs[0])
    ensures |xs| > 0 ==> |r| == |Concat(xs)| + (|xs| - 1) * |sep|
    decreases |xs|
  {
    if |xs| == 0 then ""
    else if |xs| == 1 then xs[0]
    else xs[0] + sep + Join(xs[1..], sep)
  }

  /**
    Joining with a separator string and splitting again returns the list
    exactly when every element is non-empty and free of separator
    characters.
   */
  lemma {:induction false} SplitJoin(xs: seq<string>, sep: string, seps: string)
    requires sep != [] && AllIn(sep, seps)
    ensures Split(Join(xs, sep), seps) == xs
        <==> forall i :: 0 <= i < |xs| ==> xs[i] != [] && NoneIn(xs[i], seps)
    decreases |xs|
  {
    if forall i :: 0 <= i < |xs| ==> xs[i] != [] && NoneIn(xs[i], seps) {
      SplitJoinElements(xs, sep, seps);
    }
  }

  lemma {:induction false} SplitJoinElements(xs: seq<string>, sep: string, seps: string)
    requires sep != [] && AllIn(sep, seps)
    requires forall i :: 0 <= i < |xs| ==> xs[i] != [] && NoneIn(xs[i], seps)
    ensures Split(Join(xs, sep), seps) == xs
    decreases |xs|
  {
    if |xs| == 1 {
      SplitToken(xs[0], [], seps);
      assert xs[0] + [] == xs[0];
    } else if |xs| > 1 {
      var tail := Join(xs[1..], sep);
      assert Join(xs, sep) == xs[0] + (sep + tail);
      assert (sep + tail)[0] == sep[0];
      SplitToken(xs[0], sep + tail, seps);
      SplitSkipsSeparators(sep, tail, seps);
      SplitJoinElements(xs[1..], sep, seps);
      assert [xs[0]] + xs[1..] == xs;
    }
  }

  /** A character found in neither the elements nor the separator is not in the joined text. */
  lemma {:induction false} JoinAvoids(xs: seq<string>, sep: string, c: char)
    requires c !in sep
    requires forall i :: 0 <= i < |xs| ==> c !in xs[i]
    ensures c !in Join(xs, sep)
    decreases |xs|
  {
    if |xs| > 1 {
      JoinAvoids(xs[1..], sep, c);
    }
  }

  // ---------------------------------------------------------------------------
  // replace
  // ---------------------------------------------------------------------------

  /**
    commons-lang `replace(text, searchString, replacement)`: every
    non-overlapping occurrence of `t`, scanning left to right, is replaced by
    `r`, literally. An empty search string leaves the text alone.
   */
  function Replace(s: string, t: string, r: string): (res: string)
    ensures !Occurs(t, s) ==> res == s
    ensures r == t ==> res == s
    decreases |s|
  {
    if t == [] || |s| < |t| then s
    else if s[..|t|] == t then
      assert s == t + s[|t|..];
      r + Replace(s[|t|..], t, r)
    else
      assert s == [s[0]] + s[1..];
      [s[0]] + Replace(s[1..], t, r)
  }

  /** No non-empty proper suffix of `t` is also a prefix of it. */
  predicate BorderFree(t: string) {
    forall n :: 0 < n < |t| ==> t[..n] != t[|t| - n..]
  }

  /** An occurrence inside `p` is an occurrence inside `p + q`. */
  lemma {:induction false} OccursExtend(t: string, p: string, q: string)
    requires Occurs(t, p)
    ensures Occurs(t, p + q)
    decreases |p|
  {
    if StartsWith(p, t) {
      assert (p + q)[..|t|] == p[..|t|];
    } else {
      assert (p + q)[1..] == p[1..] + q;
      OccursExtend(t, p[1..], q);
    }
  }

  /**
    Scanning `p + t + q` from a non-empty `p` free of `t`, the scan cannot
    match at the first position, since that match would lie inside `p` or
    give `t` a border.
   */
  lemma NoEarlyMatch(p: string, t: string, q: string)
    requires p != [] && t != [] && !Occurs(t, p) && BorderFree(t)
    ensures (p + t + q)[..|t|] != t
  {
    var s := p + t + q;
    if |p| >= |t| {
      assert p[..|t|] == s[..|t|];
      assert !StartsWith(p, t);
    } else {
      var n := |t| - |p|;
      assert s[..|t|] == p + t[..n];
      assert (p + t[..n])[|p|..] == t[..n];
      assert t[..n] != t[|t| - n..];
      assert t[|t| - n..] == t[|p|..];
    }
  }

  /** One step of the scan when the text does not start with `t`. */
  lemma ReplaceNoMatchStep(s: string, t: string, r: string)
    requires t != [] && |s| >= |t| && s[..|t|] != t
    ensures Replace(s, t, r) == [s[0]] + Replace(s[1..], t, r)
  {
  }

  /** One step of the scan when the text starts with `t`. */
  lemma ReplaceMatchStep(t: string, q: string, r: string)
    requires t != []
    ensures Replace(t + q, t, r) == r + Replace(q, t, r)
  {
    var s := t + q;
    assert s[..|t|] == t && s[|t|..] == q;
  }

  /** Prepending a character at which the scan does not match prepends it to the result. */
  lemma ReplaceConsStep(c: char, u: string, t: string, r: string, v: string)
    requires t != [] && |[c] + u| >= |t| && ([c] + u)[..|t|] != t
    requires Replace(u, t, r) == v
    ensures Replace([c] + u, t, r) == [c] + v
  {
    ReplaceNoMatchStep([c] + u, t, r);
    assert ([c] + u)[1..] == u;
  }

  /** `p + u + v` is its first character followed by the rest. */
  lemma HeadTail(p: string, u: string, v: string)
    requires p != []
    ensures p + u + v == [p[0]] + (p[1..] + u + v)
  {
    assert p == [p[0]] + p[1..];
  }

  /** The first occurrence of `t` in `p + t + q`, for `p` free of `t`, is the one after `p`. */
  lemma {:induction false} ReplaceSkips(p: string, t: string, q: string, r: string)
    requires t != [] && !Occurs(t, p) && BorderFree(t)
    ensures Replace(p + t + q, t, r) == p + r + Replace(q, t, r)
    decreases |p|
  {
    if p == [] {
      assert p + t + q == t + q;
      ReplaceMatchStep(t, q, r);
    } else {
      var tail := p[1..];
      assert !Occurs(t, tail);
      ReplaceSkips(tail, t, q, r);
      NoEarlyMatch(p, t, q);
      HeadTail(p, t, q);
      ReplaceConsStep(p[0], tail + t + q, t, r, tail + r + Replace(q, t, r));
      HeadTail(p, r, Replace(q, t, r));
    }
  }

  /**
    Every occurrence is replaced: when the separator `t` has no border and no
    part contains it, replacing `t` by `r` in the parts joined with `t` gives
    the parts joined with `r`.
   */
  lemma {:induction false} ReplaceJoin(parts: seq<string>, t: string, r: string)
    requires t != [] && BorderFree(t)
    requires forall i :: 0 <= i < |parts| ==> !Occurs(t, parts[i])
    ensures Replace(Join(parts, t), t, r) == Join(parts, r)
    decreases |parts|
  {
    if |parts| > 1 {
      var tail := Join(parts[1..], t);
      assert Join(parts, t) == parts[0] + t + tail;
      ReplaceSkips(parts[0], t, tail, r);
      ReplaceJoin(parts[1..], t, r);
    }
  }

  /** A text whose first character differs from that of `t` does not start with `t`. */
  lemma HeadMismatch(s: string, t: string)
    requires s != [] && t != [] && s[0] != t[0]
    ensures !StartsWith(s, t)
  {
    if |t| <= |s| {
      assert s[..|t|][0] == s[0];
    }
  }

  /** No occurrence of `t` begins inside `x`, a prefix of `x + y`. */
  predicate NoStartWithin(x: string, y: string, t: string) {
    forall i :: 0 <= i < |x| ==> !StartsWith((x + y)[i..], t)
  }

  /** Dropping the first character of `x` keeps `NoStartWithin`. */
  lemma NoStartWithinTail(x: string, y: string, t: string)
    requires x != [] && NoStartWithin(x, y, t)
    ensures NoStartWithin(x[1..], y, t) && !StartsWith(x + y, t)
  {
    var s := x + y;
    assert s[0..] == s;
    forall i | 0 <= i < |x| - 1
      ensures !StartsWith((x[1..] + y)[i..], t)
    {
      assert (x[1..] + y)[i..] == s[i + 1..];
    }
  }

  /** `p + u` is the first character of `p` followed by the rest of `p` and `u`. */
  lemma ConsSplit(p: string, u: string)
    requires p != []
    ensures p + u == [p[0]] + (p[1..] + u)
  {
    assert p == [p[0]] + p[1..];
  }

  /** The scan copies a prefix `x` at none of whose positions an occurrence of `t` begins. */
  lemma {:induction false} ReplaceSkipsPrefix(x: string, y: string, t: string, r: string)
    requires t != [] && NoStartWithin(x, y, t)
    ensures Replace(x + y, t, r) == x + Replace(y, t, r)
    decreases |x|
  {
    if x == [] {
      assert x + y == y;
    } else if |x + y| < |t| {
      assert Replace(y, t, r) == y;
    } else {
      var tail := x[1..];
      var v := tail + Replace(y, t, r);
      NoStartWithinTail(x, y, t);
      ReplaceSkipsPrefix(tail, y, t, r);
      ConsSplit(x, y);
      ReplaceConsStep(x[0], tail + y, t, r, v);
      ConsSplit(x, Replace(y, t, r));
    }
  }

  /** A string without the first character of `t` contains no occurrence of `t`. */
  lemma {:induction false} NoOccurrenceWithoutHead(t: string, s: string)
    requires t != [] && t[0] !in s
    ensures !Occurs(t, s)
    decreases |s|
  {
    if s != [] {
      assert s[0] != t[0];
      if |t| <= |s| {
        assert s[..|t|][0] == s[0];
      }
      NoOccurrenceWithoutHead(t, s[1..]);
    }
  }
}
