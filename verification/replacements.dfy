/**
  The placeholder pass of the newer ContextProperties: every registered name
  `n` turns each literal `${n}` in a value into the name's replacement text.
 */
module Replacements {
  import opened Outcomes
  import opened Strings

  /** `String.format("${%s}", name)` */
  function Token(name: string): (t: string)
    ensures |t| == |name| + 3 && t[0] == '$'
    ensures '}' !in name ==> BorderFree(t)
  {
    var t := "${" + name + "}";
    assert '}' !in name ==> BorderFree(t) by {
      if '}' !in name {
        forall n | 0 < n < |t|
          ensures t[..n] != t[|t| - n..]
        {
          assert t[|t| - n..][n - 1] == '}';
          if n >= 3 {
            assert t[n - 1] == name[n - 3];
          }
          assert t[..n][n - 1] != '}';
        }
      }
    }
    t
  }

  /** No registered token occurs in `value`. */
  predicate NoTokenIn(value: string, reps: map<string, string>) {
    forall n :: n in reps ==> !Occurs(Token(n), value)
  }

  /** The name the pass handles next: HashMap iteration order, left open. */
  ghost function Pick(reps: map<string, string>): (name: string)
    requires reps != map[]
    ensures name in reps
  {
    var name :| name in reps; name
  }

  /**
    `applyReplacements` on a non-null value: each registered name is replaced
    in turn. The names are taken in an order the model leaves open, as the
    source iterates a HashMap; results are only claimed where that order
    cannot matter.
   */
  ghost function ApplyReplacements(value: string, reps: map<string, string>): (r: string)
    ensures NoTokenIn(value, reps) ==> r == value
    decreases |reps|
  {
    if reps == map[] then value
    else
      var name := Pick(reps);
      var rest := reps - {name};
      assert |rest| < |reps| by {
        assert rest.Keys + {name} == reps.Keys;
      }
      ApplyReplacements(Replace(value, Token(name), reps[name]), rest)
  }

  /** `applyReplacements`: null is returned as it is. */
  ghost function ApplyOpt(value: Option<string>, reps: map<string, string>): (r: Option<string>)
    ensures r.None? <==> value.None?
    ensures value.Some? && NoTokenIn(value.value, reps) ==> r == value
  {
    match value
    case None => None
    case Some(v) => Some(ApplyReplacements(v, reps))
  }

  /** Text without a `$` has no placeholder and is returned unchanged. */
  lemma ApplyWithoutDollar(value: string, reps: map<string, string>)
    requires '$' !in value
    ensures ApplyReplacements(value, reps) == value
  {
    forall n | n in reps
      ensures !Occurs(Token(n), value)
    {
      NoOccurrenceWithoutHead(Token(n), value);
    }
  }

  /** With a single registered name the pass is one literal `replace`. */
  lemma ApplySingle(value: string, name: string, rep: string)
    ensures ApplyReplacements(value, map[name := rep]) == Replace(value, Token(name), rep)
  {
    var reps := map[name := rep];
    assert reps - {name} == map[];
  }

  /**
    Every occurrence of `${name}` is replaced by the registered text, however
    often it occurs.
   */
  lemma {:induction false} EveryOccurrenceReplaced(parts: seq<string>, name: string, rep: string)
    requires '}' !in name
    requires forall i :: 0 <= i < |parts| ==> !Occurs(Token(name), parts[i])
    ensures ApplyReplacements(Join(parts, Token(name)), map[name := rep]) == Join(parts, rep)
  {
    ApplySingle(Join(parts, Token(name)), name, rep);
    ReplaceJoin(parts, Token(name), rep);
  }

  // ---------------------------------------------------------------------------
  // several registered names
  // ---------------------------------------------------------------------------

  /**
    No registered name contains `$` or `}` and no registered text contains `$`:
    then a replacement can neither create a placeholder nor cut one apart.
   */
  predicate Plain(reps: map<string, string>) {
    forall n :: n in reps ==> '$' !in n && '}' !in n && '$' !in reps[n]
  }

  /** `pending` is what is left of `reps` part way through the pass. */
  predicate SubMap(pending: map<string, string>, reps: map<string, string>) {
    forall n :: n in pending ==> n in reps && pending[n] == reps[n]
  }

  /** The placeholders of `names`, in order. */
  function Tokens(names: seq<string>): (ts: seq<string>)
    ensures |ts| == |names|
  {
    seq(|names|, i requires 0 <= i < |names| => Token(names[i]))
  }

  /** The registered texts of `names`, in order. */
  function Texts(names: seq<string>, reps: map<string, string>): (ts: seq<string>)
    requires forall i :: 0 <= i < |names| ==> names[i] in reps
    ensures |ts| == |names|
  {
    seq(|names|, i requires 0 <= i < |names| => reps[names[i]])
  }

  /** One placeholder part way through the pass: still there while its name is pending. */
  function Segment(name: string, pending: map<string, string>, reps: map<string, string>): string
    requires name in reps
  {
    if name in pending then Token(name) else reps[name]
  }

  /** The placeholders of `names` part way through the pass. */
  function Segments(names: seq<string>, pending: map<string, string>, reps: map<string, string>): (segs: seq<string>)
    requires forall i :: 0 <= i < |names| ==> names[i] in reps
    ensures |segs| == |names|
  {
    seq(|names|, i requires 0 <= i < |names| => Segment(names[i], pending, reps))
  }

  /** Placeholders of two different names free of `}` never begin at the same place. */
  lemma TokensDiffer(n: string, a: string, y: string)
    requires n != a && '}' !in n && '}' !in a
    ensures !StartsWith(Token(n) + y, Token(a))
  {
    var s := Token(n) + y;
    var t := Token(a);
    if |t| <= |s| {
      var k: int;
      if |a| < |n| {
        k := 2 + |a|;
        assert s[k] == n[|a|];
      } else if |n| < |a| {
        k := 2 + |n|;
        assert t[k] == a[|n|];
      } else {
        var j :| 0 <= j < |n| && n[j] != a[j];
        k := 2 + j;
        assert s[k] == n[j] && t[k] == a[j];
      }
      assert s[..|t|][k] == s[k];
    }
  }

  /** No placeholder begins inside text without a `$`. */
  lemma NoStartInText(x: string, y: string, a: string)
    requires '$' !in x
    ensures NoStartWithin(x, y, Token(a))
  {
    forall i | 0 <= i < |x|
      ensures !StartsWith((x + y)[i..], Token(a))
    {
      assert (x + y)[i..][0] == x[i];
      HeadMismatch((x + y)[i..], Token(a));
    }
  }

  /** After `$`-free text, the placeholder of another name hides no `${a}`. */
  lemma NoStartInToken(p: string, n: string, y: string, a: string)
    requires '$' !in p && '$' !in n && '}' !in n && '}' !in a && n != a
    ensures NoStartWithin(p + Token(n), y, Token(a))
  {
    var x := p + Token(n);
    forall i | 0 <= i < |x|
      ensures !StartsWith((x + y)[i..], Token(a))
    {
      var s := (x + y)[i..];
      if i == |p| {
        assert s == Token(n) + y;
        TokensDiffer(n, a, y);
      } else {
        assert s[0] == x[i];
        if i > |p| {
          var k := i - |p|;
          assert x[i] == Token(n)[k];
          if k == 1 {
            assert Token(n)[k] == '{';
          } else if k < |n| + 2 {
            assert Token(n)[k] == n[k - 2];
          } else {
            assert Token(n)[k] == '}';
          }
        }
        HeadMismatch(s, Token(a));
      }
    }
  }

  /**
    One round of the pass: replacing `${a}` for a pending name `a` turns
    exactly its placeholders into its text and leaves the rest alone.
   */
  lemma {:induction false} ReplaceInterleaved(parts: seq<string>, names: seq<string>,
                                              pending: map<string, string>, reps: map<string, string>, a: string)
    requires |parts| == |names| + 1
    requires forall i :: 0 <= i < |parts| ==> '$' !in parts[i]
    requires forall i :: 0 <= i < |names| ==> names[i] in reps
    requires Plain(reps) && SubMap(pending, reps) && a in pending
    ensures Replace(Interleave(parts, Segments(names, pending, reps)), Token(a), reps[a])
         == Interleave(parts, Segments(names, pending - {a}, reps))
    decreases |names|
  {
    var t := Token(a);
    var segs := Segments(names, pending, reps);
    var after := Segments(names, pending - {a}, reps);
    if names == [] {
      NoOccurrenceWithoutHead(t, parts[0]);
    } else {
      assert segs[1..] == Segments(names[1..], pending, reps);
      assert after[1..] == Segments(names[1..], pending - {a}, reps);
      ReplaceInterleaved(parts[1..], names[1..], pending, reps, a);
      var rest := Interleave(parts[1..], segs[1..]);
      assert Interleave(parts, segs) == parts[0] + segs[0] + rest;
      if names[0] == a {
        NoOccurrenceWithoutHead(t, parts[0]);
        ReplaceSkips(parts[0], t, rest, reps[a]);
      } else {
        if names[0] in pending {
          NoStartInToken(parts[0], names[0], rest, a);
        } else {
          NoStartInText(parts[0] + segs[0], rest, a);
        }
        ReplaceSkipsPrefix(parts[0] + segs[0], rest, t, reps[a]);
      }
    }
  }

  /** The rounds still to come turn every pending placeholder into its text. */
  lemma {:induction false} ApplyInterleaved(parts: seq<string>, names: seq<string>,
                                            pending: map<string, string>, reps: map<string, string>)
    requires |parts| == |names| + 1
    requires forall i :: 0 <= i < |parts| ==> '$' !in parts[i]
    requires forall i :: 0 <= i < |names| ==> names[i] in reps
    requires Plain(reps) && SubMap(pending, reps)
    ensures ApplyReplacements(Interleave(parts, Segments(names, pending, reps)), pending)
         == Interleave(parts, Segments(names, map[], reps))
    decreases |pending|
  {
    if pending != map[] {
      var a := Pick(pending);
      var rest := pending - {a};
      assert |rest| < |pending| by {
        assert rest.Keys + {a} == pending.Keys;
      }
      ReplaceInterleaved(parts, names, pending, reps, a);
      ApplyInterleaved(parts, names, rest, reps);
    }
  }

  /**
    With any number of registered names, in whatever order the pass takes
    them: a value made of `$`-free text and placeholders of registered names
    comes out with every placeholder replaced by its name's text, as long as
    no name contains `$` or `}` and no text contains `$`.
   */
  lemma {:induction false} EveryPlaceholderReplaced(parts: seq<string>, names: seq<string>, reps: map<string, string>)
    requires |parts| == |names| + 1
    requires forall i :: 0 <= i < |parts| ==> '$' !in parts[i]
    requires forall i :: 0 <= i < |names| ==> names[i] in reps
    requires Plain(reps)
    ensures ApplyReplacements(Interleave(parts, Tokens(names)), reps) == Interleave(parts, Texts(names, reps))
  {
    assert Segments(names, reps, reps) == Tokens(names);
    assert Segments(names, map[], reps) == Texts(names, reps);
    ApplyInterleaved(parts, names, reps, reps);
  }
}
