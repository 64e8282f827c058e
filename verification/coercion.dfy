/**
  The leaf conversions the typed accessors share: `Boolean.parseBoolean`,
  `String.valueOf`, `String.charAt(0)`, `new File(..)` and the element-wise
  parse of a list. Parsers the model does not re-implement (`parseDouble`,
  `Charset.forName`, `new URL`, `new URI`, a `Format` or a `StringToType`)
  are passed in as functions `string -> Result<T>`.
 */
module Coercion {
  import opened Outcomes

  /** The ASCII lower-case form of `c`. */
  function LowerAscii(c: char): char {
    if 'A' <= c <= 'Z' then (c as int - 'A' as int + 'a' as int) as char else c
  }

  /** `s` with every ASCII upper-case letter lowered. */
  function Lowered(s: string): (r: string)
    ensures |r| == |s|
    ensures forall i :: 0 <= i < |s| ==> r[i] == LowerAscii(s[i])
  {
    seq(|s|, i requires 0 <= i < |s| => LowerAscii(s[i]))
  }

  /**
    `Boolean.parseBoolean`: true exactly for "true" in any letter case. No
    character outside ASCII upper- or lower-cases to one of the letters of
    "true", so ASCII case folding agrees with `equalsIgnoreCase` here.
   */
  function ParseBoolean(s: string): (b: bool)
    ensures b <==> Lowered(s) == "true"
  {
    var r := |s| == 4 && s[0] in "tT" && s[1] in "rR" && s[2] in "uU" && s[3] in "eE";
    assert r ==> Lowered(s) == "true" by {
      if r {
        assert Lowered(s)[0] == 't' && Lowered(s)[1] == 'r' && Lowered(s)[2] == 'u' && Lowered(s)[3] == 'e';
      }
    }
    assert Lowered(s) == "true" ==> r by {
      if Lowered(s) == "true" {
        assert LowerAscii(s[0]) == 't' && LowerAscii(s[1]) == 'r';
        assert LowerAscii(s[2]) == 'u' && LowerAscii(s[3]) == 'e';
      }
    }
    r
  }

  /** `Boolean.toString` */
  function BoolToString(b: bool): string {
    if b then "true" else "false"
  }

  /** `String.valueOf(Object)`: "null" for null, else the object's `toString`. */
  function ValueOf<T>(d: Option<T>, show: T -> string): (r: string)
    ensures d.None? ==> r == "null"
    ensures d.Some? ==> r == show(d.value)
  {
    match d
    case None => "null"
    case Some(x) => show(x)
  }

  /** A stringified Boolean default parses back to itself; a null default parses to false. */
  lemma ParseBooleanValueOf(d: Option<bool>)
    ensures ParseBoolean(ValueOf(d, BoolToString)) <==> d == Some(true)
  {
    if d == Some(false) {
      assert ValueOf(d, BoolToString) == "false";
      assert |Lowered("false")| == 5;
    } else if d == None {
      assert ValueOf(d, BoolToString) == "null";
      assert Lowered("null")[0] == 'n';
    } else {
      assert Lowered("true")[0] == 't';
      assert Lowered("true") == "true";
    }
  }

  /** A value returned where the Java method may also return null. */
  function Lift<T>(x: Result<T>): (r: Result<Option<T>>)
    ensures r.Ok? <==> x.Ok?
    ensures r.Ok? ==> r.value == Some(x.value)
    ensures r.Err? ==> r.error == x.error
  {
    match x
    case Ok(v) => Ok(Some(v))
    case Err(e) => Err(e)
  }

  /** `String.charAt(0)` */
  function CharAt0(s: string): (r: Result<char>)
    ensures r.Err? <==> s == []
    ensures r.Err? ==> r.error == IndexOutOfBounds
    ensures r.Ok? ==> r.value == s[0]
  {
    if s == [] then Err(IndexOutOfBounds) else Ok(s[0])
  }

  /** `java.io.File`, identified by the path it was built from. */
  datatype File = File(path: string)

  /** The string form of each element, in order (`toString` of each list element). */
  function Shown<T>(xs: seq<T>, show: T -> string): (r: seq<string>)
    ensures |r| == |xs|
    ensures forall i :: 0 <= i < |xs| ==> r[i] == show(xs[i])
  {
    seq(|xs|, i requires 0 <= i < |xs| => show(xs[i]))
  }

  /**
    The loop of the typed list accessors: every token is parsed in order and
    the first parse failure is thrown.
   */
  function ParseAll<T>(tokens: seq<string>, parse: string -> Result<T>): (r: Result<seq<T>>)
    ensures r.Ok? <==> forall i :: 0 <= i < |tokens| ==> parse(tokens[i]).Ok?
    ensures r.Ok? ==> (
      && |r.value| == |tokens|
      && forall i :: 0 <= i < |tokens| ==> r.value[i] == parse(tokens[i]).value)
    ensures r.Err? ==> exists i :: (
      && 0 <= i < |tokens| && parse(tokens[i]) == Err(r.error)
      && forall j :: 0 <= j < i ==> parse(tokens[j]).Ok?)
    decreases |tokens|
  {
    if tokens == [] then Ok([])
    else
      match parse(tokens[0])
      case Err(e) => Err(e)
      case Ok(x) =>
        var rest := ParseAll(tokens[1..], parse);
        assert forall i :: 1 <= i < |tokens| ==> tokens[i] == tokens[1..][i - 1];
        match rest
        case Err(e) =>
          assert exists i :: (
            && 1 <= i < |tokens| && parse(tokens[i]) == Err(e)
            && forall j :: 0 <= j < i ==> parse(tokens[j]).Ok?) by {
            var k :| 0 <= k < |tokens[1..]| && parse(tokens[1..][k]) == Err(e)
              && forall j :: 0 <= j < k ==> parse(tokens[1..][j]).Ok?;
            assert parse(tokens[k + 1]) == Err(e);
            assert forall j :: 0 <= j < k + 1 ==> parse(tokens[j]).Ok? by {
              forall j | 0 <= j < k + 1
                ensures parse(tokens[j]).Ok?
              {
                if j > 0 { assert tokens[j] == tokens[1..][j - 1]; }
              }
            }
          }
          Err(e)
        case Ok(xs) => Ok([x] + xs)
  }
}
