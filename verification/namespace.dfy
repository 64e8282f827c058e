/** The context prefix both ContextProperties variants put in front of their keys. */
module Namespace {
  import opened Strings

  /**
    `keyWithContext`: a key that literally starts with the context is used as
    it is; any other key becomes `context + "." + key`. There is no check for
    the dot, so "apple" counts as already prefixed in the context "app".
   */
  function KeyWithContext(context: string, key: string): (r: string)
    ensures StartsWith(r, context)
    ensures StartsWith(key, context) ==> r == key
    ensures !StartsWith(key, context) ==> r == context + "." + key
  {
    if StartsWith(key, context) then key else context + "." + key
  }

  /** Prefixing twice is prefixing once. */
  lemma KeyWithContextIdempotent(context: string, key: string)
    ensures KeyWithContext(context, KeyWithContext(context, key)) == KeyWithContext(context, key)
  {
  }

  /**
    A key that does not start with the context and its qualified form name
    the same entry; for a key that does start with the context they do not.
   */
  lemma {:induction false} QualifiedKeySameEntry(context: string, key: string)
    ensures KeyWithContext(context, key) == KeyWithContext(context, context + "." + key)
        <==> !StartsWith(key, context)
  {
    var q := context + "." + key;
    assert q[..|context|] == context;
    if StartsWith(key, context) {
      assert |q| > |key|;
    }
  }
}
