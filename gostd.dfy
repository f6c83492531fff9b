/**
  The pieces of Go and its standard library that the webhook's core relies on:
  error values, map reads and maps as references, strings.HasPrefix and
  slices.ContainsFunc.
 */
module GoStd {

  /** An error value as made by errors.New or fmt.Errorf; only its message is modelled. */
  datatype Error = Error(message: string)

  /** Go's index expression `m[k]` on a map[string]string: a missing key reads as "". */
  function Index(m: map<string, string>, k: string): string
  {
    if k in m then m[k] else ""
  }

  /** strings.HasPrefix */
  predicate HasPrefix(s: string, prefix: string)
  {
    |prefix| <= |s| && s[..|prefix|] == prefix
  }

  /** slices.ContainsFunc: whether some element of `s` satisfies `f`. */
  function ContainsFunc(s: seq<string>, f: string -> bool): (found: bool)
    ensures found <==> exists i :: 0 <= i < |s| && f(s[i])
  {
    if s == [] then false
    else if f(s[0]) then true
    else
      var rest := ContainsFunc(s[1..], f);
      assert forall i :: 1 <= i < |s| ==> s[i] == s[1..][i - 1];
      rest
  }

  /**
    A non-nil Go map[string]string. Go maps are references: a map passed to a
    function and written there is changed for every holder, so the model keeps
    the entries in a heap object.
   */
  class StringMap {
    var entries: map<string, string>

    /** `make(map[string]string)` when `init` is empty, or a map holding `init`. */
    constructor (init: map<string, string>)
      ensures entries == init
    {
      entries := init;
    }
  }
}
