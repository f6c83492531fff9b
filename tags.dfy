/**
  Transparency-tag reconciliation of internal/transparency/tags.go: every
  recognized tag whose annotation is missing or empty is set to the sentinel
  "unspecified", in place, and nothing else is touched.
 */
module TransparencyTags {
  import opened Wrappers
  import opened GoStd

  const UnspecifiedTag := "unspecified"

  /** The recognized tag schema, in the order the loop visits it. */
  const Tags: seq<string> := ["dataCategories", "necessity", "autoDecision"]

  /**
    The annotation map after the fill loop has visited `tags` in order,
    starting from `m`.
   */
  function Reconciled(m: map<string, string>, tags: seq<string>): (r: map<string, string>)
    ensures r.Keys == m.Keys + set t | t in tags
    ensures forall k :: k in tags ==> r[k] == if Index(m, k) == "" then UnspecifiedTag else m[k]
    ensures forall k :: k in m && k !in tags ==> r[k] == m[k]
    decreases |tags|
  {
    if tags == [] then m
    else
      var before := Reconciled(m, tags[..|tags| - 1]);
      var tag := tags[|tags| - 1];
      assert forall t :: t in tags <==> t in tags[..|tags| - 1] || t == tag;
      if Index(before, tag) == "" then before[tag := UnspecifiedTag] else before
  }

  /** One iteration of the fill loop. */
  lemma ReconciledStep(m: map<string, string>, tags: seq<string>, i: nat)
    requires i < |tags|
    ensures Reconciled(m, tags[..i + 1])
         == var before := Reconciled(m, tags[..i]);
            if Index(before, tags[i]) == "" then before[tags[i] := UnspecifiedTag] else before
  {
    assert tags[..i + 1][..i] == tags[..i];
  }

  /**
    DecodeTags: fills the recognized tags of `m` in place and returns `m`
    itself with a nil error.
   */
  method DecodeTags(m: StringMap) returns (r: StringMap, err: Option<Error>)
    modifies m
    ensures r == m && err == None
    ensures m.entries == Reconciled(old(m.entries), Tags)
  {
    ghost var original := m.entries;
    for i := 0 to |Tags|
      invariant m.entries == Reconciled(original, Tags[..i])
    {
      ReconciledStep(original, Tags, i);
      var tag := Tags[i];
      if Index(m.entries, tag) == "" {
        m.entries := m.entries[tag := UnspecifiedTag];
      }
    }
    assert Tags[..|Tags|] == Tags;
    return m, None;
  }

  // The lemmas below hold for any schema; DecodeTags runs the loop over Tags.

  /** After reconciliation every recognized tag is present with a non-empty value. */
  lemma ReconciledTagsNonEmpty(m: map<string, string>, tags: seq<string>)
    ensures forall t :: t in tags ==> t in Reconciled(m, tags) && Reconciled(m, tags)[t] != ""
  {
  }

  /** Keys outside the schema keep their values, and no key is removed. */
  lemma ReconciledKeepsOtherKeys(m: map<string, string>, tags: seq<string>)
    ensures m.Keys <= Reconciled(m, tags).Keys
    ensures forall k :: k in m && k !in tags ==> Reconciled(m, tags)[k] == m[k]
  {
  }

  /** A map whose recognized tags all carry a non-empty value is a fixed point. */
  lemma ReconcileFullySpecified(m: map<string, string>, tags: seq<string>)
    requires forall t :: t in tags ==> Index(m, t) != ""
    ensures Reconciled(m, tags) == m
  {
    var r := Reconciled(m, tags);
    assert r.Keys == m.Keys;
    forall k | k in m
      ensures r[k] == m[k]
    {
    }
  }

  /** Reconciling an already reconciled map changes nothing. */
  lemma ReconcileIdempotent(m: map<string, string>, tags: seq<string>)
    ensures Reconciled(Reconciled(m, tags), tags) == Reconciled(m, tags)
  {
    ReconcileFullySpecified(Reconciled(m, tags), tags);
  }

  /** The keys after DecodeTags: the original keys plus the three recognized tags. */
  lemma ReconciledKeys(m: map<string, string>)
    ensures Reconciled(m, Tags).Keys == m.Keys + {"dataCategories", "necessity", "autoDecision"}
  {
    assert (set t | t in Tags) == {"dataCategories", "necessity", "autoDecision"};
  }

  /** A nil annotation map is reconciled to exactly the three tags, each "unspecified". */
  lemma ReconcileEmpty()
    ensures Reconciled(map[], Tags)
         == map["dataCategories" := UnspecifiedTag, "necessity" := UnspecifiedTag, "autoDecision" := UnspecifiedTag]
  {
    ReconciledKeys(map[]);
  }
}
