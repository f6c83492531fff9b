/**
  The older admission decision of cmd/webhook-server/main.go
  (applyTransparencyLabeling): a pass-through for anything but pods, no
  residency check, and a single JSON Patch operation. Its tag schema is
  purposes / legitimateInterest / legalBasis, and only ABSENT tags are
  filled: a tag present with an empty value is kept.
 */
module LegacyWebhookServer {
  import opened Wrappers
  import opened GoStd
  import opened Admission

  const UnspecifiedTag := "unspecified"

  /** The legacy tag schema, in the order the fill loop visits it. */
  const Tags: seq<string> := ["purposes", "legitimateInterest", "legalBasis"]

  /** The operation emitted for a pod without annotations; its value is kept as the literal text it is in the source. */
  const AddMetadataOp := PatchOperation("add", MetadataPath,
    Text("{\"annotations\": {\"legalBasis\": \"unspecified\", \"legitimateInterest\": \"unspecified\", \"purposes\": \"unspecified\"}"))

  /** The annotation map after the fill loop has visited `tags` in order, starting from `m`. */
  function FilledAbsent(m: map<string, string>, tags: seq<string>): (r: map<string, string>)
    ensures r.Keys == m.Keys + set t | t in tags
    ensures forall k :: k in m ==> r[k] == m[k]
    ensures forall k :: k in tags && k !in m ==> r[k] == UnspecifiedTag
    decreases |tags|
  {
    if tags == [] then m
    else
      var before := FilledAbsent(m, tags[..|tags| - 1]);
      var tag := tags[|tags| - 1];
      assert forall t :: t in tags <==> t in tags[..|tags| - 1] || t == tag;
      if tag !in before then before[tag := UnspecifiedTag] else before
  }

  /** One iteration of the fill loop. */
  lemma FilledAbsentStep(m: map<string, string>, tags: seq<string>, i: nat)
    requires i < |tags|
    ensures FilledAbsent(m, tags[..i + 1])
         == var before := FilledAbsent(m, tags[..i]);
            if tags[i] !in before then before[tags[i] := UnspecifiedTag] else before
  {
    assert tags[..i + 1][..i] == tags[..i];
  }

  /**
    The admit function. A decoded pod always succeeds with exactly one
    operation: `/metadata` with the fixed text when it has no annotation
    map, otherwise `/metadata/annotations` with the filled map.
   */
  method ApplyTransparencyLabeling(decode: PodDecoder, req: AdmissionRequest)
    returns (patches: seq<PatchOperation>, err: Option<Error>)
    ensures req.resource != PodResource ==> patches == [] && err == None
    ensures req.resource == PodResource && decode(req.raw).Err? ==>
              patches == [] && err == Some(DeserializeError(decode(req.raw).error))
    ensures req.resource == PodResource && decode(req.raw).Ok? && decode(req.raw).value.annotations.None? ==>
              err == None && patches == [AddMetadataOp]
    ensures req.resource == PodResource && decode(req.raw).Ok? && decode(req.raw).value.annotations.Some? ==>
              err == None
              && patches == [PatchOperation("add", AnnotationsPath,
                                            Annotations(FilledAbsent(decode(req.raw).value.annotations.value, Tags)))]
  {
    if req.resource != PodResource {
      return [], None;
    }

    var decoded := decode(req.raw);
    if decoded.Err? {
      return [], Some(DeserializeError(decoded.error));
    }
    var pod := decoded.value;

    patches := [];
    if pod.annotations.None? {
      patches := patches + [AddMetadataOp];
    } else {
      var annotations := new StringMap(pod.annotations.value);
      for i := 0 to |Tags|
        invariant annotations.entries == FilledAbsent(pod.annotations.value, Tags[..i])
      {
        FilledAbsentStep(pod.annotations.value, Tags, i);
        var tag := Tags[i];
        if tag !in annotations.entries {
          annotations.entries := annotations.entries[tag := UnspecifiedTag];
        }
      }
      assert Tags[..|Tags|] == Tags;
      patches := patches + [PatchOperation("add", AnnotationsPath, Annotations(annotations.entries))];
    }
    return patches, None;
  }

  /**
    The filled map holds the original keys plus the three legacy tags; every
    original value, a tag's "" included, is kept and only absent tags become
    "unspecified".
   */
  lemma FilledAbsentTags(m: map<string, string>)
    ensures FilledAbsent(m, Tags).Keys == m.Keys + {"purposes", "legitimateInterest", "legalBasis"}
    ensures forall k :: k in m ==> FilledAbsent(m, Tags)[k] == m[k]
    ensures forall t :: t in Tags && t !in m ==> FilledAbsent(m, Tags)[t] == UnspecifiedTag
  {
  }

  /** A tag present with an empty value stays empty: the legacy fill only adds absent tags. */
  lemma EmptyTagKept(m: map<string, string>, t: string)
    requires t in Tags && t in m && m[t] == ""
    ensures FilledAbsent(m, Tags)[t] == ""
  {
  }

  /** Filling an already filled map changes nothing. */
  lemma FilledAbsentIdempotent(m: map<string, string>)
    ensures FilledAbsent(FilledAbsent(m, Tags), Tags) == FilledAbsent(m, Tags)
  {
  }
}
