/**
  The admission decision of cmd/webhookserver/serve.go
  (applyTransparencyLabelerForLocations): a pass-through for anything but
  pods, a residency check against the node locations collected at start-up,
  and a JSON Patch that writes the reconciled transparency tags.

  The closure's captured `locations` becomes the first parameter; the
  deserializer and `tags.Encode()` become the parameters `decode` and
  `encode`, about which nothing is assumed.
 */
module WebhookServer {
  import opened Wrappers
  import opened GoStd
  import opened Admission
  import TransparencyTags

  /** The label that opts a pod into the residency constraint. */
  const ResidencyLabel := "deployOutsideOfEU"
  const DeniedPrefix := "europe-west1"

  /** The error made at a residency denial; equal in message to TransparencyLocation.EuError. */
  const EuError := Error("resource cannot be deployed outside of EU")

  /** `addEmptyAnnotationsOp`; its value is kept as the literal text it is in the source. */
  const AddEmptyAnnotationsOp := PatchOperation("add", MetadataPath,
    Text("\"annotations\": {\"legalBasis\": \"unspecified\", \"legitimateInterest\": \"unspecified\", \"purposes\": \"unspecified\"}"))

  /**
    The inline residency check: deny exactly when the label is "false" and
    some location starts with "europe-west1".
   */
  function DeniesResidency(labels: map<string, string>, locations: seq<string>): (deny: bool)
    ensures deny <==> ResidencyLabel in labels && labels[ResidencyLabel] == "false"
                      && exists i :: 0 <= i < |locations| && HasPrefix(locations[i], DeniedPrefix)
  {
    Index(labels, ResidencyLabel) == "false" && ContainsFunc(locations, s => HasPrefix(s, DeniedPrefix))
  }

  /** The annotations a decoded pod contributes: a nil map is replaced by a fresh empty one. */
  function AnnotationsOf(pod: Pod): map<string, string>
  {
    if pod.annotations.Some? then pod.annotations.value else map[]
  }

  /**
    The admit function. Errors come back with no patches; a successful pod
    gets the `/metadata/annotations` operation first, followed by
    `addEmptyAnnotationsOp` when the pod had no annotation map.
   */
  method Admit(locations: seq<string>, decode: PodDecoder, encode: map<string, string> -> Result<EncodedTags, Error>,
               req: AdmissionRequest)
    returns (patches: seq<PatchOperation>, err: Option<Error>)
    ensures req.resource != PodResource ==> patches == [] && err == None
    ensures req.resource == PodResource && decode(req.raw).Err? ==>
              patches == [] && err == Some(DeserializeError(decode(req.raw).error))
    ensures req.resource == PodResource && decode(req.raw).Ok? && DeniesResidency(decode(req.raw).value.labels, locations) ==>
              patches == [] && err == Some(EuError)
    ensures req.resource == PodResource && decode(req.raw).Ok? && !DeniesResidency(decode(req.raw).value.labels, locations) ==>
              var pod := decode(req.raw).value;
              var encoded := encode(TransparencyTags.Reconciled(AnnotationsOf(pod), TransparencyTags.Tags));
              if encoded.Err? then
                patches == [] && err == Some(encoded.error)
              else
                err == None
                && patches == [PatchOperation("add", AnnotationsPath, Encoded(encoded.value))]
                               + (if pod.annotations.None? then [AddEmptyAnnotationsOp] else [])
  {
    if req.resource != PodResource {
      return [], None;
    }

    var decoded := decode(req.raw);
    if decoded.Err? {
      return [], Some(DeserializeError(decoded.error));
    }
    var pod := decoded.value;

    if DeniesResidency(pod.labels, locations) {
      return [], Some(EuError);
    }

    patches := [];
    var annotations: StringMap;
    if pod.annotations.None? {
      patches := patches + [AddEmptyAnnotationsOp];
      annotations := new StringMap(map[]);
    } else {
      annotations := new StringMap(pod.annotations.value);
    }

    // DecodeTags always reports a nil error, so its error branch is never taken.
    var tags, _ := TransparencyTags.DecodeTags(annotations);

    var encoded := encode(tags.entries);
    if encoded.Err? {
      return [], Some(encoded.error);
    }

    patches := [PatchOperation("add", AnnotationsPath, Encoded(encoded.value))] + patches;
    return patches, None;
  }

  /** Without the opt-in label set to "false" the locations never matter. */
  lemma LocationsIrrelevantWithoutLabel(labels: map<string, string>, locations: seq<string>, other: seq<string>)
    requires Index(labels, ResidencyLabel) != "false"
    ensures !DeniesResidency(labels, locations) && DeniesResidency(labels, locations) == DeniesResidency(labels, other)
  {
  }

  /**
    With the label "false", a location starting with "europe-west1" (an EU
    region) is denied, while locations that are all outside Europe pass.
   */
  lemma ResidencyExamples()
    ensures DeniesResidency(map[ResidencyLabel := "false"], ["europe-west1"])
    ensures !DeniesResidency(map[ResidencyLabel := "false"], ["us-east1"])
    ensures !DeniesResidency(map[ResidencyLabel := "true"], ["europe-west1"])
  {
    assert HasPrefix(["europe-west1"][0], DeniedPrefix);
    assert |"us-east1"| < |DeniedPrefix|;
  }

  /**
    For every location list: an opted-in pod is never denied when no
    location starts with "europe", so a placement entirely outside Europe
    passes the inline check.
   */
  lemma NonEuropeanPlacementAllowed(labels: map<string, string>, locations: seq<string>)
    requires forall i :: 0 <= i < |locations| ==> !HasPrefix(locations[i], "europe")
    ensures !DeniesResidency(labels, locations)
  {
  }
}
