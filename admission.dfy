/**
  The Kubernetes and admission-package types the webhook's decision logic
  consumes and produces: the resource descriptor of a request, the request
  itself, the subset of a Pod that is read, and JSON Patch operations
  (RFC 6902, paths are JSON Pointers per RFC 6901).
 */
module Admission {
  import opened Wrappers
  import opened GoStd

  /** metav1.GroupVersionResource */
  datatype GroupVersionResource = GroupVersionResource(group: string, version: string, resource: string)

  /** The only resource the webhook acts on: `{Version: "v1", Resource: "pods"}`. */
  const PodResource := GroupVersionResource("", "v1", "pods")

  /** The part of an admission request that is read: its resource and the raw embedded object. */
  datatype AdmissionRequest = AdmissionRequest(uid: string, resource: GroupVersionResource, raw: seq<bv8>)

  /**
    The part of a decoded Pod that is read. A nil label map reads like an
    empty one, so labels are a plain map; a nil annotation map is told apart
    from an empty one, so annotations are optional.
   */
  datatype Pod = Pod(labels: map<string, string>, annotations: Option<map<string, string>>)

  /**
    The deserializer's verdict on raw object bytes: a Pod, or the message of
    the error it returned.
   */
  type PodDecoder = seq<bv8> -> Result<Pod, string>

  /** The value `tags.Encode()` produces; its representation is not part of this model. */
  type EncodedTags

  /**
    The `Value` of a patch operation (a Go interface{}): one of the three kinds
    of values the webhook puts there.
   */
  datatype PatchValue =
    | Text(text: string)
    | Annotations(entries: map<string, string>)
    | Encoded(encoded: EncodedTags)

  /** One JSON Patch operation. */
  datatype PatchOperation = PatchOperation(op: string, path: string, value: PatchValue)

  const AnnotationsPath := "/metadata/annotations"
  const MetadataPath := "/metadata"

  /** The message fmt.Errorf builds at a deserialisation failure. */
  function DeserializeError(detail: string): Error
  {
    Error("could not deserialize pod object: " + detail)
  }
}
