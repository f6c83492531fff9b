# Transparency-labelling admission webhook: a Dafny model

This project models the admission-decision logic of a Kubernetes mutating
admission webhook. For every Pod creation request the webhook decides
whether the request may proceed and, if so, returns a JSON Patch
(RFC 6902, paths are JSON Pointers per RFC 6901) that guarantees a fixed
set of data-transparency annotations is present. One variant also enforces
a data-residency policy against the locations of the cluster's nodes,
collected once at start-up.

The repository holds two iterations of this logic, and they disagree on
the tag schema, the fill rule and the residency rule. Each is modelled as
written, in its own module:

| module | file | models |
|---|---|---|
| `TransparencyTags` | `tags.dfy` | `DecodeTags` of internal/transparency/tags.go: fills `dataCategories`, `necessity` and `autoDecision` with `"unspecified"` when absent or empty, in place |
| `TransparencyLocation` | `residency.dfy` | `ProcessLocation` of internal/transparency/location.go: the first location must start with `europe`, and no location may start with `europe-west2` |
| `AdmissionLocation` | `node_locations.dfy` | the location loop of `GetNodeLocations` (internal/admission/location.go): an ordered list of node topology-label values without duplicates |
| `WebhookServer` | `serve.dfy` | the admit closure of `applyTransparencyLabelerForLocations` (cmd/webhookserver/serve.go): kind check, deserialisation, the inline residency check, tag fill and patch list |
| `LegacyWebhookServer` | `legacy_server.dfy` | `applyTransparencyLabeling` (cmd/webhook-server/main.go): kind check, deserialisation, a fill of only the absent `purposes` / `legitimateInterest` / `legalBasis` tags, and one patch operation |
| `GoStd`, `Admission`, `Wrappers` | `gostd.dfy`, `admission.dfy`, `wrappers.dfy` | the Go and Kubernetes pieces the core uses: error values, map reads (a missing key reads as `""`), maps as references (`StringMap`), `strings.HasPrefix`, `slices.ContainsFunc`, the request, Pod and patch types |

A Go map is a reference, so `DecodeTags` changing its argument is seen by
the caller. The model keeps such maps in a heap object, `GoStd.StringMap`.
`DecodeTags` is a method that `modifies` that object. It is proved to leave
exactly `Reconciled(old entries, Tags)` there. `Reconciled` is the
specification function of the loop, and its properties are proved as
lemmas. The fill loop of main.go and the location loop have the same
shape: each is a method whose loop invariant ties the state to a
specification function.

Both admit functions are methods. Their postconditions state the outcome
on every path:
- a non-pod resource gives no patches and no error;
- a decode failure gives the wrapped error;
- a residency denial (serve.go only) gives the EU error;
- an `Encode` failure (serve.go only) gives that error;
- otherwise the exact list of patch operations, in order.

A Go nil slice is modelled as `[]`. The core never returns a non-nil
empty slice.

Three behaviours of the code are surprising, and the model states each as
written:
- The inline check at cmd/webhookserver/serve.go:81-86 denies a pod labelled
  `deployOutsideOfEU=false` when any location starts with `europe-west1`.
  So an EU placement such as `["europe-west1"]` is denied, and `["us-east1"]`
  is allowed. `WebhookServer.ResidencyExamples` states both outcomes, and
  `WebhookServer.NonEuropeanPlacementAllowed` the general rule: no location
  starting with `europe` means no denial.
- For a pod without annotations, serve.go puts the `add /metadata` operation
  second, after the `add /metadata/annotations` operation
  (cmd/webhookserver/serve.go:96,112-116). The operation that creates the
  parent object thus comes after the one that writes into it.
  `WebhookServer.Admit` states this order.
- main.go fills only a tag that is absent; a tag present with value `""`
  keeps the empty value (cmd/webhook-server/main.go:83-84), while
  internal/transparency/tags.go:13 also fills empty values.
  `LegacyWebhookServer.EmptyTagKept` states this.

## Model

| member | source | states |
|---|---|---|
| `GoStd.ContainsFunc` | internal/transparency/location.go:20-22 | the search reports true exactly when some element satisfies the predicate |
| `TransparencyTags.Reconciled` | internal/transparency/tags.go:12-16 | after the loop over a schema, the key set is the old keys plus the schema; a schema key whose value was missing or `""` holds `"unspecified"`, one with a non-empty value keeps it; every other key keeps its value |
| `TransparencyTags.DecodeTags` | internal/transparency/tags.go:11-19 | returns the argument map itself with a nil error, and changes that map in place to `Reconciled(old entries, Tags)` |
| `TransparencyTags.ReconciledTagsNonEmpty` | internal/transparency/tags.go:12-16 | afterwards every recognized tag is present with a non-empty value |
| `TransparencyTags.ReconciledKeepsOtherKeys` | internal/transparency/tags.go:12-16 | no key is removed, and keys outside the schema keep their values |
| `TransparencyTags.ReconciledKeys` | internal/transparency/tags.go:8-16 | the resulting key set is the input's keys plus `dataCategories`, `necessity` and `autoDecision` |
| `TransparencyTags.ReconcileFullySpecified` | internal/transparency/tags.go:13-14 | a map whose recognized tags all have non-empty values is returned unchanged (the round-trip law for fully specified tags) |
| `TransparencyTags.ReconcileIdempotent` | internal/transparency/tags.go:11-19 | reconciling an already reconciled map changes nothing |
| `TransparencyTags.ReconcileEmpty` | cmd/webhookserver/serve.go:95-100 | the fresh empty map that replaces nil annotations is reconciled to exactly the three tags, each `"unspecified"` |
| `TransparencyLocation.ProcessLocation` | internal/transparency/location.go:14-26 | for a non-empty location list: a first location not starting with `europe` gives `euError`; any location starting with `europe-west2` gives `euError`; nil exactly when neither holds; no other error is ever returned |
| `TransparencyLocation.ProcessLocationIgnoresLabels` | internal/transparency/location.go:14 | the outcome does not depend on the labels argument |
| `TransparencyLocation.ProcessLocationChecksOnlyFirst` | internal/transparency/location.go:15-24 | only the first location is tested for `europe`: a later `us-east1` passes and a first `us-east1` fails, while a later `europe-west2` fails |
| `TransparencyLocation.ProcessLocationFirstOnly` | internal/transparency/location.go:15-24 | for every list `[first] + rest`: nil exactly when `first` starts with `europe` and no entry starts with `europe-west2`; the entries of `rest` are never required to start with `europe` |
| `TransparencyLocation.MissingGkeZoneDenied` | internal/transparency/location.go:15-17 | for the collected node locations: when the first node has no `topology.gke.io/zone` label, entry 0 is `""` and the placement is refused, whatever the other nodes are |
| `AdmissionLocation.VisitedAt` | internal/admission/location.go:36-41 | the traversal is node-major and label-minor: the value of label k of node i is visited at position 3·i + k |
| `AdmissionLocation.Dedup` | internal/admission/location.go:38-39 | the de-duplicated list has no duplicates, holds exactly the values of its input, and is no longer than it |
| `AdmissionLocation.DedupFirstSeenOrder` | internal/admission/location.go:36-41 | output elements appear in the order of their first occurrence in the traversal |
| `AdmissionLocation.VisitedPrefix` | internal/admission/location.go:35-42 | the values visited for the first i nodes are a prefix of all the values visited |
| `AdmissionLocation.CollectedPrefix` | internal/admission/location.go:36-41 | midway through a node, the list collected so far is a prefix of the final list |
| `AdmissionLocation.DedupPrefix` | internal/admission/location.go:35-42 | the list built from a prefix of the traversal is a prefix of the final list (the loop only ever appends) |
| `AdmissionLocation.DedupVisitedCovers` | internal/admission/location.go:36-41 | every node's value for every location label, `""` for a missing label, is in the output |
| `AdmissionLocation.DedupVisitedSound` | internal/admission/location.go:36-41 | every output element is some node's value (or `""`) for some location label |
| `AdmissionLocation.DedupVisitedBound` | internal/admission/location.go:14-41 | the output has at most three entries per node |
| `AdmissionLocation.CollectLocations` | internal/admission/location.go:35-42 | the nested loop returns exactly the de-duplicated traversal of the nodes' location labels, without duplicates; its invariant keeps the list built so far a prefix of that result |
| `WebhookServer.DeniesResidency` | cmd/webhookserver/serve.go:81-87 | denial exactly when the label `deployOutsideOfEU` is present with value `"false"` and some location starts with `europe-west1` |
| `WebhookServer.LocationsIrrelevantWithoutLabel` | cmd/webhookserver/serve.go:81 | when the label is absent or not `"false"`, the locations never cause a denial |
| `WebhookServer.ResidencyExamples` | cmd/webhookserver/serve.go:81-86 | with the label `"false"`, locations `["europe-west1"]` are denied and `["us-east1"]` allowed; with the label `"true"` nothing is denied |
| `WebhookServer.NonEuropeanPlacementAllowed` | cmd/webhookserver/serve.go:81-87 | for every location list: when no location starts with `europe`, no pod is denied, whatever its labels |
| `WebhookServer.Admit` | cmd/webhookserver/serve.go:59-120 | non-pod resource: no patches, nil error; decode failure: no patches, the wrapped decode error; residency denial: no patches, the EU error; `Encode` failure: no patches, that error; otherwise nil error and patches are the `add /metadata/annotations` operation carrying `Encode(Reconciled(annotations))`, followed by `addEmptyAnnotationsOp` exactly when the pod had no annotation map |
| `LegacyWebhookServer.FilledAbsent` | cmd/webhook-server/main.go:82-87 | after the loop, the key set is the old keys plus the schema; every existing key keeps its value, `""` included; an absent schema key holds `"unspecified"` |
| `LegacyWebhookServer.FilledAbsentTags` | cmd/webhook-server/main.go:82-87 | for the legacy schema: keys are the old keys plus `purposes`, `legitimateInterest`, `legalBasis`; existing values are kept; absent tags become `"unspecified"` |
| `LegacyWebhookServer.EmptyTagKept` | cmd/webhook-server/main.go:83-84 | a tag present with value `""` stays `""` |
| `LegacyWebhookServer.FilledAbsentIdempotent` | cmd/webhook-server/main.go:82-87 | filling an already filled map changes nothing |
| `LegacyWebhookServer.ApplyTransparencyLabeling` | cmd/webhook-server/main.go:52-97 | non-pod resource: no patches, nil error; decode failure: no patches, the wrapped error; nil annotations: exactly the one `add /metadata` operation with the fixed text; otherwise exactly one `add /metadata/annotations` operation whose value is the filled map; a decoded pod never yields an error |

The location loop is repeated verbatim at cmd/webhookserver/serve.go:140-148
and cmd/webhook-server/main.go:115-123. `AdmissionLocation.CollectLocations`
models all three copies.

## Left out

- TLS loading, the HTTP mux, `ListenAndServeTLS`, the `/health` handler, `withLogging`, `admitFuncHandler` and the root main.go: all are server plumbing and I/O.
- The Kubernetes client calls (`rest.InClusterConfig`, `kubernetes.NewForConfig`, `Nodes().List`) and their error wrapping are foreign calls. The node list arrives as an input: one label map per node.
- `UniversalDeserializer.Decode` is an external library. It is the parameter `decode`, which gives a Pod or the message of its error, and nothing is assumed about it.
- `tags.Encode()` is not defined in this code. It is the parameter `encode`, and its result type `Admission.EncodedTags` is left abstract. Its error path is kept.
- JSON and base64 serialisation of patches, and applying patches. The model states the order of the operations, not the effect of applying them. The comment at cmd/webhookserver/serve.go:110-111, which says the last operation is processed first, is not modelled.
- The texts at cmd/webhookserver/serve.go:55 and cmd/webhook-server/main.go:77 are not well-formed JSON. They are kept as opaque literal strings.
- The error check after `DecodeTags` (cmd/webhookserver/serve.go:101-103) can never fire, because `DecodeTags` always returns a nil error. The model has no branch for it.
- Error identity: Go errors are compared by pointer, while the model compares them by message. The fresh `errors.New` at serve.go:85 and `euError` are therefore equal in the model.
- `transparencyTags` at cmd/webhookserver/serve.go:50 is declared but never read. The server fills the schema of internal/transparency/tags.go.
- `log.Printf` calls and the location list that main.go:133 computes and then discards.
- The response envelope (uid, allowed flag, patchType, denial message) is built by the handler, which is not part of this model.
- TransparencyLocation.ProcessLocation: requires a non-empty list. The Go code reads `locations[0]` unconditionally (internal/transparency/location.go:16) and panics on an empty list. The empty list is reachable, since the collection returns an empty list for a cluster with no nodes. The panic is not modelled.
- TransparencyTags.DecodeTags: takes a map that is never nil. The Go write `m[tag] = ...` (internal/transparency/tags.go:14) panics on a nil map, and `StringMap` has no nil value. The only caller in this code replaces a nil map with an empty one first (cmd/webhookserver/serve.go:95-98).
