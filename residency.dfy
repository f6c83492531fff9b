/**
  The residency predicate of internal/transparency/location.go: a placement
  passes when the first entry of the location list starts with "europe" and
  no entry starts with "europe-west2". Only `locations[0]` is tested for the
  "europe" prefix.
 */
module TransparencyLocation {
  import opened Wrappers
  import opened GoStd
  import AdmissionLocation

  /** The single error value every residency failure returns (`euError`). */
  const EuError := Error("resource cannot be deployed outside of EU")

  const AllowedPrefix := "europe"
  const DeniedPrefix := "europe-west2"

  /**
    ProcessLocation: nil (None) when the placement is allowed, euError otherwise.
    `locations[0]` is read unconditionally, so callers must pass a non-empty list.
   */
  function ProcessLocation(labels: map<string, string>, locations: seq<string>): (err: Option<Error>)
    requires |locations| > 0
    ensures !HasPrefix(locations[0], AllowedPrefix) ==> err == Some(EuError)
    ensures (exists i :: 0 <= i < |locations| && HasPrefix(locations[i], DeniedPrefix)) ==> err == Some(EuError)
    ensures err == None <==>
              HasPrefix(locations[0], AllowedPrefix)
              && forall i :: 0 <= i < |locations| ==> !HasPrefix(locations[i], DeniedPrefix)
    ensures err == None || err == Some(EuError)
  {
    // Only locations[0] is tested for the allowed prefix.
    if !HasPrefix(locations[0], AllowedPrefix) then Some(EuError)
    else if ContainsFunc(locations, s => HasPrefix(s, DeniedPrefix)) then Some(EuError)
    else None
  }

  /** The labels argument is never read. */
  lemma ProcessLocationIgnoresLabels(labels: map<string, string>, other: map<string, string>, locations: seq<string>)
    requires |locations| > 0
    ensures ProcessLocation(labels, locations) == ProcessLocation(other, locations)
  {
  }

  /** Only the first location is tested for Europe: a later non-European location passes. */
  lemma ProcessLocationChecksOnlyFirst()
    ensures ProcessLocation(map[], ["europe-west1-b", "us-east1"]) == None
    ensures ProcessLocation(map[], ["us-east1", "europe-west1"]) == Some(EuError)
    ensures ProcessLocation(map[], ["europe-west1-b", "europe-west2"]) == Some(EuError)
  {
    assert HasPrefix("europe-west1-b", AllowedPrefix);
    assert "us-east1"[..|AllowedPrefix|][0] != AllowedPrefix[0];
    assert |"us-east1"| < |DeniedPrefix|;
    assert "europe-west1-b"[..|DeniedPrefix|][11] != DeniedPrefix[11];
    assert HasPrefix("europe-west2", DeniedPrefix);
  }

  /**
    For any list, entries after the first are tested only against
    "europe-west2": their own region is never required to be European.
   */
  lemma ProcessLocationFirstOnly(labels: map<string, string>, first: string, rest: seq<string>)
    ensures ProcessLocation(labels, [first] + rest) == None <==>
              HasPrefix(first, AllowedPrefix) && !HasPrefix(first, DeniedPrefix)
              && forall i :: 0 <= i < |rest| ==> !HasPrefix(rest[i], DeniedPrefix)
  {
    var locations := [first] + rest;
    assert locations[0] == first;
    assert forall i :: 0 <= i < |rest| ==> locations[i + 1] == rest[i];
  }

  /**
    Applied to the collected node locations, whose entry 0 is the first
    node's "topology.gke.io/zone" label: a first node without that label
    puts "" there, and the placement is refused whatever the other nodes are.
   */
  lemma MissingGkeZoneDenied(labels: map<string, string>, nodes: seq<map<string, string>>)
    requires |nodes| > 0 && AdmissionLocation.LocationLabels[0] !in nodes[0]
    ensures |AdmissionLocation.Dedup(AdmissionLocation.Visited(nodes))| > 0
    ensures ProcessLocation(labels, AdmissionLocation.Dedup(AdmissionLocation.Visited(nodes))) == Some(EuError)
  {
    var visited := AdmissionLocation.Visited(nodes);
    AdmissionLocation.VisitedAt(nodes, 0, 0);
    assert visited[0] == "";
    AdmissionLocation.DedupPrefix(visited, 1);
    assert visited[..1] == [""];
    assert AdmissionLocation.Dedup([""]) == [""] by {
      assert [""][..0] == [];
    }
  }
}
