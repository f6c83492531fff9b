/**
  The location list of internal/admission/location.go (GetNodeLocations):
  the values of three topology labels of every node, node by node and label
  by label, without duplicates, in first-seen order. The cluster query is
  replaced by its result, the label maps of the nodes.
 */
module AdmissionLocation {
  import opened GoStd

  /** The topology labels read from every node, in the order they are read. */
  const LocationLabels: seq<string> := ["topology.gke.io/zone", "topology.kubernetes.io/region", "topology.kubernetes.io/zone"]

  predicate NoDuplicates(s: seq<string>)
  {
    forall i, j :: 0 <= i < j < |s| ==> s[i] != s[j]
  }

  /** The label values of one node, in label order; a missing label reads as "". */
  function NodeValues(labels: map<string, string>): seq<string>
  {
    seq(|LocationLabels|, k requires 0 <= k < |LocationLabels| => Index(labels, LocationLabels[k]))
  }

  /** Every value the loop visits, node-major and label-minor. */
  function Visited(nodes: seq<map<string, string>>): seq<string>
  {
    if nodes == [] then [] else Visited(nodes[..|nodes| - 1]) + NodeValues(nodes[|nodes| - 1])
  }

  /** The visited sequence has one entry per node and label. */
  lemma {:induction false} VisitedLength(nodes: seq<map<string, string>>)
    ensures |Visited(nodes)| == 3 * |nodes|
  {
    if nodes != [] {
      VisitedLength(nodes[..|nodes| - 1]);
    }
  }

  /** The value of label `k` of node `i` sits at position `3 * i + k` of the visited sequence. */
  lemma {:induction false} VisitedAt(nodes: seq<map<string, string>>, i: nat, k: nat)
    requires i < |nodes| && k < 3
    ensures 3 * i + k < |Visited(nodes)| && Visited(nodes)[3 * i + k] == Index(nodes[i], LocationLabels[k])
  {
    var init := nodes[..|nodes| - 1];
    VisitedLength(init);
    if i < |init| {
      VisitedAt(init, i, k);
      assert init[i] == nodes[i];
    } else {
      assert Visited(nodes)[3 * i + k] == NodeValues(nodes[i])[k];
    }
  }

  /** Position of the first occurrence of `x` in `s`. */
  function FirstIndex(s: seq<string>, x: string): (i: nat)
    requires x in s
    ensures i < |s| && s[i] == x && x !in s[..i]
  {
    if s[0] == x then 0 else 1 + FirstIndex(s[1..], x)
  }

  /** `s` with every element after its first occurrence dropped. */
  function Dedup(s: seq<string>): (r: seq<string>)
    ensures NoDuplicates(r)
    ensures forall x :: x in r <==> x in s
    ensures |r| <= |s|
  {
    if s == [] then []
    else
      var d := Dedup(s[..|s| - 1]);
      var x := s[|s| - 1];
      assert forall y :: y in s <==> y in s[..|s| - 1] || y == x;
      if x in d then d else d + [x]
  }

  lemma {:induction false} FirstIndexAppend(s: seq<string>, x: string, y: string)
    requires y in s
    ensures FirstIndex(s + [x], y) == FirstIndex(s, y)
  {
    if s[0] != y {
      assert (s + [x])[1..] == s[1..] + [x];
      FirstIndexAppend(s[1..], x, y);
    }
  }

  /** The output lists values in the order of their first occurrence in the input. */
  lemma {:induction false} DedupFirstSeenOrder(s: seq<string>)
    ensures forall i, j :: 0 <= i < j < |Dedup(s)| ==> FirstIndex(s, Dedup(s)[i]) < FirstIndex(s, Dedup(s)[j])
  {
    if s != [] {
      var init, x := s[..|s| - 1], s[|s| - 1];
      assert s == init + [x];
      DedupFirstSeenOrder(init);
      var d := Dedup(init);
      forall y | y in init
        ensures FirstIndex(s, y) == FirstIndex(init, y)
      {
        FirstIndexAppend(init, x, y);
      }
      if x !in d {
        assert FirstIndex(s, x) == |init|;
      }
    }
  }

  /** Deduplicating a prefix of the input gives a prefix of the output. */
  lemma {:induction false} DedupPrefix(s: seq<string>, n: nat)
    requires n <= |s|
    ensures Dedup(s[..n]) <= Dedup(s)
    decreases |s| - n
  {
    if n < |s| {
      var init := s[..|s| - 1];
      assert init[..n] == s[..n];
      DedupPrefix(init, n);
    } else {
      assert s[..n] == s;
    }
  }

  /** Every node's value for every location label is collected. */
  lemma DedupVisitedCovers(nodes: seq<map<string, string>>)
    ensures forall i, k :: 0 <= i < |nodes| && 0 <= k < |LocationLabels| ==> Index(nodes[i], LocationLabels[k]) in Dedup(Visited(nodes))
  {
    var visited := Visited(nodes);
    forall i, k | 0 <= i < |nodes| && 0 <= k < |LocationLabels|
      ensures Index(nodes[i], LocationLabels[k]) in visited
    {
      VisitedAt(nodes, i, k);
    }
  }

  /** Every collected location is some node's value (possibly "") for some location label. */
  lemma DedupVisitedSound(nodes: seq<map<string, string>>)
    ensures forall x :: x in Dedup(Visited(nodes)) ==>
              exists i, k :: 0 <= i < |nodes| && 0 <= k < |LocationLabels| && x == Index(nodes[i], LocationLabels[k])
  {
    var visited := Visited(nodes);
    VisitedLength(nodes);
    forall x | x in visited
      ensures exists i, k :: 0 <= i < |nodes| && 0 <= k < |LocationLabels| && x == Index(nodes[i], LocationLabels[k])
    {
      var p :| 0 <= p < |visited| && visited[p] == x;
      var i, k := ChunkOf(p, |nodes|);
      VisitedAt(nodes, i, k);
    }
  }

  /** At most one location per node and label is collected. */
  lemma DedupVisitedBound(nodes: seq<map<string, string>>)
    ensures |Dedup(Visited(nodes))| <= 3 * |nodes|
  {
    VisitedLength(nodes);
  }

  lemma ChunkOf(p: nat, n: nat) returns (i: nat, k: nat)
    requires p < 3 * n
    ensures i < n && k < 3 && p == 3 * i + k
  {
    i, k := p / 3, p % 3;
  }

  /** One step of the loop: a value is appended exactly when it is new. */
  lemma DedupSnoc(s: seq<string>, x: string)
    ensures Dedup(s + [x]) == if x in Dedup(s) then Dedup(s) else Dedup(s) + [x]
  {
    assert (s + [x])[..|s|] == s;
  }

  lemma NodeValuesPrefix(labels: map<string, string>, k: nat)
    requires k < |LocationLabels|
    ensures NodeValues(labels)[..k + 1] == NodeValues(labels)[..k] + [Index(labels, LocationLabels[k])]
  {
  }

  /** One more node extends the visited sequence by that node's values. */
  lemma VisitedSnoc(nodes: seq<map<string, string>>, i: nat)
    requires i < |nodes|
    ensures Visited(nodes[..i + 1]) == Visited(nodes[..i]) + NodeValues(nodes[i])
  {
    assert nodes[..i + 1][..i] == nodes[..i];
  }

  /** The values visited for a prefix of the nodes are a prefix of all the values visited. */
  lemma {:induction false} VisitedPrefix(nodes: seq<map<string, string>>, i: nat)
    requires i <= |nodes|
    ensures Visited(nodes[..i]) <= Visited(nodes)
    decreases |nodes|
  {
    if i < |nodes| {
      var init := nodes[..|nodes| - 1];
      assert init[..i] == nodes[..i];
      VisitedPrefix(init, i);
    } else {
      assert nodes[..i] == nodes;
    }
  }

  /** Deduplicating a prefix of a sequence gives a prefix of its deduplication. */
  lemma DedupOfPrefix(s: seq<string>, p: seq<string>)
    requires p <= s
    ensures Dedup(p) <= Dedup(s)
  {
    assert s[..|p|] == p;
    DedupPrefix(s, |p|);
  }

  lemma PrefixTransitive(p: seq<string>, q: seq<string>, r: seq<string>)
    requires p <= q && q <= r
    ensures p <= r
  {
    assert q == r[..|q|];
    assert p == q[..|p|] == r[..|p|];
  }

  lemma SnocAssoc(a: seq<string>, b: seq<string>, x: string)
    ensures (a + b) + [x] == a + (b + [x])
  {
  }

  lemma ConcatPrefix(a: seq<string>, b: seq<string>, k: nat)
    requires k <= |b|
    ensures a + b[..k] <= a + b
  {
    assert (a + b)[..|a| + k] == a + b[..k];
  }

  /**
    Midway through a node, the list collected so far is a prefix of the
    final result: `a` is what earlier nodes gave, `b` the current node's values.
   */
  lemma CollectedPrefix(a: seq<string>, b: seq<string>, k: nat, all: seq<string>)
    requires k <= |b| && a + b <= all
    ensures Dedup(a + b[..k]) <= Dedup(all)
  {
    ConcatPrefix(a, b, k);
    PrefixTransitive(a + b[..k], a + b, all);
    DedupOfPrefix(all, a + b[..k]);
  }

  /**
    The loop of GetNodeLocations with the node list as input: each node's
    values for LocationLabels are appended unless already collected. After
    every step the list built so far is duplicate-free and a prefix of the
    final result.
   */
  method CollectLocations(nodes: seq<map<string, string>>) returns (locations: seq<string>)
    ensures locations == Dedup(Visited(nodes))
    ensures NoDuplicates(locations)
  {
    locations := [];
    ghost var visited: seq<string> := [];
    for i := 0 to |nodes|
      invariant visited == Visited(nodes[..i])
      invariant locations == Dedup(visited)
      invariant locations <= Dedup(Visited(nodes))
    {
      VisitedSnoc(nodes, i);
      VisitedPrefix(nodes, i + 1);
      var labels := nodes[i];
      ghost var before, values := visited, NodeValues(labels);
      assert values[..0] == [] && before + values[..0] == before;
      for k := 0 to |LocationLabels|
        invariant visited == before + values[..k]
        invariant locations == Dedup(visited)
        invariant locations <= Dedup(Visited(nodes))
      {
        var value := Index(labels, LocationLabels[k]);
        DedupSnoc(visited, value);
        if value !in locations {
          locations := locations + [value];
        }
        visited := visited + [value];
        NodeValuesPrefix(labels, k);
        SnocAssoc(before, values[..k], value);
        CollectedPrefix(before, values, k + 1, Visited(nodes));
      }
      assert values[..|LocationLabels|] == values;
    }
    assert nodes[..|nodes|] == nodes;
  }
}
