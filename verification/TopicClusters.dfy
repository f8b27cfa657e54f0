/**
  internal/consolidation/cluster.go: clusterSources groups a day's sources by
  topic. Sources are known by their position; vectors, their mean and their
  cosine similarity are left abstract.
 */
module TopicClusters {
  import opened UnionFind

  type Clusters = seq<seq<nat>>

  const SIMILARITY_THRESHOLD: real := 0.60

  /** The pairs of sources that are similar enough; each pair is compared once, the earlier first. */
  ghost function SimilarPairs<V>(vectors: seq<V>, cosine: (V, V) -> real): Edges {
    PairsBelow(vectors, cosine, |vectors|, 0)
  }

  /** Those among the pairs (u, v) with u < i, and the pairs (i, v) with v < j. */
  ghost function PairsBelow<V>(vectors: seq<V>, cosine: (V, V) -> real, i: nat, j: nat): Edges {
    set u: nat, v: nat | u < v < |vectors| && (u < i || (u == i && v < j))
                      && cosine(vectors[u], vectors[v]) >= SIMILARITY_THRESHOLD :: (u, v)
  }

  // --- Partitions ---------------------------------------------------------------------

  /** home says, for every source, which cluster it is in; it is in no other, and in that one once. */
  ghost predicate Arranged(c: Clusters, home: seq<nat>) {
    && (forall i :: 0 <= i < |home| ==> home[i] < |c| && i in c[home[i]])
    && (forall k, m :: 0 <= k < |c| && 0 <= m < |c[k]| ==> c[k][m] < |home| && home[c[k][m]] == k)
    && (forall k, m, m' :: 0 <= k < |c| && 0 <= m < m' < |c[k]| ==> c[k][m] != c[k][m'])
    && (forall k :: 0 <= k < |c| ==> c[k] != [])
  }

  /** The clusters grouped by root, in order of first appearance. */
  ghost predicate GroupedBy(c: Clusters, home: seq<nat>, rep: seq<nat>) {
    && |home| <= |rep| && Arranged(c, home)
    && forall i, j :: 0 <= i < |home| && 0 <= j < |home| ==> (home[i] == home[j] <==> rep[i] == rep[j])
  }

  /** Clusters as they are first built: members in source order, clusters in the order of their first ones. */
  ghost predicate InSourceOrder(c: Clusters) {
    && (forall k, m, m' :: 0 <= k < |c| && 0 <= m < m' < |c[k]| ==> c[k][m] < c[k][m'])
    && (forall k :: 0 <= k < |c| ==> c[k] != [])
    && forall k, k' :: 0 <= k < k' < |c| ==> c[k][0] < c[k'][0]
  }

  /** None of the sources from i on is in a cluster yet. */
  ghost predicate Before(c: Clusters, i: nat) {
    forall k, m :: 0 <= k < |c| && 0 <= m < |c[k]| ==> c[k][m] < i
  }

  // --- Building the groups --------------------------------------------------------------

  /** One more source joins an existing cluster. */
  lemma JoinCluster(c: Clusters, home: seq<nat>, rep: seq<nat>, k: nat)
    requires GroupedBy(c, home, rep) && |home| < |rep| && k < |c|
    requires forall i :: 0 <= i < |home| ==> (home[i] == k <==> rep[i] == rep[|home|])
    ensures GroupedBy(c[k := c[k] + [|home|]], home + [k], rep)
  {
  }

  lemma JoinKeepsOrder(c: Clusters, k: nat, i: nat)
    requires InSourceOrder(c) && Before(c, i) && k < |c|
    ensures InSourceOrder(c[k := c[k] + [i]]) && Before(c[k := c[k] + [i]], i + 1)
  {
  }

  lemma OpenKeepsOrder(c: Clusters, i: nat)
    requires InSourceOrder(c) && Before(c, i)
    ensures InSourceOrder(c + [[i]]) && Before(c + [[i]], i + 1)
  {
  }

  /** Or opens a new one. */
  lemma OpenCluster(c: Clusters, home: seq<nat>, rep: seq<nat>)
    requires GroupedBy(c, home, rep) && |home| < |rep|
    requires forall i :: 0 <= i < |home| ==> rep[i] != rep[|home|]
    ensures GroupedBy(c + [[|home|]], home + [|c|], rep)
  {
  }

  /** The groups of the first sources: the clusters, with one root for each. */
  ghost predicate GroupsSoFar(rootOrder: seq<nat>, groups: map<nat, seq<nat>>, c: Clusters, home: seq<nat>, rep: seq<nat>) {
    && GroupedBy(c, home, rep) && Listed(rootOrder, groups, c) && InSourceOrder(c) && Before(c, |home|)
    && forall k :: 0 <= k < |home| ==> home[k] < |rootOrder| && rootOrder[home[k]] == rep[k]
  }

  lemma OpenGroup(rootOrder: seq<nat>, groups: map<nat, seq<nat>>, c: Clusters, home: seq<nat>, rep: seq<nat>)
    requires GroupsSoFar(rootOrder, groups, c, home, rep) && |home| < |rep| && rep[|home|] !in groups
    ensures var i, root := |home|, rep[|home|];
            GroupsSoFar(rootOrder + [root], groups[root := [i]], c + [[i]], home + [|c|], rep)
  {
    OpenCluster(c, home, rep);
    NewRoot(rootOrder, groups, c, rep[|home|], |home|);
    OpenKeepsOrder(c, |home|);
  }

  lemma JoinGroup(rootOrder: seq<nat>, groups: map<nat, seq<nat>>, c: Clusters, home: seq<nat>, rep: seq<nat>, k: nat)
    requires GroupsSoFar(rootOrder, groups, c, home, rep) && |home| < |rep|
    requires k < |rootOrder| && rootOrder[k] == rep[|home|]
    ensures var i, root := |home|, rep[|home|];
            && root in groups
            && GroupsSoFar(rootOrder, groups[root := groups[root] + [i]], c[k := c[k] + [i]], home + [k], rep)
  {
    JoinCluster(c, home, rep, k);
    KnownRoot(rootOrder, groups, c, k, |home|);
    JoinKeepsOrder(c, k, |home|);
  }

  /** The two loops that group by root: a list per root, then the lists in order of first appearance. */
  method Group(parent: array<nat>, ghost g: Shape) returns (clusters: Clusters, ghost home: seq<nat>)
    requires Fits(parent[..], g)
    modifies parent
    ensures |home| == parent.Length && GroupedBy(clusters, home, g.rep) && InSourceOrder(clusters)
  {
    var rootOrder: seq<nat> := [];
    var groups: map<nat, seq<nat>> := map[];
    ghost var c: Clusters := [];
    home := [];
    for i := 0 to parent.Length
      invariant Fits(parent[..], g) && |home| == i
      invariant GroupsSoFar(rootOrder, groups, c, home, g.rep)
    {
      var root := Find(parent, i, g);
      if root !in groups {
        OpenGroup(rootOrder, groups, c, home, g.rep);
        rootOrder := rootOrder + [root];
        groups := groups[root := [i]];
        c, home := c + [[i]], home + [|c|];
      } else {
        ghost var k := RootAt(rootOrder, groups, c, root);
        JoinGroup(rootOrder, groups, c, home, g.rep, k);
        groups := groups[root := groups[root] + [i]];
        c, home := c[k := c[k] + [i]], home + [k];
      }
    }
    clusters := InOrder(rootOrder, groups, c);
  }

  lemma RootAt(rootOrder: seq<nat>, groups: map<nat, seq<nat>>, c: Clusters, root: nat) returns (k: nat)
    requires Listed(rootOrder, groups, c) && root in groups
    ensures k < |rootOrder| && rootOrder[k] == root
  {
    k :| k < |rootOrder| && rootOrder[k] == root;
  }

  method InOrder(rootOrder: seq<nat>, groups: map<nat, seq<nat>>, ghost c: Clusters) returns (clusters: Clusters)
    requires Listed(rootOrder, groups, c)
    ensures clusters == c
  {
    clusters := [];
    for k := 0 to |rootOrder|
      invariant clusters == c[..k]
    {
      clusters := clusters + [groups[rootOrder[k]]];
    }
  }

  lemma NewRoot(rootOrder: seq<nat>, groups: map<nat, seq<nat>>, c: Clusters, root: nat, i: nat)
    requires Listed(rootOrder, groups, c) && root !in groups
    ensures Listed(rootOrder + [root], groups[root := [i]], c + [[i]])
  {
  }

  lemma KnownRoot(rootOrder: seq<nat>, groups: map<nat, seq<nat>>, c: Clusters, k: nat, i: nat)
    requires Listed(rootOrder, groups, c) && k < |rootOrder|
    ensures rootOrder[k] in groups
    ensures Listed(rootOrder, groups[rootOrder[k] := groups[rootOrder[k]] + [i]], c[k := c[k] + [i]])
  {
  }

  /** The groups, read in root order, are the clusters. */
  ghost predicate Listed(rootOrder: seq<nat>, groups: map<nat, seq<nat>>, c: Clusters) {
    && |rootOrder| == |c|
    && (forall k :: 0 <= k < |c| ==> rootOrder[k] in groups && groups[rootOrder[k]] == c[k])
    && (forall k, m :: 0 <= k < m < |rootOrder| ==> rootOrder[k] != rootOrder[m])
    && forall r :: r in groups ==> r in rootOrder
  }

  // --- Merging down to the cap ------------------------------------------------------------

  /** Cluster j is appended to cluster i and taken out. */
  function MergePair(c: Clusters, i: nat, j: nat): Clusters
    requires i < j < |c|
  {
    c[i := c[i] + c[j]][..j] + c[j + 1..]
  }

  ghost function Rehome(home: seq<nat>, i: nat, j: nat): (r: seq<nat>)
    requires i < j
    ensures |r| == |home|
  {
    seq(|home|, k requires 0 <= k < |home| =>
      if home[k] == j then i else if home[k] > j then home[k] - 1 else home[k])
  }

  lemma MergedAt(c: Clusters, i: nat, j: nat, k: nat)
    requires i < j < |c| && k < |c| - 1
    ensures |MergePair(c, i, j)| == |c| - 1
    ensures MergePair(c, i, j)[k] == if k == i then c[i] + c[j] else if k < j then c[k] else c[k + 1]
  {
  }

  /** A member of a merged cluster, where it was before and where it is now. */
  lemma MemberOfMerged(c: Clusters, home: seq<nat>, i: nat, j: nat, k: nat, m: nat)
    requires Arranged(c, home) && i < j < |c| && k < |MergePair(c, i, j)| && m < |MergePair(c, i, j)[k]|
    ensures MergePair(c, i, j)[k][m] < |home| && Rehome(home, i, j)[MergePair(c, i, j)[k][m]] == k
  {
    MergedAt(c, i, j, k);
    if k == i && m >= |c[i]| {
      assert MergePair(c, i, j)[k][m] == c[j][m - |c[i]|];
    }
  }

  lemma MergeKeepsArranged(c: Clusters, home: seq<nat>, i: nat, j: nat)
    requires Arranged(c, home) && i < j < |c|
    ensures Arranged(MergePair(c, i, j), Rehome(home, i, j))
  {
    var d, h := MergePair(c, i, j), Rehome(home, i, j);
    forall k | 0 <= k < |home| ensures h[k] < |d| && k in d[h[k]] {
      MergedAt(c, i, j, h[k]);
      if home[k] == j {
        assert k in c[j] && k in c[i] + c[j];
      } else {
        assert k in c[home[k]];
      }
    }
    forall k, m | 0 <= k < |d| && 0 <= m < |d[k]| ensures d[k][m] < |h| && h[d[k][m]] == k {
      MemberOfMerged(c, home, i, j, k, m);
    }
    forall k, m, m' | 0 <= k < |d| && 0 <= m < m' < |d[k]| ensures d[k][m] != d[k][m'] {
      NoRepeats(c, home, i, j, k, m, m');
    }
    forall k | 0 <= k < |d| ensures d[k] != [] {
      MergedAt(c, i, j, k);
    }
  }

  lemma NoRepeats(c: Clusters, home: seq<nat>, i: nat, j: nat, k: nat, m: nat, m': nat)
    requires Arranged(c, home) && i < j < |c|
    requires k < |MergePair(c, i, j)| && m < m' < |MergePair(c, i, j)[k]|
    ensures MergePair(c, i, j)[k][m] != MergePair(c, i, j)[k][m']
  {
    MergedAt(c, i, j, k);
    if k == i && m < |c[i]| <= m' {
      assert home[c[i][m]] == i && home[c[j][m' - |c[i]|]] == j;
    }
  }

  /** Sources that were together stay together. */
  ghost predicate Coarser(home: seq<nat>, home': seq<nat>) {
    && |home'| == |home|
    && forall i, j :: 0 <= i < |home| && 0 <= j < |home| && home[i] == home[j] ==> home'[i] == home'[j]
  }

  /** A cosine below -2, which none is, would not be looked at. */
  function Score<V>(centroids: seq<V>, cosine: (V, V) -> real, i: nat, j: nat): real
    requires i < |centroids| && j < |centroids|
  {
    var sim := cosine(centroids[i], centroids[j]);
    if sim > -2.0 then sim else -2.0
  }

  ghost predicate Earlier(i: nat, j: nat, u: nat, v: nat) {
    i < u || (i == u && j <= v)
  }

  /** No pair of centroids is more similar, and none that comes before it as similar. */
  ghost predicate Closest<V>(centroids: seq<V>, cosine: (V, V) -> real, i: nat, j: nat) {
    && i < j < |centroids|
    && forall u: nat, v: nat :: u < v < |centroids| ==>
         && Score(centroids, cosine, u, v) <= Score(centroids, cosine, i, j)
         && (Score(centroids, cosine, u, v) == Score(centroids, cosine, i, j) ==> Earlier(i, j, u, v))
  }

  /** The search so far, which is over all pairs before (i, j). */
  ghost predicate Searched<V>(centroids: seq<V>, cosine: (V, V) -> real, best: real, bi: nat, bj: nat, i: nat, j: nat) {
    && bi < bj < |centroids| && best >= -2.0
    && (best > -2.0 ==> best == cosine(centroids[bi], centroids[bj]) && (bi < i || (bi == i && bj < j)))
    && (best == -2.0 ==> bi == 0 && bj == 1)
    && forall u: nat, v: nat :: u < v < |centroids| && (u < i || (u == i && v < j)) ==>
         && Score(centroids, cosine, u, v) <= best
         && (Score(centroids, cosine, u, v) == best && best > -2.0 ==> Earlier(bi, bj, u, v))
  }

  /** One step of clustering down: the closest two become one, with the mean of their centroids; the others keep their order. */
  ghost predicate Unites<V>(c: Clusters, centroids: seq<V>, c': Clusters, centroids': seq<V>, cosine: (V, V) -> real,
                            mean: seq<V> -> V, i: nat, j: nat) {
    && |centroids| == |c| && Closest(centroids, cosine, i, j)
    && |c'| == |centroids'| == |c| - 1
    && c'[i] == c[i] + c[j] && centroids'[i] == mean([centroids[i], centroids[j]])
    && (forall k :: 0 <= k < j && k != i ==> c'[k] == c[k] && centroids'[k] == centroids[k])
    && forall k :: j <= k < |c'| ==> c'[k] == c[k + 1] && centroids'[k] == centroids[k + 1]
  }

  datatype Stage<V> = Stage(clusters: Clusters, centroids: seq<V>)

  ghost predicate OneStage<V>(s: Stage<V>, s': Stage<V>, cosine: (V, V) -> real, mean: seq<V> -> V) {
    exists i: nat, j: nat :: Unites(s.clusters, s.centroids, s'.clusters, s'.centroids, cosine, mean, i, j)
  }

  /** From the first clusters to the last, the closest two at a time. */
  ghost predicate Stages<V>(stages: seq<Stage<V>>, cosine: (V, V) -> real, mean: seq<V> -> V) {
    && stages != []
    && forall k :: 0 <= k < |stages| - 1 ==> OneStage(stages[k], stages[k + 1], cosine, mean)
  }

  lemma StageAfter<V>(stages: seq<Stage<V>>, s: Stage<V>, cosine: (V, V) -> real, mean: seq<V> -> V)
    requires Stages(stages, cosine, mean) && OneStage(stages[|stages| - 1], s, cosine, mean)
    ensures Stages(stages + [s], cosine, mean)
  {
  }

  /** The inner search: the first pair of centroids that no other pair beats. */
  method MostSimilar<V>(centroids: seq<V>, cosine: (V, V) -> real) returns (bi: nat, bj: nat)
    requires |centroids| >= 2
    ensures Closest(centroids, cosine, bi, bj)
  {
    bi, bj := 0, 1;
    var best := -2.0;
    for i := 0 to |centroids|
      invariant Searched(centroids, cosine, best, bi, bj, i, i + 1)
    {
      for j := i + 1 to |centroids|
        invariant Searched(centroids, cosine, best, bi, bj, i, j)
      {
        var sim := cosine(centroids[i], centroids[j]);
        if sim > best {
          best := sim;
          bi, bj := i, j;
        }
      }
    }
  }

  /** The centroids of the two become one. */
  function MergeCentroids<V>(centroids: seq<V>, mean: seq<V> -> V, i: nat, j: nat): seq<V>
    requires i < j < |centroids|
  {
    centroids[i := mean([centroids[i], centroids[j]])][..j] + centroids[j + 1..]
  }

  lemma MergedIsUnited<V>(c: Clusters, centroids: seq<V>, cosine: (V, V) -> real, mean: seq<V> -> V, i: nat, j: nat)
    requires |centroids| == |c| && Closest(centroids, cosine, i, j)
    ensures Unites(c, centroids, MergePair(c, i, j), MergeCentroids(centroids, mean, i, j), cosine, mean, i, j)
  {
  }

  lemma NextStage<V>(stages: seq<Stage<V>>, c: Clusters, centroids: seq<V>, home: seq<nat>, cosine: (V, V) -> real,
                     mean: seq<V> -> V, i: nat, j: nat)
    requires Stages(stages, cosine, mean) && stages[|stages| - 1] == Stage(c, centroids) && Arranged(c, home)
    requires |centroids| == |c| && Closest(centroids, cosine, i, j)
    ensures var c', centroids' := MergePair(c, i, j), MergeCentroids(centroids, mean, i, j);
            && |c'| == |centroids'| == |c| - 1
            && Stages(stages + [Stage(c', centroids')], cosine, mean)
            && Arranged(c', Rehome(home, i, j)) && Coarser(home, Rehome(home, i, j))
  {
    MergeKeepsArranged(c, home, i, j);
    MergedIsUnited(c, centroids, cosine, mean, i, j);
    StageAfter(stages, Stage(MergePair(c, i, j), MergeCentroids(centroids, mean, i, j)), cosine, mean);
  }

  method CapClusters<V>(before: Clusters, centroids0: seq<V>, cosine: (V, V) -> real, mean: seq<V> -> V, cap: nat,
                        ghost home0: seq<nat>)
    returns (clusters: Clusters, ghost home: seq<nat>, ghost stages: seq<Stage<V>>)
    requires cap >= 1 && |centroids0| == |before| && Arranged(before, home0)
    ensures Arranged(clusters, home) && Coarser(home0, home)
    ensures |clusters| == if |before| <= cap then |before| else cap
    ensures Stages(stages, cosine, mean) && |stages| == |before| - |clusters| + 1
    ensures stages[0] == Stage(before, centroids0) && stages[|stages| - 1].clusters == clusters
    ensures |before| <= cap ==> home == home0
  {
    clusters, home := before, home0;
    var centroids := centroids0;
    stages := [Stage(before, centroids0)];
    while |clusters| > cap
      invariant |centroids| == |clusters| && Arranged(clusters, home) && Coarser(home0, home)
      invariant |before| <= cap ==> clusters == before && home == home0
      invariant |before| > cap ==> |clusters| >= cap
      invariant Stages(stages, cosine, mean) && |stages| == |before| - |clusters| + 1
      invariant stages[0] == Stage(before, centroids0) && stages[|stages| - 1] == Stage(clusters, centroids)
      decreases |clusters|
    {
      var bi, bj := MostSimilar(centroids, cosine);
      NextStage(stages, clusters, centroids, home, cosine, mean, bi, bj);
      clusters, home := MergePair(clusters, bi, bj), Rehome(home, bi, bj);
      centroids := MergeCentroids(centroids, mean, bi, bj);
      stages := stages + [Stage(clusters, centroids)];
    }
  }

  // --- The whole ------------------------------------------------------------------------------

  lemma NextPair<V>(vectors: seq<V>, cosine: (V, V) -> real, i: nat, j: nat)
    requires i < j < |vectors|
    ensures Inside(PairsBelow(vectors, cosine, i, j), |vectors|)
    ensures cosine(vectors[i], vectors[j]) >= SIMILARITY_THRESHOLD ==>
              PairsBelow(vectors, cosine, i, j + 1) == PairsBelow(vectors, cosine, i, j) + {(i, j)}
    ensures !(cosine(vectors[i], vectors[j]) >= SIMILARITY_THRESHOLD) ==>
              PairsBelow(vectors, cosine, i, j + 1) == PairsBelow(vectors, cosine, i, j)
  {
  }

  lemma NextRow<V>(vectors: seq<V>, cosine: (V, V) -> real, i: nat)
    requires i < |vectors|
    ensures PairsBelow(vectors, cosine, i, |vectors|) == PairsBelow(vectors, cosine, i + 1, i + 2)
  {
  }

  method AddPair(parent: array<nat>, i: nat, j: nat, ghost g: Shape, ghost e: Edges) returns (ghost g': Shape, ghost e': Edges)
    requires i < parent.Length && j < parent.Length && Fits(parent[..], g)
    requires Inside(e, parent.Length) && Components(g.rep, e)
    modifies parent
    ensures Fits(parent[..], g') && e' == e + {(i, j)} && Components(g'.rep, e')
  {
    MergeAddsEdge(g.rep, e, i, j);
    g' := Union(parent, i, j, g);
    e' := e + {(i, j)};
  }

  /** The inner loop: one source against all later ones. */
  method LinkRow<V>(parent: array<nat>, vectors: seq<V>, cosine: (V, V) -> real, i: nat, ghost g: Shape)
    returns (ghost g': Shape)
    requires parent.Length == |vectors| && i < |vectors|
    requires Fits(parent[..], g) && Components(g.rep, PairsBelow(vectors, cosine, i, i + 1))
    modifies parent
    ensures Fits(parent[..], g') && Components(g'.rep, PairsBelow(vectors, cosine, i, |vectors|))
  {
    g' := g;
    ghost var e := PairsBelow(vectors, cosine, i, i + 1);
    for j := i + 1 to parent.Length
      invariant e == PairsBelow(vectors, cosine, i, j)
      invariant Fits(parent[..], g') && Components(g'.rep, e)
    {
      NextPair(vectors, cosine, i, j);
      if cosine(vectors[i], vectors[j]) >= SIMILARITY_THRESHOLD {
        g', e := AddPair(parent, i, j, g', e);
      }
    }
  }

  method Link<V>(parent: array<nat>, vectors: seq<V>, cosine: (V, V) -> real) returns (ghost g: Shape)
    requires parent.Length == |vectors|
    modifies parent
    ensures Fits(parent[..], g) && Components(g.rep, SimilarPairs(vectors, cosine))
  {
    var n := parent.Length;
    for i := 0 to n
      invariant forall k :: 0 <= k < i ==> parent[k] == k
    {
      parent[i] := i;
    }
    g := Shape(seq(n, i => i), seq(n, i => 0), 1);
    assert parent[..] == g.rep;
    NoEdges(n);
    assert PairsBelow(vectors, cosine, 0, 1) == {};
    for i := 0 to n
      invariant Fits(parent[..], g) && Components(g.rep, PairsBelow(vectors, cosine, i, i + 1))
    {
      g := LinkRow(parent, vectors, cosine, i, g);
      NextRow(vectors, cosine, i);
    }
    assert PairsBelow(vectors, cosine, n, n + 1) == SimilarPairs(vectors, cosine);
  }

  /** Two sources are together exactly when a chain of similar pairs connects them. */
  ghost predicate ByTopic(home: seq<nat>, e: Edges) {
    forall i: nat, j: nat :: i < |home| && j < |home| ==> (home[i] == home[j] <==> Connected(e, i, j))
  }

  /** The vectors of a cluster's members. */
  function VectorsOf<V>(vectors: seq<V>, members: seq<nat>): seq<V>
    requires forall m :: 0 <= m < |members| ==> members[m] < |vectors|
  {
    seq(|members|, m requires 0 <= m < |members| => vectors[members[m]])
  }

  /** Every cluster's centroid is the mean of its members' vectors. */
  method Centroids<V>(vectors: seq<V>, mean: seq<V> -> V, clusters: Clusters) returns (centroids: seq<V>)
    requires Before(clusters, |vectors|)
    ensures |centroids| == |clusters|
    ensures forall k :: 0 <= k < |clusters| ==> centroids[k] == mean(VectorsOf(vectors, clusters[k]))
  {
    centroids := [];
    for k := 0 to |clusters|
      invariant |centroids| == k
      invariant forall j :: 0 <= j < k ==> centroids[j] == mean(VectorsOf(vectors, clusters[j]))
    {
      var members: seq<V> := [];
      for m := 0 to |clusters[k]|
        invariant members == VectorsOf(vectors, clusters[k])[..m]
      {
        members := members + [vectors[clusters[k][m]]];
      }
      assert members == VectorsOf(vectors, clusters[k]);
      centroids := centroids + [mean(members)];
    }
  }

  /** The connected components of the similarity graph, in source order, with the means of their vectors. */
  ghost predicate TopicsOf<V>(s: Stage<V>, home: seq<nat>, vectors: seq<V>, cosine: (V, V) -> real, mean: seq<V> -> V) {
    && |home| == |vectors| && Arranged(s.clusters, home) && InSourceOrder(s.clusters) && Before(s.clusters, |vectors|)
    && ByTopic(home, SimilarPairs(vectors, cosine))
    && |s.centroids| == |s.clusters|
    && forall k :: 0 <= k < |s.clusters| ==> s.centroids[k] == mean(VectorsOf(vectors, s.clusters[k]))
  }

  lemma NoTopics<V>(vectors: seq<V>, cosine: (V, V) -> real, mean: seq<V> -> V)
    ensures vectors == [] ==> TopicsOf(Stage([], []), [], vectors, cosine, mean)
  {
  }

  lemma GroupsAreTopics<V>(c: Clusters, home: seq<nat>, rep: seq<nat>, vectors: seq<V>, cosine: (V, V) -> real)
    requires GroupedBy(c, home, rep) && |home| == |vectors| == |rep| && Components(rep, SimilarPairs(vectors, cosine))
    ensures ByTopic(home, SimilarPairs(vectors, cosine)) && Before(c, |vectors|)
  {
  }

  /**
    The topic clusters of n sources. Before capping they are the connected
    components of the similarity graph, in source order; capping unites the two
    closest until the cap is met. home0 and home are the two partitions.
   */
  method ClusterSources<V>(n: nat, vectors: seq<V>, cosine: (V, V) -> real, mean: seq<V> -> V, cap: nat)
    returns (clusters: Clusters, ghost home0: seq<nat>, ghost home: seq<nat>, ghost stages: seq<Stage<V>>)
    requires cap >= 1
    ensures |home| == n && Arranged(clusters, home)
    ensures |vectors| != n ==> InSourceOrder(clusters) && |clusters| == if n == 0 then 0 else 1
    ensures |vectors| == n ==>
              && stages != [] && TopicsOf(stages[0], home0, vectors, cosine, mean)
              && Stages(stages, cosine, mean) && stages[|stages| - 1].clusters == clusters
              && Coarser(home0, home)
              && |clusters| == (if |stages[0].clusters| <= cap then |stages[0].clusters| else cap)
              && |stages| == |stages[0].clusters| - |clusters| + 1
  {
    home0, home, stages := [], [], [Stage([], [])];
    if n == 0 {
      clusters := [];
      NoTopics(vectors, cosine, mean);
      return;
    }
    if |vectors| != n {
      clusters, home := [seq(n, i requires 0 <= i < n => i)], seq(n, i requires 0 <= i < n => 0);
      forall i | 0 <= i < n ensures i in clusters[0] {
        assert clusters[0][i] == i;
      }
      return;
    }
    var parent := new nat[n];
    ghost var g := Link(parent, vectors, cosine);
    var before;
    before, home0 := Group(parent, g);
    GroupsAreTopics(before, home0, g.rep, vectors, cosine);
    var centroids := Centroids(vectors, mean, before);
    clusters, home, stages := CapClusters(before, centroids, cosine, mean, cap, home0);
  }
}
