/**
  The union-find of internal/consolidation/cluster.go: a parent array that find
  flattens as it walks (path halving) and union extends without regard to rank.
 */
module UnionFind {

  /**
    What the parent array stands for. rep is the root every element leads to;
    level goes strictly up along every parent link and stays below top, which is
    why walking up ends although links are redirected on the way.
   */
  datatype Shape = Shape(rep: seq<nat>, level: seq<nat>, top: nat)

  ghost predicate NodeOk(p: seq<nat>, g: Shape, i: nat)
    requires i < |p| == |g.rep| == |g.level|
  {
    && p[i] < |p| && g.rep[i] < |p| && g.level[i] < g.top
    && p[g.rep[i]] == g.rep[i] && g.rep[g.rep[i]] == g.rep[i]
    && (if p[i] == i then g.rep[i] == i else g.level[i] < g.level[p[i]] && g.rep[p[i]] == g.rep[i])
  }

  ghost predicate Fits(p: seq<nat>, g: Shape) {
    && |p| == |g.rep| == |g.level|
    && forall i :: 0 <= i < |p| ==> NodeOk(p, g, i)
  }

  /** Redirecting a link to where it leads in two steps keeps everything an element stands for. */
  lemma HalvingKeepsShape(p: seq<nat>, g: Shape, i: nat)
    requires Fits(p, g) && i < |p| && p[i] != i
    ensures p[i] < |p|
    ensures Fits(p[i := p[p[i]]], g)
  {
    assert NodeOk(p, g, i) && NodeOk(p, g, p[i]) && NodeOk(p, g, p[p[i]]);
    var q := p[i := p[p[i]]];
    forall k | 0 <= k < |q| ensures NodeOk(q, g, k) {
      assert NodeOk(p, g, k) && NodeOk(p, g, g.rep[k]);
    }
  }

  /** Everything that led to a now leads to b. */
  function Merge(rep: seq<nat>, a: nat, b: nat): (r: seq<nat>)
    ensures |r| == |rep|
  {
    seq(|rep|, i requires 0 <= i < |rep| => if rep[i] == a then b else rep[i])
  }

  /** Linking root a below root b: b's elements move above all others. */
  ghost function Linked(g: Shape, a: nat, b: nat): Shape
    requires |g.rep| == |g.level|
  {
    Shape(Merge(g.rep, a, b),
          seq(|g.level|, i requires 0 <= i < |g.level| => if g.rep[i] == b then g.level[i] + g.top else g.level[i]),
          2 * g.top)
  }

  lemma LinkingMerges(p: seq<nat>, g: Shape, a: nat, b: nat)
    requires Fits(p, g) && a < |p| && b < |p| && a != b && g.rep[a] == a && g.rep[b] == b
    ensures Fits(p[a := b], Linked(g, a, b))
  {
    var q, h := p[a := b], Linked(g, a, b);
    assert NodeOk(p, g, a) && NodeOk(p, g, b);
    forall k | 0 <= k < |q| ensures NodeOk(q, h, k) {
      assert NodeOk(p, g, k) && NodeOk(p, g, p[k]) && NodeOk(p, g, g.rep[k]);
    }
  }

  method Find(parent: array<nat>, start: nat, ghost g: Shape) returns (root: nat)
    requires start < parent.Length && Fits(parent[..], g)
    modifies parent
    ensures Fits(parent[..], g) && root == g.rep[start] && root < parent.Length
  {
    var i: nat := start;
    assert NodeOk(parent[..], g, i);
    while parent[i] != i
      invariant i < parent.Length && Fits(parent[..], g) && g.rep[i] == g.rep[start]
      decreases g.top - g.level[i]
    {
      assert NodeOk(parent[..], g, i) && NodeOk(parent[..], g, parent[i]);
      HalvingKeepsShape(parent[..], g, i);
      ghost var before := parent[..];
      parent[i] := parent[parent[i]];
      assert parent[..] == before[i := before[before[i]]];
      i := parent[i];
      assert NodeOk(parent[..], g, i);
    }
    assert NodeOk(parent[..], g, i);
    root := i;
  }

  method Union(parent: array<nat>, x: nat, y: nat, ghost g: Shape) returns (ghost g': Shape)
    requires x < parent.Length && y < parent.Length && Fits(parent[..], g)
    modifies parent
    ensures Fits(parent[..], g') && g'.rep == Merge(g.rep, g.rep[x], g.rep[y])
  {
    g' := g;
    var rx := Find(parent, x, g);
    var ry := Find(parent, y, g);
    assert NodeOk(parent[..], g, x) && NodeOk(parent[..], g, y);
    if rx != ry {
      LinkingMerges(parent[..], g, rx, ry);
      ghost var before := parent[..];
      parent[rx] := ry;
      assert parent[..] == before[rx := ry];
      g' := Linked(g, rx, ry);
    } else {
      assert Merge(g.rep, rx, ry) == g.rep;
    }
  }

  // --- Connectivity -----------------------------------------------------------------

  type Edges = set<(nat, nat)>

  predicate Adjacent(e: Edges, u: nat, v: nat) {
    (u, v) in e || (v, u) in e
  }

  predicate Walk(e: Edges, w: seq<nat>) {
    |w| >= 1 && forall k :: 0 <= k < |w| - 1 ==> Adjacent(e, w[k], w[k + 1])
  }

  /** A chain of edges leads from one element to the other. */
  ghost predicate Connected(e: Edges, x: nat, y: nat) {
    exists w :: Walk(e, w) && w[0] == x && w[|w| - 1] == y
  }

  lemma ConnectedToItself(e: Edges, x: nat)
    ensures Connected(e, x, x)
  {
    assert Walk(e, [x]);
  }

  lemma JoinWalks(e: Edges, x: nat, y: nat, z: nat)
    requires Connected(e, x, y) && Connected(e, y, z)
    ensures Connected(e, x, z)
  {
    var v :| Walk(e, v) && v[0] == x && v[|v| - 1] == y;
    var w :| Walk(e, w) && w[0] == y && w[|w| - 1] == z;
    var joined := v + w[1..];
    forall k | 0 <= k < |joined| - 1 ensures Adjacent(e, joined[k], joined[k + 1]) {
      if k >= |v| - 1 {
        assert joined[k] == w[k - |v| + 1] && joined[k + 1] == w[k - |v| + 2];
      }
    }
    assert Walk(e, joined) && joined[0] == x && joined[|joined| - 1] == z;
  }

  lemma MoreEdges(e: Edges, e': Edges, x: nat, y: nat)
    requires e <= e' && Connected(e, x, y)
    ensures Connected(e', x, y)
  {
    var w :| Walk(e, w) && w[0] == x && w[|w| - 1] == y;
    assert Walk(e', w);
  }

  lemma OneEdge(e: Edges, x: nat, y: nat)
    requires Adjacent(e, x, y)
    ensures Connected(e, x, y)
  {
    assert Walk(e, [x, y]);
  }

  /** Two elements have the same root exactly when a chain of edges connects them. */
  ghost predicate Components(rep: seq<nat>, e: Edges) {
    forall x: nat, y: nat :: x < |rep| && y < |rep| ==> (rep[x] == rep[y] <==> Connected(e, x, y))
  }

  lemma NoEdges(n: nat)
    ensures Components(seq(n, i => i), {})
  {
    var rep: seq<nat> := seq(n, i => i);
    forall x: nat, y: nat | x < n && y < n ensures rep[x] == rep[y] <==> Connected({}, x, y) {
      ConnectedToItself({}, x);
      if Connected({}, x, y) {
        var w :| Walk({}, w) && w[0] == x && w[|w| - 1] == y;
        assert |w| > 1 ==> Adjacent({}, w[0], w[1]);
      }
    }
  }

  /** Along a walk the root does not change once its edges have been merged. */
  lemma {:induction false} WalkStaysInside(rep: seq<nat>, e: Edges, w: seq<nat>)
    requires Walk(e, w) && w[0] < |rep|
    requires forall u, v :: (u, v) in e ==> u < |rep| && v < |rep| && rep[u] == rep[v]
    ensures w[|w| - 1] < |rep| && rep[w[|w| - 1]] == rep[w[0]]
    decreases |w|
  {
    if |w| > 1 {
      assert Adjacent(e, w[0], w[1]);
      assert Walk(e, w[1..]) by {
        forall k | 0 <= k < |w[1..]| - 1 ensures Adjacent(e, w[1..][k], w[1..][k + 1]) {
          assert Adjacent(e, w[k + 1], w[k + 2]);
        }
      }
      WalkStaysInside(rep, e, w[1..]);
    }
  }

  ghost predicate Inside(e: Edges, n: nat) {
    forall u, v :: (u, v) in e ==> u < n && v < n
  }

  /** Merging the two roots of a new edge is what the edge does to connectivity. */
  lemma MergeAddsEdge(rep: seq<nat>, e: Edges, x: nat, y: nat)
    requires x < |rep| && y < |rep| && Inside(e, |rep|) && Components(rep, e)
    ensures Components(Merge(rep, rep[x], rep[y]), e + {(x, y)})
  {
    var merged, e' := Merge(rep, rep[x], rep[y]), e + {(x, y)};
    forall u, v | (u, v) in e' ensures merged[u] == merged[v] {
      if (u, v) in e {
        OneEdge(e, u, v);
      }
    }
    forall a: nat, b: nat | a < |rep| && b < |rep| ensures merged[a] == merged[b] <==> Connected(e', a, b) {
      if Connected(e', a, b) {
        var w :| Walk(e', w) && w[0] == a && w[|w| - 1] == b;
        WalkStaysInside(merged, e', w);
      }
      if merged[a] == merged[b] {
        SameRootIsConnected(rep, e, x, y, a, b);
      }
    }
  }

  lemma SameRootIsConnected(rep: seq<nat>, e: Edges, x: nat, y: nat, a: nat, b: nat)
    requires x < |rep| && y < |rep| && a < |rep| && b < |rep| && Components(rep, e)
    requires Merge(rep, rep[x], rep[y])[a] == Merge(rep, rep[x], rep[y])[b]
    ensures Connected(e + {(x, y)}, a, b)
  {
    var e' := e + {(x, y)};
    if rep[a] == rep[b] {
      MoreEdges(e, e', a, b);
    } else if rep[a] == rep[x] {
      Bridge(rep, e, a, x, y, b, e');
    } else {
      Bridge(rep, e, a, y, x, b, e');
    }
  }

  /** a reaches u, an edge leads from u to v, v reaches b. */
  lemma Bridge(rep: seq<nat>, e: Edges, a: nat, u: nat, v: nat, b: nat, e': Edges)
    requires a < |rep| && u < |rep| && v < |rep| && b < |rep| && Components(rep, e)
    requires rep[a] == rep[u] && rep[v] == rep[b] && e <= e' && Adjacent(e', u, v)
    ensures Connected(e', a, b)
  {
    MoreEdges(e, e', a, u);
    MoreEdges(e, e', v, b);
    OneEdge(e', u, v);
    JoinWalks(e', a, u, v);
    JoinWalks(e', a, v, b);
  }
}
