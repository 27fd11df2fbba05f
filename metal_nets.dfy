/**
 * Metal nets (`find_connected_metal_nets`): a union-find over the metal shapes
 * joins every two shapes whose intersection is non-empty; each resulting
 * class is a net, named `NET1, NET2, ...` in the order in which the shapes
 * first reach it. A shape's handle is its position in the metal list, which
 * is what `id(p)` distinguishes in the dictionary.
 */
module MetalNets {
  import opened Text
  import opened Layout

  // ---------------------------------------------------------------------
  // The overlap graph and its connected components.

  /** Shapes `a` and `b` were found to overlap (the loop tests the earlier one against the later one). */
  ghost predicate Adjacent(met: seq<Shape>, g: Geometry, a: nat, b: nat)
  {
    && a < |met| && b < |met|
    && ((a < b && Overlap(g, met[a], met[b])) || (b < a && Overlap(g, met[b], met[a])))
  }

  ghost predicate IsPath(met: seq<Shape>, g: Geometry, p: seq<nat>)
  {
    && |p| >= 1
    && (forall k :: 0 <= k < |p| ==> p[k] < |met|)
    && (forall k :: 0 <= k < |p| - 1 ==> Adjacent(met, g, p[k], p[k + 1]))
  }

  /** A chain of overlapping shapes leads from `a` to `b`. */
  ghost predicate Connected(met: seq<Shape>, g: Geometry, a: nat, b: nat)
  {
    exists p :: IsPath(met, g, p) && p[0] == a && p[|p| - 1] == b
  }

  lemma ConnectedRefl(met: seq<Shape>, g: Geometry, a: nat)
    requires a < |met|
    ensures Connected(met, g, a, a)
  {
    assert IsPath(met, g, [a]);
  }

  lemma AdjacentConnected(met: seq<Shape>, g: Geometry, a: nat, b: nat)
    requires Adjacent(met, g, a, b)
    ensures Connected(met, g, a, b)
  {
    assert IsPath(met, g, [a, b]);
  }

  lemma ConnectedSym(met: seq<Shape>, g: Geometry, a: nat, b: nat)
    requires Connected(met, g, a, b)
    ensures Connected(met, g, b, a)
  {
    var p :| IsPath(met, g, p) && p[0] == a && p[|p| - 1] == b;
    var q := seq(|p|, k requires 0 <= k < |p| => p[|p| - 1 - k]);
    forall k | 0 <= k < |q| - 1 ensures Adjacent(met, g, q[k], q[k + 1]) {
      assert Adjacent(met, g, p[|p| - 2 - k], p[|p| - 1 - k]);
    }
    assert IsPath(met, g, q);
  }

  lemma ConnectedTrans(met: seq<Shape>, g: Geometry, a: nat, b: nat, c: nat)
    requires Connected(met, g, a, b) && Connected(met, g, b, c)
    ensures Connected(met, g, a, c)
  {
    var p :| IsPath(met, g, p) && p[0] == a && p[|p| - 1] == b;
    var q :| IsPath(met, g, q) && q[0] == b && q[|q| - 1] == c;
    var r := p + q[1..];
    forall k | 0 <= k < |r| - 1 ensures Adjacent(met, g, r[k], r[k + 1]) {
      if k < |p| - 1 {
        assert r[k] == p[k] && r[k + 1] == p[k + 1];
      } else {
        assert r[k] == q[k - |p| + 1] && r[k + 1] == q[k - |p| + 2];
      }
    }
    assert IsPath(met, g, r);
  }

  // ---------------------------------------------------------------------
  // The `parent` dictionary as a forest.

  /**
   * Every link leads to a present handle, and a ghost rank grows strictly
   * along every non-root link, bounded by `height`: following links terminates.
   */
  ghost predicate Forest(parent: map<nat, nat>, rank: map<nat, nat>, height: nat)
  {
    && parent.Keys <= rank.Keys
    && parent.Values <= parent.Keys
    && (forall x {:trigger parent[x]} :: x in parent && parent[x] != x ==> rank[x] < rank[parent[x]])
    && (forall x {:trigger rank[x]} :: x in rank ==> rank[x] <= height)
  }

  /** The root reached from `x` by following parent links. */
  ghost function RootOf(parent: map<nat, nat>, rank: map<nat, nat>, height: nat, x: nat): (r: nat)
    requires Forest(parent, rank, height) && x in parent
    ensures r in parent && parent[r] == r
    decreases height - rank[x]
  {
    if parent[x] == x then x else RootOf(parent, rank, height, parent[x])
  }

  /** Path halving (`parent[p] = parent[parent[p]]`) keeps a forest and moves no node to another root. */
  lemma {:induction false} HalveRoot(parent: map<nat, nat>, rank: map<nat, nat>, height: nat, x: nat, y: nat)
    requires Forest(parent, rank, height) && x in parent && parent[x] != parent[parent[x]]
    requires Forest(parent[x := parent[parent[x]]], rank, height)
    requires y in parent
    ensures RootOf(parent[x := parent[parent[x]]], rank, height, y) == RootOf(parent, rank, height, y)
    decreases height - rank[y]
  {
    var p' := parent[x := parent[parent[x]]];
    if y == x {
      var gp := parent[parent[x]];
      HalveRoot(parent, rank, height, x, gp);
      assert RootOf(parent, rank, height, x) == RootOf(parent, rank, height, parent[x]);
    } else if parent[y] != y {
      HalveRoot(parent, rank, height, x, parent[y]);
    }
  }

  lemma Halve(parent: map<nat, nat>, rank: map<nat, nat>, height: nat, x: nat)
    requires Forest(parent, rank, height) && x in parent && parent[x] != parent[parent[x]]
    ensures Forest(parent[x := parent[parent[x]]], rank, height)
    ensures forall y {:trigger RootOf(parent[x := parent[parent[x]]], rank, height, y)} :: y in parent ==> RootOf(parent[x := parent[parent[x]]], rank, height, y) == RootOf(parent, rank, height, y)
  {
    var p' := parent[x := parent[parent[x]]];
    assert rank[x] < rank[parent[x]] < rank[parent[parent[x]]];
    assert Forest(p', rank, height);
    forall y | y in parent ensures RootOf(p', rank, height, y) == RootOf(parent, rank, height, y) {
      HalveRoot(parent, rank, height, x, y);
    }
  }

  /** Hanging root `r2` under root `r1` merges their classes and leaves every other class as it was. */
  lemma {:induction false} LinkRoot(parent: map<nat, nat>, rank: map<nat, nat>, height: nat, r1: nat, r2: nat, y: nat)
    requires Forest(parent, rank, height)
    requires r1 in parent && r2 in parent && parent[r1] == r1 && parent[r2] == r2 && r1 != r2
    requires Forest(parent[r2 := r1], rank[r1 := Max(rank[r1], rank[r2] + 1)], Max(height, rank[r2] + 1))
    requires y in parent
    ensures var old_r := RootOf(parent, rank, height, y);
      RootOf(parent[r2 := r1], rank[r1 := Max(rank[r1], rank[r2] + 1)], Max(height, rank[r2] + 1), y) ==
      if old_r == r2 then r1 else old_r
    decreases Max(height, rank[r2] + 1) - rank[r1 := Max(rank[r1], rank[r2] + 1)][y]
  {
    var p', k', h' := parent[r2 := r1], rank[r1 := Max(rank[r1], rank[r2] + 1)], Max(height, rank[r2] + 1);
    if y == r2 {
      assert RootOf(p', k', h', r1) == r1;
    } else if parent[y] != y {
      LinkRoot(parent, rank, height, r1, r2, parent[y]);
    }
  }

  /** The class a root names once the class `from` has joined the class `into`. */
  function Merged(root: nat, from: nat, into: nat): nat
  {
    if root == from then into else root
  }

  function Max(a: nat, b: nat): nat
  {
    if a < b then b else a
  }

  lemma Link(parent: map<nat, nat>, rank: map<nat, nat>, height: nat, r1: nat, r2: nat)
    requires Forest(parent, rank, height)
    requires r1 in parent && r2 in parent && parent[r1] == r1 && parent[r2] == r2 && r1 != r2
    ensures Forest(parent[r2 := r1], rank[r1 := Max(rank[r1], rank[r2] + 1)], Max(height, rank[r2] + 1))
    ensures forall y {:trigger RootOf(parent[r2 := r1], rank[r1 := Max(rank[r1], rank[r2] + 1)], Max(height, rank[r2] + 1), y)} :: y in parent ==>
      RootOf(parent[r2 := r1], rank[r1 := Max(rank[r1], rank[r2] + 1)], Max(height, rank[r2] + 1), y) ==
      if RootOf(parent, rank, height, y) == r2 then r1 else RootOf(parent, rank, height, y)
  {
    var p', k', h' := parent[r2 := r1], rank[r1 := Max(rank[r1], rank[r2] + 1)], Max(height, rank[r2] + 1);
    assert Forest(p', k', h');
    forall y | y in parent
      ensures RootOf(p', k', h', y) == if RootOf(parent, rank, height, y) == r2 then r1 else RootOf(parent, rank, height, y)
    {
      LinkRoot(parent, rank, height, r1, r2, y);
    }
  }

  /** The handles of `n` shapes. */
  function Handles(n: nat): (r: set<nat>)
    ensures forall x: nat :: x in r <==> x < n
  {
    if n == 0 then {} else Handles(n - 1) + {n - 1}
  }

  /** The identity map on the handles `0 .. n - 1`. */
  function Identity(n: nat): (m: map<nat, nat>)
    ensures m.Keys == Handles(n)
    ensures forall x :: x in m ==> m[x] == x
  {
    if n == 0 then map[] else Identity(n - 1)[n - 1 := n - 1]
  }

  /** Rank zero for the handles `0 .. n - 1`. */
  function Zero(n: nat): (m: map<nat, nat>)
    ensures m.Keys == Handles(n)
    ensures forall x :: x in m ==> m[x] == 0
  {
    if n == 0 then map[] else Zero(n - 1)[n - 1 := 0]
  }

  /** Once the parent of `x` is a root, that root is the root of `x`. */
  lemma HalvedRoot(parent: map<nat, nat>, rank: map<nat, nat>, height: nat, x: nat)
    requires Forest(parent, rank, height) && x in parent && parent[x] == parent[parent[x]]
    ensures RootOf(parent, rank, height, x) == parent[x]
  {
    if parent[x] != x {
      assert RootOf(parent, rank, height, parent[x]) == parent[x];
    }
  }

  /**
   * Linking two roots of a forest whose classes are those of `before`: the
   * class of `r2` joins that of `r1`, every other class stays.
   */
  lemma LinkAfter(before: map<nat, nat>, parent: map<nat, nat>, rank: map<nat, nat>, height: nat, r1: nat, r2: nat)
    requires Forest(before, rank, height) && Forest(parent, rank, height) && before.Keys == parent.Keys
    requires forall y {:trigger RootOf(parent, rank, height, y)} :: y in parent ==> RootOf(parent, rank, height, y) == RootOf(before, rank, height, y)
    requires r1 in parent && r2 in parent && parent[r1] == r1 && parent[r2] == r2 && r1 != r2
    ensures Forest(parent[r2 := r1], rank[r1 := Max(rank[r1], rank[r2] + 1)], Max(height, rank[r2] + 1))
    ensures forall y {:trigger RootOf(parent[r2 := r1], rank[r1 := Max(rank[r1], rank[r2] + 1)], Max(height, rank[r2] + 1), y)} :: y in parent ==>
      RootOf(parent[r2 := r1], rank[r1 := Max(rank[r1], rank[r2] + 1)], Max(height, rank[r2] + 1), y) ==
      Merged(RootOf(before, rank, height, y), r2, r1)
  {
    Link(parent, rank, height, r1, r2);
  }

  /** The `parent` dictionary over `n` shapes: a forest whose handles are `0 .. n - 1`. */
  ghost predicate Valid(parent: map<nat, nat>, rank: map<nat, nat>, height: nat, n: nat)
  {
    parent.Keys == Handles(n) && Forest(parent, rank, height)
  }

  /** `parent = {id(p): p for p in met1_polygons}`: every shape is its own root. */
  lemma InitialForest(n: nat)
    ensures Valid(Identity(n), Zero(n), 0, n)
    ensures forall x :: x in Identity(n) ==> RootOf(Identity(n), Zero(n), 0, x) == x
  {
  }

  /**
   * `find`: follows the links from `x` to its root, halving the path on the
   * way (`parent[p] = parent[parent[p]]`); returns the root and the updated
   * dictionary, in which no shape has changed class.
   */
  method Find(parent: map<nat, nat>, ghost rank: map<nat, nat>, ghost height: nat, ghost n: nat, x: nat)
    returns (links: map<nat, nat>, r: nat)
    requires Valid(parent, rank, height, n) && x < n
    ensures Valid(links, rank, height, n)
    ensures r == RootOf(parent, rank, height, x) && links[r] == r
    ensures forall y {:trigger RootOf(links, rank, height, y)} :: y in links ==> RootOf(links, rank, height, y) == RootOf(parent, rank, height, y)
  {
    links := parent;
    while links[x] != links[links[x]]
      invariant Forest(links, rank, height) && links.Keys == parent.Keys && links[x] in links
      invariant forall y {:trigger RootOf(links, rank, height, y)} :: y in parent ==> RootOf(links, rank, height, y) == RootOf(parent, rank, height, y)
      decreases height - rank[links[x]]
    {
      Halve(links, rank, height, x);
      links := links[x := links[links[x]]];
    }
    r := links[x];
    HalvedRoot(links, rank, height, x);
  }

  /**
   * `union`: finds both roots and, when they differ, hangs the root of `b`
   * under the root of `a`. In the result the class of `b` has joined the
   * class of `a` and every other class is as it was. The ghost rank and
   * height only witness that the links still lead to roots.
   */
  method Union(parent: map<nat, nat>, ghost rank: map<nat, nat>, ghost height: nat, ghost n: nat, a: nat, b: nat)
    returns (links: map<nat, nat>, ghost rank': map<nat, nat>, ghost height': nat)
    requires Valid(parent, rank, height, n) && a < n && b < n
    ensures Valid(links, rank', height', n)
    ensures forall y {:trigger RootOf(links, rank', height', y)} :: y in links ==>
      RootOf(links, rank', height', y) == Merged(RootOf(parent, rank, height, y), RootOf(parent, rank, height, b), RootOf(parent, rank, height, a))
  {
    var middle, root1 := Find(parent, rank, height, n, a);
    var after, root2 := Find(middle, rank, height, n, b);
    assert after[root1] == root1 by {
      assert RootOf(middle, rank, height, root1) == root1;
      assert RootOf(after, rank, height, root1) == RootOf(middle, rank, height, root1);
    }
    if root1 != root2 {
      LinkAfter(parent, after, rank, height, root1, root2);
      links := after[root2 := after[root1]];
      rank', height' := rank[root1 := Max(rank[root1], rank[root2] + 1)], Max(height, rank[root2] + 1);
    } else {
      links, rank', height' := after, rank, height;
    }
  }

  // ---------------------------------------------------------------------
  // Joining overlapping shapes.

  /** Every handle's root is reachable from it through overlapping shapes. */
  ghost predicate Reaches(met: seq<Shape>, g: Geometry, parent: map<nat, nat>, rank: map<nat, nat>, height: nat)
  {
    && Valid(parent, rank, height, |met|)
    && forall y {:trigger RootOf(parent, rank, height, y)} :: y in parent ==> Connected(met, g, y, RootOf(parent, rank, height, y))
  }

  /** The pair `(a, b)` comes before iteration `(i, j)` of the double loop. */
  predicate Done(a: nat, b: nat, i: nat, j: nat)
  {
    a < i || (a == i && b < j)
  }

  /** Every overlapping pair the loop has visited before `(i, j)` shares a root. */
  ghost predicate Joined(met: seq<Shape>, g: Geometry, parent: map<nat, nat>, rank: map<nat, nat>, height: nat, i: nat, j: nat)
    requires Valid(parent, rank, height, |met|)
  {
    forall a, b {:trigger met[a], met[b]} :: 0 <= a < b < |met| && Done(a, b, i, j) && Overlap(g, met[a], met[b]) ==>
         RootOf(parent, rank, height, a) == RootOf(parent, rank, height, b)
  }

  /** Joining the classes of two overlapping shapes `i < j` keeps every root reachable. */
  lemma UnionReaches(met: seq<Shape>, g: Geometry, parent: map<nat, nat>, rank: map<nat, nat>, height: nat,
                     links: map<nat, nat>, rank': map<nat, nat>, height': nat, i: nat, j: nat)
    requires Reaches(met, g, parent, rank, height) && Valid(links, rank', height', |met|)
    requires i < j < |met| && Overlap(g, met[i], met[j])
    requires forall y {:trigger RootOf(links, rank', height', y)} :: y in links ==>
      RootOf(links, rank', height', y) == Merged(RootOf(parent, rank, height, y), RootOf(parent, rank, height, j), RootOf(parent, rank, height, i))
    ensures Reaches(met, g, links, rank', height')
  {
    var ri, rj := RootOf(parent, rank, height, i), RootOf(parent, rank, height, j);
    forall y | y in links ensures Connected(met, g, y, RootOf(links, rank', height', y)) {
      if RootOf(parent, rank, height, y) == rj {
        ConnectedSym(met, g, j, rj);
        ConnectedTrans(met, g, y, rj, j);
        AdjacentConnected(met, g, j, i);
        ConnectedTrans(met, g, y, j, i);
        ConnectedTrans(met, g, y, i, ri);
      }
    }
  }

  /** Joining the classes of `i < j` keeps every visited pair together and adds `(i, j)`. */
  lemma UnionJoins(met: seq<Shape>, g: Geometry, parent: map<nat, nat>, rank: map<nat, nat>, height: nat,
                   links: map<nat, nat>, rank': map<nat, nat>, height': nat, i: nat, j: nat)
    requires Valid(parent, rank, height, |met|) && Joined(met, g, parent, rank, height, i, j)
    requires Valid(links, rank', height', |met|)
    requires i < j < |met|
    requires forall y {:trigger RootOf(links, rank', height', y)} :: y in links ==>
      RootOf(links, rank', height', y) == Merged(RootOf(parent, rank, height, y), RootOf(parent, rank, height, j), RootOf(parent, rank, height, i))
    ensures Joined(met, g, links, rank', height', i, j + 1)
  {
    forall a, b | 0 <= a < b < |met| && Done(a, b, i, j + 1) && Overlap(g, met[a], met[b])
      ensures RootOf(links, rank', height', a) == RootOf(links, rank', height', b)
    {
      var ra, rb := RootOf(parent, rank, height, a), RootOf(parent, rank, height, b);
      if a == i && b == j {
        assert RootOf(links, rank', height', b) == RootOf(parent, rank, height, i);
      } else {
        assert Done(a, b, i, j);
        assert ra == rb;
      }
    }
  }

  /** The state of the double loop before iteration `(i, j)`. */
  ghost predicate JoinState(met: seq<Shape>, g: Geometry, parent: map<nat, nat>, rank: map<nat, nat>, height: nat, i: nat, j: nat)
  {
    Reaches(met, g, parent, rank, height) && Joined(met, g, parent, rank, height, i, j)
  }

  /** A pair that does not overlap needs no join. */
  lemma SkipJoins(met: seq<Shape>, g: Geometry, parent: map<nat, nat>, rank: map<nat, nat>, height: nat, i: nat, j: nat)
    requires Valid(parent, rank, height, |met|) && Joined(met, g, parent, rank, height, i, j)
    requires i < j < |met| && !Overlap(g, met[i], met[j])
    ensures Joined(met, g, parent, rank, height, i, j + 1)
  {
    forall a, b | 0 <= a < b < |met| && Done(a, b, i, j + 1) && Overlap(g, met[a], met[b])
      ensures RootOf(parent, rank, height, a) == RootOf(parent, rank, height, b)
    {
      assert Done(a, b, i, j);
    }
  }

  /** After the last `j` of row `i`, every pair up to row `i` is joined. */
  lemma RowDone(met: seq<Shape>, g: Geometry, parent: map<nat, nat>, rank: map<nat, nat>, height: nat, i: nat)
    requires JoinState(met, g, parent, rank, height, i, |met|)
    ensures JoinState(met, g, parent, rank, height, i + 1, 0)
  {
    forall a, b | 0 <= a < b < |met| && Done(a, b, i + 1, 0) && Overlap(g, met[a], met[b])
      ensures RootOf(parent, rank, height, a) == RootOf(parent, rank, height, b)
    {
      assert Done(a, b, i, |met|);
    }
  }

  /** One step of the inner loop: `union(met1[i], met1[j])` when the two shapes overlap. */
  method JoinPair(met: seq<Shape>, g: Geometry, parent: map<nat, nat>, ghost rank: map<nat, nat>, ghost height: nat, i: nat, j: nat)
    returns (links: map<nat, nat>, ghost rank': map<nat, nat>, ghost height': nat)
    requires i < j < |met| && JoinState(met, g, parent, rank, height, i, j)
    ensures JoinState(met, g, links, rank', height', i, j + 1)
  {
    if Overlap(g, met[i], met[j]) {
      links, rank', height' := Union(parent, rank, height, |met|, i, j);
      UnionReaches(met, g, parent, rank, height, links, rank', height', i, j);
      UnionJoins(met, g, parent, rank, height, links, rank', height', i, j);
    } else {
      links, rank', height' := parent, rank, height;
      SkipJoins(met, g, parent, rank, height, i, j);
    }
  }

  /** The inner loop, `for j in range(i + 1, len(met1))`. */
  method JoinRow(met: seq<Shape>, g: Geometry, parent: map<nat, nat>, ghost rank: map<nat, nat>, ghost height: nat, i: nat)
    returns (links: map<nat, nat>, ghost rank': map<nat, nat>, ghost height': nat)
    requires i < |met| && JoinState(met, g, parent, rank, height, i, i + 1)
    ensures JoinState(met, g, links, rank', height', i, |met|)
  {
    links, rank', height' := parent, rank, height;
    var j := i + 1;
    while j < |met|
      invariant i < j <= |met|
      invariant JoinState(met, g, links, rank', height', i, j)
    {
      links, rank', height' := JoinPair(met, g, links, rank', height', i, j);
      j := j + 1;
    }
  }

  /** Row `i` starts where the previous row ended. */
  lemma RowStart(met: seq<Shape>, g: Geometry, parent: map<nat, nat>, rank: map<nat, nat>, height: nat, i: nat)
    requires JoinState(met, g, parent, rank, height, i, 0)
    ensures JoinState(met, g, parent, rank, height, i, i + 1)
  {
    forall a, b | 0 <= a < b < |met| && Done(a, b, i, i + 1) && Overlap(g, met[a], met[b])
      ensures RootOf(parent, rank, height, a) == RootOf(parent, rank, height, b)
    {
      assert Done(a, b, i, 0);
    }
  }

  /** Before the first union every shape is its own root, trivially reachable. */
  lemma JoinStart(met: seq<Shape>, g: Geometry)
    ensures JoinState(met, g, Identity(|met|), Zero(|met|), 0, 0, 0)
  {
    InitialForest(|met|);
    forall y | y in Identity(|met|) ensures Connected(met, g, y, RootOf(Identity(|met|), Zero(|met|), 0, y)) {
      ConnectedRefl(met, g, y);
    }
  }

  /** Every two overlapping shapes share a root. */
  ghost predicate AllJoined(met: seq<Shape>, g: Geometry, parent: map<nat, nat>, rank: map<nat, nat>, height: nat)
  {
    && Valid(parent, rank, height, |met|)
    && forall a, b :: 0 <= a < b < |met| && Overlap(g, met[a], met[b]) ==>
         RootOf(parent, rank, height, a) == RootOf(parent, rank, height, b)
  }

  /** After the last row every pair has been visited. */
  lemma JoinEnd(met: seq<Shape>, g: Geometry, parent: map<nat, nat>, rank: map<nat, nat>, height: nat)
    requires JoinState(met, g, parent, rank, height, |met|, 0)
    ensures Reaches(met, g, parent, rank, height) && AllJoined(met, g, parent, rank, height)
  {
    forall a, b | 0 <= a < b < |met| && Overlap(g, met[a], met[b])
      ensures RootOf(parent, rank, height, a) == RootOf(parent, rank, height, b)
    {
      assert Done(a, b, |met|, 0);
    }
  }

  /** The double loop over `i < j`: every overlapping pair ends up in one class. */
  method JoinOverlapping(met: seq<Shape>, g: Geometry) returns (parent: map<nat, nat>, ghost rank: map<nat, nat>, ghost height: nat)
    ensures Reaches(met, g, parent, rank, height) && AllJoined(met, g, parent, rank, height)
  {
    parent, rank, height := Identity(|met|), Zero(|met|), 0;
    JoinStart(met, g);
    for i := 0 to |met|
      invariant JoinState(met, g, parent, rank, height, i, 0)
    {
      RowStart(met, g, parent, rank, height, i);
      parent, rank, height := JoinRow(met, g, parent, rank, height, i);
      RowDone(met, g, parent, rank, height, i);
    }
    JoinEnd(met, g, parent, rank, height);
  }

  /** Shapes along a chain of overlaps share a root. */
  lemma {:induction false} PathSameRoot(met: seq<Shape>, g: Geometry, parent: map<nat, nat>, rank: map<nat, nat>, height: nat, p: seq<nat>)
    requires AllJoined(met, g, parent, rank, height) && IsPath(met, g, p)
    ensures RootOf(parent, rank, height, p[0]) == RootOf(parent, rank, height, p[|p| - 1])
    decreases |p|
  {
    if |p| > 1 {
      var q := p[1..];
      assert IsPath(met, g, q) by {
        forall k | 0 <= k < |q| - 1 ensures Adjacent(met, g, q[k], q[k + 1]) {
          assert Adjacent(met, g, p[k + 1], p[k + 2]);
        }
      }
      PathSameRoot(met, g, parent, rank, height, q);
      assert Adjacent(met, g, p[0], p[1]);
    }
  }

  /** Two shapes share a root exactly when a chain of overlaps connects them. */
  lemma RootsAreComponents(met: seq<Shape>, g: Geometry, parent: map<nat, nat>, rank: map<nat, nat>, height: nat, a: nat, b: nat)
    requires Reaches(met, g, parent, rank, height) && AllJoined(met, g, parent, rank, height)
    requires a < |met| && b < |met|
    ensures RootOf(parent, rank, height, a) == RootOf(parent, rank, height, b) <==> Connected(met, g, a, b)
  {
    assert a in parent && b in parent;
    if RootOf(parent, rank, height, a) == RootOf(parent, rank, height, b) {
      ConnectedSym(met, g, b, RootOf(parent, rank, height, b));
      ConnectedTrans(met, g, a, RootOf(parent, rank, height, a), b);
    }
    if Connected(met, g, a, b) {
      var p :| IsPath(met, g, p) && p[0] == a && p[|p| - 1] == b;
      PathSameRoot(met, g, parent, rank, height, p);
    }
  }

  // ---------------------------------------------------------------------
  // Grouping by root and naming the nets.

  /** The `net_groups` dictionary: its keys in insertion order and the handles filed under each. */
  datatype Grouping = Grouping(order: seq<nat>, members: map<nat, seq<nat>>)

  /** Files handle `k` under `labels[k]`, for `k` in increasing order; a new label is appended to the order. */
  function GroupBy(labels: seq<nat>): (r: Grouping)
    ensures forall l :: l in r.members <==> l in r.order
    ensures forall l :: l in r.members ==> r.members[l] != []
    ensures forall l, m :: l in r.members && 0 <= m < |r.members[l]| ==>
      r.members[l][m] < |labels| && labels[r.members[l][m]] == l
  {
    if labels == [] then Grouping([], map[])
    else
      var k := |labels| - 1;
      var gr := GroupBy(labels[..k]);
      var l := labels[k];
      if l in gr.members then Grouping(gr.order, gr.members[l := gr.members[l] + [k]])
      else Grouping(gr.order + [l], gr.members[l := [k]])
  }

  /** Every handle is filed under its own label. */
  lemma {:induction false} GroupByComplete(labels: seq<nat>, k: nat)
    requires k < |labels|
    ensures labels[k] in GroupBy(labels).members && k in GroupBy(labels).members[labels[k]]
    decreases |labels|
  {
    var n := |labels| - 1;
    var gr := GroupBy(labels[..n]);
    if k < n {
      GroupByComplete(labels[..n], k);
      assert labels[..n][k] == labels[k];
    }
  }

  /** No label is listed twice in the order. */
  lemma {:induction false} GroupByDistinct(labels: seq<nat>)
    ensures forall i, j :: 0 <= i < j < |GroupBy(labels).order| ==> GroupBy(labels).order[i] != GroupBy(labels).order[j]
    decreases |labels|
  {
    if labels != [] {
      GroupByDistinct(labels[..|labels| - 1]);
    }
  }

  /** Within a group the handles are in increasing (ingestion) order. */
  lemma {:induction false} GroupByIncreasing(labels: seq<nat>, l: nat)
    requires l in GroupBy(labels).members
    ensures forall m, m' :: 0 <= m < m' < |GroupBy(labels).members[l]| ==>
      GroupBy(labels).members[l][m] < GroupBy(labels).members[l][m']
    decreases |labels|
  {
    var n := |labels| - 1;
    var gr := GroupBy(labels[..n]);
    if l in gr.members {
      GroupByIncreasing(labels[..n], l);
    }
  }

  /** Filing one more handle leaves the groups already listed, and their first handles, in place. */
  lemma GroupByKeepsFirst(labels: seq<nat>, i: nat)
    requires labels != [] && i < |GroupBy(labels[..|labels| - 1]).order|
    ensures var gr, gr' := GroupBy(labels[..|labels| - 1]), GroupBy(labels);
      i < |gr'.order| && gr'.order[i] == gr.order[i] &&
      gr'.members[gr'.order[i]][0] == gr.members[gr.order[i]][0] < |labels| - 1
  {
    var gr := GroupBy(labels[..|labels| - 1]);
    assert gr.order[i] in gr.members;
  }

  /** Groups are listed in the order of their first handle. */
  lemma {:induction false} GroupByFirstOrder(labels: seq<nat>)
    ensures var gr := GroupBy(labels);
      forall i, j :: 0 <= i < j < |gr.order| ==> gr.members[gr.order[i]][0] < gr.members[gr.order[j]][0]
    decreases |labels|
  {
    if labels != [] {
      var n := |labels| - 1;
      var gr, gr' := GroupBy(labels[..n]), GroupBy(labels);
      GroupByFirstOrder(labels[..n]);
      forall i, j | 0 <= i < j < |gr'.order| ensures gr'.members[gr'.order[i]][0] < gr'.members[gr'.order[j]][0] {
        GroupByKeepsFirst(labels, i);
        if j < |gr.order| {
          GroupByKeepsFirst(labels, j);
        } else {
          assert gr'.members[gr'.order[j]] == [n];
        }
      }
    }
  }

  /** `GroupByFirstOrder` for one pair of groups. */
  lemma FirstHandleBefore(labels: seq<nat>, i: nat, j: nat)
    requires i < j < |GroupBy(labels).order|
    ensures var gr := GroupBy(labels); gr.members[gr.order[i]][0] < gr.members[gr.order[j]][0]
  {
    GroupByFirstOrder(labels);
  }

  /** A net as `find_connected_metal_nets` reports it; `handles` are the positions of its polygons. */
  datatype Net = Net(id: string, polygons: seq<Shape>, handles: seq<nat>)

  function MakeNet(met: seq<Shape>, i: nat, handles: seq<nat>): (net: Net)
    requires forall m :: 0 <= m < |handles| ==> handles[m] < |met|
    ensures net.id == Label("NET", i + 1) && net.handles == handles
    ensures |net.polygons| == |handles| && forall m :: 0 <= m < |handles| ==> net.polygons[m] == met[handles[m]]
  {
    Net(Label("NET", i + 1), seq(|handles|, m requires 0 <= m < |handles| => met[handles[m]]), handles)
  }

  /** Every listed group is filed, and holds handles of shapes that exist. */
  ghost predicate Filed(gr: Grouping, n: nat)
  {
    forall i :: 0 <= i < |gr.order| ==>
      && gr.order[i] in gr.members
      && forall m :: 0 <= m < |gr.members[gr.order[i]]| ==> gr.members[gr.order[i]][m] < n
  }

  /** The nets of a grouping: one per listed group, numbered in the order listed. */
  function NetsOf(met: seq<Shape>, gr: Grouping): (nets: seq<Net>)
    requires Filed(gr, |met|)
    ensures |nets| == |gr.order|
    ensures forall i :: 0 <= i < |nets| ==> nets[i].id == Label("NET", i + 1) && nets[i].handles == gr.members[gr.order[i]]
  {
    seq(|gr.order|, i requires 0 <= i < |gr.order| => MakeNet(met, i, gr.members[gr.order[i]]))
  }

  /** The nets of a labelling: one per label, numbered in order of first appearance. */
  function NetsFrom(met: seq<Shape>, labels: seq<nat>): (nets: seq<Net>)
    requires |labels| == |met|
    ensures |nets| == |GroupBy(labels).order|
  {
    NetsOf(met, GroupBy(labels))
  }

  /** The roots of all `n` handles. */
  ghost function Roots(parent: map<nat, nat>, rank: map<nat, nat>, height: nat, n: nat): (labels: seq<nat>)
    requires Valid(parent, rank, height, n)
    ensures |labels| == n && forall y :: 0 <= y < n ==> labels[y] == RootOf(parent, rank, height, y)
  {
    seq(n, y requires 0 <= y < n => RootOf(parent, rank, height, y))
  }

  /** Under `GroupBy`, handle `k` lies in group `i` exactly when its label is the `i`-th label listed. */
  lemma InGroup(labels: seq<nat>, i: nat, k: nat)
    requires i < |GroupBy(labels).order| && k < |labels|
    ensures var gr := GroupBy(labels);
      k in gr.members[gr.order[i]] <==> labels[k] == gr.order[i]
  {
    var gr := GroupBy(labels);
    GroupByComplete(labels, k);
    if k in gr.members[gr.order[i]] {
      var m :| 0 <= m < |gr.members[gr.order[i]]| && gr.members[gr.order[i]][m] == k;
    }
  }

  // ---------------------------------------------------------------------
  // What the reported nets are.

  /** A labelling of the shapes whose classes are exactly the connected components of the overlap graph. */
  ghost predicate Components(met: seq<Shape>, g: Geometry, labels: seq<nat>)
  {
    && |labels| == |met|
    && forall a, b :: 0 <= a < |met| && 0 <= b < |met| ==> (labels[a] == labels[b] <==> Connected(met, g, a, b))
  }

  /** Each shape lies in exactly one net, and a net holds its own shapes, in ingestion order. */
  lemma EveryShapeInOneNet(met: seq<Shape>, labels: seq<nat>, k: nat)
    requires |labels| == |met| && k < |met|
    ensures var nets := NetsFrom(met, labels);
      && (exists i :: 0 <= i < |nets| && k in nets[i].handles)
      && (forall i, i' :: 0 <= i < |nets| && 0 <= i' < |nets| && k in nets[i].handles && k in nets[i'].handles ==> i == i')
  {
    var nets, gr := NetsFrom(met, labels), GroupBy(labels);
    GroupByComplete(labels, k);
    GroupByDistinct(labels);
    var i :| 0 <= i < |gr.order| && gr.order[i] == labels[k];
    InGroup(labels, i, k);
    assert k in nets[i].handles;
    forall i, i' | 0 <= i < |nets| && 0 <= i' < |nets| && k in nets[i].handles && k in nets[i'].handles
      ensures i == i'
    {
      InGroup(labels, i, k);
      InGroup(labels, i', k);
    }
  }

  /** The nets are named `NET1, NET2, ...`, no two alike. */
  lemma NetNames(met: seq<Shape>, labels: seq<nat>)
    requires |labels| == |met|
    ensures var nets := NetsFrom(met, labels);
      && (forall i :: 0 <= i < |nets| ==> nets[i].id == Label("NET", i + 1))
      && (forall i, j :: 0 <= i < j < |nets| ==> nets[i].id != nets[j].id)
  {
    var nets := NetsFrom(met, labels);
    forall i, j | 0 <= i < j < |nets| ensures nets[i].id != nets[j].id {
      if nets[i].id == nets[j].id {
        LabelInjective("NET", i + 1, j + 1);
      }
    }
  }

  /** Each net lists its own polygons with their handles, in increasing (ingestion) order. */
  lemma NetsHoldTheirShapes(met: seq<Shape>, labels: seq<nat>)
    requires |labels| == |met|
    ensures var nets := NetsFrom(met, labels);
      && (forall i :: 0 <= i < |nets| ==> nets[i].handles != [] && |nets[i].polygons| == |nets[i].handles|)
      && (forall i, m :: 0 <= i < |nets| && 0 <= m < |nets[i].handles| ==>
            nets[i].handles[m] < |met| && labels[nets[i].handles[m]] == GroupBy(labels).order[i] &&
            nets[i].polygons[m] == met[nets[i].handles[m]])
      && (forall i, m, m' :: 0 <= i < |nets| && 0 <= m < m' < |nets[i].handles| ==> nets[i].handles[m] < nets[i].handles[m'])
  {
    var nets, gr := NetsFrom(met, labels), GroupBy(labels);
    forall i | 0 <= i < |nets| ensures nets[i].handles != [] {
      assert gr.order[i] in gr.members;
    }
    forall i, m, m' | 0 <= i < |nets| && 0 <= m < m' < |nets[i].handles| ensures nets[i].handles[m] < nets[i].handles[m'] {
      GroupByIncreasing(labels, gr.order[i]);
    }
  }

  /** The nets are numbered by the position of their first shape in the metal list. */
  lemma NetsNumberedByFirstShape(met: seq<Shape>, labels: seq<nat>)
    requires |labels| == |met|
    ensures var nets := NetsFrom(met, labels);
      forall i, j :: 0 <= i < j < |nets| ==> nets[i].handles != [] && nets[j].handles != [] && nets[i].handles[0] < nets[j].handles[0]
  {
    var gr := GroupBy(labels);
    var nets := NetsOf(met, gr);
    forall i, j | 0 <= i < j < |nets|
      ensures nets[i].handles != [] && nets[j].handles != [] && nets[i].handles[0] < nets[j].handles[0]
    {
      FirstHandleBefore(labels, i, j);
      assert gr.order[i] in gr.members && gr.order[j] in gr.members;
      assert nets[i].handles == gr.members[gr.order[i]] && nets[j].handles == gr.members[gr.order[j]];
    }
  }

  /** For a labelling by components, two shapes share a net exactly when a chain of overlaps connects them. */
  lemma SameNetIffConnected(met: seq<Shape>, g: Geometry, labels: seq<nat>, a: nat, b: nat)
    requires Components(met, g, labels) && a < |met| && b < |met|
    ensures var nets := NetsFrom(met, labels);
      (exists i :: 0 <= i < |nets| && a in nets[i].handles && b in nets[i].handles) <==> Connected(met, g, a, b)
  {
    var nets, gr := NetsFrom(met, labels), GroupBy(labels);
    if exists i :: 0 <= i < |nets| && a in nets[i].handles && b in nets[i].handles {
      var i :| 0 <= i < |nets| && a in nets[i].handles && b in nets[i].handles;
      InGroup(labels, i, a);
      InGroup(labels, i, b);
    }
    if Connected(met, g, a, b) {
      EveryShapeInOneNet(met, labels, a);
      var i :| 0 <= i < |nets| && a in nets[i].handles;
      InGroup(labels, i, a);
      InGroup(labels, i, b);
    }
  }

  /** Files handle `k`, whose root is `root`, under that root, opening a new group for a root not seen before. */
  method FileOne(ghost labels: seq<nat>, k: nat, root: nat, order: seq<nat>, groups: map<nat, seq<nat>>)
    returns (order': seq<nat>, groups': map<nat, seq<nat>>)
    requires k < |labels| && labels[k] == root && Grouping(order, groups) == GroupBy(labels[..k])
    ensures Grouping(order', groups') == GroupBy(labels[..k + 1])
  {
    assert labels[..k + 1][..k] == labels[..k];
    if root in groups {
      order', groups' := order, groups[root := groups[root] + [k]];
    } else {
      order', groups' := order + [root], groups[root := [k]];
    }
  }

  /** The grouping loop: `find` every shape in turn and file it under its root. */
  method FileByRoot(parent: map<nat, nat>, ghost rank: map<nat, nat>, ghost height: nat, n: nat)
    returns (order: seq<nat>, groups: map<nat, seq<nat>>)
    requires Valid(parent, rank, height, n)
    ensures Grouping(order, groups) == GroupBy(Roots(parent, rank, height, n))
  {
    ghost var labels := Roots(parent, rank, height, n);
    var links := parent;
    order, groups := [], map[];
    for k := 0 to n
      invariant Valid(links, rank, height, n)
      invariant forall y {:trigger RootOf(links, rank, height, y)} :: y in links ==>
        RootOf(links, rank, height, y) == RootOf(parent, rank, height, y)
      invariant Grouping(order, groups) == GroupBy(labels[..k])
    {
      var root;
      links, root := Find(links, rank, height, n, k);
      order, groups := FileOne(labels, k, root, order, groups);
    }
    assert labels[..n] == labels;
  }

  /** Names the groups `NET1, NET2, ...` in the order listed. */
  method NameGroups(met: seq<Shape>, order: seq<nat>, groups: map<nat, seq<nat>>) returns (nets: seq<Net>)
    requires Filed(Grouping(order, groups), |met|)
    ensures nets == NetsOf(met, Grouping(order, groups))
  {
    nets := [];
    for i := 0 to |order|
      invariant nets == NetsOf(met, Grouping(order, groups))[..i]
    {
      nets := nets + [MakeNet(met, i, groups[order[i]])];
    }
  }

  /**
   * `find_connected_metal_nets`: the metal shapes are grouped into nets that
   * are exactly the connected components of the overlap graph, numbered by
   * first appearance.
   */
  method FindConnectedMetalNets(shapes: seq<Shape>, met1: LayerSpec, g: Geometry) returns (nets: seq<Net>)
    ensures exists labels :: Components(OnLayer(shapes, met1), g, labels) && nets == NetsFrom(OnLayer(shapes, met1), labels)
  {
    var met := OnLayer(shapes, met1);
    var parent, rank, height := JoinOverlapping(met, g);
    ghost var labels := Roots(parent, rank, height, |met|);
    var order, groups := FileByRoot(parent, rank, height, |met|);
    nets := NameGroups(met, order, groups);
    forall a, b | 0 <= a < |met| && 0 <= b < |met| ensures labels[a] == labels[b] <==> Connected(met, g, a, b) {
      RootsAreComponents(met, g, parent, rank, height, a, b);
    }
    assert Components(met, g, labels);
  }
}
