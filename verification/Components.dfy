/**
 * Connected components over confirmed links (services/copy-advert, domain/cluster.ts): a union-find whose
 * `find` compresses paths, proved to group two listings exactly when a chain of links joins them.
 */
module Components {
  import opened Common

  datatype Id = Id(text: string)

  datatype Link = Link(a: Id, b: Id)

  // ------------------------------------------------------------------------------------------
  // Chains of links
  // ------------------------------------------------------------------------------------------

  predicate Adjacent(links: seq<Link>, x: Id, y: Id) {
    Link(x, y) in links || Link(y, x) in links
  }

  /** `hops` leads from `x` to `y`, one link at a time. */
  predicate Leads(links: seq<Link>, x: Id, hops: seq<Id>, y: Id)
    decreases |hops|
  {
    if hops == [] then x == y else Adjacent(links, x, hops[0]) && Leads(links, hops[0], hops[1..], y)
  }

  ghost predicate Connected(links: seq<Link>, x: Id, y: Id) {
    exists hops :: Leads(links, x, hops, y)
  }

  lemma {:induction false} LeadsOn(links: seq<Link>, x: Id, p: seq<Id>, y: Id, q: seq<Id>, z: Id)
    requires Leads(links, x, p, y) && Leads(links, y, q, z)
    ensures Leads(links, x, p + q, z)
    decreases |p|
  {
    if p == [] {
      assert [] + q == q;
    } else {
      LeadsOn(links, p[0], p[1..], y, q, z);
      assert (p + q)[1..] == p[1..] + q;
    }
  }

  lemma ConnectedSelf(links: seq<Link>, x: Id)
    ensures Connected(links, x, x)
  {
    assert Leads(links, x, [], x);
  }

  lemma ConnectedStep(links: seq<Link>, x: Id, y: Id)
    requires Adjacent(links, x, y)
    ensures Connected(links, x, y)
  {
    assert [y][1..] == [];
    assert Leads(links, x, [y], y);
  }

  lemma ConnectedTrans(links: seq<Link>, x: Id, y: Id, z: Id)
    requires Connected(links, x, y) && Connected(links, y, z)
    ensures Connected(links, x, z)
  {
    var p :| Leads(links, x, p, y);
    var q :| Leads(links, y, q, z);
    LeadsOn(links, x, p, y, q, z);
  }

  lemma {:induction false} LeadsBack(links: seq<Link>, x: Id, p: seq<Id>, y: Id)
    requires Leads(links, x, p, y)
    ensures Connected(links, y, x)
    decreases |p|
  {
    if p == [] {
      ConnectedSelf(links, x);
    } else {
      LeadsBack(links, p[0], p[1..], y);
      ConnectedStep(links, p[0], x);
      ConnectedTrans(links, y, p[0], x);
    }
  }

  lemma ConnectedSym(links: seq<Link>, x: Id, y: Id)
    requires Connected(links, x, y)
    ensures Connected(links, y, x)
  {
    var p :| Leads(links, x, p, y);
    LeadsBack(links, x, p, y);
  }

  /** A property kept by every link is kept along every chain. */
  ghost predicate KeptByLinks(links: seq<Link>, holds: Id -> bool) {
    forall l | l in links :: holds(l.a) <==> holds(l.b)
  }

  lemma {:induction false} KeptAlong(links: seq<Link>, holds: Id -> bool, x: Id, p: seq<Id>, y: Id)
    requires KeptByLinks(links, holds) && Leads(links, x, p, y)
    ensures holds(x) <==> holds(y)
    decreases |p|
  {
    if p != [] {
      assert if Link(x, p[0]) in links then Link(x, p[0]) in links else Link(p[0], x) in links;
      KeptAlong(links, holds, p[0], p[1..], y);
    }
  }

  lemma KeptWhenConnected(links: seq<Link>, holds: Id -> bool, x: Id, y: Id)
    requires KeptByLinks(links, holds) && Connected(links, x, y)
    ensures holds(x) <==> holds(y)
  {
    var p :| Leads(links, x, p, y);
    KeptAlong(links, holds, x, p, y);
  }

  // ------------------------------------------------------------------------------------------
  // The forest
  // ------------------------------------------------------------------------------------------

  /** Each node with its parent, its root and a height that falls towards it. */
  ghost predicate IsForest(parent: map<Id, Id>, root: map<Id, Id>, height: map<Id, nat>) {
    && root.Keys == parent.Keys && height.Keys == parent.Keys
    && forall x {:trigger NodeOk(parent, root, height, x)} | x in parent :: NodeOk(parent, root, height, x)
  }

  ghost predicate NodeOk(parent: map<Id, Id>, root: map<Id, Id>, height: map<Id, nat>, x: Id)
    requires root.Keys == parent.Keys && height.Keys == parent.Keys && x in parent
  {
    && parent[x] in parent && root[x] in parent
    && root[parent[x]] == root[x] && parent[root[x]] == root[x] && root[root[x]] == root[x]
    && (parent[x] == x ==> root[x] == x)
    && (parent[x] != x ==> height[parent[x]] < height[x])
    && (root[x] != x ==> height[root[x]] < height[x])
  }

  function WithNode(root: map<Id, Id>, x: Id): map<Id, Id> {
    if x in root then root else root[x := x]
  }

  /** Every node under root `ra` moves under root `rb`. */
  function Joined(root: map<Id, Id>, ra: Id, rb: Id): map<Id, Id> {
    map x | x in root :: if root[x] == ra then rb else root[x]
  }

  lemma JoinedToItself(root: map<Id, Id>, r: Id)
    ensures Joined(root, r, r) == root
  {
  }

  ghost function Lifted(root: map<Id, Id>, height: map<Id, nat>, ra: Id, rb: Id): map<Id, nat>
    requires root.Keys == height.Keys && rb in height
  {
    map x | x in height :: if root[x] == ra then height[x] + height[rb] + 1 else height[x]
  }

  lemma AddedKeepsForest(parent: map<Id, Id>, root: map<Id, Id>, height: map<Id, nat>, x: Id)
    requires IsForest(parent, root, height) && x !in parent
    ensures IsForest(parent[x := x], root[x := x], height[x := 0])
  {
    var parent', root', height' := parent[x := x], root[x := x], height[x := 0];
    forall y | y in parent' ensures NodeOk(parent', root', height', y) {
      if y != x { assert NodeOk(parent, root, height, y); }
    }
  }

  lemma CompressedKeepsForest(parent: map<Id, Id>, root: map<Id, Id>, height: map<Id, nat>, x: Id)
    requires IsForest(parent, root, height) && x in parent && parent[x] != root[x]
    ensures IsForest(parent[x := root[x]], root, height)
  {
    assert NodeOk(parent, root, height, x) && NodeOk(parent, root, height, root[x]);
    var compressed := parent[x := root[x]];
    forall y | y in compressed ensures NodeOk(compressed, root, height, y) {
      assert NodeOk(parent, root, height, y);
    }
  }

  lemma JoinedKeepsForest(parent: map<Id, Id>, root: map<Id, Id>, height: map<Id, nat>, ra: Id, rb: Id)
    requires IsForest(parent, root, height) && ra in parent && rb in parent && ra != rb
    requires root[ra] == ra && root[rb] == rb
    ensures IsForest(parent[ra := rb], Joined(root, ra, rb), Lifted(root, height, ra, rb))
  {
    var parent', root', height' := parent[ra := rb], Joined(root, ra, rb), Lifted(root, height, ra, rb);
    assert NodeOk(parent, root, height, ra) && NodeOk(parent, root, height, rb);
    assert height'[rb] == height[rb];
    forall y | y in parent' ensures NodeOk(parent', root', height', y) {
      assert NodeOk(parent, root, height, y);
      assert NodeOk(parent, root, height, parent[y]);
    }
  }

  class Forest {
    var parent: map<Id, Id>
    var order: seq<Id>
    ghost var root: map<Id, Id>
    ghost var height: map<Id, nat>

    ghost predicate Valid()
      reads this
    {
      IsForest(parent, root, height) && Distinct(order) && forall x :: x in order <==> x in root
    }

    /** Every node starts as its own root. */
    constructor (nodes: seq<Id>)
      ensures Valid() && order == Dedup(nodes) && root == map x | x in nodes :: x
    {
      DedupKeeps(nodes);
      parent := map x | x in nodes :: x;
      order := Dedup(nodes);
      root := map x | x in nodes :: x;
      height := map x | x in nodes :: 0;
    }

    method Ensure(x: Id)
      requires Valid()
      modifies this
      ensures Valid() && root == WithNode(old(root), x)
      ensures order == if x in old(root) then old(order) else old(order) + [x]
    {
      if x !in parent {
        AddedKeepsForest(parent, root, height, x);
        parent, order := parent[x := x], order + [x];
        root, height := root[x := x], height[x := 0];
      }
    }

    /** The root of `x`; every node passed on the way is hung straight under it. */
    method Find(x: Id) returns (r: Id)
      requires Valid()
      modifies this
      ensures Valid() && root == WithNode(old(root), x) && r == root[x] && r in root && root[r] == r
      ensures x in parent && parent[x] == r
      ensures order == if x in old(root) then old(order) else old(order) + [x]
    {
      Ensure(x);
      r := x;
      while parent[r] != r
        invariant r in parent && root[r] == root[x]
        decreases height[r]
      {
        assert NodeOk(parent, root, height, r);
        r := parent[r];
      }
      assert NodeOk(parent, root, height, r);
      Compress(x, r);
    }

    method Compress(x: Id, r: Id)
      requires Valid() && x in root && root[x] == r
      modifies this`parent
      ensures Valid() && x in parent && parent[x] == r
      ensures forall y | y in old(parent) :: y in parent && (parent[y] == old(parent)[y] || parent[y] == r)
    {
      var cur := x;
      while parent[cur] != r
        invariant IsForest(parent, root, height) && cur in parent && root[cur] == r
        invariant cur != x ==> x in parent && parent[x] == r
        invariant forall y | y in old(parent) :: y in parent && (parent[y] == old(parent)[y] || parent[y] == r)
        decreases height[cur]
      {
        assert NodeOk(parent, root, height, cur);
        CompressedKeepsForest(parent, root, height, cur);
        var next := parent[cur];
        parent := parent[cur := r];
        cur := next;
      }
    }

    /** Joins the trees of `a` and `b`. */
    method Union(a: Id, b: Id)
      requires Valid()
      modifies this
      ensures Valid() && root == Unioned(old(root), a, b)
    {
      var ra := Find(a);
      var rb := Find(b);
      assert root == WithNode(WithNode(old(root), a), b) && ra == root[a] && rb == root[b];
      if ra != rb { Hang(ra, rb); } else { JoinedToItself(root, ra); }
    }

    method Hang(ra: Id, rb: Id)
      requires Valid() && ra in root && rb in root && ra != rb && root[ra] == ra && root[rb] == rb
      modifies this`parent, this`root, this`height
      ensures Valid() && root == Joined(old(root), ra, rb)
    {
      JoinedKeepsForest(parent, root, height, ra, rb);
      parent := parent[ra := rb];
      height := Lifted(root, height, ra, rb);
      root := Joined(root, ra, rb);
    }
  }

  function Unioned(root: map<Id, Id>, a: Id, b: Id): map<Id, Id> {
    var known := WithNode(WithNode(root, a), b);
    Joined(known, known[a], known[b])
  }

  // ------------------------------------------------------------------------------------------
  // Roots are components
  // ------------------------------------------------------------------------------------------

  ghost predicate RootedAt(root: map<Id, Id>, x: Id) {
    x in root && root[x] in root && root[root[x]] == root[x]
  }

  ghost predicate Rooted(root: map<Id, Id>) {
    forall x {:trigger RootedAt(root, x)} | x in root :: RootedAt(root, x)
  }

  /** Listings under one root are joined by a chain. */
  ghost predicate Sound(edges: seq<Link>, root: map<Id, Id>) {
    forall x, y {:trigger Connected(edges, x, y)} |
      x in root && y in root && root[x] == root[y] :: Connected(edges, x, y)
  }

  /** Every end of the edges so far is in the forest, under the same root as the other end. */
  ghost predicate Linked(edges: seq<Link>, root: map<Id, Id>) {
    forall e | e in edges :: e.a in root && e.b in root && root[e.a] == root[e.b]
  }

  ghost predicate Known(nodes: seq<Id>, edges: seq<Link>, x: Id) {
    x in nodes || exists e :: e in edges && (x == e.a || x == e.b)
  }

  lemma NodeKeepsRoots(edges: seq<Link>, root: map<Id, Id>, x: Id)
    requires Rooted(root) && Sound(edges, root)
    ensures Rooted(WithNode(root, x)) && Sound(edges, WithNode(root, x))
  {
    var known := WithNode(root, x);
    forall y | y in known ensures RootedAt(known, y) {
      if y in root { assert RootedAt(root, y); }
    }
    forall y, z | y in known && z in known && known[y] == known[z] ensures Connected(edges, y, z) {
      ConnectedSelf(edges, y);
      if y in root { assert RootedAt(root, y); }
      if z in root { assert RootedAt(root, z); }
    }
  }

  /** Joining the trees of an edge's ends joins only listings some chain connects. */
  lemma JoinIsSound(edges: seq<Link>, root: map<Id, Id>, a: Id, b: Id)
    requires Sound(edges, root) && Link(a, b) in edges && a in root && b in root
    ensures Sound(edges, Joined(root, root[a], root[b]))
  {
    var joined := Joined(root, root[a], root[b]);
    ConnectedStep(edges, a, b);
    ConnectedStep(edges, b, a);
    forall x, y | x in joined && y in joined && joined[x] == joined[y] ensures Connected(edges, x, y) {
      if root[x] != root[y] {
        if root[x] == root[a] {
          ConnectedTrans(edges, x, a, b);
          ConnectedTrans(edges, x, b, y);
        } else {
          ConnectedTrans(edges, x, b, a);
          ConnectedTrans(edges, x, a, y);
        }
      }
    }
  }

  lemma JoinIsRooted(root: map<Id, Id>, a: Id, b: Id)
    requires Rooted(root) && a in root && b in root
    ensures Rooted(Joined(root, root[a], root[b]))
  {
    var joined := Joined(root, root[a], root[b]);
    assert RootedAt(root, a) && RootedAt(root, b);
    forall x | x in joined ensures RootedAt(joined, x) {
      assert RootedAt(root, x);
    }
  }

  lemma UnionKeepsRoots(edges: seq<Link>, root: map<Id, Id>, a: Id, b: Id)
    requires Rooted(root) && Sound(edges, root) && Link(a, b) in edges
    ensures Rooted(Unioned(root, a, b)) && Sound(edges, Unioned(root, a, b))
  {
    var known := WithNode(WithNode(root, a), b);
    NodeKeepsRoots(edges, root, a);
    NodeKeepsRoots(edges, WithNode(root, a), b);
    JoinIsSound(edges, known, a, b);
    JoinIsRooted(known, a, b);
  }

  lemma UnionKeepsLinked(edges: seq<Link>, root: map<Id, Id>, a: Id, b: Id)
    requires Linked(edges, root)
    ensures Linked(edges + [Link(a, b)], Unioned(root, a, b))
  {
  }

  lemma UnionKeepsKnown(nodes: seq<Id>, edges: seq<Link>, root: map<Id, Id>, a: Id, b: Id)
    requires forall x :: x in root <==> Known(nodes, edges, x)
    ensures forall x :: x in Unioned(root, a, b) <==> Known(nodes, edges + [Link(a, b)], x)
  {
    var grown := edges + [Link(a, b)];
    assert grown[|edges|] == Link(a, b);
    forall x ensures x in Unioned(root, a, b) <==> Known(nodes, grown, x) {
      assert x in Unioned(root, a, b) <==> x in root || x == a || x == b;
      if Known(nodes, edges, x) && x !in nodes {
        var e :| e in edges && (x == e.a || x == e.b);
        assert e in grown;
      }
    }
  }

  /** Once every edge's ends share a root, so do the ends of every chain. */
  lemma ConnectedShareRoot(edges: seq<Link>, root: map<Id, Id>, x: Id, y: Id)
    requires Linked(edges, root) && x in root && y in root && Connected(edges, x, y)
    ensures root[x] == root[y]
  {
    KeptWhenConnected(edges, (z: Id) => z in root && root[z] == root[x], x, y);
  }

  // ------------------------------------------------------------------------------------------
  // Groups
  // ------------------------------------------------------------------------------------------

  ghost predicate InGroup(groups: seq<seq<Id>>, g: int, x: Id) {
    0 <= g < |groups| && x in groups[g]
  }

  ghost predicate NoneEmpty(groups: seq<seq<Id>>) {
    forall g | 0 <= g < |groups| :: groups[g] != [] && Distinct(groups[g])
  }

  /** `groups` splits the known nodes exactly into the classes of `Connected`. */
  ghost predicate Partition(nodes: seq<Id>, edges: seq<Link>, groups: seq<seq<Id>>) {
    && NoneEmpty(groups)
    && (forall x :: Known(nodes, edges, x) <==> exists g :: InGroup(groups, g, x))
    && (forall g, h, x, y | InGroup(groups, g, x) && InGroup(groups, h, y) :: g == h <==> Connected(edges, x, y))
  }

  ghost predicate InClass(byRoot: map<Id, seq<Id>>, r: Id, x: Id) {
    r in byRoot && x in byRoot[r]
  }

  /** What the grouping loop has built from the first nodes. */
  ghost predicate Collected(nodes: seq<Id>, root: map<Id, Id>, roots: seq<Id>, byRoot: map<Id, seq<Id>>) {
    && Distinct(roots) && (forall r :: r in roots <==> r in byRoot)
    && (forall r | r in byRoot :: byRoot[r] != [] && Distinct(byRoot[r]))
    && (forall r, x :: InClass(byRoot, r, x) <==> x in nodes && x in root && root[x] == r)
  }

  lemma JoinsItsClass(nodes: seq<Id>, root: map<Id, Id>, roots: seq<Id>, byRoot: map<Id, seq<Id>>, n: Id)
    requires Collected(nodes, root, roots, byRoot) && n in root && n !in nodes && root[n] in byRoot
    ensures Collected(nodes + [n], root, roots, byRoot[root[n] := byRoot[root[n]] + [n]])
  {
    var r := root[n];
    var grown := byRoot[r := byRoot[r] + [n]];
    assert !InClass(byRoot, r, n);
    assert n !in byRoot[r];
    forall q, x ensures InClass(grown, q, x) <==> x in nodes + [n] && x in root && root[x] == q {
      assert InClass(byRoot, q, x) <==> x in nodes && x in root && root[x] == q;
      assert grown[r][|byRoot[r]|] == n;
    }
  }

  lemma StartsItsClass(nodes: seq<Id>, root: map<Id, Id>, roots: seq<Id>, byRoot: map<Id, seq<Id>>, n: Id)
    requires Collected(nodes, root, roots, byRoot) && n in root && n !in nodes && root[n] !in byRoot
    ensures Collected(nodes + [n], root, roots + [root[n]], byRoot[root[n] := [n]])
  {
    var r := root[n];
    var grown := byRoot[r := [n]];
    forall q, x ensures InClass(grown, q, x) <==> x in nodes + [n] && x in root && root[x] == q {
      assert InClass(byRoot, q, x) <==> x in nodes && x in root && root[x] == q;
    }
    assert roots + [r] == roots + [r] && r !in roots;
  }

  /** Groups the nodes by root, in the order the forest learnt of them. */
  method Collect(forest: Forest) returns (roots: seq<Id>, byRoot: map<Id, seq<Id>>)
    requires forest.Valid()
    modifies forest
    ensures forest.root == old(forest.root)
    ensures Collected(old(forest.order), forest.root, roots, byRoot)
  {
    roots, byRoot := [], map[];
    var nodes := forest.order;
    var i := 0;
    while i < |nodes|
      invariant 0 <= i <= |nodes| && forest.Valid() && forest.root == old(forest.root) && forest.order == nodes
      invariant Collected(nodes[..i], forest.root, roots, byRoot)
    {
      var n := nodes[i];
      var r := forest.Find(n);
      assert nodes[..i + 1] == nodes[..i] + [n];
      if r in byRoot {
        JoinsItsClass(nodes[..i], forest.root, roots, byRoot, n);
        byRoot := byRoot[r := byRoot[r] + [n]];
      } else {
        StartsItsClass(nodes[..i], forest.root, roots, byRoot, n);
        roots, byRoot := roots + [r], byRoot[r := [n]];
      }
      i := i + 1;
    }
    assert nodes[..i] == nodes;
  }

  lemma ClassesAreComponents(nodes: seq<Id>, edges: seq<Link>, root: map<Id, Id>,
      roots: seq<Id>, byRoot: map<Id, seq<Id>>, groups: seq<seq<Id>>)
    requires forall x :: x in root <==> Known(nodes, edges, x)
    requires exists order :: (forall x :: x in order <==> x in root) && Collected(order, root, roots, byRoot)
    requires |groups| == |roots| && forall k | 0 <= k < |roots| :: roots[k] in byRoot && groups[k] == byRoot[roots[k]]
    requires Sound(edges, root) && Linked(edges, root)
    ensures Partition(nodes, edges, groups)
  {
    var order :| (forall x :: x in order <==> x in root) && Collected(order, root, roots, byRoot);
    forall x ensures Known(nodes, edges, x) <==> exists g :: InGroup(groups, g, x) {
      if x in root {
        assert InClass(byRoot, root[x], x);
        var g :| 0 <= g < |roots| && roots[g] == root[x];
        assert InGroup(groups, g, x);
      }
      if g :| InGroup(groups, g, x) {
        assert InClass(byRoot, roots[g], x);
      }
    }
    forall g, h, x, y | InGroup(groups, g, x) && InGroup(groups, h, y)
      ensures g == h <==> Connected(edges, x, y)
    {
      assert InClass(byRoot, roots[g], x) && InClass(byRoot, roots[h], y);
      if Connected(edges, x, y) { ConnectedShareRoot(edges, root, x, y); }
    }
  }

  method ComponentsOf(nodes: seq<Id>, edges: seq<Link>) returns (groups: seq<seq<Id>>)
    ensures Partition(nodes, edges, groups)
  {
    var forest := new Forest(nodes);
    StartingRoots(nodes, edges);
    var i := 0;
    while i < |edges|
      invariant 0 <= i <= |edges| && forest.Valid() && fresh(forest)
      invariant Rooted(forest.root) && Sound(edges, forest.root) && Linked(edges[..i], forest.root)
      invariant forall x :: x in forest.root <==> Known(nodes, edges[..i], x)
    {
      var e := edges[i];
      assert e == Link(e.a, e.b) && edges[..i + 1] == edges[..i] + [e];
      UnionKeepsRoots(edges, forest.root, e.a, e.b);
      UnionKeepsLinked(edges[..i], forest.root, e.a, e.b);
      UnionKeepsKnown(nodes, edges[..i], forest.root, e.a, e.b);
      forest.Union(e.a, e.b);
      i := i + 1;
    }
    assert edges[..i] == edges;
    var roots, byRoot := Collect(forest);
    groups := seq(|roots|, (k: nat) requires k < |roots| && roots[k] in byRoot => byRoot[roots[k]]);
    ClassesAreComponents(nodes, edges, forest.root, roots, byRoot, groups);
  }

  lemma StartingRoots(nodes: seq<Id>, edges: seq<Link>)
    ensures var root := map x | x in nodes :: x;
      Rooted(root) && Sound(edges, root) && Linked(edges[..0], root)
      && forall x :: x in root <==> Known(nodes, edges[..0], x)
  {
    forall x ensures Connected(edges, x, x) { ConnectedSelf(edges, x); }
  }
}
