/**
 * Incremental clustering (services/copy-advert): recomputing the clusters around a few touched listings,
 * proved to leave every listing in reach with exactly the membership a clustering of the whole confirmed-link
 * graph gives it, and every other listing alone.
 */
module Clusters {
  import opened Common
  import opened Sorting
  import opened Components

  // ------------------------------------------------------------------------------------------
  // Cluster keys
  // ------------------------------------------------------------------------------------------

  /** What the listing inputs say of a listing; `None` is a missing listing date. */
  datatype Listing = Listing(source: string, listedAt: Option<int>)

  /** The hash of the rule version and a source listing id, taken to be injective. */
  datatype Key = Key(source: string)

  /** The sort order of `clusterKey`: by listing date, undated last, then by source listing id. */
  predicate Earlier(a: Listing, b: Listing) {
    if a.listedAt == b.listedAt then StringLess(a.source, b.source)
    else b.listedAt.None? || (a.listedAt.Some? && a.listedAt.value < b.listedAt.value)
  }

  lemma EarlierIsAnOrder()
    ensures WeakOrder(Earlier)
  {
    forall a, b ensures Earlier(a, b) ==> !Earlier(b, a) {
      StringLessTotal(a.source, b.source);
    }
    forall a: Listing, b: Listing, c: Listing | !Earlier(b, a) && !Earlier(c, b) ensures !Earlier(c, a) {
      if a.listedAt == b.listedAt == c.listedAt { StringLessTrans(a.source, b.source, c.source); }
    }
  }

  /** Neither before the other: the same date and source, so the same key. */
  lemma TiesShareSource(a: Listing, b: Listing)
    requires !Earlier(a, b) && !Earlier(b, a)
    ensures a.source == b.source
  {
    StringLessTotal(a.source, b.source);
  }

  /** `None` is the source's thrown "no members". */
  function ClusterKey(listings: seq<Listing>): Option<Key> {
    if listings == [] then None
    else
      SortedKeeps(Earlier, listings);
      Some(Key(Sorted(Earlier, listings)[0].source))
  }

  lemma KeyIsTheEarliest(listings: seq<Listing>) returns (first: Listing)
    requires listings != []
    ensures first in listings && ClusterKey(listings) == Some(Key(first.source))
    ensures forall l | l in listings :: !Earlier(l, first)
  {
    var sorted := Sorted(Earlier, listings);
    SortedKeeps(Earlier, listings);
    EarlierIsAnOrder();
    SortedSorts(Earlier, listings);
    first := sorted[0];
    forall l | l in listings ensures !Earlier(l, first) {
      assert l in sorted;
      var j :| 0 <= j < |sorted| && sorted[j] == l;
      assert j > 0 ==> !Earlier(sorted[j], sorted[0]);
    }
  }

  // ------------------------------------------------------------------------------------------
  // Clustering from scratch
  // ------------------------------------------------------------------------------------------

  /** All that decides clusters: the confirmed links, the suppressed listings and the listing inputs. */
  datatype View = View(links: seq<Link>, suppressed: set<Id>, inputs: map<Id, Listing>) {
    function Of(x: Id): Listing {
      if x in inputs then inputs[x] else Listing(x.text, None)
    }
  }

  ghost predicate Peer(v: View, x: Id, y: Id) {
    y !in v.suppressed && Connected(v.links, x, y)
  }

  ghost predicate Head(v: View, x: Id, e: Id) {
    Peer(v, x, e) && forall y | Peer(v, x, y) :: !Earlier(v.Of(y), v.Of(e))
  }

  ghost predicate HasOther(v: View, x: Id) {
    exists y :: y != x && Peer(v, x, y)
  }

  ghost predicate HeadedBy(v: View, x: Id, k: Key) {
    exists e :: Head(v, x, e) && k == Key(v.Of(e).source)
  }

  /** Clustering the whole link graph from scratch puts `x` in cluster `k`. */
  ghost predicate Belongs(v: View, x: Id, k: Key) {
    x !in v.suppressed && HasOther(v, x) && HeadedBy(v, x, k)
  }

  /** What decides a listing's place: its input, or without one its own id and no date. */
  ghost predicate Says(v: View, x: Id, l: Listing) {
    if x in v.inputs then l == v.inputs[x] else l.source == x.text && l.listedAt.None?
  }

  /** Dated before undated, the earlier date first, then the lower source listing id. */
  ghost predicate ListedNoLater(a: Listing, b: Listing) {
    && (b.listedAt.Some? ==> a.listedAt.Some? && a.listedAt.value <= b.listedAt.value)
    && (a.listedAt == b.listedAt ==> a.source == b.source || InTextOrder(a.source, b.source))
  }

  /** `e`, which says `l`, is the earliest of the unsuppressed listings chained to `x`. */
  ghost predicate EarliestOf(v: View, x: Id, e: Id, l: Listing) {
    && e !in v.suppressed && Connected(v.links, x, e) && Says(v, e, l)
    && forall y, other | y !in v.suppressed && Connected(v.links, x, y) && Says(v, y, other) :: ListedNoLater(l, other)
  }

  ghost predicate KeyedByEarliest(v: View, x: Id, k: Key) {
    exists e, l :: EarliestOf(v, x, e, l) && k.source == l.source
  }

  lemma NotEarlierIsNoLater(a: Listing, b: Listing)
    ensures !Earlier(b, a) <==> ListedNoLater(a, b)
  {
    StringLessTotal(a.source, b.source);
    StringLessIsTextOrder(a.source, b.source);
    StringLessIsTextOrder(b.source, a.source);
  }

  lemma HeadIsEarliest(v: View, x: Id, e: Id)
    ensures Head(v, x, e) <==> EarliestOf(v, x, e, v.Of(e))
  {
    forall y, l | Says(v, y, l) ensures l == v.Of(y) && (!Earlier(l, v.Of(e)) <==> ListedNoLater(v.Of(e), l)) {
      NotEarlierIsNoLater(v.Of(e), l);
    }
    forall y | Peer(v, x, y) && EarliestOf(v, x, e, v.Of(e)) ensures !Earlier(v.Of(y), v.Of(e)) {
      assert Says(v, y, v.Of(y));
    }
  }

  /** The cluster a listing belongs in is keyed by the earliest unsuppressed listing chained to it, ties by source id. */
  lemma ClusterIsKeyedByEarliest(v: View, x: Id, k: Key)
    ensures HeadedBy(v, x, k) <==> KeyedByEarliest(v, x, k)
    ensures Belongs(v, x, k) ==> KeyedByEarliest(v, x, k)
  {
    if HeadedBy(v, x, k) {
      var e :| Head(v, x, e) && k == Key(v.Of(e).source);
      HeadIsEarliest(v, x, e);
    }
    if KeyedByEarliest(v, x, k) {
      var e, l :| EarliestOf(v, x, e, l) && k.source == l.source;
      assert l == v.Of(e);
      HeadIsEarliest(v, x, e);
    }
  }

  lemma BelongsOnce(v: View, x: Id, k: Key, k': Key)
    requires Belongs(v, x, k) && Belongs(v, x, k')
    ensures k == k'
  {
    var e :| Head(v, x, e) && k == Key(v.Of(e).source);
    var e' :| Head(v, x, e') && k' == Key(v.Of(e').source);
    TiesShareSource(v.Of(e), v.Of(e'));
  }

  /** Unsuppressed listings joined by any chain, suppressed listings included, share one cluster. */
  lemma PeersShareTheirCluster(v: View, x: Id, y: Id, k: Key)
    requires Belongs(v, x, k) && Peer(v, x, y)
    ensures Belongs(v, y, k)
  {
    ConnectedSym(v.links, x, y);
    ConnectedSelf(v.links, x);
    forall z ensures Peer(v, x, z) <==> Peer(v, y, z) {
      if Connected(v.links, x, z) { ConnectedTrans(v.links, y, x, z); }
      if Connected(v.links, y, z) { ConnectedTrans(v.links, x, y, z); }
    }
    if x == y {
    } else {
      assert Peer(v, y, x);
    }
    var e :| Head(v, x, e) && k == Key(v.Of(e).source);
    assert Head(v, y, e);
  }

  function Unsuppressed(v: View, group: seq<Id>): seq<Id> {
    if group == [] then [] else
      var init, last := Unsuppressed(v, group[..|group| - 1]), group[|group| - 1];
      if last in v.suppressed then init else init + [last]
  }

  lemma {:induction false} UnsuppressedKeeps(v: View, group: seq<Id>)
    ensures forall x :: x in Unsuppressed(v, group) <==> x in group && x !in v.suppressed
    ensures Distinct(group) ==> Distinct(Unsuppressed(v, group))
  {
    if group != [] {
      UnsuppressedKeeps(v, group[..|group| - 1]);
      assert group == group[..|group| - 1] + [group[|group| - 1]];
    }
  }

  function InputsOf(v: View, group: seq<Id>): seq<Listing> {
    seq(|group|, (i: nat) requires i < |group| => v.Of(group[i]))
  }

  /** `group` is everything chained to `x`. */
  ghost predicate WholeClass(v: View, group: seq<Id>, x: Id) {
    Distinct(group) && forall y :: y in group <==> Connected(v.links, x, y)
  }

  lemma GroupIsSmall(v: View, group: seq<Id>, x: Id)
    requires WholeClass(v, group, x) && x !in v.suppressed
    ensures HasOther(v, x) <==> |Unsuppressed(v, group)| >= 2
  {
    var unsuppressed := Unsuppressed(v, group);
    UnsuppressedKeeps(v, group);
    ConnectedSelf(v.links, x);
    assert x in unsuppressed;
    if HasOther(v, x) {
      var y :| y != x && Peer(v, x, y);
      assert y in unsuppressed;
      var i :| 0 <= i < |unsuppressed| && unsuppressed[i] == x;
      var j :| 0 <= j < |unsuppressed| && unsuppressed[j] == y;
      assert i != j;
    } else if |unsuppressed| >= 2 {
      var y := if unsuppressed[0] == x then unsuppressed[1] else unsuppressed[0];
      assert y in unsuppressed && Peer(v, x, y);
    }
  }

  lemma GroupKey(v: View, group: seq<Id>, x: Id, k: Key)
    requires WholeClass(v, group, x) && x !in v.suppressed
    ensures HeadedBy(v, x, k) <==> ClusterKey(InputsOf(v, Unsuppressed(v, group))) == Some(k)
  {
    var unsuppressed := Unsuppressed(v, group);
    UnsuppressedKeeps(v, group);
    ConnectedSelf(v.links, x);
    assert x in unsuppressed;
    var inputs := InputsOf(v, unsuppressed);
    var first := KeyIsTheEarliest(inputs);
    var i :| 0 <= i < |inputs| && inputs[i] == first;
    var e := unsuppressed[i];
    assert e in unsuppressed;
    forall y | Peer(v, x, y) ensures !Earlier(v.Of(y), v.Of(e)) {
      assert y in unsuppressed;
      var j :| 0 <= j < |unsuppressed| && unsuppressed[j] == y;
      assert inputs[j] in inputs;
    }
    assert Head(v, x, e);
    if HeadedBy(v, x, k) {
      var e' :| Head(v, x, e') && k == Key(v.Of(e').source);
      TiesShareSource(v.Of(e), v.Of(e'));
    }
  }

  /** What one pass assigns to a component is what clustering from scratch gives its members. */
  lemma GroupBelongs(v: View, group: seq<Id>, x: Id, k: Key)
    requires WholeClass(v, group, x)
    ensures Belongs(v, x, k) <==>
      x !in v.suppressed && |Unsuppressed(v, group)| >= 2 && ClusterKey(InputsOf(v, Unsuppressed(v, group))) == Some(k)
  {
    if x !in v.suppressed {
      GroupIsSmall(v, group, x);
      GroupKey(v, group, x, k);
    }
  }

  // ------------------------------------------------------------------------------------------
  // The closure
  // ------------------------------------------------------------------------------------------

  ghost predicate Reached(links: seq<Link>, touched: seq<Id>, x: Id) {
    exists t :: t in touched && Connected(links, t, x)
  }

  predicate Touches(l: Link, nodes: seq<Id>) {
    l.a in nodes || l.b in nodes
  }

  function LinksTouching(links: seq<Link>, nodes: seq<Id>): seq<Link> {
    if links == [] then []
    else (if Touches(links[0], nodes) then [links[0]] else []) + LinksTouching(links[1..], nodes)
  }

  lemma {:induction false} LinksTouchingKeeps(links: seq<Link>, nodes: seq<Id>)
    ensures forall l :: l in LinksTouching(links, nodes) <==> l in links && Touches(l, nodes)
  {
    if links != [] {
      LinksTouchingKeeps(links[1..], nodes);
      assert links == [links[0]] + links[1..];
    }
  }

  function Ends(links: seq<Link>): set<Id> {
    (set l | l in links :: l.a) + (set l | l in links :: l.b)
  }

  /** Every link at `x` has been collected. */
  ghost predicate Explored(links: seq<Link>, edges: seq<Link>, x: Id) {
    forall l | l in links && (l.a == x || l.b == x) :: l in edges
  }

  ghost predicate EndsSeen(edges: seq<Link>, seen: seq<Id>) {
    forall e | e in edges :: e.a in seen && e.b in seen
  }

  lemma ReachedOn(links: seq<Link>, touched: seq<Id>, x: Id, y: Id)
    requires Reached(links, touched, x) && Connected(links, x, y)
    ensures Reached(links, touched, y)
  {
    var t :| t in touched && Connected(links, t, x);
    ConnectedTrans(links, t, x, y);
  }

  lemma ReachedStep(links: seq<Link>, touched: seq<Id>, l: Link, x: Id)
    requires l in links && (l.a == x || l.b == x) && Reached(links, touched, x)
    ensures Reached(links, touched, l.a) && Reached(links, touched, l.b)
  {
    assert l == Link(l.a, l.b);
    ConnectedStep(links, l.a, l.b);
    ConnectedStep(links, l.b, l.a);
    if l.a == x { ReachedOn(links, touched, l.a, l.b); } else { ReachedOn(links, touched, l.b, l.a); }
  }

  /** What the breadth-first loop promises: every link in reach of `touched`, and no other. */
  ghost predicate IsClosure(links: seq<Link>, touched: seq<Id>, seen: seq<Id>, edges: seq<Link>) {
    && (forall x | x in touched || x in seen :: Explored(links, edges, x))
    && (forall x | x in seen :: Reached(links, touched, x))
    && (forall e | e in edges :: e in links)
    && EndsSeen(edges, seen)
  }

  /** One frontier's links: their unseen ends become the next frontier. */
  method Absorb(found: seq<Link>, seen: seq<Id>) returns (known: seq<Id>, next: seq<Id>)
    ensures known == seen + next && EndsSeen(found, known)
    ensures forall x | x in next :: x !in seen && exists l :: l in found && (x == l.a || x == l.b)
  {
    known, next := seen, [];
    for i := 0 to |found|
      invariant known == seen + next && EndsSeen(found[..i], known)
      invariant forall x | x in next :: x !in seen && exists l :: l in found && (x == l.a || x == l.b)
    {
      var l := found[i];
      if l.a !in known { known, next := known + [l.a], next + [l.a]; }
      if l.b !in known { known, next := known + [l.b], next + [l.b]; }
      assert found[..i + 1] == found[..i] + [l];
    }
    assert found[..|found|] == found;
  }

  lemma NextIsReached(links: seq<Link>, touched: seq<Id>, frontier: seq<Id>, found: seq<Link>, next: seq<Id>)
    requires forall l | l in found :: l in links && Touches(l, frontier)
    requires forall x | x in frontier :: Reached(links, touched, x)
    requires forall x | x in next :: exists l :: l in found && (x == l.a || x == l.b)
    ensures forall x | x in next :: Reached(links, touched, x)
  {
    forall x | x in next ensures Reached(links, touched, x) {
      var l :| l in found && (x == l.a || x == l.b);
      ReachedStep(links, touched, l, if l.a in frontier then l.a else l.b);
    }
  }

  lemma UnseenShrink(links: seq<Link>, seen: seq<Id>, next: seq<Id>)
    requires next != [] && next[0] !in seen && next[0] in Ends(links)
    ensures |Ends(links) - Elements(seen + next)| < |Ends(links) - Elements(seen)|
  {
    var before, after := Ends(links) - Elements(seen), Ends(links) - Elements(seen + next);
    assert after <= before - {next[0]} && next[0] in before;
    Smaller(after, before - {next[0]});
  }

  lemma {:induction false} Smaller<T>(a: set<T>, b: set<T>)
    requires a <= b
    ensures |a| <= |b|
  {
    if a != {} {
      var x :| x in a;
      Smaller(a - {x}, b - {x});
    }
  }

  function Elements(s: seq<Id>): set<Id> {
    set x | x in s
  }

  /** The loop's state: only the frontier is still to be explored. */
  ghost predicate Closing(links: seq<Link>, touched: seq<Id>, frontier: seq<Id>, seen: seq<Id>, edges: seq<Link>) {
    && (forall x {:trigger Explored(links, edges, x)} |
          (x in touched || x in seen) && x !in frontier :: Explored(links, edges, x))
    && (forall x {:trigger Reached(links, touched, x)} | x in frontier || x in seen :: Reached(links, touched, x))
    && (forall e | e in edges :: e in links)
    && EndsSeen(edges, seen)
  }

  lemma ClosingStep(links: seq<Link>, touched: seq<Id>, frontier: seq<Id>, seen: seq<Id>, edges: seq<Link>,
      found: seq<Link>, next: seq<Id>)
    requires Closing(links, touched, frontier, seen, edges)
    requires found == LinksTouching(links, frontier) && EndsSeen(found, seen + next)
    requires forall x | x in next :: exists l :: l in found && (x == l.a || x == l.b)
    ensures Closing(links, touched, next, seen + next, edges + found)
  {
    LinksTouchingKeeps(links, frontier);
    NextIsReached(links, touched, frontier, found, next);
    forall x | (x in touched || x in seen + next) && x !in next ensures Explored(links, edges + found, x) {
      if x !in frontier { assert Explored(links, edges, x); }
    }
    forall e | e in edges + found ensures e.a in seen + next && e.b in seen + next {
      assert e in edges || e in found;
    }
  }

  method Closure(links: seq<Link>, touched: seq<Id>) returns (seen: seq<Id>, edges: seq<Link>)
    ensures IsClosure(links, touched, seen, edges)
  {
    seen, edges := [], [];
    var frontier := Dedup(touched);
    DedupKeeps(touched);
    forall x | x in touched ensures Reached(links, touched, x) { ConnectedSelf(links, x); }
    while frontier != []
      invariant Closing(links, touched, frontier, seen, edges)
      decreases |Ends(links) - Elements(seen)|, |frontier|
    {
      var found := LinksTouching(links, frontier);
      LinksTouchingKeeps(links, frontier);
      var known, next := Absorb(found, seen);
      ClosingStep(links, touched, frontier, seen, edges, found, next);
      if next != [] { UnseenShrink(links, seen, next); } else { assert known == seen; }
      seen, edges, frontier := known, edges + found, next;
    }
  }

  function AllNodes(touched: seq<Id>, seen: seq<Id>): seq<Id> {
    Dedup(touched + seen)
  }

  lemma {:induction false} ChainStaysInClosure(
    links: seq<Link>, touched: seq<Id>, seen: seq<Id>, edges: seq<Link>, x: Id, p: seq<Id>, y: Id)
    requires IsClosure(links, touched, seen, edges) && (x in touched || x in seen) && Leads(links, x, p, y)
    ensures Leads(edges, x, p, y) && (y in touched || y in seen)
    decreases |p|
  {
    if p != [] {
      assert Explored(links, edges, x);
      ChainStaysInClosure(links, touched, seen, edges, p[0], p[1..], y);
    }
  }

  lemma {:induction false} ChainOfFewerLinks(links: seq<Link>, edges: seq<Link>, x: Id, p: seq<Id>, y: Id)
    requires (forall e | e in edges :: e in links) && Leads(edges, x, p, y)
    ensures Leads(links, x, p, y)
    decreases |p|
  {
    if p != [] { ChainOfFewerLinks(links, edges, p[0], p[1..], y); }
  }

  /** The closure holds exactly the listings in reach of the seeds. */
  lemma ClosureIsReach(links: seq<Link>, touched: seq<Id>, seen: seq<Id>, edges: seq<Link>, x: Id)
    requires IsClosure(links, touched, seen, edges)
    ensures x in AllNodes(touched, seen) <==> Reached(links, touched, x)
    ensures Known(AllNodes(touched, seen), edges, x) <==> x in AllNodes(touched, seen)
  {
    DedupKeeps(touched + seen);
    if x in touched { ConnectedSelf(links, x); }
    if Reached(links, touched, x) {
      var t :| t in touched && Connected(links, t, x);
      var p :| Leads(links, t, p, x);
      ChainStaysInClosure(links, touched, seen, edges, t, p, x);
    }
  }

  /** Inside the closure the collected edges connect exactly what the whole link graph connects. */
  lemma ClosureConnects(links: seq<Link>, touched: seq<Id>, seen: seq<Id>, edges: seq<Link>, x: Id, y: Id)
    requires IsClosure(links, touched, seen, edges) && x in AllNodes(touched, seen)
    ensures Connected(edges, x, y) <==> Connected(links, x, y)
    ensures Connected(links, x, y) ==> y in AllNodes(touched, seen)
  {
    DedupKeeps(touched + seen);
    if p :| Leads(links, x, p, y) { ChainStaysInClosure(links, touched, seen, edges, x, p, y); }
    if p :| Leads(edges, x, p, y) { ChainOfFewerLinks(links, edges, x, p, y); }
  }

  /** So each group of the closure is a whole component of the whole graph. */
  lemma GroupIsWhole(v: View, touched: seq<Id>, seen: seq<Id>, edges: seq<Link>, groups: seq<seq<Id>>, g: int, x: Id)
    requires IsClosure(v.links, touched, seen, edges) && Partition(AllNodes(touched, seen), edges, groups)
    requires InGroup(groups, g, x)
    ensures x in AllNodes(touched, seen) && WholeClass(v, groups[g], x)
  {
    var nodes := AllNodes(touched, seen);
    ClosureIsReach(v.links, touched, seen, edges, x);
    assert Known(nodes, edges, x);
    forall y ensures y in groups[g] <==> Connected(v.links, x, y) {
      ClosureConnects(v.links, touched, seen, edges, x, y);
      ClosureIsReach(v.links, touched, seen, edges, y);
      if y in groups[g] { assert InGroup(groups, g, y); }
      if Connected(v.links, x, y) {
        assert Known(nodes, edges, y);
        var h :| InGroup(groups, h, y);
      }
    }
  }
}
