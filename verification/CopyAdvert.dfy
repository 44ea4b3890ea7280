/**
 * The tables of services/copy-advert and the pass over them: memberships, cluster statuses and flags, recomputed
 * around the touched listings. The unique index "one active membership per listing" is never violated.
 */
module CopyAdvert {
  import opened Common
  import opened Components
  import opened Clusters

  datatype Membership = Membership(cluster: Key, listing: Id)

  datatype Status = Live | Expired

  /** Membership rows by (cluster, listing), each with the time it was left, if it was. */
  type Members = map<Membership, Option<int>>

  predicate Active(members: Members, k: Key, x: Id) {
    Membership(k, x) in members && members[Membership(k, x)].None?
  }

  /** `members_one_active_idx`. */
  ghost predicate OneActive(members: Members) {
    forall k, k', x {:trigger Active(members, k, x), Active(members, k', x)} |
      Active(members, k, x) && Active(members, k', x) :: k == k'
  }

  ghost predicate HasMember(members: Members, k: Key) {
    exists x :: Active(members, k, x)
  }

  ghost predicate SameRow(before: Members, after: Members, k: Key, x: Id) {
    var m := Membership(k, x);
    (m in before <==> m in after) && (m in before ==> before[m] == after[m])
  }

  ghost predicate SameFor(before: Members, after: Members, x: Id) {
    forall k {:trigger SameRow(before, after, k, x)} {:trigger Active(after, k, x)} :: SameRow(before, after, k, x)
  }

  /** A row left active is open; one left inactive that was active is stamped `now`; any other is untouched. */
  ghost predicate RowMoves(before: Members, after: Members, k: Key, x: Id, now: int) {
    Active(after, k, x)
    || (if Active(before, k, x) then Membership(k, x) in after && after[Membership(k, x)] == Some(now)
        else SameRow(before, after, k, x))
  }

  ghost predicate SameFlag(before: map<Id, Key>, after: map<Id, Key>, x: Id) {
    (x in before <==> x in after) && (x in before ==> before[x] == after[x])
  }

  ghost predicate SameStatus(before: map<Key, Status>, after: map<Key, Status>, k: Key) {
    (k in before <==> k in after) && (k in before ==> before[k] == after[k])
  }

  /** The answer of `selectActiveClusterKeys`: each listing's active cluster, if any. */
  ghost predicate IsActiveKeys(members: Members, nodes: seq<Id>, keys: map<Id, Key>) {
    && (forall x | x in keys :: x in nodes)
    && (forall x {:trigger ActiveAs(members, keys, x)} | x in nodes :: ActiveAs(members, keys, x))
  }

  ghost predicate ActiveAs(members: Members, keys: map<Id, Key>, x: Id) {
    forall k {:trigger Active(members, k, x)} :: Active(members, k, x) <==> x in keys && keys[x] == k
  }

  ghost predicate ActiveOnlyIn(members: Members, x: Id, key: Key) {
    forall k {:trigger Active(members, k, x)} :: Active(members, k, x) <==> k == key
  }

  ghost predicate Placed(v: View, x: Id) {
    exists k :: Belongs(v, x, k)
  }

  ghost predicate AsFromScratch(v: View, members: Members, x: Id) {
    forall k {:trigger Active(members, k, x)} {:trigger Belongs(v, x, k)} :: Active(members, k, x) <==> Belongs(v, x, k)
  }

  class Tables {
    var links: seq<Link>
    var members: Members
    var status: map<Key, Status>
    var flags: map<Id, Key>

    method SelectActiveClusterKeys(nodes: seq<Id>) returns (keys: map<Id, Key>)
      requires OneActive(members)
      ensures IsActiveKeys(members, nodes, keys)
    {
      forall m, n | m in members && n in members && members[m].None? && members[n].None? && m.listing == n.listing
        ensures m == n
      {
        assert Active(members, m.cluster, m.listing) && Active(members, n.cluster, n.listing);
      }
      keys := map m | m in members && members[m].None? && m.listing in nodes :: m.listing := m.cluster;
      forall x, k | x in nodes ensures Active(members, k, x) <==> x in keys && keys[x] == k {
        if Active(members, k, x) { assert Membership(k, x) in members; }
      }
    }

    method CloseMembership(k: Key, x: Id, at: int)
      modifies this`members
      ensures members == if Membership(k, x) in old(members) then old(members)[Membership(k, x) := Some(at)]
                         else old(members)
    {
      if Membership(k, x) in members { members := members[Membership(k, x) := Some(at)]; }
    }

    /** Refused by the unique index while the listing is an active member of another cluster. */
    method UpsertMember(k: Key, x: Id)
      requires forall k' | Active(members, k', x) :: k' == k
      modifies this`members
      ensures members == old(members)[Membership(k, x) := None]
    {
      members := members[Membership(k, x) := None];
    }

    /** Moves every listing of a group into the group's cluster, leaving its old one first. */
    method AssignGroup(active: seq<Id>, key: Key, oldKeys: map<Id, Key>, now: int)
      requires Distinct(active) && forall x | x in active :: ActiveAs(members, oldKeys, x)
      modifies this`members, this`flags
      ensures forall x | x in active :: ActiveOnlyIn(members, x, key) && x in flags && flags[x] == key
      ensures forall k, x | x in active :: RowMoves(old(members), members, k, x, now)
      ensures forall x | x !in active :: SameFor(old(members), members, x) && SameFlag(old(flags), flags, x)
    {
      for i := 0 to |active|
        invariant forall x | x in active[..i] :: ActiveOnlyIn(members, x, key) && x in flags && flags[x] == key
        invariant forall k, x | x in active[..i] :: RowMoves(old(members), members, k, x, now)
        invariant forall x | x !in active[..i] :: SameFor(old(members), members, x) && SameFlag(old(flags), flags, x)
      {
        var x := active[i];
        assert active[..i + 1] == active[..i] + [x] && x !in active[..i];
        assert x in active && ActiveAs(old(members), oldKeys, x) && SameFor(old(members), members, x);
        ghost var before := members;
        if x in oldKeys && oldKeys[x] != key { CloseMembership(oldKeys[x], x, now); }
        forall k | Active(members, k, x) ensures k == key {
          assert SameRow(old(members), before, k, x);
          assert Active(old(members), k, x) ==> oldKeys[x] == k;
        }
        UpsertMember(key, x);
        flags := flags[x := key];
        OneMoved(old(members), before, members, active[..i], x, key, oldKeys, now);
      }
      assert active[..|active|] == active;
    }

    method UpsertCluster(k: Key)
      modifies this`status
      ensures status == old(status)[k := Live]
    {
      status := status[k := Live];
    }

    /** The loop over groups: suppressed listings drop out, and what is left of two or more becomes a cluster. */
    method AssignGroups(v: View, nodes: seq<Id>, edges: seq<Link>, groups: seq<seq<Id>>, oldKeys: map<Id, Key>, now: int)
      returns (placed: set<Id>)
      requires Partition(nodes, edges, groups) && WholeGroups(v, groups) && IsActiveKeys(members, nodes, oldKeys)
      requires forall g, x | InGroup(groups, g, x) :: x in nodes
      modifies this`members, this`status, this`flags
      ensures Midway(v, groups, |groups|, old(members), members, placed, now)
      ensures FlagsMidway(v, old(flags), flags, placed) && StatusMidway(v, old(status), status, placed)
    {
      placed := {};
      for i := 0 to |groups|
        invariant Midway(v, groups, i, old(members), members, placed, now)
        invariant FlagsMidway(v, old(flags), flags, placed) && StatusMidway(v, old(status), status, placed)
      {
        var active := Unsuppressed(v, groups[i]);
        if (|groups[i]| > 1 || exists e | e in edges :: e.a == groups[i][0] || e.b == groups[i][0]) && |active| >= 2 {
          var key := ClusterKey(InputsOf(v, active)).value;
          ghost var was, flagsWere, statusWere := members, flags, status;
          UnsuppressedKeeps(v, groups[i]);
          NotYetAssigned(v, groups, i, old(members), members, placed, now, nodes, oldKeys);
          UpsertCluster(key);
          AssignGroup(active, key, oldKeys, now);
          GroupAssigned(v, groups, i, old(members), was, members, placed, now, key);
          FlagsAssigned(v, groups[i], key, old(flags), flagsWere, flags, placed);
          StatusAssigned(v, groups[i], key, old(status), statusWere, status, placed);
          placed := placed + Elements(active);
        } else {
          UnsuppressedShorter(v, groups[i]);
          GroupSkipped(v, groups, i, old(members), members, placed, now);
        }
      }
    }

    /** An old membership that was not carried over is closed and its flag dropped. */
    method CloseLeftovers(oldKeys: map<Id, Key>, kept: set<Id>, now: int) returns (closed: set<Id>)
      requires forall x | x in oldKeys && x !in kept :: ActiveAs(members, oldKeys, x)
      modifies this`members, this`flags
      ensures closed == set x | x in oldKeys && x !in kept
      ensures forall x | x in closed :: Inactive(members, x) && x !in flags
      ensures forall k, x | x in closed :: RowMoves(old(members), members, k, x, now)
      ensures forall x | x !in closed :: SameFor(old(members), members, x) && SameFlag(old(flags), flags, x)
    {
      closed := {};
      var todo := oldKeys.Keys - kept;
      while todo != {}
        invariant todo <= oldKeys.Keys - kept && closed == oldKeys.Keys - kept - todo
        invariant forall x | x in closed :: Inactive(members, x) && x !in flags
        invariant forall k, x | x in closed :: RowMoves(old(members), members, k, x, now)
        invariant forall x | x !in closed :: SameFor(old(members), members, x) && SameFlag(old(flags), flags, x)
      {
        var x :| x in todo;
        ghost var before := members;
        assert ActiveAs(old(members), oldKeys, x) && SameFor(old(members), members, x);
        CloseMembership(oldKeys[x], x, now);
        flags := flags - {x};
        OneClosed(old(members), before, members, closed, x, oldKeys, now);
        closed, todo := closed + {x}, todo - {x};
      }
    }

    /** A cluster left with no active member is expired; `expireCluster` only updates a row that is there. */
    method ExpireEmptied(keys: set<Key>)
      modifies this`status
      ensures forall k :: StatusExpired(members, keys, old(status), status, k)
    {
      var done, todo: set<Key> := {}, keys;
      while todo != {}
        invariant done + todo == keys && done !! todo
        invariant forall k :: StatusExpired(members, done, old(status), status, k)
      {
        var k :| k in todo;
        var empty := forall m | m in members :: !(m.cluster == k && members[m].None?);
        EmptyHasNoMember(members, k, empty);
        OneExpired(members, done, old(status), status, k);
        if empty && k in status { status := status[k := Expired]; }
        done, todo := done + {k}, todo - {k};
      }
    }

    /** Recomputes every cluster in reach of `touched`; answers the listings whose clustering may have changed. */
    method RecomputeClusters(touched: seq<Id>, suppressed: set<Id>, inputs: map<Id, Listing>, now: int)
      returns (changed: set<Id>)
      requires OneActive(members)
      modifies this`members, this`status, this`flags
      ensures Recomputed(View(links, suppressed, inputs), touched, now,
                Rows(old(members), old(status), old(flags)), Rows(members, status, flags), changed)
      ensures AllKeyedByEarliest(View(links, suppressed, inputs), touched, members)
    {
      changed := {};
      if touched == [] { return; }
      ghost var start := Rows(members, status, flags);
      var v := View(links, suppressed, inputs);
      var seen, edges := Closure(links, touched);
      var nodes := AllNodes(touched, seen);
      var groups := ComponentsOf(nodes, edges);
      var oldKeys := SelectActiveClusterKeys(nodes);
      GroupsAreWhole(v, touched, seen, edges, groups);
      var placed := AssignGroups(v, nodes, edges, groups, oldKeys, now);
      ghost var middle := Rows(members, status, flags);
      LeftoversAreOpen(v, groups, start.members, members, placed, now, nodes, oldKeys);
      PlacedInReach(v, touched, groups, nodes, start.members, members, placed, now);
      var closed := CloseLeftovers(oldKeys, placed, now);
      assert status == middle.status;
      ExpireEmptied(oldKeys.Values);
      assert forall k :: StatusExpired(members, oldKeys.Values, middle.status, status, k);
      changed := placed + closed;
      ghost var end := Rows(members, status, flags);
      PassMovesListings(v, touched, nodes, groups, oldKeys, now, start, middle, end, placed);
      PassMovesClusters(v, touched, nodes, oldKeys, now, start, middle, end, placed);
      ChangedIsExact(v, touched, nodes, oldKeys, start.members, placed);
      ReachedAreKeyed(v, touched, now, start, end, changed);
    }

    /** The daily expiry: closes the memberships of listings not seen for the window, then recomputes around them. */
    method ExpireWindow(expired: seq<Membership>, suppressed: set<Id>, inputs: map<Id, Listing>, now: int)
      returns (changed: set<Id>)
      requires OneActive(members) && forall m | m in expired :: Active(members, m.cluster, m.listing)
      modifies this`members, this`status, this`flags
      ensures OneActive(members)
      ensures forall m | m in expired :: AsFromScratch(View(links, suppressed, inputs), members, m.listing)
      ensures forall m | m in expired && !Placed(View(links, suppressed, inputs), m.listing) ::
                SameFlag(old(flags), flags, m.listing)
      ensures WindowExpired(View(links, suppressed, inputs), expired, now,
                Rows(old(members), old(status), old(flags)), Rows(members, status, flags), changed)
    {
      for i := 0 to |expired|
        invariant forall k, x | Active(members, k, x) :: Active(old(members), k, x)
        invariant forall m | m in expired[..i] :: Inactive(members, m.listing)
        invariant flags == old(flags) && status == old(status)
        invariant MembersClosed(old(members), expired[..i], now, members)
      {
        assert expired[..i + 1] == expired[..i] + [expired[i]];
        assert expired[i] in expired && expired[i] == Membership(expired[i].cluster, expired[i].listing);
        ClosedIsInactive(old(members), members, expired[..i], expired[i], now);
        CloseMembership(expired[i].cluster, expired[i].listing, now);
      }
      assert expired[..|expired|] == expired;
      var touched := ListingsOf(expired);
      ghost var start := Rows(members, status, flags);
      var v := View(links, suppressed, inputs);
      changed := RecomputeClusters(touched, suppressed, inputs, now);
      RecomputeKeepsOneActive(v, touched, now, start, Rows(members, status, flags), changed);
      forall m | m in expired
        ensures AsFromScratch(v, members, m.listing)
        ensures !Placed(v, m.listing) ==> SameFlag(old(flags), flags, m.listing)
      {
        var i :| 0 <= i < |expired| && expired[i] == m;
        assert touched[i] in touched;
        ConnectedSelf(links, m.listing);
        assert Reached(links, touched, m.listing);
        assert m in expired && Inactive(start.members, m.listing) && !HadCluster(start.members, m.listing);
      }
    }
  }

  // ------------------------------------------------------------------------------------------
  // The loop over groups
  // ------------------------------------------------------------------------------------------

  ghost predicate WholeGroups(v: View, groups: seq<seq<Id>>) {
    forall g, x | InGroup(groups, g, x) :: WholeClass(v, groups[g], x)
  }

  ghost predicate Handled(groups: seq<seq<Id>>, i: nat, x: Id) {
    exists g :: g < i && InGroup(groups, g, x)
  }

  /** After `i` groups: the placed listings are as from scratch, the others untouched. */
  ghost predicate Midway(v: View, groups: seq<seq<Id>>, i: nat, start: Members, members: Members,
      placed: set<Id>, now: int)
  {
    && (forall x | x in placed :: Handled(groups, i, x) && Placed(v, x) && AsFromScratch(v, members, x))
    && (forall k, x {:trigger RowMoves(start, members, k, x, now)} | x in placed :: RowMoves(start, members, k, x, now))
    && (forall x | x !in placed :: SameFor(start, members, x))
    && (forall x {:trigger Handled(groups, i, x)} | Handled(groups, i, x) && Placed(v, x) :: x in placed)
  }

  ghost predicate FlagsMidway(v: View, start: map<Id, Key>, flags: map<Id, Key>, placed: set<Id>) {
    forall x {:trigger SameFlag(start, flags, x)} {:trigger x in placed} ::
      if x in placed then x in flags && Belongs(v, x, flags[x]) else SameFlag(start, flags, x)
  }

  /** Some placed listing belongs in `k`. */
  ghost predicate Upserted(v: View, placed: set<Id>, k: Key) {
    exists x :: x in placed && Belongs(v, x, k)
  }

  ghost predicate StatusMidway(v: View, start: map<Key, Status>, status: map<Key, Status>, placed: set<Id>) {
    forall k {:trigger SameStatus(start, status, k)} {:trigger Upserted(v, placed, k)} ::
      if Upserted(v, placed, k) then k in status && status[k] == Live else SameStatus(start, status, k)
  }

  lemma UnsuppressedShorter(v: View, group: seq<Id>)
    ensures |Unsuppressed(v, group)| <= |group|
  {
    if group != [] { UnsuppressedShorter(v, group[..|group| - 1]); }
  }

  lemma NotYetAssigned(v: View, groups: seq<seq<Id>>, i: nat, start: Members, members: Members,
      placed: set<Id>, now: int, nodes: seq<Id>, oldKeys: map<Id, Key>)
    requires i < |groups| && Midway(v, groups, i, start, members, placed, now) && WholeGroups(v, groups)
    requires exists edges :: Partition(nodes, edges, groups)
    requires IsActiveKeys(start, nodes, oldKeys) && forall g, x | InGroup(groups, g, x) :: x in nodes
    ensures forall x | x in groups[i] :: x !in placed && ActiveAs(members, oldKeys, x)
  {
    var edges :| Partition(nodes, edges, groups);
    forall x | x in groups[i] ensures x !in placed && ActiveAs(members, oldKeys, x) {
      assert InGroup(groups, i, x);
      ConnectedSelf(edges, x);
      assert !Handled(groups, i, x);
      assert ActiveAs(start, oldKeys, x) && SameFor(start, members, x);
      forall k ensures Active(members, k, x) <==> x in oldKeys && oldKeys[x] == k {
        assert SameRow(start, members, k, x);
        assert Active(start, k, x) <==> x in oldKeys && oldKeys[x] == k;
      }
    }
  }

  lemma HandledNext(groups: seq<seq<Id>>, i: nat, x: Id)
    requires i < |groups|
    ensures Handled(groups, i + 1, x) <==> Handled(groups, i, x) || x in groups[i]
  {
    if x in groups[i] { assert InGroup(groups, i, x); }
  }

  lemma GroupAssigned(v: View, groups: seq<seq<Id>>, i: nat, start: Members, was: Members, members: Members,
      placed: set<Id>, now: int, key: Key)
    requires i < |groups| && Midway(v, groups, i, start, was, placed, now) && WholeGroups(v, groups)
    requires forall x | x in groups[i] :: x !in placed
    requires var active := Unsuppressed(v, groups[i]);
      && |active| >= 2 && ClusterKey(InputsOf(v, active)) == Some(key)
      && (forall x | x in active :: ActiveOnlyIn(members, x, key))
      && (forall k, x | x in active :: RowMoves(was, members, k, x, now))
      && (forall x | x !in active :: SameFor(was, members, x))
    ensures Midway(v, groups, i + 1, start, members, placed + Elements(Unsuppressed(v, groups[i])), now)
  {
    var active := Unsuppressed(v, groups[i]);
    var grown := placed + Elements(active);
    UnsuppressedKeeps(v, groups[i]);
    forall x | x in grown
      ensures Handled(groups, i + 1, x) && Placed(v, x) && AsFromScratch(v, members, x)
    {
      HandledNext(groups, i, x);
      if x in active {
        assert InGroup(groups, i, x);
        forall k ensures Belongs(v, x, k) <==> k == key { GroupBelongs(v, groups[i], x, k); }
        assert Belongs(v, x, key);
      } else {
        assert SameFor(was, members, x);
        forall k ensures Active(members, k, x) <==> Belongs(v, x, k) {
          assert SameRow(was, members, k, x);
          assert Active(was, k, x) <==> Belongs(v, x, k);
        }
      }
    }
    forall k, x | x in grown ensures RowMoves(start, members, k, x, now) {
      if x in active {
        assert SameFor(start, was, x);
        assert SameRow(start, was, k, x) && RowMoves(was, members, k, x, now);
        assert Active(start, k, x) <==> Active(was, k, x);
      } else {
        assert SameRow(was, members, k, x) && RowMoves(start, was, k, x, now);
      }
    }
    forall x | x !in grown ensures SameFor(start, members, x) {
      forall k ensures SameRow(start, members, k, x) {
        assert SameFor(start, was, x) && SameFor(was, members, x);
        assert SameRow(start, was, k, x) && SameRow(was, members, k, x);
      }
    }
    forall x | Handled(groups, i + 1, x) && Placed(v, x) ensures x in grown {
      HandledNext(groups, i, x);
      if !Handled(groups, i, x) {
        var k :| Belongs(v, x, k);
      }
    }
  }

  lemma GroupSkipped(v: View, groups: seq<seq<Id>>, i: nat, start: Members, members: Members,
      placed: set<Id>, now: int)
    requires i < |groups| && Midway(v, groups, i, start, members, placed, now) && WholeGroups(v, groups)
    requires |Unsuppressed(v, groups[i])| < 2
    ensures Midway(v, groups, i + 1, start, members, placed, now)
  {
    forall x ensures Handled(groups, i + 1, x) <==> Handled(groups, i, x) || x in groups[i] {
      HandledNext(groups, i, x);
    }
    forall x | Handled(groups, i + 1, x) && Placed(v, x) ensures x in placed {
      if x in groups[i] {
        var k :| Belongs(v, x, k);
        assert InGroup(groups, i, x);
        GroupBelongs(v, groups[i], x, k);
      }
    }
  }

  lemma FlagsAssigned(v: View, group: seq<Id>, key: Key, start: map<Id, Key>, was: map<Id, Key>, flags: map<Id, Key>,
      placed: set<Id>)
    requires FlagsMidway(v, start, was, placed) && forall x | x in group :: WholeClass(v, group, x)
    requires var active := Unsuppressed(v, group);
      && |active| >= 2 && ClusterKey(InputsOf(v, active)) == Some(key)
      && (forall x | x in active :: x in flags && flags[x] == key)
      && (forall x | x !in active :: SameFlag(was, flags, x))
    ensures FlagsMidway(v, start, flags, placed + Elements(Unsuppressed(v, group)))
  {
    var active := Unsuppressed(v, group);
    UnsuppressedKeeps(v, group);
    forall x ensures if x in placed + Elements(active) then x in flags && Belongs(v, x, flags[x])
        else SameFlag(start, flags, x)
    {
      if x in active {
        GroupBelongs(v, group, x, key);
      } else {
        assert SameFlag(was, flags, x);
        assert x !in placed ==> SameFlag(start, was, x);
      }
    }
  }

  lemma StatusAssigned(v: View, group: seq<Id>, key: Key, start: map<Key, Status>, was: map<Key, Status>,
      status: map<Key, Status>, placed: set<Id>)
    requires StatusMidway(v, start, was, placed) && forall x | x in group :: WholeClass(v, group, x)
    requires var active := Unsuppressed(v, group);
      |active| >= 2 && ClusterKey(InputsOf(v, active)) == Some(key) && status == was[key := Live]
    ensures StatusMidway(v, start, status, placed + Elements(Unsuppressed(v, group)))
  {
    var active := Unsuppressed(v, group);
    var grown := placed + Elements(active);
    UnsuppressedKeeps(v, group);
    forall k ensures if Upserted(v, grown, k) then k in status && status[k] == Live else SameStatus(start, status, k) {
      if k == key {
        assert active[0] in active;
        GroupBelongs(v, group, active[0], key);
        assert active[0] in grown;
      } else {
        assert SameStatus(was, status, k);
        if Upserted(v, placed, k) {
          var x :| x in placed && Belongs(v, x, k);
          assert x in grown;
        } else if Upserted(v, grown, k) {
          var x :| x in grown && Belongs(v, x, k);
          GroupBelongs(v, group, x, k);
        }
      }
    }
  }

  lemma OneMoved(start: Members, before: Members, after: Members, done: seq<Id>, x: Id, key: Key,
      oldKeys: map<Id, Key>, now: int)
    requires x !in done && SameFor(start, before, x) && ActiveAs(start, oldKeys, x)
    requires after == (if x in oldKeys && oldKeys[x] != key && Membership(oldKeys[x], x) in before
                       then before[Membership(oldKeys[x], x) := Some(now)] else before)[Membership(key, x) := None]
    requires forall y | y in done :: ActiveOnlyIn(before, y, key)
    requires forall k, y | y in done :: RowMoves(start, before, k, y, now)
    requires forall y | y !in done :: SameFor(start, before, y)
    ensures forall y | y in done + [x] :: ActiveOnlyIn(after, y, key)
    ensures forall k, y | y in done + [x] :: RowMoves(start, after, k, y, now)
    ensures forall y | y !in done + [x] :: SameFor(start, after, y)
  {
    forall k, y | y != x ensures SameRow(before, after, k, y) {
    }
    forall k ensures Active(after, k, x) <==> k == key {
      assert Active(before, k, x) <==> Active(start, k, x);
    }
    forall y | y in done + [x] ensures ActiveOnlyIn(after, y, key) {
      if y != x {
        assert y in done;
        forall k ensures Active(after, k, y) <==> k == key {
          assert SameRow(before, after, k, y);
          assert Active(before, k, y) <==> k == key;
        }
      }
    }
    forall k, y | y in done + [x] ensures RowMoves(start, after, k, y, now) {
      if y != x {
        assert y in done && SameRow(before, after, k, y) && RowMoves(start, before, k, y, now);
      } else {
        assert SameRow(start, before, k, x);
      }
    }
    forall y | y !in done + [x] ensures SameFor(start, after, y) {
      forall k ensures SameRow(start, after, k, y) {
        assert SameRow(start, before, k, y) && SameRow(before, after, k, y);
      }
    }
  }

  ghost predicate Inactive(members: Members, x: Id) {
    forall k {:trigger Active(members, k, x)} :: !Active(members, k, x)
  }

  ghost predicate HadCluster(members: Members, x: Id) {
    exists k :: Active(members, k, x)
  }

  function ListingsOf(expired: seq<Membership>): seq<Id> {
    seq(|expired|, (i: nat) requires i < |expired| => expired[i].listing)
  }

  /** The expired rows are stamped, and no other row is touched. */
  ghost predicate MembersClosed(before: Members, expired: seq<Membership>, now: int, after: Members) {
    && before.Keys == after.Keys
    && forall m {:trigger after[m]} | m in before :: after[m] == if m in expired then Some(now) else before[m]
  }

  lemma ClosedIsInactive(start: Members, before: Members, done: seq<Membership>, m: Membership, at: int)
    requires OneActive(start) && Active(start, m.cluster, m.listing)
    requires forall k, x | Active(before, k, x) :: Active(start, k, x)
    requires forall n | n in done :: Inactive(before, n.listing)
    ensures var after := if m in before then before[m := Some(at)] else before;
      && (forall k, x | Active(after, k, x) :: Active(start, k, x))
      && forall n | n in done + [m] :: Inactive(after, n.listing)
  {
    var after := if m in before then before[m := Some(at)] else before;
    forall k, x | Active(after, k, x) ensures Active(before, k, x) && Active(start, k, x) && Membership(k, x) != m {
    }
    forall k ensures !Active(after, k, m.listing) {
      assert Active(after, k, m.listing) ==> Active(start, k, m.listing);
    }
    forall n, k | n in done ensures !Active(after, k, n.listing) {
      assert Inactive(before, n.listing) && !Active(before, k, n.listing);
    }
  }

  ghost predicate StatusExpired(members: Members, keys: set<Key>, before: map<Key, Status>, after: map<Key, Status>, k: Key) {
    if k in keys && !HasMember(members, k) && k in before then k in after && after[k] == Expired
    else SameStatus(before, after, k)
  }

  lemma EmptyHasNoMember(members: Members, k: Key, empty: bool)
    requires empty == forall m | m in members :: !(m.cluster == k && members[m].None?)
    ensures empty == !HasMember(members, k)
  {
    if m :| m in members && m.cluster == k && members[m].None? { assert Active(members, k, m.listing); }
  }

  lemma OneExpired(members: Members, done: set<Key>, before: map<Key, Status>, status: map<Key, Status>, k: Key)
    requires k !in done && forall k' :: StatusExpired(members, done, before, status, k')
    ensures var after := if !HasMember(members, k) && k in status then status[k := Expired] else status;
      forall k' :: StatusExpired(members, done + {k}, before, after, k')
  {
    var after := if !HasMember(members, k) && k in status then status[k := Expired] else status;
    forall k' ensures StatusExpired(members, done + {k}, before, after, k') {
      assert StatusExpired(members, done, before, status, k');
    }
  }

  lemma OneClosed(start: Members, before: Members, after: Members, done: set<Id>, x: Id, oldKeys: map<Id, Key>, now: int)
    requires x !in done && SameFor(start, before, x) && x in oldKeys && ActiveAs(start, oldKeys, x)
    requires after == (if Membership(oldKeys[x], x) in before then before[Membership(oldKeys[x], x) := Some(now)] else before)
    requires forall y | y in done :: Inactive(before, y)
    requires forall k, y | y in done :: RowMoves(start, before, k, y, now)
    requires forall y | y !in done :: SameFor(start, before, y)
    ensures forall y | y in done + {x} :: Inactive(after, y)
    ensures forall k, y | y in done + {x} :: RowMoves(start, after, k, y, now)
    ensures forall y | y !in done + {x} :: SameFor(start, after, y)
  {
    forall k, y | y != x ensures SameRow(before, after, k, y) {
    }
    forall k, y | y in done + {x} ensures !Active(after, k, y) {
      if y == x {
        assert SameRow(start, before, k, x);
        assert Active(start, k, x) <==> oldKeys[x] == k;
      } else {
        assert y in done && SameRow(before, after, k, y);
        assert !Active(before, k, y);
      }
    }
    forall k, y | y in done + {x} ensures RowMoves(start, after, k, y, now) {
      if y == x {
        assert SameRow(start, before, k, x);
        assert Active(start, k, x) <==> oldKeys[x] == k;
      } else {
        assert y in done && SameRow(before, after, k, y) && RowMoves(start, before, k, y, now);
      }
    }
    forall y | y !in done + {x} ensures SameFor(start, after, y) {
      forall k ensures SameRow(start, after, k, y) {
        assert SameRow(start, before, k, y) && SameRow(before, after, k, y);
      }
    }
  }

  // ------------------------------------------------------------------------------------------
  // The whole pass
  // ------------------------------------------------------------------------------------------

  datatype Rows = Rows(members: Members, status: map<Key, Status>, flags: map<Id, Key>)

  /** What becomes of one listing in reach. */
  ghost predicate ListingRecomputed(v: View, now: int, before: Rows, after: Rows, x: Id) {
    && AsFromScratch(v, after.members, x)
    && (forall k :: RowMoves(before.members, after.members, k, x, now))
    && if Placed(v, x) then x in after.flags && Belongs(v, x, after.flags[x])
       else if HadCluster(before.members, x) then x !in after.flags
       else SameFlag(before.flags, after.flags, x)
  }

  ghost predicate ListingKept(before: Rows, after: Rows, x: Id) {
    SameFor(before.members, after.members, x) && SameFlag(before.flags, after.flags, x)
  }

  /** A listing in reach belongs in `k`. */
  ghost predicate Gains(v: View, touched: seq<Id>, k: Key) {
    exists x :: Reached(v.links, touched, x) && Belongs(v, x, k)
  }

  /** A listing in reach was an active member of `k`. */
  ghost predicate Visits(v: View, touched: seq<Id>, members: Members, k: Key) {
    exists x :: Reached(v.links, touched, x) && Active(members, k, x)
  }

  /** What becomes of one cluster row. */
  ghost predicate ClusterRecomputed(v: View, touched: seq<Id>, before: Rows, after: Rows, k: Key) {
    if Gains(v, touched, k) then k in after.status && after.status[k] == Live
    else if Visits(v, touched, before.members, k) && !HasMember(after.members, k) && k in before.status then
      k in after.status && after.status[k] == Expired
    else SameStatus(before.status, after.status, k)
  }

  /** The whole effect of `recomputeClusters`. */
  ghost predicate Recomputed(v: View, touched: seq<Id>, now: int, before: Rows, after: Rows, changed: set<Id>) {
    && (forall x {:trigger Reached(v.links, touched, x)} ::
          if Reached(v.links, touched, x) then ListingRecomputed(v, now, before, after, x)
          else ListingKept(before, after, x))
    && (forall k :: ClusterRecomputed(v, touched, before, after, k))
    && (forall x :: x in changed <==> Reached(v.links, touched, x) && (Placed(v, x) || HadCluster(before.members, x)))
  }

  lemma GroupsAreWhole(v: View, touched: seq<Id>, seen: seq<Id>, edges: seq<Link>, groups: seq<seq<Id>>)
    requires IsClosure(v.links, touched, seen, edges) && Partition(AllNodes(touched, seen), edges, groups)
    ensures WholeGroups(v, groups) && forall g, x | InGroup(groups, g, x) :: x in AllNodes(touched, seen)
    ensures forall x | x in AllNodes(touched, seen) :: Handled(groups, |groups|, x)
    ensures forall x :: x in AllNodes(touched, seen) <==> Reached(v.links, touched, x)
  {
    forall x ensures x in AllNodes(touched, seen) <==> Reached(v.links, touched, x) {
      ClosureIsReach(v.links, touched, seen, edges, x);
    }
    forall g, x | InGroup(groups, g, x) ensures WholeClass(v, groups[g], x) && x in AllNodes(touched, seen) {
      GroupIsWhole(v, touched, seen, edges, groups, g, x);
    }
    forall x | x in AllNodes(touched, seen) ensures Handled(groups, |groups|, x) {
      assert Known(AllNodes(touched, seen), edges, x);
      var g :| InGroup(groups, g, x);
    }
  }

  lemma LeftoversAreOpen(v: View, groups: seq<seq<Id>>, start: Members, members: Members,
      placed: set<Id>, now: int, nodes: seq<Id>, oldKeys: map<Id, Key>)
    requires Midway(v, groups, |groups|, start, members, placed, now) && IsActiveKeys(start, nodes, oldKeys)
    ensures forall x | x in oldKeys && x !in placed :: ActiveAs(members, oldKeys, x)
  {
    forall x | x in oldKeys && x !in placed ensures ActiveAs(members, oldKeys, x) {
      assert ActiveAs(start, oldKeys, x) && SameFor(start, members, x);
      forall k ensures Active(members, k, x) <==> oldKeys[x] == k {
        assert SameRow(start, members, k, x);
        assert Active(start, k, x) <==> oldKeys[x] == k;
      }
    }
  }

  lemma PlacedInReach(v: View, touched: seq<Id>, groups: seq<seq<Id>>, nodes: seq<Id>, start: Members, members: Members,
      placed: set<Id>, now: int)
    requires Midway(v, groups, |groups|, start, members, placed, now)
    requires forall g, x | InGroup(groups, g, x) :: x in nodes
    requires forall x | x in nodes :: Handled(groups, |groups|, x)
    ensures forall x :: x in placed <==> x in nodes && Placed(v, x)
  {
    forall x | x in placed ensures x in nodes && Placed(v, x) {
      assert Handled(groups, |groups|, x);
    }
  }

  /** What closing the leftovers did, from the rows the loop over groups left. */
  ghost predicate LeftoversClosed(oldKeys: map<Id, Key>, placed: set<Id>, now: int, middle: Rows, end: Rows) {
    forall x {:trigger x in oldKeys} {:trigger ListingKept(middle, end, x)} ::
      if x in oldKeys && x !in placed then
        && Inactive(end.members, x) && x !in end.flags
        && forall k {:trigger RowMoves(middle.members, end.members, k, x, now)} :: RowMoves(middle.members, end.members, k, x, now)
      else ListingKept(middle, end, x)
  }

  lemma HadTheOldKey(nodes: seq<Id>, oldKeys: map<Id, Key>, members: Members, x: Id)
    requires IsActiveKeys(members, nodes, oldKeys) && x in nodes
    ensures HadCluster(members, x) <==> x in oldKeys
  {
    assert ActiveAs(members, oldKeys, x);
    if x in oldKeys { assert Active(members, oldKeys[x], x); }
  }

  lemma ListingPasses(v: View, nodes: seq<Id>, groups: seq<seq<Id>>, oldKeys: map<Id, Key>, now: int,
      start: Rows, middle: Rows, end: Rows, placed: set<Id>, x: Id)
    requires IsActiveKeys(start.members, nodes, oldKeys) && x in nodes && (x in placed <==> Placed(v, x))
    requires Midway(v, groups, |groups|, start.members, middle.members, placed, now)
    requires FlagsMidway(v, start.flags, middle.flags, placed)
    requires LeftoversClosed(oldKeys, placed, now, middle, end)
    ensures ListingRecomputed(v, now, start, end, x)
  {
    HadTheOldKey(nodes, oldKeys, start.members, x);
    if x in placed {
      assert ListingKept(middle, end, x) && AsFromScratch(v, middle.members, x);
      forall k ensures Active(end.members, k, x) <==> Belongs(v, x, k) {
        assert SameRow(middle.members, end.members, k, x);
        assert Active(middle.members, k, x) <==> Belongs(v, x, k);
      }
      forall k ensures RowMoves(start.members, end.members, k, x, now) {
        assert SameRow(middle.members, end.members, k, x) && RowMoves(start.members, middle.members, k, x, now);
      }
    } else {
      assert SameFor(start.members, middle.members, x) && SameFlag(start.flags, middle.flags, x);
      assert ActiveAs(start.members, oldKeys, x);
      forall k ensures !Active(end.members, k, x) && RowMoves(start.members, end.members, k, x, now) {
        assert SameRow(start.members, middle.members, k, x);
        assert Active(start.members, k, x) <==> Active(middle.members, k, x);
        if x in oldKeys {
          assert RowMoves(middle.members, end.members, k, x, now);
        } else {
          assert ListingKept(middle, end, x) && SameRow(middle.members, end.members, k, x);
          assert !Active(start.members, k, x);
        }
      }
      if x !in oldKeys { assert ListingKept(middle, end, x); }
    }
  }

  lemma KeptTwice(start: Rows, middle: Rows, end: Rows, x: Id)
    requires ListingKept(start, middle, x) && ListingKept(middle, end, x)
    ensures ListingKept(start, end, x)
  {
    forall k ensures SameRow(start.members, end.members, k, x) {
      assert SameRow(start.members, middle.members, k, x) && SameRow(middle.members, end.members, k, x);
    }
  }

  lemma PassMovesListings(v: View, touched: seq<Id>, nodes: seq<Id>, groups: seq<seq<Id>>, oldKeys: map<Id, Key>,
      now: int, start: Rows, middle: Rows, end: Rows, placed: set<Id>)
    requires forall x :: x in nodes <==> Reached(v.links, touched, x)
    requires forall x :: x in placed <==> x in nodes && Placed(v, x)
    requires IsActiveKeys(start.members, nodes, oldKeys)
    requires Midway(v, groups, |groups|, start.members, middle.members, placed, now)
    requires FlagsMidway(v, start.flags, middle.flags, placed)
    requires LeftoversClosed(oldKeys, placed, now, middle, end)
    ensures forall x {:trigger Reached(v.links, touched, x)} ::
              if Reached(v.links, touched, x) then ListingRecomputed(v, now, start, end, x) else ListingKept(start, end, x)
  {
    forall x ensures if Reached(v.links, touched, x) then ListingRecomputed(v, now, start, end, x)
        else ListingKept(start, end, x)
    {
      if x in nodes {
        ListingPasses(v, nodes, groups, oldKeys, now, start, middle, end, placed, x);
      } else {
        assert x !in placed && SameFor(start.members, middle.members, x) && SameFlag(start.flags, middle.flags, x);
        assert x !in oldKeys && ListingKept(middle, end, x);
        KeptTwice(start, middle, end, x);
      }
    }
  }

  lemma UpsertedAreGains(v: View, touched: seq<Id>, nodes: seq<Id>, placed: set<Id>, k: Key)
    requires forall x :: x in nodes <==> Reached(v.links, touched, x)
    requires forall x :: x in placed <==> x in nodes && Placed(v, x)
    ensures Upserted(v, placed, k) <==> Gains(v, touched, k)
  {
    if Gains(v, touched, k) {
      var x :| Reached(v.links, touched, x) && Belongs(v, x, k);
      assert x in placed;
    }
    if Upserted(v, placed, k) {
      var x :| x in placed && Belongs(v, x, k);
      assert Reached(v.links, touched, x);
    }
  }

  lemma OldKeysAreVisits(v: View, touched: seq<Id>, nodes: seq<Id>, oldKeys: map<Id, Key>, members: Members, k: Key)
    requires forall x :: x in nodes <==> Reached(v.links, touched, x)
    requires IsActiveKeys(members, nodes, oldKeys)
    ensures k in oldKeys.Values <==> Visits(v, touched, members, k)
  {
    if k in oldKeys.Values {
      var x :| x in oldKeys && oldKeys[x] == k;
      assert ActiveAs(members, oldKeys, x) && Active(members, k, x);
      assert Reached(v.links, touched, x);
    }
    if Visits(v, touched, members, k) {
      var x :| Reached(v.links, touched, x) && Active(members, k, x);
      assert ActiveAs(members, oldKeys, x);
    }
  }

  lemma PassMovesClusters(v: View, touched: seq<Id>, nodes: seq<Id>, oldKeys: map<Id, Key>,
      now: int, start: Rows, middle: Rows, end: Rows, placed: set<Id>)
    requires forall x :: x in nodes <==> Reached(v.links, touched, x)
    requires forall x :: x in placed <==> x in nodes && Placed(v, x)
    requires IsActiveKeys(start.members, nodes, oldKeys)
    requires StatusMidway(v, start.status, middle.status, placed)
    requires forall k :: StatusExpired(end.members, oldKeys.Values, middle.status, end.status, k)
    requires forall x {:trigger Reached(v.links, touched, x)} | Reached(v.links, touched, x) :: AsFromScratch(v, end.members, x)
    ensures forall k :: ClusterRecomputed(v, touched, start, end, k)
  {
    forall k ensures ClusterRecomputed(v, touched, start, end, k) {
      UpsertedAreGains(v, touched, nodes, placed, k);
      OldKeysAreVisits(v, touched, nodes, oldKeys, start.members, k);
      assert StatusExpired(end.members, oldKeys.Values, middle.status, end.status, k);
      if Gains(v, touched, k) {
        var x :| Reached(v.links, touched, x) && Belongs(v, x, k);
        assert AsFromScratch(v, end.members, x) && Active(end.members, k, x);
      } else {
        assert SameStatus(start.status, middle.status, k);
      }
    }
  }

  lemma ChangedIsExact(v: View, touched: seq<Id>, nodes: seq<Id>, oldKeys: map<Id, Key>, members: Members, placed: set<Id>)
    requires forall x :: x in nodes <==> Reached(v.links, touched, x)
    requires forall x :: x in placed <==> x in nodes && Placed(v, x)
    requires IsActiveKeys(members, nodes, oldKeys)
    ensures forall x :: x in placed || (x in oldKeys && x !in placed)
              <==> Reached(v.links, touched, x) && (Placed(v, x) || HadCluster(members, x))
  {
    forall x | x in nodes ensures HadCluster(members, x) <==> x in oldKeys {
      HadTheOldKey(nodes, oldKeys, members, x);
    }
  }

  // ------------------------------------------------------------------------------------------
  // What a pass keeps
  // ------------------------------------------------------------------------------------------

  /** Every active membership in reach is in the cluster of the earliest unsuppressed listing chained to it. */
  ghost predicate AllKeyedByEarliest(v: View, touched: seq<Id>, members: Members) {
    forall x, k | Reached(v.links, touched, x) && Active(members, k, x) :: KeyedByEarliest(v, x, k)
  }

  /** After a pass every active membership in reach is in the cluster of the earliest listing chained to it. */
  lemma ReachedAreKeyed(v: View, touched: seq<Id>, now: int, before: Rows, after: Rows, changed: set<Id>)
    requires Recomputed(v, touched, now, before, after, changed)
    ensures AllKeyedByEarliest(v, touched, after.members)
  {
    forall x, k | Reached(v.links, touched, x) && Active(after.members, k, x) ensures KeyedByEarliest(v, x, k) {
      assert ListingRecomputed(v, now, before, after, x);
      ClusterIsKeyedByEarliest(v, x, k);
    }
  }

  /** No listing ever holds two active memberships. */
  lemma RecomputeKeepsOneActive(v: View, touched: seq<Id>, now: int, before: Rows, after: Rows, changed: set<Id>)
    requires Recomputed(v, touched, now, before, after, changed) && OneActive(before.members)
    ensures OneActive(after.members)
  {
    forall k, k', x | Active(after.members, k, x) && Active(after.members, k', x) ensures k == k' {
      if Reached(v.links, touched, x) {
        assert ListingRecomputed(v, now, before, after, x);
        BelongsOnce(v, x, k, k');
      } else {
        assert ListingKept(before, after, x);
        assert SameRow(before.members, after.members, k, x) && SameRow(before.members, after.members, k', x);
        assert Active(before.members, k, x) && Active(before.members, k', x);
      }
    }
  }

  /** A flag stands exactly for an active membership, and names its cluster. */
  ghost predicate FlagsFollow(rows: Rows) {
    forall x {:trigger FlagFollows(rows, x)} :: FlagFollows(rows, x)
  }

  ghost predicate FlagFollows(rows: Rows, x: Id) {
    forall k {:trigger Active(rows.members, k, x)} :: Active(rows.members, k, x) <==> x in rows.flags && rows.flags[x] == k
  }

  /** A cluster is live exactly while it has an active member. */
  ghost predicate LiveFollow(rows: Rows) {
    forall k {:trigger HasMember(rows.members, k)} ::
      (k in rows.status && rows.status[k] == Live) <==> HasMember(rows.members, k)
  }

  lemma RecomputeKeepsFlags(v: View, touched: seq<Id>, now: int, before: Rows, after: Rows, changed: set<Id>)
    requires Recomputed(v, touched, now, before, after, changed) && FlagsFollow(before)
    ensures FlagsFollow(after)
  {
    forall x, k ensures Active(after.members, k, x) <==> x in after.flags && after.flags[x] == k {
      assert FlagFollows(before, x);
      if Reached(v.links, touched, x) {
        assert ListingRecomputed(v, now, before, after, x);
        assert Active(after.members, k, x) <==> Belongs(v, x, k);
        if Placed(v, x) {
          if Belongs(v, x, k) { BelongsOnce(v, x, k, after.flags[x]); }
        } else {
          assert !Belongs(v, x, k);
          if x in before.flags { assert Active(before.members, before.flags[x], x); }
        }
      } else {
        assert ListingKept(before, after, x);
        assert SameRow(before.members, after.members, k, x);
        assert Active(before.members, k, x) <==> Active(after.members, k, x);
      }
    }
  }

  lemma MembersComeOrStay(v: View, touched: seq<Id>, now: int, before: Rows, after: Rows, changed: set<Id>, k: Key)
    requires Recomputed(v, touched, now, before, after, changed)
    ensures HasMember(after.members, k) ==> Gains(v, touched, k) || HasMember(before.members, k)
    ensures Gains(v, touched, k) ==> HasMember(after.members, k)
    ensures HasMember(before.members, k) && !Visits(v, touched, before.members, k) ==> HasMember(after.members, k)
  {
    if x :| Active(after.members, k, x) {
      if Reached(v.links, touched, x) {
        assert ListingRecomputed(v, now, before, after, x) && Belongs(v, x, k);
      } else {
        assert ListingKept(before, after, x) && SameRow(before.members, after.members, k, x);
        assert Active(before.members, k, x);
      }
    }
    if x :| Reached(v.links, touched, x) && Belongs(v, x, k) {
      assert ListingRecomputed(v, now, before, after, x) && Active(after.members, k, x);
    }
    if x :| Active(before.members, k, x) {
      if !Reached(v.links, touched, x) {
        assert ListingKept(before, after, x) && SameRow(before.members, after.members, k, x);
        assert Active(after.members, k, x);
      }
    }
  }

  lemma RecomputeKeepsLive(v: View, touched: seq<Id>, now: int, before: Rows, after: Rows, changed: set<Id>)
    requires Recomputed(v, touched, now, before, after, changed) && LiveFollow(before)
    ensures LiveFollow(after)
  {
    forall k ensures (k in after.status && after.status[k] == Live) <==> HasMember(after.members, k) {
      MembersComeOrStay(v, touched, now, before, after, changed, k);
      assert ClusterRecomputed(v, touched, before, after, k);
      assert (k in before.status && before.status[k] == Live) <==> HasMember(before.members, k);
      if Visits(v, touched, before.members, k) {
        var x :| Reached(v.links, touched, x) && Active(before.members, k, x);
      }
    }
  }

  /** One listing's membership and flag after any number of passes: those of a pass that reached it, or as they were. */
  ghost predicate ListingEnds(v: View, reached: bool, before: Rows, after: Rows, x: Id) {
    if reached then
      && AsFromScratch(v, after.members, x)
      && if Placed(v, x) then x in after.flags && Belongs(v, x, after.flags[x])
         else if HadCluster(before.members, x) then x !in after.flags
         else SameFlag(before.flags, after.flags, x)
    else ListingKept(before, after, x)
  }

  /** Two passes, over any seeds, leave memberships and flags as one pass over all the seeds together. */
  lemma TwoPassesAreOne(v: View, first: seq<Id>, second: seq<Id>, t1: int, t2: int,
      before: Rows, middle: Rows, after: Rows, c1: set<Id>, c2: set<Id>, x: Id)
    requires Recomputed(v, first, t1, before, middle, c1) && Recomputed(v, second, t2, middle, after, c2)
    ensures ListingEnds(v, Reached(v.links, first + second, x), before, after, x)
  {
    assert Reached(v.links, first + second, x) <==> Reached(v.links, first, x) || Reached(v.links, second, x) by {
      if t :| t in first && Connected(v.links, t, x) { assert t in first + second; }
      if t :| t in second && Connected(v.links, t, x) { assert t in first + second; }
    }
    if Reached(v.links, first, x) {
      assert ListingRecomputed(v, t1, before, middle, x);
      if Reached(v.links, second, x) {
        assert ListingRecomputed(v, t2, middle, after, x);
        if HadCluster(middle.members, x) { var k :| Active(middle.members, k, x); }
      } else {
        assert ListingKept(middle, after, x);
        forall k ensures Active(after.members, k, x) <==> Belongs(v, x, k) {
          assert SameRow(middle.members, after.members, k, x);
          assert Active(middle.members, k, x) <==> Belongs(v, x, k);
        }
      }
    } else {
      assert ListingKept(before, middle, x);
      if Reached(v.links, second, x) {
        assert ListingRecomputed(v, t2, middle, after, x);
        forall k ensures Active(before.members, k, x) <==> Active(middle.members, k, x) {
          assert SameRow(before.members, middle.members, k, x);
        }
        assert HadCluster(before.members, x) <==> HadCluster(middle.members, x);
      } else {
        assert ListingKept(middle, after, x);
        KeptTwice(before, middle, after, x);
      }
    }
  }

  /** A pass over listings already recomputed changes no row at all. */
  lemma SecondPassChangesNothing(v: View, first: seq<Id>, second: seq<Id>, t1: int, t2: int,
      before: Rows, middle: Rows, after: Rows, c1: set<Id>, c2: set<Id>)
    requires Recomputed(v, first, t1, before, middle, c1) && Recomputed(v, second, t2, middle, after, c2)
    requires forall x | Reached(v.links, second, x) :: Reached(v.links, first, x)
    ensures forall x :: ListingKept(middle, after, x)
    ensures forall k :: SameStatus(middle.status, after.status, k)
  {
    forall x | Reached(v.links, second, x) ensures ListingKept(middle, after, x) {
      assert ListingRecomputed(v, t1, before, middle, x) && ListingRecomputed(v, t2, middle, after, x);
      forall k ensures SameRow(middle.members, after.members, k, x) {
        assert Active(middle.members, k, x) <==> Belongs(v, x, k);
        assert RowMoves(middle.members, after.members, k, x, t2);
      }
      if Placed(v, x) {
        BelongsOnce(v, x, middle.flags[x], after.flags[x]);
      } else {
        forall k ensures !Active(middle.members, k, x) { assert !Belongs(v, x, k); }
      }
    }
    forall x | !Reached(v.links, second, x) ensures ListingKept(middle, after, x) {
    }
    forall k ensures SameStatus(middle.status, after.status, k) {
      assert ClusterRecomputed(v, first, before, middle, k) && ClusterRecomputed(v, second, middle, after, k);
      if x :| Reached(v.links, second, x) && Belongs(v, x, k) {
        assert Gains(v, first, k);
      }
      if x :| Reached(v.links, second, x) && Active(middle.members, k, x) {
        assert ListingKept(middle, after, x) && SameRow(middle.members, after.members, k, x);
        assert Active(after.members, k, x);
      }
    }
  }

  // ------------------------------------------------------------------------------------------
  // The daily expiry
  // ------------------------------------------------------------------------------------------

  /** The whole effect of `expireWindow`: the expired rows closed, then a pass around their listings. */
  ghost predicate WindowExpired(v: View, expired: seq<Membership>, now: int, before: Rows, after: Rows, changed: set<Id>) {
    exists members: Members ::
      && MembersClosed(before.members, expired, now, members)
      && Recomputed(v, ListingsOf(expired), now, before.(members := members), after, changed)
  }

  lemma ExpiredIsReached(v: View, expired: seq<Membership>, m: Membership)
    requires m in expired
    ensures Reached(v.links, ListingsOf(expired), m.listing)
  {
    var i :| 0 <= i < |expired| && expired[i] == m;
    assert ListingsOf(expired)[i] in ListingsOf(expired);
    ConnectedSelf(v.links, m.listing);
  }

  lemma ExpiredIsClosed(before: Members, expired: seq<Membership>, now: int, closed: Members, m: Membership)
    requires OneActive(before) && Active(before, m.cluster, m.listing) && m in expired
    requires MembersClosed(before, expired, now, closed)
    ensures !HadCluster(closed, m.listing)
  {
    forall k ensures !Active(closed, k, m.listing) {
      assert m == Membership(m.cluster, m.listing);
      assert Active(before, k, m.listing) ==> k == m.cluster;
    }
  }

  /** An expired member is back in a cluster exactly when its links still place it, and otherwise its flag is stale. */
  lemma ExpiryLastsExactlyWhenUnplaced(v: View, expired: seq<Membership>, now: int, before: Rows, after: Rows,
      changed: set<Id>, m: Membership)
    requires WindowExpired(v, expired, now, before, after, changed) && OneActive(before.members) && FlagsFollow(before)
    requires m in expired && Active(before.members, m.cluster, m.listing)
    ensures HadCluster(after.members, m.listing) <==> Placed(v, m.listing)
    ensures FlagFollows(after, m.listing) <==> Placed(v, m.listing)
    ensures !Placed(v, m.listing) ==> m.listing in after.flags && after.flags[m.listing] == m.cluster
  {
    var x := m.listing;
    var closed: Members :| MembersClosed(before.members, expired, now, closed)
      && Recomputed(v, ListingsOf(expired), now, before.(members := closed), after, changed);
    ExpiredIsReached(v, expired, m);
    ExpiredIsClosed(before.members, expired, now, closed, m);
    assert ListingRecomputed(v, now, before.(members := closed), after, x) && FlagFollows(before, x);
    if Placed(v, x) {
      var k :| Belongs(v, x, k);
      assert Active(after.members, k, x);
      forall k' | Active(after.members, k', x) ensures k' == after.flags[x] {
        BelongsOnce(v, x, k', after.flags[x]);
      }
    } else {
      assert x in after.flags && after.flags[x] == m.cluster;
      assert !Active(after.members, m.cluster, x);
    }
  }

  /** Two listings joined by one confirmed link, nothing suppressed: both belong to the cluster of the first. */
  lemma PairIsPlaced(v: View, a: Id, b: Id)
    requires a == Id("a") && b == Id("b") && v == View([Link(a, b)], {}, map[])
    ensures Belongs(v, a, Key("a")) && Belongs(v, b, Key("a"))
  {
    ConnectedStep(v.links, a, b);
    ConnectedStep(v.links, b, a);
    ConnectedSelf(v.links, a);
    ConnectedSelf(v.links, b);
    assert Peer(v, a, b) && Peer(v, a, a);
    forall y | Peer(v, a, y) ensures !Earlier(v.Of(y), v.Of(a)) {
      var p :| Leads(v.links, a, p, y);
      StaysInPair(v, a, b, a, p, y);
    }
    assert Head(v, a, a);
    PeersShareTheirCluster(v, a, b, Key("a"));
  }

  lemma {:induction false} StaysInPair(v: View, a: Id, b: Id, x: Id, p: seq<Id>, y: Id)
    requires v.links == [Link(a, b)] && (x == a || x == b) && Leads(v.links, x, p, y)
    ensures y == a || y == b
    decreases |p|
  {
    if p != [] { StaysInPair(v, a, b, p[0], p[1..], y); }
  }

  /** Both members of a linked pair are past the window: closed and put back at once, the tables end as they were. */
  lemma LinkedPairComesBack(now: int, before: Rows, after: Rows, changed: set<Id>)
    requires var a, b, k := Id("a"), Id("b"), Key("a");
      && before == Rows(map[Membership(k, a) := None, Membership(k, b) := None], map[k := Live], map[a := k, b := k])
      && WindowExpired(View([Link(a, b)], {}, map[]), [Membership(k, a), Membership(k, b)], now, before, after, changed)
    ensures after == before
  {
    var a, b, k := Id("a"), Id("b"), Key("a");
    var v, expired := View([Link(a, b)], {}, map[]), [Membership(k, a), Membership(k, b)];
    var members: Members :| MembersClosed(before.members, expired, now, members)
      && Recomputed(v, ListingsOf(expired), now, before.(members := members), after, changed);
    assert ListingsOf(expired) == [a, b];
    PairMembersReturn(v, a, b, k, now, before.(members := members), after, changed);
    PairStatusReturns(v, a, b, k, now, before.(members := members), after, changed);
    forall m ensures m in after.members <==> m in before.members {
      assert m == Membership(m.cluster, m.listing);
      assert SameRow(members, after.members, m.cluster, m.listing) || m in before.members;
    }
    assert after.members == before.members;
    forall x
      ensures (x in after.flags <==> x in before.flags) && (x in before.flags ==> after.flags[x] == before.flags[x])
    {
      assert SameFlag(before.flags, after.flags, x);
    }
    assert after.flags == before.flags;
    forall c
      ensures (c in after.status <==> c in before.status) && (c in before.status ==> after.status[c] == before.status[c])
    {
      assert SameStatus(before.status, after.status, c);
    }
    assert after.status == before.status;
  }

  lemma ReachedInPair(v: View, a: Id, b: Id, x: Id)
    requires v.links == [Link(a, b)]
    ensures Reached(v.links, [a, b], x) <==> x == a || x == b
  {
    ConnectedSelf(v.links, x);
    assert x == a || x == b ==> x in [a, b];
    if Reached(v.links, [a, b], x) {
      var t :| t in [a, b] && Connected(v.links, t, x);
      var p :| Leads(v.links, t, p, x);
      StaysInPair(v, a, b, t, p, x);
    }
  }

  lemma PairMembersReturn(v: View, a: Id, b: Id, k: Key, now: int, closed: Rows, after: Rows, changed: set<Id>)
    requires a == Id("a") && b == Id("b") && k == Key("a") && v == View([Link(a, b)], {}, map[])
    requires Recomputed(v, [a, b], now, closed, after, changed)
    requires closed.members == map[Membership(k, a) := Some(now), Membership(k, b) := Some(now)]
    requires closed.flags == map[a := k, b := k]
    ensures Active(after.members, k, a) && Active(after.members, k, b)
    ensures forall c, x :: SameRow(closed.members, after.members, c, x) || (c == k && (x == a || x == b))
    ensures forall x :: SameFlag(closed.flags, after.flags, x)
  {
    PairIsPlaced(v, a, b);
    forall x ensures SameFlag(closed.flags, after.flags, x) && (x == a || x == b ==> Active(after.members, k, x)) {
      ReachedInPair(v, a, b, x);
      if x == a || x == b {
        assert ListingRecomputed(v, now, closed, after, x);
        BelongsOnce(v, x, k, after.flags[x]);
        assert Active(after.members, k, x) <==> Belongs(v, x, k);
      } else {
        assert ListingKept(closed, after, x);
      }
    }
    forall c, x ensures SameRow(closed.members, after.members, c, x) || (c == k && (x == a || x == b)) {
      ReachedInPair(v, a, b, x);
      if x == a || x == b {
        assert ListingRecomputed(v, now, closed, after, x) && RowMoves(closed.members, after.members, c, x, now);
        if Active(after.members, c, x) { BelongsOnce(v, x, c, k); }
      } else {
        assert ListingKept(closed, after, x);
      }
    }
  }

  lemma PairStatusReturns(v: View, a: Id, b: Id, k: Key, now: int, closed: Rows, after: Rows, changed: set<Id>)
    requires a == Id("a") && b == Id("b") && k == Key("a") && v == View([Link(a, b)], {}, map[])
    requires Recomputed(v, [a, b], now, closed, after, changed) && closed.status == map[k := Live]
    ensures forall c :: SameStatus(closed.status, after.status, c)
  {
    PairIsPlaced(v, a, b);
    forall c ensures SameStatus(closed.status, after.status, c) {
      assert ClusterRecomputed(v, [a, b], closed, after, c);
      ReachedInPair(v, a, b, a);
      assert Gains(v, [a, b], k);
      if Gains(v, [a, b], c) {
        var x :| Reached(v.links, [a, b], x) && Belongs(v, x, c);
        ReachedInPair(v, a, b, x);
        BelongsOnce(v, x, c, k);
      }
    }
  }

  /** A member left without links is past the window: its row is stamped, and its flag still names the cluster. */
  lemma UnplacedFlagStays(now: int, before: Rows, after: Rows, changed: set<Id>)
    requires var a, k := Id("a"), Key("a");
      && before == Rows(map[Membership(k, a) := None], map[k := Live], map[a := k])
      && WindowExpired(View([], {}, map[]), [Membership(k, a)], now, before, after, changed)
    ensures Membership(Key("a"), Id("a")) in after.members && after.members[Membership(Key("a"), Id("a"))] == Some(now)
    ensures Id("a") in after.flags && after.flags[Id("a")] == Key("a")
  {
    var a, k := Id("a"), Key("a");
    var v, m := View([], {}, map[]), Membership(k, a);
    var closed: Members :| MembersClosed(before.members, [m], now, closed)
      && Recomputed(v, ListingsOf([m]), now, before.(members := closed), after, changed);
    ExpiredIsReached(v, [m], m);
    assert m in before.members && closed[m] == Some(now);
    assert ListingRecomputed(v, now, before.(members := closed), after, a);
    forall y | Connected(v.links, a, y) ensures y == a {
      var p :| Leads(v.links, a, p, y);
    }
    assert !HasOther(v, a) && !Placed(v, a);
    assert RowMoves(closed, after.members, k, a, now) && !Active(after.members, k, a);
    assert !HadCluster(closed, a);
  }
}
