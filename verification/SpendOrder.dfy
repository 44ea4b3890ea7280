/**
 * What the ledger's operations mean on the bucket and entry rows themselves: which bucket a charge spends first, what a
 * grant opens, and what a replay is answered.
 */
module SpendOrder {
  import opened Common
  import opened Sorting
  import opened Ledger
  import opened LedgerSafety
  import opened BalanceReport

  // ------------------------------------------------------------------------------------------
  // What a charge spends first
  // ------------------------------------------------------------------------------------------

  predicate SameClass(x: Kind, y: Kind) {
    (x.Allowance? <==> y.Allowance?) && (x.Topup? <==> y.Topup?)
  }

  /**
   * Bucket `xi` may be spent before `yi`: allowance before taste and referral before top-up; within a class the sooner to
   * expire, never-expiring last; then the older; then the lower id.
   */
  predicate SpentNoLater(x: Bucket, xi: nat, y: Bucket, yi: nat) {
    && (y.kind.Allowance? ==> x.kind.Allowance?)
    && (x.kind.Topup? ==> y.kind.Topup?)
    && (SameClass(x.kind, y.kind) ==>
          && (y.expiresAt.Some? ==> x.expiresAt.Some? && x.expiresAt.value <= y.expiresAt.value)
          && (x.expiresAt == y.expiresAt ==>
                x.createdAt <= y.createdAt && (x.createdAt == y.createdAt ==> xi <= yi)))
  }

  lemma NotBeforeIsSpentNoLater(l: Book, x: nat, y: nat)
    requires Valid(l) && x in l.buckets && y in l.buckets && !Before(LiveOf(l, y), LiveOf(l, x))
    ensures SpentNoLater(l.buckets[x], x, l.buckets[y], y)
  {
    assert BucketOk(l, x) && BucketOk(l, y);
  }

  /** A bucket that lost credit to a charge is one its plan names, in its place in the spend order. */
  lemma DrawnByThePlan(l: Book, c: ChargeInput, switch: Switch, active: bool, at: int, b: nat) returns (k: nat)
    requires Valid(l) && b in l.buckets
    requires RemainingOf(ChargeStep(l, c, switch, active, at).0, b) < l.buckets[b].remaining
    ensures var s := LiveBuckets(l, c.user, at); var plan := Take(s, c.credits);
      && k < |plan| <= |s| && plan[k].bucket == b && s[k] == LiveOf(l, b) && Holds(l, c.user, at, b)
      && c.credits <= Balance(l, c.user, at)
      && ChargeStep(l, c, switch, active, at).0 == Post(l, ChargeEntry(c, at), AsMoves(plan))
  {
    ChargeWritesAllOrNothing(l, c, switch, active, at);
    var s := LiveBuckets(l, c.user, at);
    var plan := Take(s, c.credits);
    DrawnBucketsAreLive(l, c.user, at, c.credits);
    MovesAreThePlan(plan);
    LiveBucketsAre(l, c.user, at);
    k :| 0 <= k < |plan| && plan[k].bucket == b;
    assert s[k] in s;
  }

  /**
   * A charge that takes credit out of one bucket and leaves credit in another the user could have spent has taken it in
   * order, out of a bucket the user could spend.
   */
  lemma ChargeSpendsInOrder(l: Book, c: ChargeInput, switch: Switch, active: bool, at: int, b: nat, other: nat)
    requires Valid(l) && b in l.buckets
    requires RemainingOf(ChargeStep(l, c, switch, active, at).0, b) < l.buckets[b].remaining
    ensures Holds(l, c.user, at, b)
    ensures b != other && Holds(ChargeStep(l, c, switch, active, at).0, c.user, at, other) ==>
              other in l.buckets && SpentNoLater(l.buckets[b], b, l.buckets[other], other)
  {
    var k := DrawnByThePlan(l, c, switch, active, at, b);
    if b != other && Holds(ChargeStep(l, c, switch, active, at).0, c.user, at, other) {
      LeftBehind(l, c, at, k, other);
      NotBeforeIsSpentNoLater(l, b, other);
    }
  }

  lemma LeftBehind(l: Book, c: ChargeInput, at: int, k: nat, other: nat)
    requires Valid(l) && c.credits <= Balance(l, c.user, at)
    requires var plan := Take(LiveBuckets(l, c.user, at), c.credits);
      k < |plan| && plan[k].bucket != other
      && Holds(Post(l, ChargeEntry(c, at), AsMoves(plan)), c.user, at, other)
    ensures other in l.buckets && k < |LiveBuckets(l, c.user, at)|
    ensures var s := LiveBuckets(l, c.user, at);
      s[k] in s && s[k].id in l.buckets && s[k] == LiveOf(l, s[k].id) && !Before(LiveOf(l, other), s[k])
      && s[k].id == Take(s, c.credits)[k].bucket
  {
    var s := LiveBuckets(l, c.user, at);
    var plan := Take(s, c.credits);
    DrawnBucketsAreLive(l, c.user, at, c.credits);
    MovesAreThePlan(plan);
    LiveBucketsAreTheBalance(l, c.user, at);
    LiveBucketsAre(l, c.user, at);
    assert s[k] in s;
    if other in AsMoves(plan) {
      var m :| 0 <= m < |plan| && plan[m].bucket == other;
      assert plan[m] in plan;
    }
    assert Holds(l, c.user, at, other);
    var j :| 0 <= j < |s| && s[j] == LiveOf(l, other);
    assert forall m | 0 <= m < k :: plan[m].bucket == s[m].id && -plan[m].credits == s[m].remaining;
    assert j != k;
  }

  // ------------------------------------------------------------------------------------------
  // Grants and replays
  // ------------------------------------------------------------------------------------------

  /** A bucket holding all of a new grant, under the entry that records it, both as asked. */
  ghost predicate Opened(l: Book, l': Book, g: GrantInput, credits: int, policyVersion: string, now: int) {
    var n := |l.entries|;
    && |l'.entries| == n + 1 && l'.entries[..n] == l.entries && l'.allocations == l.allocations
    && l'.entries[n]
       == Entry(g.user, g.kind, credits, "", Given(g.ref), None, g.cash, 0, g.expiresAt, policyVersion, now)
    && n in l'.buckets && l'.buckets == l.buckets[n := l'.buckets[n]]
    && l'.buckets[n] == Bucket(g.user, g.kind, credits, credits, g.expiresAt, now)
  }

  /** A grant whose reference is new opens its bucket as asked; again with the same details it changes nothing. */
  lemma GrantOpensOnce(l: Book, g: GrantInput, now: int, again: GrantInput, later: int)
    requires Find(l.entries, g.user, g.kind, Given(g.ref)).None?
    requires again.user == g.user && again.kind == g.kind && again.ref == g.ref
    ensures var (l', r) := GrantStep(l, g, now);
      && r == Ok(Written(|l.entries|, true)) && Opened(l, l', g, g.credits, "", now)
      && GrantStep(l', again, later) ==
           if again.credits == g.credits && again.cash == g.cash && again.expiresAt == g.expiresAt
           then (l', Ok(Written(|l.entries|, false))) else (l', Err(Mismatch))
  {
  }

  /** A grant by policy is worth what the quote says; a replay keeps that, whatever the policy says by then. */
  lemma PolicyGrantOpensOnce(l: Book, g: GrantInput, quote: Quote, now: int, again: GrantInput, other: Option<Quote>, later: int)
    requires Find(l.entries, g.user, g.kind, Given(g.ref)).None?
    requires again.user == g.user && again.kind == g.kind && again.ref == g.ref
    ensures PolicyGrantStep(l, g, None, now) == (l, Err(NoPolicy))
    ensures var (l', r) := PolicyGrantStep(l, g, Some(quote), now);
      && r == Ok(Written(|l.entries|, true)) && Opened(l, l', g, quote.credits, quote.policyVersion, now)
      && PolicyGrantStep(l', again, other, later) ==
           if again.cash == g.cash && again.expiresAt == g.expiresAt
           then (l', Ok(Written(|l.entries|, false))) else (l', Err(Mismatch))
  {
  }

  /** A new charge the balance covers is recorded as asked, under the next entry. */
  lemma ChargeIsRecorded(l: Book, c: ChargeInput, at: int)
    requires Valid(l) && Find(l.entries, c.user, Charge, Given(c.ref)).None? && c.credits <= Balance(l, c.user, at)
    ensures var (l', r) := ChargeStep(l, c, On, true, at);
      && r == Ok(Charged(|l.entries|, true, Balance(l, c.user, at) - c.credits))
      && l'.entries
         == l.entries + [Entry(c.user, Charge, -(c.credits as int), c.action, Given(c.ref), None, 0, c.cost, None, "", at)]
  {
    ChargeWritesAllOrNothing(l, c, On, true, at);
  }

  /** A recorded charge is answered the same when it comes again, with the balance then; refused with other details. */
  lemma ChargeAgain(l: Book, i: nat, again: ChargeInput, later: int)
    requires Valid(l) && i < |l.entries| && l.entries[i].kind == Charge
    requires again.user == l.entries[i].user && Given(again.ref) == l.entries[i].ref
    ensures ChargeStep(l, again, On, true, later).0 == l
    ensures ChargeStep(l, again, On, true, later).1 ==
      if !(l.entries[i].credits == -(again.credits as int) && l.entries[i].action == again.action
           && l.entries[i].cost == again.cost) then Err(Mismatch)
      else if exists r :: 0 <= r < |l.entries| && l.entries[r].reverses == Some(i) then Err(WasReversed)
      else Ok(Charged(i, false, Balance(l, again.user, later)))
  {
    LiveBucketsAreTheBalance(l, again.user, later);
    FindIsUnique(l, i);
  }

  /** What refuses a charge before anything is read, in this order. */
  lemma ChargeIsRefused(l: Book, c: ChargeInput, switch: Switch, active: bool, at: int)
    requires Valid(l)
    ensures !switch.On? ==> ChargeStep(l, c, switch, active, at) == (l, Err(IsOff))
    ensures switch.On? && c.credits > 0 && !active ==> ChargeStep(l, c, switch, active, at) == (l, Err(AccountInactive))
    ensures switch.On? && c.credits == 0 ==> ChargeStep(l, c, switch, active, at) == ChargeStep(l, c, switch, true, at)
  {
  }

  /** A reversal records its charge's amount back, under the charge's reference. */
  lemma ReversalRecords(l: Book, user: string, ref: string, at: int, c: nat)
    requires Find(l.entries, user, Charge, Given(ref)) == Some(c) && FindReversal(l.entries, c).None?
    ensures var (l', r) := ReverseStep(l, user, ref, at); var n := |l.entries|;
      && r == Ok(Written(n, true)) && |l'.entries| == n + 1 && l'.entries[..n] == l.entries
      && l'.entries[n] == Entry(user, Reversal, -l.entries[c].credits, "", Given(ref), Some(c), 0, 0, None, "", at)
  {
  }

  /** Reversing again writes nothing and names the first reversal. */
  lemma ReversedAgain(l: Book, user: string, ref: string, c: nat, r: nat, later: int)
    requires Valid(l) && c < |l.entries| && r < |l.entries|
    requires Matches(l.entries[c], user, Charge, Given(ref)) && l.entries[r].reverses == Some(c)
    ensures ReverseStep(l, user, ref, later) == (l, Ok(Written(r, false)))
  {
    FindIsUnique(l, c);
    assert FindReversal(l.entries, c).Some?;
  }

  /** The sweep closes a bucket at or after its expiry and not before, while it holds credit, and once. */
  lemma SweepClosesExactlyWhen(l: Book, b: nat, now: int)
    requires Valid(l)
    ensures CloseStep(l, b, now).1 <==>
      && b in l.buckets && l.buckets[b].remaining > 0
      && l.buckets[b].expiresAt.Some? && l.buckets[b].expiresAt.value <= now
      && forall i | 0 <= i < |l.entries| ::
           !(l.entries[i].user == l.buckets[b].user && l.entries[i].kind == Expiry && l.entries[i].ref == OfBucket(b))
    ensures !CloseStep(l, b, now).1 ==> CloseStep(l, b, now).0 == l
  {
    if b in l.buckets { assert BucketOk(l, b); }
  }

  /** Closing records what the bucket held, and empties it and no other. */
  lemma SweepTakesWhatIsLeft(l: Book, b: nat, now: int)
    requires CloseStep(l, b, now).1
    ensures b in l.buckets
    ensures var l' := CloseStep(l, b, now).0; var n := |l.entries|;
      && |l'.entries| == n + 1 && l'.entries[..n] == l.entries && l'.buckets.Keys == l.buckets.Keys
      && l'.entries[n]
         == Entry(l.buckets[b].user, Expiry, -l.buckets[b].remaining, "", OfBucket(b), None, 0, 0, None, "", now)
      && forall d | d in l.buckets :: l'.buckets[d] == if d == b then l.buckets[b].(remaining := 0) else l.buckets[d]
  {
  }
}
