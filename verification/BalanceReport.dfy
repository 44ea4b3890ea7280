/** The balance a user sees (services/usage-ledger, `getBalance`): its total, its parts, and when it next falls. */
module BalanceReport {
  import opened Common
  import opened Sorting
  import opened Ledger
  import opened LedgerSafety

  datatype Report = Report(credits: int, allowance: int, tasteReferral: int, topup: int, nextExpiryAt: Option<int>)

  /** Credits held in buckets whose kind has this spend rank. */
  function HeldAt(s: seq<Live>, rank: nat): int {
    if s == [] then 0 else HeldAt(s[1..], rank) + if Rank(s[0].kind) == rank then s[0].remaining else 0
  }

  /** The earliest expiry among these buckets. */
  function NextExpiry(s: seq<Live>): (at: Option<int>)
    ensures at.Some? ==> exists y | y in s :: y.expiresAt == at
    ensures forall y | y in s && y.expiresAt.Some? :: at.Some? && at.value <= y.expiresAt.value
  {
    if s == [] then None else
      var rest := NextExpiry(s[1..]);
      if s[0].expiresAt.Some? && (rest.None? || s[0].expiresAt.value < rest.value) then
        (assert s[0] in s; s[0].expiresAt)
      else rest
  }

  /** Every bucket is in exactly one part. */
  lemma {:induction false} PartsAddUp(s: seq<Live>)
    ensures HeldAt(s, 1) + HeldAt(s, 2) + HeldAt(s, 3) == Total(s)
  {
    if s != [] { PartsAddUp(s[1..]); }
  }

  // ------------------------------------------------------------------------------------------
  // Credit a user can spend
  // ------------------------------------------------------------------------------------------

  /** The user's bucket, holding credit, not expired at `now`: an expiry at `now` itself has passed. */
  ghost predicate Holds(l: Book, user: string, now: int, b: nat) {
    && b in l.buckets && l.buckets[b].user == user && l.buckets[b].remaining > 0
    && (l.buckets[b].expiresAt.None? || now < l.buckets[b].expiresAt.value)
  }

  function LiveOf(l: Book, b: nat): Live
    requires b in l.buckets
  {
    Live(b, l.buckets[b].kind, l.buckets[b].remaining, l.buckets[b].expiresAt, l.buckets[b].createdAt)
  }

  lemma {:induction false} LiveBelowAre(l: Book, user: string, now: int, n: nat)
    ensures forall y | y in LiveBelow(l, user, now, n) :: y.id < n && Holds(l, user, now, y.id) && y == LiveOf(l, y.id)
    ensures forall b: nat | b < n && Holds(l, user, now, b) :: LiveOf(l, b) in LiveBelow(l, user, now, n)
  {
    if n > 0 {
      LiveBelowAre(l, user, now, n - 1);
      var before, all := LiveBelow(l, user, now, n - 1), LiveBelow(l, user, now, n);
      assert all[..|before|] == before && forall y | y in before :: y in all;
      if Holds(l, user, now, n - 1) { assert all[|before|] == LiveOf(l, n - 1); }
    }
  }

  /** The rows a charge reads are exactly the user's buckets that hold credit and have not expired. */
  lemma LiveBucketsAre(l: Book, user: string, now: int)
    requires Valid(l)
    ensures forall y | y in LiveBuckets(l, user, now) :: Holds(l, user, now, y.id) && y == LiveOf(l, y.id)
    ensures forall b: nat | Holds(l, user, now, b) :: LiveOf(l, b) in LiveBuckets(l, user, now)
  {
    LiveBelowAre(l, user, now, |l.entries|);
    SortedKeeps(Before, LiveBelow(l, user, now, |l.entries|));
    assert forall b: nat | b in l.buckets :: b < |l.entries|;
  }

  ghost function HeldIn(l: Book, user: string, now: int, kinds: set<Kind>, b: nat): int {
    if Holds(l, user, now, b) && l.buckets[b].kind in kinds then l.buckets[b].remaining else 0
  }

  /** The credit a user can spend from buckets of these kinds. */
  ghost function SpendableFrom(l: Book, user: string, now: int, kinds: set<Kind>): int {
    Sum(|l.entries|, (b: nat) => HeldIn(l, user, now, kinds, b))
  }

  const GRANTS: set<Kind> := {Allowance, Taste, Referral, Topup}

  lemma BalanceIsSpendable(l: Book, user: string, now: int)
    requires Valid(l)
    ensures Balance(l, user, now) == SpendableFrom(l, user, now, GRANTS)
  {
    forall b: nat | b < |l.entries| ensures LiveCredit(l, user, now, b) == HeldIn(l, user, now, GRANTS, b) {
      if b in l.buckets { assert BucketOk(l, b); }
    }
    SumSame(|l.entries|, (b: nat) => LiveCredit(l, user, now, b), (b: nat) => HeldIn(l, user, now, GRANTS, b));
  }

  function KindsOf(rank: nat): set<Kind> {
    if rank == 1 then {Allowance} else if rank == 2 then {Taste, Referral} else {Topup}
  }

  lemma {:induction false} HeldAtAppends(s: seq<Live>, x: Live, rank: nat)
    ensures HeldAt(s + [x], rank) == HeldAt(s, rank) + if Rank(x.kind) == rank then x.remaining else 0
  {
    if s == [] {
      assert [] + [x] == [x];
    } else {
      HeldAtAppends(s[1..], x, rank);
      assert (s + [x])[1..] == s[1..] + [x];
    }
  }

  lemma {:induction false} HeldAtInsert(x: Live, s: seq<Live>, rank: nat)
    ensures HeldAt(Insert(Before, x, s), rank) == HeldAt(s, rank) + if Rank(x.kind) == rank then x.remaining else 0
  {
    if s == [] || !Before(s[0], x) {
      assert ([x] + s)[1..] == s;
    } else {
      HeldAtInsert(x, s[1..], rank);
      assert ([s[0]] + Insert(Before, x, s[1..]))[1..] == Insert(Before, x, s[1..]);
    }
  }

  lemma {:induction false} HeldAtSorted(s: seq<Live>, rank: nat)
    ensures HeldAt(SpendSorted(s), rank) == HeldAt(s, rank)
  {
    if s != [] {
      HeldAtSorted(s[1..], rank);
      HeldAtInsert(s[0], SpendSorted(s[1..]), rank);
    }
  }

  lemma HeldAtGrows(l: Book, user: string, now: int, b: nat, rank: nat)
    requires Valid(l) && b < |l.entries| && 1 <= rank <= 3
    ensures HeldAt(LiveBelow(l, user, now, b + 1), rank)
      == HeldAt(LiveBelow(l, user, now, b), rank) + HeldIn(l, user, now, KindsOf(rank), b)
  {
    var before, all := LiveBelow(l, user, now, b), LiveBelow(l, user, now, b + 1);
    if b in l.buckets { assert BucketOk(l, b); }
    if Holds(l, user, now, b) {
      HeldAtAppends(before, LiveOf(l, b), rank);
      assert all == before + [LiveOf(l, b)];
    } else {
      assert all == before;
    }
  }

  lemma {:induction false} HeldAtIsASum(l: Book, user: string, now: int, n: nat, rank: nat)
    requires Valid(l) && n <= |l.entries| && 1 <= rank <= 3
    ensures HeldAt(LiveBelow(l, user, now, n), rank) == Sum(n, (b: nat) => HeldIn(l, user, now, KindsOf(rank), b))
  {
    if n > 0 {
      HeldAtIsASum(l, user, now, n - 1, rank);
      HeldAtGrows(l, user, now, n - 1, rank);
    }
  }

  /** The parts of a reported balance: allowance; taste and referral; top-up. */
  lemma PartsAreByKind(l: Book, user: string, now: int, rank: nat)
    requires Valid(l) && 1 <= rank <= 3
    ensures HeldAt(LiveBuckets(l, user, now), rank) == SpendableFrom(l, user, now, KindsOf(rank))
  {
    HeldAtSorted(LiveBelow(l, user, now, |l.entries|), rank);
    HeldAtIsASum(l, user, now, |l.entries|, rank);
  }

  // ------------------------------------------------------------------------------------------
  // The report
  // ------------------------------------------------------------------------------------------

  /** `getBalance`: refused unless the module is on. */
  method GetBalance(l: Book, switch: Switch, user: string, now: int) returns (r: Result<Report, Refusal>)
    requires Valid(l)
    ensures r == Err(IsOff) <==> switch != On
    ensures r.Ok? <==> switch == On
    ensures r.Ok? ==>
      && r.value.credits == Balance(l, user, now) == SpendableFrom(l, user, now, GRANTS)
      && r.value.allowance + r.value.tasteReferral + r.value.topup == r.value.credits
      && r.value.allowance == SpendableFrom(l, user, now, {Allowance})
      && r.value.tasteReferral == SpendableFrom(l, user, now, {Taste, Referral})
      && r.value.topup == SpendableFrom(l, user, now, {Topup})
      && r.value.nextExpiryAt == NextExpiry(LiveBuckets(l, user, now))
  {
    if switch != On { return Err(IsOff); }
    var buckets := LiveBuckets(l, user, now);
    LiveBucketsAreTheBalance(l, user, now);
    BalanceIsSpendable(l, user, now);
    PartsAddUp(buckets);
    PartsAreByKind(l, user, now, 1);
    PartsAreByKind(l, user, now, 2);
    PartsAreByKind(l, user, now, 3);
    r := Ok(Report(Total(buckets), HeldAt(buckets, 1), HeldAt(buckets, 2), HeldAt(buckets, 3), NextExpiry(buckets)));
  }

  /** Every bucket of the user that can still be spent is read. */
  lemma {:induction false} LiveBelowHasAll(l: Book, user: string, now: int, n: nat, b: nat)
    requires b < n && LiveCredit(l, user, now, b) > 0
    ensures exists y | y in LiveBelow(l, user, now, n) :: y.id == b && y.expiresAt == l.buckets[b].expiresAt
  {
    if b < n - 1 {
      LiveBelowHasAll(l, user, now, n - 1, b);
    } else {
      var live := LiveBelow(l, user, now, n);
      assert live[|live| - 1].id == b;
    }
  }

  lemma {:induction false} LiveBelowDates(l: Book, user: string, now: int, n: nat, y: Live)
    requires y in LiveBelow(l, user, now, n)
    ensures y.id < n && LiveCredit(l, user, now, y.id) > 0 && y.expiresAt == l.buckets[y.id].expiresAt
  {
    if n > 0 && y in LiveBelow(l, user, now, n - 1) { LiveBelowDates(l, user, now, n - 1, y); }
  }

  /** A bucket counted now is counted until the next expiry. */
  lemma CreditLasts(l: Book, user: string, now: int, t: int, b: nat)
    requires Valid(l) && now <= t && b < |l.entries|
    requires var next := NextExpiry(LiveBuckets(l, user, now)); next.None? || t < next.value
    ensures LiveCredit(l, user, t, b) == LiveCredit(l, user, now, b)
  {
    if LiveCredit(l, user, now, b) > 0 {
      LiveBelowHasAll(l, user, now, |l.entries|, b);
      SortedKeeps(Before, LiveBelow(l, user, now, |l.entries|));
    } else if b in l.buckets {
      assert BucketOk(l, b);
    }
  }

  /** With nothing written meanwhile, the balance stays what it is until `nextExpiryAt`. */
  lemma BalanceLastsUntilTheNextExpiry(l: Book, user: string, now: int, t: int)
    requires Valid(l) && now <= t
    requires var next := NextExpiry(LiveBuckets(l, user, now)); next.None? || t < next.value
    ensures Balance(l, user, t) == Balance(l, user, now)
  {
    forall b: nat | b < |l.entries| ensures LiveCredit(l, user, t, b) == LiveCredit(l, user, now, b) {
      CreditLasts(l, user, now, t, b);
    }
    SumSame(|l.entries|, (b: nat) => LiveCredit(l, user, t, b), (b: nat) => LiveCredit(l, user, now, b));
  }

  lemma CreditNeverGrows(l: Book, user: string, now: int, t: int, b: nat)
    requires Valid(l) && now <= t
    ensures LiveCredit(l, user, t, b) <= LiveCredit(l, user, now, b)
  {
    if b in l.buckets { assert BucketOk(l, b); }
  }

  lemma NextExpiryIsABucket(l: Book, user: string, now: int) returns (b: nat)
    requires NextExpiry(LiveBuckets(l, user, now)).Some?
    ensures b < |l.entries| && LiveCredit(l, user, now, b) > 0
    ensures b in l.buckets && l.buckets[b].expiresAt == NextExpiry(LiveBuckets(l, user, now))
  {
    var live := LiveBelow(l, user, now, |l.entries|);
    SortedKeeps(Before, live);
    var y :| y in LiveBuckets(l, user, now) && y.expiresAt == NextExpiry(LiveBuckets(l, user, now));
    LiveBelowDates(l, user, now, |l.entries|, y);
    b := y.id;
  }

  /** At that instant it falls, and from then on it is lower. */
  lemma BalanceFallsAtTheNextExpiry(l: Book, user: string, now: int, t: int)
    requires Valid(l) && NextExpiry(LiveBuckets(l, user, now)).Some? && t >= NextExpiry(LiveBuckets(l, user, now)).value
    ensures Balance(l, user, t) < Balance(l, user, now)
  {
    var k := NextExpiryIsABucket(l, user, now);
    assert now < t && LiveCredit(l, user, t, k) == 0;
    forall b: nat | b < |l.entries| ensures LiveCredit(l, user, t, b) <= LiveCredit(l, user, now, b) {
      CreditNeverGrows(l, user, now, t, b);
    }
    SumLess(|l.entries|, (b: nat) => LiveCredit(l, user, t, b), (b: nat) => LiveCredit(l, user, now, b), k);
  }
}
